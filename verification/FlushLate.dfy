/**
 A run of the flush sequencer after which the pending time is older than the only request that waits: the one
 kind of completion that leaves it wrong.
 */
module FlushLate {
  import Lists
  import opened Flush
  import opened FlushProofs
  import opened FlushInputs
  import opened FlushTiming
  import opened FlushDates

  const PLAIN := Mask(true, false, false)

  /** FLUSH without data. */
  function Plain(x: Rq, now: int): Action {
    DoInsert(x, true, false, 0, true, false, now)
  }

  /** What matters of a state in which no data is in flight. */
  datatype View = View(
    q0: seq<Rq>, q1: seq<Rq>, pendingIdx: int, runningIdx: int, since: int, head: seq<Entry>,
    done: map<Rq, Mask>, joined: map<Rq, int>, known: set<Rq>)

  /** The state looks like `v`, and the driver has the flush, or not. */
  ghost predicate Looks(s: State, v: View, fetched: bool) {
    && Inv(s) && s.dataInFlight == [] && s.flushQueue == [v.q0, v.q1] && s.pendingIdx == v.pendingIdx
    && s.runningIdx == v.runningIdx && s.pendingSince == v.since && s.queueHead == v.head
    && s.done == v.done && s.joined == v.joined && s.policy.Keys == v.known
    && (FlushRq in s.driver <==> fetched)
  }

  /** A new request waits on the first queue, and starts a flush. */
  lemma Starts(s: State, v: View, x: Rq, timeout: int)
    requires Looks(s, v, false) && x !in v.known && v.q0 == v.q1 == [] && v.pendingIdx == v.runningIdx == 0
    ensures Leads(s, Plain(x, 0), timeout, Act(s, Plain(x, 0), timeout))
    ensures Looks(Act(s, Plain(x, 0), timeout),
                  View([x], [], 1, 0, 0, v.head + [FlushRq], v.done[x := PLAIN.Not()], v.joined[x := 0],
                       v.known + {x}), false)
  {
    QueueNew(s, x, PLAIN, timeout, 0);
    ActKeeps(s, Plain(x, 0), timeout);
    assert [] + [x] == [x] && s.flushQueue[0 := [x]] == [[x], []];
  }

  /** A new request waits behind those that wait, while a flush is in flight. */
  lemma Waits(s: State, v: View, a: Action, p: Mask, timeout: int)
    requires Looks(s, v, false) && a.DoInsert? && a.rq !in v.known && a.rq !in v.q0 && a.rq !in v.q1
    requires v.pendingIdx != v.runningIdx && p.pre && !p.data
    requires Policy(a.devFlush, a.devFua, a.sectors, a.flush, a.fua) == p
    ensures Leads(s, a, timeout, Act(s, a, timeout))
    ensures var i := v.pendingIdx;
            Looks(Act(s, a, timeout),
                  v.(q0 := if i == 0 then v.q0 + [a.rq] else v.q0, q1 := if i == 1 then v.q1 + [a.rq] else v.q1,
                     since := if (if i == 0 then v.q0 else v.q1) == [] then a.now else v.since,
                     done := v.done[a.rq := p.Not()], joined := v.joined[a.rq := a.now],
                     known := v.known + {a.rq}), false)
  {
    QueueNew(s, a.rq, p, timeout, a.now);
    ActKeeps(s, a, timeout);
    var i := v.pendingIdx;
    assert s.flushQueue[i] == if i == 0 then v.q0 else v.q1;
    assert v.head + [] == v.head;
    assert s.flushQueue[i := s.flushQueue[i] + [a.rq]] ==
           [if i == 0 then v.q0 + [a.rq] else v.q0, if i == 1 then v.q1 + [a.rq] else v.q1];
  }

  /** The flush goes to the driver. */
  lemma Fetched(s: State, v: View, timeout: int)
    requires Looks(s, v, false) && v.head == [FlushRq]
    ensures Leads(s, DoFetch, timeout, Act(s, DoFetch, timeout))
    ensures Looks(Act(s, DoFetch, timeout), v.(head := []), true)
  {
    ActKeeps(s, DoFetch, timeout);
  }

  /** The turn of a request that waited for a plain flush: it ends, and the next flush is issued. */
  lemma LastTurn(s: State, x: Rq, timeout: int)
    requires Mid(s, 0, true) && s.flushQueue[0] == [x] && s.flushQueue[1] != [] && s.pendingIdx == 1
    requires s.dataInFlight == [] && x in s.done && s.done[x] == PLAIN.Not()
    ensures var t := TurnOf(s, x, true, timeout, 0);
            && t.flushQueue == [[], s.flushQueue[1]] && t.pendingIdx == 0 && t.runningIdx == 1
            && t.pendingSince == s.pendingSince && t.dataInFlight == [] && t.joined == s.joined
            && t.done == s.done[x := ALL]
  {
    var t := TurnOf(s, x, true, timeout, 0);
    OpenTurn(s, 0, true, timeout, 0);
    TurnQueues(s, 0, true, 0, 0);
    TurnKicks(s, 0, true, timeout, 0);
    assert s.flushQueue[0][1..] == [];
    assert s.flushQueue[1] + [] == s.flushQueue[1];
    assert t.flushQueue == [t.flushQueue[0], t.flushQueue[1]];
  }

  /** A plain flush is over for its one request: it ends, and the next flush is issued for those that wait. */
  lemma OneOver(s: State, v: View, x: Rq, timeout: int)
    requires Looks(s, v, true) && v.q0 == [x] && v.q1 != [] && v.pendingIdx == 1 && v.runningIdx == 0
    requires x in v.done && v.done[x] == PLAIN.Not()
    ensures Leads(s, DoEndFlush(true, 0), timeout, Act(s, DoEndFlush(true, 0), timeout))
    ensures Looks(Act(s, DoEndFlush(true, 0), timeout),
                  View([], v.q1, 0, 1, v.since, v.head + [FlushRq], v.done[x := ALL], v.joined, v.known), false)
  {
    ActKeeps(s, DoEndFlush(true, 0), timeout);
    EndFlushPolicy(s, true, timeout, 0);
    RetireKeeps(s, true);
    LastTurn(RetireFlush(s, true), x, timeout);
  }

  const V0 := View([], [], 0, 0, 0, [], map[], map[], {})
  const V1 := View([1], [], 1, 0, 0, [FlushRq], V0.done[1 := PLAIN.Not()], V0.joined[1 := 0], {1})
  const V2 := V1.(q1 := [2], done := V1.done[2 := PLAIN.Not()], joined := V1.joined[2 := 0], known := {1, 2})
  const V3 := V2.(q1 := [2, 3], done := V2.done[3 := ASKED.Not()], joined := V2.joined[3 := 0], known := {1, 2, 3})
  const V4 := V3.(head := [])
  const V5 := View([], [2, 3], 0, 1, 0, [FlushRq], V3.done[1 := ALL], V3.joined, {1, 2, 3})
  const V6 := V5.(q0 := [4], since := 5, done := V5.done[4 := PLAIN.Not()], joined := V5.joined[4 := 5],
                  known := {1, 2, 3, 4})
  const V7 := V6.(head := [])

  lemma Insert1(timeout: int) returns (s: State)
    ensures Leads(INITIAL, Plain(1, 0), timeout, s) && Looks(s, V1, false)
  {
    InitialInv();
    assert Looks(INITIAL, V0, false);
    Starts(INITIAL, V0, 1, timeout);
    s := Act(INITIAL, Plain(1, 0), timeout);
    assert V0.head + [FlushRq] == [FlushRq] && V0.known + {1} == {1};
  }

  lemma Insert2(s: State, timeout: int) returns (t: State)
    requires Looks(s, V1, false)
    ensures Leads(s, Plain(2, 0), timeout, t) && Looks(t, V2, false)
  {
    Waits(s, V1, Plain(2, 0), PLAIN, timeout);
    t := Act(s, Plain(2, 0), timeout);
    assert V1.q1 + [2] == [2] && V1.known + {2} == {1, 2};
  }

  lemma Insert3(s: State, timeout: int) returns (t: State)
    requires Looks(s, V2, false)
    ensures Leads(s, Empty(3), timeout, t) && Looks(t, V3, false)
  {
    Waits(s, V2, Empty(3), ASKED, timeout);
    t := Act(s, Empty(3), timeout);
    assert V2.q1 + [3] == [2, 3] && V2.known + {3} == {1, 2, 3};
  }

  lemma Flush1(s: State, timeout: int) returns (t: State)
    requires Looks(s, V4, true)
    ensures Leads(s, DoEndFlush(true, 0), timeout, t) && Looks(t, V5, false)
  {
    OneOver(s, V4, 1, timeout);
    t := Act(s, DoEndFlush(true, 0), timeout);
    assert V4.head + [FlushRq] == [FlushRq];
  }

  lemma Insert4(s: State, timeout: int) returns (t: State)
    requires Looks(s, V5, false)
    ensures Leads(s, Plain(4, 5), timeout, t) && Looks(t, V6, false)
  {
    Waits(s, V5, Plain(4, 5), PLAIN, timeout);
    t := Act(s, Plain(4, 5), timeout);
    assert V5.q0 + [4] == [4] && V5.known + {4} == {1, 2, 3, 4};
  }

  const LATE := [Plain(1, 0), Plain(2, 0), Empty(3), DoFetch, DoEndFlush(true, 0), Plain(4, 5), DoFetch]

  lemma LateReaches(timeout: int) returns (s: State)
    ensures Reaches(LATE, timeout, s) && Looks(s, V7, true)
  {
    var s1 := Insert1(timeout);
    var s2 := Insert2(s1, timeout);
    var s3 := Insert3(s2, timeout);
    var s4 := Act(s3, DoFetch, timeout);
    Fetched(s3, V3, timeout);
    var s5 := Flush1(s4, timeout);
    var s6 := Insert4(s5, timeout);
    s := Act(s6, DoFetch, timeout);
    Fetched(s6, V6, timeout);
    Seven(timeout, Plain(1, 0), s1, Plain(2, 0), s2, Empty(3), s3, DoFetch, s4, DoEndFlush(true, 0), s5,
          Plain(4, 5), s6, DoFetch, s);
  }

  /** The last request of the walked queue goes round, after a flush has been issued for request 4. */
  lemma RoundLate(s: State, timeout: int)
    requires Looks(s, V7, true)
    ensures Dated(s) && GoesRoundLate(s, true, timeout, 9)
    ensures Mid(RetireFlush(s, true), 1, true)
  {
    RetireKeeps(s, true);
    assert s.flushQueue[1][1..] == [3];
  }

  lemma AfterNine(s: State, timeout: int)
    requires Looks(s, V7, true) && Mid(RetireFlush(s, true), 1, true)
    requires OnlyLast(RetireFlush(s, true), [3], true)
    ensures var t := EndFlush(s, true, timeout, 9);
            t.flushQueue[t.pendingIdx] == [3] && t.pendingSince == 5 && 3 in t.joined && t.joined[3] == 9
  {
    var w := RetireFlush(s, true);
    assert w.flushQueue[1][1..] == [3];
    OpenTurn(w, 1, true, timeout, 9);
    OthersAgain(w, 1, true, timeout, 9);
    WalkOnce(w, 1, true, timeout, 9);
    WalkIssued(TurnOf(w, 2, true, timeout, 9), 1, true, timeout, 9);
  }

  /**
   Request 3 wants two flushes and has no data. The flush for requests 2 and 3 is over at 9, and another is
   issued for request 4, which has waited since 5. Request 3 then joins an empty queue at 9, but the pending
   time stays 5.
   */
  lemma PendingTimeTooOld(timeout: int) returns (s: State)
    ensures Reaches(LATE, timeout, s) && Shape(s) && Dated(s) && Enabled(s, DoEndFlush(true, 9))
    ensures var t := Act(s, DoEndFlush(true, 9), timeout);
            && !Dated(t) && t.flushQueue[t.pendingIdx] == [3] && t.pendingSince == 5
            && 3 in t.joined && t.joined[3] == 9
  {
    s := LateReaches(timeout);
    RoundLate(s, timeout);
    assert s.flushQueue[1][1..] == [3];
    assert forall y :: Again(RetireFlush(s, true), y, true) == Again(s, y, true);
    AfterNine(s, timeout);
  }
}
