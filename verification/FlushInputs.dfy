/**
 A run of the flush sequencer in which a request without data is met twice by the same loop of
 flush_end_io, and ends after one flush where it asked for two.
 */
module FlushInputs {
  import Lists
  import opened Flush
  import opened FlushProofs

  const ASKED := Mask(true, false, true)
  const FIRST := Mask(false, true, false)      // neither flush is behind it
  const SECOND := Mask(true, true, false)      // the first one is
  const ALL := Mask(true, true, true)

  /** FLUSH and FUA without data, on a device with a cache and without FUA. */
  function Empty(x: Rq): Action {
    DoInsert(x, true, false, 0, true, true, 0)
  }

  // The histories and states of the run: three such requests, then two flushes.

  const H1 := Then(Then(Start, Inserted(1)), FlushIssued(0))
  const H3 := Then(Then(H1, Inserted(2)), Inserted(3))
  const H5 := Then(Then(H3, FlushCompleted(0, true)), FlushIssued(1))
  const H6 := Then(Then(H5, FlushCompleted(1, true)), FlushIssued(2))
  const H7 := Then(Then(H6, Ended(1, true)), Ended(3, true))

  const S1 := State([[1], []], 1, 0, 0, [], [FlushRq], multiset{}, {1}, map[1 := ASKED], map[1 := FIRST], 1, H1,
                    map[1 := 0])
  const S2 := State([[1], [2]], 1, 0, 0, [], [FlushRq], multiset{}, {1, 2}, map[1 := ASKED, 2 := ASKED],
                    map[1 := FIRST, 2 := FIRST], 1, Then(H1, Inserted(2)), map[1 := 0, 2 := 0])
  const JOINED: map<Rq, int> := map x: Rq | x in {1, 2, 3} :: 0
  const POLICY := map[1 := ASKED, 2 := ASKED, 3 := ASKED]
  const S3 := State([[1], [2, 3]], 1, 0, 0, [], [FlushRq], multiset{}, {1, 2, 3}, POLICY,
                    map[1 := FIRST, 2 := FIRST, 3 := FIRST], 1, H3, JOINED)
  const S4 := S3.(queueHead := [], driver := multiset{FlushRq})
  const S5 := State([[], [2, 3, 1]], 0, 1, 0, [], [FlushRq], multiset{}, {1, 2, 3}, POLICY,
                    map[1 := SECOND, 2 := FIRST, 3 := FIRST], 2, H5, JOINED)
  const S6 := S5.(queueHead := [], driver := multiset{FlushRq})
  const S7 := State([[2], []], 1, 0, 0, [], [FlushRq], multiset{}, {2}, POLICY,
                    map[1 := ALL, 2 := SECOND, 3 := ALL], 3, H7, JOINED)

  /**
   A request without data that is on no list waits for a flush; one is issued at once if none is in flight and
   no data is.
   */
  lemma QueueNew(s: State, x: Rq, policy: Mask, timeout: int, now: int)
    requires Shape(s) && x !in s.flushQueue[0] && x !in s.flushQueue[1] && s.dataInFlight == []
    requires policy.pre && !policy.data
    ensures var p, idle := s.pendingIdx, s.pendingIdx == s.runningIdx;
            Insert(s, x, policy, timeout, now) ==
            State(s.flushQueue[p := s.flushQueue[p] + [x]], if idle then 1 - p else p, s.runningIdx,
                  if s.flushQueue[p] == [] then now else s.pendingSince, [],
                  s.queueHead + (if idle then [FlushRq] else []), s.driver, s.sequenced + {x},
                  s.policy[x := policy], s.done[x := policy.Not()], s.flushes + (if idle then 1 else 0),
                  if idle then Then(Then(s.log, Inserted(x)), FlushIssued(s.flushes)) else Then(s.log, Inserted(x)),
                  s.joined[x := now])
  {
    Absent(s.flushQueue[0], x);
    Absent(s.flushQueue[1], x);
    var s1 := Registered(s, x, policy);
    var s2 := Sequenced(s1, x);
    assert s2.done[x := policy.Not()] == s.done[x := policy.Not()];
    var s3 := Detach(s2, x, policy.Not());
    assert [s.flushQueue[0], s.flushQueue[1]] == s.flushQueue;
    assert s3 == s2.(done := s.done[x := policy.Not()]);
    assert s.queueHead + [] == s.queueHead;
  }

  lemma Absent(l: seq<Rq>, x: Rq)
    requires x !in l
    ensures Lists.RemoveAll(l, x) == l
  {
    RemoveCount(l, x, x);
  }

  lemma HeadGone(l: seq<Rq>, x: Rq, tail: seq<Rq>)
    requires l == [x] + tail && x !in tail
    ensures Lists.RemoveAll(l, x) == tail
  {
    assert l[1..] == tail;
    Absent(tail, x);
  }

  /** The head of the walked queue, taken off it. */
  lemma HeadDetached(s: State, r: int, x: Rq, tail: seq<Rq>, steps: Mask)
    requires Shape(s) && 0 <= r < 2 && s.flushQueue[r] == [x] + tail && x !in tail && x !in s.flushQueue[1 - r]
    requires s.dataInFlight == [] && x in s.done
    ensures Detach(s, x, steps) == s.(flushQueue := s.flushQueue[r := tail], done := s.done[x := s.done[x].Or(steps)])
  {
    HeadGone(s.flushQueue[r], x, tail);
    Absent(s.flushQueue[1 - r], x);
    assert r == 0 || r == 1;
    assert [Lists.RemoveAll(s.flushQueue[0], x), Lists.RemoveAll(s.flushQueue[1], x)] == s.flushQueue[r := tail];
  }

  /** Its first flush is over: it waits for the second, on the queue that is pending now. */
  lemma FirstOver(s: State, r: int, x: Rq, tail: seq<Rq>, timeout: int)
    requires Shape(s) && 0 <= r < 2 && s.flushQueue[r] == [x] + tail && x !in tail && x !in s.flushQueue[1 - r]
    requires s.dataInFlight == [] && s.pendingSince == 0 && x in s.done && s.done[x] == FIRST && s.runningIdx == 1 - r
    ensures var q, idle := s.flushQueue[r := tail], s.pendingIdx == 1 - r;
            var p := s.pendingIdx;
            TurnOf(s, x, true, timeout, 0) ==
            s.(flushQueue := q[p := q[p] + [x]], pendingIdx := if idle then r else p, done := s.done[x := SECOND],
               queueHead := s.queueHead + (if idle then [FlushRq] else []),
               flushes := s.flushes + (if idle then 1 else 0),
               log := if idle then Then(s.log, FlushIssued(s.flushes)) else s.log, joined := s.joined[x := 0])
  {
    HeadDetached(s, r, x, tail, Bit(Preflush));
    assert s.queueHead + [] == s.queueHead;
  }

  /** Its second flush is taken to be over as well: it ends. */
  lemma SecondOver(s: State, r: int, x: Rq, tail: seq<Rq>, timeout: int)
    requires Shape(s) && 0 <= r < 2 && s.flushQueue[r] == [x] + tail && x !in tail && x !in s.flushQueue[1 - r]
    requires s.dataInFlight == [] && x in s.done && s.done[x] == SECOND && s.runningIdx == 1 - r && s.pendingIdx == r
    ensures TurnOf(s, x, true, timeout, 0) ==
            s.(flushQueue := s.flushQueue[r := tail], done := s.done[x := ALL], sequenced := s.sequenced - {x},
               log := Then(s.log, Ended(x, true)))
  {
    HeadDetached(s, r, x, tail, Bit(Postflush));
  }

  lemma Insert1(timeout: int)
    ensures Act(INITIAL, Empty(1), timeout) == S1
  {
    QueueNew(INITIAL, 1, ASKED, timeout, 0);
    assert INITIAL.flushQueue[0] + [1] == [1];
    assert INITIAL.flushQueue[0 := [1]] == S1.flushQueue;
    assert INITIAL.queueHead + [FlushRq] == [FlushRq];
    assert INITIAL.sequenced + {1} == {1};
  }

  lemma Insert2(timeout: int)
    ensures Act(S1, Empty(2), timeout) == S2
  {
    QueueNew(S1, 2, ASKED, timeout, 0);
    assert S1.flushQueue[1] + [2] == [2];
    assert S1.flushQueue[1 := [2]] == S2.flushQueue;
    assert S1.queueHead + [] == S1.queueHead;
    assert S1.sequenced + {2} == {1, 2};
  }

  lemma Insert3(timeout: int)
    ensures Act(S2, Empty(3), timeout) == S3
  {
    QueueNew(S2, 3, ASKED, timeout, 0);
    assert S2.flushQueue[1] + [3] == [2, 3];
    assert S2.flushQueue[1 := [2, 3]] == S3.flushQueue;
    assert S2.queueHead + [] == S2.queueHead;
    assert S2.sequenced + {3} == {1, 2, 3};
  }

  lemma Fetches(timeout: int)
    ensures Act(S3, DoFetch, timeout) == S4 && Act(S5, DoFetch, timeout) == S6
  {
  }

  lemma WalkOn(s: State, r: int, t: State, timeout: int)
    requires Shape(s) && 0 <= r < 2 && s.flushQueue[r] != [] && TurnOf(s, s.flushQueue[r][0], true, timeout, 0) == t
    ensures WalkQueue(s, r, true, timeout, 0) ==
            if |s.flushQueue[r]| == 1 then t else WalkQueue(t, r, true, timeout, 0)
  {
  }

  const W := RetireFlush(S4, true)

  lemma Turn0(timeout: int)
    ensures TurnOf(W, 1, true, timeout, 0) == S5
  {
    assert W.flushQueue[0] == [1] + [];
    FirstOver(W, 0, 1, [], timeout);
    var q := W.flushQueue[0 := []];
    assert q[1] + [1] == [2, 3, 1];
    assert q[1 := [2, 3, 1]] == S5.flushQueue;
    assert W.queueHead + [FlushRq] == [FlushRq];
    assert W.done[1 := SECOND] == S5.done;
    assert JOINED[1 := 0] == JOINED;
    assert W.driver == multiset{};
  }

  /** The first flush: its one request goes behind the two that wait for the next. */
  lemma FirstFlush(timeout: int)
    ensures Act(S4, DoEndFlush(true, 0), timeout) == S5
  {
    Turn0(timeout);
    WalkOn(W, 0, S5, timeout);
  }

  // The turns of the second flush.
  const W0 := RetireFlush(S6, true)
  const W1 := State([[2], [3, 1]], 1, 0, 0, [], [FlushRq], multiset{}, {1, 2, 3}, POLICY,
                    map[1 := SECOND, 2 := SECOND, 3 := FIRST], 3, H6, JOINED)
  const W2 := W1.(flushQueue := [[2], [1, 3]], done := map[1 := SECOND, 2 := SECOND, 3 := SECOND])
  const W3 := W2.(flushQueue := [[2], [3]], done := map[1 := ALL, 2 := SECOND, 3 := SECOND], sequenced := {2, 3},
                  log := Then(H6, Ended(1, true)))

  lemma Turn1(timeout: int)
    ensures TurnOf(W0, 2, true, timeout, 0) == W1
  {
    assert W0.flushQueue[1] == [2] + [3, 1];
    FirstOver(W0, 1, 2, [3, 1], timeout);
    var q := W0.flushQueue[1 := [3, 1]];
    assert q[0] + [2] == [2];
    assert q[0 := [2]] == W1.flushQueue;
    assert W0.queueHead + [FlushRq] == [FlushRq];
    assert W0.done[2 := SECOND] == W1.done;
    assert JOINED[2 := 0] == JOINED;
    assert W0.driver == multiset{};
  }

  lemma Turn2(timeout: int)
    ensures TurnOf(W1, 3, true, timeout, 0) == W2
  {
    assert W1.flushQueue[1] == [3] + [1];
    FirstOver(W1, 1, 3, [1], timeout);
    var q := W1.flushQueue[1 := [1]];
    assert q[1] + [3] == [1, 3];
    assert q[1 := [1, 3]] == W2.flushQueue;
    assert W1.queueHead + [] == W1.queueHead;
    assert W1.done[3 := SECOND] == W2.done;
    assert JOINED[3 := 0] == JOINED;
  }

  lemma Turn3(timeout: int)
    ensures TurnOf(W2, 1, true, timeout, 0) == W3
  {
    assert W2.flushQueue[1] == [1] + [3];
    SecondOver(W2, 1, 1, [3], timeout);
    assert W2.flushQueue[1 := [3]] == W3.flushQueue;
    assert W2.done[1 := ALL] == W3.done;
    assert W2.sequenced - {1} == W3.sequenced;
  }

  lemma Turn4(timeout: int)
    ensures TurnOf(W3, 3, true, timeout, 0) == S7
  {
    assert W3.flushQueue[1] == [3] + [];
    SecondOver(W3, 1, 3, [], timeout);
    assert W3.flushQueue[1 := []] == S7.flushQueue;
    assert W3.done[3 := ALL] == S7.done;
    assert W3.sequenced - {3} == S7.sequenced;
  }

  lemma SecondHalf(timeout: int)
    ensures WalkQueue(W2, 1, true, timeout, 0) == S7
  {
    Turn3(timeout);
    WalkOn(W2, 1, W3, timeout);
    Turn4(timeout);
    WalkOn(W3, 1, S7, timeout);
  }

  /** The second flush: request 3 goes back to the queue that is walked, and is met again there. */
  lemma SecondFlush(timeout: int)
    ensures Act(S6, DoEndFlush(true, 0), timeout) == S7
  {
    Turn1(timeout);
    WalkOn(W0, 1, W1, timeout);
    Turn2(timeout);
    WalkOn(W1, 1, W2, timeout);
    SecondHalf(timeout);
  }

  const RUN := [Empty(1), Empty(2), Empty(3), DoFetch, DoEndFlush(true, 0), DoFetch, DoEndFlush(true, 0)]

  /** An action that is possible in `s` and leads to `t`. */
  ghost predicate Leads(s: State, a: Action, timeout: int, t: State) {
    Shape(s) && Enabled(s, a) && Act(s, a, timeout) == t
  }

  lemma Onward(run: seq<Action>, timeout: int, s: State, a: Action, t: State)
    requires Reaches(run, timeout, s) && Leads(s, a, timeout, t)
    ensures Reaches(run + [a], timeout, t)
  {
    assert (run + [a])[..|run|] == run;
  }

  lemma AlwaysOnward(timeout: int)
    ensures forall run, s, a, t {:trigger Reaches(run, timeout, s), Leads(s, a, timeout, t)} ::
              Reaches(run, timeout, s) && Leads(s, a, timeout, t) ==> Reaches(run + [a], timeout, t)
  {
    forall run, s, a, t | Reaches(run, timeout, s) && Leads(s, a, timeout, t) ensures Reaches(run + [a], timeout, t) {
      Onward(run, timeout, s, a, t);
    }
  }

  /** Seven steps in a row. */
  lemma InARow<S, A>(reaches: (seq<A>, S) -> bool, leads: (S, A, S) -> bool, s0: S, a1: A, s1: S, a2: A, s2: S,
                     a3: A, s3: S, a4: A, s4: S, a5: A, s5: S, a6: A, s6: S, a7: A, s7: S)
    requires forall run, s, a, t {:trigger reaches(run, s), leads(s, a, t)} ::
               reaches(run, s) && leads(s, a, t) ==> reaches(run + [a], t)
    requires reaches([], s0) && leads(s0, a1, s1) && leads(s1, a2, s2) && leads(s2, a3, s3) && leads(s3, a4, s4)
    requires leads(s4, a5, s5) && leads(s5, a6, s6) && leads(s6, a7, s7)
    ensures reaches([a1, a2, a3, a4, a5, a6, a7], s7)
  {
    var none: seq<A> := [];
    assert none + [a1] + [a2] + [a3] + [a4] + [a5] + [a6] + [a7] == [a1, a2, a3, a4, a5, a6, a7];
  }

  lemma LeadsInsert(timeout: int)
    ensures Leads(INITIAL, Empty(1), timeout, S1) && Leads(S1, Empty(2), timeout, S2) &&
            Leads(S2, Empty(3), timeout, S3)
  {
    Insert1(timeout);
    Insert2(timeout);
    Insert3(timeout);
  }

  lemma LeadsFetch(timeout: int)
    ensures Leads(S3, DoFetch, timeout, S4) && Leads(S5, DoFetch, timeout, S6)
  {
    Fetches(timeout);
  }

  lemma LeadsFirst(timeout: int)
    ensures Leads(S4, DoEndFlush(true, 0), timeout, S5)
  {
    FirstFlush(timeout);
  }

  lemma LeadsSecond(timeout: int)
    ensures Leads(S6, DoEndFlush(true, 0), timeout, S7)
  {
    SecondFlush(timeout);
  }

  /** Seven actions, each possible after the ones before, are a run. */
  lemma Seven(timeout: int, a1: Action, s1: State, a2: Action, s2: State, a3: Action, s3: State, a4: Action, s4: State,
              a5: Action, s5: State, a6: Action, s6: State, a7: Action, s7: State)
    requires Leads(INITIAL, a1, timeout, s1) && Leads(s1, a2, timeout, s2) && Leads(s2, a3, timeout, s3)
    requires Leads(s3, a4, timeout, s4) && Leads(s4, a5, timeout, s5) && Leads(s5, a6, timeout, s6)
    requires Leads(s6, a7, timeout, s7)
    ensures Reaches([a1, a2, a3, a4, a5, a6, a7], timeout, s7)
  {
    var reaches := (run, s) => Reaches(run, timeout, s);
    var leads := (s, a, t) => Leads(s, a, timeout, t);
    AlwaysOnward(timeout);
    InARow(reaches, leads, INITIAL, a1, s1, a2, s2, a3, s3, a4, s4, a5, s5, a6, s6, a7, s7);
  }

  /** The run is possible from the empty queue. */
  lemma RunReaches(timeout: int)
    ensures Reaches(RUN, timeout, S7)
  {
    LeadsInsert(timeout);
    LeadsFetch(timeout);
    LeadsFirst(timeout);
    LeadsSecond(timeout);
    Seven(timeout, Empty(1), S1, Empty(2), S2, Empty(3), S3, DoFetch, S4, DoEndFlush(true, 0), S5, DoFetch, S6,
          DoEndFlush(true, 0), S7);
  }

  // What the history of the run shows.

  ghost predicate Shows(h: History, ended: nat, completed: int) {
    && Ends(h, 3) == ended && Ends(h, 2) == 0 && !IssuedAfter(h, Inserted(3), 0)
    && forall n, ok :: Saw(h, FlushCompleted(n, ok)) ==> n <= completed
  }

  lemma ShowsMore(h: History, e: Event, ended: nat, completed: int)
    requires Shows(h, ended, completed) && (e == FlushIssued(0) ==> !Saw(h, Inserted(3)))
    requires !(e.Ended? && e.rq == 2)
    ensures Shows(Then(h, e), ended + (if e.Ended? && e.rq == 3 then 1 else 0),
                  if e.FlushCompleted? && e.n > completed then e.n else completed)
  {
  }

  lemma RunShows()
    ensures Shows(H7, 1, 1)
  {
    assert Shows(Start, 0, -1);
    ShowsMore(Start, Inserted(1), 0, -1);
    ShowsMore(Then(Start, Inserted(1)), FlushIssued(0), 0, -1);
    ShowsMore(H1, Inserted(2), 0, -1);
    ShowsMore(Then(H1, Inserted(2)), Inserted(3), 0, -1);
    ShowsMore(H3, FlushCompleted(0, true), 0, -1);
    ShowsMore(Then(H3, FlushCompleted(0, true)), FlushIssued(1), 0, 0);
    ShowsMore(H5, FlushCompleted(1, true), 0, 0);
    ShowsMore(Then(H5, FlushCompleted(1, true)), FlushIssued(2), 0, 1);
    ShowsMore(H6, Ended(1, true), 0, 1);
    ShowsMore(Then(H6, Ended(1, true)), Ended(3, true), 0, 1);
  }

  /**
   Request 3 has asked for two flushes and has ended, though of the flushes completed only one was
   issued after it was inserted; request 2, ahead of it, still waits for its second one.
   */
  lemma EndedAfterOneFlush(timeout: int)
    ensures Reaches(RUN, timeout, S7) && Ends(S7.log, 3) == 1 && Ends(S7.log, 2) == 0
    ensures S7.flushQueue == [[2], []] && S7.policy[3] == ASKED
    ensures forall n, ok :: Saw(S7.log, FlushCompleted(n, ok)) ==> n <= 1
    ensures !IssuedAfter(S7.log, Inserted(3), 0)
  {
    RunReaches(timeout);
    RunShows();
  }
}
