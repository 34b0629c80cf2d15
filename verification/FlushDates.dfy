/**
 What flush_pending_since means (block/blk-flush.c): the time at which the first request of the pending queue
 was queued for its flush, except after one kind of flush completion; and it is never later than that.
 */
module FlushDates {
  import Lists
  import opened Flush
  import opened FlushProofs
  import opened FlushTiming

  /** The pending time is the time at which the oldest request of the pending queue joined it. */
  ghost predicate Dated(s: State)
    requires Shape(s)
  {
    var l := s.flushQueue[s.pendingIdx];
    l != [] ==> l[0] in s.joined && s.joined[l[0]] == s.pendingSince
  }

  // ---------------------------------------------------------------------------
  // Insertions and completions of data
  // ---------------------------------------------------------------------------

  lemma StepDated(s: State, u: State, t: State, x: Rq, waits: bool, now: int)
    requires Shape(s) && Shape(u) && Shape(t) && Dated(s) && Moves(s, u, x, waits, now) && Kicks(u, t)
    requires Lists.RemoveAll(s.flushQueue[s.pendingIdx], x) == s.flushQueue[s.pendingIdx]
    requires x !in s.flushQueue[s.pendingIdx]
    requires !FlushInFlight(s) ==> s.flushQueue[1 - s.pendingIdx] == []
    ensures Dated(t)
  {
    assert s.flushQueue[s.pendingIdx] + [] == s.flushQueue[s.pendingIdx];
  }

  lemma NotThere(l: seq<Rq>, x: Rq)
    requires Count(l, x) == 0
    ensures x !in l && Lists.RemoveAll(l, x) == l
  {
    RemoveCount(l, x, x);
    assert x !in multiset(l);
  }

  lemma CompleteSeqDated(s: State, x: Rq, steps: Mask, error: bool, timeout: int, now: int)
    requires Shape(s) && Dated(s) && Count(s.flushQueue[s.pendingIdx], x) == 0
    requires !FlushInFlight(s) ==> s.flushQueue[1 - s.pendingIdx] == []
    ensures Dated(CompleteSeq(s, x, steps, error, timeout, now))
  {
    var u := Advance(s, x, steps, error, now);
    NotThere(s.flushQueue[s.pendingIdx], x);
    AdvanceMoves(s, x, steps, error, now);
    KickKicks(u, timeout, now);
    StepDated(s, u, KickFlush(u, timeout, now), x, NextStep(DoneOf(s, x).Or(steps), error) in {Preflush, Postflush},
              now);
  }

  /** A request that is not known, or whose data is in flight, waits for no flush. */
  lemma NotWaiting(s: State, x: Rq)
    requires Good(s, x) && (x !in s.policy || (x in s.sequenced && Io(x) in s.driver))
    ensures Count(s.flushQueue[0], x) == 0 && Count(s.flushQueue[1], x) == 0
  {
  }

  /** Without a flush in flight the queue that is not pending is empty. */
  ghost predicate Idle(s: State)
    requires Shape(s)
  {
    !FlushInFlight(s) ==> s.flushQueue[1 - s.pendingIdx] == []
  }

  /** The same as far as flushes are concerned. */
  ghost predicate SameFlushes(s: State, t: State) {
    && t.flushQueue == s.flushQueue && t.pendingIdx == s.pendingIdx && t.runningIdx == s.runningIdx
    && t.pendingSince == s.pendingSince && t.joined == s.joined
  }

  lemma InsertDated(s: State, x: Rq, policy: Mask, timeout: int, now: int)
    requires Shape(s) && Idle(s) && Dated(s) && !policy.Within(Bit(Data))
    requires Count(s.flushQueue[s.pendingIdx], x) == 0
    ensures Dated(Insert(s, x, policy, timeout, now))
  {
    InsertUnfolds(s, x, policy, timeout, now);
    var s2 := Sequenced(Registered(s, x, policy), x);
    assert SameFlushes(s, s2);
    CompleteSeqDated(s2, x, policy.Not(), false, timeout, now);
  }

  lemma EndIoDated(s: State, x: Rq, ok: bool, timeout: int, now: int)
    requires Shape(s) && Idle(s) && x in s.sequenced && Dated(s)
    requires Count(s.flushQueue[s.pendingIdx], x) == 0
    ensures Dated(EndIo(s, x, ok, timeout, now))
  {
    EndIoUnfolds(s, x, ok, timeout, now);
    assert SameFlushes(s, Reported(s, x, ok));
    CompleteSeqDated(Reported(s, x, ok), x, Bit(Data), !ok, timeout, now);
  }

  /** No insertion, fetch or completion of data changes what the pending time means. */
  lemma ActDated(s: State, a: Action, timeout: int)
    requires Inv(s) && Enabled(s, a) && Dated(s) && !a.DoEndFlush?
    ensures Dated(Act(s, a, timeout))
  {
    if !Sequences(s, a) {
      OthersLeave(s, a, timeout);
    } else {
      assert Fine(s, a.rq);
      NotWaiting(s, a.rq);
      match a
      case DoInsert(rq, devFlush, devFua, sectors, flush, fua, now) =>
        InsertDated(s, rq, Policy(devFlush, devFua, sectors, flush, fua), timeout, now);
      case DoEndIo(rq, ok, now) => EndIoDated(s, rq, ok, timeout, now);
    }
  }

  // ---------------------------------------------------------------------------
  // The completion of a flush
  // ---------------------------------------------------------------------------

  /** The pending queue is empty, or its first request joined it just now. */
  ghost predicate Fresh(s: State, r: int, now: int)
    requires Shape(s) && 0 <= r < 2
  {
    var l := s.flushQueue[1 - r];
    l == [] || (s.pendingSince == now && l[0] in s.joined && s.joined[l[0]] == now)
  }

  lemma FreshTurn(s: State, t: State, r: int, ok: bool, timeout: int, now: int)
    requires Shape(s) && Shape(t) && 0 <= r < 2 && s.flushQueue[r] != [] && Opens(s, t, r, ok, timeout, now)
    requires Fresh(s, r, now)
    ensures t.pendingIdx == 1 - r ==> Fresh(t, r, now)
    ensures t.pendingIdx == r ==> t.pendingSince == now
  {
  }

  /** A flush completion that starts on an empty pending queue leaves the pending time right. */
  lemma {:induction false} WalkFresh(s: State, r: int, ok: bool, timeout: int, now: int)
    requires Mid(s, r, ok) && s.flushQueue[r] != [] && s.pendingIdx == 1 - r && Fresh(s, r, now)
    ensures Dated(WalkQueue(s, r, ok, timeout, now))
    decreases Turns(s.done, s.flushQueue[r])
  {
    var t := TurnOf(s, s.flushQueue[r][0], ok, timeout, now);
    OpenTurn(s, r, ok, timeout, now);
    FreshTurn(s, t, r, ok, timeout, now);
    WalkOnce(s, r, ok, timeout, now);
    if |s.flushQueue[r]| > 1 {
      if t.pendingIdx == r {
        WalkIssued(t, r, ok, timeout, now);
      } else {
        WalkFresh(t, r, ok, timeout, now);
      }
    }
  }

  /** Older requests wait for a flush that is held back. */
  ghost predicate Quiet(s: State, r: int, timeout: int, now: int)
    requires Shape(s) && 0 <= r < 2
  {
    && s.pendingIdx == 1 - r && s.flushQueue[1 - r] != [] && s.dataInFlight != []
    && now < s.pendingSince + timeout && Dated(s)
  }

  lemma QuietTurn(s: State, t: State, r: int, ok: bool, timeout: int, now: int)
    requires Shape(s) && Shape(t) && 0 <= r < 2 && s.flushQueue[r] != [] && Opens(s, t, r, ok, timeout, now)
    requires Quiet(s, r, timeout, now)
    ensures Quiet(t, r, timeout, now)
  {
  }

  /** While a flush is held back, the pending queue only grows at its end. */
  lemma {:induction false} WalkQuiet(s: State, r: int, ok: bool, timeout: int, now: int)
    requires Mid(s, r, ok) && s.flushQueue[r] != [] && Quiet(s, r, timeout, now)
    ensures Dated(WalkQueue(s, r, ok, timeout, now))
    decreases Turns(s.done, s.flushQueue[r])
  {
    var t := TurnOf(s, s.flushQueue[r][0], ok, timeout, now);
    OpenTurn(s, r, ok, timeout, now);
    QuietTurn(s, t, r, ok, timeout, now);
    WalkOnce(s, r, ok, timeout, now);
    if |s.flushQueue[r]| > 1 {
      WalkQuiet(t, r, ok, timeout, now);
    }
  }

  /**
   The first turn of the loop issues the flush that older requests wait for, and the last of the walked queue,
   alone among those behind the first, goes round for a second flush: it finds the queue it has its turn on
   pending and not empty.
   */
  ghost predicate GoesRoundLate(s: State, ok: bool, timeout: int, now: int)
    requires Shape(s)
  {
    var walked, waiting := s.flushQueue[s.runningIdx], s.flushQueue[s.pendingIdx];
    && waiting != [] && s.pendingSince != now && |walked| > 1
    && (now >= s.pendingSince + timeout || (s.dataInFlight == [] && !GoesOn(s, walked[0], ok)))
    && OnlyLast(s, walked[1..], ok)
  }

  lemma OthersAgain(s: State, r: int, ok: bool, timeout: int, now: int)
    requires Mid(s, r, ok) && |s.flushQueue[r]| > 1 && s.pendingIdx == 1 - r
    ensures var t := TurnOf(s, s.flushQueue[r][0], ok, timeout, now);
            OnlyLast(t, t.flushQueue[r], ok) <==> OnlyLast(s, s.flushQueue[r][1..], ok)
  {
    var x := s.flushQueue[r][0];
    var t, l := TurnOf(s, x, ok, timeout, now), s.flushQueue[r][1..];
    OnlyThere(s, r, ok);
    OpenTurn(s, r, ok, timeout, now);
    TurnQueues(s, r, ok, now, r);
    TurnKicks(s, r, ok, timeout, now);
    forall y | y in l ensures Again(t, y, ok) == Again(s, y, ok) {
    }
  }

  /** Once a flush has been issued for older requests, the last of the walked queue must not go round. */
  lemma IssuedDated(s: State, r: int, ok: bool, timeout: int, now: int)
    requires Mid(s, r, ok) && s.flushQueue[r] != [] && s.pendingIdx == r && s.pendingSince != now
    ensures Dated(WalkQueue(s, r, ok, timeout, now)) <==> !OnlyLast(s, s.flushQueue[r], ok)
  {
    WalkIssued(s, r, ok, timeout, now);
  }

  /** The first turn, with older requests waiting. */
  lemma OlderTurn(s: State, t: State, r: int, ok: bool, timeout: int, now: int)
    requires Shape(s) && Shape(t) && 0 <= r < 2 && s.flushQueue[r] != [] && Opens(s, t, r, ok, timeout, now)
    requires s.pendingIdx == 1 - r && Dated(s) && s.flushQueue[1 - r] != []
    ensures t.pendingSince == s.pendingSince
    ensures if now >= s.pendingSince + timeout || (s.dataInFlight == [] && !GoesOn(s, s.flushQueue[r][0], ok))
            then t.pendingIdx == r else Quiet(t, r, timeout, now)
  {
  }

  lemma OlderDated(s: State, r: int, ok: bool, timeout: int, now: int)
    requires Mid(s, r, ok) && s.flushQueue[r] != [] && s.pendingIdx == 1 - r && Dated(s)
    requires s.flushQueue[1 - r] != [] && s.pendingSince != now
    ensures Dated(WalkQueue(s, r, ok, timeout, now)) <==>
            !(&& |s.flushQueue[r]| > 1
              && (now >= s.pendingSince + timeout || (s.dataInFlight == [] && !GoesOn(s, s.flushQueue[r][0], ok)))
              && OnlyLast(s, s.flushQueue[r][1..], ok))
  {
    var t := TurnOf(s, s.flushQueue[r][0], ok, timeout, now);
    OpenTurn(s, r, ok, timeout, now);
    OlderTurn(s, t, r, ok, timeout, now);
    WalkOnce(s, r, ok, timeout, now);
    if |s.flushQueue[r]| > 1 {
      if t.pendingIdx == r {
        OthersAgain(s, r, ok, timeout, now);
        IssuedDated(t, r, ok, timeout, now);
      } else {
        WalkQuiet(t, r, ok, timeout, now);
      }
    }
  }

  /** The completion of a flush leaves the pending time right exactly when no request goes round late. */
  lemma EndFlushDated(s: State, ok: bool, timeout: int, now: int)
    requires Inv(s) && FlushRq in s.driver && Dated(s)
    ensures Dated(EndFlush(s, ok, timeout, now)) <==> !GoesRoundLate(s, ok, timeout, now)
  {
    RetireKeeps(s, ok);
    var s1, r := RetireFlush(s, ok), s.runningIdx;
    assert forall y :: Again(s1, y, ok) == Again(s, y, ok);
    if s.flushQueue[s.pendingIdx] == [] || s.pendingSince == now {
      WalkFresh(s1, r, ok, timeout, now);
    } else {
      OlderDated(s1, r, ok, timeout, now);
    }
  }

  // ---------------------------------------------------------------------------
  // Whole runs
  // ---------------------------------------------------------------------------

  /** No request asks for a flush before and a flush after data that it does not have. */
  ghost predicate NoDoubles(run: seq<Action>) {
    forall a :: a in run ==> !(a.DoInsert? && a.devFlush && !a.devFua && a.sectors == 0 && a.flush && a.fua)
  }

  ghost predicate SinglePolicies(s: State) {
    forall x :: x in s.policy ==> s.policy[x] != Mask(true, false, true)
  }

  lemma {:induction false} ReachesSingle(run: seq<Action>, timeout: int, s: State)
    requires Reaches(run, timeout, s) && NoDoubles(run)
    ensures SinglePolicies(s)
  {
    if run != [] {
      var t := LastStep(run, timeout, s);
      var a := run[|run| - 1];
      assert a in run && forall b :: b in run[..|run| - 1] ==> b in run;
      ReachesSingle(run[..|run| - 1], timeout, t);
      ActPolicy(t, a, timeout);
    }
  }

  /** A request that goes round again has asked for two flushes without data. */
  lemma SingleOnce(s: State, x: Rq, ok: bool)
    requires Fine(s, x) && x in s.sequenced && SinglePolicies(s)
    ensures !Again(s, x, ok)
  {
    assert x in s.policy;
  }

  lemma SingleDated(s: State, ok: bool, timeout: int, now: int)
    requires Inv(s) && FlushRq in s.driver && SinglePolicies(s)
    ensures !GoesRoundLate(s, ok, timeout, now)
  {
    var walked := s.flushQueue[s.runningIdx];
    if walked != [] {
      var x := walked[|walked| - 1];
      assert Fine(s, x) && x in multiset(walked);
      SingleOnce(s, x, ok);
    }
  }

  /**
   In every run without a request of that kind, the pending time is the time at which the oldest request of
   the pending queue joined it.
   */
  lemma {:induction false} ReachableDated(run: seq<Action>, timeout: int, s: State)
    requires Reaches(run, timeout, s) && NoDoubles(run)
    ensures Shape(s) && Dated(s)
  {
    if run != [] {
      var t := LastStep(run, timeout, s);
      var a, before := run[|run| - 1], run[..|run| - 1];
      assert forall b :: b in before ==> b in run;
      ReachableDated(before, timeout, t);
      ReachableInv(before, timeout, t);
      ReachesSingle(before, timeout, t);
      if a.DoEndFlush? {
        SingleDated(t, a.ok, timeout, a.now);
        EndFlushDated(t, a.ok, timeout, a.now);
      } else {
        ActDated(t, a, timeout);
      }
    }
  }

  // ---------------------------------------------------------------------------
  // Every request, in every run
  // ---------------------------------------------------------------------------

  /** None of the requests in `l` was queued before the pending time. */
  ghost predicate NotOlder(s: State, l: seq<Rq>) {
    forall y :: y in l ==> y in s.joined && s.pendingSince <= s.joined[y]
  }

  ghost predicate Bounded(s: State, now: int)
    requires Shape(s)
  {
    var l := s.flushQueue[s.pendingIdx];
    l != [] ==> s.pendingSince <= now && NotOlder(s, l)
  }

  lemma JoinBounded(s: State, t: State, l: seq<Rq>, x: Rq, now: int)
    requires NotOlder(s, l) && t.pendingSince <= now && t.joined == s.joined[x := now]
    requires l != [] ==> t.pendingSince == s.pendingSince
    ensures NotOlder(t, l + [x])
  {
  }

  lemma StepBounded(s: State, u: State, t: State, x: Rq, waits: bool, now: int)
    requires Shape(s) && Shape(u) && Shape(t) && Bounded(s, now) && Moves(s, u, x, waits, now) && Kicks(u, t)
    requires Lists.RemoveAll(s.flushQueue[s.pendingIdx], x) == s.flushQueue[s.pendingIdx]
    requires !FlushInFlight(s) ==> s.flushQueue[1 - s.pendingIdx] == []
    ensures Bounded(t, now)
  {
    var l := s.flushQueue[s.pendingIdx];
    assert l + [] == l;
    if waits {
      JoinBounded(s, t, l, x, now);
    }
  }

  lemma CompleteSeqBounded(s: State, x: Rq, steps: Mask, error: bool, timeout: int, now: int)
    requires Shape(s) && Bounded(s, now) && Count(s.flushQueue[s.pendingIdx], x) == 0
    requires !FlushInFlight(s) ==> s.flushQueue[1 - s.pendingIdx] == []
    ensures Bounded(CompleteSeq(s, x, steps, error, timeout, now), now)
  {
    var u := Advance(s, x, steps, error, now);
    NotThere(s.flushQueue[s.pendingIdx], x);
    AdvanceMoves(s, x, steps, error, now);
    KickKicks(u, timeout, now);
    StepBounded(s, u, KickFlush(u, timeout, now), x, NextStep(DoneOf(s, x).Or(steps), error) in {Preflush, Postflush},
                now);
  }

  lemma InsertBounded(s: State, x: Rq, policy: Mask, timeout: int, now: int)
    requires Shape(s) && Idle(s) && Bounded(s, now) && !policy.Within(Bit(Data))
    requires Count(s.flushQueue[s.pendingIdx], x) == 0
    ensures Bounded(Insert(s, x, policy, timeout, now), now)
  {
    InsertUnfolds(s, x, policy, timeout, now);
    var s2 := Sequenced(Registered(s, x, policy), x);
    assert SameFlushes(s, s2);
    CompleteSeqBounded(s2, x, policy.Not(), false, timeout, now);
  }

  lemma EndIoBounded(s: State, x: Rq, ok: bool, timeout: int, now: int)
    requires Shape(s) && Idle(s) && x in s.sequenced && Bounded(s, now)
    requires Count(s.flushQueue[s.pendingIdx], x) == 0
    ensures Bounded(EndIo(s, x, ok, timeout, now), now)
  {
    EndIoUnfolds(s, x, ok, timeout, now);
    assert SameFlushes(s, Reported(s, x, ok));
    CompleteSeqBounded(Reported(s, x, ok), x, Bit(Data), !ok, timeout, now);
  }

  lemma OpenBounded(s: State, t: State, r: int, ok: bool, timeout: int, now: int)
    requires Shape(s) && Shape(t) && 0 <= r < 2 && s.flushQueue[r] != [] && Opens(s, t, r, ok, timeout, now)
    requires s.pendingIdx == 1 - r && Bounded(s, now)
    ensures t.pendingIdx == 1 - r ==> Bounded(t, now)
    ensures t.pendingIdx == r ==> t.pendingSince <= now
  {
    var x := s.flushQueue[r][0];
    if Again(s, x, ok) {
      JoinBounded(s, t, s.flushQueue[1 - r], x, now);
    }
  }

  lemma IssuedBounded(s: State, r: int, ok: bool, timeout: int, now: int)
    requires Mid(s, r, ok) && s.flushQueue[r] != [] && s.pendingIdx == r && s.pendingSince <= now
    ensures Bounded(WalkQueue(s, r, ok, timeout, now), now)
  {
    WalkIssued(s, r, ok, timeout, now);
  }

  lemma {:induction false} WalkBounded(s: State, r: int, ok: bool, timeout: int, now: int)
    requires Mid(s, r, ok) && s.flushQueue[r] != [] && s.pendingIdx == 1 - r && Bounded(s, now)
    ensures Bounded(WalkQueue(s, r, ok, timeout, now), now)
    decreases Turns(s.done, s.flushQueue[r])
  {
    var t := TurnOf(s, s.flushQueue[r][0], ok, timeout, now);
    OpenTurn(s, r, ok, timeout, now);
    OpenBounded(s, t, r, ok, timeout, now);
    WalkOnce(s, r, ok, timeout, now);
    if |s.flushQueue[r]| > 1 {
      if t.pendingIdx == r {
        IssuedBounded(t, r, ok, timeout, now);
      } else {
        WalkBounded(t, r, ok, timeout, now);
      }
    }
  }

  lemma ActBounded(s: State, a: Action, timeout: int)
    requires Inv(s) && Enabled(s, a) && Sequences(s, a) && Bounded(s, a.now)
    ensures Bounded(Act(s, a, timeout), a.now)
  {
    match a
    case DoInsert(rq, devFlush, devFua, sectors, flush, fua, now) =>
      assert Fine(s, rq);
      NotWaiting(s, rq);
      InsertBounded(s, rq, Policy(devFlush, devFua, sectors, flush, fua), timeout, now);
    case DoEndIo(rq, ok, now) =>
      assert Fine(s, rq);
      NotWaiting(s, rq);
      EndIoBounded(s, rq, ok, timeout, now);
    case DoEndFlush(ok, now) =>
      RetireKeeps(s, ok);
      WalkBounded(RetireFlush(s, ok), s.runningIdx, ok, timeout, now);
  }

  /** The clock does not go back during `run`, nor after it before `now`. */
  ghost predicate Forward(run: seq<Action>, now: int) {
    run == [] ||
    (var a := run[|run| - 1];
     if a.DoFetch? then Forward(run[..|run| - 1], now) else a.now <= now && Forward(run[..|run| - 1], a.now))
  }

  lemma {:induction false} ReachableBounded(run: seq<Action>, timeout: int, s: State, now: int)
    requires Reaches(run, timeout, s) && Forward(run, now)
    ensures Shape(s) && Bounded(s, now)
  {
    if run != [] {
      var t := LastStep(run, timeout, s);
      var a, before := run[|run| - 1], run[..|run| - 1];
      ReachableInv(before, timeout, t);
      ReachableBounded(before, timeout, t, if a.DoFetch? then now else a.now);
      if Sequences(t, a) {
        ActBounded(t, a, timeout);
      } else {
        OthersLeave(t, a, timeout);
      }
    }
  }

  /**
   In every run, after every step of a sequenced request: a request that waits for a flush while none is in
   flight has waited for less than the timeout.
   */
  lemma WaitsNoLonger(run: seq<Action>, timeout: int, s: State, a: Action, y: Rq)
    requires Reaches(run, timeout, s) && Shape(s) && Enabled(s, a) && Sequences(s, a) && Forward(run, a.now)
    ensures var t := Act(s, a, timeout);
            y in t.flushQueue[t.pendingIdx] && !FlushInFlight(t) ==>
              t.dataInFlight != [] && y in t.joined && a.now < t.joined[y] + timeout
  {
    ReachableInv(run, timeout, s);
    ReachableBounded(run, timeout, s, a.now);
    ActBounded(s, a, timeout);
    DueMeansInFlight(run, timeout, s, a);
  }
}
