/**
 When the flush sequencer issues a flush (the conditions C1 to C3 at the top of block/blk-flush.c): as soon as
 one is needed, none is in flight and no data is, and at the latest when the first request has waited for
 FLUSH_PENDING_TIMEOUT.
 */
module FlushTiming {
  import Lists
  import opened Flush
  import opened FlushProofs

  // ---------------------------------------------------------------------------
  // A flush that is due is in flight
  // ---------------------------------------------------------------------------

  /** Requests wait for a flush that nothing holds back at `now`. */
  ghost predicate Due(s: State, timeout: int, now: int)
    requires Shape(s)
  {
    s.flushQueue[s.pendingIdx] != [] && (s.dataInFlight == [] || now >= s.pendingSince + timeout)
  }

  /** The action takes a step of a sequenced request; other insertions and completions pass the sequencer by. */
  ghost predicate Sequences(s: State, a: Action) {
    match a
    case DoInsert(_, devFlush, devFua, sectors, flush, fua, _) => devFlush && (flush || (fua && !devFua))
    case DoFetch => false
    case DoEndIo(rq, _, _) => rq in s.sequenced
    case DoEndFlush(_, _) => true
  }

  lemma KickDue(s: State, timeout: int, now: int)
    requires Shape(s)
    ensures var t := KickFlush(s, timeout, now);
            && (Due(t, timeout, now) ==> FlushInFlight(t))
            && s.flushes <= t.flushes <= s.flushes + 1
            && t.dataInFlight == s.dataInFlight && t.pendingSince == s.pendingSince && t.joined == s.joined
            && (t.flushes > s.flushes ==> !FlushInFlight(s) && FlushInFlight(t) && s.flushQueue[s.pendingIdx] != [] &&
                                          (s.dataInFlight == [] || now >= s.pendingSince + timeout))
            && (t.flushes == s.flushes ==> t.pendingIdx == s.pendingIdx)
  {
  }

  /** What completing steps of a request does to the times and to the data in flight. */
  lemma AdvanceTimes(s: State, x: Rq, steps: Mask, error: bool, now: int)
    requires Shape(s)
    ensures var u, next := Advance(s, x, steps, error, now), NextStep(DoneOf(s, x).Or(steps), error);
            var waits := next in {Preflush, Postflush};
            && u.flushes == s.flushes
            && u.dataInFlight == Lists.RemoveAll(s.dataInFlight, x) + (if next == Data then [x] else [])
            && u.pendingSince == (if waits && s.flushQueue[s.pendingIdx] == [] then now else s.pendingSince)
            && u.joined == if waits then s.joined[x := now] else s.joined
  {
    var d := Lists.RemoveAll(s.dataInFlight, x);
    assert d + [] == d;
  }

  /** What completing steps of `x` does to the flush queues and the times; `waits` says that it needs another flush. */
  ghost predicate Moves(s: State, u: State, x: Rq, waits: bool, now: int)
    requires Shape(s) && Shape(u)
  {
    var p := s.pendingIdx;
    && u.pendingIdx == p && u.runningIdx == s.runningIdx && u.flushes == s.flushes
    && u.flushQueue[p] == Lists.RemoveAll(s.flushQueue[p], x) + (if waits then [x] else [])
    && u.flushQueue[1 - p] == Lists.RemoveAll(s.flushQueue[1 - p], x)
    && u.pendingSince == (if waits && s.flushQueue[p] == [] then now else s.pendingSince)
    && u.joined == if waits then s.joined[x := now] else s.joined
  }

  lemma AdvanceMoves(s: State, x: Rq, steps: Mask, error: bool, now: int)
    requires Shape(s)
    ensures Moves(s, Advance(s, x, steps, error, now), x,
                  NextStep(DoneOf(s, x).Or(steps), error) in {Preflush, Postflush}, now)
  {
    var p := s.pendingIdx;
    AdvanceQueues(s, x, steps, error, now, p);
    AdvanceQueues(s, x, steps, error, now, 1 - p);
    AdvanceTimes(s, x, steps, error, now);
    var l := Lists.RemoveAll(s.flushQueue[1 - p], x);
    assert l + [] == l;
  }

  /** A kick leaves queues and times alone, and may issue the flush that the pending queue waits for. */
  ghost predicate Kicks(u: State, t: State)
    requires Shape(u) && Shape(t)
  {
    && t.flushQueue == u.flushQueue && t.pendingSince == u.pendingSince && t.joined == u.joined
    && (t.pendingIdx == u.pendingIdx || (!FlushInFlight(u) && t.pendingIdx == 1 - u.pendingIdx))
  }

  lemma KickKicks(u: State, timeout: int, now: int)
    requires Shape(u)
    ensures Kicks(u, KickFlush(u, timeout, now))
  {
  }

  lemma CompleteSeqDue(s: State, x: Rq, steps: Mask, error: bool, timeout: int, now: int)
    requires Shape(s)
    ensures var t := CompleteSeq(s, x, steps, error, timeout, now); Due(t, timeout, now) ==> FlushInFlight(t)
  {
    KickDue(Advance(s, x, steps, error, now), timeout, now);
  }

  lemma {:induction false} WalkDue(s: State, r: int, ok: bool, timeout: int, now: int)
    requires Shape(s) && 0 <= r < 2 && s.flushQueue[r] != []
    ensures var t := WalkQueue(s, r, ok, timeout, now); Due(t, timeout, now) ==> FlushInFlight(t)
    decreases Turns(s.done, s.flushQueue[r])
  {
    var x := s.flushQueue[r][0];
    var t := TurnOf(s, x, ok, timeout, now);
    CompleteSeqDue(s, x, Bit(CurSeq(DoneOf(s, x))), !ok, timeout, now);
    if |s.flushQueue[r]| > 1 && t.flushQueue[r] != [] {
      TurnsDrop(s, r, ok, timeout, now);
      WalkDue(t, r, ok, timeout, now);
    }
  }

  /** Actions that pass the sequencer by leave everything about flushes as it is. */
  lemma OthersLeave(s: State, a: Action, timeout: int)
    requires Shape(s) && Enabled(s, a) && !Sequences(s, a)
    ensures var t := Act(s, a, timeout);
            && t.flushQueue == s.flushQueue && t.pendingIdx == s.pendingIdx && t.runningIdx == s.runningIdx
            && t.pendingSince == s.pendingSince && t.dataInFlight == s.dataInFlight && t.flushes == s.flushes
            && t.joined == s.joined
  {
  }

  lemma InsertDue(s: State, x: Rq, policy: Mask, timeout: int, now: int)
    requires Shape(s) && !policy.Within(Bit(Data))
    ensures var t := Insert(s, x, policy, timeout, now); Due(t, timeout, now) ==> FlushInFlight(t)
  {
    InsertUnfolds(s, x, policy, timeout, now);
    CompleteSeqDue(Sequenced(Registered(s, x, policy), x), x, policy.Not(), false, timeout, now);
  }

  lemma EndIoDue(s: State, x: Rq, ok: bool, timeout: int, now: int)
    requires Shape(s) && x in s.sequenced
    ensures var t := EndIo(s, x, ok, timeout, now); Due(t, timeout, now) ==> FlushInFlight(t)
  {
    EndIoUnfolds(s, x, ok, timeout, now);
    CompleteSeqDue(Reported(s, x, ok), x, Bit(Data), !ok, timeout, now);
  }

  lemma EndFlushDue(s: State, ok: bool, timeout: int, now: int)
    requires Shape(s) && s.flushQueue[s.runningIdx] != []
    ensures var t := EndFlush(s, ok, timeout, now); Due(t, timeout, now) ==> FlushInFlight(t)
  {
    WalkDue(RetireFlush(s, ok), s.runningIdx, ok, timeout, now);
  }

  /**
   After every action that takes a step of a sequenced request, a flush that is due is in flight: while
   requests wait, none is held back once no data is in flight or the timeout is over.
   */
  lemma DueMeansInFlight(run: seq<Action>, timeout: int, s: State, a: Action)
    requires Reaches(run, timeout, s) && Shape(s) && Enabled(s, a) && Sequences(s, a)
    ensures var t := Act(s, a, timeout); Due(t, timeout, a.now) ==> FlushInFlight(t)
  {
    ReachableInv(run, timeout, s);
    match a
    case DoInsert(rq, devFlush, devFua, sectors, flush, fua, now) =>
      InsertDue(s, rq, Policy(devFlush, devFua, sectors, flush, fua), timeout, now);
    case DoEndIo(rq, ok, now) => EndIoDue(s, rq, ok, timeout, now);
    case DoEndFlush(ok, now) =>
      RetireKeeps(s, ok);
      EndFlushDue(s, ok, timeout, now);
  }

  // ---------------------------------------------------------------------------
  // One turn of the loop of flush_end_io, times included
  // ---------------------------------------------------------------------------

  /** The request has no data, wants a flush before and after it, and gets the first with this turn. */
  ghost predicate Again(s: State, x: Rq, ok: bool) {
    ok && x in s.done && s.done[x] == Mask(false, true, false)
  }

  /** The data of the request is queued with this turn. */
  ghost predicate GoesOn(s: State, x: Rq, ok: bool) {
    ok && x in s.done && !s.done[x].pre && !s.done[x].data
  }

  lemma TurnStep(done: Mask, ok: bool)
    requires CurSeq(done) in {Preflush, Postflush}
    ensures NextStep(done.Or(Bit(CurSeq(done))), !ok) in {Preflush, Postflush} <==>
            ok && done == Mask(false, true, false)
    ensures NextStep(done.Or(Bit(CurSeq(done))), !ok) == Data <==> ok && !done.pre && !done.data
  {
  }

  /** The first request of the walked queue is on no other list. */
  lemma OnlyThere(s: State, r: int, ok: bool)
    requires Mid(s, r, ok) && s.flushQueue[r] != []
    ensures var x := s.flushQueue[r][0];
            && x in s.done && CurSeq(s.done[x]) in {Preflush, Postflush} && DoneOf(s, x) == s.done[x]
            && Lists.RemoveAll(s.flushQueue[r], x) == s.flushQueue[r][1..] && x !in s.flushQueue[r][1..]
            && Lists.RemoveAll(s.flushQueue[1 - r], x) == s.flushQueue[1 - r] && x !in s.flushQueue[1 - r]
            && Lists.RemoveAll(s.dataInFlight, x) == s.dataInFlight
  {
    var x := s.flushQueue[r][0];
    assert Fine(s, x) && Flushed(s, x, ok) && x in multiset(s.flushQueue[r]);
    assert OnFlushQueues(s, x) == Count(s.flushQueue[r], x) + Count(s.flushQueue[1 - r], x);
    RemoveHead(s.flushQueue[r], x);
    RemoveCount(s.flushQueue[1 - r], x, x);
    RemoveCount(s.dataInFlight, x, x);
    assert x !in multiset(s.flushQueue[1 - r]);
  }

  /** The state before the kick that ends a turn. */
  ghost function Turning(s: State, x: Rq, ok: bool, now: int): State
    requires Shape(s)
  {
    Advance(s, x, Bit(CurSeq(DoneOf(s, x))), !ok, now)
  }

  lemma TurnQueues(s: State, r: int, ok: bool, now: int, i: int)
    requires Mid(s, r, ok) && s.flushQueue[r] != [] && 0 <= i < 2
    ensures var x := s.flushQueue[r][0];
            var u := Turning(s, x, ok, now);
            && x in s.done && u.done == s.done[x := s.done[x].Or(Bit(CurSeq(s.done[x])))]
            && u.runningIdx == 1 - r && u.pendingIdx == s.pendingIdx
            && u.flushQueue[i] == (if i == r then s.flushQueue[r][1..] else s.flushQueue[i]) +
                                  (if Again(s, x, ok) && s.pendingIdx == i then [x] else [])
  {
    OnlyThere(s, r, ok);
    var x := s.flushQueue[r][0];
    TurnStep(s.done[x], ok);
    AdvanceQueues(s, x, Bit(CurSeq(s.done[x])), !ok, now, i);
  }

  lemma TurnTimes(s: State, r: int, ok: bool, now: int)
    requires Mid(s, r, ok) && s.flushQueue[r] != []
    ensures var x := s.flushQueue[r][0];
            var u := Turning(s, x, ok, now);
            && u.flushes == s.flushes
            && u.dataInFlight == s.dataInFlight + (if GoesOn(s, x, ok) then [x] else [])
            && u.joined == (if Again(s, x, ok) then s.joined[x := now] else s.joined)
            && u.pendingSince ==
               (if Again(s, x, ok) && s.flushQueue[s.pendingIdx] == [] then now else s.pendingSince)
  {
    OnlyThere(s, r, ok);
    var x := s.flushQueue[r][0];
    TurnStep(s.done[x], ok);
    AdvanceTimes(s, x, Bit(CurSeq(s.done[x])), !ok, now);
  }

  /** The kick at the end of a turn: it issues a flush when one is due, unless one has been issued before. */
  lemma TurnKicks(s: State, r: int, ok: bool, timeout: int, now: int)
    requires Mid(s, r, ok) && s.flushQueue[r] != []
    ensures var x := s.flushQueue[r][0];
            var u, t := Turning(s, x, ok, now), TurnOf(s, x, ok, timeout, now);
            var issues := s.pendingIdx == 1 - r && Due(u, timeout, now);
            && t.flushQueue == u.flushQueue && t.done == u.done && t.runningIdx == 1 - r
            && t.dataInFlight == u.dataInFlight && t.joined == u.joined && t.pendingSince == u.pendingSince
            && t.flushes == s.flushes + (if issues then 1 else 0)
            && t.pendingIdx == if issues then r else s.pendingIdx
  {
    TurnQueues(s, r, ok, now, r);
    TurnTimes(s, r, ok, now);
  }

  // ---------------------------------------------------------------------------
  // The whole loop
  // ---------------------------------------------------------------------------

  /** Of the requests in `l` the last one, and no other, has its turn before its second flush. */
  ghost predicate OnlyLast(s: State, l: seq<Rq>, ok: bool) {
    l != [] && Again(s, l[|l| - 1], ok) && forall i :: 0 <= i < |l| - 1 ==> !Again(s, l[i], ok)
  }

  /** A turn that does not send its request round again does not change which of the others do. */
  lemma OnlyLastKept(s: State, r: int, ok: bool, timeout: int, now: int)
    requires Mid(s, r, ok) && |s.flushQueue[r]| > 1 && s.pendingIdx == r
    ensures var t := TurnOf(s, s.flushQueue[r][0], ok, timeout, now);
            OnlyLast(t, t.flushQueue[r], ok) <==> OnlyLast(s, s.flushQueue[r], ok)
  {
    var l, x := s.flushQueue[r], s.flushQueue[r][0];
    var t := TurnOf(s, x, ok, timeout, now);
    OnlyThere(s, r, ok);
    TurnQueues(s, r, ok, now, r);
    TurnKicks(s, r, ok, timeout, now);
    var l' := t.flushQueue[r];
    assert !Again(t, x, ok);
    forall y | y in l[1..] ensures Again(t, y, ok) == Again(s, y, ok) {
    }
    if Again(s, x, ok) {
      assert l'[|l'| - 1] == x;
    } else {
      assert l' == l[1..];
      assert forall i :: 0 < i < |l| ==> l[i] == l[1..][i - 1] && l[i] in l[1..];
      if OnlyLast(t, l', ok) {
        forall i | 0 <= i < |l| - 1 ensures !Again(s, l[i], ok) {
          assert i > 0 ==> l[i] == l'[i - 1];
        }
      }
    }
  }

  /** What a turn, or the whole loop, keeps once a flush has been issued. */
  ghost predicate Issued(s: State, t: State, r: int)
    requires Shape(s) && Shape(t) && 0 <= r < 2
  {
    && t.pendingIdx == r && t.runningIdx == 1 - r && t.flushes == s.flushes
    && t.pendingSince == s.pendingSince && t.flushQueue[1 - r] == s.flushQueue[1 - r]
  }

  lemma IssuedTurn(s: State, r: int, ok: bool, timeout: int, now: int)
    requires Mid(s, r, ok) && s.flushQueue[r] != [] && s.pendingIdx == r
    ensures var l, x := s.flushQueue[r], s.flushQueue[r][0];
            var t := TurnOf(s, x, ok, timeout, now);
            && Issued(s, t, r) && t.flushQueue[r] == l[1..] + (if Again(s, x, ok) then [x] else [])
            && t.joined == (if Again(s, x, ok) then s.joined[x := now] else s.joined)
  {
    TurnQueues(s, r, ok, now, r);
    TurnQueues(s, r, ok, now, 1 - r);
    TurnTimes(s, r, ok, now);
    TurnKicks(s, r, ok, timeout, now);
  }

  /** How the loop leaves the walked queue. */
  ghost predicate Leaves(s: State, t: State, r: int, ok: bool, now: int)
    requires Shape(s) && Shape(t) && 0 <= r < 2
  {
    var l := s.flushQueue[r];
    if OnlyLast(s, l, ok) then
      var last := l[|l| - 1];
      t.flushQueue[r] == [last] && last in t.joined && t.joined[last] == now
    else t.flushQueue[r] == []
  }

  lemma LeavesSame(s: State, u: State, t: State, r: int, ok: bool, now: int)
    requires Shape(s) && Shape(u) && Shape(t) && 0 <= r < 2 && |s.flushQueue[r]| > 1
    requires u.flushQueue[r] ==
             s.flushQueue[r][1..] + (if Again(s, s.flushQueue[r][0], ok) then [s.flushQueue[r][0]] else [])
    requires OnlyLast(u, u.flushQueue[r], ok) <==> OnlyLast(s, s.flushQueue[r], ok)
    ensures Leaves(u, t, r, ok, now) ==> Leaves(s, t, r, ok, now)
  {
  }

  /** With a flush issued, the loop ends with the walked queue empty, or with its last request on it again. */
  lemma {:induction false} WalkIssued(s: State, r: int, ok: bool, timeout: int, now: int)
    requires Mid(s, r, ok) && s.flushQueue[r] != [] && s.pendingIdx == r
    ensures var t := WalkQueue(s, r, ok, timeout, now); Issued(s, t, r) && Leaves(s, t, r, ok, now)
    decreases Turns(s.done, s.flushQueue[r])
  {
    IssuedTurn(s, r, ok, timeout, now);
    if |s.flushQueue[r]| > 1 {
      var t := TurnOf(s, s.flushQueue[r][0], ok, timeout, now);
      MidStep(s, r, ok, timeout, now);
      TurnsDrop(s, r, ok, timeout, now);
      OnlyLastKept(s, r, ok, timeout, now);
      WalkIssued(t, r, ok, timeout, now);
      LeavesSame(s, t, WalkQueue(t, r, ok, timeout, now), r, ok, now);
    }
  }

  /** What a turn does, on the first request of the walked queue, as long as no flush has been issued. */
  ghost predicate Opens(s: State, t: State, r: int, ok: bool, timeout: int, now: int)
    requires Shape(s) && Shape(t) && 0 <= r < 2 && s.flushQueue[r] != []
  {
    var x, l := s.flushQueue[r][0], s.flushQueue[1 - r];
    && t.flushQueue[r] == s.flushQueue[r][1..] && x !in l
    && t.flushQueue[1 - r] == l + (if Again(s, x, ok) then [x] else [])
    && t.dataInFlight == s.dataInFlight + (if GoesOn(s, x, ok) then [x] else [])
    && t.joined == (if Again(s, x, ok) then s.joined[x := now] else s.joined)
    && t.pendingSince == (if Again(s, x, ok) && l == [] then now else s.pendingSince)
    && t.runningIdx == 1 - r
    && var issues := t.flushQueue[1 - r] != [] && (t.dataInFlight == [] || now >= t.pendingSince + timeout);
    && t.flushes == s.flushes + (if issues then 1 else 0)
    && t.pendingIdx == if issues then r else 1 - r
  }

  lemma OpensFrom(s: State, u: State, t: State, r: int, ok: bool, timeout: int, now: int)
    requires Shape(s) && Shape(u) && Shape(t) && 0 <= r < 2 && s.flushQueue[r] != [] && s.pendingIdx == 1 - r
    requires var x := s.flushQueue[r][0];
             && x !in s.flushQueue[1 - r] && u.flushQueue[r] == s.flushQueue[r][1..] + []
             && u.flushQueue[1 - r] == s.flushQueue[1 - r] + (if Again(s, x, ok) then [x] else [])
             && u.dataInFlight == s.dataInFlight + (if GoesOn(s, x, ok) then [x] else [])
             && u.joined == (if Again(s, x, ok) then s.joined[x := now] else s.joined)
             && u.pendingSince == (if Again(s, x, ok) && s.flushQueue[1 - r] == [] then now else s.pendingSince)
    requires u.pendingIdx == 1 - r && t.flushQueue == u.flushQueue && t.runningIdx == 1 - r
    requires t.dataInFlight == u.dataInFlight && t.joined == u.joined && t.pendingSince == u.pendingSince
    requires t.flushes == s.flushes + (if Due(u, timeout, now) then 1 else 0)
    requires t.pendingIdx == if Due(u, timeout, now) then r else s.pendingIdx
    ensures Opens(s, t, r, ok, timeout, now)
  {
    assert s.flushQueue[r][1..] + [] == s.flushQueue[r][1..];
  }

  /** As long as no flush has been issued, a turn issues one exactly when it is due after it. */
  lemma OpenTurn(s: State, r: int, ok: bool, timeout: int, now: int)
    requires Mid(s, r, ok) && s.flushQueue[r] != [] && s.pendingIdx == 1 - r
    ensures var t := TurnOf(s, s.flushQueue[r][0], ok, timeout, now);
            Mid(t, r, ok) && Opens(s, t, r, ok, timeout, now)
  {
    var x := s.flushQueue[r][0];
    OnlyThere(s, r, ok);
    MidStep(s, r, ok, timeout, now);
    TurnQueues(s, r, ok, now, r);
    TurnQueues(s, r, ok, now, 1 - r);
    TurnTimes(s, r, ok, now);
    TurnKicks(s, r, ok, timeout, now);
    OpensFrom(s, Turning(s, x, ok, now), TurnOf(s, x, ok, timeout, now), r, ok, timeout, now);
  }

  lemma WalkOnce(s: State, r: int, ok: bool, timeout: int, now: int)
    requires Shape(s) && 0 <= r < 2 && s.flushQueue[r] != []
    ensures var t := TurnOf(s, s.flushQueue[r][0], ok, timeout, now);
            && Turns(t.done, t.flushQueue[r]) < Turns(s.done, s.flushQueue[r])
            && WalkQueue(s, r, ok, timeout, now) ==
               if |s.flushQueue[r]| == 1 then t else WalkQueue(t, r, ok, timeout, now)
  {
    TurnsDrop(s, r, ok, timeout, now);
  }

  /** The loop issues at most one flush; while data is in flight, not before the timeout is over. */
  lemma {:induction false} WalkNotBefore(s: State, r: int, ok: bool, timeout: int, now: int)
    requires Mid(s, r, ok) && s.flushQueue[r] != [] && s.pendingIdx == 1 - r
    ensures var t := WalkQueue(s, r, ok, timeout, now);
            && s.flushes <= t.flushes <= s.flushes + 1
            && (t.flushes > s.flushes && s.dataInFlight != [] ==> now >= t.pendingSince + timeout)
    decreases Turns(s.done, s.flushQueue[r])
  {
    var t := TurnOf(s, s.flushQueue[r][0], ok, timeout, now);
    OpenTurn(s, r, ok, timeout, now);
    WalkOnce(s, r, ok, timeout, now);
    if |s.flushQueue[r]| > 1 {
      if t.pendingIdx == r {
        WalkIssued(t, r, ok, timeout, now);
      } else {
        WalkNotBefore(t, r, ok, timeout, now);
      }
    }
  }

  /** One step of one request issues a flush past data in flight only when the timeout is over. */
  lemma CompleteSeqNotBefore(s: State, x: Rq, steps: Mask, error: bool, timeout: int, now: int)
    requires Shape(s)
    ensures var t := CompleteSeq(s, x, steps, error, timeout, now);
            && s.flushes <= t.flushes <= s.flushes + 1
            && (t.flushes > s.flushes && t.dataInFlight != [] ==> now >= t.pendingSince + timeout)
  {
    AdvanceTimes(s, x, steps, error, now);
    KickDue(Advance(s, x, steps, error, now), timeout, now);
  }

  /** What `t`, reached from `s` at `now`, says about the flushes issued, with data in flight throughout or not. */
  ghost predicate InTime(s: State, t: State, flying: bool, timeout: int, now: int) {
    && s.flushes <= t.flushes <= s.flushes + 1
    && (t.flushes > s.flushes && flying ==> now >= t.pendingSince + timeout)
  }

  lemma InsertInTime(s: State, x: Rq, policy: Mask, timeout: int, now: int)
    requires Shape(s) && !policy.Within(Bit(Data))
    ensures var t := Insert(s, x, policy, timeout, now); InTime(s, t, t.dataInFlight != [], timeout, now)
  {
    InsertUnfolds(s, x, policy, timeout, now);
    CompleteSeqNotBefore(Sequenced(Registered(s, x, policy), x), x, policy.Not(), false, timeout, now);
  }

  lemma EndIoInTime(s: State, x: Rq, ok: bool, timeout: int, now: int)
    requires Shape(s) && x in s.sequenced
    ensures var t := EndIo(s, x, ok, timeout, now); InTime(s, t, t.dataInFlight != [], timeout, now)
  {
    EndIoUnfolds(s, x, ok, timeout, now);
    CompleteSeqNotBefore(Reported(s, x, ok), x, Bit(Data), !ok, timeout, now);
  }

  lemma EndFlushInTime(s: State, ok: bool, timeout: int, now: int)
    requires Inv(s) && FlushRq in s.driver
    ensures InTime(s, EndFlush(s, ok, timeout, now), s.dataInFlight != [], timeout, now)
  {
    RetireKeeps(s, ok);
    WalkNotBefore(RetireFlush(s, ok), s.runningIdx, ok, timeout, now);
  }

  /**
   No action issues more than one flush, and none while the data of some request `z` stays in flight, unless
   the first request of the queue has waited for the timeout.
   */
  lemma NotBeforeTime(run: seq<Action>, timeout: int, s: State, a: Action, z: Rq)
    requires Reaches(run, timeout, s) && Shape(s) && Enabled(s, a)
    ensures var t := Act(s, a, timeout);
            && s.flushes <= t.flushes <= s.flushes + 1
            && (t.flushes > s.flushes && z in s.dataInFlight && z in t.dataInFlight ==>
                  Sequences(s, a) && a.now >= t.pendingSince + timeout)
  {
    ReachableInv(run, timeout, s);
    if !Sequences(s, a) {
      OthersLeave(s, a, timeout);
    } else {
      match a
      case DoInsert(rq, devFlush, devFua, sectors, flush, fua, now) =>
        InsertInTime(s, rq, Policy(devFlush, devFua, sectors, flush, fua), timeout, now);
      case DoEndIo(rq, ok, now) => EndIoInTime(s, rq, ok, timeout, now);
      case DoEndFlush(ok, now) => EndFlushInTime(s, ok, timeout, now);
    }
  }
}
