/**
 What the flush sequencer does to the dispatch queue, and what it reports (block/blk-flush.c): data of a
 sequenced request goes ahead of everything that is queued, a flush behind it, and nothing is reordered; a
 request fails only if its data or a flush has.
 */
module FlushOrder {
  import Lists
  import opened Flush
  import opened FlushProofs
  import opened FlushTiming

  // ---------------------------------------------------------------------------
  // The dispatch queue
  // ---------------------------------------------------------------------------

  /** `front` was queued ahead of what was there and `back` behind it; data newly in flight is in front. */
  ghost predicate Around(s: State, t: State, front: seq<Entry>, back: seq<Entry>) {
    && t.queueHead == front + s.queueHead + back
    && (forall e :: e in front ==> e.Io?) && (forall e :: e in back ==> e == FlushRq)
    && (forall x :: x in t.dataInFlight && x !in s.dataInFlight ==> Io(x) in front)
  }

  lemma {:induction false} RemovedFrom(l: seq<Rq>, x: Rq)
    ensures forall y :: y in Lists.RemoveAll(l, x) ==> y in l
  {
    if l != [] {
      RemovedFrom(l[1..], x);
    }
  }

  lemma AdvanceAround(s: State, x: Rq, steps: Mask, error: bool, now: int) returns (front: seq<Entry>)
    requires Shape(s)
    ensures Around(s, Advance(s, x, steps, error, now), front, [])
  {
    front := if NextStep(DoneOf(s, x).Or(steps), error) == Data then [Io(x)] else [];
    AdvanceTimes(s, x, steps, error, now);
    RemovedFrom(s.dataInFlight, x);
    assert [] + s.queueHead + [] == s.queueHead;
    assert [Io(x)] + s.queueHead + [] == [Io(x)] + s.queueHead;
  }

  lemma KickAround(s: State, timeout: int, now: int) returns (back: seq<Entry>)
    requires Shape(s)
    ensures Around(s, KickFlush(s, timeout, now), [], back)
  {
    back := if KickFlush(s, timeout, now).flushes > s.flushes then [FlushRq] else [];
    assert [] + s.queueHead + back == s.queueHead + back;
    assert s.queueHead + [] == s.queueHead;
  }

  lemma AroundTwice(s: State, u: State, t: State, f1: seq<Entry>, b1: seq<Entry>, f2: seq<Entry>, b2: seq<Entry>)
    requires Around(s, u, f1, b1) && Around(u, t, f2, b2)
    ensures Around(s, t, f2 + f1, b1 + b2)
  {
    assert f2 + (f1 + s.queueHead + b1) + b2 == (f2 + f1) + s.queueHead + (b1 + b2);
  }

  lemma CompleteSeqAround(s: State, x: Rq, steps: Mask, error: bool, timeout: int, now: int)
    returns (front: seq<Entry>, back: seq<Entry>)
    requires Shape(s)
    ensures Around(s, CompleteSeq(s, x, steps, error, timeout, now), front, back)
  {
    var u := Advance(s, x, steps, error, now);
    var f := AdvanceAround(s, x, steps, error, now);
    var b := KickAround(u, timeout, now);
    AroundTwice(s, u, KickFlush(u, timeout, now), f, [], [], b);
    front, back := [] + f, [] + b;
  }

  lemma {:induction false} WalkAround(s: State, r: int, ok: bool, timeout: int, now: int)
    returns (front: seq<Entry>, back: seq<Entry>)
    requires Shape(s) && 0 <= r < 2
    ensures Around(s, WalkQueue(s, r, ok, timeout, now), front, back)
    decreases Turns(s.done, s.flushQueue[r])
  {
    front, back := [], [];
    assert [] + s.queueHead + [] == s.queueHead;
    if s.flushQueue[r] != [] {
      var x := s.flushQueue[r][0];
      var t := TurnOf(s, x, ok, timeout, now);
      front, back := CompleteSeqAround(s, x, Bit(CurSeq(DoneOf(s, x))), !ok, timeout, now);
      WalkOnce(s, r, ok, timeout, now);
      if |s.flushQueue[r]| > 1 {
        var f, b := WalkAround(t, r, ok, timeout, now);
        AroundTwice(s, t, WalkQueue(t, r, ok, timeout, now), front, back, f, b);
        front, back := f + front, back + b;
      }
    }
  }

  /**
   Every step of a sequenced request leaves the dispatch queue in its order. Data that it puts in flight goes
   ahead of it, and nothing but a flush behind it.
   */
  lemma DataAhead(s: State, a: Action, timeout: int) returns (front: seq<Entry>, back: seq<Entry>)
    requires Shape(s) && Enabled(s, a) && Sequences(s, a)
    ensures Around(s, Act(s, a, timeout), front, back)
  {
    match a
    case DoInsert(rq, devFlush, devFua, sectors, flush, fua, now) =>
      var p := Policy(devFlush, devFua, sectors, flush, fua);
      InsertUnfolds(s, rq, p, timeout, now);
      front, back := CompleteSeqAround(Sequenced(Registered(s, rq, p), rq), rq, p.Not(), false, timeout, now);
    case DoEndIo(rq, ok, now) =>
      EndIoUnfolds(s, rq, ok, timeout, now);
      front, back := CompleteSeqAround(Reported(s, rq, ok), rq, Bit(Data), !ok, timeout, now);
    case DoEndFlush(ok, now) =>
      front, back := WalkAround(RetireFlush(s, ok), s.runningIdx, ok, timeout, now);
  }

  /** A request without flushes to sequence goes to the end of the dispatch queue, if it has data. */
  lemma PlainBehind(s: State, a: Action, timeout: int)
    requires Shape(s) && Enabled(s, a) && a.DoInsert? && !Sequences(s, a)
    ensures Act(s, a, timeout).queueHead == s.queueHead + if a.sectors > 0 then [Io(a.rq)] else []
  {
    assert s.queueHead + [] == s.queueHead;
  }

  // ---------------------------------------------------------------------------
  // What is reported
  // ---------------------------------------------------------------------------

  ghost predicate SomeFlushFailed(h: History) {
    h.Then? && ((h.event.FlushCompleted? && !h.event.ok) || SomeFlushFailed(h.before))
  }

  /** What a failed request can be blamed on. */
  ghost predicate Blamed(h: History, rq: Rq) {
    Saw(h, DataCompleted(rq, false)) || SomeFlushFailed(h)
  }

  /** No request has failed without a cause. */
  ghost predicate Fair(h: History) {
    h.Start? || (Fair(h.before) && (h.event.Ended? && !h.event.ok ==> Blamed(h.before, h.event.rq)))
  }

  lemma AdvanceFair(s: State, x: Rq, steps: Mask, error: bool, timeout: int, now: int)
    requires Shape(s) && Fair(s.log) && (error ==> Blamed(s.log, x))
    ensures Fair(CompleteSeq(s, x, steps, error, timeout, now).log)
    ensures SomeFlushFailed(s.log) ==> SomeFlushFailed(CompleteSeq(s, x, steps, error, timeout, now).log)
  {
  }

  lemma {:induction false} WalkFair(s: State, r: int, ok: bool, timeout: int, now: int)
    requires Shape(s) && 0 <= r < 2 && Fair(s.log) && (!ok ==> SomeFlushFailed(s.log))
    ensures Fair(WalkQueue(s, r, ok, timeout, now).log)
    decreases Turns(s.done, s.flushQueue[r])
  {
    if s.flushQueue[r] != [] {
      var x := s.flushQueue[r][0];
      AdvanceFair(s, x, Bit(CurSeq(DoneOf(s, x))), !ok, timeout, now);
      WalkOnce(s, r, ok, timeout, now);
      if |s.flushQueue[r]| > 1 {
        WalkFair(TurnOf(s, x, ok, timeout, now), r, ok, timeout, now);
      }
    }
  }

  lemma ReportedFair(s: State, x: Rq, ok: bool)
    requires Fair(s.log)
    ensures Fair(Reported(s, x, ok).log) && (!ok ==> Blamed(Reported(s, x, ok).log, x))
  {
    var h := Then(s.log, DataCompleted(x, ok));
    assert Saw(h, DataCompleted(x, ok)) && Fair(h);
  }

  lemma ActFair(s: State, a: Action, timeout: int)
    requires Shape(s) && Enabled(s, a) && Fair(s.log)
    ensures Fair(Act(s, a, timeout).log)
  {
    match a
    case DoInsert(rq, devFlush, devFua, sectors, flush, fua, now) =>
      var p := Policy(devFlush, devFua, sectors, flush, fua);
      if !p.Within(Bit(Data)) {
        InsertUnfolds(s, rq, p, timeout, now);
        AdvanceFair(Sequenced(Registered(s, rq, p), rq), rq, p.Not(), false, timeout, now);
      }
    case DoFetch =>
    case DoEndIo(rq, ok, now) =>
      EndIoUnfolds(s, rq, ok, timeout, now);
      ReportedFair(s, rq, ok);
      if rq in s.sequenced {
        AdvanceFair(Reported(s, rq, ok), rq, Bit(Data), !ok, timeout, now);
      }
    case DoEndFlush(ok, now) =>
      WalkFair(RetireFlush(s, ok), s.runningIdx, ok, timeout, now);
  }

  lemma {:induction false} FairEarlier(h: History, now: History)
    requires Fair(now) && Earlier(h, now)
    ensures Fair(h)
    decreases now
  {
    if h != now {
      FairEarlier(h, now.before);
    }
  }

  lemma {:induction false} ReachesFair(run: seq<Action>, timeout: int, s: State)
    requires Reaches(run, timeout, s)
    ensures Fair(s.log)
  {
    if run != [] {
      var t := LastStep(run, timeout, s);
      ReachesFair(run[..|run| - 1], timeout, t);
      ActFair(t, run[|run| - 1], timeout);
    }
  }

  /** In every run, a request ends with an error only after its data or some flush has failed. */
  lemma FailsOnlyOnError(run: seq<Action>, timeout: int, s: State, h: History, rq: Rq)
    requires Reaches(run, timeout, s) && Earlier(Then(h, Ended(rq, false)), s.log)
    ensures Saw(h, DataCompleted(rq, false)) || SomeFlushFailed(h)
  {
    ReachesFair(run, timeout, s);
    FairEarlier(Then(h, Ended(rq, false)), s.log);
  }
}
