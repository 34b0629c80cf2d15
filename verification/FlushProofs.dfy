/**
 Every step of the flush sequencer keeps its protocol invariant; durability and progress follow
 for every run.
 */
module FlushProofs {
  import Lists
  import opened Flush

  // ---------------------------------------------------------------------------
  // Every step keeps it
  // ---------------------------------------------------------------------------

  lemma {:induction false} RemoveCount(l: seq<Rq>, x: Rq, y: Rq)
    ensures Count(Lists.RemoveAll(l, x), y) == if y == x then 0 else Count(l, y)
    ensures Count(l, x) == 0 ==> Lists.RemoveAll(l, x) == l
  {
    if l != [] {
      RemoveCount(l[1..], x, y);
      assert l == [l[0]] + l[1..];
    }
  }

  lemma AppendCount<T>(l: seq<T>, x: T, y: T)
    ensures Count(l + [x], y) == Count(l, y) + if y == x then 1 else 0
    ensures Count([x] + l, y) == Count(l, y) + if y == x then 1 else 0
  {
  }

  lemma DetachCount(s: State, x: Rq, steps: Mask, y: Rq)
    requires Shape(s) && x in s.done
    ensures forall i :: 0 <= i < 2 ==>
              Count(Detach(s, x, steps).flushQueue[i], y) == if y == x then 0 else Count(s.flushQueue[i], y)
    ensures Count(Detach(s, x, steps).dataInFlight, y) == if y == x then 0 else Count(s.dataInFlight, y)
  {
    RemoveCount(s.flushQueue[0], x, y);
    RemoveCount(s.flushQueue[1], x, y);
    RemoveCount(s.dataInFlight, x, y);
  }

  // Advancing `x` leaves the facts about any other request `y` alone.

  lemma DetachOther(s: State, x: Rq, steps: Mask, y: Rq)
    requires Fine(s, y) && x != y && x in s.done
    ensures Fine(Detach(s, x, steps), y)
  {
    DetachGood(s, x, steps, y);
    DetachCount(s, x, steps, y);
  }

  lemma DetachGood(s: State, x: Rq, steps: Mask, y: Rq)
    requires Good(s, y) && x != y && x in s.done
    ensures Good(Detach(s, x, steps), y)
  {
    DetachCount(s, x, steps, y);
  }

  lemma ToPendingOther(s: State, x: Rq, since: int, now: int, y: Rq)
    requires Fine(s, y) && x != y
    ensures Fine(ToPending(s, x, since, now), y)
  {
    AppendCount(s.flushQueue[s.pendingIdx], x, y);
  }

  lemma ToDataOther(s: State, x: Rq, y: Rq)
    requires Fine(s, y) && x != y
    ensures Fine(ToData(s, x), y)
  {
    AppendCount(s.dataInFlight, x, y);
    AppendCount(s.queueHead, Io(x), Io(y));
  }

  lemma ToEndOther(s: State, x: Rq, error: bool, y: Rq)
    requires Fine(s, y) && x != y
    ensures Fine(ToEnd(s, x, error), y)
  {
  }

  lemma KickFine(s: State, timeout: int, now: int, y: Rq)
    requires Fine(s, y)
    ensures Fine(KickFlush(s, timeout, now), y)
  {
    AppendCount(s.queueHead, FlushRq, Io(y));
  }

  /** A request that is off every list, with its history so far. */
  ghost predicate Off(s: State, x: Rq, error: bool) {
    && Shape(s) && x in s.sequenced && x in s.done && x in s.policy
    && OnFlushQueues(s, x) == Count(s.dataInFlight, x) == 0
    && s.policy[x].Not().Within(s.done[x])
    && Flying(s, Io(x)) == 0 && Ends(s.log, x) == 0
    && Saw(s.log, Inserted(x))
    && (!error ==>
          && (s.policy[x].data && s.done[x].data ==> Saw(s.log, DataCompleted(x, true)))
          && (s.policy[x].pre && s.done[x].pre ==> FlushedAfter(s.log, Inserted(x)))
          && (s.policy[x].data && s.done[x].data ==> s.done[x].pre)
          && (s.policy[x].post && s.done[x].post ==>
                CurSeq(s.done[x]) == Done && FlushedAfter(s.log, Written(x, s.policy[x]))))
  }

  // Each branch puts the request where it belongs and keeps the history durable.

  lemma ToPendingSelf(s: State, x: Rq, since: int, now: int)
    requires Off(s, x, false) && CurSeq(s.done[x]) in {Preflush, Postflush} && Queues(s)
    ensures Fine(ToPending(s, x, since, now), x) && Queues(ToPending(s, x, since, now))
  {
    AppendCount(s.flushQueue[s.pendingIdx], x, x);
  }

  lemma ToDataSelf(s: State, x: Rq)
    requires Off(s, x, false) && CurSeq(s.done[x]) == Data && Queues(s)
    ensures Fine(ToData(s, x), x) && Queues(ToData(s, x))
  {
    AppendCount(s.dataInFlight, x, x);
    AppendCount(s.queueHead, Io(x), Io(x));
    AppendCount(s.queueHead, Io(x), FlushRq);
  }

  lemma ToEndSelf(s: State, x: Rq, error: bool)
    requires Off(s, x, error) && NextStep(s.done[x], error) == Done && Queues(s)
    ensures Fine(ToEnd(s, x, error), x) && Queues(ToEnd(s, x, error))
  {
  }

  /** What must hold of a request for `steps` to be recorded as done. */
  ghost predicate InHand(s: State, x: Rq, steps: Mask, error: bool) {
    && Shape(s) && x in s.done && Off(Detach(s, x, steps), x, error)
    && (FlushInFlight(s) ==> Count(s.flushQueue[s.runningIdx], x) == 0)
  }

  lemma DetachQueues(s: State, x: Rq, steps: Mask)
    requires Queues(s) && x in s.done && (FlushInFlight(s) ==> Count(s.flushQueue[s.runningIdx], x) == 0)
    ensures Queues(Detach(s, x, steps))
  {
    RemoveCount(s.flushQueue[s.runningIdx], x, x);
  }

  lemma AdvanceSelf(s: State, x: Rq, steps: Mask, error: bool, now: int)
    requires InHand(s, x, steps, error) && Queues(s)
    ensures Fine(Advance(s, x, steps, error, now), x) && Queues(Advance(s, x, steps, error, now))
  {
    var s1 := Detach(s, x, steps);
    DetachQueues(s, x, steps);
    match NextStep(DoneOf(s1, x), error) {
      case Data => ToDataSelf(s1, x);
      case Done => ToEndSelf(s1, x, error);
      case _ => ToPendingSelf(s1, x, if s.flushQueue[s.pendingIdx] == [] then now else s.pendingSince, now);
    }
  }

  lemma AdvanceOther(s: State, x: Rq, steps: Mask, error: bool, now: int, y: Rq)
    requires Fine(s, y) && x != y && x in s.done
    ensures Fine(Advance(s, x, steps, error, now), y)
  {
    var s1 := Detach(s, x, steps);
    DetachOther(s, x, steps, y);
    match NextStep(DoneOf(s1, x), error) {
      case Data => ToDataOther(s1, x, y);
      case Done => ToEndOther(s1, x, error, y);
      case _ => ToPendingOther(s1, x, if s.flushQueue[s.pendingIdx] == [] then now else s.pendingSince, now, y);
    }
  }

  lemma KickQueues(s: State, timeout: int, now: int)
    requires Queues(s)
    ensures Queues(KickFlush(s, timeout, now)) && NoStall(KickFlush(s, timeout, now))
  {
    AppendCount(s.queueHead, FlushRq, FlushRq);
  }

  /** Completing steps of one request keeps the facts about all of them. */
  lemma CompleteSeqKeeps(s: State, x: Rq, steps: Mask, error: bool, timeout: int, now: int)
    requires InHand(s, x, steps, error) && Queues(s) && EveryoneBut(s, x)
    ensures var r := CompleteSeq(s, x, steps, error, timeout, now);
            Queues(r) && NoStall(r) && Everyone(r)
  {
    var t := Advance(s, x, steps, error, now);
    AdvanceSelf(s, x, steps, error, now);
    KickQueues(t, timeout, now);
    forall y ensures Fine(KickFlush(t, timeout, now), y) {
      if y != x {
        AdvanceOther(s, x, steps, error, now, y);
      }
      KickFine(t, timeout, now, y);
    }
  }

  /** A flush in flight stays in flight; without one, the queue that is not pending stays empty. */
  lemma CompleteSeqIdle(s: State, x: Rq, steps: Mask, error: bool, timeout: int, now: int)
    requires Shape(s) && x in s.done
    requires !FlushInFlight(s) ==> s.flushQueue[1 - s.pendingIdx] == []
    ensures var r := CompleteSeq(s, x, steps, error, timeout, now);
            !FlushInFlight(r) ==> r.flushQueue[1 - r.pendingIdx] == []
  {
    AdvanceQueues(s, x, steps, error, now, 1 - s.pendingIdx);
    KickRoles(Advance(s, x, steps, error, now), timeout, now);
  }

  lemma CompleteSeqInv(s: State, x: Rq, steps: Mask, error: bool, timeout: int, now: int)
    requires InHand(s, x, steps, error) && Queues(s) && EveryoneBut(s, x)
    requires !FlushInFlight(s) ==> s.flushQueue[1 - s.pendingIdx] == []
    ensures Inv(CompleteSeq(s, x, steps, error, timeout, now))
  {
    CompleteSeqKeeps(s, x, steps, error, timeout, now);
    CompleteSeqIdle(s, x, steps, error, timeout, now);
  }

  lemma {:induction false} DurableMorePolicies(h: History, p: map<Rq, Mask>, x: Rq, steps: Mask)
    requires Durable(h, p) && x !in p
    ensures Durable(h, p[x := steps])
  {
    if h.Then? {
      DurableMorePolicies(h.before, p, x, steps);
    }
  }

  /** The state in which a new request is on record but nothing has been done about it. */
  ghost function Registered(s: State, x: Rq, policy: Mask): State {
    Note(s.(policy := s.policy[x := policy]), Inserted(x))
  }

  lemma RegisteredOther(s: State, x: Rq, policy: Mask, y: Rq)
    requires Fine(s, y) && x != y
    ensures Fine(Registered(s, x, policy), y)
  {
  }

  lemma RegisteredQueues(s: State, x: Rq, policy: Mask)
    requires Queues(s) && x !in s.policy
    ensures Queues(Registered(s, x, policy))
  {
    DurableMorePolicies(s.log, s.policy, x, policy);
  }

  lemma InsertNothing(s: State, x: Rq)
    requires Fine(s, x) && x !in s.policy
    ensures Fine(EndBio(Registered(s, x, NONE), x, true), x)
  {
  }

  lemma EndOther(s: State, x: Rq, ok: bool, y: Rq)
    requires Fine(s, y) && x != y
    ensures Fine(EndBio(s, x, ok), y)
  {
  }

  lemma InsertData(s: State, x: Rq)
    requires Fine(s, x) && x !in s.policy
    ensures var s1 := Registered(s, x, Bit(Data)); Fine(s1.(queueHead := s1.queueHead + [Io(x)]), x)
  {
    AppendCount(s.queueHead, Io(x), Io(x));
  }

  lemma QueueOther(s: State, x: Rq, y: Rq)
    requires Fine(s, y) && x != y
    ensures Fine(s.(queueHead := s.queueHead + [Io(x)]), y)
  {
    AppendCount(s.queueHead, Io(x), Io(y));
  }

  lemma InsertPlainFine(s: State, x: Rq, policy: Mask, timeout: int, now: int, y: Rq)
    requires Fine(s, y) && x !in s.policy && policy.Within(Bit(Data))
    ensures Fine(Insert(s, x, policy, timeout, now), y)
  {
    var s1 := Registered(s, x, policy);
    if y != x {
      RegisteredOther(s, x, policy, y);
      EndOther(s1, x, true, y);
      QueueOther(s1, x, y);
    } else if policy == NONE {
      InsertNothing(s, x);
    } else {
      InsertData(s, x);
    }
  }

  lemma InsertPlain(s: State, x: Rq, policy: Mask, timeout: int, now: int)
    requires Inv(s) && x !in s.policy && policy.Within(Bit(Data))
    ensures Inv(Insert(s, x, policy, timeout, now))
  {
    var s1 := Registered(s, x, policy);
    var r := Insert(s, x, policy, timeout, now);
    RegisteredQueues(s, x, policy);
    forall y ensures Fine(r, y) {
      assert Fine(s, y);
      InsertPlainFine(s, x, policy, timeout, now, y);
    }
    AppendCount(s1.queueHead, Io(x), FlushRq);
  }

  lemma SequencedOther(s: State, x: Rq, y: Rq)
    requires Fine(s, y) && x != y
    ensures Fine(Sequenced(s, x), y)
  {
  }

  lemma SequencedInHand(s: State, x: Rq, policy: Mask)
    requires Fine(s, x) && x !in s.policy
    ensures InHand(Sequenced(Registered(s, x, policy), x), x, policy.Not(), false)
  {
    DetachCount(Sequenced(Registered(s, x, policy), x), x, policy.Not(), x);
  }

  /** The state in which a new request is marked as sequenced, with none of its steps done. */
  ghost function Sequenced(s: State, x: Rq): State {
    s.(sequenced := s.sequenced + {x}, done := s.done[x := NONE])
  }

  lemma SequencedKeeps(s: State, x: Rq, policy: Mask)
    requires Inv(s) && x !in s.policy
    ensures var t := Sequenced(Registered(s, x, policy), x); Queues(t) && EveryoneBut(t, x)
  {
    RegisteredQueues(s, x, policy);
    var s1 := Registered(s, x, policy);
    forall y | y != x ensures Fine(Sequenced(s1, x), y) {
      assert Fine(s, y);
      RegisteredOther(s, x, policy, y);
      SequencedOther(s1, x, y);
    }
  }

  lemma InsertUnfolds(s: State, x: Rq, policy: Mask, timeout: int, now: int)
    requires Shape(s) && !policy.Within(Bit(Data))
    ensures Insert(s, x, policy, timeout, now) ==
            CompleteSeq(Sequenced(Registered(s, x, policy), x), x, policy.Not(), false, timeout, now)
  {
  }

  lemma InsertSequenced(s: State, x: Rq, policy: Mask, timeout: int, now: int)
    requires Inv(s) && x !in s.policy && !policy.Within(Bit(Data))
    ensures Inv(Insert(s, x, policy, timeout, now))
  {
    var s2 := Sequenced(Registered(s, x, policy), x);
    InsertUnfolds(s, x, policy, timeout, now);
    assert Queues(s2) && EveryoneBut(s2, x) by {
      SequencedKeeps(s, x, policy);
    }
    assert InHand(s2, x, policy.Not(), false) by {
      assert Fine(s, x);
      SequencedInHand(s, x, policy);
    }
    CompleteSeqInv(s2, x, policy.Not(), false, timeout, now);
  }

  /** Inserting a request, whatever its policy. */
  lemma InsertKeeps(s: State, x: Rq, policy: Mask, timeout: int, now: int)
    requires Inv(s) && x !in s.policy
    ensures Inv(Insert(s, x, policy, timeout, now))
  {
    if policy.Within(Bit(Data)) {
      InsertPlain(s, x, policy, timeout, now);
    } else {
      InsertSequenced(s, x, policy, timeout, now);
    }
  }

  lemma FetchFine(s: State, y: Rq)
    requires Fine(s, y) && s.queueHead != []
    ensures Fine(Fetch(s), y)
  {
    assert s.queueHead == [s.queueHead[0]] + s.queueHead[1..];
    AppendCount(s.queueHead[1..], s.queueHead[0], Io(y));
  }

  lemma FetchKeeps(s: State)
    requires Inv(s) && s.queueHead != []
    ensures Inv(Fetch(s))
  {
    assert s.queueHead == [s.queueHead[0]] + s.queueHead[1..];
    AppendCount(s.queueHead[1..], s.queueHead[0], FlushRq);
    forall y ensures Fine(Fetch(s), y) {
      assert Fine(s, y);
      FetchFine(s, y);
    }
  }

  /** The state in which the driver has reported the end of an I/O. */
  ghost function Reported(s: State, x: Rq, ok: bool): State {
    EndBio(Note(s.(driver := s.driver - multiset{Io(x)}), DataCompleted(x, ok)), x, ok)
  }

  lemma CompletedOther(s: State, x: Rq, ok: bool, y: Rq)
    requires Fine(s, y) && x != y
    ensures Fine(Note(s.(driver := s.driver - multiset{Io(x)}), DataCompleted(x, ok)), y)
  {
  }

  lemma ReportedOther(s: State, x: Rq, ok: bool, y: Rq)
    requires Fine(s, y) && x != y
    ensures Fine(Reported(s, x, ok), y)
  {
    CompletedOther(s, x, ok, y);
    EndOther(Note(s.(driver := s.driver - multiset{Io(x)}), DataCompleted(x, ok)), x, ok, y);
  }

  lemma ReportedPlain(s: State, x: Rq, ok: bool)
    requires Fine(s, x) && Io(x) in s.driver && x !in s.sequenced
    ensures Fine(Reported(s, x, ok), x)
  {
  }

  lemma ReportedQueues(s: State, x: Rq, ok: bool)
    requires Queues(s) && Fine(s, x) && Io(x) in s.driver
    ensures Queues(Reported(s, x, ok))
  {
    assert Durable(Then(s.log, DataCompleted(x, ok)), s.policy);
  }

  lemma ReportedFlying(s: State, x: Rq, ok: bool)
    requires Fine(s, x) && Io(x) in s.driver && x in s.sequenced
    ensures x in s.done && CurSeq(s.done[x]) == Data && Flying(Reported(s, x, ok), Io(x)) == 0
    ensures FlushInFlight(s) ==> Count(s.flushQueue[s.runningIdx], x) == 0
  {
  }

  lemma ReportedInHand(s: State, x: Rq, ok: bool)
    requires Fine(s, x) && Io(x) in s.driver && x in s.sequenced
    ensures InHand(Reported(s, x, ok), x, Bit(Data), !ok)
  {
    ReportedFlying(s, x, ok);
    DetachCount(Reported(s, x, ok), x, Bit(Data), x);
  }

  lemma ReportedKeeps(s: State, x: Rq, ok: bool)
    requires Inv(s) && Io(x) in s.driver
    ensures Queues(Reported(s, x, ok)) && EveryoneBut(Reported(s, x, ok), x)
  {
    assert Fine(s, x);
    ReportedQueues(s, x, ok);
    forall y | y != x ensures Fine(Reported(s, x, ok), y) {
      assert Fine(s, y);
      ReportedOther(s, x, ok, y);
    }
  }

  lemma EndIoUnfolds(s: State, x: Rq, ok: bool, timeout: int, now: int)
    requires Shape(s)
    ensures EndIo(s, x, ok, timeout, now) ==
            if x in s.sequenced then CompleteSeq(Reported(s, x, ok), x, Bit(Data), !ok, timeout, now)
            else Reported(s, x, ok)
  {
  }

  /** A request that is not sequenced ends with its I/O. */
  lemma EndPlainKeeps(s: State, x: Rq, ok: bool)
    requires Inv(s) && Io(x) in s.driver && x !in s.sequenced
    ensures Inv(Reported(s, x, ok))
  {
    ReportedKeeps(s, x, ok);
    assert Fine(s, x);
    ReportedPlain(s, x, ok);
  }

  /** A sequenced request goes on to the step after its data. */
  lemma EndDataKeeps(s: State, x: Rq, ok: bool, timeout: int, now: int)
    requires Inv(s) && Io(x) in s.driver && x in s.sequenced
    ensures x in s.done && Inv(CompleteSeq(Reported(s, x, ok), x, Bit(Data), !ok, timeout, now))
  {
    var s2 := Reported(s, x, ok);
    ReportedKeeps(s, x, ok);
    assert x in s.done && InHand(s2, x, Bit(Data), !ok) by {
      assert Fine(s, x);
      ReportedInHand(s, x, ok);
    }
    CompleteSeqInv(s2, x, Bit(Data), !ok, timeout, now);
  }

  lemma EndIoKeeps(s: State, x: Rq, ok: bool, timeout: int, now: int)
    requires Inv(s) && Io(x) in s.driver
    ensures x in s.sequenced ==> x in s.done
    ensures Inv(EndIo(s, x, ok, timeout, now))
  {
    EndIoUnfolds(s, x, ok, timeout, now);
    if x in s.sequenced {
      EndDataKeeps(s, x, ok, timeout, now);
    } else {
      EndPlainKeeps(s, x, ok);
    }
  }

  // flush_end_io: the requests of the running queue are advanced one after the other, while
  // a new flush may be issued, and the pending index toggled, after any of them.

  /** Inside the loop over queue `r`: the flush that every request on it waited for is over. */
  ghost predicate Mid(s: State, r: int, ok: bool) {
    && 0 <= r < 2
    && Queues(s)
    && Everyone(s)
    && s.runningIdx == 1 - r
    && (s.flushQueue[r] == [] ==> NoStall(s))
    && forall rq :: rq in s.flushQueue[r] ==> Flushed(s, rq, ok)
  }

  /** A successful flush that was issued late enough for `rq` has completed. */
  ghost predicate Flushed(s: State, rq: Rq, ok: bool) {
    rq in s.done && rq in s.policy && (ok ==> FlushedAfter(s.log, Ready(s, rq)))
  }

  lemma MidInHand(s: State, r: int, x: Rq, ok: bool)
    requires 0 <= r < 2 && Fine(s, x) && s.runningIdx == 1 - r && Count(s.flushQueue[r], x) > 0
    requires Flushed(s, x, ok)
    ensures InHand(s, x, Bit(CurSeq(s.done[x])), !ok)
    ensures CurSeq(s.done[x]) in {Preflush, Postflush}
  {
    DetachCount(s, x, Bit(CurSeq(s.done[x])), x);
  }

  /** What is known of a history stays known. */
  lemma AdvanceHistory(s: State, x: Rq, steps: Mask, error: bool, timeout: int, now: int, e: Event)
    requires Shape(s) && x in s.done
    ensures FlushedAfter(s.log, e) ==> FlushedAfter(CompleteSeq(s, x, steps, error, timeout, now).log, e)
  {
    var t := Advance(s, x, steps, error, now);
    assert FlushedAfter(s.log, e) ==> FlushedAfter(t.log, e);
  }

  lemma FlushedKept(s: State, x: Rq, steps: Mask, ok: bool, timeout: int, now: int, y: Rq)
    requires Shape(s) && x in s.done && x != y && Flushed(s, y, ok)
    ensures Flushed(CompleteSeq(s, x, steps, !ok, timeout, now), y, ok)
  {
    AdvanceQueues(s, x, steps, !ok, now, 0);
    KickRoles(Advance(s, x, steps, !ok, now), timeout, now);
    AdvanceHistory(s, x, steps, !ok, timeout, now, Ready(s, y));
  }

  /** A request that goes from one flush to the next has no data: nothing is left for the next flush to do. */
  lemma FlushedAgain(s: State, x: Rq, ok: bool, timeout: int, now: int)
    requires Good(s, x) && Flushed(s, x, ok) && x in s.sequenced && CurSeq(s.done[x]) in {Preflush, Postflush}
    requires NextStep(s.done[x].Or(Bit(CurSeq(s.done[x]))), !ok) in {Preflush, Postflush}
    ensures Flushed(TurnOf(s, x, ok, timeout, now), x, ok)
  {
    var steps := Bit(CurSeq(s.done[x]));
    AdvanceQueues(s, x, steps, !ok, now, 0);
    KickRoles(Advance(s, x, steps, !ok, now), timeout, now);
    AdvanceHistory(s, x, steps, !ok, timeout, now, Inserted(x));
  }

  lemma RemoveHead(l: seq<Rq>, x: Rq)
    requires l != [] && l[0] == x && Count(l, x) == 1
    ensures Lists.RemoveAll(l, x) == l[1..] && x !in l[1..]
  {
    assert l == [x] + l[1..];
    RemoveCount(l[1..], x, x);
  }

  /** The walked queue after a turn: its first request is gone, or at its end. */
  lemma MidQueue(s: State, r: int, x: Rq, ok: bool, timeout: int, now: int)
    requires 0 <= r < 2 && Good(s, x) && s.runningIdx == 1 - r && x in s.done
    requires s.flushQueue[r] != [] && s.flushQueue[r][0] == x
    ensures var t, next := TurnOf(s, x, ok, timeout, now), NextStep(s.done[x].Or(Bit(CurSeq(s.done[x]))), !ok);
            && t.runningIdx == 1 - r && x in s.sequenced && x !in s.flushQueue[r][1..]
            && t.flushQueue[r] ==
               s.flushQueue[r][1..] + (if s.pendingIdx == r && next in {Preflush, Postflush} then [x] else [])
            && (s.pendingIdx == r ==> FlushInFlight(t))
  {
    var steps := Bit(CurSeq(s.done[x]));
    assert x in multiset(s.flushQueue[r]);
    AdvanceQueues(s, x, steps, !ok, now, r);
    KickRoles(Advance(s, x, steps, !ok, now), timeout, now);
    RemoveHead(s.flushQueue[r], x);
  }

  /** One turn of the loop. */
  lemma MidStep(s: State, r: int, ok: bool, timeout: int, now: int)
    requires Mid(s, r, ok) && s.flushQueue[r] != []
    ensures s.flushQueue[r][0] in s.done
    ensures var t := TurnOf(s, s.flushQueue[r][0], ok, timeout, now); Mid(t, r, ok) && NoStall(t)
  {
    var x := s.flushQueue[r][0];
    assert Fine(s, x) && Flushed(s, x, ok) && x in multiset(s.flushQueue[r]);
    var steps := Bit(CurSeq(s.done[x]));
    var t := TurnOf(s, x, ok, timeout, now);
    MidInHand(s, r, x, ok);
    assert Queues(t) && NoStall(t) && Everyone(t) by {
      CompleteSeqKeeps(s, x, steps, !ok, timeout, now);
    }
    MidQueue(s, r, x, ok, timeout, now);
    forall y | y in t.flushQueue[r] ensures Flushed(t, y, ok) {
      if y == x {
        FlushedAgain(s, x, ok, timeout, now);
      } else {
        assert y in s.flushQueue[r] && Flushed(s, y, ok);
        FlushedKept(s, x, steps, ok, timeout, now, y);
      }
    }
  }

  /** The loop ends with the request that was last on the queue at its turn. */
  lemma MidEnds(s: State, r: int, ok: bool, timeout: int, now: int)
    requires Mid(s, r, ok) && |s.flushQueue[r]| == 1
    ensures Inv(TurnOf(s, s.flushQueue[r][0], ok, timeout, now))
  {
    var x := s.flushQueue[r][0];
    MidStep(s, r, ok, timeout, now);
    assert Fine(s, x);
    MidQueue(s, r, x, ok, timeout, now);
  }

  lemma {:induction false} WalkKeeps(s: State, r: int, ok: bool, timeout: int, now: int)
    requires Mid(s, r, ok)
    ensures forall rq :: rq in s.flushQueue[r] ==> rq in s.done
    ensures Inv(WalkQueue(s, r, ok, timeout, now))
    decreases Turns(s.done, s.flushQueue[r])
  {
    assert forall rq :: rq in s.flushQueue[r] ==> Flushed(s, rq, ok);
    if |s.flushQueue[r]| == 1 {
      MidEnds(s, r, ok, timeout, now);
    } else if s.flushQueue[r] != [] {
      MidStep(s, r, ok, timeout, now);
      TurnsDrop(s, r, ok, timeout, now);
      WalkKeeps(TurnOf(s, s.flushQueue[r][0], ok, timeout, now), r, ok, timeout, now);
    }
  }

  lemma RetireFine(s: State, ok: bool, y: Rq)
    requires Fine(s, y) && FlushInFlight(s)
    ensures Fine(RetireFlush(s, ok), y)
  {
  }

  lemma RetireFlushed(s: State, ok: bool, y: Rq)
    requires Fine(s, y) && FlushInFlight(s) && y in s.flushQueue[s.runningIdx]
    ensures Flushed(RetireFlush(s, ok), y, ok)
  {
    assert Count(s.flushQueue[s.runningIdx], y) > 0;
  }

  /** The checks at the top of flush_end_io, and its loop invariant on entry. */
  lemma RetireKeeps(s: State, ok: bool)
    requires Inv(s) && FlushRq in s.driver
    ensures FlushInFlight(s)
    ensures Mid(RetireFlush(s, ok), s.runningIdx, ok)
  {
    var y0 := s.flushQueue[s.runningIdx][0];
    assert Fine(s, y0) && Count(s.flushQueue[s.runningIdx], y0) > 0;
    var t := RetireFlush(s, ok);
    forall y ensures Fine(t, y) {
      assert Fine(s, y);
      RetireFine(s, ok, y);
    }
    forall y | y in s.flushQueue[s.runningIdx] ensures Flushed(t, y, ok) {
      assert Fine(s, y);
      RetireFlushed(s, ok, y);
    }
  }

  lemma EndFlushKeeps(s: State, ok: bool, timeout: int, now: int)
    requires Inv(s) && FlushRq in s.driver
    ensures (forall rq :: rq in s.flushQueue[s.runningIdx] ==> rq in s.done)
    ensures Inv(EndFlush(s, ok, timeout, now))
  {
    RetireKeeps(s, ok);
    WalkKeeps(RetireFlush(s, ok), s.runningIdx, ok, timeout, now);
  }

  // ---------------------------------------------------------------------------
  // Whole runs
  // ---------------------------------------------------------------------------

  lemma ActKeeps(s: State, a: Action, timeout: int)
    requires Inv(s) && Enabled(s, a)
    ensures Inv(Act(s, a, timeout))
  {
    match a
    case DoInsert(rq, devFlush, devFua, sectors, flush, fua, now) =>
      InsertKeeps(s, rq, Policy(devFlush, devFua, sectors, flush, fua), timeout, now);
    case DoFetch => FetchKeeps(s);
    case DoEndIo(rq, ok, now) => EndIoKeeps(s, rq, ok, timeout, now);
    case DoEndFlush(ok, now) => EndFlushKeeps(s, ok, timeout, now);
  }

  lemma LastStep(run: seq<Action>, timeout: int, s: State) returns (t: State)
    requires Reaches(run, timeout, s) && run != []
    ensures Reaches(run[..|run| - 1], timeout, t) && Shape(t)
    ensures Enabled(t, run[|run| - 1]) && s == Act(t, run[|run| - 1], timeout)
  {
    var a := run[|run| - 1];
    t :| Reaches(run[..|run| - 1], timeout, t) && Shape(t) && Enabled(t, a) && s == Act(t, a, timeout);
  }

  lemma InitialInv()
    ensures Inv(INITIAL)
  {
    forall y ensures Fine(INITIAL, y) {
    }
  }

  /** In every reachable state the protocol invariant holds. */
  lemma {:induction false} ReachableInv(run: seq<Action>, timeout: int, s: State)
    requires Reaches(run, timeout, s)
    ensures Inv(s)
  {
    if run == [] {
      InitialInv();
    } else {
      var t := LastStep(run, timeout, s);
      ReachableInv(run[..|run| - 1], timeout, t);
      ActKeeps(t, run[|run| - 1], timeout);
    }
  }

  lemma {:induction false} DurableEarlier(h: History, now: History, policy: map<Rq, Mask>)
    requires Durable(now, policy) && Earlier(h, now)
    ensures Durable(h, policy)
  {
    if h != now {
      DurableEarlier(h, now.before, policy);
    }
  }

  /** Durability, first half: at the moment the data of a request is queued, the flush it asked for is over. */
  lemma DataAfterPreflush(run: seq<Action>, timeout: int, s: State, h: History, rq: Rq)
    requires Reaches(run, timeout, s) && Earlier(Then(h, DataQueued(rq)), s.log)
    ensures rq in s.policy
    ensures s.policy[rq].pre ==> FlushedAfter(h, Inserted(rq))
  {
    ReachableInv(run, timeout, s);
    DurableEarlier(Then(h, DataQueued(rq)), s.log, s.policy);
  }

  /** Durability, second half: a request ends successfully only with its whole sequence behind it. */
  lemma EndAfterSequence(run: seq<Action>, timeout: int, s: State, h: History, rq: Rq)
    requires Reaches(run, timeout, s) && Earlier(Then(h, Ended(rq, true)), s.log)
    ensures rq in s.policy && WholeSequence(h, rq, s.policy[rq])
  {
    ReachableInv(run, timeout, s);
    DurableEarlier(Then(h, Ended(rq, true)), s.log, s.policy);
  }

  /** The steps a request goes through are the ones its flags and the device call for. */
  lemma {:induction false} PolicyOf(run: seq<Action>, timeout: int, s: State, i: nat)
    requires Reaches(run, timeout, s) && i < |run| && run[i].DoInsert?
    ensures run[i].rq in s.policy
    ensures s.policy[run[i].rq] ==
            Mask(run[i].devFlush && run[i].flush, run[i].sectors != 0, run[i].devFlush && !run[i].devFua && run[i].fua)
  {
    var t := LastStep(run, timeout, s);
    ActPolicy(t, run[|run| - 1], timeout);
    if i < |run| - 1 {
      assert run[..|run| - 1][i] == run[i];
      PolicyOf(run[..|run| - 1], timeout, t, i);
    }
  }

  lemma ActPolicy(s: State, a: Action, timeout: int)
    requires Shape(s) && Enabled(s, a)
    ensures var p := Act(s, a, timeout).policy;
            if a.DoInsert? then p == s.policy[a.rq := Policy(a.devFlush, a.devFua, a.sectors, a.flush, a.fua)]
            else p == s.policy
  {
    match a
    case DoInsert(rq, devFlush, devFua, sectors, flush, fua, now) =>
      var p := Policy(devFlush, devFua, sectors, flush, fua);
      var s2 := Sequenced(Registered(s, rq, p), rq);
      AdvanceQueues(s2, rq, p.Not(), false, now, 0);
      KickRoles(Advance(s2, rq, p.Not(), false, now), timeout, now);
    case DoFetch =>
    case DoEndIo(rq, ok, now) => EndIoPolicy(s, rq, ok, timeout, now);
    case DoEndFlush(ok, now) => EndFlushPolicy(s, ok, timeout, now);
  }

  /**
   What a submitter can rely on: at the moment its request ends successfully, on a device with a
   write-back cache, a flush issued after the submission has completed if it asked for one, its data
   has been written if there was any, and, if it asked for FUA and the device has no FUA, a flush
   issued after that write, or after the submission if there was nothing to write, has completed.
   */
  lemma SubmitterGuarantee(run: seq<Action>, timeout: int, s: State, i: nat, h: History)
    requires Reaches(run, timeout, s) && i < |run| && run[i].DoInsert?
    requires Earlier(Then(h, Ended(run[i].rq, true)), s.log)
    ensures run[i].devFlush && run[i].flush ==> FlushedAfter(h, Inserted(run[i].rq))
    ensures run[i].sectors != 0 ==> Saw(h, DataCompleted(run[i].rq, true))
    ensures run[i].devFlush && run[i].fua && !run[i].devFua ==>
              FlushedAfter(h, if run[i].sectors != 0 then DataCompleted(run[i].rq, true) else Inserted(run[i].rq))
  {
    PolicyOf(run, timeout, s, i);
    EndAfterSequence(run, timeout, s, h, run[i].rq);
  }

  // ---------------------------------------------------------------------------
  // Progress
  // ---------------------------------------------------------------------------

  /** With nothing under way at the device side, no request is left on any list. */
  lemma IdleMeansEmpty(s: State)
    requires Inv(s) && s.queueHead == [] && s.driver == multiset{}
    ensures !FlushInFlight(s) && s.dataInFlight == [] && s.flushQueue == [[], []]
  {
    if s.dataInFlight != [] {
      SomeDataFlies(s);
      assert false;
    }
  }

  lemma SomeDataFlies(s: State)
    requires Inv(s) && s.dataInFlight != []
    ensures Flying(s, Io(s.dataInFlight[0])) == 1
  {
    var rq := s.dataInFlight[0];
    assert Fine(s, rq) && Count(s.dataInFlight, rq) > 0;
  }

  lemma IdleMeansEnded(s: State, rq: Rq)
    requires Fine(s, rq) && s.queueHead == [] && s.driver == multiset{}
    requires s.dataInFlight == [] && s.flushQueue == [[], []]
    ensures rq !in s.sequenced && Ends(s.log, rq) == if rq in s.policy then 1 else 0
  {
  }

  /** Nothing is lost: once the device side is idle, every request has been ended, once. */
  lemma QuiescentMeansEnded(run: seq<Action>, timeout: int, s: State)
    requires Reaches(run, timeout, s) && s.queueHead == [] && s.driver == multiset{}
    ensures s.flushQueue == [[], []] && s.dataInFlight == []
    ensures forall rq :: Ends(s.log, rq) == if rq in s.policy then 1 else 0
  {
    ReachableInv(run, timeout, s);
    IdleMeansEmpty(s);
    forall rq ensures Ends(s.log, rq) == if rq in s.policy then 1 else 0 {
      assert Fine(s, rq);
      IdleMeansEnded(s, rq);
    }
  }

  /** The steps a request still has ahead of it. */
  ghost function Left(s: State, rq: Rq): nat {
    if rq in s.sequenced then Missing(DoneOf(s, rq)) else Flying(s, Io(rq))
  }

  ghost function Total(s: State, keys: set<Rq>): nat {
    if keys == {} then 0
    else
      var rq :| rq in keys;
      Left(s, rq) + Total(s, keys - {rq})
  }

  ghost function Unfinished(s: State): nat {
    Total(s, s.policy.Keys)
  }

  lemma {:induction false} TotalSplit(s: State, keys: set<Rq>, x: Rq)
    requires x in keys
    ensures Total(s, keys) == Left(s, x) + Total(s, keys - {x})
    decreases |keys|
  {
    var rq :| rq in keys && Total(s, keys) == Left(s, rq) + Total(s, keys - {rq});
    if rq != x {
      TotalSplit(s, keys - {rq}, x);
      TotalSplit(s, keys - {x}, rq);
      assert keys - {rq} - {x} == keys - {x} - {rq};
    }
  }

  lemma {:induction false} TotalLess(s: State, t: State, keys: set<Rq>)
    requires forall rq :: rq in keys ==> Left(t, rq) <= Left(s, rq)
    ensures Total(t, keys) <= Total(s, keys)
    ensures (exists x :: x in keys && Left(t, x) < Left(s, x)) ==> Total(t, keys) < Total(s, keys)
    decreases |keys|
  {
    if keys != {} {
      var rq :| rq in keys;
      TotalSplit(s, keys, rq);
      TotalSplit(t, keys, rq);
      TotalLess(s, t, keys - {rq});
    }
  }

  lemma KickLeft(s: State, timeout: int, now: int, y: Rq)
    requires Shape(s)
    ensures Left(KickFlush(s, timeout, now), y) == Left(s, y)
  {
    AppendCount(s.queueHead, FlushRq, Io(y));
  }

  lemma AdvanceLeftOther(s: State, x: Rq, steps: Mask, error: bool, now: int, y: Rq)
    requires Shape(s) && x != y
    ensures Left(Advance(s, x, steps, error, now), y) == Left(s, y)
  {
    var s1 := Detach(s, x, steps);
    match NextStep(DoneOf(s1, x), error) {
      case Data => AppendCount(s1.queueHead, Io(x), Io(y));
      case Done =>
      case _ =>
    }
  }

  lemma AdvanceLeftSelf(s: State, x: Rq, error: bool, now: int)
    requires Shape(s) && x in s.done && x in s.sequenced && Flying(s, Io(x)) == 0 && CurSeq(s.done[x]) != Done
    ensures Left(Advance(s, x, Bit(CurSeq(s.done[x])), error, now), x) < Left(s, x)
  {
    var s1 := Detach(s, x, Bit(CurSeq(s.done[x])));
    match NextStep(DoneOf(s1, x), error) {
      case Data =>
      case Done =>
      case _ =>
    }
  }

  lemma ReportedLeft(s: State, x: Rq, ok: bool, y: Rq)
    requires Fine(s, x) && Io(x) in s.driver
    ensures if y == x && x !in s.sequenced then Left(Reported(s, x, ok), y) < Left(s, y)
            else Left(Reported(s, x, ok), y) == Left(s, y)
    ensures x in s.sequenced ==> Flying(Reported(s, x, ok), Io(x)) == 0 && x in s.done && CurSeq(s.done[x]) == Data
  {
  }

  lemma EndIoLeft(s: State, x: Rq, ok: bool, timeout: int, now: int, y: Rq)
    requires Fine(s, x) && Io(x) in s.driver
    ensures if y == x then Left(EndIo(s, x, ok, timeout, now), y) < Left(s, y)
            else Left(EndIo(s, x, ok, timeout, now), y) == Left(s, y)
  {
    ReportedLeft(s, x, ok, y);
    if x in s.sequenced {
      var s2 := Reported(s, x, ok);
      if y == x {
        AdvanceLeftSelf(s2, x, !ok, now);
      } else {
        AdvanceLeftOther(s2, x, Bit(Data), !ok, now, y);
      }
      KickLeft(Advance(s2, x, Bit(Data), !ok, now), timeout, now, y);
    }
  }

  lemma MidLeft(s: State, r: int, x: Rq, ok: bool, timeout: int, now: int, y: Rq)
    requires 0 <= r < 2 && Fine(s, x) && s.runningIdx == 1 - r && Count(s.flushQueue[r], x) > 0 && Flushed(s, x, ok)
    ensures var t := CompleteSeq(s, x, Bit(CurSeq(s.done[x])), !ok, timeout, now);
            if y == x then Left(t, y) < Left(s, y) else Left(t, y) == Left(s, y)
  {
    if y == x {
      AdvanceLeftSelf(s, x, !ok, now);
    } else {
      AdvanceLeftOther(s, x, Bit(CurSeq(s.done[x])), !ok, now, y);
    }
    KickLeft(Advance(s, x, Bit(CurSeq(s.done[x])), !ok, now), timeout, now, y);
  }

  lemma {:induction false} WalkLeft(s: State, r: int, ok: bool, timeout: int, now: int, y: Rq)
    requires Mid(s, r, ok)
    ensures var t := WalkQueue(s, r, ok, timeout, now);
            Left(t, y) <= Left(s, y) && (s.flushQueue[r] != [] && s.flushQueue[r][0] == y ==> Left(t, y) < Left(s, y))
    decreases Turns(s.done, s.flushQueue[r])
  {
    if s.flushQueue[r] != [] {
      var x := s.flushQueue[r][0];
      assert Fine(s, x) && Flushed(s, x, ok) && x in multiset(s.flushQueue[r]);
      MidStep(s, r, ok, timeout, now);
      MidLeft(s, r, x, ok, timeout, now, y);
      if |s.flushQueue[r]| > 1 {
        TurnsDrop(s, r, ok, timeout, now);
        WalkLeft(TurnOf(s, x, ok, timeout, now), r, ok, timeout, now, y);
      }
    }
  }

  lemma {:induction false} WalkPolicy(s: State, r: int, ok: bool, timeout: int, now: int)
    requires Shape(s) && 0 <= r < 2
    ensures WalkQueue(s, r, ok, timeout, now).policy == s.policy
    decreases Turns(s.done, s.flushQueue[r])
  {
    if s.flushQueue[r] != [] {
      var x := s.flushQueue[r][0];
      var steps := Bit(CurSeq(DoneOf(s, x)));
      AdvanceQueues(s, x, steps, !ok, now, 0);
      KickRoles(Advance(s, x, steps, !ok, now), timeout, now);
      if |s.flushQueue[r]| > 1 {
        TurnsDrop(s, r, ok, timeout, now);
        WalkPolicy(TurnOf(s, x, ok, timeout, now), r, ok, timeout, now);
      }
    }
  }

  lemma EndIoPolicy(s: State, x: Rq, ok: bool, timeout: int, now: int)
    requires Shape(s)
    ensures EndIo(s, x, ok, timeout, now).policy == s.policy
  {
    AdvanceQueues(Reported(s, x, ok), x, Bit(Data), !ok, now, 0);
    KickRoles(Advance(Reported(s, x, ok), x, Bit(Data), !ok, now), timeout, now);
  }

  lemma EndIoProgress(s: State, x: Rq, ok: bool, timeout: int, now: int)
    requires Fine(s, x) && Io(x) in s.driver
    ensures Unfinished(EndIo(s, x, ok, timeout, now)) < Unfinished(s)
  {
    var t := EndIo(s, x, ok, timeout, now);
    assert x in s.policy;
    forall y ensures Left(t, y) <= Left(s, y) && (y == x ==> Left(t, y) < Left(s, y)) {
      EndIoLeft(s, x, ok, timeout, now, y);
    }
    EndIoPolicy(s, x, ok, timeout, now);
    TotalLess(s, t, s.policy.Keys);
  }

  lemma EndFlushLeft(s: State, ok: bool, timeout: int, now: int, y: Rq)
    requires Inv(s) && FlushRq in s.driver && s.flushQueue[s.runningIdx] != []
    ensures var t := EndFlush(s, ok, timeout, now);
            Left(t, y) <= Left(s, y) && (s.flushQueue[s.runningIdx][0] == y ==> Left(t, y) < Left(s, y))
  {
    RetireKeeps(s, ok);
    WalkLeft(RetireFlush(s, ok), s.runningIdx, ok, timeout, now, y);
    assert Left(RetireFlush(s, ok), y) == Left(s, y);
  }

  lemma EndFlushPolicy(s: State, ok: bool, timeout: int, now: int)
    requires Shape(s)
    ensures EndFlush(s, ok, timeout, now).policy == s.policy
  {
    WalkPolicy(RetireFlush(s, ok), s.runningIdx, ok, timeout, now);
  }

  lemma RunningHead(s: State)
    requires Inv(s) && FlushRq in s.driver
    ensures s.flushQueue[s.runningIdx] != [] && s.flushQueue[s.runningIdx][0] in s.policy
  {
    var x := s.flushQueue[s.runningIdx][0];
    assert Fine(s, x) && Count(s.flushQueue[s.runningIdx], x) > 0;
  }

  lemma EndFlushProgress(s: State, ok: bool, timeout: int, now: int)
    requires Inv(s) && FlushRq in s.driver
    ensures Unfinished(EndFlush(s, ok, timeout, now)) < Unfinished(s)
  {
    RunningHead(s);
    var x := s.flushQueue[s.runningIdx][0];
    var t := EndFlush(s, ok, timeout, now);
    forall y ensures Left(t, y) <= Left(s, y) && (y == x ==> Left(t, y) < Left(s, y)) {
      EndFlushLeft(s, ok, timeout, now, y);
    }
    EndFlushPolicy(s, ok, timeout, now);
    TotalLess(s, t, s.policy.Keys);
  }

  /** Every completion reported by the device lowers the total of unfinished steps. */
  lemma CompletionProgress(run: seq<Action>, timeout: int, s: State, a: Action)
    requires Reaches(run, timeout, s) && Shape(s) && Enabled(s, a) && (a.DoEndIo? || a.DoEndFlush?)
    ensures Unfinished(Act(s, a, timeout)) < Unfinished(s)
  {
    ReachableInv(run, timeout, s);
    match a
    case DoEndIo(x, ok, now) =>
      assert Fine(s, x);
      EndIoProgress(s, x, ok, timeout, now);
    case DoEndFlush(ok, now) =>
      EndFlushProgress(s, ok, timeout, now);
  }
}
