/**
 The flush sequencer as the source runs it: fields updated in place, and the running queue walked
 with a cursor that is fetched one element ahead (list_for_each_entry_safe).
 */
module FlushQueue {
  import Lists
  import opened Flush
  import opened FlushProofs

  /** A position in a list: its head, or one of its elements. */
  datatype Cursor = Head | At(rq: Rq)

  function First(l: seq<Rq>): Cursor {
    if l == [] then Head else At(l[0])
  }

  /** The position after `c` in a list without repetitions. */
  function After(l: seq<Rq>, c: Cursor): Cursor {
    if c.Head? then First(l)
    else if |l| < 2 then Head
    else if l[0] == c.rq then At(l[1])
    else After(l[1..], c)
  }

  /** The position behind the first request is where the walk goes on, whether or not that request comes back. */
  lemma NextStays(l: seq<Rq>, more: seq<Rq>)
    requires |l| > 1
    ensures After(l, First(l)) == First(l[1..] + more)
  {
  }

  /** One turn of the loop in flush_end_io, on the first request of the queue. */
  lemma WalkStep(t: State, r: int, ok: bool, timeout: int, now: int)
    requires Shape(t) && 0 <= r < 2 && Mid(t, r, ok) && t.flushQueue[r] != []
    ensures var x := t.flushQueue[r][0];
            && x in t.done && CurSeq(t.done[x]) in {Preflush, Postflush} && Io(x) !in t.queueHead
            && var u := Flush.CompleteSeq(t, x, Bit(CurSeq(t.done[x])), !ok, timeout, now);
               && Shape(u) && Mid(u, r, ok) && Turns(u.done, u.flushQueue[r]) < Turns(t.done, t.flushQueue[r])
               && if |t.flushQueue[r]| == 1 then
                    After(t.flushQueue[r], At(x)) == Head && WalkQueue(t, r, ok, timeout, now) == u
                  else
                    && After(t.flushQueue[r], At(x)) == First(u.flushQueue[r]) != Head
                    && WalkQueue(t, r, ok, timeout, now) == WalkQueue(u, r, ok, timeout, now)
  {
    var x := t.flushQueue[r][0];
    assert Fine(t, x) && Flushed(t, x, ok) && x in multiset(t.flushQueue[r]);
    MidStep(t, r, ok, timeout, now);
    MidInHand(t, r, x, ok);
    MidQueue(t, r, x, ok, timeout, now);
    TurnsDrop(t, r, ok, timeout, now);
    assert Io(x) !in t.queueHead by {
      assert Count(t.queueHead, Io(x)) == 0;
    }
    if |t.flushQueue[r]| > 1 {
      var next := NextStep(t.done[x].Or(Bit(CurSeq(t.done[x]))), !ok);
      NextStays(t.flushQueue[r], if t.pendingIdx == r && next in {Preflush, Postflush} then [x] else []);
    }
  }

  class RequestQueue {
    const timeout: int                // FLUSH_PENDING_TIMEOUT
    var flushQueue: seq<seq<Rq>>
    var pendingIdx: int
    var runningIdx: int
    var pendingSince: int
    var dataInFlight: seq<Rq>
    var queueHead: seq<Entry>
    var sequenced: set<Rq>
    var done: map<Rq, Mask>
    ghost var driver: multiset<Entry>
    ghost var policy: map<Rq, Mask>
    ghost var flushes: int
    ghost var log: History
    ghost var joined: map<Rq, int>

    ghost function Model(): State
      reads this
    {
      State(flushQueue, pendingIdx, runningIdx, pendingSince, dataInFlight, queueHead, driver, sequenced, policy,
            done, flushes, log, joined)
    }

    constructor (timeout: int)
      ensures Model() == INITIAL && this.timeout == timeout && Inv(Model())
    {
      this.timeout := timeout;
      flushQueue, pendingIdx, runningIdx, pendingSince := [[], []], 0, 0, 0;
      dataInFlight, queueHead, sequenced, done := [], [], {}, map[];
      driver, policy, flushes, log, joined := multiset{}, map[], 0, Start, map[];
      new;
      InitialInv();
    }

    /** blk_kick_flush */
    method KickFlush(now: int) returns (issued: bool)
      requires Shape(Model())
      modifies this
      ensures Model() == Flush.KickFlush(old(Model()), timeout, now)
      ensures issued <==> |queueHead| > |old(queueHead)|
    {
      if pendingIdx != runningIdx || flushQueue[pendingIdx] == [] {
        return false;
      }
      if dataInFlight != [] && now < pendingSince + timeout {
        return false;
      }
      pendingIdx := 1 - pendingIdx;
      queueHead := queueHead + [FlushRq];
      log := Then(log, FlushIssued(flushes));
      flushes := flushes + 1;
      return true;
    }

    /** list_del_init(&rq->flush.list) */
    method Unlink(rq: Rq)
      requires |flushQueue| == 2
      modifies this
      ensures Model() == Flush.Unlink(old(Model()), rq)
    {
      flushQueue := [Lists.RemoveAll(flushQueue[0], rq), Lists.RemoveAll(flushQueue[1], rq)];
      dataInFlight := Lists.RemoveAll(dataInFlight, rq);
    }

    /** The end of the request's bio, as far as req_bio_endio lets it through. */
    method EndBio(rq: Rq, ok: bool)
      modifies this
      ensures Model() == Flush.EndBio(old(Model()), rq, ok)
    {
      if rq !in sequenced {
        log := Then(log, Ended(rq, ok));
      }
    }

    method QueueForFlush(rq: Rq, now: int)
      requires Shape(Model())
      modifies this
      ensures Model() == ToPending(Flush.Unlink(old(Model()), rq), rq,
                                   if old(flushQueue[pendingIdx]) == [] then now else old(pendingSince), now)
    {
      if flushQueue[pendingIdx] == [] {
        pendingSince := now;
      }
      Unlink(rq);
      joined := joined[rq := now];
      flushQueue := flushQueue[pendingIdx := flushQueue[pendingIdx] + [rq]];
    }

    method QueueData(rq: Rq)
      requires Shape(Model())
      modifies this
      ensures Model() == ToData(Flush.Unlink(old(Model()), rq), rq)
    {
      Unlink(rq);
      dataInFlight := dataInFlight + [rq];
      queueHead := [Io(rq)] + queueHead;
      log := Then(log, DataQueued(rq));
    }

    method Finish(rq: Rq, error: bool)
      requires Shape(Model())
      requires Io(rq) !in queueHead          // BUG_ON
      modifies this
      ensures Model() == ToEnd(Flush.Unlink(old(Model()), rq), rq, error)
    {
      Unlink(rq);
      sequenced := sequenced - {rq};
      EndBio(rq, !error);
    }

    /** blk_flush_complete_seq; its two BUG_ON conditions are what it demands of its callers. */
    method CompleteSeq(rq: Rq, steps: Mask, error: bool, now: int) returns (queued: bool)
      requires Shape(Model()) && rq in done
      requires !(done[rq].pre && steps.pre) && !(done[rq].data && steps.data) && !(done[rq].post && steps.post)
      requires NextStep(done[rq].Or(steps), error) == Done ==> Io(rq) !in queueHead
      modifies this
      ensures Model() == Flush.CompleteSeq(old(Model()), rq, steps, error, timeout, now)
      ensures queued <==> |queueHead| > |old(queueHead)|
    {
      queued := false;
      done := done[rq := done[rq].Or(steps)];
      var step := if !error then CurSeq(done[rq]) else Done;
      match step {
        case Data =>
          QueueData(rq);
          queued := true;
        case Done =>
          Finish(rq, error);
        case _ =>
          QueueForFlush(rq, now);
      }
      assert Model() == Advance(old(Model()), rq, steps, error, now);
      var issued := KickFlush(now);
      queued := issued || queued;
    }

    /** The loop of flush_end_io over the queue `running`, with the next position fetched ahead. */
    method WalkRunning(running: int, ok: bool, now: int)
      requires Shape(Model()) && 0 <= running < 2 && Mid(Model(), running, ok)
      modifies this
      ensures Model() == WalkQueue(old(Model()), running, ok, timeout, now)
    {
      var pos := First(flushQueue[running]);
      var n := After(flushQueue[running], pos);
      ghost var end := WalkQueue(Model(), running, ok, timeout, now);
      while pos != Head
        invariant Shape(Model()) && Mid(Model(), running, ok)
        invariant pos == Head ==> Model() == end
        invariant pos != Head ==> pos == First(flushQueue[running]) && n == After(flushQueue[running], pos)
        invariant pos != Head ==> WalkQueue(Model(), running, ok, timeout, now) == end
        decreases Turns(done, flushQueue[running])
      {
        WalkStep(Model(), running, ok, timeout, now);
        var step := CurSeq(done[pos.rq]);
        assert step == Preflush || step == Postflush;          // BUG_ON
        var queued := CompleteSeq(pos.rq, Bit(step), !ok, now);
        pos := n;
        n := After(flushQueue[running], n);
      }
    }

    /** The part of flush_end_io before its loop: the flush is over, and its queue is returned. */
    method Retire(ok: bool) returns (running: int)
      requires Shape(Model())
      requires pendingIdx != runningIdx          // BUG_ON
      modifies this
      ensures Model() == RetireFlush(old(Model()), ok) && running == old(runningIdx)
    {
      running := runningIdx;
      runningIdx := 1 - runningIdx;
      driver := driver - multiset{FlushRq};
      log := Then(log, FlushCompleted(flushes - 1, ok));
    }

    /** flush_end_io */
    method FlushEndIo(ok: bool, now: int)
      requires Inv(Model()) && FlushRq in driver
      modifies this
      ensures Model() == EndFlush(old(Model()), ok, timeout, now)
      ensures Inv(Model())
    {
      RetireKeeps(Model(), ok);
      var running := Retire(ok);
      WalkKeeps(Model(), running, ok, timeout, now);
      WalkRunning(running, ok, now);
    }

    /** flush_data_end_io, or plain completion when the request is not sequenced. */
    method EndIo(rq: Rq, ok: bool, now: int)
      requires Inv(Model()) && Io(rq) in driver
      modifies this
      ensures Model() == Flush.EndIo(old(Model()), rq, ok, timeout, now)
      ensures Inv(Model())
    {
      ghost var s := Model();
      EndIoKeeps(s, rq, ok, timeout, now);
      assert Fine(s, rq);
      driver := driver - multiset{Io(rq)};
      log := Then(log, DataCompleted(rq, ok));
      EndBio(rq, ok);
      if rq in sequenced {
        assert Count(queueHead, Io(rq)) == 0;
        var queued := CompleteSeq(rq, Bit(Data), !ok, now);
      }
    }

    /** blk_fetch_request */
    method Fetch() returns (e: Entry)
      requires Inv(Model()) && queueHead != []
      modifies this
      ensures Model() == Flush.Fetch(old(Model())) && e == old(queueHead)[0]
      ensures Inv(Model())
    {
      FetchKeeps(Model());
      e := queueHead[0];
      queueHead := queueHead[1..];
      driver := driver + multiset{e};
    }

    /** Mark a new request as sequenced and take its first step. */
    method StartSequence(rq: Rq, p: Mask, now: int)
      requires Shape(Model()) && p != NONE
      modifies this
      ensures Model() == Flush.CompleteSeq(Sequenced(old(Model()), rq), rq, p.Not(), false, timeout, now)
    {
      sequenced := sequenced + {rq};
      done := done[rq := NONE];
      var queued := CompleteSeq(rq, p.Not(), false, now);
    }

    /** blk_insert_flush */
    method InsertFlush(rq: Rq, devFlush: bool, devFua: bool, sectors: nat, flush: bool, fua: bool, now: int)
      requires Inv(Model()) && rq !in policy
      modifies this
      ensures Model() == Insert(old(Model()), rq, Policy(devFlush, devFua, sectors, flush, fua), timeout, now)
      ensures Inv(Model())
    {
      var p := Policy(devFlush, devFua, sectors, flush, fua);
      InsertKeeps(Model(), rq, p, timeout, now);
      policy := policy[rq := p];
      log := Then(log, Inserted(rq));
      if p == NONE {
        EndBio(rq, true);
      } else if p.data && !p.pre && !p.post {
        queueHead := queueHead + [Io(rq)];
      } else {
        StartSequence(rq, p, now);
      }
    }
  }
}
