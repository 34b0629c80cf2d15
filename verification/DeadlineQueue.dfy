/** The deadline scheduler as the source runs it: the lists, counters and request fields change in place. */
module DeadlineQueue {
  import opened Options
  import opened Lists
  import opened Deadline
  import opened DeadlineProofs
  import opened DeadlineBounds

  /** Every request the scheduler has or has handed on. */
  ghost function Holds(s: State): multiset<Rq> {
    multiset(s.read.fifo) + multiset(s.write.fifo) + multiset(s.queue)
  }

  lemma RemoveCounts(l: seq<Rq>, x: Rq)
    requires x in l
    ensures multiset(Remove(l, x)) == multiset(l) - multiset{x}
  {
    var k := IndexOf(l, x);
    assert l == l[..k] + [x] + l[k + 1..];
    assert Remove(l, x) == l[..k] + l[k + 1..];
  }

  lemma MoveHolds(s: State, w: bool, rq: Rq)
    requires rq in s.Of(w).fifo
    ensures Holds(MoveRequest(s, w, rq)) == Holds(s)
  {
    RemoveCounts(s.Of(w).fifo, rq);
  }

  /** Dispatching loses and duplicates nothing. */
  lemma DispatchHolds(t: Tunables, s: State, now: int)
    requires SideFine(s, false) && SideFine(s, true)
    ensures Holds(Dispatch(t, s, now)) == Holds(s)
  {
    ChosenQueued(t, s, now);
    match Choose(t, s, now)
    case Nothing =>
    case Choice(rq, w, starts, starved) =>
      MoveHolds(s.(batching := if starts then 1 else s.batching + 1, starved := starved), w, rq);
  }

  /** A dispatch takes one request while there is one, and says no only when there is none. */
  lemma DispatchOnce(t: Tunables, s: State, now: int)
    requires Inv(t, s, now)
    ensures Inv(t, Dispatch(t, s, now), now) && Holds(Dispatch(t, s, now)) == Holds(s)
    ensures Choose(t, s, now).Choice? <==> s.nrSorted != 0
    ensures Dispatch(t, s, now).nrSorted == if s.nrSorted == 0 then 0 else s.nrSorted - 1
  {
    DispatchKeeps(t, s, now);
    DispatchHolds(t, s, now);
    ChosenQueued(t, s, now);
  }

  lemma Drained(t: Tunables, s: State, now: int)
    requires Inv(t, s, now) && s.nrSorted == 0
    ensures s.read == EMPTY && s.write == EMPTY && Holds(s) == multiset(s.queue)
  {
    SortedMeansQueued(s, false);
    SortedMeansQueued(s, true);
  }

  /** list_move of `req` to the place behind `next`. */
  function Behind(l: seq<Rq>, req: Rq, next: Rq): seq<Rq>
    requires next in Remove(l, req)
  {
    InsertAt(Remove(l, req), IndexOf(Remove(l, req), next) + 1, req)
  }

  lemma BehindIndex(rest: seq<Rq>, req: Rq, next: Rq)
    requires NoDup(rest) && next in rest && req !in rest
    ensures var moved := InsertAt(rest, IndexOf(rest, next) + 1, req);
            next in moved && IndexOf(moved, next) == IndexOf(rest, next)
  {
    var k := IndexOf(rest, next);
    InsertMembers(rest, k + 1, req);
    IndexUnique(InsertAt(rest, k + 1, req), next, k);
  }

  lemma InsertThenGone(rest: seq<Rq>, k: nat, req: Rq)
    requires k < |rest|
    ensures Without(InsertAt(rest, k + 1, req), k) == rest[k := req]
  {
  }

  /** Moving `req` behind `next` and then taking `next` away leaves `req` in the place of `next`. */
  lemma BehindThenGone(l: seq<Rq>, req: Rq, next: Rq)
    requires NoDup(l) && next in l && req != next
    ensures next in Remove(l, req)
    ensures Remove(Behind(l, req, next), next) == Replace(Remove(l, req), next, req)
  {
    RemoveMembers(l, req);
    var rest := Remove(l, req);
    BehindIndex(rest, req, next);
    InsertThenGone(rest, IndexOf(rest, next), req);
  }

  lemma MovedUp(time: map<Rq, int>, fifo: seq<Rq>, req: Rq, next: Rq)
    requires req != next && req in time && next in time && NoDup(fifo) && next in fifo && time[next] < time[req]
    ensures next in Remove(fifo, req) && Remove(Behind(fifo, req, next), next) == FifoMerged(time, fifo, req, next)
  {
    BehindThenGone(fifo, req, next);
  }

  class DeadlineData {
    const tunables: Tunables
    var read: Side
    var write: Side
    var dir: map<Rq, bool>
    var pos: map<Rq, int>
    var time: map<Rq, int>
    var batching: int
    var starved: int
    var nrSorted: int
    var queue: seq<Rq>

    ghost function Model(): State
      reads this
    {
      State(read, write, dir, pos, time, batching, starved, nrSorted, queue)
    }

    ghost predicate Valid(now: int)
      reads this
    {
      Inv(tunables, Model(), now)
    }

    constructor (tunables: Tunables)
      requires tunables.writesStarved >= -0x8000_0000
      ensures Model() == INITIAL && this.tunables == tunables && Valid(0)
    {
      this.tunables := tunables;
      read, write := EMPTY, EMPTY;
      dir, pos, time := map[], map[], map[];
      batching, starved, nrSorted, queue := 0, 0, 0, [];
      new;
      InitialInv(tunables);
    }

    method GetSide(w: bool) returns (side: Side)
      ensures side == Model().Of(w)
    {
      if w { side := write; } else { side := read; }
    }

    method SetSide(w: bool, side: Side)
      modifies `read, `write
      ensures Model() == old(Model()).With(w, side)
    {
      if w { write := side; } else { read := side; }
    }

    /** The walk of elv_rb_add: past every request that does not start after `at`. */
    method FindSlot(sorted: seq<Rq>, at: int) returns (k: nat)
      requires forall x :: x in sorted ==> x in pos
      ensures k == Slot(pos, sorted, at)
    {
      k := 0;
      while k < |sorted| && pos[sorted[k]] <= at
        invariant k <= |sorted|
        invariant k + Slot(pos, sorted[k..], at) == Slot(pos, sorted, at)
      {
        assert sorted[k..][1..] == sorted[k + 1..];
        k := k + 1;
      }
      assert k < |sorted| ==> sorted[k..][0] == sorted[k];
    }

    /** deadline_add_rq_rb */
    method AddRqRb(sorted: seq<Rq>, rq: Rq) returns (r: seq<Rq>)
      requires rq in pos && forall x :: x in sorted ==> x in pos
      ensures r == SortIn(pos, sorted, rq)
    {
      var k := FindSlot(sorted, pos[rq]);
      r := InsertAt(sorted, k, rq);
    }

    /** deadline_add_request, with the count of __elv_add_request. */
    method AddRequest(rq: Rq, w: bool, at: int, now: int)
      requires forall x :: x in Model().Of(w).sorted ==> x in pos
      modifies this
      ensures Model() == Add(tunables, old(Model()), rq, w, at, now)
    {
      nrSorted := nrSorted + 1;
      dir, pos := dir[rq := w], pos[rq := at];
      var side := GetSide(w);
      var sorted := AddRqRb(side.sorted, rq);
      time := time[rq := now + tunables.Expire(w)];
      SetSide(w, side.(sorted := sorted, fifo := side.fifo + [rq]));
    }

    /** The sorted insertion of __elv_add_request. */
    method InsertSorted(rq: Rq, w: bool, at: int, now: int, ghost last: int)
      requires Valid(last) && last <= now && rq !in dir
      modifies this
      ensures Valid(now) && Model() == Add(tunables, old(Model()), rq, w, at, now)
    {
      AddKeeps(tunables, Model(), rq, w, at, now, last);
      AddRequest(rq, w, at, now);
    }

    /** deadline_remove_request, with deadline_del_rq_rb. */
    method RemoveRequest(side: Side, rq: Rq) returns (r: Side)
      ensures r == Removed(side, rq)
    {
      var fifo, next := Remove(side.fifo, rq), side.next;
      if next == Some(rq) {
        next := Latter(side.sorted, rq);
      }
      return Side(Remove(side.sorted, rq), fifo, next);
    }

    /** A front merge moves the start of `rq`; deadline_merged_request sorts it in again. */
    method Resort(rq: Rq, at: int)
      requires rq in dir && NoDup(Model().Of(dir[rq]).sorted)
      requires forall x :: x in Model().Of(dir[rq]).sorted ==> x in pos
      modifies this
      ensures Model() == FrontMerged(old(Model()), rq, at)
    {
      var side := GetSide(dir[rq]);
      pos := pos[rq := at];
      RemoveMembers(side.sorted, rq);
      var sorted := AddRqRb(Remove(side.sorted, rq), rq);
      SetSide(dir[rq], side.(sorted := sorted));
    }

    /** elv_merged_request after a front merge. */
    method MergedRequest(rq: Rq, at: int, ghost now: int)
      requires Valid(now) && rq in dir && rq in Model().Of(dir[rq]).fifo
      modifies this
      ensures Valid(now) && Model() == FrontMerged(old(Model()), rq, at)
    {
      FrontMergedKeeps(tunables, Model(), rq, at, now);
      Resort(rq, at);
    }

    /** list_move of `req` behind `next`, if that expires earlier. */
    method MoveUp(fifo: seq<Rq>, req: Rq, next: Rq) returns (r: seq<Rq>)
      requires req != next && req in time && next in time && NoDup(fifo) && next in fifo
      ensures Remove(r, next) == FifoMerged(time, fifo, req, next)
    {
      if time[next] < time[req] {
        MovedUp(time, fifo, req, next);
        r := Behind(fifo, req, next);
        return;
      }
      return fifo;
    }

    /** deadline_merged_requests, with the count of elv_merge_requests. */
    method MergedRequests(req: Rq, next: Rq)
      requires req != next && req in dir && req in time && next in time
      requires NoDup(Model().Of(dir[req]).fifo) && next in Model().Of(dir[req]).fifo
      modifies this
      ensures Model() == Merged(old(Model()), req, next)
    {
      var side := GetSide(dir[req]);
      var fifo := MoveUp(side.fifo, req, next);
      if time[next] < time[req] {
        time := time[req := time[next]];
      }
      side := RemoveRequest(side.(fifo := fifo), next);
      SetSide(dir[req], side);
      nrSorted := nrSorted - 1;
    }

    /** elv_merge_requests */
    method MergeRequests(req: Rq, next: Rq, ghost now: int)
      requires Valid(now) && req != next && req in dir
      requires req in Model().Of(dir[req]).fifo && next in Model().Of(dir[req]).fifo
      modifies this
      ensures Valid(now) && Model() == Merged(old(Model()), req, next)
    {
      MergedKeeps(tunables, Model(), req, next, now);
      MergedRequests(req, next);
    }

    /** deadline_move_request, with what elv_dispatch_add_tail moves and counts. */
    method MoveRequest(w: bool, rq: Rq)
      modifies this
      ensures Model() == Deadline.MoveRequest(old(Model()), w, rq)
    {
      read, write := read.(next := None), write.(next := None);
      var side := GetSide(w);
      side := RemoveRequest(side.(next := Latter(side.sorted, rq)), rq);
      SetSide(w, side);
      nrSorted := nrSorted - 1;
      queue := queue + [rq];
    }

    /** deadline_check_fifo */
    method CheckFifo(w: bool, now: int) returns (expired: bool)
      requires Model().Of(w).fifo != [] && Model().Of(w).fifo[0] in time
      ensures expired == Expired(Model(), w, now)
    {
      var side := GetSide(w);
      return now > time[side.fifo[0]];
    }

    /** The part of deadline_dispatch_requests that finds where a batch starts. */
    method FindRequest(w: bool, now: int) returns (rq: Rq)
      requires Model().Of(w).fifo != [] && Model().Of(w).fifo[0] in time
      ensures rq == BatchHead(Model(), w, now)
    {
      var side := GetSide(w);
      var expired := CheckFifo(w, now);
      if expired || side.next.None? {
        return side.fifo[0];
      }
      return side.next.value;
    }

    /** deadline_dispatch_requests up to the move: picks the request and counts the batch. */
    method Select(now: int) returns (c: Choice)
      requires Timed(Model())
      modifies `batching, `starved
      ensures c == Choose(tunables, old(Model()), now)
      ensures c.Nothing? ==> Model() == old(Model())
      ensures c.Choice? ==> Model() == old(Model()).(batching := if c.starts then 1 else old(batching) + 1,
                                                     starved := c.starved)
    {
      var fromWrite := write.next.Some?;
      var next := if fromWrite then write.next else read.next;
      if next.Some? && batching < tunables.fifoBatch {
        batching := batching + 1;
        return Choice(next.value, fromWrite, false, starved);
      }
      var w := write.fifo != [];
      if read.fifo != [] {
        if w {
          var before := starved;
          starved := starved + 1;
          w := before >= tunables.Threshold();
        }
      } else if !w {
        return Nothing;
      }
      if w {
        starved := 0;
      }
      var rq := FindRequest(w, now);
      batching := 0;
      batching := batching + 1;
      return Choice(rq, w, true, starved);
    }

    /** deadline_dispatch_requests */
    method DispatchRequests(now: int) returns (dispatched: bool)
      requires Timed(Model())
      modifies this
      ensures Model() == Dispatch(tunables, old(Model()), now)
      ensures dispatched == Choose(tunables, old(Model()), now).Choice?
    {
      var c := Select(now);
      if c.Nothing? {
        return false;
      }
      MoveRequest(c.write, c.rq);
      return true;
    }

    /** elv_drain_elevator: everything queued ends up on the dispatch queue and the count at zero. */
    method DrainElevator(now: int, ghost last: int)
      requires Valid(last) && last <= now
      modifies this
      ensures Valid(now) && nrSorted == 0 && read == EMPTY && write == EMPTY
      ensures multiset(queue) == old(Holds(Model()))
    {
      Wait(tunables, Model(), last, now);
      var more := true;
      while more
        invariant Valid(now) && Holds(Model()) == old(Holds(Model()))
        invariant !more ==> nrSorted == 0
        decreases nrSorted, more
      {
        DispatchOnce(tunables, Model(), now);
        more := DispatchRequests(now);
      }
      Drained(tunables, Model(), now);
    }
  }
}
