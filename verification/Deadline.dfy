/**
 The deadline I/O scheduler (block/deadline-iosched.c with the elevator core, block/elevator.c).

 Each direction keeps its requests twice: sorted by position and in order of expiry.  Requests are
 dispatched in batches along the sorted order; a batch starts at the first request of the fifo when
 that has expired, when the direction changes, or when the sorted order has been exhausted.
 */
module Deadline {
  import opened Options
  import opened Lists

  type Rq = nat

  /** fifo_batch, writes_starved and fifo_expire[2]. */
  datatype Tunables = Tunables(fifoBatch: int, writesStarved: int, readExpire: int, writeExpire: int) {
    function Expire(write: bool): int {
      if write then writeExpire else readExpire
    }

    /** writes_starved as the unsigned counter it is compared with sees it. */
    function Threshold(): int {
      if writesStarved < 0 then writesStarved + 0x1_0000_0000 else writesStarved
    }
  }

  /** sort_list, fifo_list and next_rq of one direction. */
  datatype Side = Side(sorted: seq<Rq>, fifo: seq<Rq>, next: Option<Rq>)

  /** The scheduler's data, the fields of its requests, and the elevator's count and dispatch queue. */
  datatype State = State(
    read: Side, write: Side,
    dir: map<Rq, bool>, pos: map<Rq, int>, time: map<Rq, int>,
    batching: int, starved: int,
    nrSorted: int, queue: seq<Rq>)
  {
    function Of(w: bool): Side {
      if w then write else read
    }

    function With(w: bool, side: Side): State {
      if w then this.(write := side) else this.(read := side)
    }
  }

  // ---------------------------------------------------------------------------
  // The operations
  // ---------------------------------------------------------------------------

  /** deadline_latter_request */
  function Latter(sorted: seq<Rq>, rq: Rq): Option<Rq> {
    if rq in sorted && IndexOf(sorted, rq) + 1 < |sorted| then Some(sorted[IndexOf(sorted, rq) + 1]) else None
  }

  /** deadline_remove_request */
  function Removed(side: Side, rq: Rq): Side {
    Side(Remove(side.sorted, rq), Remove(side.fifo, rq),
         if side.next == Some(rq) then Latter(side.sorted, rq) else side.next)
  }

  /** deadline_add_request, with the count of __elv_add_request. */
  function Add(t: Tunables, s: State, rq: Rq, w: bool, pos: int, now: int): State
    requires forall x :: x in s.Of(w).sorted ==> x in s.pos
  {
    var s1 := s.(dir := s.dir[rq := w], pos := s.pos[rq := pos], time := s.time[rq := now + t.Expire(w)],
                 nrSorted := s.nrSorted + 1);
    var side := s1.Of(w);
    s1.With(w, side.(sorted := SortIn(s1.pos, side.sorted, rq), fifo := side.fifo + [rq]))
  }

  /** deadline_merged_request after a front merge has moved the start of a request to `pos`. */
  function FrontMerged(s: State, rq: Rq, pos: int): State
    requires rq in s.dir && NoDup(s.Of(s.dir[rq]).sorted) && forall x :: x in s.Of(s.dir[rq]).sorted ==> x in s.pos
  {
    var w := s.dir[rq];
    var s1 := s.(pos := s.pos[rq := pos]);
    var side := s1.Of(w);
    RemoveMembers(side.sorted, rq);
    s1.With(w, side.(sorted := SortIn(s1.pos, Remove(side.sorted, rq), rq)))
  }

  /** The fifo after `next` has been merged into `req`: `req` takes the place of `next` if that expires earlier. */
  function FifoMerged(time: map<Rq, int>, fifo: seq<Rq>, req: Rq, next: Rq): seq<Rq>
    requires req in time && next in time
  {
    if time[next] < time[req] && next in Remove(fifo, req)
    then Replace(Remove(fifo, req), next, req)
    else Remove(fifo, next)
  }

  /** deadline_merged_requests, with the count of elv_merge_requests. */
  function Merged(s: State, req: Rq, next: Rq): State
    requires req in s.time && next in s.time && req in s.dir
  {
    var w := s.dir[req];
    var side := s.Of(w);
    var fifo := FifoMerged(s.time, side.fifo, req, next);
    var time := if s.time[next] < s.time[req] then s.time[req := s.time[next]] else s.time;
    s.(time := time, nrSorted := s.nrSorted - 1).With(w, Removed(side, next).(fifo := fifo))
  }

  /** deadline_move_request, with the part of elv_dispatch_add_tail that moves and counts. */
  function MoveRequest(s: State, w: bool, rq: Rq): State {
    var side := s.Of(w).(next := Latter(s.Of(w).sorted, rq));
    var s1 := s.(read := s.read.(next := None), write := s.write.(next := None));
    s1.With(w, Removed(side, rq)).(nrSorted := s.nrSorted - 1, queue := s.queue + [rq])
  }

  /** What deadline_dispatch_requests decides: the request, its direction, and whether it starts a batch. */
  datatype Choice = Nothing | Choice(rq: Rq, write: bool, starts: bool, starved: int)

  /** deadline_check_fifo */
  predicate Expired(s: State, w: bool, now: int)
    requires s.Of(w).fifo != [] && s.Of(w).fifo[0] in s.time
  {
    now > s.time[s.Of(w).fifo[0]]
  }

  /** The request a batch in direction `w` starts with. */
  function BatchHead(s: State, w: bool, now: int): Rq
    requires s.Of(w).fifo != [] && s.Of(w).fifo[0] in s.time
  {
    if Expired(s, w, now) || s.Of(w).next.None? then s.Of(w).fifo[0] else s.Of(w).next.value
  }

  ghost predicate Timed(s: State) {
    && (forall x :: x in s.read.fifo ==> x in s.time)
    && (forall x :: x in s.write.fifo ==> x in s.time)
  }

  /** deadline_dispatch_requests up to the point where it moves the request. */
  function Choose(t: Tunables, s: State, now: int): Choice
    requires Timed(s)
  {
    var fromWrite := s.write.next.Some?;
    var next := if fromWrite then s.write.next else s.read.next;
    if next.Some? && s.batching < t.fifoBatch then Choice(next.value, fromWrite, false, s.starved)
    else if s.read.fifo != [] then
      if s.write.fifo != [] && s.starved >= t.Threshold() then Choice(BatchHead(s, true, now), true, true, 0)
      else Choice(BatchHead(s, false, now), false, true, if s.write.fifo != [] then s.starved + 1 else s.starved)
    else if s.write.fifo != [] then Choice(BatchHead(s, true, now), true, true, 0)
    else Nothing
  }

  /** deadline_dispatch_requests */
  function Dispatch(t: Tunables, s: State, now: int): State
    requires Timed(s)
  {
    match Choose(t, s, now)
    case Nothing => s
    case Choice(rq, w, starts, starved) =>
      MoveRequest(s.(batching := if starts then 1 else s.batching + 1, starved := starved), w, rq)
  }

  // ---------------------------------------------------------------------------
  // The invariant
  // ---------------------------------------------------------------------------

  /** Both lists of a direction hold the same requests, each in its order; the next request is one of them. */
  ghost predicate SideOk(dir: map<Rq, bool>, pos: map<Rq, int>, time: map<Rq, int>, side: Side, w: bool) {
    && NoDup(side.sorted) && NoDup(side.fifo)
    && (forall x :: x in side.sorted <==> x in side.fifo)
    && (forall x :: x in side.fifo ==> x in dir && dir[x] == w)
    && Ordered(pos, side.sorted) && Ordered(time, side.fifo)
    && (side.next.Some? ==> side.next.value in side.sorted)
  }

  ghost predicate SideFine(s: State, w: bool) {
    SideOk(s.dir, s.pos, s.time, s.Of(w), w)
  }

  /** No request expires later than one added now would. */
  ghost predicate NotLate(t: Tunables, s: State, w: bool, now: int)
    requires SideFine(s, w)
  {
    forall x :: x in s.Of(w).fifo ==> s.time[x] <= now + t.Expire(w)
  }

  /** The counters: at most one direction has a batch to go on with, and writes are not starved for too long. */
  ghost predicate Counters(t: Tunables, s: State) {
    && (s.read.next.None? || s.write.next.None?)
    && s.nrSorted == |s.read.fifo| + |s.write.fifo|
    && (s.read.next.Some? || s.write.next.Some? ==> s.batching >= 1)
    && 0 <= s.starved <= t.Threshold()
  }

  ghost predicate Inv(t: Tunables, s: State, now: int) {
    && SideFine(s, false) && SideFine(s, true)
    && NotLate(t, s, false, now) && NotLate(t, s, true, now)
    && Counters(t, s)
  }
}
