/**
 Tagged command queueing (block/blk-tag.c, with blk_requeue_request of block/blk-core.c and
 elv_requeue_request of block/elevator.c).

 A request in flight holds a tag: a set bit of tag_map and a place in tag_index.
 */
module Tags {
  import opened Options
  import opened Lists

  type Rq = nat
  datatype Code = Done | Busy | NoMemory

  /**
   max_depth, tag_map and tag_index; the tags of the requests in flight; these requests in the order
   they were started, each with the moment of its start; and the dispatch queue.
   */
  datatype State = State(
    depth: nat, bits: seq<bool>, index: seq<Option<Rq>>,
    tag: map<Rq, nat>, flight: seq<Rq>, stamp: map<Rq, int>, clock: int, queue: seq<Rq>)

  // ---------------------------------------------------------------------------
  // The operations
  // ---------------------------------------------------------------------------

  /** How many of the tags a request may use: the last two are kept from asynchronous ones. */
  function Limit(depth: nat, isSync: bool): nat {
    if isSync || depth <= 1 then depth
    else if depth == 2 then 1
    else depth - 2
  }

  /** find_first_zero_bit */
  function FirstZero(bits: seq<bool>, max: nat): (t: nat)
    requires max <= |bits|
    ensures t <= max && (t < max ==> !bits[t]) && forall i :: 0 <= i < t ==> bits[i]
  {
    if max == 0 || !bits[0] then 0
    else
      var t := FirstZero(bits[1..], max - 1);
      assert forall i :: 0 <= i < t ==> bits[1..][i] == bits[i + 1];
      t + 1
  }

  /** Whether blk_queue_start_tag refuses, given how many asynchronous requests are in flight. */
  predicate Refuses(s: State, isSync: bool, asyncInFlight: nat)
    requires s.depth <= |s.bits|
  {
    var max := Limit(s.depth, isSync);
    (!isSync && s.depth > 1 && asyncInFlight > max) || FirstZero(s.bits, max) >= max
  }

  function Take(s: State, rq: Rq, t: nat): State
    requires t < |s.bits| == |s.index|
  {
    s.(bits := s.bits[t := true], index := s.index[t := Some(rq)], tag := s.tag[rq := t],
       flight := s.flight + [rq], stamp := s.stamp[rq := s.clock], clock := s.clock + 1,
       queue := Remove(s.queue, rq))
  }

  /** blk_queue_start_tag */
  function StartTag(s: State, rq: Rq, isSync: bool, asyncInFlight: nat): State
    requires s.depth <= |s.bits| == |s.index|
  {
    if Refuses(s, isSync, asyncInFlight) then s
    else Take(s, rq, FirstZero(s.bits, Limit(s.depth, isSync)))
  }

  /** blk_queue_end_tag, which leaves alone a request whose tag the map does not reach. */
  function EndTag(s: State, rq: Rq): State
    requires rq in s.tag && |s.bits| == |s.index|
  {
    var t := s.tag[rq];
    if t >= |s.bits| then s
    else
      s.(bits := s.bits[t := false], index := s.index[t := None], tag := s.tag - {rq}, flight := Remove(s.flight, rq))
  }

  /** blk_requeue_request */
  function Requeue(s: State, rq: Rq): State
    requires rq in s.tag && |s.bits| == |s.index|
  {
    var s1 := EndTag(s, rq);
    s1.(queue := [rq] + s1.queue)
  }

  /** The depth init_tag_map settles for. */
  function Adjusted(newDepth: nat, nrRequests: nat): nat {
    if newDepth > nrRequests * 2 then nrRequests * 2 else newDepth
  }

  /** The old entries, as many as the new map holds, and free ones behind them. */
  function Fitted<T>(entries: seq<T>, d: nat, free: T): (r: seq<T>)
    ensures |r| == d && forall t :: 0 <= t < d ==> r[t] == if t < |entries| then entries[t] else free
  {
    seq(d, t requires 0 <= t < d => if t < |entries| then entries[t] else free)
  }

  /** blk_queue_resize_tags, when it succeeds. */
  function Resized(s: State, newDepth: nat, nrRequests: nat): State {
    if newDepth <= |s.bits| then s.(depth := newDepth)
    else
      var d := Adjusted(newDepth, nrRequests);
      s.(depth := d, bits := Fitted(s.bits, d, false), index := Fitted(s.index, d, None))
  }

  /** The map that comes out has room for every tag in flight. */
  ghost predicate Room(s: State, newDepth: nat, nrRequests: nat) {
    newDepth <= |s.bits| || forall rq :: rq in s.tag ==> s.tag[rq] < Adjusted(newDepth, nrRequests)
  }

  // ---------------------------------------------------------------------------
  // The invariant
  // ---------------------------------------------------------------------------

  /** A request in flight is the holder of its tag. */
  ghost predicate Holds(s: State, rq: Rq) {
    rq in s.tag && s.tag[rq] < |s.index| && s.index[s.tag[rq]] == Some(rq)
  }

  /** A bit is set iff its tag has a holder, and the holder knows. */
  ghost predicate SlotFine(s: State, t: nat)
    requires t < |s.bits| == |s.index|
  {
    && (s.bits[t] <==> s.index[t].Some?)
    && (s.index[t].Some? ==> s.index[t].value in s.tag && s.tag[s.index[t].value] == t)
  }

  ghost predicate Map(s: State) {
    && s.depth <= |s.bits| == |s.index|
    && (forall t: nat :: t < |s.bits| ==> SlotFine(s, t))
    && (forall rq :: rq in s.tag ==> Holds(s, rq))
  }

  ghost predicate Order(s: State) {
    && NoDup(s.flight) && NoDup(s.queue)
    && (forall rq :: rq in s.flight <==> rq in s.tag)
    && (forall rq :: rq in s.flight ==> rq !in s.queue)
    && Ordered(s.stamp, s.flight)
    && (forall rq :: rq in s.flight ==> s.stamp[rq] < s.clock)
  }

  ghost predicate Inv(s: State) {
    Map(s) && Order(s)
  }

  /** Requests in flight hold different tags, all with their bits set. */
  lemma DistinctTags(s: State, a: Rq, b: Rq)
    requires Inv(s) && a in s.flight && b in s.flight && a != b
    ensures s.tag[a] != s.tag[b] && s.bits[s.tag[a]] && s.index[s.tag[a]] == Some(a)
  {
    assert Holds(s, a) && Holds(s, b);
    assert SlotFine(s, s.tag[a]);
  }

  lemma TakeMap(s: State, rq: Rq, t: nat)
    requires Map(s) && rq !in s.tag && t < |s.bits| && !s.bits[t]
    ensures Map(Take(s, rq, t))
  {
    var s1 := Take(s, rq, t);
    forall u: nat | u < |s1.bits| ensures SlotFine(s1, u) {
      assert SlotFine(s, u);
    }
    forall x | x in s1.tag ensures Holds(s1, x) {
      if x != rq {
        assert Holds(s, x);
        assert SlotFine(s, t);
      }
    }
  }

  lemma TakeOrder(s: State, rq: Rq, t: nat)
    requires Order(s) && rq in s.queue && t < |s.bits| == |s.index|
    ensures Order(Take(s, rq, t))
  {
    AppendMembers(s.flight, rq);
    RemoveMembers(s.queue, rq);
  }

  lemma EndMap(s: State, rq: Rq)
    requires Map(s) && rq in s.tag && Holds(s, rq)
    ensures Map(EndTag(s, rq))
  {
    var s1 := EndTag(s, rq);
    forall u: nat | u < |s1.bits| ensures SlotFine(s1, u) {
      assert SlotFine(s, u);
    }
    forall x | x in s1.tag ensures Holds(s1, x) {
      assert Holds(s, x);
    }
  }

  lemma EndOrder(s: State, rq: Rq)
    requires Order(s) && rq in s.tag && |s.bits| == |s.index|
    ensures Order(EndTag(s, rq))
  {
    RemoveMembers(s.flight, rq);
    RemoveOrdered(s.stamp, s.flight, rq);
  }

  lemma ResizedMap(s: State, newDepth: nat, nrRequests: nat)
    requires Map(s) && Room(s, newDepth, nrRequests)
    ensures Map(Resized(s, newDepth, nrRequests))
  {
    var s1 := Resized(s, newDepth, nrRequests);
    forall u: nat | u < |s1.bits| ensures SlotFine(s1, u) {
      if u < |s.bits| {
        assert SlotFine(s, u);
      }
    }
    forall x | x in s1.tag ensures Holds(s1, x) {
      assert Holds(s, x);
    }
  }

  /** A started request gets the lowest free tag within its limit; without one nothing changes. */
  lemma StartKeeps(s: State, rq: Rq, isSync: bool, asyncInFlight: nat)
    requires Inv(s) && rq in s.queue
    ensures Inv(StartTag(s, rq, isSync, asyncInFlight))
    ensures !Refuses(s, isSync, asyncInFlight) ==>
      var s1 := StartTag(s, rq, isSync, asyncInFlight);
      && s1.flight == s.flight + [rq] && rq in s1.tag && s1.tag[rq] < Limit(s.depth, isSync) <= |s.bits|
      && !s.bits[s1.tag[rq]] && forall t :: 0 <= t < s1.tag[rq] ==> s.bits[t]
  {
    if !Refuses(s, isSync, asyncInFlight) {
      var t := FirstZero(s.bits, Limit(s.depth, isSync));
      assert rq !in s.tag;
      TakeMap(s, rq, t);
      TakeOrder(s, rq, t);
    }
  }

  /** A synchronous request is refused only when no tag at all is free. */
  lemma SyncUsesAll(s: State, asyncInFlight: nat)
    requires s.depth <= |s.bits|
    ensures Refuses(s, true, asyncInFlight) <==> forall t :: 0 <= t < s.depth ==> s.bits[t]
  {
    var t := FirstZero(s.bits, s.depth);
    if t < s.depth {
      assert !s.bits[t];
    }
  }

  /** Asynchronous requests leave the last two tags of three or more to synchronous ones. */
  lemma AsyncLeavesTwo(s: State, rq: Rq, asyncInFlight: nat)
    requires s.depth <= |s.bits| == |s.index| && s.depth >= 3
    ensures forall t :: s.depth - 2 <= t < |s.bits| ==> StartTag(s, rq, false, asyncInFlight).bits[t] == s.bits[t]
  {
  }

  /**
   An asynchronous request is refused only when more of its kind are in flight than it may use tags, or when
   every tag below the last two is taken; of two tags it may use one, and a single one is not kept from it.
   */
  lemma AsyncRefused(s: State, asyncInFlight: nat)
    requires s.depth <= |s.bits|
    ensures s.depth >= 3 ==>
            (Refuses(s, false, asyncInFlight) <==>
             asyncInFlight > s.depth - 2 || forall t :: 0 <= t < s.depth - 2 ==> s.bits[t])
    ensures s.depth == 2 ==> (Refuses(s, false, asyncInFlight) <==> asyncInFlight > 1 || s.bits[0])
    ensures s.depth == 1 ==> (Refuses(s, false, asyncInFlight) <==> s.bits[0])
    ensures s.depth == 0 ==> Refuses(s, false, asyncInFlight)
  {
    var max := Limit(s.depth, false);
    var t := FirstZero(s.bits, max);
    if t < max {
      assert !s.bits[t];
    }
  }

  lemma EndKeeps(s: State, rq: Rq)
    requires Inv(s) && rq in s.flight
    ensures Holds(s, rq) && SlotFine(s, s.tag[rq]) && Inv(EndTag(s, rq))
  {
    EndMap(s, rq);
    EndOrder(s, rq);
  }

  lemma RequeueKeeps(s: State, rq: Rq)
    requires Inv(s) && rq in s.flight
    ensures Holds(s, rq) && Inv(Requeue(s, rq))
  {
    EndKeeps(s, rq);
    RemoveMembers(s.flight, rq);
    var s1, s2 := EndTag(s, rq), Requeue(s, rq);
    assert Map(s2) by {
      forall u: nat | u < |s2.bits| ensures SlotFine(s2, u) {
        assert SlotFine(s1, u);
      }
      forall x | x in s2.tag ensures Holds(s2, x) {
        assert Holds(s1, x);
      }
    }
  }

  /** Resizing keeps the invariant exactly when the new map has room for every tag in flight. */
  lemma ResizedKeeps(s: State, newDepth: nat, nrRequests: nat)
    requires Inv(s)
    ensures Inv(Resized(s, newDepth, nrRequests)) <==> Room(s, newDepth, nrRequests)
  {
    var s1 := Resized(s, newDepth, nrRequests);
    if Room(s, newDepth, nrRequests) {
      ResizedMap(s, newDepth, nrRequests);
    } else {
      var rq :| rq in s.tag && s.tag[rq] >= Adjusted(newDepth, nrRequests);
      assert !Holds(s1, rq);
    }
  }

  /** It always has when the depth is not clamped below the size of the old map. */
  lemma RoomUnclamped(s: State, newDepth: nat, nrRequests: nat)
    requires Inv(s) && |s.bits| <= Adjusted(newDepth, nrRequests)
    ensures Room(s, newDepth, nrRequests)
  {
    forall rq | rq in s.tag ensures s.tag[rq] < Adjusted(newDepth, nrRequests) {
      assert Holds(s, rq);
    }
  }

  /**
   After a resize tags are handed out up to the new depth and no further; a map that has to grow gains free
   tags unless the depth is clamped.
   */
  lemma ResizedHandsOut(s: State, newDepth: nat, nrRequests: nat, asyncInFlight: nat)
    requires Map(s)
    ensures var s1 := Resized(s, newDepth, nrRequests);
            s1.depth <= |s1.bits| &&
            (Refuses(s1, true, asyncInFlight) <==>
             if newDepth <= |s.bits| then forall t :: 0 <= t < newDepth ==> s.bits[t]
             else nrRequests * 2 <= |s.bits| && forall t :: 0 <= t < nrRequests * 2 ==> s.bits[t])
  {
    var s1 := Resized(s, newDepth, nrRequests);
    SyncUsesAll(s1, asyncInFlight);
    if newDepth > |s.bits| && |s1.bits| > |s.bits| {
      assert !s1.bits[|s.bits|];
    }
  }

  /** Without room, a request whose tag is out of reach stays in flight however often it is ended. */
  lemma NeverFreed(s: State, newDepth: nat, nrRequests: nat, rq: Rq)
    requires Inv(s) && newDepth > |s.bits| && rq in s.flight && s.tag[rq] >= Adjusted(newDepth, nrRequests)
    ensures var s1 := Resized(s, newDepth, nrRequests);
            !Inv(s1) && rq in s1.tag && EndTag(s1, rq) == s1 && rq in s1.flight
  {
    ResizedKeeps(s, newDepth, nrRequests);
  }

  /** The places of the new index that the copy of the old one writes. */
  function CopyTargets(s: State): seq<nat> {
    seq(|s.index|, t => t)
  }

  /**
   The copy stays inside the new index exactly when the depth is not clamped below the size of the
   old map; then no entry is lost.
   */
  lemma CopyInside(s: State, newDepth: nat, nrRequests: nat)
    requires Inv(s) && newDepth > |s.bits|
    ensures var s1 := Resized(s, newDepth, nrRequests);
            && ((forall t :: t in CopyTargets(s) ==> t < |s1.index|) <==> |s.bits| <= Adjusted(newDepth, nrRequests))
            && (|s.bits| <= Adjusted(newDepth, nrRequests) ==>
                  s1.index[..|s.index|] == s.index && s1.bits[..|s.bits|] == s.bits)
  {
    if |s.bits| > Adjusted(newDepth, nrRequests) {
      var t := |Resized(s, newDepth, nrRequests).index|;
      assert CopyTargets(s)[t] == t && t in CopyTargets(s);
    }
  }

  /** Nine tags, the last one held by request 7. */
  const LAST_TAG := State(9, seq(9, t => t == 8), seq(9, t => if t == 8 then Some(7) else None),
                          map[7 := 8], [7], map[7 := 0], 1, [])

  /** With four requests to the queue, asking for ten tags leaves eight. */
  lemma ResizeLosesTag()
    ensures Inv(LAST_TAG) && Adjusted(10, 4) == 8 && !Inv(Resized(LAST_TAG, 10, 4))
    ensures EndTag(Resized(LAST_TAG, 10, 4), 7) == Resized(LAST_TAG, 10, 4)
  {
    var s := LAST_TAG;
    assert Map(s) by {
      forall t: nat | t < 9 ensures SlotFine(s, t) {
      }
      assert Holds(s, 7);
    }
    NeverFreed(s, 10, 4, 7);
  }

  // ---------------------------------------------------------------------------
  // Invalidating
  // ---------------------------------------------------------------------------

  /** blk_queue_invalidate_tags: the request started last is requeued first. */
  function Invalidated(s: State): State
    requires Inv(s)
    decreases |s.flight|
  {
    if s.flight == [] then s
    else
      var rq := s.flight[|s.flight| - 1];
      RequeueKeeps(s, rq);
      LastRemoved(s.flight);
      Invalidated(Requeue(s, rq))
  }

  lemma LastRemoved(l: seq<Rq>)
    requires NoDup(l) && l != []
    ensures Remove(l, l[|l| - 1]) == l[..|l| - 1]
  {
    IndexUnique(l, l[|l| - 1], |l| - 1);
  }

  lemma {:induction false} InvalidatedKeeps(s: State)
    requires Inv(s)
    ensures Inv(Invalidated(s)) && Invalidated(s).flight == []
    decreases |s.flight|
  {
    if s.flight != [] {
      RequeueKeeps(s, s.flight[|s.flight| - 1]);
      LastRemoved(s.flight);
      InvalidatedKeeps(Requeue(s, s.flight[|s.flight| - 1]));
    }
  }

  lemma MoveOver(l: seq<Rq>, q: seq<Rq>)
    requires l != []
    ensures l + q == l[..|l| - 1] + ([l[|l| - 1]] + q)
  {
  }

  /** One turn: the request started last moves to the head of the dispatch queue. */
  lemma InvalidateOne(s: State) returns (t: State)
    requires Inv(s) && s.flight != []
    ensures Inv(t) && Invalidated(s) == Invalidated(t)
    ensures t.flight == s.flight[..|s.flight| - 1] && t.queue == [s.flight[|s.flight| - 1]] + s.queue
  {
    var last := s.flight[|s.flight| - 1];
    RequeueKeeps(s, last);
    LastRemoved(s.flight);
    t := Requeue(s, last);
  }

  lemma {:induction false} InvalidatedQueue(s: State)
    requires Inv(s)
    ensures Invalidated(s).queue == s.flight + s.queue
    decreases |s.flight|
  {
    if s.flight != [] {
      var t := InvalidateOne(s);
      InvalidatedQueue(t);
      MoveOver(s.flight, s.queue);
    }
  }

  lemma NothingInFlight(s: State)
    requires Inv(s) && s.flight == []
    ensures forall t :: 0 <= t < |s.bits| ==> !s.bits[t]
  {
    forall t: nat | t < |s.bits| ensures !s.bits[t] {
      assert SlotFine(s, t);
    }
  }

  /**
   Invalidating frees every tag and puts what was in flight at the head of the dispatch queue, in
   the order it was started.
   */
  lemma InvalidatedOrder(s: State)
    requires Inv(s)
    ensures var r := Invalidated(s);
            && Inv(r) && r.flight == [] && r.queue == s.flight + s.queue
            && Ordered(s.stamp, r.queue[..|s.flight|]) && (forall t :: 0 <= t < |r.bits| ==> !r.bits[t])
  {
    InvalidatedKeeps(s);
    InvalidatedQueue(s);
    NothingInFlight(Invalidated(s));
    assert (s.flight + s.queue)[..|s.flight|] == s.flight;
  }

  // ---------------------------------------------------------------------------
  // Runs
  // ---------------------------------------------------------------------------

  datatype Action =
    | DoQueue(rq: Rq)
    | DoStart(rq: Rq, isSync: bool, asyncInFlight: nat)
    | DoEnd(rq: Rq)
    | DoResize(newDepth: nat, nrRequests: nat)
    | DoInvalidate

  ghost predicate Enabled(s: State, a: Action) {
    match a
    case DoQueue(rq) => rq !in s.queue && rq !in s.flight
    case DoStart(rq, _, _) => rq in s.queue
    case DoEnd(rq) => rq in s.flight
    case DoResize(newDepth, nrRequests) => Room(s, newDepth, nrRequests)
    case DoInvalidate => true
  }

  ghost function Act(s: State, a: Action): (r: State)
    requires Inv(s) && Enabled(s, a)
    ensures Inv(r)
  {
    match a
    case DoQueue(rq) =>
      QueueKeeps(s, rq);
      s.(queue := s.queue + [rq])
    case DoStart(rq, isSync, asyncInFlight) =>
      StartKeeps(s, rq, isSync, asyncInFlight);
      StartTag(s, rq, isSync, asyncInFlight)
    case DoEnd(rq) =>
      EndKeeps(s, rq);
      EndTag(s, rq)
    case DoResize(newDepth, nrRequests) =>
      ResizedKeeps(s, newDepth, nrRequests);
      Resized(s, newDepth, nrRequests)
    case DoInvalidate =>
      InvalidatedOrder(s);
      Invalidated(s)
  }

  lemma QueueKeeps(s: State, rq: Rq)
    requires Inv(s) && rq !in s.queue && rq !in s.flight
    ensures Inv(s.(queue := s.queue + [rq]))
  {
    AppendMembers(s.queue, rq);
    var s1 := s.(queue := s.queue + [rq]);
    forall u: nat | u < |s1.bits| ensures SlotFine(s1, u) {
      assert SlotFine(s, u);
    }
    forall x | x in s1.tag ensures Holds(s1, x) {
      assert Holds(s, x);
    }
  }

  function Initial(depth: nat): State {
    State(depth, Fitted([], depth, false), Fitted([], depth, None), map[], [], map[], 0, [])
  }

  ghost predicate Possible(s: State, run: seq<Action>)
    requires Inv(s)
    decreases |run|
  {
    run == [] || (Enabled(s, run[0]) && Possible(Act(s, run[0]), run[1..]))
  }

  ghost function Play(s: State, run: seq<Action>): State
    requires Inv(s) && Possible(s, run)
    decreases |run|
  {
    if run == [] then s else Play(Act(s, run[0]), run[1..])
  }

  /** Through any run the tags in flight are distinct, bits and holders agree, and the order of starting is kept. */
  lemma {:induction false} PlayInv(s: State, run: seq<Action>)
    requires Inv(s) && Possible(s, run)
    ensures Inv(Play(s, run))
    decreases |run|
  {
    if run != [] {
      PlayInv(Act(s, run[0]), run[1..]);
    }
  }

  lemma InitialInv(depth: nat)
    ensures Inv(Initial(depth))
  {
  }
}
