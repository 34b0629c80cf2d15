/**
 The service tree of throttle groups and the dispatch rounds over it (block/blk-throttle.c), with
 the counters, flags and references that the source keeps beside the queues.

 The tree is the sequence of its groups in key order; its leftmost cache is kept as a field.
 */
module ThrottleDispatch {
  import opened Lists
  import opened Options
  import opened ThrottleGroups

  type Gid = nat

  /** A bio on its way to the device, with the queue it waited in. */
  datatype Released = Released(gid: Gid, write: bool, bio: Bio)

  type Groups<D> = map<Gid, Group<D>>

  // ---------------------------------------------------------------------------
  // Sums over groups
  // ---------------------------------------------------------------------------

  ghost function Sum<D>(groups: Groups<D>, write: bool): nat {
    if groups == map[] then 0
    else
      var g :| g in groups;
      |groups[g].Of(write).bios| + Sum(groups - {g}, write)
  }

  lemma {:induction false} SumSplit<D>(groups: Groups<D>, x: Gid, write: bool)
    requires x in groups
    ensures Sum(groups, write) == |groups[x].Of(write).bios| + Sum(groups - {x}, write)
    decreases |groups|
  {
    var g :| g in groups && Sum(groups, write) == |groups[g].Of(write).bios| + Sum(groups - {g}, write);
    if g != x {
      SumSplit(groups - {g}, x, write);
      SumSplit(groups - {x}, g, write);
      assert groups - {g} - {x} == groups - {x} - {g};
    }
  }

  lemma SumUpdate<D>(groups: Groups<D>, x: Gid, g: Group<D>, write: bool)
    requires x in groups
    ensures Sum(groups[x := g], write) == Sum(groups, write) - |groups[x].Of(write).bios| + |g.Of(write).bios|
  {
    SumSplit(groups, x, write);
    SumSplit(groups[x := g], x, write);
    assert groups[x := g] - {x} == groups - {x};
  }

  lemma SumAdd<D>(groups: Groups<D>, x: Gid, g: Group<D>, write: bool)
    requires x !in groups
    ensures Sum(groups[x := g], write) == Sum(groups, write) + |g.Of(write).bios|
  {
    SumSplit(groups[x := g], x, write);
    assert groups[x := g] - {x} == groups;
  }

  // ---------------------------------------------------------------------------
  // The service tree
  // ---------------------------------------------------------------------------

  /** The tree holds each of its groups once, and exactly the groups that are flagged as on it. */
  ghost predicate TreeHolds<D>(groups: Groups<D>, tree: seq<Gid>) {
    && (forall g :: g in tree ==> g in groups && groups[g].onTree)
    && (forall g :: g in groups && groups[g].onTree ==> g in tree)
    && NoDup(tree)
  }

  ghost predicate InOrder<D>(groups: Groups<D>, tree: seq<Gid>)
    requires forall g :: g in tree ==> g in groups
  {
    forall i, j :: 0 <= i < j < |tree| ==> groups[tree[i]].disptime <= groups[tree[j]].disptime
  }

  /** How many groups on the tree are due. */
  ghost function Due<D>(groups: Groups<D>, tree: seq<Gid>, now: int): nat
    requires forall g :: g in tree ==> g in groups
  {
    if tree == [] then 0
    else (if groups[tree[0]].disptime <= now then 1 else 0) + Due(groups, tree[1..], now)
  }

  lemma {:induction false} DueSame<D>(groups: Groups<D>, groups': Groups<D>, tree: seq<Gid>, now: int)
    requires forall g :: g in tree ==> g in groups && g in groups' && groups[g].disptime == groups'[g].disptime
    ensures Due(groups, tree, now) == Due(groups', tree, now)
  {
    if tree != [] {
      DueSame(groups, groups', tree[1..], now);
    }
  }

  lemma {:induction false} DueInsert<D>(groups: Groups<D>, tree: seq<Gid>, k: nat, x: Gid, now: int)
    requires k <= |tree| && x in groups && forall g :: g in tree ==> g in groups
    ensures Due(groups, InsertAt(tree, k, x), now) ==
            Due(groups, tree, now) + if groups[x].disptime <= now then 1 else 0
  {
    var t := InsertAt(tree, k, x);
    if k == 0 {
      assert t[1..] == tree;
    } else {
      DueInsert(groups, tree[1..], k - 1, x, now);
      assert t[1..] == InsertAt(tree[1..], k - 1, x);
    }
  }

  lemma InsertHolds<D>(groups: Groups<D>, tree: seq<Gid>, k: nat, x: Gid)
    requires TreeHolds(groups, tree) && x in groups && !groups[x].onTree && k <= |tree|
    ensures TreeHolds(groups[x := groups[x].(onTree := true)], InsertAt(tree, k, x))
  {
    InsertMembers(tree, k, x);
  }

  lemma InsertOrder<D>(groups: Groups<D>, tree: seq<Gid>, k: nat, x: Gid)
    requires TreeHolds(groups, tree) && InOrder(groups, tree) && x in groups && k <= |tree|
    requires forall i :: 0 <= i < k ==> groups[tree[i]].disptime <= groups[x].disptime
    requires forall i :: k <= i < |tree| ==> groups[x].disptime <= groups[tree[i]].disptime
    ensures forall g :: g in InsertAt(tree, k, x) ==> g in groups
    ensures InOrder(groups[x := groups[x].(onTree := true)], InsertAt(tree, k, x))
  {
    var t := InsertAt(tree, k, x);
    forall i, j | 0 <= i < j < |t| ensures groups[t[i]].disptime <= groups[t[j]].disptime {
    }
  }

  lemma RemoveHolds<D>(groups: Groups<D>, tree: seq<Gid>, k: nat)
    requires TreeHolds(groups, tree) && InOrder(groups, tree) && k < |tree|
    ensures var groups' := groups[tree[k] := groups[tree[k]].(onTree := false)];
            TreeHolds(groups', Without(tree, k)) && InOrder(groups', Without(tree, k))
  {
    var t, x := Without(tree, k), tree[k];
    forall i | 0 <= i < |t| ensures t[i] == tree[if i < k then i else i + 1] {
    }
    forall g | g in tree && g != x ensures g in t {
      var i :| 0 <= i < |tree| && tree[i] == g;
      assert t[if i < k then i else i - 1] == g;
    }
    var groups' := groups[x := groups[x].(onTree := false)];
    assert TreeHolds(groups', t);
  }

  // ---------------------------------------------------------------------------
  // What holds of a group between operations
  // ---------------------------------------------------------------------------

  /** Counters equal list lengths; one reference for being on the list of groups and one per bio. */
  ghost predicate Counted<D>(g: Group<D>) {
    && g.read.nrQueued == |g.read.bios| && g.write.nrQueued == |g.write.bios|
    && g.ref == g.Waiting() + if g.listed then 1 else 0
  }

  /** A group is on the service tree exactly while bios wait in it. */
  ghost predicate Settled<D>(g: Group<D>) {
    Counted(g) && (g.onTree <==> g.Waiting() > 0)
  }

  // ---------------------------------------------------------------------------
  // The state of a queue's throttle data, and its steps
  // ---------------------------------------------------------------------------

  datatype Data<D> = Data(groups: Groups<D>, tree: seq<Gid>, left: Option<Gid>, count: int, nrRead: int, nrWrite: int)

  ghost predicate TreeValid<D>(s: Data<D>) {
    && TreeHolds(s.groups, s.tree) && InOrder(s.groups, s.tree)
    && s.count == |s.tree|
    && (s.left.Some? ==> s.tree != [] && s.left.value == s.tree[0])
  }

  ghost predicate Totals<D>(s: Data<D>) {
    s.nrRead == Sum(s.groups, false) && s.nrWrite == Sum(s.groups, true)
  }

  /** Everything in order, except that group `x` may be between queues. */
  ghost predicate ValidBut<D>(s: Data<D>, x: Gid) {
    && x in s.groups && Counted(s.groups[x])
    && (forall g :: g in s.groups && g != x ==> Settled(s.groups[g]))
    && TreeValid(s) && Totals(s)
  }

  ghost predicate Valid<D>(s: Data<D>) {
    && (forall g :: g in s.groups ==> Settled(s.groups[g]))
    && TreeValid(s) && Totals(s)
  }

  /** Replace a group; so many more reads and writes wait than before. */
  function Put<D>(s: Data<D>, x: Gid, g: Group<D>, moreReads: int, moreWrites: int): Data<D> {
    s.(groups := s.groups[x := g], nrRead := s.nrRead + moreReads, nrWrite := s.nrWrite + moreWrites)
  }

  lemma PutTree<D>(s: Data<D>, x: Gid, g: Group<D>, moreReads: int, moreWrites: int)
    requires TreeValid(s) && x in s.groups && g.onTree == s.groups[x].onTree
    requires g.onTree ==> g.disptime == s.groups[x].disptime
    ensures TreeValid(Put(s, x, g, moreReads, moreWrites))
  {
  }

  lemma PutTotals<D>(s: Data<D>, x: Gid, g: Group<D>)
    requires Totals(s) && x in s.groups
    ensures Totals(Put(s, x, g, |g.read.bios| - |s.groups[x].read.bios|, |g.write.bios| - |s.groups[x].write.bios|))
  {
    SumUpdate(s.groups, x, g, false);
    SumUpdate(s.groups, x, g, true);
  }

  /** Replacing a group by one that is counted right keeps the rest right. */
  lemma PutKeeps<D>(s: Data<D>, x: Gid, g: Group<D>, moreReads: int, moreWrites: int)
    requires ValidBut(s, x) && Counted(g) && g.onTree == s.groups[x].onTree
    requires g.onTree ==> g.disptime == s.groups[x].disptime
    requires moreReads == |g.read.bios| - |s.groups[x].read.bios| &&
             moreWrites == |g.write.bios| - |s.groups[x].write.bios|
    ensures ValidBut(Put(s, x, g, moreReads, moreWrites), x)
  {
    PutTree(s, x, g, moreReads, moreWrites);
    PutTotals(s, x, g);
  }

  /** The keys of the service tree. */
  function Times<D>(groups: Groups<D>): map<Gid, int> {
    map g | g in groups :: groups[g].disptime
  }

  /** __throtl_enqueue_tg with tg_service_tree_add */
  function Enqueued<D>(s: Data<D>, x: Gid): Data<D>
    requires x in s.groups && forall g :: g in s.tree ==> g in s.groups
  {
    var k := Slot(Times(s.groups), s.tree, s.groups[x].disptime);
    s.(groups := s.groups[x := s.groups[x].(onTree := true)],
       tree := InsertAt(s.tree, k, x),
       left := if k == 0 then Some(x) else s.left,
       count := s.count + 1)
  }

  lemma EnqueuedTree<D>(s: Data<D>, x: Gid)
    requires TreeValid(s) && x in s.groups && !s.groups[x].onTree
    ensures TreeValid(Enqueued(s, x))
  {
    var k := Slot(Times(s.groups), s.tree, s.groups[x].disptime);
    InsertHolds(s.groups, s.tree, k, x);
    InsertOrder(s.groups, s.tree, k, x);
  }

  lemma EnqueuedTotals<D>(s: Data<D>, x: Gid)
    requires TreeValid(s) && x in s.groups && Totals(s)
    ensures Totals(Enqueued(s, x))
  {
    SumUpdate(s.groups, x, s.groups[x].(onTree := true), false);
    SumUpdate(s.groups, x, s.groups[x].(onTree := true), true);
  }

  /** A group that bios wait in is settled by putting it on the tree. */
  lemma EnqueuedValid<D>(s: Data<D>, x: Gid)
    requires ValidBut(s, x) && !s.groups[x].onTree && s.groups[x].Waiting() > 0
    ensures Valid(Enqueued(s, x))
  {
    EnqueuedTree(s, x);
    EnqueuedTotals(s, x);
  }

  lemma EnqueuedDue<D>(s: Data<D>, x: Gid, now: int)
    requires TreeValid(s) && x in s.groups && !s.groups[x].onTree
    ensures TreeValid(Enqueued(s, x))
    ensures Due(Enqueued(s, x).groups, Enqueued(s, x).tree, now) ==
            Due(s.groups, s.tree, now) + if s.groups[x].disptime <= now then 1 else 0
  {
    EnqueuedTree(s, x);
    var t := Enqueued(s, x);
    DueSame(s.groups, t.groups, s.tree, now);
    DueInsert(t.groups, s.tree, Slot(Times(s.groups), s.tree, s.groups[x].disptime), x, now);
  }

  /** __throtl_dequeue_tg with throtl_rb_erase */
  function Dequeued<D>(s: Data<D>, x: Gid): Data<D>
    requires x in s.groups && x in s.tree
  {
    s.(groups := s.groups[x := s.groups[x].(onTree := false)],
       tree := Without(s.tree, IndexOf(s.tree, x)),
       left := if s.left == Some(x) then None else s.left,
       count := s.count - 1)
  }

  lemma DequeuedTree<D>(s: Data<D>, x: Gid)
    requires TreeValid(s) && x in s.groups && x in s.tree
    ensures TreeValid(Dequeued(s, x))
  {
    RemoveHolds(s.groups, s.tree, IndexOf(s.tree, x));
  }

  lemma DequeuedKeeps<D>(s: Data<D>, x: Gid)
    requires ValidBut(s, x) && x in s.tree
    ensures ValidBut(Dequeued(s, x), x)
  {
    DequeuedTree(s, x);
    SumUpdate(s.groups, x, s.groups[x].(onTree := false), false);
    SumUpdate(s.groups, x, s.groups[x].(onTree := false), true);
  }

  /** The bios a group gives up in a round, per direction. */
  function GivenUp<D>(rule: Rule<D>, g: Group<D>, write: bool, now: int): seq<Bio> {
    DispatchHalf(rule, g.Of(write), if write then MAX_WRITES else MAX_READS, now).1
  }

  lemma AfterGroupCounted<D>(rule: Rule<D>, g: Group<D>, now: int)
    requires Counted(g)
    ensures var g' := AfterGroup(rule, g, now);
            && Counted(g') && g'.onTree == g.onTree && g'.disptime == g.disptime && g'.listed == g.listed
            && GivenUp(rule, g, false, now) + g'.read.bios == g.read.bios
            && GivenUp(rule, g, true, now) + g'.write.bios == g.write.bios
            && |GivenUp(rule, g, false, now)| + |GivenUp(rule, g, true, now)| <= GRP_QUANTUM
  {
  }

  /** throtl_dispatch_tg on a group that is off the tree. */
  function GroupDispatched<D>(rule: Rule<D>, s: Data<D>, x: Gid, now: int): Data<D>
    requires x in s.groups
  {
    var g := s.groups[x];
    Put(s, x, AfterGroup(rule, g, now), -|GivenUp(rule, g, false, now)|, -|GivenUp(rule, g, true, now)|)
  }

  lemma GroupDispatchedKeeps<D>(rule: Rule<D>, s: Data<D>, x: Gid, now: int)
    requires ValidBut(s, x)
    ensures ValidBut(GroupDispatched(rule, s, x, now), x)
  {
    AfterGroupCounted(rule, s.groups[x], now);
    PutKeeps(s, x, AfterGroup(rule, s.groups[x], now),
             -|GivenUp(rule, s.groups[x], false, now)|, -|GivenUp(rule, s.groups[x], true, now)|);
  }

  /** The accounts of a group looked at, and its dispatch time set, while it is off the tree. */
  function Retimed<D>(rule: Rule<D>, s: Data<D>, x: Gid, now: int): Data<D>
    requires x in s.groups
  {
    Put(s, x, Reschedule(rule, s.groups[x], now), 0, 0)
  }

  lemma RetimedKeeps<D>(rule: Rule<D>, s: Data<D>, x: Gid, now: int)
    requires ValidBut(s, x) && !s.groups[x].onTree
    ensures ValidBut(Retimed(rule, s, x, now), x)
  {
    PutKeeps(s, x, Reschedule(rule, s.groups[x], now), 0, 0);
  }

  /** tg_update_disptime */
  function Rescheduled<D>(rule: Rule<D>, s: Data<D>, x: Gid, now: int): Data<D>
    requires x in s.groups && TreeValid(s)
  {
    var s1 := if s.groups[x].onTree then Dequeued(s, x) else s;
    assert TreeValid(s1) by { if s.groups[x].onTree { DequeuedTree(s, x); } }
    Enqueued(Retimed(rule, s1, x, now), x)
  }

  lemma RescheduledValid<D>(rule: Rule<D>, s: Data<D>, x: Gid, now: int)
    requires ValidBut(s, x) && s.groups[x].Waiting() > 0
    ensures Valid(Rescheduled(rule, s, x, now))
  {
    var s1 := if s.groups[x].onTree then Dequeued(s, x) else s;
    if s.groups[x].onTree {
      DequeuedKeeps(s, x);
    }
    RetimedKeeps(rule, s1, x, now);
    EnqueuedValid(Retimed(rule, s1, x, now), x);
  }

  /** One turn of the loop of throtl_select_dispatch, for the first group of the tree. */
  function Round<D>(rule: Rule<D>, s: Data<D>, now: int): Data<D>
    requires Valid(s) && s.tree != []
  {
    var x := s.tree[0];
    var s1 := Dequeued(s, x);
    DequeuedKeeps(s, x);
    var s2 := GroupDispatched(rule, s1, x, now);
    GroupDispatchedKeeps(rule, s1, x, now);
    if s2.groups[x].Waiting() > 0 then Rescheduled(rule, s2, x, now) else s2
  }

  lemma RoundValid<D>(rule: Rule<D>, s: Data<D>, now: int)
    requires Valid(s) && s.tree != []
    ensures Valid(Round(rule, s, now))
  {
    var x := s.tree[0];
    var s1 := Dequeued(s, x);
    DequeuedKeeps(s, x);
    var s2 := GroupDispatched(rule, s1, x, now);
    GroupDispatchedKeeps(rule, s1, x, now);
    AfterGroupCounted(rule, s1.groups[x], now);
    if s2.groups[x].Waiting() > 0 {
      RescheduledValid(rule, s2, x, now);
    }
  }

  // ---------------------------------------------------------------------------
  // The dispatch rounds end
  // ---------------------------------------------------------------------------

  ghost function DueNow<D>(s: Data<D>, now: int): nat
    requires TreeValid(s)
  {
    Due(s.groups, s.tree, now)
  }

  lemma TailDue<D>(groups: Groups<D>, tree: seq<Gid>, now: int)
    requires (forall g :: g in tree ==> g in groups) && tree != [] && groups[tree[0]].disptime <= now
    ensures var groups' := groups[tree[0] := groups[tree[0]].(onTree := false)];
            Due(groups', tree[1..], now) == Due(groups, tree, now) - 1
  {
    DueSame(groups, groups[tree[0] := groups[tree[0]].(onTree := false)], tree[1..], now);
  }

  lemma DequeuedFirst<D>(s: Data<D>)
    requires s.tree != [] && s.tree[0] in s.groups
    ensures Dequeued(s, s.tree[0]).tree == s.tree[1..]
  {
  }

  lemma DequeuedDue<D>(s: Data<D>, now: int)
    requires TreeValid(s) && s.tree != [] && s.groups[s.tree[0]].disptime <= now
    ensures TreeValid(Dequeued(s, s.tree[0])) && DueNow(Dequeued(s, s.tree[0]), now) == DueNow(s, now) - 1
  {
    DequeuedTree(s, s.tree[0]);
    DequeuedFirst(s);
    TailDue(s.groups, s.tree, now);
  }

  lemma PutDue<D>(s: Data<D>, x: Gid, g: Group<D>, moreReads: int, moreWrites: int, now: int)
    requires TreeValid(s) && x in s.groups && !s.groups[x].onTree && !g.onTree
    ensures TreeValid(Put(s, x, g, moreReads, moreWrites)) &&
            DueNow(Put(s, x, g, moreReads, moreWrites), now) == DueNow(s, now)
  {
    PutTree(s, x, g, moreReads, moreWrites);
    DueSame(s.groups, s.groups[x := g], s.tree, now);
  }

  /** A group that gave up nothing leaves one group less due. */
  lemma StuckRoundDue<D(!new)>(rule: Rule<D>, s: Data<D>, now: int)
    requires Sound(rule) && Valid(s) && s.tree != [] && s.groups[s.tree[0]].disptime <= now
    requires AfterGroup(rule, s.groups[s.tree[0]], now).Waiting() == s.groups[s.tree[0]].Waiting()
    ensures TreeValid(Round(rule, s, now)) && DueNow(Round(rule, s, now), now) < DueNow(s, now)
  {
    var x := s.tree[0];
    var s1 := Dequeued(s, x);
    DequeuedKeeps(s, x);
    DequeuedDue(s, now);
    var g := s.groups[x].(onTree := false);
    assert AfterGroup(rule, g, now) == AfterGroup(rule, s.groups[x], now).(onTree := false);
    var s2 := GroupDispatched(rule, s1, x, now);
    PutDue(s1, x, AfterGroup(rule, g, now), -|GivenUp(rule, g, false, now)|, -|GivenUp(rule, g, true, now)|, now);
    StuckGroup(rule, g, now);
    PutDue(s2, x, Reschedule(rule, s2.groups[x], now), 0, 0, now);
    EnqueuedDue(Retimed(rule, s2, x, now), x, now);
  }

  /** Each round gives up a bio, or leaves fewer groups due; this is why the loop ends. */
  lemma RoundProgress<D(!new)>(rule: Rule<D>, s: Data<D>, now: int)
    requires Sound(rule) && Valid(s) && s.tree != [] && s.groups[s.tree[0]].disptime <= now
    ensures var r := Round(rule, s, now);
            && Valid(r)
            && 0 <= r.nrRead + r.nrWrite == s.nrRead + s.nrWrite - |RoundOut(rule, s, now)|
            && |RoundOut(rule, s, now)| <= GRP_QUANTUM
            && (|RoundOut(rule, s, now)| > 0 || DueNow(r, now) < DueNow(s, now))
  {
    RoundValid(rule, s, now);
    AfterGroupCounted(rule, s.groups[s.tree[0]], now);
    if |RoundOut(rule, s, now)| == 0 {
      StuckRoundDue(rule, s, now);
    }
  }

  function Tagged(x: Gid, write: bool, bios: seq<Bio>): (r: seq<Released>)
    ensures |r| == |bios|
  {
    seq(|bios|, i requires 0 <= i < |bios| => Released(x, write, bios[i]))
  }

  /** The bios given up in a round, reads first. */
  function RoundOut<D>(rule: Rule<D>, s: Data<D>, now: int): seq<Released>
    requires TreeValid(s) && s.tree != []
  {
    var g := s.groups[s.tree[0]];
    Tagged(s.tree[0], false, GivenUp(rule, g, false, now)) + Tagged(s.tree[0], true, GivenUp(rule, g, true, now))
  }

  /** The bios among those released that waited in one direction of one group, in order. */
  function From(released: seq<Released>, x: Gid, write: bool): seq<Bio> {
    if released == [] then []
    else
      (if released[0].gid == x && released[0].write == write then [released[0].bio] else []) +
      From(released[1..], x, write)
  }

  lemma {:induction false} FromAppend(a: seq<Released>, b: seq<Released>, x: Gid, write: bool)
    ensures From(a + b, x, write) == From(a, x, write) + From(b, x, write)
  {
    if a == [] {
      assert a + b == b;
    } else {
      assert (a + b)[1..] == a[1..] + b;
      FromAppend(a[1..], b, x, write);
    }
  }

  lemma {:induction false} FromTagged(y: Gid, w: bool, bios: seq<Bio>, x: Gid, write: bool)
    ensures From(Tagged(y, w, bios), x, write) == if x == y && w == write then bios else []
  {
    if bios != [] {
      assert Tagged(y, w, bios)[1..] == Tagged(y, w, bios[1..]);
      FromTagged(y, w, bios[1..], x, write);
      assert bios == [bios[0]] + bios[1..];
    }
  }

  /** tg_update_disptime looks at the first bios of its group, and at nothing else. */
  lemma RescheduledHalves<D>(rule: Rule<D>, s: Data<D>, y: Gid, now: int, x: Gid, write: bool)
    requires TreeValid(s) && y in s.groups && x in s.groups
    ensures x in Rescheduled(rule, s, y, now).groups
    ensures Rescheduled(rule, s, y, now).groups[x].Of(write) ==
            if x == y then Probe(rule, s.groups[x].Of(write), now).0 else s.groups[x].Of(write)
  {
  }

  /** Whether a group is on the tree makes no difference to what it gives up. */
  lemma OffTree<D>(rule: Rule<D>, g: Group<D>, now: int)
    ensures AfterGroup(rule, g.(onTree := false), now) == AfterGroup(rule, g, now).(onTree := false)
  {
  }

  /** What the dispatch of group `y`, taken off the tree, leaves of the directions. */
  lemma DispatchedHalves<D>(rule: Rule<D>, s: Data<D>, y: Gid, now: int, x: Gid, write: bool)
    requires y in s.groups && y in s.tree && x in s.groups
    ensures var s2 := GroupDispatched(rule, Dequeued(s, y), y, now);
            x in s2.groups && s2.groups[x].Of(write) ==
            if x == y then AfterGroup(rule, s.groups[x], now).Of(write) else s.groups[x].Of(write)
  {
    OffTree(rule, s.groups[y], now);
  }

  /** A direction of the group a round is for: dispatched from, and looked at again if bios are left in the group. */
  function AfterRound<D>(rule: Rule<D>, g: Group<D>, write: bool, now: int): Half<D> {
    var g1 := AfterGroup(rule, g, now);
    if g1.Waiting() > 0 then Probe(rule, g1.Of(write), now).0 else g1.Of(write)
  }

  /** What a round leaves of the directions. */
  lemma RoundHalves<D>(rule: Rule<D>, s: Data<D>, now: int, x: Gid, write: bool)
    requires Valid(s) && s.tree != [] && x in s.groups
    ensures x in Round(rule, s, now).groups
    ensures Round(rule, s, now).groups[x].Of(write) ==
            if x == s.tree[0] then AfterRound(rule, s.groups[x], write, now) else s.groups[x].Of(write)
  {
    var y := s.tree[0];
    var s2 := GroupDispatched(rule, Dequeued(s, y), y, now);
    assert TreeValid(s2) by {
      DequeuedKeeps(s, y);
      GroupDispatchedKeeps(rule, Dequeued(s, y), y, now);
    }
    OffTree(rule, s.groups[y], now);
    DispatchedHalves(rule, s, y, now, x, write);
    RescheduledHalves(rule, s2, y, now, x, write);
  }

  lemma OutFrom<D>(rule: Rule<D>, s: Data<D>, now: int, x: Gid, write: bool)
    requires TreeValid(s) && s.tree != []
    ensures From(RoundOut(rule, s, now), x, write) ==
            if x == s.tree[0] then GivenUp(rule, s.groups[x], write, now) else []
  {
    var y := s.tree[0];
    var g := s.groups[y];
    FromAppend(Tagged(y, false, GivenUp(rule, g, false, now)), Tagged(y, true, GivenUp(rule, g, true, now)), x, write);
    FromTagged(y, false, GivenUp(rule, g, false, now), x, write);
    FromTagged(y, true, GivenUp(rule, g, true, now), x, write);
  }

  /** A round takes bios off the front of the queues of its group, and off no other queue. */
  lemma RoundConserves<D>(rule: Rule<D>, s: Data<D>, now: int, x: Gid, write: bool)
    requires Valid(s) && s.tree != [] && x in s.groups
    ensures x in Round(rule, s, now).groups
    ensures From(RoundOut(rule, s, now), x, write) + Round(rule, s, now).groups[x].Of(write).bios ==
            s.groups[x].Of(write).bios
  {
    RoundHalves(rule, s, now, x, write);
    OutFrom(rule, s, now, x, write);
    AfterGroupCounted(rule, s.groups[s.tree[0]], now);
  }

  /** `out` was taken off the fronts of the queues of `s`, leaving those of `r`. */
  ghost predicate Conserves<D>(s: Data<D>, r: Data<D>, out: seq<Released>) {
    && r.groups.Keys == s.groups.Keys
    && forall x, write :: x in s.groups ==>
         From(out, x, write) + r.groups[x].Of(write).bios == s.groups[x].Of(write).bios
  }

  lemma ConservesTwice<D>(s: Data<D>, r: Data<D>, t: Data<D>, out: seq<Released>, more: seq<Released>)
    requires Conserves(s, r, out) && Conserves(r, t, more)
    ensures Conserves(s, t, out + more)
  {
    forall x, write | x in s.groups
      ensures From(out + more, x, write) + t.groups[x].Of(write).bios == s.groups[x].Of(write).bios
    {
      FromAppend(out, more, x, write);
      assert x in r.groups;
    }
  }

  lemma RoundKeys<D>(rule: Rule<D>, s: Data<D>, now: int)
    requires Valid(s) && s.tree != []
    ensures Round(rule, s, now).groups.Keys == s.groups.Keys
  {
  }

  lemma RoundConservesAll<D>(rule: Rule<D>, s: Data<D>, now: int)
    requires Valid(s) && s.tree != []
    ensures Conserves(s, Round(rule, s, now), RoundOut(rule, s, now))
  {
    RoundKeys(rule, s, now);
    forall x, write | x in s.groups
      ensures From(RoundOut(rule, s, now), x, write) + Round(rule, s, now).groups[x].Of(write).bios ==
              s.groups[x].Of(write).bios
    {
      RoundConserves(rule, s, now, x, write);
    }
  }
}
