/**
 The throttle data of a request queue as the source runs it: fields updated in place, loops over
 the service tree and over the queues of a group (block/blk-throttle.c).
 */
module ThrottleQueue {
  import opened Lists
  import opened Options
  import opened ThrottleGroups
  import opened ThrottleDispatch
  import opened ThrottleLedger
  import opened Throttle

  /** One of the two dispatch loops, on a group, with the totals. */
  function HalfDispatched<D>(rule: Rule<D>, s: Data<D>, x: Gid, write: bool, max: int, now: int): Data<D>
    requires x in s.groups
  {
    var n := |DispatchHalf(rule, s.groups[x].Of(write), max, now).1|;
    Put(s, x, AfterHalf(rule, s.groups[x], write, max, now), if write then 0 else -n, if write then -n else 0)
  }

  /** The data after `n` bios have been let go from a direction that is now `h`. */
  function LetGo<D>(s: Data<D>, x: Gid, write: bool, h: Half<D>, n: int): Data<D>
    requires x in s.groups
  {
    Put(s, x, s.groups[x].With(write, h).(ref := s.groups[x].ref - n), if write then 0 else -n, if write then -n else 0)
  }

  lemma LetGoTwice<D>(s: Data<D>, x: Gid, write: bool, h: Half<D>, n: int, h': Half<D>, m: int)
    requires x in s.groups
    ensures LetGo(LetGo(s, x, write, h, n), x, write, h', m) == LetGo(s, x, write, h', n + m)
  {
    var g := s.groups[x].With(write, h).(ref := s.groups[x].ref - n);
    assert s.groups[x := g][x := g.With(write, h').(ref := g.ref - m)] ==
           s.groups[x := g.With(write, h').(ref := g.ref - m)];
  }

  /** A dispatch loop under way: `out` has been let go, and what is still to come completes the whole. */
  ghost predicate Progress<D>(rule: Rule<D>, s0: Data<D>, x: Gid, write: bool, max: int, now: int,
                              out: seq<Bio>, s: Data<D>, more: bool)
  {
    && x in s0.groups && x in s.groups
    && s == LetGo(s0, x, write, s.groups[x].Of(write), |out|)
    && out + s.groups[x].Of(write).bios == s0.groups[x].Of(write).bios
    && var h := s.groups[x].Of(write);
       var rest := if more then DispatchHalf(rule, h, max - |out|, now) else (h, []);
       DispatchHalf(rule, s0.groups[x].Of(write), max, now) == (rest.0, out + rest.1)
  }

  /** The checks of tg_dispatch_one_bio pass. */
  lemma TurnReady<D>(rule: Rule<D>, s0: Data<D>, x: Gid, write: bool, max: int, now: int, out: seq<Bio>, s: Data<D>)
    requires Progress(rule, s0, x, write, max, now, out, s, true) && Counted(s0.groups[x]) && Totals(s0)
    requires s.groups[x].Of(write).bios != []
    ensures s.groups[x].ref > 0 && (if write then s.nrWrite else s.nrRead) > 0
  {
    SumSplit(s0.groups, x, write);
  }

  /** The first bio is let go, and then what the loop lets go after it. */
  lemma HalfUnfolds<D>(rule: Rule<D>, h: Half<D>, max: int, now: int)
    requires max > 0 && h.bios != [] && Look(rule, h, now).may
    ensures var h1 := PopFirst(rule, h.(account := Look(rule, h, now).account), now);
            var rest := DispatchHalf(rule, h1, max - 1, now);
            DispatchHalf(rule, h, max, now) == (rest.0, [h.bios[0]] + rest.1) && h1.bios == h.bios[1..]
  {
  }

  lemma Regroup(out: seq<Bio>, first: Bio, rest: seq<Bio>)
    ensures out + ([first] + rest) == out + [first] + rest
  {
  }

  /** After `out`, a loop that may let go of `left` more bios completes what the whole loop does. */
  ghost predicate Completes<D>(rule: Rule<D>, all: Half<D>, max: int, now: int, out: seq<Bio>, h: Half<D>, left: int) {
    var rest := DispatchHalf(rule, h, left, now);
    DispatchHalf(rule, all, max, now) == (rest.0, out + rest.1)
  }

  lemma TurnHalf<D>(rule: Rule<D>, all: Half<D>, h: Half<D>, h1: Half<D>, out: seq<Bio>, max: int, left: int, now: int)
    requires left > 0 && h.bios != [] && Look(rule, h, now).may && Completes(rule, all, max, now, out, h, left)
    requires h1 == PopFirst(rule, h.(account := Look(rule, h, now).account), now)
    ensures Completes(rule, all, max, now, out + [h.bios[0]], h1, left - 1) && h1.bios == h.bios[1..]
  {
    HalfUnfolds(rule, h, left, now);
    Regroup(out, h.bios[0], DispatchHalf(rule, h1, left - 1, now).1);
  }

  /** What has to be shown of a loop under way, with `h` the direction as it is now. */
  lemma UnderWay<D>(rule: Rule<D>, s0: Data<D>, x: Gid, write: bool, max: int, now: int, out: seq<Bio>, h: Half<D>)
    requires x in s0.groups && out + h.bios == s0.groups[x].Of(write).bios
    requires Completes(rule, s0.groups[x].Of(write), max, now, out, h, max - |out|)
    ensures Progress(rule, s0, x, write, max, now, out, LetGo(s0, x, write, h, |out|), true)
  {
  }

  lemma NothingLetGo<D>(s0: Data<D>, x: Gid, write: bool)
    requires x in s0.groups
    ensures LetGo(s0, x, write, s0.groups[x].Of(write), 0) == s0
  {
    assert s0.groups[x := s0.groups[x]] == s0.groups;
  }

  lemma LoopBegins<D>(rule: Rule<D>, s0: Data<D>, x: Gid, write: bool, max: int, now: int)
    requires x in s0.groups
    ensures Progress(rule, s0, x, write, max, now, [], s0, true)
  {
    var h := s0.groups[x].Of(write);
    assert [] + h.bios == h.bios && [] + DispatchHalf(rule, h, max, now).1 == DispatchHalf(rule, h, max, now).1;
    UnderWay(rule, s0, x, write, max, now, [], h);
    NothingLetGo(s0, x, write);
  }

  lemma OutOfQuota<D>(rule: Rule<D>, s0: Data<D>, x: Gid, write: bool, max: int, now: int, out: seq<Bio>, s: Data<D>)
    requires Progress(rule, s0, x, write, max, now, out, s, true) && |out| >= max
    ensures Progress(rule, s0, x, write, max, now, out, s, false)
  {
  }

  lemma TakeFirst(out: seq<Bio>, l: seq<Bio>)
    requires l != []
    ensures out + [l[0]] + l[1..] == out + l && |out + [l[0]]| == |out| + 1
  {
  }

  lemma TurnPassedMore<D>(rule: Rule<D>, s0: Data<D>, x: Gid, write: bool, max: int, now: int, out: seq<Bio>,
                          h: Half<D>, h1: Half<D>)
    requires x in s0.groups && out + h.bios == s0.groups[x].Of(write).bios && |out| < max
    requires Completes(rule, s0.groups[x].Of(write), max, now, out, h, max - |out|)
    requires h.bios != [] && Look(rule, h, now).may
    requires h1 == PopFirst(rule, h.(account := Look(rule, h, now).account), now)
    ensures Progress(rule, s0, x, write, max, now, out + [h.bios[0]], LetGo(s0, x, write, h1, |out| + 1), true)
  {
    TurnHalf(rule, s0.groups[x].Of(write), h, h1, out, max, max - |out|, now);
    TakeFirst(out, h.bios);
    UnderWay(rule, s0, x, write, max, now, out + [h.bios[0]], h1);
  }

  lemma TurnPassed<D>(rule: Rule<D>, s0: Data<D>, x: Gid, write: bool, max: int, now: int, out: seq<Bio>, s: Data<D>)
    requires Progress(rule, s0, x, write, max, now, out, s, true) && |out| < max
    requires s.groups[x].Of(write).bios != [] && Look(rule, s.groups[x].Of(write), now).may
    ensures var h := s.groups[x].Of(write);
            var h1 := PopFirst(rule, h.(account := Look(rule, h, now).account), now);
            Progress(rule, s0, x, write, max, now, out + [h.bios[0]], LetGo(s, x, write, h1, 1), |out| + 1 < max)
  {
    var h := s.groups[x].Of(write);
    var h1 := PopFirst(rule, h.(account := Look(rule, h, now).account), now);
    var s1 := LetGo(s, x, write, h1, 1);
    assert Progress(rule, s0, x, write, max, now, out + [h.bios[0]], s1, true) by {
      TurnPassedMore(rule, s0, x, write, max, now, out, h, h1);
      LetGoTwice(s0, x, write, h, |out|, h1, 1);
    }
    if |out| + 1 >= max {
      OutOfQuota(rule, s0, x, write, max, now, out + [h.bios[0]], s1);
    }
  }

  lemma TurnRefused<D>(rule: Rule<D>, s0: Data<D>, x: Gid, write: bool, max: int, now: int, out: seq<Bio>, s: Data<D>)
    requires Progress(rule, s0, x, write, max, now, out, s, true) && |out| < max
    requires s.groups[x].Of(write).bios != [] && !Look(rule, s.groups[x].Of(write), now).may
    ensures var h := s.groups[x].Of(write);
            var h1 := h.(account := Look(rule, h, now).account);
            Progress(rule, s0, x, write, max, now, out, LetGo(s, x, write, h1, 0), false)
  {
    var h := s.groups[x].Of(write);
    LetGoTwice(s0, x, write, h, |out|, h.(account := Look(rule, h, now).account), 0);
  }

  lemma LoopEnds<D>(rule: Rule<D>, s0: Data<D>, x: Gid, write: bool, max: int, now: int, out: seq<Bio>, s: Data<D>,
                    more: bool)
    requires Progress(rule, s0, x, write, max, now, out, s, more)
    requires more ==> s.groups[x].Of(write).bios == []
    ensures out == DispatchHalf(rule, s0.groups[x].Of(write), max, now).1
    ensures s == HalfDispatched(rule, s0, x, write, max, now)
  {
    assert out + [] == out;
  }

  lemma HalfDispatchedKeeps<D>(rule: Rule<D>, s: Data<D>, x: Gid, write: bool, max: int, now: int)
    requires x in s.groups && Counted(s.groups[x]) && Totals(s)
    ensures var t := HalfDispatched(rule, s, x, write, max, now); Counted(t.groups[x]) && Totals(t)
  {
    PutTotals(s, x, AfterHalf(rule, s.groups[x], write, max, now));
  }

  lemma BothDispatched<D>(rule: Rule<D>, s: Data<D>, x: Gid, now: int)
    requires x in s.groups
    ensures var t := HalfDispatched(rule, s, x, false, MAX_READS, now);
            && HalfDispatched(rule, t, x, true, MAX_WRITES, now) == GroupDispatched(rule, s, x, now)
            && t.groups[x].Of(true) == s.groups[x].Of(true)
  {
    var t := HalfDispatched(rule, s, x, false, MAX_READS, now);
    assert t.groups[x := AfterGroup(rule, s.groups[x], now)] == s.groups[x := AfterGroup(rule, s.groups[x], now)];
  }

  /** The look at one direction that tg_update_disptime takes. */
  function Probed<D>(rule: Rule<D>, g: Group<D>, write: bool, now: int): Group<D> {
    g.With(write, Probe(rule, g.Of(write), now).0)
  }

  /** A group may be changed before or after it is taken off the tree. */
  lemma PutDequeued<D>(s: Data<D>, x: Gid, g: Group<D>)
    requires x in s.groups && x in s.tree
    ensures Dequeued(Put(s, x, g, 0, 0), x) == Put(Dequeued(s, x), x, g.(onTree := false), 0, 0)
  {
    var off := g.(onTree := false);
    assert s.groups[x := g][x := off] == s.groups[x := s.groups[x].(onTree := false)][x := off];
  }

  lemma PutTwice<D>(s: Data<D>, x: Gid, g: Group<D>, g': Group<D>)
    ensures Put(Put(s, x, g, 0, 0), x, g', 0, 0) == Put(s, x, g', 0, 0)
  {
    assert s.groups[x := g][x := g'] == s.groups[x := g'];
  }

  /** Both looks of tg_update_disptime, and the wait it takes from them. */
  function Looked<D>(rule: Rule<D>, g: Group<D>, now: int): Group<D> {
    Probed(rule, Probed(rule, g, false, now), true, now)
  }

  function WaitOf<D>(rule: Rule<D>, g: Group<D>, now: int): int {
    Min(Probe(rule, g.read, now).1, Probe(rule, g.write, now).1)
  }

  lemma LookedIsRescheduled<D>(rule: Rule<D>, g: Group<D>, now: int)
    ensures Looked(rule, g, now).(disptime := now + WaitOf(rule, g, now)) == Reschedule(rule, g, now)
    ensures Reschedule(rule, g.(onTree := false), now) == Reschedule(rule, g, now).(onTree := false)
    ensures Looked(rule, g, now).onTree == g.onTree
  {
  }

  /** Both looks, off the tree, new dispatch time: what tg_update_disptime does before it enqueues the group. */
  lemma RetimedInSteps<D>(rule: Rule<D>, s: Data<D>, x: Gid, now: int)
    requires TreeValid(s) && x in s.groups
    ensures var g := Looked(rule, s.groups[x], now);
            var p := Put(s, x, g, 0, 0);
            var q := if g.onTree then Dequeued(p, x) else p;
            && x in q.groups
            && Put(q, x, q.groups[x].(disptime := now + WaitOf(rule, s.groups[x], now)), 0, 0) ==
               Retimed(rule, if s.groups[x].onTree then Dequeued(s, x) else s, x, now)
  {
    var g, at := Looked(rule, s.groups[x], now), now + WaitOf(rule, s.groups[x], now);
    LookedIsRescheduled(rule, s.groups[x], now);
    if g.onTree {
      PutDequeued(s, x, g);
      PutTwice(Dequeued(s, x), x, g.(onTree := false), g.(onTree := false, disptime := at));
    } else {
      PutTwice(s, x, g, g.(disptime := at));
    }
  }

  /** The tree is in order while tg_update_disptime works on it. */
  lemma RetimedTree<D>(rule: Rule<D>, s: Data<D>, x: Gid, now: int)
    requires TreeValid(s) && x in s.groups
    ensures TreeValid(Retimed(rule, if s.groups[x].onTree then Dequeued(s, x) else s, x, now))
    ensures TreeValid(Put(s, x, Probed(rule, s.groups[x], false, now), 0, 0))
    ensures TreeValid(Put(s, x, Probed(rule, Probed(rule, s.groups[x], false, now), true, now), 0, 0))
  {
    var s1 := if s.groups[x].onTree then Dequeued(s, x) else s;
    if s.groups[x].onTree {
      DequeuedTree(s, x);
    }
    PutTree(s1, x, Reschedule(rule, s1.groups[x], now), 0, 0);
    PutTree(s, x, Probed(rule, s.groups[x], false, now), 0, 0);
    PutTree(s, x, Probed(rule, Probed(rule, s.groups[x], false, now), true, now), 0, 0);
  }

  /** When the first group of the tree is not due, none is. */
  lemma NoneDue<D>(s: Data<D>, now: int)
    requires TreeValid(s) && (s.tree == [] || now < s.groups[s.tree[0]].disptime)
    ensures forall g :: g in s.tree ==> s.groups[g].disptime > now
  {
    forall g | g in s.tree ensures s.groups[g].disptime > now {
      assert s.groups[s.tree[0]].disptime <= s.groups[g].disptime;
    }
  }

  lemma ConservesNothing<D>(s: Data<D>, left: Option<Gid>)
    ensures Conserves(s, s.(left := left), [])
  {
    forall x, write | x in s.groups
      ensures From([], x, write) + s.groups[x].Of(write).bios == s.groups[x].Of(write).bios
    {
    }
  }

  /** A group with one more bio at the tail of a queue, and one more reference. */
  function Joined<D>(g: Group<D>, write: bool, bio: Bio): Group<D> {
    var h := g.Of(write);
    g.With(write, h.(bios := h.bios + [bio], nrQueued := h.nrQueued + 1)).(ref := g.ref + 1)
  }

  /** throtl_add_bio_tg before it enqueues the group. */
  function BioJoined<D>(s: Data<D>, x: Gid, write: bool, bio: Bio): Data<D>
    requires x in s.groups
  {
    Put(s, x, Joined(s.groups[x], write, bio), if write then 0 else 1, if write then 1 else 0)
  }

  lemma BioJoinedKeeps<D>(s: Data<D>, x: Gid, write: bool, bio: Bio)
    requires ValidBut(s, x)
    ensures ValidBut(BioJoined(s, x, write, bio), x)
  {
    PutKeeps(s, x, Joined(s.groups[x], write, bio), if write then 0 else 1, if write then 1 else 0);
  }

  /** throtl_add_bio_tg */
  function BioAdded<D>(s: Data<D>, x: Gid, write: bool, bio: Bio): Data<D>
    requires Valid(s) && x in s.groups
  {
    ValidIsValidBut(s, x);
    BioJoinedKeeps(s, x, write, bio);
    var s1 := BioJoined(s, x, write, bio);
    if s1.groups[x].onTree then s1 else Enqueued(s1, x)
  }

  lemma BioAddedValid<D>(s: Data<D>, x: Gid, write: bool, bio: Bio)
    requires Valid(s) && x in s.groups
    ensures Valid(BioAdded(s, x, write, bio))
    ensures ValidBut(BioJoined(s, x, write, bio), x)
  {
    ValidIsValidBut(s, x);
    BioJoinedKeeps(s, x, write, bio);
    var s1 := BioJoined(s, x, write, bio);
    if s1.groups[x].onTree {
      SettledIsValid(s1, x);
    } else {
      EnqueuedValid(s1, x);
    }
  }

  lemma BioAddedQueue<D>(s: Data<D>, x: Gid, write: bool, bio: Bio)
    requires Valid(s) && x in s.groups
    ensures var r := BioAdded(s, x, write, bio);
            x in r.groups && r.groups[x].Of(write).bios == s.groups[x].Of(write).bios + [bio]
  {
  }

  lemma ValidIsValidBut<D>(s: Data<D>, x: Gid)
    requires Valid(s) && x in s.groups
    ensures ValidBut(s, x)
  {
  }

  lemma SettledIsValid<D>(s: Data<D>, x: Gid)
    requires ValidBut(s, x) && Settled(s.groups[x])
    ensures Valid(s)
  {
  }

  function Renewed<D>(rule: Rule<D>, g: Group<D>, write: bool, size: nat, now: int): Group<D> {
    g.With(write, g.Of(write).(account := rule.look(g.Of(write).account, size, now).account))
  }

  function Charged<D>(rule: Rule<D>, g: Group<D>, write: bool, size: nat, now: int): Group<D> {
    g.With(write, g.Of(write).(account := rule.charge(g.Of(write).account, size, now)))
  }

  /** A queue of bios somewhere means a group on the tree. */
  lemma {:induction false} SomeoneWaits<D>(groups: Groups<D>, write: bool) returns (x: Gid)
    requires Sum(groups, write) > 0
    ensures x in groups && groups[x].Of(write).bios != []
    decreases |groups|
  {
    x :| x in groups;
    SumSplit(groups, x, write);
    if groups[x].Of(write).bios == [] {
      x := SomeoneWaits(groups - {x}, write);
    }
  }

  /** The check in throtl_schedule_next_dispatch: bios waiting anywhere means a tree that is not empty. */
  lemma WaitingMeansTree<D>(s: Data<D>)
    requires Valid(s) && s.nrRead + s.nrWrite > 0
    ensures s.count > 0 && s.tree != []
  {
    var x := SomeoneWaits(s.groups, s.nrRead == 0);
    assert Settled(s.groups[x]) && x in s.tree;
  }

  // ---------------------------------------------------------------------------
  // The operations as steps
  // ---------------------------------------------------------------------------

  /** throtl_rb_first leaves the first group in the cache. */
  function Cached<D>(s: Data<D>): Data<D> {
    if s.tree == [] then s else s.(left := Some(s.tree[0]))
  }

  lemma CachedValid<D>(s: Data<D>)
    requires Valid(s)
    ensures Valid(Cached(s))
  {
  }

  /** Whether a round is due at `now`. */
  predicate RoundDue<D>(s: Data<D>, now: int)
    requires TreeValid(s)
  {
    s.tree != [] && s.groups[s.tree[0]].disptime <= now
  }

  /** What a round takes off the queues and charges for, whether or not the first group was cached. */
  lemma RoundBooked<D>(rule: Rule<D>, s: Data<D>, now: int)
    requires Valid(s) && s.tree != []
    ensures Valid(Cached(s))
    ensures Conserves(s, Round(rule, Cached(s), now), RoundOut(rule, Cached(s), now))
    ensures Paid(rule, s, Round(rule, Cached(s), now), RoundOut(rule, Cached(s), now), now)
  {
    CachedValid(s);
    RoundConservesAll(rule, Cached(s), now);
    RoundPaid(rule, Cached(s), now);
    var r, out := Round(rule, Cached(s), now), RoundOut(rule, Cached(s), now);
    forall x, write ensures PaidAt(rule, s, r, out, now, x, write) {
      assert PaidAt(rule, Cached(s), r, out, now, x, write);
    }
  }

  /** A look at a direction between operations, and a charge. */
  function LookedAt<D>(rule: Rule<D>, s: Data<D>, x: Gid, write: bool, size: nat, now: int): Data<D>
    requires x in s.groups
  {
    Put(s, x, Renewed(rule, s.groups[x], write, size, now), 0, 0)
  }

  function PaidFor<D>(rule: Rule<D>, s: Data<D>, x: Gid, write: bool, size: nat, now: int): Data<D>
    requires x in s.groups
  {
    Put(s, x, Charged(rule, s.groups[x], write, size, now), 0, 0)
  }

  lemma LookedAtValid<D>(rule: Rule<D>, s: Data<D>, x: Gid, write: bool, size: nat, now: int)
    requires Valid(s) && x in s.groups
    ensures Valid(LookedAt(rule, s, x, write, size, now)) && Valid(PaidFor(rule, s, x, write, size, now))
  {
    ValidIsValidBut(s, x);
    PutKeeps(s, x, Renewed(rule, s.groups[x], write, size, now), 0, 0);
    PutKeeps(s, x, Charged(rule, s.groups[x], write, size, now), 0, 0);
    SettledIsValid(LookedAt(rule, s, x, write, size, now), x);
    SettledIsValid(PaidFor(rule, s, x, write, size, now), x);
  }

  /** The bio has to wait: something waits in its direction already, or the limits refuse it. */
  predicate Waits<D>(rule: Rule<D>, s: Data<D>, x: Gid, write: bool, size: nat, now: int)
    requires x in s.groups
  {
    s.groups[x].Of(write).bios != [] || !rule.look(s.groups[x].Of(write).account, size, now).may
  }

  /** The queueing part of blk_throtl_bio. */
  function Submitted<D>(rule: Rule<D>, s: Data<D>, x: Gid, write: bool, bio: Bio, now: int): Data<D>
    requires Valid(s) && x in s.groups
  {
    if s.groups[x].Of(write).bios != [] then BioAdded(s, x, write, bio)
    else
      LookedAtValid(rule, s, x, write, bio.size, now);
      var s1 := LookedAt(rule, s, x, write, bio.size, now);
      if !Waits(rule, s, x, write, bio.size, now) then PaidFor(rule, s1, x, write, bio.size, now)
      else
        BioAddedValid(s1, x, write, bio);
        BioAddedQueue(s1, x, write, bio);
        Rescheduled(rule, BioAdded(s1, x, write, bio), x, now)
  }

  /** A bio at the tail of a queue changes no account. */
  lemma BioAddedAccounts<D>(s: Data<D>, x: Gid, write: bool, bio: Bio, y: Gid, w: bool)
    requires Valid(s) && x in s.groups && y in s.groups
    ensures var r := BioAdded(s, x, write, bio);
            y in r.groups && r.groups[y].Of(w).account == s.groups[y].Of(w).account
  {
  }

  lemma AddedPaid<D>(rule: Rule<D>, s: Data<D>, x: Gid, write: bool, bio: Bio, now: int)
    requires Valid(s) && x in s.groups
    ensures Paid(rule, s, BioAdded(s, x, write, bio), [], now)
  {
    var r := BioAdded(s, x, write, bio);
    forall y, w | y in s.groups ensures y in r.groups && r.groups[y].Of(w).account == s.groups[y].Of(w).account {
      BioAddedAccounts(s, x, write, bio, y, w);
    }
    PaidNothing(rule, s, r, now);
  }

  lemma LookedAtPaid<D>(rule: Rule<D>, s: Data<D>, x: Gid, write: bool, size: Size, now: int)
    requires x in s.groups
    ensures Paid(rule, s, LookedAt(rule, s, x, write, size, now), [], now)
  {
    forall y, w ensures PaidAt(rule, s, LookedAt(rule, s, x, write, size, now), [], now, y, w) {
      if y in s.groups {
        PaysLook(rule, s.groups[y].Of(w).account, size, now);
        PaysNothing(rule, s.groups[y].Of(w).account, now);
      }
    }
  }

  lemma FromOne(x: Gid, write: bool, bio: Bio, y: Gid, w: bool)
    ensures From([Released(x, write, bio)], y, w) == if y == x && w == write then [bio] else []
  {
    assert [Released(x, write, bio)][1..] == [];
  }

  lemma PassedPaid<D>(rule: Rule<D>, s: Data<D>, x: Gid, write: bool, bio: Bio, now: int)
    requires x in s.groups && rule.look(s.groups[x].Of(write).account, bio.size, now).may
    ensures Paid(rule, s, PaidFor(rule, LookedAt(rule, s, x, write, bio.size, now), x, write, bio.size, now),
                 [Released(x, write, bio)], now)
  {
    var out := [Released(x, write, bio)];
    var r := PaidFor(rule, LookedAt(rule, s, x, write, bio.size, now), x, write, bio.size, now);
    forall y, w ensures PaidAt(rule, s, r, out, now, y, w) {
      if y in s.groups {
        FromOne(x, write, bio, y, w);
        if y == x && w == write {
          PaysOne(rule, s.groups[x].Of(write).account, bio, now);
        } else {
          PaysNothing(rule, s.groups[y].Of(w).account, now);
        }
      }
    }
  }

  lemma RescheduledPaid<D>(rule: Rule<D>, s: Data<D>, x: Gid, now: int)
    requires TreeValid(s) && x in s.groups
    ensures Paid(rule, s, Rescheduled(rule, s, x, now), [], now)
  {
    forall y, w ensures PaidAt(rule, s, Rescheduled(rule, s, x, now), [], now, y, w) {
      if y in s.groups {
        RescheduledHalves(rule, s, x, now, y, w);
        ProbePays(rule, s.groups[y].Of(w), now);
        PaysNothing(rule, s.groups[y].Of(w).account, now);
      }
    }
  }

  lemma PaidNothingTwice<D>(rule: Rule<D>, s: Data<D>, r: Data<D>, t: Data<D>, now: int)
    requires Paid(rule, s, r, [], now) && Paid(rule, r, t, [], now)
    ensures Paid(rule, s, t, [], now)
  {
    var none: seq<Released> := [];
    assert none + none == none;
    PaidTwice(rule, s, r, t, none, none, now);
  }

  /** A bio looked at and put in its queue, before the dispatch time is worked out. */
  lemma QueuedPaid<D>(rule: Rule<D>, s: Data<D>, x: Gid, write: bool, bio: Bio, now: int)
    requires Valid(s) && x in s.groups
    ensures var s1 := LookedAt(rule, s, x, write, bio.size, now);
            && Valid(s1) && x in s1.groups
            && var s2 := BioAdded(s1, x, write, bio);
               Valid(s2) && x in s2.groups && Paid(rule, s, s2, [], now)
  {
    var s1 := LookedAt(rule, s, x, write, bio.size, now);
    LookedAtValid(rule, s, x, write, bio.size, now);
    LookedAtPaid(rule, s, x, write, bio.size, now);
    BioAddedValid(s1, x, write, bio);
    BioAddedQueue(s1, x, write, bio);
    AddedPaid(rule, s1, x, write, bio, now);
    PaidNothingTwice(rule, s, s1, BioAdded(s1, x, write, bio), now);
  }

  lemma RefusedPaid<D>(rule: Rule<D>, s: Data<D>, x: Gid, write: bool, bio: Bio, now: int)
    requires Valid(s) && x in s.groups
    ensures var s1 := LookedAt(rule, s, x, write, bio.size, now);
            && Valid(s1) && x in BioAdded(s1, x, write, bio).groups && TreeValid(BioAdded(s1, x, write, bio))
            && Paid(rule, s, Rescheduled(rule, BioAdded(s1, x, write, bio), x, now), [], now)
  {
    QueuedPaid(rule, s, x, write, bio, now);
    var s2 := BioAdded(LookedAt(rule, s, x, write, bio.size, now), x, write, bio);
    RescheduledPaid(rule, s2, x, now);
    PaidNothingTwice(rule, s, s2, Rescheduled(rule, s2, x, now), now);
  }

  /** A submission charges an account for the bio exactly when it passes. */
  lemma SubmittedPaid<D>(rule: Rule<D>, s: Data<D>, x: Gid, write: bool, bio: Bio, now: int)
    requires Valid(s) && x in s.groups
    ensures Paid(rule, s, Submitted(rule, s, x, write, bio, now),
                 if Waits(rule, s, x, write, bio.size, now) then [] else [Released(x, write, bio)], now)
  {
    if s.groups[x].Of(write).bios != [] {
      AddedPaid(rule, s, x, write, bio, now);
    } else if !Waits(rule, s, x, write, bio.size, now) {
      PassedPaid(rule, s, x, write, bio, now);
    } else {
      RefusedPaid(rule, s, x, write, bio, now);
    }
  }

  class ThrottleData<D(!new)> {
    const rule: Rule<D>
    var groups: Groups<D>
    var tree: seq<Gid>
    var left: Option<Gid>
    var count: int
    var nrRead: int
    var nrWrite: int

    ghost function Snap(): Data<D>
      reads this
    {
      Data(groups, tree, left, count, nrRead, nrWrite)
    }

    constructor (rule: Rule<D>)
      ensures Valid(Snap()) && Snap() == Data(map[], [], None, 0, 0, 0) && this.rule == rule
    {
      this.rule := rule;
      groups, tree, left, count, nrRead, nrWrite := map[], [], None, 0, 0, 0;
    }

    /** throtl_rb_first: the group of the least dispatch time; the cache is refreshed. */
    method RbFirst() returns (first: Option<Gid>)
      requires TreeValid(Snap())
      modifies this`left
      ensures TreeValid(Snap()) && Snap() == Cached(old(Snap()))
      ensures first == if tree == [] then None else Some(tree[0])
    {
      if count == 0 {
        return None;
      }
      if left.None? {
        left := Some(tree[0]);
      }
      return left;
    }

    /** The descent of tg_service_tree_add: to the right of every group that is not later. */
    method FindSlot(key: int) returns (k: nat)
      requires TreeValid(Snap())
      ensures k == Slot(Times(groups), tree, key)
    {
      k := 0;
      while k < |tree| && !(key < groups[tree[k]].disptime)
        invariant 0 <= k <= |tree|
        invariant Slot(Times(groups), tree, key) == k + Slot(Times(groups), tree[k..], key)
      {
        assert tree[k..][1..] == tree[k + 1..] && tree[k..][0] == tree[k];
        k := k + 1;
      }
    }

    /** __throtl_enqueue_tg */
    method Enqueue(x: Gid)
      requires TreeValid(Snap()) && x in groups && !groups[x].onTree
      modifies this
      ensures Snap() == Enqueued(old(Snap()), x)
    {
      var k := FindSlot(groups[x].disptime);
      if k == 0 {
        left := Some(x);
      }
      tree := InsertAt(tree, k, x);
      groups := groups[x := groups[x].(onTree := true)];
      count := count + 1;
    }

    /** __throtl_dequeue_tg */
    method Dequeue(x: Gid)
      requires TreeValid(Snap()) && x in groups && x in tree
      modifies this
      ensures Snap() == Dequeued(old(Snap()), x)
    {
      if left == Some(x) {
        left := None;
      }
      var k := IndexOf(tree, x);
      tree := tree[..k] + tree[k + 1..];
      groups := groups[x := groups[x].(onTree := false)];
      count := count - 1;
    }

    /** tg_may_dispatch: the group's account is renewed whatever the verdict. */
    method MayDispatch(x: Gid, write: bool, size: nat, now: int) returns (may: bool, wait: int)
      requires x in groups
      modifies this`groups
      ensures var g := old(groups)[x];
              var v := rule.look(g.Of(write).account, size, now);
              && may == v.may && wait == v.wait
              && groups == old(groups)[x := g.With(write, g.Of(write).(account := v.account))]
    {
      var h := groups[x].Of(write);
      var v := rule.look(h.account, size, now);
      groups := groups[x := groups[x].With(write, h.(account := v.account))];
      return v.may, v.wait;
    }

    /** tg_dispatch_one_bio; what its BUG_ON checks is what it demands. */
    method DispatchOne(x: Gid, write: bool, now: int) returns (bio: Bio)
      requires x in groups && groups[x].Of(write).bios != []
      requires groups[x].ref > 0 && (if write then nrWrite else nrRead) > 0
      modifies this
      ensures bio == old(groups)[x].Of(write).bios[0]
      ensures var g := old(groups)[x];
              Snap() == LetGo(old(Snap()), x, write, PopFirst(rule, g.Of(write), now), 1)
    {
      var g := groups[x];
      bio := g.Of(write).bios[0];
      groups := groups[x := g.With(write, PopFirst(rule, g.Of(write), now)).(ref := g.ref - 1)];
      if write {
        nrWrite := nrWrite - 1;
      } else {
        nrRead := nrRead - 1;
      }
    }

    /** One turn of a dispatch loop: look at the first bio and, if it may, let it go. */
    method TryOne(x: Gid, write: bool, now: int) returns (bio: Option<Bio>)
      requires x in groups && groups[x].Of(write).bios != []
      requires groups[x].ref > 0 && (if write then nrWrite else nrRead) > 0
      modifies this
      ensures var g := old(groups)[x];
              var h := g.Of(write);
              var v := Look(rule, h, now);
              var h1 := h.(account := v.account);
              if v.may then
                bio == Some(h.bios[0]) && Snap() == LetGo(old(Snap()), x, write, PopFirst(rule, h1, now), 1)
              else bio == None && Snap() == LetGo(old(Snap()), x, write, h1, 0)
    {
      var may, _ := MayDispatch(x, write, groups[x].Of(write).bios[0].size, now);
      if may {
        var b := DispatchOne(x, write, now);
        return Some(b);
      }
      return None;
    }

    /** One of the two loops of throtl_dispatch_tg. */
    method DispatchLoop(x: Gid, write: bool, max: int, now: int) returns (out: seq<Bio>)
      requires x in groups && Counted(groups[x]) && Totals(Snap()) && max > 0
      modifies this
      ensures Snap() == HalfDispatched(rule, old(Snap()), x, write, max, now)
      ensures out == DispatchHalf(rule, old(groups)[x].Of(write), max, now).1
    {
      out := [];
      ghost var s0 := Snap();
      var more := true;
      LoopBegins(rule, s0, x, write, max, now);
      while more && groups[x].Of(write).bios != []
        invariant more ==> |out| < max
        invariant Progress(rule, s0, x, write, max, now, out, Snap(), more)
        decreases more, |groups[x].Of(write).bios|
      {
        ghost var s := Snap();
        TurnReady(rule, s0, x, write, max, now, out, s);
        if Look(rule, groups[x].Of(write), now).may {
          TurnPassed(rule, s0, x, write, max, now, out, s);
        } else {
          TurnRefused(rule, s0, x, write, max, now, out, s);
        }
        var bio := TryOne(x, write, now);
        if bio.Some? {
          out := out + [bio.value];
          if |out| >= max {
            more := false;
          }
        } else {
          more := false;
        }
      }
      LoopEnds(rule, s0, x, write, max, now, out, Snap(), more);
    }

    /** throtl_dispatch_tg: up to 6 reads, then up to 2 writes. */
    method DispatchGroup(x: Gid, now: int) returns (fromRead: seq<Bio>, fromWrite: seq<Bio>)
      requires x in groups && Counted(groups[x]) && Totals(Snap())
      modifies this
      ensures Snap() == GroupDispatched(rule, old(Snap()), x, now)
      ensures fromRead == GivenUp(rule, old(groups)[x], false, now)
      ensures fromWrite == GivenUp(rule, old(groups)[x], true, now)
    {
      BothDispatched(rule, Snap(), x, now);
      HalfDispatchedKeeps(rule, Snap(), x, false, MAX_READS, now);
      fromRead := DispatchLoop(x, false, MAX_READS, now);
      fromWrite := DispatchLoop(x, true, MAX_WRITES, now);
    }

    method ProbeOne(x: Gid, write: bool, now: int) returns (wait: int)
      requires x in groups
      modifies this`groups
      ensures groups == old(groups)[x := Probed(rule, old(groups)[x], write, now)]
      ensures wait == Probe(rule, old(groups)[x].Of(write), now).1
    {
      wait := ULONG - 1;
      if groups[x].Of(write).bios != [] {
        var may;
        may, wait := MayDispatch(x, write, groups[x].Of(write).bios[0].size, now);
      } else {
        assert groups[x := groups[x]] == groups;
      }
    }

    /** Both looks of tg_update_disptime. */
    method ProbeBoth(x: Gid, now: int) returns (wait: int)
      requires x in groups
      modifies this`groups
      ensures groups == old(groups)[x := Probed(rule, Probed(rule, old(groups)[x], false, now), true, now)]
      ensures wait == Min(Probe(rule, old(groups)[x].read, now).1, Probe(rule, old(groups)[x].write, now).1)
    {
      var readWait := ProbeOne(x, false, now);
      var writeWait := ProbeOne(x, true, now);
      assert groups == old(groups)[x := groups[x]];
      wait := Min(readWait, writeWait);
    }

    /** tg_update_disptime */
    method UpdateDisptime(x: Gid, now: int)
      requires TreeValid(Snap()) && x in groups
      modifies this
      ensures Snap() == Rescheduled(rule, old(Snap()), x, now)
    {
      RetimedInSteps(rule, Snap(), x, now);
      RetimedTree(rule, Snap(), x, now);
      var wait := ProbeBoth(x, now);
      if groups[x].onTree {
        Dequeue(x);
      }
      groups := groups[x := groups[x].(disptime := now + wait)];
      assert Snap() == Retimed(rule, if old(groups)[x].onTree then Dequeued(old(Snap()), x) else old(Snap()), x, now);
      Enqueue(x);
    }

    /** One turn of the loop of throtl_select_dispatch. */
    method DispatchRound(x: Gid, now: int) returns (out: seq<Released>)
      requires Valid(Snap()) && tree != [] && x == tree[0]
      modifies this
      ensures Snap() == Round(rule, old(Snap()), now)
      ensures out == RoundOut(rule, old(Snap()), now)
    {
      ghost var s := Snap();
      DequeuedKeeps(s, x);
      GroupDispatchedKeeps(rule, Dequeued(s, x), x, now);
      Dequeue(x);
      var fromRead, fromWrite := DispatchGroup(x, now);
      out := Tagged(x, false, fromRead) + Tagged(x, true, fromWrite);
      if groups[x].read.nrQueued != 0 || groups[x].write.nrQueued != 0 {
        UpdateDisptime(x, now);
      }
    }

    /** A round for the first group, if it is due. */
    method TryRound(now: int) returns (done: bool, out: seq<Released>)
      requires Sound(rule) && Valid(Snap())
      modifies this
      ensures Valid(Snap()) && Conserves(old(Snap()), Snap(), out) && |out| <= GRP_QUANTUM
      ensures old(Valid(Cached(Snap()))) && done == !old(RoundDue(Cached(Snap()), now))
      ensures done ==> Snap() == old(Cached(Snap()))
      ensures !done ==> Snap() == old(Round(rule, Cached(Snap()), now))
      ensures !done ==> out == old(RoundOut(rule, Cached(Snap()), now))
      ensures done ==> out == [] && forall g :: g in tree ==> groups[g].disptime > now
      ensures Paid(rule, old(Snap()), Snap(), out, now)
      ensures !done ==> 0 <= nrRead + nrWrite == old(nrRead + nrWrite) - |out|
      ensures !done ==> |out| > 0 || DueNow(Snap(), now) < old(DueNow(Snap(), now))
    {
      ghost var s := Snap();
      CachedValid(s);
      var first := RbFirst();
      if first.None? || now < groups[first.value].disptime {
        NoneDue(s, now);
        ConservesNothing(s, left);
        PaidNothing(rule, s, Snap(), now);
        return true, [];
      }
      RoundProgress(rule, Snap(), now);
      RoundBooked(rule, s, now);
      out := DispatchRound(first.value, now);
      done := false;
    }

    /**
     throtl_select_dispatch.  It ends; what it lets go was taken off the fronts of the queues; it
     lets go fewer than 40 bios, and stops short of 32 only when no group is due.
     */
    method SelectDispatch(now: int) returns (nr: int, out: seq<Released>)
      requires Sound(rule) && Valid(Snap())
      modifies this
      ensures Valid(Snap())
      ensures nr == |out| < QUANTUM + GRP_QUANTUM
      ensures Conserves(old(Snap()), Snap(), out)
      ensures nr >= QUANTUM || forall g :: g in tree ==> groups[g].disptime > now
      ensures Paid(rule, old(Snap()), Snap(), out, now)
    {
      nr, out := 0, [];
      ConservesNothing(Snap(), left);
      PaidNothing(rule, Snap(), Snap(), now);
      while nr < QUANTUM
        invariant Valid(Snap())
        invariant nr == |out| < QUANTUM + GRP_QUANTUM
        invariant Conserves(old(Snap()), Snap(), out) && Paid(rule, old(Snap()), Snap(), out, now)
        decreases nrRead + nrWrite, DueNow(Snap(), now)
      {
        ghost var s := Snap();
        var done, more := TryRound(now);
        ConservesTwice(old(Snap()), s, Snap(), out, more);
        PaidTwice(rule, old(Snap()), s, Snap(), out, more, now);
        nr, out := nr + |more|, out + more;
        if done {
          break;
        }
      }
    }

    /** throtl_add_bio_tg before it enqueues the group. */
    method JoinBio(x: Gid, write: bool, bio: Bio)
      requires x in groups
      modifies `groups, `nrRead, `nrWrite
      ensures Snap() == BioJoined(old(Snap()), x, write, bio)
    {
      groups := groups[x := Joined(groups[x], write, bio)];
      if write {
        nrWrite := nrWrite + 1;
      } else {
        nrRead := nrRead + 1;
      }
    }

    /** throtl_add_bio_tg */
    method AddBio(x: Gid, write: bool, bio: Bio)
      requires Valid(Snap()) && x in groups
      modifies this
      ensures Snap() == BioAdded(old(Snap()), x, write, bio)
      ensures Valid(Snap()) && x in groups
      ensures groups[x].Of(write).bios == old(groups)[x].Of(write).bios + [bio]
    {
      BioAddedValid(Snap(), x, write, bio);
      BioAddedQueue(Snap(), x, write, bio);
      JoinBio(x, write, bio);
      if !groups[x].onTree {
        Enqueue(x);
      }
    }

    /** Queue a bio that had to be refused, and work out when its group is due. */
    method QueueRefused(x: Gid, write: bool, bio: Bio, now: int)
      requires Valid(Snap()) && x in groups
      modifies this
      ensures Valid(Snap()) && x in groups
      ensures groups[x].Of(write).bios == old(groups)[x].Of(write).bios + [bio]
      ensures old(Valid(BioAdded(Snap(), x, write, bio)))
      ensures Snap() == old(Rescheduled(rule, BioAdded(Snap(), x, write, bio), x, now))
    {
      BioAddedValid(Snap(), x, write, bio);
      AddBio(x, write, bio);
      ValidIsValidBut(Snap(), x);
      RescheduledValid(rule, Snap(), x, now);
      UpdateDisptime(x, now);
    }

    /** throtl_charge_bio and throtl_trim_slice for a bio that passes without being queued. */
    method ChargeBio(x: Gid, write: bool, size: nat, now: int)
      requires Valid(Snap()) && x in groups
      modifies this`groups
      ensures Valid(Snap())
      ensures groups == old(groups)[x := Charged(rule, old(groups)[x], write, size, now)]
    {
      ValidIsValidBut(Snap(), x);
      PutKeeps(Snap(), x, Charged(rule, groups[x], write, size, now), 0, 0);
      groups := groups[x := Charged(rule, groups[x], write, size, now)];
      SettledIsValid(Snap(), x);
    }

    /** tg_may_dispatch between operations. */
    method LookAt(x: Gid, write: bool, size: nat, now: int) returns (may: bool)
      requires Valid(Snap()) && x in groups
      modifies this`groups
      ensures Valid(Snap())
      ensures may == rule.look(old(groups)[x].Of(write).account, size, now).may
      ensures groups == old(groups)[x := Renewed(rule, old(groups)[x], write, size, now)]
    {
      ValidIsValidBut(Snap(), x);
      PutKeeps(Snap(), x, Renewed(rule, groups[x], write, size, now), 0, 0);
      var wait;
      may, wait := MayDispatch(x, write, size, now);
      SettledIsValid(Snap(), x);
    }

    /**
     The queueing part of blk_throtl_bio: a bio passes at once only if nothing waits in its direction
     and its limits allow it; otherwise it joins the tail of its queue.
     */
    method ThrottleBio(x: Gid, write: bool, bio: Bio, now: int) returns (queued: bool)
      requires Valid(Snap()) && x in groups
      modifies this
      ensures Valid(Snap()) && x in groups
      ensures queued <==> old(groups[x].Of(write).bios) != [] ||
                          !rule.look(old(groups[x].Of(write).account), bio.size, now).may
      ensures Snap() == Submitted(rule, old(Snap()), x, write, bio, now)
      ensures Paid(rule, old(Snap()), Snap(), if queued then [] else [Released(x, write, bio)], now)
      ensures groups[x].Of(write).bios == old(groups)[x].Of(write).bios + (if queued then [bio] else [])
      ensures !queued ==>
                groups[x] == Charged(rule, Renewed(rule, old(groups)[x], write, bio.size, now), write, bio.size, now)
    {
      SubmittedPaid(rule, Snap(), x, write, bio, now);
      assert Settled(groups[x]);
      if groups[x].Of(write).nrQueued != 0 {
        AddBio(x, write, bio);
        return true;
      }
      var may := LookAt(x, write, bio.size, now);
      if may {
        ChargeBio(x, write, bio.size, now);
        return false;
      }
      QueueRefused(x, write, bio, now);
      return true;
    }

    /** A new group on the list of groups, with the reference that stands for that. */
    method AddGroup(x: Gid, read: D, write: D)
      requires Valid(Snap()) && x !in groups
      modifies this`groups
      ensures Valid(Snap())
      ensures groups == old(groups)[x := Group(Half([], 0, read), Half([], 0, write), 0, 1, false, true)]
    {
      var g := Group(Half([], 0, read), Half([], 0, write), 0, 1, false, true);
      SumAdd(groups, x, g, false);
      SumAdd(groups, x, g, true);
      groups := groups[x := g];
    }

    /** throtl_destroy_tg: the group leaves the list; it is gone once no bio waits in it any more. */
    method DestroyGroup(x: Gid) returns (gone: bool)
      requires Valid(Snap()) && x in groups && groups[x].listed
      modifies this`groups
      ensures Valid(Snap())
      ensures groups == old(groups)[x := old(groups)[x].(listed := false, ref := old(groups)[x].ref - 1)]
      ensures gone <==> old(groups)[x].Waiting() == 0
    {
      ValidIsValidBut(Snap(), x);
      PutKeeps(Snap(), x, groups[x].(listed := false, ref := groups[x].ref - 1), 0, 0);
      groups := groups[x := groups[x].(listed := false, ref := groups[x].ref - 1)];
      gone := groups[x].ref == 0;
      SettledIsValid(Snap(), x);
    }

    /** throtl_schedule_next_dispatch: when the dispatch work is to run next, if at all. */
    method NextDispatch(now: int) returns (delay: Option<int>)
      requires Valid(Snap())
      modifies this`left
      ensures Valid(Snap())
      ensures delay == None <==> forall g :: g in groups ==> groups[g].Waiting() == 0
      ensures delay.Some? ==>
                && delay.value >= 0 && (forall g :: g in tree ==> now + delay.value <= Max(groups[g].disptime, now))
                && exists g :: g in tree && now + delay.value == Max(groups[g].disptime, now)
    {
      if nrRead + nrWrite == 0 {
        forall g | g in groups ensures groups[g].Waiting() == 0 {
          SumSplit(groups, g, false);
          SumSplit(groups, g, true);
        }
        return None;
      }
      WaitingMeansTree(Snap());
      assert count != 0;          // BUG_ON
      assert Settled(groups[tree[0]]);
      var first := RbFirst();
      var least := groups[first.value].disptime;
      forall g | g in tree ensures least <= groups[g].disptime {
        assert groups[tree[0]].disptime <= groups[g].disptime;
      }
      assert first.value in tree;
      return Some(if least <= now then 0 else least - now);
    }
  }
}
