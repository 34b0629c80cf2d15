/**
 Where the deadline scheduler goes on, over whole runs: a batch climbs the disk from the request dispatched
 last, lasts as long as fifo_batch allows, returns to the head of the fifo only when that has expired or
 nothing lies above, and passes waiting writes writes_starved times.
 */
module DeadlineBatches {
  import opened Options
  import opened Lists
  import opened Deadline
  import opened DeadlineProofs
  import opened DeadlineBounds
  import opened DeadlineExpiry

  // ---------------------------------------------------------------------------
  // Up the disk, one direction
  // ---------------------------------------------------------------------------

  /** `x` is the request to go on with or behind it in the sorted list. */
  ghost predicate From(l: seq<Rq>, next: Option<Rq>, x: Rq) {
    next.Some? && next.value in l && x in l && IndexOf(l, next.value) <= IndexOf(l, x)
  }

  /**
   With the last request of this direction dispatched at `p`: whatever is not in `touched` lies at `p` or
   below, or is not passed over by the next request.
   */
  ghost predicate Climbs(pos: map<Rq, int>, side: Side, p: int, touched: set<Rq>) {
    forall x :: x in side.sorted && x !in touched ==> x in pos && (pos[x] <= p || From(side.sorted, side.next, x))
  }

  lemma InsertFrom(l: seq<Rq>, k: nat, added: Rq, next: Option<Rq>, x: Rq)
    requires NoDup(l) && k <= |l| && added !in l && From(l, next, x)
    ensures From(InsertAt(l, k, added), next, x)
  {
    var r := InsertAt(l, k, added);
    InsertMembers(l, k, added);
    var i, j := IndexOf(l, next.value), IndexOf(l, x);
    IndexUnique(r, next.value, if i < k then i else i + 1);
    IndexUnique(r, x, if j < k then j else j + 1);
  }

  lemma RemoveFrom(l: seq<Rq>, gone: Rq, next: Option<Rq>, x: Rq)
    requires NoDup(l) && From(l, next, x) && x != gone
    ensures From(Remove(l, gone), if next == Some(gone) then Latter(l, gone) else next, x)
  {
    RemoveMembers(l, gone);
    RemoveIndex(l, gone, x);
    if next == Some(gone) {
      var k := IndexOf(l, gone);
      IndexUnique(l, l[k + 1], k + 1);
      RemoveIndex(l, gone, l[k + 1]);
    } else {
      RemoveIndex(l, gone, next.value);
    }
  }

  /** A new request may be passed over; the others are not. */
  lemma AddClimbs(pos: map<Rq, int>, side: Side, p: int, touched: set<Rq>, rq: Rq, at: int)
    requires NoDup(side.sorted) && rq !in side.sorted && Climbs(pos, side, p, touched)
    requires forall y :: y in side.sorted ==> y in pos
    ensures Climbs(pos[rq := at], side.(sorted := SortIn(pos[rq := at], side.sorted, rq)), p, touched + {rq})
  {
    var pos', k := pos[rq := at], Slot(pos[rq := at], side.sorted, at);
    var l := InsertAt(side.sorted, k, rq);
    InsertMembers(side.sorted, k, rq);
    forall x | x in l && x !in touched + {rq} ensures x in pos' && (pos'[x] <= p || From(l, side.next, x)) {
      if From(side.sorted, side.next, x) {
        InsertFrom(side.sorted, k, rq, side.next, x);
      }
    }
  }

  lemma RemovedClimbs(pos: map<Rq, int>, side: Side, p: int, touched: set<Rq>, gone: Rq)
    requires NoDup(side.sorted) && Climbs(pos, side, p, touched)
    ensures Climbs(pos, Removed(side, gone), p, touched)
  {
    RemoveMembers(side.sorted, gone);
    var s1 := Removed(side, gone);
    forall x | x in s1.sorted && x !in touched ensures x in pos && (pos[x] <= p || From(s1.sorted, s1.next, x)) {
      if From(side.sorted, side.next, x) {
        RemoveFrom(side.sorted, gone, side.next, x);
      }
    }
  }

  lemma BeforeInOrder(pos: map<Rq, int>, l: seq<Rq>, a: Rq, b: Rq)
    requires Ordered(pos, l) && a in l && b in l
    ensures IndexOf(l, a) <= IndexOf(l, b) ==> pos[a] <= pos[b]
    ensures pos[a] < pos[b] ==> IndexOf(l, a) < IndexOf(l, b)
  {
    var i, j := IndexOf(l, a), IndexOf(l, b);
    if i < j {
      assert pos[l[i]] <= pos[l[j]];
    } else if j < i {
      assert pos[l[j]] <= pos[l[i]];
    }
  }

  /** What is left of an ordered list is in order whatever key the removed request gets. */
  lemma RestOrdered(pos: map<Rq, int>, l: seq<Rq>, rq: Rq, at: int)
    requires NoDup(l) && Ordered(pos, l)
    ensures NoDup(Remove(l, rq)) && Ordered(pos[rq := at], Remove(l, rq)) && rq !in Remove(l, rq)
    ensures forall x :: x in Remove(l, rq) <==> x in l && x != rq
  {
    RemoveMembers(l, rq);
    RemoveOrdered(pos, l, rq);
    var rest := Remove(l, rq);
    assert forall i :: 0 <= i < |rest| ==> rest[i] in rest;
  }

  lemma ResortFrom(pos: map<Rq, int>, l: seq<Rq>, rq: Rq, at: int, next: Option<Rq>, x: Rq)
    requires NoDup(l) && Ordered(pos, l) && rq in l && at < pos[rq] && x != rq && From(l, next, x)
    ensures forall y :: y in Remove(l, rq) ==> y in pos
    ensures From(SortIn(pos[rq := at], Remove(l, rq), rq), next, x)
  {
    RestOrdered(pos, l, rq, at);
    var rest, pos' := Remove(l, rq), pos[rq := at];
    var k := Slot(pos', rest, at);
    if next == Some(rq) {
      InsertMembers(rest, k, rq);
      SortInOrdered(pos', rest, rq);
      BeforeInOrder(pos, l, rq, x);
      BeforeInOrder(pos', SortIn(pos', rest, rq), rq, x);
    } else {
      RemoveFrom(l, rq, next, x);
      InsertFrom(rest, k, rq, next, x);
    }
  }

  lemma ResortMembers(pos: map<Rq, int>, l: seq<Rq>, rq: Rq, at: int)
    requires NoDup(l) && Ordered(pos, l) && rq in l
    ensures forall y :: y in Remove(l, rq) ==> y in pos
    ensures forall y :: y in SortIn(pos[rq := at], Remove(l, rq), rq) ==> y in l
  {
    RestOrdered(pos, l, rq, at);
    InsertMembers(Remove(l, rq), Slot(pos[rq := at], Remove(l, rq), at), rq);
  }

  /** A request whose start moves down is sorted in again; the others are still not passed over. */
  lemma ResortClimbs(pos: map<Rq, int>, side: Side, p: int, touched: set<Rq>, rq: Rq, at: int)
    requires NoDup(side.sorted) && Ordered(pos, side.sorted) && Climbs(pos, side, p, touched)
    requires rq in side.sorted && at < pos[rq]
    ensures forall y :: y in Remove(side.sorted, rq) ==> y in pos
    ensures Climbs(pos[rq := at], side.(sorted := SortIn(pos[rq := at], Remove(side.sorted, rq), rq)), p, touched +
                   {rq})
  {
    ResortMembers(pos, side.sorted, rq, at);
    var l := SortIn(pos[rq := at], Remove(side.sorted, rq), rq);
    forall x | x in l && x !in touched + {rq}
      ensures x in pos[rq := at] && (pos[rq := at][x] <= p || From(l, side.next, x))
    {
      assert x in side.sorted && x != rq;
      if pos[x] > p {
        ResortFrom(pos, side.sorted, rq, at, side.next, x);
      }
    }
  }

  /** Right after a dispatch nothing at all is passed over. */
  lemma MoveClimbs(pos: map<Rq, int>, side: Side, rq: Rq)
    requires NoDup(side.sorted) && Ordered(pos, side.sorted) && rq in side.sorted
    ensures Climbs(pos, Removed(side.(next := Latter(side.sorted, rq)), rq), pos[rq], {})
  {
    var next := Latter(side.sorted, rq);
    LatterIn(side.sorted, rq);
    RemoveMembers(side.sorted, rq);
    var l := Remove(side.sorted, rq);
    forall x | x in l ensures pos[x] <= pos[rq] || From(l, next, x) {
      BeforeInOrder(pos, side.sorted, rq, x);
      if pos[x] > pos[rq] {
        var k := IndexOf(side.sorted, rq);
        IndexUnique(side.sorted, side.sorted[k + 1], k + 1);
        RemoveFrom(side.sorted, rq, next, x);
      }
    }
  }

  // ---------------------------------------------------------------------------
  // Up the disk, between two dispatches
  // ---------------------------------------------------------------------------

  /** The last dispatch was in direction `w` at `p`; requests in `touched` were added or moved since. */
  ghost predicate Onward(s: State, w: bool, p: int, touched: set<Rq>) {
    s.Of(!w).next.None? && Climbs(s.pos, s.Of(w), p, touched)
  }

  /** The next request is not below `p`. */
  ghost predicate NotBack(s: State, w: bool, p: int) {
    var next := s.Of(w).next;
    next.Some? ==> next.value in s.pos && p <= s.pos[next.value]
  }

  /** A dispatch sets the mark to go on from. */
  lemma DispatchOnward(t: Tunables, s: State, now: int)
    requires Inv(t, s, now) && Choose(t, s, now).Choice?
    ensures var c, s1 := Choose(t, s, now), Dispatch(t, s, now);
            c.rq in s.Of(c.write).fifo && Onward(s1, c.write, s.pos[c.rq], {}) && NotBack(s1, c.write, s.pos[c.rq])
  {
    ChosenQueued(t, s, now);
    var c := Choose(t, s, now);
    MoveClimbs(s.pos, s.Of(c.write), c.rq);
    BatchAscends(s, c.write, c.rq, c.rq);
  }

  /** The requests an action adds or moves. */
  function Touches(a: Action): set<Rq> {
    if a.DoAdd? || a.DoFrontMerge? then {a.rq} else {}
  }

  lemma AddOnward(t: Tunables, s: State, a: Action, w: bool, p: int, touched: set<Rq>)
    requires SideFine(s, false) && SideFine(s, true) && a.DoAdd? && Enabled(s, a) && Onward(s, w, p, touched)
    ensures Onward(Act(t, s, a), w, p, touched + Touches(a))
    ensures NotBack(s, w, p) ==> NotBack(Act(t, s, a), w, p)
  {
    if a.write == w {
      AddClimbs(s.pos, s.Of(w), p, touched, a.rq, a.pos);
    }
  }

  lemma FrontOnward(t: Tunables, s: State, a: Action, w: bool, p: int, touched: set<Rq>)
    requires SideFine(s, false) && SideFine(s, true) && a.DoFrontMerge? && Enabled(s, a) && a.pos < s.pos[a.rq]
    requires Onward(s, w, p, touched)
    ensures Onward(Act(t, s, a), w, p, touched + Touches(a))
  {
    if s.dir[a.rq] == w {
      ResortClimbs(s.pos, s.Of(w), p, touched, a.rq, a.pos);
    }
  }

  lemma MergedClimbs(s: State, req: Rq, next: Rq, w: bool, p: int, touched: set<Rq>)
    requires req in s.time && next in s.time && req in s.dir && s.dir[req] == w
    requires NoDup(s.Of(w).sorted) && Onward(s, w, p, touched)
    ensures Onward(Merged(s, req, next), w, p, touched)
  {
    RemovedClimbs(s.pos, s.Of(w), p, touched, next);
  }

  /** A request that takes the place of the next one is not below it. */
  lemma MergedNotBack(s: State, req: Rq, next: Rq, w: bool, p: int)
    requires req in s.time && next in s.time && req in s.dir && s.dir[req] == w && next in s.Of(w).sorted
    requires NoDup(s.Of(w).sorted) && Ordered(s.pos, s.Of(w).sorted) && NotBack(s, w, p)
    ensures NotBack(Merged(s, req, next), w, p)
  {
    LatterIn(s.Of(w).sorted, next);
    LatterIsNext(s.pos, s.Of(w).sorted, next, next);
  }

  lemma MergeOnward(t: Tunables, s: State, a: Action, w: bool, p: int, touched: set<Rq>)
    requires SideFine(s, false) && SideFine(s, true) && a.DoMerge? && Enabled(s, a) && Onward(s, w, p, touched)
    ensures Onward(Act(t, s, a), w, p, touched + Touches(a))
    ensures NotBack(s, w, p) ==> NotBack(Act(t, s, a), w, p)
  {
    assert touched + Touches(a) == touched;
    if s.dir[a.req] == w {
      MergedClimbs(s, a.req, a.next, w, p, touched);
      if NotBack(s, w, p) {
        MergedNotBack(s, a.req, a.next, w, p);
      }
    }
  }

  /** Nothing is dispatched, and a front merge moves the start of its request down. */
  ghost predicate CalmStep(s: State, a: Action)
    requires SideFine(s, false) && SideFine(s, true) && Enabled(s, a)
  {
    !a.DoDispatch? && (a.DoFrontMerge? ==> a.pos < s.pos[a.rq])
  }

  lemma StepOnward(t: Tunables, s: State, a: Action, w: bool, p: int, touched: set<Rq>)
    requires SideFine(s, false) && SideFine(s, true) && Enabled(s, a) && CalmStep(s, a) && Onward(s, w, p, touched)
    ensures Onward(Act(t, s, a), w, p, touched + Touches(a))
    ensures NotBack(s, w, p) && !a.DoFrontMerge? ==> NotBack(Act(t, s, a), w, p)
    ensures Act(t, s, a).batching == s.batching
  {
    CountersKept(t, s, a);
    match a
    case DoAdd(_, _, _, _) => AddOnward(t, s, a, w, p, touched);
    case DoFrontMerge(_, _, _) => FrontOnward(t, s, a, w, p, touched);
    case DoMerge(_, _, _) => MergeOnward(t, s, a, w, p, touched);
  }

  ghost predicate Calm(t: Tunables, s: State, last: int, run: seq<Action>)
    requires Inv(t, s, last) && Possible(t, s, last, run)
    decreases |run|
  {
    run == [] ||
    (CalmStep(s, run[0]) && (ActKeeps(t, s, run[0], last); Calm(t, Act(t, s, run[0]), run[0].now, run[1..])))
  }

  /** The requests `run` adds or moves. */
  function Touched(run: seq<Action>): set<Rq> {
    if run == [] then {} else Touches(run[0]) + Touched(run[1..])
  }

  predicate NoFronts(run: seq<Action>) {
    run == [] || (!run[0].DoFrontMerge? && NoFronts(run[1..]))
  }

  lemma TouchedMore(touched: set<Rq>, run: seq<Action>)
    requires run != []
    ensures touched + Touched(run) == (touched + Touches(run[0])) + Touched(run[1..])
  {
  }

  lemma {:induction false} PlayOnward(t: Tunables, s: State, last: int, run: seq<Action>, w: bool, p: int,
                                      touched: set<Rq>)
    requires Inv(t, s, last) && Possible(t, s, last, run) && Calm(t, s, last, run) && Onward(s, w, p, touched)
    ensures Onward(Play(t, s, last, run), w, p, touched + Touched(run))
    ensures NotBack(s, w, p) && NoFronts(run) ==> NotBack(Play(t, s, last, run), w, p)
    ensures Play(t, s, last, run).batching == s.batching
    decreases |run|
  {
    if run == [] {
      assert touched + Touched(run) == touched;
    } else {
      ActKeeps(t, s, run[0], last);
      StepOnward(t, s, run[0], w, p, touched);
      TouchedMore(touched, run);
      PlayOnward(t, Act(t, s, run[0]), run[0].now, run[1..], w, p, touched + Touches(run[0]));
    }
  }

  /** A dispatch at `now`, followed by `run`, in which nothing is dispatched. */
  ghost predicate Follows(t: Tunables, s: State, now: int, run: seq<Action>) {
    && Inv(t, s, now) && Choose(t, s, now).Choice?
    && Inv(t, Dispatch(t, s, now), now) && Possible(t, Dispatch(t, s, now), now, run)
    && Calm(t, Dispatch(t, s, now), now, run)
  }

  ghost function After(t: Tunables, s: State, now: int, run: seq<Action>): State
    requires Follows(t, s, now, run)
  {
    Play(t, Dispatch(t, s, now), now, run)
  }

  lemma AfterOnward(t: Tunables, s: State, now: int, run: seq<Action>, c: Choice, s1: State)
    requires Follows(t, s, now, run) && c == Choose(t, s, now) && s1 == After(t, s, now, run)
    ensures Inv(t, s1, Until(now, run)) && s1.batching == Dispatch(t, s, now).batching
    ensures c.rq in s.Of(c.write).fifo && c.rq in s.pos && Onward(s1, c.write, s.pos[c.rq], Touched(run))
    ensures NoFronts(run) ==> NotBack(s1, c.write, s.pos[c.rq])
  {
    DispatchOnward(t, s, now);
    PlayInv(t, Dispatch(t, s, now), now, run);
    PlayOnward(t, Dispatch(t, s, now), now, run, c.write, s.pos[c.rq], {});
    assert {} + Touched(run) == Touched(run);
  }

  /** A batch starts in direction `d.write` with the first request of the fifo past its time. */
  ghost predicate HeadExpired(s: State, d: Choice, now: int)
    requires Timed(s) && d.Choice?
  {
    var fifo := s.Of(d.write).fifo;
    d.starts && fifo != [] && s.time[fifo[0]] < now
  }

  /** What is chosen next after a dispatch at `p` while an untouched request `x` waits above. */
  lemma OnwardUp(t: Tunables, s: State, w: bool, p: int, touched: set<Rq>, now: int, x: Rq)
    requires SideFine(s, false) && SideFine(s, true) && Onward(s, w, p, touched)
    requires x in s.Of(w).fifo && x !in touched && s.pos[x] > p
    ensures Choose(t, s, now).Choice? && Choose(t, s, now).rq in s.pos
    ensures var d := Choose(t, s, now);
            && (s.batching < t.fifoBatch ==> !d.starts && d.write == w)
            && (d.write == w && !HeadExpired(s, d, now) ==> s.pos[d.rq] <= s.pos[x] && s.Of(w).next == Some(d.rq))
  {
    ChosenQueued(t, s, now);
    var side := s.Of(w);
    assert x in side.sorted;
    assert From(side.sorted, side.next, x);
    BeforeInOrder(s.pos, side.sorted, side.next.value, x);
  }

  /**
   While a request `x` waits above the one dispatched last and was neither added nor moved since, the next
   dispatch goes on in that direction as long as the batch is not full. And whenever it is in that direction,
   in the same batch or a new one, it takes the nearest such request above, unless the fifo has expired.
   */
  lemma GoesOnUp(t: Tunables, s: State, now: int, run: seq<Action>, c: Choice, s1: State, later: int, x: Rq)
    requires Follows(t, s, now, run) && c == Choose(t, s, now) && s1 == After(t, s, now, run)
    requires x in s1.Of(c.write).fifo && x in s1.pos && x !in Touched(run)
    requires c.rq in s.pos && s1.pos[x] > s.pos[c.rq]
    ensures Timed(s1) && Choose(t, s1, later).Choice? && Choose(t, s1, later).rq in s1.pos
    ensures var d := Choose(t, s1, later);
            && (Dispatch(t, s, now).batching < t.fifoBatch ==> !d.starts && d.write == c.write)
            && (d.write == c.write && !HeadExpired(s1, d, later) ==>
                  s1.pos[d.rq] <= s1.pos[x] && (NoFronts(run) ==> s.pos[c.rq] <= s1.pos[d.rq]))
  {
    AfterOnward(t, s, now, run, c, s1);
    OnwardUp(t, s1, c.write, s.pos[c.rq], Touched(run), later, x);
  }

  /** Where a batch starts after a dispatch in direction `w`. */
  lemma OnwardStart(t: Tunables, s: State, w: bool, p: int, now: int)
    requires SideFine(s, false) && SideFine(s, true) && s.Of(!w).next.None? && Choose(t, s, now).Choice?
    ensures var d := Choose(t, s, now);
            && d.rq in s.pos && s.Of(d.write).fifo != []
            && (d.starts && (d.write != w || HeadExpired(s, d, now)) ==> d.rq == s.Of(d.write).fifo[0])
            && (d.write == w && NotBack(s, w, p) ==> (d.starts && d.rq == s.Of(w).fifo[0]) || p <= s.pos[d.rq])
            && (s.batching >= t.fifoBatch ==> d.starts)
  {
    ChosenQueued(t, s, now);
  }

  /**
   A batch that starts goes to the head of the fifo when that has expired or when the last dispatch was in
   the other direction; otherwise it goes there or, when it can go on, not down the disk. A full batch is
   not gone on with.
   */
  lemma StartsAtFifo(t: Tunables, s: State, now: int, run: seq<Action>, c: Choice, s1: State, later: int)
    requires Follows(t, s, now, run) && c == Choose(t, s, now) && s1 == After(t, s, now, run)
    requires Timed(s1) && Choose(t, s1, later).Choice?
    ensures var d := Choose(t, s1, later);
            && c.rq in s.pos && d.rq in s1.pos && s1.Of(d.write).fifo != []
            && (d.starts && (d.write != c.write || HeadExpired(s1, d, later)) ==> d.rq == s1.Of(d.write).fifo[0])
            && (d.write == c.write && NoFronts(run) ==>
                  (d.starts && d.rq == s1.Of(d.write).fifo[0]) || s.pos[c.rq] <= s1.pos[d.rq])
            && (Dispatch(t, s, now).batching >= t.fifoBatch ==> d.starts)
  {
    AfterOnward(t, s, now, run, c, s1);
    OnwardStart(t, s1, c.write, s.pos[c.rq], later);
  }

  // ---------------------------------------------------------------------------
  // How long a batch is and which direction comes next
  // ---------------------------------------------------------------------------

  /** The size of the current batch after `a`, given `n` before it. */
  ghost function NextSize(t: Tunables, s: State, a: Action, n: int): int
    requires Timed(s)
  {
    if StartsBatch(t, s, a, false) || StartsBatch(t, s, a, true) then 1
    else if a.DoDispatch? && Choose(t, s, a.now).Choice? then n + 1
    else n
  }

  /** The number of read batches started past waiting writes since the last write batch. */
  ghost function NextReads(t: Tunables, s: State, a: Action, n: int): int
    requires Timed(s)
  {
    if StartsBatch(t, s, a, true) then 0
    else if StartsBatch(t, s, a, false) && s.write.fifo != [] then n + 1
    else n
  }

  /** How many requests the current batch has dispatched after `run`, given `n` before it. */
  ghost function BatchSize(t: Tunables, s: State, last: int, run: seq<Action>, n: int): int
    requires Inv(t, s, last) && Possible(t, s, last, run)
    decreases |run|
  {
    if run == [] then n
    else
      ActKeeps(t, s, run[0], last);
      BatchSize(t, Act(t, s, run[0]), run[0].now, run[1..], NextSize(t, s, run[0], n))
  }

  /** How many read batches were started past waiting writes since the last write batch, given `n` before `run`. */
  ghost function ReadsFirst(t: Tunables, s: State, last: int, run: seq<Action>, n: int): int
    requires Inv(t, s, last) && Possible(t, s, last, run)
    decreases |run|
  {
    if run == [] then n
    else
      ActKeeps(t, s, run[0], last);
      ReadsFirst(t, Act(t, s, run[0]), run[0].now, run[1..], NextReads(t, s, run[0], n))
  }

  lemma DispatchCounts(t: Tunables, s: State, now: int)
    requires Timed(s)
    ensures Dispatch(t, s, now).batching == NextSize(t, s, DoDispatch(now), s.batching)
    ensures Dispatch(t, s, now).starved == NextReads(t, s, DoDispatch(now), s.starved)
  {
    if Choose(t, s, now).Choice? {
      DispatchCounters(t, s, now);
    }
  }

  lemma IdleCounts(t: Tunables, s: State, a: Action, n: int)
    requires Timed(s) && !a.DoDispatch?
    ensures NextSize(t, s, a, n) == n && NextReads(t, s, a, n) == n
  {
  }

  lemma StepCounts(t: Tunables, s: State, a: Action)
    requires SideFine(s, false) && SideFine(s, true) && Enabled(s, a)
    ensures Act(t, s, a).batching == NextSize(t, s, a, s.batching)
    ensures Act(t, s, a).starved == NextReads(t, s, a, s.starved)
  {
    if a.DoDispatch? {
      DispatchCounts(t, s, a.now);
    } else {
      CountersKept(t, s, a);
      IdleCounts(t, s, a, s.batching);
      IdleCounts(t, s, a, s.starved);
    }
  }

  /** What the scheduler compares with fifo_batch is the size of the current batch, over every run. */
  lemma {:induction false} BatchCounted(t: Tunables, s: State, last: int, run: seq<Action>)
    requires Inv(t, s, last) && Possible(t, s, last, run)
    ensures Play(t, s, last, run).batching == BatchSize(t, s, last, run, s.batching)
    decreases |run|
  {
    if run != [] {
      ActKeeps(t, s, run[0], last);
      StepCounts(t, s, run[0]);
      BatchCounted(t, Act(t, s, run[0]), run[0].now, run[1..]);
    }
  }

  lemma {:induction false} ReadsCounted(t: Tunables, s: State, last: int, run: seq<Action>)
    requires Inv(t, s, last) && Possible(t, s, last, run)
    ensures Play(t, s, last, run).starved == ReadsFirst(t, s, last, run, s.starved)
    decreases |run|
  {
    if run != [] {
      ActKeeps(t, s, run[0], last);
      StepCounts(t, s, run[0]);
      ReadsCounted(t, Act(t, s, run[0]), run[0].now, run[1..]);
    }
  }

  /**
   Of two waiting directions a batch starts with reads until it has done so writes_starved times past
   waiting writes, and then, and only then, with writes. A direction that waits alone is not passed over.
   */
  lemma WritesWaitTheirTurn(t: Tunables, run: seq<Action>, now: int)
    requires Inv(t, INITIAL, 0) && Possible(t, INITIAL, 0, run)
    ensures var s := Play(t, INITIAL, 0, run);
            && Timed(s)
            && var c := Choose(t, s, now);
            c.Choice? && c.starts ==>
              if s.read.fifo != [] && s.write.fifo != []
              then c.write <==> ReadsFirst(t, INITIAL, 0, run, 0) >= t.Threshold()
              else s.Of(c.write).fifo != []
  {
    PlayInv(t, INITIAL, 0, run);
    ReadsCounted(t, INITIAL, 0, run);
  }

  // ---------------------------------------------------------------------------
  // When a request expires
  // ---------------------------------------------------------------------------

  /** No request is merged into `rq`. */
  ghost predicate NotMergedInto(run: seq<Action>, rq: Rq) {
    forall a :: a in run ==> !(a.DoMerge? && a.req == rq)
  }

  lemma StepTime(t: Tunables, s: State, a: Action, rq: Rq)
    requires SideFine(s, false) && SideFine(s, true) && Enabled(s, a) && rq in s.dir && rq in s.time
    requires !(a.DoMerge? && a.req == rq)
    ensures rq in Act(t, s, a).dir && rq in Act(t, s, a).time && Act(t, s, a).time[rq] == s.time[rq]
  {
  }

  lemma {:induction false} TimeKept(t: Tunables, s: State, last: int, run: seq<Action>, rq: Rq)
    requires Inv(t, s, last) && Possible(t, s, last, run) && rq in s.dir && rq in s.time && NotMergedInto(run, rq)
    ensures rq in Play(t, s, last, run).time && Play(t, s, last, run).time[rq] == s.time[rq]
    decreases |run|
  {
    if run != [] {
      ActKeeps(t, s, run[0], last);
      assert run[0] in run;
      StepTime(t, s, run[0], rq);
      TimeKept(t, Act(t, s, run[0]), run[0].now, run[1..], rq);
    }
  }

  /** A request expires its direction's expiry time after it was added, unless another is merged into it. */
  lemma ExpiresOnTime(t: Tunables, s: State, last: int, run: seq<Action>)
    requires Inv(t, s, last) && Possible(t, s, last, run) && run != [] && run[0].DoAdd?
    requires NotMergedInto(run, run[0].rq)
    ensures var s1, a := Play(t, s, last, run), run[0];
            a.rq in s1.time && s1.time[a.rq] == a.now + if a.write then t.writeExpire else t.readExpire
  {
    ActKeeps(t, s, run[0], last);
    TimeKept(t, Act(t, s, run[0]), run[0].now, run[1..], run[0].rq);
  }

  /**
   A request that takes over another expires when the first of the two would have, and takes the place of the
   other in the fifo if that was to expire earlier.
   */
  lemma MergeInherits(s: State, req: Rq, next: Rq)
    requires SideFine(s, false) && SideFine(s, true) && Queued(s, req) && req != next
    requires next in s.Of(s.dir[req]).fifo
    ensures var s1 := Merged(s, req, next);
            && Queued(s1, req) && s1.dir[req] == s.dir[req] && req in s1.time
            && s1.time[req] == (if s.time[next] < s.time[req] then s.time[next] else s.time[req])
            && (s.time[next] < s.time[req] ==> Ahead(s1, req) == Ahead(s, next))
            && next !in s1.Of(s.dir[req]).fifo
  {
    var l := s.Of(s.dir[req]).fifo;
    RemoveMembers(l, req);
    RemoveMembers(l, next);
    if s.time[next] < s.time[req] {
      EarlierFirst(s.time, l, next, req);
      RemoveIndex(l, req, next);
      ReplaceMembers(Remove(l, req), next, req);
      ReplaceIndexNew(Remove(l, req), next, req);
    }
  }
}
