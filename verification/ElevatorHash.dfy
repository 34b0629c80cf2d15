/**
 The merge hash of the elevator (block/elevator.c).

 Requests that may be back merged are kept in buckets by their end sector.  The index must follow
 every change of a request's end, so that a lookup finds what a scan of all requests would find.
 */
module ElevatorHash {
  import opened Options
  import opened Lists

  type Rq = nat

  const ENTRIES: nat := 64

  /** hash_long to six bits: any function of the block a sector lies in. */
  type HashFn = int -> nat

  function Bucket(h: HashFn, sector: int): (b: nat)
    ensures b < ENTRIES
  {
    h(sector / 8) % ENTRIES
  }

  datatype State = State(
    buckets: seq<seq<Rq>>,
    pos: map<Rq, int>, sectors: map<Rq, int>, mergeable: map<Rq, bool>,
    sorted: set<Rq>, nrSorted: int, lastMerge: Option<Rq>)
  {
    /** rq_hash_key: where the request ends. */
    function End(rq: Rq): int
      requires rq in pos && rq in sectors
    {
      pos[rq] + sectors[rq]
    }

    predicate Known(rq: Rq) {
      rq in pos && rq in sectors && rq in mergeable
    }
  }

  // ---------------------------------------------------------------------------
  // The operations
  // ---------------------------------------------------------------------------

  /** __elv_rqhash_del */
  function HashDel(buckets: seq<seq<Rq>>, rq: Rq): (r: seq<seq<Rq>>)
    ensures |r| == |buckets| && forall i :: 0 <= i < |r| ==> r[i] == Remove(buckets[i], rq)
  {
    seq(|buckets|, i requires 0 <= i < |buckets| => Remove(buckets[i], rq))
  }

  /** elv_rqhash_add */
  function Hashed(h: HashFn, s: State, rq: Rq): State
    requires |s.buckets| == ENTRIES && rq in s.pos && rq in s.sectors
  {
    var b := Bucket(h, s.End(rq));
    s.(buckets := s.buckets[b := [rq] + s.buckets[b]])
  }

  function Unhashed(s: State, rq: Rq): State {
    s.(buckets := HashDel(s.buckets, rq))
  }

  /** A request becomes known to the scheduler. */
  function Described(s: State, rq: Rq, pos: int, sectors: int, mergeable: bool): State {
    s.(pos := s.pos[rq := pos], sectors := s.sectors[rq := sectors], mergeable := s.mergeable[rq := mergeable],
       sorted := s.sorted + {rq}, nrSorted := s.nrSorted + 1)
  }

  function FirstMerge(s: State, rq: Rq): State {
    if s.lastMerge.None? then s.(lastMerge := Some(rq)) else s
  }

  /** The sorted insertion of __elv_add_request. */
  function Insert(h: HashFn, s: State, rq: Rq, pos: int, sectors: int, mergeable: bool): State
    requires |s.buckets| == ENTRIES
  {
    var t := Described(s, rq, pos, sectors, mergeable);
    if mergeable then FirstMerge(Hashed(h, t, rq), rq) else t
  }

  function Longer(s: State, rq: Rq, n: int): State
    requires rq in s.sectors
  {
    s.(sectors := s.sectors[rq := s.sectors[rq] + n], lastMerge := Some(rq))
  }

  /** A bio of n sectors goes to the back of a request, and elv_merged_request repositions it. */
  function BackMerged(h: HashFn, s: State, rq: Rq, n: int): State
    requires |s.buckets| == ENTRIES && rq in s.pos && rq in s.sectors
  {
    Hashed(h, Unhashed(Longer(s, rq, n), rq), rq)
  }

  /** A bio of n sectors goes to the front; elv_merged_request leaves the hash alone. */
  function FrontMerged(s: State, rq: Rq, n: int): State
    requires rq in s.pos && rq in s.sectors
  {
    Longer(s, rq, n).(pos := s.pos[rq := s.pos[rq] - n])
  }

  /** A request leaves the hash and the count. */
  function Dropped(s: State, rq: Rq): State {
    Unhashed(s, rq).(sorted := s.sorted - {rq}, nrSorted := s.nrSorted - 1)
  }

  /** attempt_merge: `rq` takes over the sectors of `next`, and elv_merge_requests drops `next`. */
  function MergedRequests(h: HashFn, s: State, rq: Rq, next: Rq): State
    requires |s.buckets| == ENTRIES && rq in s.pos && rq in s.sectors && next in s.sectors
  {
    Dropped(BackMerged(h, s, rq, s.sectors[next]), next)
  }

  /** What elv_dispatch_add_tail does to the index. */
  function Dispatched(s: State, rq: Rq): State {
    Dropped(s, rq).(lastMerge := if s.lastMerge == Some(rq) then None else s.lastMerge)
  }

  /** A request that has grown too large is marked as not mergeable. */
  function NoMerge(s: State, rq: Rq): State {
    s.(mergeable := s.mergeable[rq := false], lastMerge := if s.lastMerge == Some(rq) then None else s.lastMerge)
  }

  /** elv_rqhash_find in one bucket: what it finds, and the bucket without the requests it drops on the way. */
  function Scan(s: State, l: seq<Rq>, sector: int): (Option<Rq>, seq<Rq>)
    requires forall x :: x in l ==> s.Known(x)
  {
    if l == [] then (None, [])
    else
      assert s.Known(l[0]);
      if !s.mergeable[l[0]] then Scan(s, l[1..], sector)
      else if s.End(l[0]) == sector then (Some(l[0]), l)
      else var (r, rest) := Scan(s, l[1..], sector); (r, [l[0]] + rest)
  }

  // ---------------------------------------------------------------------------
  // The invariant
  // ---------------------------------------------------------------------------

  /** A bucket holds sorted requests that end in it, each once. */
  ghost predicate BucketFine(h: HashFn, s: State, i: nat)
    requires i < |s.buckets|
  {
    && NoDup(s.buckets[i])
    && forall x :: x in s.buckets[i] ==> x in s.sorted && s.Known(x) && Bucket(h, s.End(x)) == i
  }

  /** A request that may be merged is in the hash. */
  ghost predicate Indexed(h: HashFn, s: State, rq: Rq)
    requires |s.buckets| == ENTRIES
  {
    s.Known(rq) && (s.mergeable[rq] ==> rq in s.buckets[Bucket(h, s.End(rq))])
  }

  ghost predicate Inv(h: HashFn, s: State) {
    && |s.buckets| == ENTRIES
    && (forall i: nat :: i < ENTRIES ==> BucketFine(h, s, i))
    && (forall rq :: rq in s.sorted ==> Indexed(h, s, rq))
    && s.nrSorted == |s.sorted|
    && (s.lastMerge.Some? ==> s.lastMerge.value in s.sorted)
  }

  /** Some request that may be merged ends at the sector: what a scan of all requests would look for. */
  ghost predicate Candidate(s: State, rq: Rq, sector: int) {
    rq in s.sorted && s.Known(rq) && s.mergeable[rq] && s.End(rq) == sector
  }

  lemma {:induction false} ScanExact(s: State, l: seq<Rq>, sector: int)
    requires forall x :: x in l ==> s.Known(x)
    ensures var (r, rest) := Scan(s, l, sector);
            && (r.Some? ==> r.value in l && s.mergeable[r.value] && s.End(r.value) == sector)
            && (r.None? ==> forall x :: x in l && s.mergeable[x] ==> s.End(x) != sector)
  {
    if l != [] {
      ScanExact(s, l[1..], sector);
    }
  }

  lemma {:induction false} ScanKeeps(s: State, l: seq<Rq>, sector: int)
    requires NoDup(l) && forall x :: x in l ==> s.Known(x)
    ensures var (r, rest) := Scan(s, l, sector);
            && NoDup(rest) && (forall x :: x in rest ==> x in l)
            && (forall x :: x in l && s.mergeable[x] ==> x in rest)
  {
    if l != [] {
      ScanKeeps(s, l[1..], sector);
    }
  }

  // ---------------------------------------------------------------------------
  // Every operation keeps the index
  // ---------------------------------------------------------------------------

  /** The index of all requests but one, which is in no bucket. */
  ghost predicate InvBut(h: HashFn, s: State, rq: Rq) {
    && |s.buckets| == ENTRIES
    && (forall i: nat :: i < ENTRIES ==> BucketFine(h, s, i) && rq !in s.buckets[i])
    && (forall x :: x in s.sorted && x != rq ==> Indexed(h, s, x))
    && s.nrSorted == |s.sorted| && rq in s.sorted && s.Known(rq)
    && (s.lastMerge.Some? ==> s.lastMerge.value in s.sorted)
  }

  /** A new request is in no bucket. */
  lemma DescribedKeeps(h: HashFn, s: State, rq: Rq, pos: int, sectors: int, mergeable: bool)
    requires Inv(h, s) && rq !in s.sorted
    ensures InvBut(h, Described(s, rq, pos, sectors, mergeable), rq)
  {
    var s1 := Described(s, rq, pos, sectors, mergeable);
    forall i: nat | i < ENTRIES ensures BucketFine(h, s1, i) && rq !in s1.buckets[i] {
      assert BucketFine(h, s, i);
    }
    forall x | x in s1.sorted && x != rq ensures Indexed(h, s1, x) {
      assert Indexed(h, s, x);
    }
  }

  lemma UnhashedFine(h: HashFn, s: State, rq: Rq, i: nat)
    requires i < |s.buckets| && NoDup(s.buckets[i])
    requires forall x :: x in s.buckets[i] && x != rq ==> x in s.sorted && s.Known(x) && Bucket(h, s.End(x)) == i
    ensures BucketFine(h, Unhashed(s, rq), i) && rq !in Unhashed(s, rq).buckets[i]
  {
    RemoveMembers(s.buckets[i], rq);
  }

  /** A request that has changed is taken out of the bucket it was in. */
  lemma UnhashedKeeps(h: HashFn, s: State, rq: Rq, n: int)
    requires Inv(h, s) && rq in s.sorted && s.Known(rq)
    ensures InvBut(h, Unhashed(Longer(s, rq, n), rq), rq)
  {
    var t := Longer(s, rq, n);
    var s1 := Unhashed(t, rq);
    forall i: nat | i < ENTRIES ensures BucketFine(h, s1, i) && rq !in s1.buckets[i] {
      assert BucketFine(h, s, i);
      UnhashedFine(h, t, rq, i);
    }
    forall x | x in s1.sorted && x != rq ensures Indexed(h, s1, x) {
      assert Indexed(h, s, x) && BucketFine(h, s, Bucket(h, s.End(x)));
      RemoveMembers(s.buckets[Bucket(h, s.End(x))], rq);
    }
  }

  lemma HashedFine(h: HashFn, s: State, rq: Rq, i: nat)
    requires |s.buckets| == ENTRIES && i < ENTRIES && BucketFine(h, s, i) && rq !in s.buckets[i]
    requires rq in s.sorted && s.Known(rq)
    ensures BucketFine(h, Hashed(h, s, rq), i)
  {
  }

  /** A request put into the bucket of its end completes the index. */
  lemma HashedKeeps(h: HashFn, s: State, rq: Rq)
    requires InvBut(h, s, rq)
    ensures Inv(h, Hashed(h, s, rq))
  {
    var s1 := Hashed(h, s, rq);
    forall i: nat | i < ENTRIES ensures BucketFine(h, s1, i) {
      assert BucketFine(h, s, i);
      HashedFine(h, s, rq, i);
    }
    forall x | x in s1.sorted ensures Indexed(h, s1, x) {
      if x != rq {
        assert Indexed(h, s, x);
      }
    }
  }

  /** Which request was merged last does not matter to the index. */
  lemma LastMergeKeeps(h: HashFn, s: State, last: Option<Rq>)
    requires Inv(h, s) && (last.Some? ==> last.value in s.sorted)
    ensures Inv(h, s.(lastMerge := last))
  {
    var s1 := s.(lastMerge := last);
    forall i: nat | i < ENTRIES ensures BucketFine(h, s1, i) {
      assert BucketFine(h, s, i);
    }
    forall x | x in s1.sorted ensures Indexed(h, s1, x) {
      assert Indexed(h, s, x);
    }
  }

  /** A request that may not be merged need not be in the hash. */
  lemma NotHashedKeeps(h: HashFn, s: State, rq: Rq)
    requires InvBut(h, s, rq) && !s.mergeable[rq]
    ensures Inv(h, s)
  {
    forall x | x in s.sorted ensures Indexed(h, s, x) {
    }
  }

  lemma InsertKeeps(h: HashFn, s: State, rq: Rq, pos: int, sectors: int, mergeable: bool)
    requires Inv(h, s) && rq !in s.sorted
    ensures Inv(h, Insert(h, s, rq, pos, sectors, mergeable))
  {
    var t := Described(s, rq, pos, sectors, mergeable);
    DescribedKeeps(h, s, rq, pos, sectors, mergeable);
    if mergeable {
      HashedKeeps(h, t, rq);
      LastMergeKeeps(h, Hashed(h, t, rq), FirstMerge(Hashed(h, t, rq), rq).lastMerge);
    } else {
      NotHashedKeeps(h, t, rq);
    }
  }

  lemma BackMergedKeeps(h: HashFn, s: State, rq: Rq, n: int)
    requires Inv(h, s) && rq in s.sorted
    ensures s.Known(rq) && Inv(h, BackMerged(h, s, rq, n))
  {
    assert Indexed(h, s, rq);
    UnhashedKeeps(h, s, rq, n);
    HashedKeeps(h, Unhashed(Longer(s, rq, n), rq), rq);
  }

  /** A front merge moves the start and the length but not the end, so the request is still where it belongs. */
  lemma FrontMergedKeeps(h: HashFn, s: State, rq: Rq, n: int)
    requires Inv(h, s) && rq in s.sorted
    ensures s.Known(rq) && FrontMerged(s, rq, n).End(rq) == s.End(rq) && Inv(h, FrontMerged(s, rq, n))
  {
    assert Indexed(h, s, rq);
    var s1 := FrontMerged(s, rq, n);
    forall i: nat | i < ENTRIES ensures BucketFine(h, s1, i) {
      assert BucketFine(h, s, i);
    }
    forall x | x in s1.sorted ensures Indexed(h, s1, x) {
      assert Indexed(h, s, x);
    }
  }

  /** A request that is not the one merged last may leave. */
  lemma DroppedKeeps(h: HashFn, s: State, rq: Rq)
    requires Inv(h, s) && rq in s.sorted && s.lastMerge != Some(rq)
    ensures Inv(h, Dropped(s, rq))
  {
    var s1 := Dropped(s, rq);
    forall i: nat | i < ENTRIES ensures BucketFine(h, s1, i) {
      assert BucketFine(h, s, i);
      RemoveMembers(s.buckets[i], rq);
    }
    forall x | x in s1.sorted ensures Indexed(h, s1, x) {
      assert Indexed(h, s, x) && BucketFine(h, s, Bucket(h, s.End(x)));
      RemoveMembers(s.buckets[Bucket(h, s.End(x))], rq);
    }
  }

  lemma DispatchedKeeps(h: HashFn, s: State, rq: Rq)
    requires Inv(h, s) && rq in s.sorted
    ensures Inv(h, Dispatched(s, rq))
  {
    if s.lastMerge == Some(rq) {
      LastMergeKeeps(h, s, None);
      DroppedKeeps(h, s.(lastMerge := None), rq);
      assert Dispatched(s, rq) == Dropped(s.(lastMerge := None), rq);
    } else {
      DroppedKeeps(h, s, rq);
    }
  }

  lemma MergedRequestsKeeps(h: HashFn, s: State, rq: Rq, next: Rq)
    requires Inv(h, s) && rq in s.sorted && next in s.sorted && rq != next
    ensures s.Known(rq) && s.Known(next) && Inv(h, MergedRequests(h, s, rq, next))
  {
    assert Indexed(h, s, next);
    BackMergedKeeps(h, s, rq, s.sectors[next]);
    DroppedKeeps(h, BackMerged(h, s, rq, s.sectors[next]), next);
  }

  lemma NoMergeKeeps(h: HashFn, s: State, rq: Rq)
    requires Inv(h, s) && rq in s.sorted
    ensures Inv(h, NoMerge(s, rq))
  {
    assert Indexed(h, s, rq);
    var s1 := NoMerge(s, rq);
    forall i: nat | i < ENTRIES ensures BucketFine(h, s1, i) {
      assert BucketFine(h, s, i);
    }
    forall x | x in s1.sorted ensures Indexed(h, s1, x) {
      assert Indexed(h, s, x);
    }
  }

  // ---------------------------------------------------------------------------
  // Finding
  // ---------------------------------------------------------------------------

  /** elv_rqhash_find: what it finds. */
  ghost function Found(h: HashFn, s: State, sector: int): Option<Rq>
    requires Inv(h, s)
  {
    assert BucketFine(h, s, Bucket(h, sector));
    Scan(s, s.buckets[Bucket(h, sector)], sector).0
  }

  /** elv_rqhash_find: the index afterwards. */
  ghost function AfterFind(h: HashFn, s: State, sector: int): State
    requires Inv(h, s)
  {
    var b := Bucket(h, sector);
    assert BucketFine(h, s, b);
    s.(buckets := s.buckets[b := Scan(s, s.buckets[b], sector).1])
  }

  /** A lookup finds a request that may be merged and ends at the sector exactly when there is one. */
  lemma FindExact(h: HashFn, s: State, sector: int, rq: Rq)
    requires Inv(h, s)
    ensures Found(h, s, sector).Some? ==> Candidate(s, Found(h, s, sector).value, sector)
    ensures Candidate(s, rq, sector) ==> Found(h, s, sector).Some?
  {
    var b := Bucket(h, sector);
    assert BucketFine(h, s, b);
    ScanExact(s, s.buckets[b], sector);
    if Candidate(s, rq, sector) {
      assert Indexed(h, s, rq);
    }
  }

  /** What a lookup drops on its way could not have been merged. */
  lemma FindKeeps(h: HashFn, s: State, sector: int)
    requires Inv(h, s)
    ensures Inv(h, AfterFind(h, s, sector))
  {
    var b, s1 := Bucket(h, sector), AfterFind(h, s, sector);
    assert BucketFine(h, s, b);
    ScanKeeps(s, s.buckets[b], sector);
    forall i: nat | i < ENTRIES ensures BucketFine(h, s1, i) {
      assert BucketFine(h, s, i);
    }
    forall x | x in s1.sorted ensures Indexed(h, s1, x) {
      assert Indexed(h, s, x);
    }
  }

  // ---------------------------------------------------------------------------
  // Runs
  // ---------------------------------------------------------------------------

  datatype Action =
    | DoInsert(rq: Rq, pos: int, sectors: int, mergeable: bool)
    | DoBackMerge(rq: Rq, n: int)
    | DoFrontMerge(rq: Rq, n: int)
    | DoMerge(rq: Rq, next: Rq)
    | DoDispatch(rq: Rq)
    | DoNoMerge(rq: Rq)
    | DoFind(sector: int)

  ghost predicate Enabled(s: State, a: Action) {
    match a
    case DoInsert(rq, _, _, _) => rq !in s.sorted
    case DoMerge(rq, next) => rq in s.sorted && next in s.sorted && rq != next
    case DoFind(_) => true
    case _ => a.rq in s.sorted
  }

  ghost function Act(h: HashFn, s: State, a: Action): (r: State)
    requires Inv(h, s) && Enabled(s, a)
    ensures Inv(h, r)
  {
    match a
    case DoInsert(rq, pos, sectors, mergeable) =>
      InsertKeeps(h, s, rq, pos, sectors, mergeable); Insert(h, s, rq, pos, sectors, mergeable)
    case DoBackMerge(rq, n) => BackMergedKeeps(h, s, rq, n); BackMerged(h, s, rq, n)
    case DoFrontMerge(rq, n) => FrontMergedKeeps(h, s, rq, n); FrontMerged(s, rq, n)
    case DoMerge(rq, next) => MergedRequestsKeeps(h, s, rq, next); MergedRequests(h, s, rq, next)
    case DoDispatch(rq) => DispatchedKeeps(h, s, rq); Dispatched(s, rq)
    case DoNoMerge(rq) => NoMergeKeeps(h, s, rq); NoMerge(s, rq)
    case DoFind(sector) => FindKeeps(h, s, sector); AfterFind(h, s, sector)
  }

  ghost predicate Possible(h: HashFn, s: State, run: seq<Action>)
    requires Inv(h, s)
    decreases |run|
  {
    run == [] || (Enabled(s, run[0]) && Possible(h, Act(h, s, run[0]), run[1..]))
  }

  ghost function Play(h: HashFn, s: State, run: seq<Action>): (r: State)
    requires Inv(h, s) && Possible(h, s, run)
    decreases |run|
  {
    if run == [] then s else Play(h, Act(h, s, run[0]), run[1..])
  }

  const INITIAL := State(seq(ENTRIES, _ => []), map[], map[], map[], {}, 0, None)

  lemma InitialInv(h: HashFn)
    ensures Inv(h, INITIAL)
  {
  }

  lemma {:induction false} PlayInv(h: HashFn, s: State, run: seq<Action>)
    requires Inv(h, s) && Possible(h, s, run)
    ensures Inv(h, Play(h, s, run))
    decreases |run|
  {
    if run != [] {
      PlayInv(h, Act(h, s, run[0]), run[1..]);
    }
  }

  /** After any run, a lookup agrees with a scan of all requests of the scheduler. */
  lemma LookupAfterRun(h: HashFn, run: seq<Action>, sector: int, rq: Rq)
    requires Inv(h, INITIAL) && Possible(h, INITIAL, run)
    ensures Inv(h, Play(h, INITIAL, run))
    ensures var s := Play(h, INITIAL, run);
            && (Found(h, s, sector).Some? ==> Candidate(s, Found(h, s, sector).value, sector))
            && (Candidate(s, rq, sector) ==> Found(h, s, sector).Some?)
  {
    PlayInv(h, INITIAL, run);
    FindExact(h, Play(h, INITIAL, run), sector, rq);
  }

  /** What an action makes of the one-hit cache, by its kind alone. */
  function CacheAfter(cached: Option<Rq>, a: Action): Option<Rq> {
    match a
    case DoInsert(rq, _, _, mergeable) => if mergeable && cached == None then Some(rq) else cached
    case DoBackMerge(rq, _) => Some(rq)
    case DoFrontMerge(rq, _) => Some(rq)
    case DoMerge(rq, _) => Some(rq)
    case DoDispatch(rq) => if cached == Some(rq) then None else cached
    case DoNoMerge(rq) => if cached == Some(rq) then None else cached
    case DoFind(_) => cached
  }

  function CacheOf(cached: Option<Rq>, run: seq<Action>): Option<Rq>
    decreases |run|
  {
    if run == [] then cached else CacheOf(CacheAfter(cached, run[0]), run[1..])
  }

  lemma CacheStep(h: HashFn, s: State, a: Action)
    requires Inv(h, s) && Enabled(s, a)
    ensures Act(h, s, a).lastMerge == CacheAfter(s.lastMerge, a)
  {
  }

  /**
   After any run the one-hit cache holds the request that was merged into last, or one that was inserted while
   it was empty, until that request is dispatched or may no longer be merged.
   */
  lemma {:induction false} CacheAfterRun(h: HashFn, s: State, run: seq<Action>)
    requires Inv(h, s) && Possible(h, s, run)
    ensures Play(h, s, run).lastMerge == CacheOf(s.lastMerge, run)
    decreases |run|
  {
    if run != [] {
      CacheStep(h, s, run[0]);
      CacheAfterRun(h, Act(h, s, run[0]), run[1..]);
    }
  }
}
