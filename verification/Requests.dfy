/**
 Requests as chains of bios: merging bios and requests (block/blk-merge.c, the merge functions of
 block/blk-core.c and elv_try_merge of block/elevator.c).

 A request covers one contiguous range of sectors, tiled by its bios in order; its segment counter
 stands for a legal division of its vectors whose first and last segments are no longer than what
 the first and last bio record.
 */
module Requests {
  import opened Segments

  const SECTOR: nat := 512

  /** A bio that carries data; `front` and `back` are bi_seg_front_size and bi_seg_back_size. */
  datatype Bio = Bio(
    id: nat, sector: int, size: nat, vecs: seq<Vec>,
    front: nat, back: nat, physSegments: nat, segValid: bool)
  {
    function Sectors(): nat {
      size / SECTOR
    }
  }

  function Max(a: nat, b: nat): nat {
    if a < b then b else a
  }

  function Length(vecs: seq<Vec>): nat {
    if vecs == [] then 0 else vecs[0].len + Length(vecs[1..])
  }

  /** The vectors of a chain of bios, in order. */
  function Vecs(bios: seq<Bio>): seq<Vec> {
    if bios == [] then [] else bios[0].vecs + Vecs(bios[1..])
  }

  function TotalSize(bios: seq<Bio>): nat {
    if bios == [] then 0 else bios[0].size + TotalSize(bios[1..])
  }

  /** Whole sectors of data, at least one. */
  ghost predicate Carries(b: Bio) {
    b.vecs != [] && b.size == Length(b.vecs) && b.size > 0 && b.size % SECTOR == 0
  }

  /** The bios follow one another on the disk, from `sector` on. */
  ghost predicate Tiles(bios: seq<Bio>, sector: int) {
    bios == [] || (bios[0].sector == sector && Tiles(bios[1..], sector + bios[0].Sectors()))
  }

  /** The same data in the same place; only the segment bookkeeping may differ. */
  predicate SameData(a: Bio, b: Bio) {
    a.id == b.id && a.sector == b.sector && a.size == b.size && a.vecs == b.vecs
  }

  predicate SameChain(a: seq<Bio>, b: seq<Bio>) {
    |a| == |b| && forall i :: 0 <= i < |a| ==> SameData(a[i], b[i])
  }

  // ---------------------------------------------------------------------------
  // Counting segments
  // ---------------------------------------------------------------------------

  /** The division of __blk_recalc_rq_segments: greedy, but a high page never shares a segment. */
  function RecalcFrom(l: Limits, highPrev: bool, prev: Vec, len: nat, vecs: seq<Vec>): (cuts: seq<bool>)
    ensures |cuts| == |vecs|
    decreases |vecs|
  {
    if vecs == [] then []
    else
      var v := vecs[0];
      var fits := !l.High(v) && !highPrev && l.Linked(prev, v) && len + v.len <= l.maxSegmentSize;
      [!fits] + RecalcFrom(l, if fits then highPrev else l.High(v), v, if fits then len + v.len else v.len, vecs[1..])
  }

  function RecalcCuts(l: Limits, vecs: seq<Vec>): (cuts: seq<bool>)
    requires vecs != []
    ensures |cuts| == |vecs|
  {
    [true] + RecalcFrom(l, l.High(vecs[0]), vecs[0], vecs[0].len, vecs[1..])
  }

  lemma {:induction false} RecalcLegalFrom(l: Limits, highPrev: bool, prev: Vec, len: nat, vecs: seq<Vec>)
    ensures LegalFrom(l, prev, len, vecs, RecalcFrom(l, highPrev, prev, len, vecs))
    decreases |vecs|
  {
    if vecs != [] {
      var v := vecs[0];
      var fits := !l.High(v) && !highPrev && l.Linked(prev, v) && len + v.len <= l.maxSegmentSize;
      RecalcLegalFrom(l, if fits then highPrev else l.High(v), v, if fits then len + v.len else v.len, vecs[1..]);
    }
  }

  lemma RecalcLegal(l: Limits, vecs: seq<Vec>)
    requires vecs != []
    ensures Legal(l, vecs, RecalcCuts(l, vecs))
  {
    RecalcLegalFrom(l, l.High(vecs[0]), vecs[0], vecs[0].len, vecs[1..]);
  }

  /** A high page shares no segment, with `highPrev` saying whether the vector before is one. */
  ghost predicate ApartFrom(l: Limits, highPrev: bool, vecs: seq<Vec>, cuts: seq<bool>)
    requires |vecs| == |cuts|
    decreases |vecs|
  {
    vecs == [] || ((l.High(vecs[0]) || highPrev ==> cuts[0]) && ApartFrom(l, l.High(vecs[0]), vecs[1..], cuts[1..]))
  }

  /** A legal division in which every high page is a segment of its own. */
  ghost predicate LegalApart(l: Limits, vecs: seq<Vec>, cuts: seq<bool>) {
    Legal(l, vecs, cuts) && ApartFrom(l, l.High(vecs[0]), vecs[1..], cuts[1..])
  }

  lemma {:induction false} RecalcApartFrom(l: Limits, prev: Vec, len: nat, vecs: seq<Vec>)
    ensures ApartFrom(l, l.High(prev), vecs, RecalcFrom(l, l.High(prev), prev, len, vecs))
    decreases |vecs|
  {
    if vecs != [] {
      var v := vecs[0];
      var fits := !l.High(v) && !l.High(prev) && l.Linked(prev, v) && len + v.len <= l.maxSegmentSize;
      RecalcApartFrom(l, v, if fits then len + v.len else v.len, vecs[1..]);
    }
  }

  /**
   The count stays ahead of any other division that keeps high pages apart, as greedy does: if it has
   opened fewer segments (`ahead`), or as many and its open segment is no longer, it never opens more.
   */
  lemma {:induction false} RecalcAhead(l: Limits, prev: Vec, g: nat, o: nat, vecs: seq<Vec>, cuts: seq<bool>,
                                       ahead: bool)
    requires |vecs| == |cuts| && LegalFrom(l, prev, o, vecs, cuts) && ApartFrom(l, l.High(prev), vecs, cuts)
    requires ahead || g <= o
    ensures Count(RecalcFrom(l, l.High(prev), prev, g, vecs)) <= Count(cuts) + if ahead then 1 else 0
    decreases |vecs|
  {
    if vecs != [] {
      var v := vecs[0];
      var fits := !l.High(v) && !l.High(prev) && l.Linked(prev, v) && g + v.len <= l.maxSegmentSize;
      var g' := if fits then g + v.len else v.len;
      var o' := if cuts[0] then v.len else o + v.len;
      var ahead' := if cuts[0] == !fits then ahead else cuts[0];
      RecalcAhead(l, v, g', o', vecs[1..], cuts[1..], ahead');
    }
  }

  /** The count is the least number of segments that keep every high page apart, and one can have as few. */
  lemma RecalcMinimal(l: Limits, vecs: seq<Vec>)
    requires vecs != []
    ensures LegalApart(l, vecs, RecalcCuts(l, vecs))
    ensures forall cuts :: LegalApart(l, vecs, cuts) ==> Count(RecalcCuts(l, vecs)) <= Count(cuts)
  {
    RecalcLegal(l, vecs);
    RecalcApartFrom(l, vecs[0], vecs[0].len, vecs[1..]);
    forall cuts | LegalApart(l, vecs, cuts) ensures Count(RecalcCuts(l, vecs)) <= Count(cuts) {
      RecalcAhead(l, vecs[0], vecs[0].len, vecs[0].len, vecs[1..], cuts[1..], false);
    }
  }

  ghost predicate AllLow(l: Limits, vecs: seq<Vec>) {
    forall v :: v in vecs ==> !l.High(v)
  }

  lemma {:induction false} LowApart(l: Limits, vecs: seq<Vec>, cuts: seq<bool>)
    requires |vecs| == |cuts| && AllLow(l, vecs)
    ensures ApartFrom(l, false, vecs, cuts)
    decreases |vecs|
  {
    if vecs != [] {
      assert vecs[0] in vecs;
      LowApart(l, vecs[1..], cuts[1..]);
    }
  }

  /** Without high pages it is the number of scatterlist entries. */
  lemma RecalcExact(l: Limits, vecs: seq<Vec>)
    requires vecs != [] && AllLow(l, vecs)
    ensures Count(RecalcCuts(l, vecs)) == |Scatter(l, vecs)|
  {
    var cuts := GreedyLegal(l, vecs);
    assert vecs[0] in vecs;
    LowApart(l, vecs[1..], cuts[1..]);
    RecalcMinimal(l, vecs);
    ScatterCount(l, vecs);
  }

  /** The sizes recorded with the first and the last bio of a chain. */
  function Measured(bios: seq<Bio>, first: nat, last: nat): (r: seq<Bio>)
    requires bios != []
    ensures |r| == |bios|
  {
    var n := |bios| - 1;
    var b1 := bios[0 := bios[0].(front := Max(bios[0].front, first))];
    b1[n := b1[n].(back := Max(b1[n].back, last))]
  }

  /** What __blk_recalc_rq_segments keeps while it scans: its local variables. */
  datatype Scanner = Scanner(nr: nat, highPrev: bool, prev: Vec, segSize: nat, front: nat)

  /**
   With `rest` still to come, what has been counted and measured so far completes to the division of
   all of `vecs`.
   */
  ghost predicate Scan(l: Limits, vecs: seq<Vec>, rest: seq<Vec>, front0: nat, s: Scanner) {
    && vecs != []
    && var all := RecalcCuts(l, vecs);
       if s.nr == 0 then rest == vecs && s.highPrev && s.front == front0
       else
         var cuts := RecalcFrom(l, s.highPrev, s.prev, s.segSize, rest);
         && Count(all) == s.nr + Count(cuts)
         && LastSize(vecs, all) == LastFrom(s.segSize, rest, cuts)
         && (if s.nr == 1 then s.front == front0 && FirstSize(vecs, all) == OpenSize(s.segSize, rest, cuts)
             else s.front == Max(front0, FirstSize(vecs, all)))
  }

  /** One vector: it extends the open segment or starts a new one. */
  method ScanVec(l: Limits, v: Vec, s: Scanner, ghost vecs: seq<Vec>, ghost rest: seq<Vec>, ghost front0: nat)
    returns (r: Scanner)
    requires rest != [] && rest[0] == v && Scan(l, vecs, rest, front0, s)
    ensures Scan(l, vecs, rest[1..], front0, r) && r.nr > 0
  {
    var high := l.High(v);
    if !high && !s.highPrev && l.cluster && s.segSize + v.len <= l.maxSegmentSize &&
       l.mergeable(s.prev, v) && l.boundary(s.prev, v)
    {
      r := s.(segSize := s.segSize + v.len, prev := v);
    } else {
      var front := if s.nr == 1 && s.segSize > s.front then s.segSize else s.front;
      r := Scanner(s.nr + 1, high, v, v.len, front);
    }
  }

  /** The vectors of one bio. */
  method ScanBio(l: Limits, bio: Bio, s: Scanner, ghost vecs: seq<Vec>, ghost after: seq<Vec>, ghost front0: nat)
    returns (r: Scanner)
    requires bio.vecs != [] && Scan(l, vecs, bio.vecs + after, front0, s)
    ensures Scan(l, vecs, after, front0, r) && r.nr > 0
  {
    r := s;
    var j := 0;
    assert bio.vecs[0..] == bio.vecs;
    while j < |bio.vecs|
      invariant 0 <= j <= |bio.vecs|
      invariant Scan(l, vecs, bio.vecs[j..] + after, front0, r)
      invariant j > 0 ==> r.nr > 0
    {
      ghost var rest := bio.vecs[j..] + after;
      assert rest[1..] == bio.vecs[j + 1..] + after;
      r := ScanVec(l, bio.vecs[j], r, vecs, rest, front0);
      j := j + 1;
    }
    assert bio.vecs[j..] + after == after;
  }

  /** __blk_recalc_rq_segments on a chain: the count, and the chain with its sizes recorded. */
  method RecalcSegments(l: Limits, bios: seq<Bio>) returns (nr: nat, out: seq<Bio>)
    requires forall b :: b in bios ==> b.vecs != []
    ensures bios == [] ==> nr == 0 && out == []
    ensures bios != [] ==>
              var vecs := Vecs(bios);
              && vecs != []
              && nr == Count(RecalcCuts(l, vecs))
              && (forall cuts :: LegalApart(l, vecs, cuts) ==> nr <= Count(cuts))
              && (AllLow(l, vecs) ==> nr == |Scatter(l, vecs)|)
              && out == Measured(bios, FirstSize(vecs, RecalcCuts(l, vecs)), LastSize(vecs, RecalcCuts(l, vecs)))
  {
    if bios == [] {
      return 0, [];
    }
    ghost var vecs := Vecs(bios);
    var s := Scanner(0, true, Vec(0, 0, 0), 0, bios[0].front);
    var i := 0;
    assert bios[0..] == bios;
    while i < |bios|
      invariant 0 <= i <= |bios|
      invariant Scan(l, vecs, Vecs(bios[i..]), bios[0].front, s)
      invariant i > 0 ==> s.nr > 0
    {
      assert bios[i..][1..] == bios[i + 1..];
      s := ScanBio(l, bios[i], s, vecs, Vecs(bios[i + 1..]), bios[0].front);
      i := i + 1;
    }
    nr := s.nr;
    var front := if nr == 1 && s.segSize > s.front then s.segSize else s.front;
    var n := |bios| - 1;
    out := bios[0 := bios[0].(front := front)];
    if s.segSize > out[n].back {
      out := out[n := out[n].(back := s.segSize)];
    }
    RecalcMinimal(l, vecs);
    if AllLow(l, vecs) {
      RecalcExact(l, vecs);
    }
  }

  // ---------------------------------------------------------------------------
  // What a request's counters stand for
  // ---------------------------------------------------------------------------

  /** `nr` counts the segments of the legal division `cuts`, and the recorded sizes do not under-estimate. */
  ghost predicate Counts(l: Limits, bios: seq<Bio>, nr: nat, cuts: seq<bool>) {
    && bios != []
    && Legal(l, Vecs(bios), cuts)
    && Count(cuts) == nr
    && FirstSize(Vecs(bios), cuts) <= bios[0].front
    && LastSize(Vecs(bios), cuts) <= bios[|bios| - 1].back
  }

  /** The recorded sizes are those of the first and the last segment. */
  ghost predicate Exact(bios: seq<Bio>, cuts: seq<bool>) {
    && bios != [] && |cuts| == |Vecs(bios)| > 0
    && FirstSize(Vecs(bios), cuts) == bios[0].front
    && LastSize(Vecs(bios), cuts) == bios[|bios| - 1].back
  }

  /** A bio whose segments have been counted, if it says so, has been counted right. */
  ghost predicate BioFine(l: Limits, b: Bio) {
    Carries(b) && (b.segValid ==> exists cuts :: Counts(l, [b], b.physSegments, cuts))
  }

  ghost predicate ChainFine(bios: seq<Bio>, sector: int, dataLen: nat) {
    && (forall b :: b in bios ==> Carries(b))
    && Tiles(bios, sector)
    && dataLen == TotalSize(bios)
  }

  lemma {:induction false} VecsAppend(a: seq<Bio>, b: seq<Bio>)
    ensures Vecs(a + b) == Vecs(a) + Vecs(b)
    ensures TotalSize(a + b) == TotalSize(a) + TotalSize(b)
  {
    if a == [] {
      assert a + b == b;
    } else {
      assert (a + b)[1..] == a[1..] + b;
      VecsAppend(a[1..], b);
    }
  }

  lemma {:induction false} SameVecs(a: seq<Bio>, b: seq<Bio>)
    requires SameChain(a, b)
    ensures Vecs(a) == Vecs(b) && TotalSize(a) == TotalSize(b)
    ensures forall sector :: Tiles(a, sector) == Tiles(b, sector)
  {
    if a != [] {
      SameVecs(a[1..], b[1..]);
    }
  }

  lemma {:induction false} TilesAppend(a: seq<Bio>, b: seq<Bio>, sector: int)
    requires forall x :: x in a ==> Carries(x)
    ensures Tiles(a + b, sector) <==> Tiles(a, sector) && Tiles(b, sector + TotalSize(a) / SECTOR)
    ensures TotalSize(a) % SECTOR == 0
  {
    if a == [] {
      assert a + b == b;
    } else {
      assert Carries(a[0]);
      assert (a + b)[1..] == a[1..] + b;
      TilesAppend(a[1..], b, sector + a[0].Sectors());
    }
  }

  /** Larger recorded sizes are as good. */
  lemma CountsGrow(l: Limits, bios: seq<Bio>, bios': seq<Bio>, nr: nat, cuts: seq<bool>)
    requires Counts(l, bios, nr, cuts) && SameChain(bios, bios')
    requires bios[0].front <= bios'[0].front && bios[|bios| - 1].back <= bios'[|bios| - 1].back
    ensures Counts(l, bios', nr, cuts)
  {
    SameVecs(bios, bios');
  }

  /** What __blk_recalc_rq_segments leaves is counted right. */
  lemma RecalcCounts(l: Limits, bios: seq<Bio>)
    requires bios != [] && Vecs(bios) != []
    ensures var cuts := RecalcCuts(l, Vecs(bios));
            var out := Measured(bios, FirstSize(Vecs(bios), cuts), LastSize(Vecs(bios), cuts));
            Counts(l, out, Count(cuts), cuts) && SameChain(bios, out)
  {
    var cuts := RecalcCuts(l, Vecs(bios));
    var out := Measured(bios, FirstSize(Vecs(bios), cuts), LastSize(Vecs(bios), cuts));
    RecalcLegal(l, Vecs(bios));
    SameVecs(bios, out);
  }

  /** And of a chain that has not been measured before, the recorded sizes are exact. */
  lemma {:induction false} RecalcMeasures(l: Limits, bios: seq<Bio>, cuts: seq<bool>)
    requires bios != [] && |cuts| == |Vecs(bios)| > 0 && bios[0].front == 0 && bios[|bios| - 1].back == 0
    ensures Exact(Measured(bios, FirstSize(Vecs(bios), cuts), LastSize(Vecs(bios), cuts)), cuts)
  {
    SameVecs(bios, Measured(bios, FirstSize(Vecs(bios), cuts), LastSize(Vecs(bios), cuts)));
  }

  /** Chains one after the other, with all their segments. */
  lemma AppendCounts(l: Limits, a: seq<Bio>, nra: nat, ca: seq<bool>, b: seq<Bio>, nrb: nat, cb: seq<bool>)
    requires Counts(l, a, nra, ca) && Counts(l, b, nrb, cb)
    ensures Counts(l, a + b, nra + nrb, ca + cb)
  {
    VecsAppend(a, b);
    SideBySide(l, Vecs(a), ca, Vecs(b), cb);
    assert (a + b)[0] == a[0] && (a + b)[|a + b| - 1] == b[|b| - 1];
  }

  /** blk_phys_contig_segment, on bios that carry data. */
  predicate Contiguous(l: Limits, bio: Bio, next: Bio)
    requires bio.vecs != [] && next.vecs != []
  {
    && l.cluster
    && bio.back + next.front <= l.maxSegmentSize
    && l.mergeable(bio.vecs[|bio.vecs| - 1], next.vecs[0])
    && l.boundary(bio.vecs[|bio.vecs| - 1], next.vecs[0])
  }

  lemma {:induction false} VecsEnds(bios: seq<Bio>)
    requires bios != [] && forall b :: b in bios ==> b.vecs != []
    ensures Vecs(bios) != [] && Vecs(bios)[0] == bios[0].vecs[0]
    ensures var last := bios[|bios| - 1].vecs; Vecs(bios)[|Vecs(bios)| - 1] == last[|last| - 1]
  {
    if |bios| > 1 {
      VecsEnds(bios[1..]);
    }
  }

  /** The bookkeeping of ll_merge_requests_fn on the chain of the first request. */
  function FrontNoted(l: Limits, a: seq<Bio>, nra: nat, b: seq<Bio>): seq<Bio>
    requires a != [] && b != [] && a[|a| - 1].vecs != [] && b[0].vecs != []
  {
    if Contiguous(l, a[|a| - 1], b[0]) && nra == 1
    then a[0 := a[0].(front := a[|a| - 1].back + b[0].front)]
    else a
  }

  /** And on that of the second. */
  function BackNoted(l: Limits, a: seq<Bio>, b: seq<Bio>, nrb: nat): seq<Bio>
    requires a != [] && b != [] && a[|a| - 1].vecs != [] && b[0].vecs != []
  {
    if Contiguous(l, a[|a| - 1], b[0]) && nrb == 1
    then b[|b| - 1 := b[|b| - 1].(back := a[|a| - 1].back + b[0].front)]
    else b
  }

  /** A chain of a single segment: its first segment is its last. */
  lemma OneSegment(vecs: seq<Vec>, cuts: seq<bool>)
    requires |vecs| == |cuts| > 0 && cuts[0] && Count(cuts) == 1
    ensures FirstSize(vecs, cuts) == LastSize(vecs, cuts)
  {
    AllOpen(vecs[0].len, vecs[1..], cuts[1..]);
  }

  /** The notes do no harm even when the merge is then refused. */
  lemma NotedCounts(l: Limits, a: seq<Bio>, nra: nat, ca: seq<bool>, b: seq<Bio>, nrb: nat, cb: seq<bool>)
    requires Counts(l, a, nra, ca) && Counts(l, b, nrb, cb)
    requires a[|a| - 1].vecs != [] && b[0].vecs != []
    ensures Counts(l, FrontNoted(l, a, nra, b), nra, ca) && SameChain(a, FrontNoted(l, a, nra, b))
    ensures Counts(l, BackNoted(l, a, b, nrb), nrb, cb) && SameChain(b, BackNoted(l, a, b, nrb))
  {
    SameVecs(a, FrontNoted(l, a, nra, b));
    SameVecs(b, BackNoted(l, a, b, nrb));
    if nra == 1 {
      OneSegment(Vecs(a), ca);
    }
    if nrb == 1 {
      OneSegment(Vecs(b), cb);
    }
  }

  /** The sum, less one if the two middle segments are contiguous, counts the segments of the merged chain. */
  lemma MergedCounts(l: Limits, a: seq<Bio>, nra: nat, ca: seq<bool>, b: seq<Bio>, nrb: nat, cb: seq<bool>)
    requires Counts(l, a, nra, ca) && Counts(l, b, nrb, cb)
    requires (forall x :: x in a ==> x.vecs != []) && (forall x :: x in b ==> x.vecs != [])
    ensures var contiguous := Contiguous(l, a[|a| - 1], b[0]);
            Counts(l, FrontNoted(l, a, nra, b) + BackNoted(l, a, b, nrb),
                   if contiguous then nra + nrb - 1 else nra + nrb,
                   if contiguous then ca + cb[0 := false] else ca + cb)
  {
    var a', b' := FrontNoted(l, a, nra, b), BackNoted(l, a, b, nrb);
    NotedCounts(l, a, nra, ca, b, nrb, cb);
    if Contiguous(l, a[|a| - 1], b[0]) {
      VecsEnds(a);
      VecsEnds(b);
      SameVecs(a, a');
      SameVecs(b, b');
      VecsAppend(a', b');
      Joined(l, Vecs(a), ca, Vecs(b), cb);
      assert (a' + b')[0] == a'[0] && (a' + b')[|a' + b'| - 1] == b'[|b'| - 1];
    } else {
      AppendCounts(l, a, nra, ca, b, nrb, cb);
    }
  }

  /** Exact sizes stay exact through a merge. */
  lemma {:induction false} MergedExact(l: Limits, a: seq<Bio>, nra: nat, ca: seq<bool>, b: seq<Bio>, nrb: nat,
                                       cb: seq<bool>)
    requires Counts(l, a, nra, ca) && Counts(l, b, nrb, cb) && Exact(a, ca) && Exact(b, cb)
    requires (forall x :: x in a ==> x.vecs != []) && (forall x :: x in b ==> x.vecs != [])
    ensures Exact(FrontNoted(l, a, nra, b) + BackNoted(l, a, b, nrb),
                  if Contiguous(l, a[|a| - 1], b[0]) then ca + cb[0 := false] else ca + cb)
  {
    var a', b' := FrontNoted(l, a, nra, b), BackNoted(l, a, b, nrb);
    NotedCounts(l, a, nra, ca, b, nrb, cb);
    SameVecs(a, a');
    SameVecs(b, b');
    VecsAppend(a', b');
    assert (a' + b')[0] == a'[0] && (a' + b')[|a' + b'| - 1] == b'[|b'| - 1];
    if Contiguous(l, a[|a| - 1], b[0]) {
      VecsEnds(a);
      VecsEnds(b);
      Joined(l, Vecs(a), ca, Vecs(b), cb);
    } else {
      SideBySide(l, Vecs(a), ca, Vecs(b), cb);
    }
  }

  /**
   Two chains whose recorded sizes are exact count as contiguous exactly when their last and first
   segments can be made one.
   */
  lemma {:induction false} ContiguousIff(l: Limits, a: seq<Bio>, nra: nat, ca: seq<bool>, b: seq<Bio>, nrb: nat,
                                         cb: seq<bool>)
    requires Counts(l, a, nra, ca) && Counts(l, b, nrb, cb) && Exact(a, ca) && Exact(b, cb)
    requires (forall x :: x in a ==> x.vecs != []) && (forall x :: x in b ==> x.vecs != [])
    ensures Contiguous(l, a[|a| - 1], b[0]) <==> Legal(l, Vecs(a + b), ca + cb[0 := false])
  {
    VecsEnds(a);
    VecsEnds(b);
    VecsAppend(a, b);
    if Contiguous(l, a[|a| - 1], b[0]) {
      Joined(l, Vecs(a), ca, Vecs(b), cb);
    } else if Legal(l, Vecs(a + b), ca + cb[0 := false]) {
      JoinedOnlyIf(l, Vecs(a), ca, Vecs(b), cb);
    }
  }
}
