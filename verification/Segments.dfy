/**
 Physical segments (block/blk-merge.c).

 A division of a run of bio vectors into segments is a flag per vector, set where a segment starts.
 blk_rq_map_sg builds its scatterlist greedily; the counters of a request stand for some legal
 division.  Greedy is minimal, so the counters never fall short of the scatterlist.
 */
module Segments {

  datatype Vec = Vec(page: int, offset: nat, len: nat)

  /**
   The limits of a queue.  `mergeable` and `boundary` are BIOVEC_PHYS_MERGEABLE and
   BIOVEC_SEG_BOUNDARY: any tests on two adjacent vectors.
   */
  datatype Limits = Limits(
    cluster: bool,
    maxSegmentSize: nat,
    maxSegments: nat,
    maxSectors: nat,
    maxHwSectors: nat,
    bouncePfn: int,
    mergeable: (Vec, Vec) -> bool,
    boundary: (Vec, Vec) -> bool)
  {
    /** Two adjacent vectors may share a segment, as far as their addresses are concerned. */
    predicate Linked(a: Vec, b: Vec) {
      cluster && mergeable(a, b) && boundary(a, b)
    }

    predicate High(v: Vec) {
      v.page > bouncePfn
    }
  }

  function Count(cuts: seq<bool>): nat {
    if cuts == [] then 0 else (if cuts[0] then 1 else 0) + Count(cuts[1..])
  }

  /** The rest of a division is legal when a segment of `len` bytes that ends with `prev` is open. */
  predicate LegalFrom(l: Limits, prev: Vec, len: nat, vecs: seq<Vec>, cuts: seq<bool>)
    requires |vecs| == |cuts|
    decreases |vecs|
  {
    vecs == [] ||
    (if cuts[0] then LegalFrom(l, vecs[0], vecs[0].len, vecs[1..], cuts[1..])
     else
       && l.Linked(prev, vecs[0])
       && len + vecs[0].len <= l.maxSegmentSize
       && LegalFrom(l, vecs[0], len + vecs[0].len, vecs[1..], cuts[1..]))
  }

  /** A legal division: segments of several vectors are linked throughout and not too long. */
  predicate Legal(l: Limits, vecs: seq<Vec>, cuts: seq<bool>) {
    && |vecs| == |cuts| > 0
    && cuts[0]
    && LegalFrom(l, vecs[0], vecs[0].len, vecs[1..], cuts[1..])
  }

  /** The size of the segment that is open at the start, when `len` bytes of it precede. */
  function OpenSize(len: nat, vecs: seq<Vec>, cuts: seq<bool>): nat
    requires |vecs| == |cuts|
    decreases |vecs|
  {
    if vecs == [] || cuts[0] then len else OpenSize(len + vecs[0].len, vecs[1..], cuts[1..])
  }

  function FirstSize(vecs: seq<Vec>, cuts: seq<bool>): nat
    requires |vecs| == |cuts| > 0
  {
    OpenSize(vecs[0].len, vecs[1..], cuts[1..])
  }

  /** The size of the last segment, when `len` bytes of an open segment precede. */
  function LastFrom(len: nat, vecs: seq<Vec>, cuts: seq<bool>): nat
    requires |vecs| == |cuts|
    decreases |vecs|
  {
    if vecs == [] then len
    else LastFrom(if cuts[0] then vecs[0].len else len + vecs[0].len, vecs[1..], cuts[1..])
  }

  function LastSize(vecs: seq<Vec>, cuts: seq<bool>): nat
    requires |vecs| == |cuts| > 0
  {
    LastFrom(vecs[0].len, vecs[1..], cuts[1..])
  }

  // ---------------------------------------------------------------------------
  // Greedy division
  // ---------------------------------------------------------------------------

  /** How many more segments blk_rq_map_sg starts, when a segment of `len` bytes ending with `prev` is open. */
  function GreedyFrom(l: Limits, prev: Vec, len: nat, vecs: seq<Vec>): nat
    decreases |vecs|
  {
    if vecs == [] then 0
    else if l.Linked(prev, vecs[0]) && len + vecs[0].len <= l.maxSegmentSize
    then GreedyFrom(l, vecs[0], len + vecs[0].len, vecs[1..])
    else 1 + GreedyFrom(l, vecs[0], vecs[0].len, vecs[1..])
  }

  /** The number of scatterlist entries of blk_rq_map_sg. */
  function Greedy(l: Limits, vecs: seq<Vec>): nat {
    if vecs == [] then 0 else 1 + GreedyFrom(l, vecs[0], vecs[0].len, vecs[1..])
  }

  /** The scatterlist entries of blk_rq_map_sg from an open one on, the last vector in it being `prev`. */
  function ScatterFrom(l: Limits, open: Vec, prev: Vec, vecs: seq<Vec>): seq<Vec>
    decreases |vecs|
  {
    if vecs == [] then [open]
    else if l.Linked(prev, vecs[0]) && open.len + vecs[0].len <= l.maxSegmentSize
    then ScatterFrom(l, open.(len := open.len + vecs[0].len), vecs[0], vecs[1..])
    else [open] + ScatterFrom(l, vecs[0], vecs[0], vecs[1..])
  }

  function Scatter(l: Limits, vecs: seq<Vec>): seq<Vec> {
    if vecs == [] then [] else ScatterFrom(l, vecs[0], vecs[0], vecs[1..])
  }

  lemma {:induction false} ScatterCountFrom(l: Limits, open: Vec, prev: Vec, vecs: seq<Vec>)
    ensures |ScatterFrom(l, open, prev, vecs)| == 1 + GreedyFrom(l, prev, open.len, vecs)
    decreases |vecs|
  {
    if vecs != [] {
      if l.Linked(prev, vecs[0]) && open.len + vecs[0].len <= l.maxSegmentSize {
        ScatterCountFrom(l, open.(len := open.len + vecs[0].len), vecs[0], vecs[1..]);
      } else {
        ScatterCountFrom(l, vecs[0], vecs[0], vecs[1..]);
      }
    }
  }

  // What the entries address: `base` gives the physical address of a page.

  function Address(base: int -> int, v: Vec): int {
    base(v.page) + v.offset
  }

  /** The physical addresses of the bytes of a vector, or of an entry. */
  function Range(base: int -> int, v: Vec): seq<int> {
    seq(v.len, i => Address(base, v) + i)
  }

  function Ranges(base: int -> int, vecs: seq<Vec>): seq<int> {
    if vecs == [] then [] else Range(base, vecs[0]) + Ranges(base, vecs[1..])
  }

  /** BIOVEC_PHYS_MERGEABLE holds only of vectors that adjoin in physical memory. */
  ghost predicate Physical(l: Limits, base: int -> int) {
    forall a, b :: l.mergeable(a, b) ==> Address(base, a) + a.len == Address(base, b)
  }

  lemma RangeExtends(base: int -> int, open: Vec, v: Vec)
    requires Address(base, open) + open.len == Address(base, v)
    ensures Range(base, open.(len := open.len + v.len)) == Range(base, open) + Range(base, v)
  {
  }

  lemma Rejoin(a: seq<int>, b: seq<int>, c: seq<int>)
    ensures a + b + c == a + (b + c)
  {
  }

  lemma {:induction false} ScatterBytesFrom(l: Limits, base: int -> int, open: Vec, prev: Vec, vecs: seq<Vec>)
    requires Physical(l, base) && Address(base, open) + open.len == Address(base, prev) + prev.len
    ensures Ranges(base, ScatterFrom(l, open, prev, vecs)) == Range(base, open) + Ranges(base, vecs)
    decreases |vecs|
  {
    if vecs != [] {
      var v := vecs[0];
      if l.Linked(prev, v) && open.len + v.len <= l.maxSegmentSize {
        ScatterBytesFrom(l, base, open.(len := open.len + v.len), v, vecs[1..]);
        RangeExtends(base, open, v);
        Rejoin(Range(base, open), Range(base, v), Ranges(base, vecs[1..]));
      } else {
        ScatterBytesFrom(l, base, v, v, vecs[1..]);
        assert ([open] + ScatterFrom(l, v, v, vecs[1..]))[1..] == ScatterFrom(l, v, v, vecs[1..]);
      }
    }
  }

  /** The scatterlist addresses the bytes of the vectors, all of them, in their order. */
  lemma ScatterBytes(l: Limits, base: int -> int, vecs: seq<Vec>)
    requires Physical(l, base)
    ensures Ranges(base, Scatter(l, vecs)) == Ranges(base, vecs)
  {
    if vecs != [] {
      ScatterBytesFrom(l, base, vecs[0], vecs[0], vecs[1..]);
    }
  }

  /** No entry is longer than a segment may be, unless it is a single vector that already is. */
  ghost predicate Sized(l: Limits, e: Vec, vecs: seq<Vec>) {
    e.len <= l.maxSegmentSize || e in vecs
  }

  lemma {:induction false} ScatterSizesFrom(l: Limits, open: Vec, prev: Vec, vecs: seq<Vec>, all: seq<Vec>, e: Vec)
    requires Sized(l, open, all) && (forall v :: v in vecs ==> v in all) && e in ScatterFrom(l, open, prev, vecs)
    ensures Sized(l, e, all)
    decreases |vecs|
  {
    if vecs != [] {
      if l.Linked(prev, vecs[0]) && open.len + vecs[0].len <= l.maxSegmentSize {
        ScatterSizesFrom(l, open.(len := open.len + vecs[0].len), vecs[0], vecs[1..], all, e);
      } else if e != open {
        ScatterSizesFrom(l, vecs[0], vecs[0], vecs[1..], all, e);
      }
    }
  }

  lemma ScatterSizes(l: Limits, vecs: seq<Vec>, e: Vec)
    requires e in Scatter(l, vecs)
    ensures Sized(l, e, vecs)
  {
    ScatterSizesFrom(l, vecs[0], vecs[0], vecs[1..], vecs, e);
  }

  /**
   Greedy stays ahead: if it has opened fewer segments (`ahead`), or as many and its open segment is
   no longer, it never opens more from here on.
   */
  lemma {:induction false} GreedyAhead(l: Limits, prev: Vec, g: nat, o: nat, vecs: seq<Vec>, cuts: seq<bool>,
                                       ahead: bool)
    requires |vecs| == |cuts| && LegalFrom(l, prev, o, vecs, cuts) && (ahead || g <= o)
    ensures GreedyFrom(l, prev, g, vecs) <= Count(cuts) + if ahead then 1 else 0
    decreases |vecs|
  {
    if vecs != [] {
      var v := vecs[0];
      var fits := l.Linked(prev, v) && g + v.len <= l.maxSegmentSize;
      var g' := if fits then g + v.len else v.len;
      var o' := if cuts[0] then v.len else o + v.len;
      // a lead is gained where only the division starts a segment, and used up where only greedy does
      var ahead' := if cuts[0] == !fits then ahead else cuts[0];
      GreedyAhead(l, v, g', o', vecs[1..], cuts[1..], ahead');
    }
  }

  /** No legal division has fewer segments than the scatterlist has entries. */
  lemma GreedyMinimal(l: Limits, vecs: seq<Vec>, cuts: seq<bool>)
    requires Legal(l, vecs, cuts)
    ensures Greedy(l, vecs) <= Count(cuts)
  {
    GreedyAhead(l, vecs[0], vecs[0].len, vecs[0].len, vecs[1..], cuts[1..], false);
  }

  /** The division that blk_rq_map_sg makes. */
  function GreedyCutsFrom(l: Limits, prev: Vec, len: nat, vecs: seq<Vec>): (cuts: seq<bool>)
    ensures |cuts| == |vecs|
    decreases |vecs|
  {
    if vecs == [] then []
    else
      var fits := l.Linked(prev, vecs[0]) && len + vecs[0].len <= l.maxSegmentSize;
      [!fits] + GreedyCutsFrom(l, vecs[0], if fits then len + vecs[0].len else vecs[0].len, vecs[1..])
  }

  lemma {:induction false} GreedyLegalFrom(l: Limits, prev: Vec, len: nat, vecs: seq<Vec>)
    ensures LegalFrom(l, prev, len, vecs, GreedyCutsFrom(l, prev, len, vecs))
    ensures Count(GreedyCutsFrom(l, prev, len, vecs)) == GreedyFrom(l, prev, len, vecs)
    decreases |vecs|
  {
    if vecs != [] {
      var fits := l.Linked(prev, vecs[0]) && len + vecs[0].len <= l.maxSegmentSize;
      GreedyLegalFrom(l, vecs[0], if fits then len + vecs[0].len else vecs[0].len, vecs[1..]);
    }
  }

  /** The scatterlist is itself a legal division, so its length is the least possible. */
  lemma GreedyLegal(l: Limits, vecs: seq<Vec>) returns (cuts: seq<bool>)
    requires vecs != []
    ensures Legal(l, vecs, cuts) && Count(cuts) == Greedy(l, vecs)
  {
    cuts := [true] + GreedyCutsFrom(l, vecs[0], vecs[0].len, vecs[1..]);
    GreedyLegalFrom(l, vecs[0], vecs[0].len, vecs[1..]);
  }

  /** The scatterlist has the least number of entries of all legal divisions. */
  lemma ScatterCount(l: Limits, vecs: seq<Vec>)
    ensures |Scatter(l, vecs)| == Greedy(l, vecs)
    ensures forall cuts :: Legal(l, vecs, cuts) ==> |Scatter(l, vecs)| <= Count(cuts)
  {
    if vecs != [] {
      ScatterCountFrom(l, vecs[0], vecs[0], vecs[1..]);
    }
    forall cuts | Legal(l, vecs, cuts) ensures Greedy(l, vecs) <= Count(cuts) {
      GreedyMinimal(l, vecs, cuts);
    }
  }

  // ---------------------------------------------------------------------------
  // Putting divisions together
  // ---------------------------------------------------------------------------

  lemma {:induction false} CountAppend(a: seq<bool>, b: seq<bool>)
    ensures Count(a + b) == Count(a) + Count(b)
  {
    if a == [] {
      assert a + b == b;
    } else {
      assert (a + b)[1..] == a[1..] + b;
      CountAppend(a[1..], b);
    }
  }

  function LastVec(prev: Vec, vecs: seq<Vec>): Vec {
    if vecs == [] then prev else vecs[|vecs| - 1]
  }

  /** A division is legal when its first part is, and the rest is after it. */
  lemma {:induction false} LegalAppend(l: Limits, prev: Vec, len: nat, a: seq<Vec>, ca: seq<bool>, b: seq<Vec>,
                                       cb: seq<bool>)
    requires |a| == |ca| && |b| == |cb|
    ensures LegalFrom(l, prev, len, a + b, ca + cb) <==>
            LegalFrom(l, prev, len, a, ca) && LegalFrom(l, LastVec(prev, a), LastFrom(len, a, ca), b, cb)
    ensures LastFrom(len, a + b, ca + cb) == LastFrom(LastFrom(len, a, ca), b, cb)
    ensures Count(ca) > 0 ==> OpenSize(len, a + b, ca + cb) == OpenSize(len, a, ca)
    ensures Count(ca) == 0 ==> OpenSize(len, a + b, ca + cb) == OpenSize(LastFrom(len, a, ca), b, cb)
    decreases |a|
  {
    if a == [] {
      assert a + b == b && ca + cb == cb;
    } else {
      assert (a + b)[1..] == a[1..] + b && (ca + cb)[1..] == ca[1..] + cb;
      LegalAppend(l, a[0], if ca[0] then a[0].len else len + a[0].len, a[1..], ca[1..], b, cb);
    }
  }

  /** An open segment may be longer at its start, if it still fits. */
  lemma {:induction false} LongerStart(l: Limits, prev: Vec, len: nat, more: nat, vecs: seq<Vec>, cuts: seq<bool>)
    requires |vecs| == |cuts| && LegalFrom(l, prev, len, vecs, cuts)
    requires OpenSize(len, vecs, cuts) + more <= l.maxSegmentSize
    ensures LegalFrom(l, prev, len + more, vecs, cuts)
    ensures OpenSize(len + more, vecs, cuts) == OpenSize(len, vecs, cuts) + more
    ensures LastFrom(len + more, vecs, cuts) == LastFrom(len, vecs, cuts) + if Count(cuts) == 0 then more else 0
    decreases |vecs|
  {
    if vecs != [] && !cuts[0] {
      LongerStart(l, vecs[0], len + vecs[0].len, more, vecs[1..], cuts[1..]);
      assert len + more + vecs[0].len == len + vecs[0].len + more;
      OpenGrows(len + vecs[0].len, vecs[1..], cuts[1..]);
    }
  }

  lemma {:induction false} OpenGrows(len: nat, vecs: seq<Vec>, cuts: seq<bool>)
    requires |vecs| == |cuts|
    ensures OpenSize(len, vecs, cuts) >= len
    decreases |vecs|
  {
    if vecs != [] && !cuts[0] {
      OpenGrows(len + vecs[0].len, vecs[1..], cuts[1..]);
    }
  }

  /** Side by side: all segments of both. */
  lemma SideBySide(l: Limits, a: seq<Vec>, ca: seq<bool>, b: seq<Vec>, cb: seq<bool>)
    requires Legal(l, a, ca) && Legal(l, b, cb)
    ensures Legal(l, a + b, ca + cb) && Count(ca + cb) == Count(ca) + Count(cb)
    ensures FirstSize(a + b, ca + cb) == FirstSize(a, ca)
    ensures LastSize(a + b, ca + cb) == LastSize(b, cb)
  {
    CountAppend(ca, cb);
    LegalAppend(l, a[0], a[0].len, a[1..], ca[1..], b, cb);
    assert (a + b)[1..] == a[1..] + b && (ca + cb)[1..] == ca[1..] + cb;
    if Count(ca[1..]) == 0 {
      AllOpen(a[0].len, a[1..], ca[1..]);
    }
  }

  /** Without any start the open segment is also the last. */
  lemma {:induction false} AllOpen(len: nat, vecs: seq<Vec>, cuts: seq<bool>)
    requires |vecs| == |cuts| && Count(cuts) == 0
    ensures OpenSize(len, vecs, cuts) == LastFrom(len, vecs, cuts)
    decreases |vecs|
  {
    if vecs != [] {
      AllOpen(len + vecs[0].len, vecs[1..], cuts[1..]);
    }
  }

  /** Joined: the last segment of the one and the first of the other become one. */
  lemma Joined(l: Limits, a: seq<Vec>, ca: seq<bool>, b: seq<Vec>, cb: seq<bool>)
    requires Legal(l, a, ca) && Legal(l, b, cb)
    requires l.Linked(a[|a| - 1], b[0]) && LastSize(a, ca) + FirstSize(b, cb) <= l.maxSegmentSize
    ensures var c := ca + cb[0 := false];
            && Legal(l, a + b, c)
            && Count(c) == Count(ca) + Count(cb) - 1
            && FirstSize(a + b, c) == (if Count(ca) == 1 then LastSize(a, ca) + FirstSize(b, cb) else FirstSize(a, ca))
            && LastSize(a + b, c) == (if Count(cb) == 1 then LastSize(a, ca) + FirstSize(b, cb) else LastSize(b, cb))
  {
    var cb' := cb[0 := false];
    var c := ca + cb';
    CountAppend(ca, cb');
    assert cb'[1..] == cb[1..];
    LegalAppend(l, a[0], a[0].len, a[1..], ca[1..], b, cb');
    assert (a + b)[1..] == a[1..] + b && c[1..] == ca[1..] + cb';
    var last := LastSize(a, ca);
    OpenGrows(b[0].len, b[1..], cb[1..]);
    LongerStart(l, b[0], b[0].len, last, b[1..], cb[1..]);
    assert LastVec(a[0], a[1..]) == a[|a| - 1];
    if Count(cb) == 1 {
      AllOpen(b[0].len, b[1..], cb[1..]);
    }
  }

  /** An open segment that goes on ends within the limit. */
  lemma {:induction false} OpenFits(l: Limits, prev: Vec, len: nat, vecs: seq<Vec>, cuts: seq<bool>)
    requires |vecs| == |cuts| && LegalFrom(l, prev, len, vecs, cuts)
    ensures OpenSize(len, vecs, cuts) <= if len < l.maxSegmentSize then l.maxSegmentSize else len
    decreases |vecs|
  {
    if vecs != [] && !cuts[0] {
      OpenFits(l, vecs[0], len + vecs[0].len, vecs[1..], cuts[1..]);
    }
  }

  lemma {:induction false} OpenMore(len: nat, more: nat, vecs: seq<Vec>, cuts: seq<bool>)
    requires |vecs| == |cuts|
    ensures OpenSize(len + more, vecs, cuts) == OpenSize(len, vecs, cuts) + more
    decreases |vecs|
  {
    if vecs != [] && !cuts[0] {
      assert len + more + vecs[0].len == len + vecs[0].len + more;
      OpenMore(len + vecs[0].len, more, vecs[1..], cuts[1..]);
    }
  }

  /** The other way round: the joined division is legal only if the two segments are linked and fit together. */
  lemma JoinedOnlyIf(l: Limits, a: seq<Vec>, ca: seq<bool>, b: seq<Vec>, cb: seq<bool>)
    requires Legal(l, a, ca) && Legal(l, b, cb) && Legal(l, a + b, ca + cb[0 := false])
    ensures l.Linked(a[|a| - 1], b[0]) && LastSize(a, ca) + FirstSize(b, cb) <= l.maxSegmentSize
  {
    var cb' := cb[0 := false];
    assert cb'[1..] == cb[1..];
    LegalAppend(l, a[0], a[0].len, a[1..], ca[1..], b, cb');
    assert (a + b)[1..] == a[1..] + b && (ca + cb')[1..] == ca[1..] + cb';
    assert LastVec(a[0], a[1..]) == a[|a| - 1];
    OpenFits(l, b[0], LastSize(a, ca) + b[0].len, b[1..], cb[1..]);
    OpenMore(b[0].len, LastSize(a, ca), b[1..], cb[1..]);
  }
}
