/**
 The merge functions as the source runs them, on request objects that are updated in place
 (block/blk-merge.c, block/blk-core.c), and the scatterlist builder.
 */
module MergeRequests {
  import opened Segments
  import opened Requests

  datatype MergeKind = NoMerge | BackMerge | FrontMerge

  /** elv_try_merge; `ok` is the verdict of elv_rq_merge_ok. */
  function TryMerge(pos: int, sectors: nat, bio: Bio, ok: bool): MergeKind {
    if !ok then NoMerge
    else if pos + sectors == bio.sector then BackMerge
    else if pos - bio.Sectors() == bio.sector then FrontMerge
    else NoMerge
  }

  /**
   A bio is let in behind a request exactly when it starts at its end, and ahead of it exactly when it ends at
   its start.
   */
  lemma TryMergeByPlace(pos: int, sectors: nat, bio: Bio, ok: bool)
    requires Carries(bio)
    ensures var end := bio.sector + bio.size / SECTOR;
            && (TryMerge(pos, sectors, bio, ok) == BackMerge <==> ok && bio.sector == pos + sectors)
            && (TryMerge(pos, sectors, bio, ok) == FrontMerge <==> ok && end == pos)
  {
  }

  /** The segments of a bio as bio_phys_segments reports them, counting them if need be. */
  function PhysSegments(l: Limits, b: Bio): nat
    requires b.vecs != []
  {
    if b.segValid then b.physSegments else Count(RecalcCuts(l, b.vecs))
  }

  lemma SingleVecs(b: Bio)
    ensures Vecs([b]) == b.vecs && TotalSize([b]) == b.size
  {
  }

  /** blk_recount_segments, unless the bio has been counted already. */
  method CountSegments(l: Limits, b: Bio) returns (r: Bio)
    requires Carries(b)
    ensures SameData(b, r) && r.segValid && r.physSegments == PhysSegments(l, b)
    ensures !b.segValid ==>
            && (forall cuts :: LegalApart(l, b.vecs, cuts) ==> r.physSegments <= Count(cuts))
            && (AllLow(l, b.vecs) ==> r.physSegments == |Scatter(l, b.vecs)|)
    ensures r.front >= b.front && r.back >= b.back
    ensures BioFine(l, b) ==> BioFine(l, r)
  {
    if b.segValid {
      return b;
    }
    SingleVecs(b);
    var nr, out := RecalcSegments(l, [b]);
    r := out[0].(physSegments := nr, segValid := true);
    RecalcCounts(l, [b]);
    CountsGrow(l, out, [r], nr, RecalcCuts(l, b.vecs));
    SingleVecs(r);
  }

  lemma SingleChain(b: Bio)
    requires Carries(b)
    ensures ChainFine([b], b.sector, b.size)
  {
    SingleVecs(b);
  }

  lemma AppendChain(a: seq<Bio>, sa: int, la: nat, b: seq<Bio>, sb: int, lb: nat)
    requires ChainFine(a, sa, la) && ChainFine(b, sb, lb) && sa + la / SECTOR == sb
    ensures ChainFine(a + b, sa, la + lb)
  {
    VecsAppend(a, b);
    TilesAppend(a, b, sa);
  }

  lemma SameChainFine(a: seq<Bio>, b: seq<Bio>, sector: int, dataLen: nat)
    requires ChainFine(a, sector, dataLen) && SameChain(a, b)
    ensures ChainFine(b, sector, dataLen)
  {
    SameVecs(a, b);
    forall x | x in b ensures Carries(x) {
      var i :| 0 <= i < |b| && b[i] == x;
      assert Carries(a[i]);
    }
  }

  lemma {:induction false} ChainLength(bios: seq<Bio>)
    requires forall b :: b in bios ==> Carries(b)
    ensures Length(Vecs(bios)) == TotalSize(bios)
  {
    if bios != [] {
      assert Carries(bios[0]);
      ChainLength(bios[1..]);
      LengthAppend(bios[0].vecs, Vecs(bios[1..]));
    }
  }

  lemma {:induction false} LengthAppend(a: seq<Vec>, b: seq<Vec>)
    ensures Length(a + b) == Length(a) + Length(b)
  {
    if a == [] {
      assert a + b == b;
    } else {
      assert (a + b)[1..] == a[1..] + b;
      LengthAppend(a[1..], b);
    }
  }

  /** A bio linked in behind a chain it follows on the disk. */
  lemma BackLinked(l: Limits, bios: seq<Bio>, sector: int, dataLen: nat, nr: nat, cuts: seq<bool>, b: Bio)
    returns (c: seq<bool>)
    requires ChainFine(bios, sector, dataLen) && Counts(l, bios, nr, cuts)
    requires BioFine(l, b) && b.segValid && sector + dataLen / SECTOR == b.sector
    ensures ChainFine(bios + [b], sector, dataLen + b.size) && Counts(l, bios + [b], nr + b.physSegments, c)
  {
    var cb :| Counts(l, [b], b.physSegments, cb);
    c := cuts + cb;
    AppendCounts(l, bios, nr, cuts, [b], b.physSegments, cb);
    SingleChain(b);
    AppendChain(bios, sector, dataLen, [b], b.sector, b.size);
  }

  /** A bio linked in ahead of a chain it precedes on the disk. */
  lemma FrontLinked(l: Limits, bios: seq<Bio>, sector: int, dataLen: nat, nr: nat, cuts: seq<bool>, b: Bio)
    returns (c: seq<bool>)
    requires ChainFine(bios, sector, dataLen) && Counts(l, bios, nr, cuts)
    requires BioFine(l, b) && b.segValid && b.sector + b.Sectors() == sector
    ensures ChainFine([b] + bios, b.sector, dataLen + b.size) && Counts(l, [b] + bios, nr + b.physSegments, c)
    ensures b.sector + (dataLen + b.size) / SECTOR == sector + dataLen / SECTOR
  {
    var cb :| Counts(l, [b], b.physSegments, cb);
    c := cb + cuts;
    AppendCounts(l, [b], b.physSegments, cb, bios, nr, cuts);
    SingleChain(b);
    AppendChain([b], b.sector, b.size, bios, sector, dataLen);
    WholeSectors(b.size, dataLen);
  }

  lemma WholeSectors(a: nat, b: nat)
    requires a % SECTOR == 0
    ensures (a + b) / SECTOR == a / SECTOR + b / SECTOR
  {
  }

  /** Two chains spliced, when the second follows the first on the disk. */
  lemma Spliced(l: Limits, a: seq<Bio>, sa: int, la: nat, nra: nat, ca: seq<bool>, b: seq<Bio>, sb: int, lb: nat,
                nrb: nat, cb: seq<bool>)
    returns (c: seq<bool>)
    requires ChainFine(a, sa, la) && Counts(l, a, nra, ca) && ChainFine(b, sb, lb) && Counts(l, b, nrb, cb)
    requires sa + la / SECTOR == sb
    ensures a[|a| - 1].vecs != [] && b[0].vecs != []
    ensures var a', b' := FrontNoted(l, a, nra, b), BackNoted(l, a, b, nrb);
            var nr := if Contiguous(l, a[|a| - 1], b[0]) then nra + nrb - 1 else nra + nrb;
            && SameChain(a, a') && ChainFine(a', sa, la) && Counts(l, a', nra, ca)
            && SameChain(b, b') && ChainFine(b', sb, lb) && Counts(l, b', nrb, cb)
            && nr >= 0 && ChainFine(a' + b', sa, la + lb) && Counts(l, a' + b', nr, c)
  {
    assert forall x :: x in a || x in b ==> Carries(x);
    assert Carries(a[|a| - 1]) && Carries(b[0]);
    var a', b' := FrontNoted(l, a, nra, b), BackNoted(l, a, b, nrb);
    c := if Contiguous(l, a[|a| - 1], b[0]) then ca + cb[0 := false] else ca + cb;
    NotedCounts(l, a, nra, ca, b, nrb, cb);
    MergedCounts(l, a, nra, ca, b, nrb, cb);
    SameChainFine(a, a', sa, la);
    SameChainFine(b, b', sb, lb);
    AppendChain(a', sa, la, b', sb, lb);
  }

  lemma SameAppended(a: seq<Bio>, a': seq<Bio>, b: seq<Bio>, b': seq<Bio>)
    requires SameChain(a, a') && SameChain(b, b')
    ensures SameChain(a + b, a' + b')
  {
  }

  class Request {
    var bios: seq<Bio>              // rq->bio ... rq->biotail
    var sector: int
    var dataLen: nat
    var nrPhysSegments: nat
    var blockPc: bool
    var special: bool
    var noMerge: bool               // REQ_NOMERGE
    ghost var cuts: seq<bool>       // the division the segment counter stands for

    ghost predicate Valid(l: Limits)
      reads this
    {
      && ChainFine(bios, sector, dataLen)
      && Counts(l, bios, nrPhysSegments, cuts)
    }

    function Sectors(): nat
      reads this
    {
      dataLen / SECTOR
    }

    function MaxSectors(l: Limits): nat
      reads this
    {
      if blockPc then l.maxHwSectors else l.maxSectors
    }

    /** init_request_from_bio */
    constructor (l: Limits, bio: Bio)
      requires BioFine(l, bio)
      ensures Valid(l) && SameChain(bios, [bio]) && sector == bio.sector && dataLen == bio.size
      ensures nrPhysSegments == PhysSegments(l, bio) && !blockPc && !special && !noMerge
    {
      var b := CountSegments(l, bio);
      bios, sector, dataLen, nrPhysSegments := [b], b.sector, b.size, b.physSegments;
      blockPc, special, noMerge := false, false, false;
      ghost var c :| Counts(l, [b], b.physSegments, c);
      cuts := c;
      new;
      SingleChain(b);
    }

    /** The recount of the bio at position `i` that the merge functions ask for first. */
    method CountAt(l: Limits, i: nat)
      requires Valid(l) && i < |bios|
      modifies this`bios
      ensures Valid(l) && SameChain(bios, old(bios))
    {
      assert Carries(bios[i]);
      var b := CountSegments(l, bios[i]);
      ghost var before := bios;
      bios := bios[i := b];
      assert SameChain(before, bios);
      SameChainFine(before, bios, sector, dataLen);
      CountsGrow(l, before, bios, nrPhysSegments, cuts);
    }

    /**
     ll_back_merge_fn or ll_front_merge_fn: the segments of the bio at position `i` and of the new bio are
     made known.
     */
    method Admit(l: Limits, bio: Bio, i: nat) returns (admitted: bool, b: Bio)
      requires Valid(l) && BioFine(l, bio) && i < |bios|
      modifies this
      ensures Valid(l) && SameChain(bios, old(bios)) && sector == old(sector) && dataLen == old(dataLen)
      ensures blockPc == old(blockPc) && special == old(special)
      ensures admitted <==>
              && old(dataLen) / SECTOR + bio.size / SECTOR <= (if old(blockPc) then l.maxHwSectors else l.maxSectors)
              && old(nrPhysSegments) + PhysSegments(l, bio) <= l.maxSegments
      ensures noMerge <==> old(noMerge) || !admitted
      ensures admitted ==> SameData(bio, b) && BioFine(l, b) && b.segValid && b.physSegments == PhysSegments(l, bio)
      ensures nrPhysSegments == old(nrPhysSegments)
    {
      b := bio;
      if Sectors() + bio.Sectors() > MaxSectors(l) {
        noMerge := true;
        return false, b;
      }
      CountAt(l, i);
      b := CountSegments(l, bio);
      if nrPhysSegments + b.physSegments > l.maxSegments {
        noMerge := true;
        return false, b;
      }
      return true, b;
    }

    /** Link an admitted bio in at the tail. */
    method LinkBack(l: Limits, b: Bio)
      requires Valid(l) && BioFine(l, b) && b.segValid && sector + Sectors() == b.sector
      modifies this`bios, this`dataLen, this`nrPhysSegments, this`cuts
      ensures Valid(l) && bios == old(bios) + [b] && dataLen == old(dataLen) + b.size
      ensures nrPhysSegments == old(nrPhysSegments) + b.physSegments
    {
      ghost var c := BackLinked(l, bios, sector, dataLen, nrPhysSegments, cuts, b);
      nrPhysSegments := nrPhysSegments + b.physSegments;
      bios := bios + [b];
      dataLen := dataLen + b.size;
      cuts := c;
    }

    /** Link an admitted bio in at the head. */
    method LinkFront(l: Limits, b: Bio)
      requires Valid(l) && BioFine(l, b) && b.segValid && b.sector + b.Sectors() == sector
      modifies this`bios, this`sector, this`dataLen, this`nrPhysSegments, this`cuts
      ensures Valid(l) && bios == [b] + old(bios) && sector == b.sector && dataLen == old(dataLen) + b.size
      ensures nrPhysSegments == old(nrPhysSegments) + b.physSegments
      ensures sector + Sectors() == old(sector + Sectors())
    {
      ghost var c := FrontLinked(l, bios, sector, dataLen, nrPhysSegments, cuts, b);
      nrPhysSegments := nrPhysSegments + b.physSegments;
      bios := [b] + bios;
      sector := b.sector;
      dataLen := dataLen + b.size;
      cuts := c;
    }

    /** bio_attempt_back_merge */
    method AttemptBackMerge(l: Limits, bio: Bio, ok: bool) returns (merged: bool)
      requires Valid(l) && BioFine(l, bio) && TryMerge(sector, Sectors(), bio, ok) == BackMerge
      modifies this
      ensures Valid(l) && blockPc == old(blockPc) && special == old(special)
      ensures merged <==>
              && old(dataLen) / SECTOR + bio.size / SECTOR <= (if old(blockPc) then l.maxHwSectors else l.maxSectors)
              && old(nrPhysSegments) + PhysSegments(l, bio) <= l.maxSegments
      ensures if merged then SameChain(bios, old(bios) + [bio]) else SameChain(bios, old(bios))
      ensures sector == old(sector)
      ensures nrPhysSegments == old(nrPhysSegments) + if merged then PhysSegments(l, bio) else 0
      ensures noMerge <==> old(noMerge) || !merged
    {
      var b;
      merged, b := Admit(l, bio, |bios| - 1);
      if merged {
        LinkBack(l, b);
      }
    }

    /** bio_attempt_front_merge; the end of the request stays where it is. */
    method AttemptFrontMerge(l: Limits, bio: Bio, ok: bool) returns (merged: bool)
      requires Valid(l) && BioFine(l, bio) && TryMerge(sector, Sectors(), bio, ok) == FrontMerge
      modifies this
      ensures Valid(l) && blockPc == old(blockPc) && special == old(special)
      ensures merged <==>
              && old(dataLen) / SECTOR + bio.size / SECTOR <= (if old(blockPc) then l.maxHwSectors else l.maxSectors)
              && old(nrPhysSegments) + PhysSegments(l, bio) <= l.maxSegments
      ensures if merged then SameChain(bios, [bio] + old(bios)) else SameChain(bios, old(bios))
      ensures sector == if merged then bio.sector else old(sector)
      ensures sector + Sectors() == old(sector + Sectors())
      ensures nrPhysSegments == old(nrPhysSegments) + if merged then PhysSegments(l, bio) else 0
      ensures noMerge <==> old(noMerge) || !merged
    {
      var b;
      merged, b := Admit(l, bio, 0);
      if merged {
        LinkFront(l, b);
      }
    }

    /** The segments of this request with `next` behind it, as ll_merge_requests_fn adds them up. */
    function SegmentsWith(l: Limits, next: Request): int
      reads this, next
    {
      if bios != [] && next.bios != [] && bios[|bios| - 1].vecs != [] && next.bios[0].vecs != [] &&
         Contiguous(l, bios[|bios| - 1], next.bios[0])
      then nrPhysSegments + next.nrPhysSegments - 1
      else nrPhysSegments + next.nrPhysSegments
    }

    /** The part of ll_merge_requests_fn that adds up the segments, recording sizes as it goes. */
    method AddUpSegments(l: Limits, next: Request) returns (total: int)
      requires this != next && bios != [] && next.bios != [] && bios[|bios| - 1].vecs != [] && next.bios[0].vecs != []
      modifies this`bios, next`bios
      ensures total == old(SegmentsWith(l, next))
      ensures bios == FrontNoted(l, old(bios), nrPhysSegments, old(next.bios))
      ensures next.bios == BackNoted(l, old(bios), old(next.bios), next.nrPhysSegments)
    {
      var segSize := bios[|bios| - 1].back + next.bios[0].front;
      total := nrPhysSegments + next.nrPhysSegments;
      if Contiguous(l, bios[|bios| - 1], next.bios[0]) {
        if nrPhysSegments == 1 {
          bios := bios[0 := bios[0].(front := segSize)];
        }
        if next.nrPhysSegments == 1 {
          next.bios := next.bios[|next.bios| - 1 := next.bios[|next.bios| - 1].(back := segSize)];
        }
        total := total - 1;
      }
    }

    /** Adding up leaves both requests as they are, and the total stands for the chains put together. */
    method AddUp(l: Limits, next: Request) returns (total: nat, ghost c: seq<bool>)
      requires Valid(l) && next.Valid(l) && this != next && sector + Sectors() == next.sector
      modifies this`bios, next`bios
      ensures Valid(l) && next.Valid(l) && SameChain(bios, old(bios)) && SameChain(next.bios, old(next.bios))
      ensures total == old(SegmentsWith(l, next))
      ensures ChainFine(bios + next.bios, sector, dataLen + next.dataLen) && Counts(l, bios + next.bios, total, c)
    {
      c := Spliced(l, bios, sector, dataLen, nrPhysSegments, cuts,
                   next.bios, next.sector, next.dataLen, next.nrPhysSegments, next.cuts);
      total := AddUpSegments(l, next);
    }

    /** The splicing of the chains in attempt_merge. */
    method Splice(l: Limits, next: Request, total: nat, ghost c: seq<bool>)
      requires this != next && ChainFine(bios + next.bios, sector, dataLen + next.dataLen)
      requires Counts(l, bios + next.bios, total, c)
      modifies this, next
      ensures Valid(l) && bios == old(bios + next.bios) && next.bios == [] && nrPhysSegments == total
      ensures sector == old(sector) && special == old(special)
    {
      nrPhysSegments := total;
      bios := bios + next.bios;
      dataLen := dataLen + next.dataLen;
      cuts := c;
      next.bios := [];
    }

    /** ll_merge_requests_fn and, if it agrees, the splicing. */
    method MergeChains(l: Limits, next: Request) returns (merged: bool)
      requires Valid(l) && next.Valid(l) && this != next && sector + Sectors() == next.sector
      modifies this, next
      ensures Valid(l) && sector == old(sector) && special == old(special)
      ensures merged <==> !old(special) && !old(next.special) && old(Sectors() + next.Sectors()) <= l.maxSectors &&
                          old(SegmentsWith(l, next)) <= l.maxSegments
      ensures merged ==> SameChain(bios, old(bios + next.bios)) && next.bios == [] &&
                         nrPhysSegments == old(SegmentsWith(l, next))
      ensures !merged ==> next.Valid(l) && SameChain(bios, old(bios)) && SameChain(next.bios, old(next.bios)) &&
                          nrPhysSegments == old(nrPhysSegments)
    {
      if special || next.special || Sectors() + next.Sectors() > l.maxSectors {
        return false;
      }
      var total, c := AddUp(l, next);
      if total > l.maxSegments {
        return false;
      }
      SameAppended(bios, old(bios), next.bios, old(next.bios));
      Splice(l, next, total, c);
      return true;
    }

    /** attempt_merge; `compatible` sums up its tests on flags, direction and disk. */
    method AttemptMerge(l: Limits, next: Request, compatible: bool) returns (merged: bool)
      requires Valid(l) && next.Valid(l) && this != next
      modifies this, next
      ensures Valid(l) && sector == old(sector) && special == old(special)
      ensures merged <==> compatible && old(sector + Sectors()) == old(next.sector) &&
                          !old(special) && !old(next.special) &&
                          old(Sectors() + next.Sectors()) <= l.maxSectors && old(SegmentsWith(l, next)) <= l.maxSegments
      ensures merged ==> SameChain(bios, old(bios + next.bios)) && next.bios == [] &&
                         nrPhysSegments == old(SegmentsWith(l, next))
      ensures !merged ==> next.Valid(l) && SameChain(bios, old(bios)) && SameChain(next.bios, old(next.bios)) &&
                          nrPhysSegments == old(nrPhysSegments)
    {
      if !compatible || sector + Sectors() != next.sector || next.special {
        return false;
      }
      merged := MergeChains(l, next);
    }

    /** blk_recalc_rq_segments */
    method Recount(l: Limits)
      requires Valid(l)
      modifies this
      ensures Valid(l) && SameChain(bios, old(bios)) && sector == old(sector) && dataLen == old(dataLen)
      ensures nrPhysSegments == Count(RecalcCuts(l, Vecs(old(bios))))
      ensures AllLow(l, Vecs(bios)) ==> nrPhysSegments == |Scatter(l, Vecs(bios))|
    {
      assert forall b :: b in bios ==> Carries(b);
      var nr, out := RecalcSegments(l, bios);
      RecalcCounts(l, bios);
      SameChainFine(bios, out, sector, dataLen);
      cuts := RecalcCuts(l, Vecs(bios));
      SameVecs(bios, out);
      nrPhysSegments, bios := nr, out;
    }

    /**
     The main loop of blk_rq_map_sg.  The scatterlist has no more entries than the request has
     segments, and addresses all of its data, in order, wherever pages lie in physical memory.
     */
    method MapSg(l: Limits) returns (sg: seq<Vec>)
      requires Valid(l)
      ensures sg == Scatter(l, Vecs(bios)) && |sg| <= nrPhysSegments
      ensures forall base :: Physical(l, base) ==> Ranges(base, sg) == Ranges(base, Vecs(bios))
      ensures Length(sg) == dataLen
    {
      GreedyMinimal(l, Vecs(bios), cuts);
      ChainLength(bios);
      ScatterCount(l, Vecs(bios));
      ScatterLength(l, Vecs(bios));
      forall base | Physical(l, base) ensures Ranges(base, Scatter(l, Vecs(bios))) == Ranges(base, Vecs(bios)) {
        ScatterBytes(l, base, Vecs(bios));
      }
      sg := MapVecs(l, Vecs(bios));
    }
  }

  lemma {:induction false} ScatterLengthFrom(l: Limits, open: Vec, prev: Vec, vecs: seq<Vec>)
    ensures Length(ScatterFrom(l, open, prev, vecs)) == open.len + Length(vecs)
    decreases |vecs|
  {
    if vecs == [] {
      assert [open][1..] == [];
    } else if l.Linked(prev, vecs[0]) && open.len + vecs[0].len <= l.maxSegmentSize {
      ScatterLengthFrom(l, open.(len := open.len + vecs[0].len), vecs[0], vecs[1..]);
    } else {
      ScatterLengthFrom(l, vecs[0], vecs[0], vecs[1..]);
      assert ([open] + ScatterFrom(l, vecs[0], vecs[0], vecs[1..]))[1..] == ScatterFrom(l, vecs[0], vecs[0], vecs[1..]);
    }
  }

  lemma ScatterLength(l: Limits, vecs: seq<Vec>)
    ensures Length(Scatter(l, vecs)) == Length(vecs)
  {
    if vecs != [] {
      ScatterLengthFrom(l, vecs[0], vecs[0], vecs[1..]);
    }
  }

  /** With the vectors from `i` on still to come, the last entry being open. */
  ghost predicate Mapping(l: Limits, vecs: seq<Vec>, i: nat, sg: seq<Vec>) {
    && 0 < i <= |vecs| && sg != []
    && sg[..|sg| - 1] + ScatterFrom(l, sg[|sg| - 1], vecs[i - 1], vecs[i..]) == Scatter(l, vecs)
  }

  lemma MappingExtends(l: Limits, vecs: seq<Vec>, i: nat, sg: seq<Vec>)
    requires Mapping(l, vecs, i, sg) && i < |vecs|
    ensures var last, v := sg[|sg| - 1], vecs[i];
            var linked := l.Linked(vecs[i - 1], v) && last.len + v.len <= l.maxSegmentSize;
            Mapping(l, vecs, i + 1, if linked then sg[|sg| - 1 := last.(len := last.len + v.len)] else sg + [v])
  {
    var last, v := sg[|sg| - 1], vecs[i];
    assert vecs[i..][1..] == vecs[i + 1..] && vecs[i..][0] == v;
    if l.Linked(vecs[i - 1], v) && last.len + v.len <= l.maxSegmentSize {
      var sg' := sg[|sg| - 1 := last.(len := last.len + v.len)];
      assert sg'[..|sg'| - 1] == sg[..|sg| - 1];
    } else {
      var rest := ScatterFrom(l, v, v, vecs[i + 1..]);
      assert (sg + [v])[..|sg|] == sg;
      assert sg[..|sg| - 1] + ([last] + rest) == sg + rest;
    }
  }

  method MapVecs(l: Limits, vecs: seq<Vec>) returns (sg: seq<Vec>)
    ensures sg == Scatter(l, vecs)
  {
    sg := [];
    if vecs == [] {
      return;
    }
    sg := [vecs[0]];
    var i := 1;
    while i < |vecs|
      invariant Mapping(l, vecs, i, sg)
    {
      var v, last := vecs[i], sg[|sg| - 1];
      MappingExtends(l, vecs, i, sg);
      if l.cluster && last.len + v.len <= l.maxSegmentSize && l.mergeable(vecs[i - 1], v) &&
         l.boundary(vecs[i - 1], v)
      {
        sg := sg[|sg| - 1 := last.(len := last.len + v.len)];
      } else {
        sg := sg + [v];
      }
      i := i + 1;
    }
  }
}
