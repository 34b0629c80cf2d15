/**
 Which bios of a request end with an error (req_bio_endio and blk_update_request in block/blk-core.c): over any
 sequence of partial completions, exactly those that a failed completion has touched.
 */
module CompletionOutcome {
  import opened Completion

  /** A call of blk_update_request: so many bytes are done, with this error. */
  datatype Call = Call(n: nat, error: int)

  /** The request after some calls. */
  function UpdateBy(k: Kind, io: Io, calls: seq<Call>): Io
    decreases |calls|
  {
    if calls == [] then io else UpdateBy(k, Update(k, io, calls[0].error, calls[0].n), calls[1..])
  }

  /** The bios that the calls end, in order. */
  function EndedBy(bios: seq<Left>, calls: seq<Call>): seq<End>
    decreases |calls|
  {
    if calls == [] then []
    else Ended(bios, calls[0].n, calls[0].error) + EndedBy(Rest(bios, calls[0].n, calls[0].error), calls[1..])
  }

  /** Bios of a flush sequence are not ended here; those of any other request are, each by its last byte. */
  lemma {:induction false} UpdateEnds(k: Kind, io: Io, calls: seq<Call>)
    ensures UpdateBy(k, io, calls).ended == io.ended + if k.flushSeq then [] else EndedBy(io.bios, calls)
    decreases |calls|
  {
    if calls == [] {
      assert io.ended + [] == io.ended;
    } else {
      var c := calls[0];
      var io1, now := Update(k, io, c.error, c.n), Ended(io.bios, c.n, c.error);
      UpdateEnds(k, io1, calls[1..]);
      assert io1.bios == Rest(io.bios, c.n, c.error);
      assert io1.ended == io.ended + if k.flushSeq then [] else now;
      Assoc(io.ended, now, EndedBy(io1.bios, calls[1..]));
      assert io.ended + [] + [] == io.ended + [];
    }
  }

  /** The errors of a file system request are cleared by every call; other requests keep theirs. */
  lemma {:induction false} FsClears(k: Kind, io: Io, error: int, n: nat)
    requires io.bios != []
    ensures Update(k, io, error, n).errors == if k.fs then 0 else io.errors
  {
  }

  /** A bio ends with the error of the call that completes its last byte, or else with EIO if it had failed before. */
  lemma {:induction false} EndsWith(bios: seq<Left>, n: nat, error: int, i: nat)
    requires i < |Ended(bios, n, error)|
    ensures i < |bios|
    ensures Ended(bios, n, error)[i] == End(bios[i].id, if error != 0 then error else if bios[i].uptodate then 0
                                            else -5)
  {
    if i > 0 {
      EndsWith(bios[1..], n - bios[0].size, error, i - 1);
    }
  }

  /** Where a bio starts in the data of the chain. */
  function Offset(bios: seq<Left>, i: nat): nat
    requires i <= |bios|
  {
    if i == 0 then 0 else bios[0].size + Offset(bios[1..], i - 1)
  }

  /** Some failed call, the first of them starting at `from`, completes bytes between `lo` and `hi`. */
  ghost predicate Hit(calls: seq<Call>, from: int, lo: int, hi: int)
    decreases |calls|
  {
    calls != [] &&
    var next := from + calls[0].n;
    || (calls[0].error != 0 && calls[0].n > 0 && from < hi && lo < next)
    || Hit(calls[1..], next, lo, hi)
  }

  lemma {:induction false} HitShift(calls: seq<Call>, from: int, lo: int, hi: int, d: int)
    ensures Hit(calls, from - d, lo - d, hi - d) == Hit(calls, from, lo, hi)
    decreases |calls|
  {
    if calls != [] {
      HitShift(calls[1..], from + calls[0].n, lo, hi, d);
      assert from - d + calls[0].n == from + calls[0].n - d;
    }
  }

  /** What lies before the first call is not hit. */
  lemma {:induction false} HitFrom(calls: seq<Call>, from: int, at: int, lo: int, hi: int)
    requires lo <= at <= from
    ensures Hit(calls, from, lo, hi) == Hit(calls, from, at, hi)
    decreases |calls|
  {
    if calls != [] {
      HitFrom(calls[1..], from + calls[0].n, at, lo, hi);
    }
  }

  lemma {:induction false} HitPast(calls: seq<Call>, from: int, lo: int, hi: int)
    requires hi <= from
    ensures !Hit(calls, from, lo, hi)
    decreases |calls|
  {
    if calls != [] {
      HitPast(calls[1..], from + calls[0].n, lo, hi);
    }
  }

  /** A call that ends the first bio: the rest of it goes to the bios behind. */
  lemma {:induction false} FirstEnds(bios: seq<Left>, calls: seq<Call>)
    requires bios != [] && calls != [] && bios[0].size <= calls[0].n
    ensures var c := calls[0];
            EndedBy(bios, calls) == [End(bios[0].id, EndError(bios[0], c.error))] +
                                    EndedBy(bios[1..], [Call(c.n - bios[0].size, c.error)] + calls[1..])
  {
    var c := calls[0];
    var calls' := [Call(c.n - bios[0].size, c.error)] + calls[1..];
    assert calls'[1..] == calls[1..];
    Assoc([End(bios[0].id, EndError(bios[0], c.error))], Ended(bios[1..], c.n - bios[0].size, c.error),
          EndedBy(Rest(bios, c.n, c.error), calls[1..]));
  }

  /** A call that does not end it leaves less of it. */
  lemma {:induction false} FirstStays(bios: seq<Left>, calls: seq<Call>)
    requires bios != [] && calls != [] && calls[0].n < bios[0].size
    ensures EndedBy(bios, calls) ==
            EndedBy([Trimmed(bios[0], calls[0].n, calls[0].error)] + bios[1..], calls[1..])
  {
  }

  lemma {:induction false} FineRest(bios: seq<Left>)
    requires AllFine(bios) && bios != []
    ensures Fine(bios[0]) && AllFine(bios[1..])
  {
  }

  /** The first bio, when a call ends it. */
  lemma {:induction false} FirstHit(b: Left, calls: seq<Call>)
    requires b.size > 0 && calls != [] && b.size <= calls[0].n
    ensures EndError(b, calls[0].error) != 0 <==> !b.uptodate || Hit(calls, 0, 0, b.size)
  {
    HitPast(calls[1..], calls[0].n, 0, b.size);
  }

  /** The first call is cut at the end of the first bio: nothing changes for the bios behind. */
  lemma {:induction false} CutHit(calls: seq<Call>, size: nat, lo: nat, hi: nat)
    requires calls != [] && size <= calls[0].n && lo < hi
    ensures Hit([Call(calls[0].n - size, calls[0].error)] + calls[1..], 0, lo, hi) ==
            Hit(calls, 0, size + lo, size + hi)
  {
    var calls' := [Call(calls[0].n - size, calls[0].error)] + calls[1..];
    assert calls'[1..] == calls[1..];
    HitShift(calls[1..], calls[0].n, size + lo, size + hi, size);
  }

  /** A call that leaves bytes of the first bio touches it, if it completes any, and no other. */
  lemma {:induction false} StayHit(calls: seq<Call>, size: nat, lo: nat, hi: nat)
    requires calls != [] && calls[0].n < size && ((lo == 0 && hi == size) || size <= lo < hi)
    ensures Hit(calls, 0, lo, hi) ==
            ((lo == 0 && calls[0].n > 0 && calls[0].error != 0) ||
             Hit(calls[1..], 0, if lo == 0 then 0 else lo - calls[0].n, hi - calls[0].n))
  {
    var n: int := calls[0].n;
    HitShift(calls[1..], n, lo, hi, n);
    if lo == 0 {
      HitFrom(calls[1..], 0, 0, 0 - n, hi - n);
    }
  }

  lemma {:induction false} OffsetStays(bios: seq<Left>, b: Left, i: nat)
    requires bios != [] && i <= |bios|
    ensures Offset([b] + bios[1..], i) == if i == 0 then 0 else Offset(bios, i) - bios[0].size + b.size
  {
    assert ([b] + bios[1..])[1..] == bios[1..];
  }

  lemma {:induction false} OffsetGrows(bios: seq<Left>, i: nat)
    requires AllFine(bios) && i < |bios|
    ensures Offset(bios, i + 1) == Offset(bios, i) + bios[i].size > Offset(bios, i)
    ensures i > 0 ==> Offset(bios, i) >= bios[0].size
  {
    FineRest(bios);
    if i > 0 {
      OffsetGrows(bios[1..], i - 1);
    }
  }

  /** The `i`-th bio to end is the `i`-th of the chain, and fails as it should. */
  ghost predicate Right(bios: seq<Left>, calls: seq<Call>, i: nat)
    requires i < |EndedBy(bios, calls)|
  {
    && i < |bios| && EndedBy(bios, calls)[i].id == bios[i].id
    && (EndedBy(bios, calls)[i].error != 0 <==>
        !bios[i].uptodate || Hit(calls, 0, Offset(bios, i), Offset(bios, i + 1)))
  }

  lemma {:induction false} RightFirst(bios: seq<Left>, calls: seq<Call>)
    requires AllFine(bios) && bios != [] && calls != [] && bios[0].size <= calls[0].n
    ensures |EndedBy(bios, calls)| > 0 && Right(bios, calls, 0)
  {
    FineRest(bios);
    FirstEnds(bios, calls);
    FirstHit(bios[0], calls);
  }

  lemma {:induction false} RightBehind(bios: seq<Left>, calls: seq<Call>, calls': seq<Call>, i: nat)
    requires AllFine(bios) && bios != [] && calls != [] && bios[0].size <= calls[0].n
    requires calls' == [Call(calls[0].n - bios[0].size, calls[0].error)] + calls[1..]
    requires 0 < i < |EndedBy(bios, calls)| && i - 1 < |EndedBy(bios[1..], calls')| && Right(bios[1..], calls', i - 1)
    ensures Right(bios, calls, i)
  {
    FineRest(bios);
    assert EndedBy(bios, calls)[i] == EndedBy(bios[1..], calls')[i - 1] by {
      FirstEnds(bios, calls);
    }
    assert bios[1..][i - 1] == bios[i];
    OffsetGrows(bios[1..], i - 1);
    CutHit(calls, bios[0].size, Offset(bios[1..], i - 1), Offset(bios[1..], i));
  }

  lemma {:induction false} RightLater(bios: seq<Left>, calls: seq<Call>, b: Left, i: nat)
    requires AllFine(bios) && bios != [] && calls != [] && calls[0].n < bios[0].size
    requires b == Trimmed(bios[0], calls[0].n, calls[0].error) && i < |EndedBy(bios, calls)|
    requires i < |EndedBy([b] + bios[1..], calls[1..])| && Right([b] + bios[1..], calls[1..], i)
    ensures Right(bios, calls, i)
  {
    FineRest(bios);
    FirstStays(bios, calls);
    OffsetGrows(bios, i);
    OffsetStays(bios, b, i);
    OffsetStays(bios, b, i + 1);
    StayHit(calls, bios[0].size, Offset(bios, i), Offset(bios, i + 1));
  }

  lemma {:induction false} AlwaysRight(bios: seq<Left>, calls: seq<Call>, i: nat)
    requires AllFine(bios) && i < |EndedBy(bios, calls)|
    ensures Right(bios, calls, i)
    decreases |bios| + |calls|
  {
    NothingEnds(calls);
    FineRest(bios);
    var c, b := calls[0], bios[0];
    if b.size <= c.n {
      if i == 0 {
        RightFirst(bios, calls);
      } else {
        var calls' := [Call(c.n - b.size, c.error)] + calls[1..];
        FirstEnds(bios, calls);
        AlwaysRight(bios[1..], calls', i - 1);
        RightBehind(bios, calls, calls', i);
      }
    } else {
      var b' := Trimmed(b, c.n, c.error);
      FirstStays(bios, calls);
      RestFine(bios, c.n, c.error);
      AlwaysRight([b'] + bios[1..], calls[1..], i);
      RightLater(bios, calls, b', i);
    }
  }

  /**
   Over any sequence of completions the bios end in the order of the chain, and a bio ends with an error exactly
   if it had one before or some failed completion has touched it.
   */
  lemma {:induction false} FailsIffTouched(bios: seq<Left>, calls: seq<Call>, i: nat)
    requires AllFine(bios) && i < |EndedBy(bios, calls)|
    ensures i < |bios| && EndedBy(bios, calls)[i].id == bios[i].id
    ensures EndedBy(bios, calls)[i].error != 0 <==>
            !bios[i].uptodate || Hit(calls, 0, Offset(bios, i), Offset(bios, i + 1))
  {
    AlwaysRight(bios, calls, i);
  }

  lemma {:induction false} NothingEnds(calls: seq<Call>)
    ensures EndedBy([], calls) == []
  {
    if calls != [] {
      NothingEnds(calls[1..]);
    }
  }
}
