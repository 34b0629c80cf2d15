/**
 Partial completion of a request (req_bio_endio and blk_update_request in block/blk-core.c).

 What is left of a bio is its sector, its size and the vectors from bi_idx on.  Completing n bytes
 drops the first n bytes of the chain, ends the bios that have nothing left, and moves the rest on.
 */
module Completion {
  import opened Sums
  import opened Segments
  import opened Requests

  const EIO: int := 5

  /** What is left of a bio. */
  datatype Left = Left(id: nat, sector: int, size: nat, vecs: seq<Vec>, uptodate: bool)

  /** A call of bio_endio. */
  datatype End = End(id: nat, error: int)

  /** What blk_update_request does not change: a file system request, a discard, part of a flush sequence. */
  datatype Kind = Kind(fs: bool, discard: bool, flushSeq: bool)

  datatype Io = Io(bios: seq<Left>, dataLen: int, sector: int, errors: int, ended: seq<End>)

  function Total(bios: seq<Left>): nat {
    if bios == [] then 0 else bios[0].size + Total(bios[1..])
  }

  ghost predicate Fine(b: Left) {
    b.size > 0 && b.size == Length(b.vecs)
  }

  ghost predicate AllFine(bios: seq<Left>) {
    forall i :: 0 <= i < |bios| ==> Fine(bios[i])
  }

  // ---------------------------------------------------------------------------
  // What completing n bytes leaves
  // ---------------------------------------------------------------------------

  /** The vectors without their first n bytes. */
  function Skip(vecs: seq<Vec>, n: nat): seq<Vec> {
    if n == 0 || vecs == [] then vecs
    else if vecs[0].len <= n then Skip(vecs[1..], n - vecs[0].len)
    else [Vec(vecs[0].page, vecs[0].offset + n, vecs[0].len - n)] + vecs[1..]
  }

  /** req_bio_endio for a bio that keeps some bytes. */
  function Trimmed(b: Left, n: nat, error: int): Left
    requires n < b.size
  {
    if n == 0 then b
    else Left(b.id, b.sector + n / SECTOR, b.size - n, Skip(b.vecs, n), b.uptodate && error == 0)
  }

  function Rest(bios: seq<Left>, n: nat, error: int): seq<Left> {
    if bios == [] then []
    else if bios[0].size <= n then Rest(bios[1..], n - bios[0].size, error)
    else [Trimmed(bios[0], n, error)] + bios[1..]
  }

  /** The error a bio ends with: that of this completion, or one noted before. */
  function EndError(b: Left, error: int): int {
    if error != 0 then error else if b.uptodate then 0 else -EIO
  }

  function Ended(bios: seq<Left>, n: nat, error: int): seq<End> {
    if bios == [] || n < bios[0].size then []
    else [End(bios[0].id, EndError(bios[0], error))] + Ended(bios[1..], n - bios[0].size, error)
  }

  /** blk_update_request */
  function Update(k: Kind, io: Io, error: int, n: nat): Io {
    if io.bios == [] then io
    else
      var rest := Rest(io.bios, n, error);
      Io(rest,
         if rest == [] then 0 else io.dataLen - n,
         if rest != [] && (k.fs || k.discard) then io.sector + n / SECTOR else io.sector,
         if k.fs then 0 else io.errors,
         io.ended + if k.flushSeq then [] else Ended(io.bios, n, error))
  }

  /** What blk_update_request returns: whether the request has more data. */
  function More(io: Io, error: int, n: nat): bool {
    Rest(io.bios, n, error) != []
  }

  ghost predicate Valid(io: Io) {
    AllFine(io.bios) && io.dataLen == Total(io.bios)
  }

  // ---------------------------------------------------------------------------
  // Bytes: the chain as the memory it stands for
  // ---------------------------------------------------------------------------

  function VecBytes(v: Vec): (r: seq<(int, int)>)
    ensures |r| == v.len
  {
    seq(v.len, i => (v.page, v.offset + i))
  }

  function VecsBytes(vecs: seq<Vec>): (r: seq<(int, int)>)
    ensures |r| == Length(vecs)
  {
    if vecs == [] then [] else VecBytes(vecs[0]) + VecsBytes(vecs[1..])
  }

  function Bytes(bios: seq<Left>): seq<(int, int)> {
    if bios == [] then [] else VecsBytes(bios[0].vecs) + Bytes(bios[1..])
  }

  lemma DropPast<T>(a: seq<T>, b: seq<T>, n: nat)
    requires |a| <= n <= |a + b|
    ensures (a + b)[n..] == b[n - |a|..]
  {
  }

  lemma DropWithin<T>(a: seq<T>, b: seq<T>, n: nat)
    requires n <= |a|
    ensures (a + b)[n..] == a[n..] + b
  {
  }

  lemma CutBytes(v: Vec, n: nat)
    requires n <= v.len
    ensures VecBytes(Vec(v.page, v.offset + n, v.len - n)) == VecBytes(v)[n..]
  {
  }

  lemma {:induction false} SkipBytes(vecs: seq<Vec>, n: nat)
    requires n <= Length(vecs)
    ensures VecsBytes(Skip(vecs, n)) == VecsBytes(vecs)[n..]
    decreases |vecs|
  {
    if n == 0 || vecs == [] {
    } else if vecs[0].len <= n {
      SkipBytes(vecs[1..], n - vecs[0].len);
      DropPast(VecBytes(vecs[0]), VecsBytes(vecs[1..]), n);
    } else {
      CutBytes(vecs[0], n);
      DropWithin(VecBytes(vecs[0]), VecsBytes(vecs[1..]), n);
      assert Skip(vecs, n)[1..] == vecs[1..];
    }
  }

  lemma {:induction false} BytesLength(bios: seq<Left>)
    requires AllFine(bios)
    ensures |Bytes(bios)| == Total(bios)
  {
    if bios != [] {
      assert Fine(bios[0]);
      BytesLength(bios[1..]);
    }
  }

  /** The bytes of a chain whose first bio has lost some, but not all. */
  lemma TrimmedBytes(bios: seq<Left>, n: nat, error: int)
    requires bios != [] && Fine(bios[0]) && n < bios[0].size
    ensures n <= |Bytes(bios)| && Bytes([Trimmed(bios[0], n, error)] + bios[1..]) == Bytes(bios)[n..]
  {
    var trimmed := [Trimmed(bios[0], n, error)] + bios[1..];
    SkipBytes(bios[0].vecs, n);
    DropWithin(VecsBytes(bios[0].vecs), Bytes(bios[1..]), n);
    assert trimmed[1..] == bios[1..];
  }

  /** Completing n bytes drops exactly the first n bytes of the chain. */
  lemma {:induction false} RestBytes(bios: seq<Left>, n: nat, error: int)
    requires AllFine(bios)
    ensures Bytes(Rest(bios, n, error)) == if n <= |Bytes(bios)| then Bytes(bios)[n..] else []
    decreases |bios|
  {
    if bios != [] {
      assert Fine(bios[0]);
      if bios[0].size <= n {
        RestBytes(bios[1..], n - bios[0].size, error);
        if n <= |Bytes(bios)| {
          DropPast(VecsBytes(bios[0].vecs), Bytes(bios[1..]), n);
        }
      } else {
        TrimmedBytes(bios, n, error);
      }
    }
  }

  // ---------------------------------------------------------------------------
  // The invariant, and when a request is done
  // ---------------------------------------------------------------------------

  lemma {:induction false} SkipLength(vecs: seq<Vec>, n: nat)
    requires n <= Length(vecs)
    ensures Length(Skip(vecs, n)) == Length(vecs) - n
    decreases |vecs|
  {
    if n == 0 || vecs == [] {
    } else if vecs[0].len <= n {
      SkipLength(vecs[1..], n - vecs[0].len);
    } else {
      assert Skip(vecs, n)[1..] == vecs[1..];
    }
  }

  /** The chain stays well formed, has as many bytes less as were completed, and is empty exactly when all were. */
  lemma {:induction false} RestFine(bios: seq<Left>, n: nat, error: int)
    requires AllFine(bios)
    ensures AllFine(Rest(bios, n, error))
    ensures Total(Rest(bios, n, error)) == if n <= Total(bios) then Total(bios) - n else 0
    ensures Rest(bios, n, error) == [] <==> Total(bios) <= n
    decreases |bios|
  {
    if bios != [] {
      assert Fine(bios[0]);
      if bios[0].size <= n {
        RestFine(bios[1..], n - bios[0].size, error);
      } else {
        SkipLength(bios[0].vecs, n);
        var r := Rest(bios, n, error);
        assert r[1..] == bios[1..];
      }
    }
  }

  /**
   __data_len is always the sum of the remaining sizes, and the request has no more data exactly when all of
   it is completed.
   */
  lemma UpdateKeeps(k: Kind, io: Io, error: int, n: nat)
    requires Valid(io)
    ensures Valid(Update(k, io, error, n))
    ensures More(io, error, n) <==> n < io.dataLen
  {
    RestFine(io.bios, n, error);
  }

  function Ids(bios: seq<Left>): seq<nat> {
    if bios == [] then [] else [bios[0].id] + Ids(bios[1..])
  }

  function EndIds(ends: seq<End>): seq<nat> {
    if ends == [] then [] else [ends[0].id] + EndIds(ends[1..])
  }

  /** Bios end in the order of the chain, each exactly once, and what has not ended is left. */
  lemma {:induction false} EndsInOrder(bios: seq<Left>, n: nat, error: int)
    ensures EndIds(Ended(bios, n, error)) + Ids(Rest(bios, n, error)) == Ids(bios)
    decreases |bios|
  {
    if bios != [] {
      if bios[0].size <= n {
        EndsInOrder(bios[1..], n - bios[0].size, error);
        assert Ended(bios, n, error)[1..] == Ended(bios[1..], n - bios[0].size, error);
      } else {
        assert Rest(bios, n, error)[1..] == bios[1..];
      }
    }
  }

  // ---------------------------------------------------------------------------
  // Completing in pieces
  // ---------------------------------------------------------------------------

  lemma {:induction false} SkipSkip(vecs: seq<Vec>, a: nat, b: nat)
    ensures Skip(Skip(vecs, a), b) == Skip(vecs, a + b)
    decreases |vecs|
  {
    if a == 0 || b == 0 || vecs == [] {
    } else if vecs[0].len <= a {
      SkipSkip(vecs[1..], a - vecs[0].len, b);
    } else {
      var v := Vec(vecs[0].page, vecs[0].offset + a, vecs[0].len - a);
      assert Skip(vecs, a) == [v] + vecs[1..];
      assert ([v] + vecs[1..])[1..] == vecs[1..];
    }
  }

  ghost predicate Whole(b: Left) {
    b.size % SECTOR == 0
  }

  ghost predicate AllWhole(bios: seq<Left>) {
    forall i :: 0 <= i < |bios| ==> Whole(bios[i])
  }

  lemma SectorsAdd(a: nat, b: nat)
    requires a % SECTOR == 0
    ensures (a + b) / SECTOR == a / SECTOR + b / SECTOR
    ensures (a + b) % SECTOR == b % SECTOR
  {
  }

  lemma SectorsSub(a: nat, b: nat)
    requires a % SECTOR == 0 && b % SECTOR == 0 && b <= a
    ensures (a - b) % SECTOR == 0
  {
  }

  lemma TrimmedTrimmed(x: Left, a: nat, b: nat, error: int)
    requires a + b < x.size && a % SECTOR == 0
    ensures Trimmed(Trimmed(x, a, error), b, error) == Trimmed(x, a + b, error)
  {
    SkipSkip(x.vecs, a, b);
    SectorsAdd(a, b);
  }

  /** Completing a bytes and then b leaves the same as completing a + b. */
  lemma {:induction false} RestRest(bios: seq<Left>, a: nat, b: nat, error: int)
    requires AllFine(bios) && AllWhole(bios) && a % SECTOR == 0
    ensures Rest(Rest(bios, a, error), b, error) == Rest(bios, a + b, error)
    decreases |bios|
  {
    if bios != [] {
      assert Fine(bios[0]) && Whole(bios[0]);
      if bios[0].size <= a {
        SectorsSub(a, bios[0].size);
        RestRest(bios[1..], a - bios[0].size, b, error);
      } else {
        var x := Trimmed(bios[0], a, error);
        assert Rest(bios, a, error) == [x] + bios[1..];
        assert ([x] + bios[1..])[1..] == bios[1..];
        assert x.size == bios[0].size - a;
        if a + b < bios[0].size {
          TrimmedTrimmed(bios[0], a, b, error);
        }
      }
    }
  }

  /** It ends the same bios in the same order with the same errors. */
  lemma {:induction false} EndedEnded(bios: seq<Left>, a: nat, b: nat, error: int)
    ensures Ended(bios, a, error) + Ended(Rest(bios, a, error), b, error) == Ended(bios, a + b, error)
    decreases |bios|
  {
    if bios != [] {
      if bios[0].size <= a {
        EndedEnded(bios[1..], a - bios[0].size, b, error);
      } else {
        var x := Trimmed(bios[0], a, error);
        assert Rest(bios, a, error) == [x] + bios[1..];
        assert ([x] + bios[1..])[1..] == bios[1..];
        assert x.size == bios[0].size - a && EndError(x, error) == EndError(bios[0], error);
      }
    }
  }

  lemma Assoc(a: seq<End>, b: seq<End>, c: seq<End>)
    ensures a + b + c == a + (b + c)
  {
  }

  lemma EndsTwice(k: Kind, io: Io, error: int, a: nat, b: nat)
    requires io.bios != []
    ensures Update(k, Update(k, io, error, a), error, b).ended == Update(k, io, error, a + b).ended
  {
    var io1 := Update(k, io, error, a);
    var e1, e2 := Ended(io.bios, a, error), Ended(io1.bios, b, error);
    assert e1 + e2 == Ended(io.bios, a + b, error) by {
      EndedEnded(io.bios, a, b, error);
    }
    if k.flushSeq {
      Assoc(io.ended, [], []);
    } else {
      assert Update(k, io1, error, b).ended == io1.ended + e2;
      Assoc(io.ended, e1, e2);
    }
  }

  lemma SectorTwice(k: Kind, io: Io, error: int, a: nat, b: nat)
    requires Valid(io) && AllWhole(io.bios) && a % SECTOR == 0
    ensures
      var two, one := Update(k, Update(k, io, error, a), error, b), Update(k, io, error, a + b);
      two.sector == one.sector <==> !(k.fs || k.discard) || a == 0 || a >= io.dataLen || a + b < io.dataLen
  {
    SectorsAdd(a, b);
    RestFine(io.bios, a, error);
    RestFine(io.bios, a + b, error);
    RestRest(io.bios, a, b, error);
  }

  /**
   Completing a bytes and then b is completing a + b, for sector multiples and one error: the same
   remaining bios, lengths and ends in the same order.  The position of the request agrees unless the
   second call finishes what the first had moved: a call that finishes the request leaves the position alone.
   */
  lemma UpdateTwice(k: Kind, io: Io, error: int, a: nat, b: nat)
    requires Valid(io) && AllWhole(io.bios) && a % SECTOR == 0
    ensures
      var two, one := Update(k, Update(k, io, error, a), error, b), Update(k, io, error, a + b);
      && two == one.(sector := two.sector)
      && (two.sector == one.sector <==> !(k.fs || k.discard) || a == 0 || a >= io.dataLen || a + b < io.dataLen)
  {
    SectorTwice(k, io, error, a, b);
    if io.bios != [] {
      EndsTwice(k, io, error, a, b);
    }
    var two, one := Update(k, Update(k, io, error, a), error, b), Update(k, io, error, a + b);
    assert two.bios == one.bios by {
      RestRest(io.bios, a, b, error);
    }
    assert two.dataLen == one.dataLen by {
      UpdateKeeps(k, io, error, a);
      UpdateKeeps(k, io, error, a + b);
      UpdateKeeps(k, Update(k, io, error, a), error, b);
    }
    assert two.errors == one.errors;
  }

  /** One bio of two sectors: completed in two steps its request ends at sector 1, completed at once at sector 0. */
  lemma PositionDiffers(k: Kind)
    requires k.fs || k.discard
    ensures var io := Io([Left(0, 0, 1024, [Vec(0, 0, 1024)], true)], 1024, 0, 0, []);
            && Valid(io) && AllWhole(io.bios)
            && Update(k, Update(k, io, 0, 512), 0, 512).sector == 1 && Update(k, io, 0, 1024).sector == 0
  {
    var io := Io([Left(0, 0, 1024, [Vec(0, 0, 1024)], true)], 1024, 0, 0, []);
    assert io.bios[1..] == [] && io.bios[0].vecs[1..] == [];
    assert Length(io.bios[0].vecs) == 1024;
    UpdateTwice(k, io, 0, 512, 512);
  }

  // ---------------------------------------------------------------------------
  // Whole runs, and the position of the request
  // ---------------------------------------------------------------------------

  /** Whole sectors stay whole sectors. */
  lemma {:induction false} RestWhole(bios: seq<Left>, n: nat, error: int)
    requires AllWhole(bios) && n % SECTOR == 0
    ensures AllWhole(Rest(bios, n, error))
    decreases |bios|
  {
    if bios != [] {
      assert Whole(bios[0]);
      if bios[0].size <= n {
        SectorsSub(n, bios[0].size);
        RestWhole(bios[1..], n - bios[0].size, error);
      } else {
        SectorsSub(bios[0].size, n);
      }
    }
  }

  function UpdateAll(k: Kind, io: Io, error: int, ns: seq<nat>): Io
    decreases |ns|
  {
    if ns == [] then io else UpdateAll(k, Update(k, io, error, ns[0]), error, ns[1..])
  }

  lemma TwoPieces(k: Kind, io: Io, error: int, n: nat, m: nat)
    requires Valid(io) && AllWhole(io.bios) && n % SECTOR == 0 && m % SECTOR == 0
    ensures (n + m) % SECTOR == 0
    ensures var two, one := Update(k, Update(k, io, error, n), error, m), Update(k, io, error, n + m);
            two == one.(sector := two.sector) && (n + m < io.dataLen ==> two == one)
  {
    UpdateTwice(k, io, error, n, m);
    SectorsAdd(n, m);
  }

  /** However the completion of a request is cut into calls, it comes to one call of the total. */
  lemma {:induction false} UpdateInPieces(k: Kind, io: Io, error: int, n: nat, ns: seq<nat>)
    requires Valid(io) && AllWhole(io.bios) && n % SECTOR == 0
    requires forall i :: 0 <= i < |ns| ==> ns[i] % SECTOR == 0
    ensures
      var many, one := UpdateAll(k, Update(k, io, error, n), error, ns), Update(k, io, error, n + Sum(ns));
      many == one.(sector := many.sector) && (n + Sum(ns) < io.dataLen ==> many == one)
    decreases |ns|
  {
    if ns != [] {
      TwoPieces(k, io, error, n, ns[0]);
      UpdateInPieces(k, io, error, n + ns[0], ns[1..]);
      var two, one := Update(k, Update(k, io, error, n), error, ns[0]), Update(k, io, error, n + ns[0]);
      MovedAlong(k, one, two.sector, error, ns[1..]);
    }
  }

  /** The position of the request does not influence anything else. */
  lemma {:induction false} MovedAlong(k: Kind, io: Io, sector: int, error: int, ns: seq<nat>)
    ensures var r, r1 := UpdateAll(k, io, error, ns), UpdateAll(k, io.(sector := sector), error, ns);
            r1 == r.(sector := r1.sector)
    decreases |ns|
  {
    if ns != [] {
      var io1 := Update(k, io.(sector := sector), error, ns[0]);
      MovedAlong(k, Update(k, io, error, ns[0]), io1.sector, error, ns[1..]);
    }
  }

  /** The remaining bios follow one another on the disk from `sector` on. */
  ghost predicate Placed(bios: seq<Left>, sector: int) {
    bios == [] || (bios[0].sector == sector && Placed(bios[1..], sector + bios[0].size / SECTOR))
  }

  lemma {:induction false} RestPlaced(bios: seq<Left>, sector: int, n: nat, error: int)
    requires AllWhole(bios) && Placed(bios, sector) && n % SECTOR == 0
    ensures Placed(Rest(bios, n, error), sector + n / SECTOR)
    decreases |bios|
  {
    if bios != [] {
      assert Whole(bios[0]);
      if bios[0].size <= n {
        SectorsSub(n, bios[0].size);
        SectorsAdd(bios[0].size, n - bios[0].size);
        RestPlaced(bios[1..], sector + bios[0].size / SECTOR, n - bios[0].size, error);
      } else {
        SectorsSub(bios[0].size, n);
        SectorsAdd(n, bios[0].size - n);
        assert Rest(bios, n, error)[1..] == bios[1..];
      }
    }
  }

  /** The position of an unfinished request is that of its first remaining byte, and its bios still tile its range. */
  lemma UpdatePlaced(k: Kind, io: Io, error: int, n: nat)
    requires AllWhole(io.bios) && Placed(io.bios, io.sector) && n % SECTOR == 0 && (k.fs || k.discard)
    ensures AllWhole(Update(k, io, error, n).bios)
    ensures Placed(Update(k, io, error, n).bios, Update(k, io, error, n).sector)
  {
    RestWhole(io.bios, n, error);
    RestPlaced(io.bios, io.sector, n, error);
  }
}
