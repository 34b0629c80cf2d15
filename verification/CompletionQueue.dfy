/** blk_update_request as the source runs it: one loop over bios and vectors, bios trimmed in place. */
module CompletionQueue {
  import opened Segments
  import opened Requests
  import opened Completion

  /** What stays to be ended of a chain when n bytes are completed. */
  ghost function ToEnd(k: Kind, bios: seq<Left>, n: nat, error: int): seq<End> {
    if k.flushSeq then [] else Ended(bios, n, error)
  }

  lemma {:induction false} LengthParts(vecs: seq<Vec>, k: nat)
    requires k <= |vecs|
    ensures Length(vecs) == Length(vecs[..k]) + Length(vecs[k..])
  {
    if k > 0 {
      LengthParts(vecs[1..], k - 1);
      assert vecs[..k][1..] == vecs[1..][..k - 1];
      assert vecs[1..][k - 1..] == vecs[k..];
    } else {
      assert vecs[0..] == vecs;
    }
  }

  lemma LengthStep(vecs: seq<Vec>, k: nat)
    requires k < |vecs|
    ensures Length(vecs[..k + 1]) == Length(vecs[..k]) + vecs[k].len
  {
    LengthParts(vecs[..k + 1], k);
    assert vecs[..k + 1][..k] == vecs[..k];
    assert vecs[..k + 1][k..] == [vecs[k]];
  }

  /** Where the walk through a bio stands: k vectors and `done` bytes are behind it, n bytes are still to go. */
  ghost predicate Walk(b: Left, k: nat, done: nat, n: nat) {
    && k <= |b.vecs| && done == Length(b.vecs[..k])
    && (k > 0 ==> done + n < b.size)
    && (done + n > 0 ==> Skip(b.vecs, done + n) == Skip(b.vecs[k..], n))
  }

  lemma WalkStart(b: Left, n: nat)
    ensures Walk(b, 0, 0, n)
  {
    assert b.vecs[0..] == b.vecs;
  }

  /** While bytes are left of the bio there is another vector. */
  lemma WalkGoes(b: Left, k: nat, done: nat, n: nat)
    requires Fine(b) && Walk(b, k, done, n) && done + n < b.size
    ensures k < |b.vecs|
  {
    assert b.vecs[..|b.vecs|] == b.vecs;
  }

  lemma WalkStep(b: Left, k: nat, done: nat, n: nat)
    requires Walk(b, k, done, n) && done + n < b.size && k < |b.vecs| && b.vecs[k].len <= n && (n > 0 || k == 0)
    ensures Walk(b, k + 1, done + b.vecs[k].len, n - b.vecs[k].len)
  {
    LengthStep(b.vecs, k);
    assert b.vecs[k..][1..] == b.vecs[k + 1..];
    assert b.vecs[k..][0] == b.vecs[k];
  }

  function Cut(v: Vec, n: nat): Vec
    requires n <= v.len
  {
    Vec(v.page, v.offset + n, v.len - n)
  }

  /** Trimming the vector the walk ended in leaves what skipping the bytes leaves. */
  lemma WalkEnd(b: Left, k: nat, done: nat, n: nat)
    requires Walk(b, k, done, n) && k < |b.vecs| && (n == 0 || n < b.vecs[k].len) && done + n > 0
    ensures b.vecs[k := Cut(b.vecs[k], n)][k..] == Skip(b.vecs, done + n)
  {
    var v := b.vecs[k];
    assert b.vecs[k..][0] == v;
    assert b.vecs[k..] == [v] + b.vecs[k + 1..];
    assert b.vecs[k := Cut(v, n)][k..] == [Cut(v, n)] + b.vecs[k + 1..];
    assert b.vecs[k..][1..] == b.vecs[k + 1..];
  }

  /** A bio that is done leaves the chain. */
  lemma Popped(k: Kind, bios: seq<Left>, n: nat, error: int)
    requires AllFine(bios) && bios != [] && bios[0].size <= n
    ensures AllFine(bios[1..])
    ensures Rest(bios, n, error) == Rest(bios[1..], n - bios[0].size, error)
    ensures ToEnd(k, bios, n, error) ==
            (if k.flushSeq then [] else [End(bios[0].id, EndError(bios[0], error))]) +
            ToEnd(k, bios[1..], n - bios[0].size, error)
  {
  }

  /** Where the loop stands when it is about to look at the next bio or vector. */
  ghost predicate At(bios: seq<Left>, nextIdx: nat, bioBytes: nat, n: nat) {
    if bios == [] then bioBytes == 0 else Walk(bios[0], nextIdx, bioBytes, n)
  }

  lemma AtStart(bios: seq<Left>, n: nat)
    ensures At(bios, 0, 0, n)
  {
    if bios != [] {
      WalkStart(bios[0], n);
    }
  }

  /** The walk has ended inside the first bio: so many bytes of it are done, the last `n` of them within a vector. */
  ghost predicate Inside(b: Left, nextIdx: nat, bioBytes: nat, n: nat) {
    && n <= bioBytes < b.size
    && Walk(b, nextIdx, bioBytes - n, n)
    && nextIdx < |b.vecs| && (n == 0 || n < b.vecs[nextIdx].len)
  }

  lemma InsideAtEnd(b: Left, nextIdx: nat, bioBytes: nat)
    requires Fine(b) && Walk(b, nextIdx, bioBytes, 0)
    ensures Inside(b, nextIdx, bioBytes, 0)
  {
    WalkGoes(b, nextIdx, bioBytes, 0);
  }

  /** The first vector of what remains never has more bytes than the whole: the request is not botched. */
  lemma NotBotched(bios: seq<Left>)
    requires AllFine(bios) && bios != []
    ensures bios[0].vecs != [] && bios[0].vecs[0].len <= Total(bios)
  {
    assert Fine(bios[0]);
  }

  class Request {
    const kind: Kind
    var bios: seq<Left>
    var dataLen: int
    var sector: int
    var errors: int
    var ended: seq<End>

    constructor (kind: Kind, bios: seq<Left>, dataLen: int, sector: int)
      requires AllFine(bios) && dataLen == Total(bios)
      ensures this.kind == kind && Model() == Io(bios, dataLen, sector, 0, []) && Completion.Valid(Model())
    {
      this.kind, this.bios, this.dataLen, this.sector, errors, ended := kind, bios, dataLen, sector, 0, [];
    }

    ghost function Model(): Io
      reads this
    {
      Io(bios, dataLen, sector, errors, ended)
    }

    /** req_bio_endio: a bio cannot complete more bytes than it has, and ends when it has none left. */
    method BioEndIo(bio: Left, nbytes: nat, error: int) returns (r: Left)
      modifies `ended
      ensures var done := if nbytes > bio.size then bio.size else nbytes;
              && r == bio.(size := bio.size - done, sector := bio.sector + done / SECTOR,
                           uptodate := bio.uptodate && error == 0)
              && ended == old(ended) +
                          if done == bio.size && !kind.flushSeq then [End(bio.id, EndError(bio, error))] else []
    {
      var uptodate, err, done := bio.uptodate, error, nbytes;
      if error != 0 {
        uptodate := false;
      } else if !uptodate {
        err := -EIO;
      }
      if done > bio.size {
        done := bio.size;
      }
      r := bio.(uptodate := uptodate, size := bio.size - done, sector := bio.sector + done / SECTOR);
      if r.size == 0 && !kind.flushSeq {
        ended := ended + [End(bio.id, err)];
      }
    }

    /** The first bio is done: it leaves the chain and ends. */
    method PopBio(error: int, ghost n: nat) returns (nbytes: nat)
      requires AllFine(bios) && bios != [] && bios[0].size <= n
      modifies `bios, `ended
      ensures AllFine(bios) && |bios| < old(|bios|) && nbytes == old(bios[0].size) && At(bios, 0, 0, n - nbytes)
      ensures Rest(bios, n - nbytes, error) == old(Rest(bios, n, error))
      ensures ended + ToEnd(kind, bios, n - nbytes, error) == old(ended + ToEnd(kind, bios, n, error))
    {
      Popped(kind, bios, n, error);
      AtStart(bios[1..], n - bios[0].size);
      var bio := bios[0];
      bios := bios[1..];
      nbytes := bio.size;
      var _ := BioEndIo(bio, nbytes, error);
    }

    /** The length of the next vector of the first bio, which is not done. */
    method NextVec(nextIdx: nat, ghost bioBytes: nat, n: nat) returns (nbytes: nat)
      requires AllFine(bios) && bios != [] && n < bios[0].size && At(bios, nextIdx, bioBytes, n) &&
               (n > 0 || nextIdx == 0)
      ensures bioBytes + n < bios[0].size && nextIdx < |bios[0].vecs|
      ensures if nbytes > n then Inside(bios[0], nextIdx, bioBytes + n, n)
              else At(bios, nextIdx + 1, bioBytes + nbytes, n - nbytes)
    {
      var bio := bios[0];
      assert Fine(bio);
      WalkGoes(bio, nextIdx, bioBytes, n);
      nbytes := bio.vecs[nextIdx].len;
      if nbytes <= n {
        WalkStep(bio, nextIdx, bioBytes, n);
      }
    }

    /** The bytes end with the vector just passed, inside the first bio, or there is more to do. */
    method Look(idx: nat, bytes: nat, rest: nat) returns (stop: bool)
      requires AllFine(bios) && At(bios, idx, bytes, rest)
      ensures stop ==> bios != [] && rest == 0 && Inside(bios[0], idx, bytes, rest)
      ensures !stop ==> rest > 0 || bios == []
    {
      stop := bios != [] && rest <= 0;
      if stop {
        assert Fine(bios[0]);
        InsideAtEnd(bios[0], idx, bytes);
      }
    }

    /** The part of a turn that goes on within the first bio. */
    method Within(nextIdx: nat, bioBytes: nat, n: nat) returns (stop: bool, idx: nat, bytes: nat, rest: nat)
      requires AllFine(bios) && bios != [] && n < bios[0].size && At(bios, nextIdx, bioBytes, n) &&
               (n > 0 || nextIdx == 0)
      ensures rest <= n && idx <= |bios[0].vecs|
      ensures stop ==> Inside(bios[0], idx, bytes, rest) && bytes == bioBytes + n
      ensures !stop ==> At(bios, idx, bytes, rest) && rest > 0 && bytes + rest == bioBytes + n && idx == nextIdx + 1
    {
      var nbytes := NextVec(nextIdx, bioBytes, n);
      if nbytes > n {
        return true, nextIdx, bioBytes + n, n;
      }
      idx, bytes, rest := nextIdx + 1, bioBytes + nbytes, n - nbytes;
      stop := Look(idx, bytes, rest);
    }

    /** One turn of the loop of blk_update_request; `stop` says that the bytes end inside the first bio. */
    method Turn(error: int, nextIdx: nat, bioBytes: nat, n: nat) returns (stop: bool, idx: nat, bytes: nat, rest: nat)
      requires AllFine(bios) && bios != [] && At(bios, nextIdx, bioBytes, n) && (n > 0 || nextIdx == 0)
      modifies `bios, `ended
      ensures AllFine(bios) && rest <= n
      ensures stop ==> bios != [] && Inside(bios[0], idx, bytes, rest)
      ensures !stop ==> At(bios, idx, bytes, rest) && (rest > 0 || bios == [])
      ensures |bios| < old(|bios|) || (bios == old(bios) && (stop || (idx == nextIdx + 1 <= |bios[0].vecs|)))
      ensures var reach := if stop then bytes else bytes + rest;
              && Rest(bios, reach, error) == old(Rest(bios, bioBytes + n, error))
              && ended + ToEnd(kind, bios, reach, error) == old(ended + ToEnd(kind, bios, bioBytes + n, error))
    {
      if n < bios[0].size {
        stop, idx, bytes, rest := Within(nextIdx, bioBytes, n);
      } else {
        assert nextIdx == 0 && bioBytes == 0;
        var nbytes := PopBio(error, n);
        idx, bytes, rest := 0, 0, n - nbytes;
        stop := Look(idx, bytes, rest);
      }
    }

    /** The loop of blk_update_request: ends whole bios, and says how far into the next one the bytes reach. */
    method Consume(error: int, nrBytes: nat) returns (nextIdx: nat, bioBytes: nat, n: nat, total: nat)
      requires AllFine(bios)
      modifies `bios, `ended
      ensures AllFine(bios)
      ensures Rest(bios, bioBytes, error) == old(Rest(bios, nrBytes, error))
      ensures ended == old(ended) + ToEnd(kind, old(bios), nrBytes, error)
      ensures bios != [] ==> total == nrBytes && Inside(bios[0], nextIdx, bioBytes, n)
    {
      nextIdx, bioBytes, n, total := 0, 0, nrBytes, 0;
      ghost var left, ends := Rest(bios, nrBytes, error), ended + ToEnd(kind, bios, nrBytes, error);
      AtStart(bios, n);
      while bios != []
        invariant AllFine(bios) && At(bios, nextIdx, bioBytes, n)
        invariant total + n == nrBytes
        invariant n > 0 || bios == [] || nextIdx == 0
        invariant Rest(bios, bioBytes + n, error) == left
        invariant ended + ToEnd(kind, bios, bioBytes + n, error) == ends
        decreases |bios|, if bios == [] then 0 else |bios[0].vecs| - nextIdx
      {
        var stop, idx, bytes, rest := Turn(error, nextIdx, bioBytes, n);
        nextIdx, bioBytes := idx, bytes;
        if stop {
          total, n := nrBytes, rest;
          break;
        }
        total, n := total + (n - rest), rest;
      }
    }

    /** The first bio loses the bytes it has done: its vectors are passed, the last one trimmed. */
    method TrimBio(error: int, nextIdx: nat, bioBytes: nat, n: nat)
      requires AllFine(bios) && bios != [] && Inside(bios[0], nextIdx, bioBytes, n)
      modifies `bios, `ended
      ensures AllFine(bios) && ended == old(ended)
      ensures bios == [Trimmed(old(bios)[0], bioBytes, error)] + old(bios)[1..]
    {
      if bioBytes != 0 {
        ghost var b := bios[0];
        WalkEnd(b, nextIdx, bioBytes - n, n);
        SkipLength(b.vecs, bioBytes);
        var bio := BioEndIo(bios[0], bioBytes, error);
        bio := bio.(vecs := bio.vecs[nextIdx := Cut(bio.vecs[nextIdx], n)][nextIdx..]);
        bios := [bio] + bios[1..];
      }
    }

    /** blk_update_request */
    method UpdateRequest(error: int, nrBytes: nat) returns (more: bool)
      requires AllFine(bios) && Completion.Valid(Model())
      modifies this
      ensures AllFine(bios) && Completion.Valid(Model())
      ensures Model() == Update(kind, old(Model()), error, nrBytes)
      ensures more <==> bios != []
      ensures more <==> nrBytes < old(dataLen)
      ensures more ==> bios[0].vecs != [] && bios[0].vecs[0].len <= dataLen
    {
      UpdateKeeps(kind, Model(), error, nrBytes);
      if bios == [] {
        return false;
      }
      if kind.fs {
        errors := 0;
      }
      var nextIdx, bioBytes, n, total := Consume(error, nrBytes);
      if bios == [] {
        dataLen := 0;
        return false;
      }
      TrimBio(error, nextIdx, bioBytes, n);
      dataLen := dataLen - total;
      if kind.fs || kind.discard {
        sector := sector + total / SECTOR;
      }
      NotBotched(bios);
      return true;
    }
  }
}
