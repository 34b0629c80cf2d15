/** The generator as the source runs it: one context updated in place, and copy loops into the caller's buffer. */
module CprngContext {
  import opened Options
  import opened Cprng

  datatype Code = Ok | Failed | Panic

  /** What get_prng_bytes comes to. */
  datatype Outcome = Filled(n: nat) | Invalid | Panicked

  const DEFAULT_KEY: seq<Byte> := [0x30, 0x31, 0x32, 0x33, 0x34, 0x35, 0x36, 0x37, 0x38, 0x39, 0x61, 0x62, 0x63, 0x64,
                                   0x65, 0x66]
  const DEFAULT_SEED: Block := [0x7a, 0x61, 0x79, 0x62, 0x78, 0x63, 0x77, 0x64, 0x76, 0x65, 0x75, 0x66, 0x74, 0x67,
                                0x73, 0x68]

  function Zeros(n: nat): (r: seq<Byte>)
    ensures |r| == n && forall j :: 0 <= j < n ==> r[j] == 0
  {
    if n == 0 then [] else Zeros(n - 1) + [0]
  }

  lemma ZerosFront(n: nat)
    ensures [0] + Zeros(n) == Zeros(n + 1)
  {
  }

  /** One byte of the step: it is done with, or the step goes on before it. */
  lemma IncByte(b: seq<Byte>, i: nat, n: nat)
    requires i < |b|
    ensures (b[..i + 1] + Zeros(n))[i := b[i] + 1] == b[..i] + [b[i] + 1] + Zeros(n)
    ensures b[i] + 1 != 0 ==> Inc(b[..i + 1]) + Zeros(n) == b[..i] + [b[i] + 1] + Zeros(n)
    ensures b[i] + 1 == 0 ==> Inc(b[..i + 1]) + Zeros(n) == Inc(b[..i]) + Zeros(n + 1)
    ensures b[i] + 1 == 0 ==> b[..i] + [b[i] + 1] + Zeros(n) == b[..i] + Zeros(n + 1)
  {
    assert b[..i + 1][..i] == b[..i];
    ZerosFront(n);
    if b[i] + 1 == 0 {
      assert Inc(b[..i]) + [0] + Zeros(n) == Inc(b[..i]) + ([0] + Zeros(n));
      assert b[..i] + [0] + Zeros(n) == b[..i] + ([0] + Zeros(n));
    }
  }

  // ---------------------------------------------------------------------------
  // One block further at the end
  // ---------------------------------------------------------------------------

  lemma {:induction false} AdvanceLast(e: Cipher, g: Gen, k: nat)
    ensures var a := Advance(e, g, k); Advance(e, g, k + 1) == Gen(Next(e, a.seed), Out(e, a.seed), g.valid)
    ensures Advance(e, g, k).valid == g.valid
    decreases k
  {
    if k > 0 {
      AdvanceLast(e, Gen(Next(e, g.seed), Out(e, g.seed), g.valid), k - 1);
    }
  }

  lemma {:induction false} NoRepeatLast(e: Cipher, g: Gen, k: nat)
    ensures NoRepeat(e, g.seed, g.data, k + 1) <==>
            NoRepeat(e, g.seed, g.data, k) && Out(e, Advance(e, g, k).seed) != Advance(e, g, k).data
    decreases k
  {
    if k > 0 {
      NoRepeatLast(e, Gen(Next(e, g.seed), Out(e, g.seed), g.valid), k - 1);
    }
  }

  lemma {:induction false} NoRepeatLess(e: Cipher, s: Seed, before: Block, k: nat, m: nat)
    requires m <= k && NoRepeat(e, s, before, k)
    ensures NoRepeat(e, s, before, m)
    decreases m
  {
    if m > 0 {
      NoRepeatLess(e, Next(e, s), Out(e, s), k - 1, m - 1);
    }
  }

  /** k blocks and `done` bytes into a call that started at `g0`. */
  ghost predicate Along(e: Cipher, g0: Gen, k: nat, g: Gen, done: nat) {
    && g == Advance(e, g0, k).(valid := g.valid)
    && NoRepeat(e, g0.seed, g0.data, k)
    && SIZE * k + g.valid == g0.valid + done
    && g.valid <= SIZE
  }

  lemma AlongBlock(e: Cipher, g0: Gen, k: nat, g: Gen, done: nat)
    requires Along(e, g0, k, g, done) && g.valid == SIZE
    ensures Out(e, g.seed) != g.data ==> Along(e, g0, k + 1, Gen(Next(e, g.seed), Out(e, g.seed), 0), done)
    ensures Out(e, g.seed) == g.data ==> !NoRepeat(e, g0.seed, g0.data, k + 1)
  {
    AdvanceLast(e, g0, k);
    NoRepeatLast(e, g0, k);
  }

  /** The bytes of the current block are those the call has ahead of it. */
  lemma AlongByte(e: Cipher, g0: Gen, k: nat, g: Gen, done: nat, i: nat)
    requires Along(e, g0, k, g, done) && g.valid + i < SIZE
    ensures g.data[g.valid + i] == Tape(e, g0, g0.valid + done + i)
  {
    AdvanceTape(e, g0, k, g.valid + i);
  }

  /** A byte run of the current block continues what the call has returned so far. */
  lemma AlongRun(e: Cipher, g0: Gen, k: nat, g: Gen, done: nat, m: nat)
    requires Along(e, g0, k, g, done) && g.valid + m <= SIZE
    ensures Ahead(e, g0, done) + g.data[g.valid..g.valid + m] == Ahead(e, g0, done + m)
  {
    var a, b := Ahead(e, g0, done) + g.data[g.valid..g.valid + m], Ahead(e, g0, done + m);
    forall j | 0 <= j < done + m ensures a[j] == b[j] {
      if j >= done {
        AlongByte(e, g0, k, g, done, j - done);
      }
    }
  }

  /** A call that needs one more byte at the end of a block needs one more block. */
  lemma NeedsMore(valid: nat, n: nat, k: nat, done: nat)
    requires valid <= SIZE && SIZE * k + SIZE == valid + done && done < n
    ensures k + 1 <= Need(valid, n)
  {
  }

  /** A repetition met on the way is one among the blocks the call needs. */
  lemma RepeatMet(e: Cipher, g0: Gen, k: nat, n: nat, done: nat)
    requires g0.valid <= SIZE && SIZE * k + SIZE == g0.valid + done && done < n
    requires !NoRepeat(e, g0.seed, g0.data, k + 1)
    ensures !NoRepeat(e, g0.seed, g0.data, Need(g0.valid, n))
  {
    NeedsMore(g0.valid, n, k, done);
    if NoRepeat(e, g0.seed, g0.data, Need(g0.valid, n)) {
      NoRepeatLess(e, g0.seed, g0.data, Need(g0.valid, n), k + 1);
    }
  }

  /** A call that ends inside a block has needed all blocks it got. */
  lemma EndedInside(e: Cipher, g0: Gen, k: nat, g: Gen, n: nat)
    requires g0.valid <= SIZE && n >= 1 && g == Advance(e, g0, k).(valid := g.valid)
    requires SIZE * k + g.valid + 1 == g0.valid + n && g.valid < SIZE && (n < SIZE || g.valid + 1 < SIZE)
    ensures Need(g0.valid, n) == k && g == Call(e, g0, n)
  {
  }

  lemma EndedOnBlock(e: Cipher, g0: Gen, k: nat, g: Gen, n: nat)
    requires g0.valid <= SIZE && n >= SIZE && Along(e, g0, k, g, n) && g.valid == SIZE
    ensures Need(g0.valid, n) == k && g == Call(e, g0, n)
  {
  }

  class Context {
    var cipher: Cipher
    var randData: Block
    var lastRandData: Block
    var dt: Block
    var i: Block
    var v: Block
    var randDataValid: nat
    var fixedSize: bool               // PRNG_FIXED_SIZE
    var needReset: bool               // PRNG_NEED_RESET

    ghost function Model(): Gen
      reads this
    {
      Gen(Seed(dt, v), randData, randDataValid)
    }

    ghost predicate Valid()
      reads this
    {
      randDataValid <= SIZE && (!needReset ==> randData == lastRandData)
    }

    /** xor_vectors */
    static method XorVectors(a: Block, b: Block) returns (r: Block)
      ensures r == Xor(a, b)
    {
      var tmp: seq<Byte>, j := [], 0;
      while j < SIZE
        invariant 0 <= j <= SIZE && |tmp| == j
        invariant forall m :: 0 <= m < j ==> tmp[m] == a[m] ^ b[m]
      {
        tmp := tmp + [a[j] ^ b[j]];
        j := j + 1;
      }
      r := tmp;
    }

    /** The step of the counter at the end of _get_more_prng_bytes. */
    static method StepCounter(b: Block) returns (r: seq<Byte>)
      ensures r == Inc(b)
    {
      r := b;
      var j := SIZE;
      assert b[..j] == b;
      while j > 0
        invariant 0 <= j <= SIZE
        invariant r == b[..j] + Zeros(SIZE - j)
        invariant Inc(b) == Inc(b[..j]) + Zeros(SIZE - j)
      {
        j := j - 1;
        IncByte(b, j, SIZE - 1 - j);
        r := r[j := r[j] + 1];
        if r[j] != 0 {
          break;
        }
      }
    }

    /** _get_more_prng_bytes: three stages, each an encryption. */
    method GetMore(contTest: bool) returns (code: Code)
      requires !needReset && Valid()
      modifies this
      ensures Valid() && cipher == old(cipher) && fixedSize == old(fixedSize)
      ensures var g := old(Model());
              if Out(cipher, g.seed) != g.data
              then code == Ok && !needReset && Model() == Gen(Next(cipher, g.seed), Out(cipher, g.seed), 0)
              else code == (if contTest then Panic else Failed) && (needReset <==> !contTest)
    {
      var stage := 0;
      ghost var s := Seed(dt, v);
      while stage < 3
        invariant 0 <= stage <= 3
        invariant stage >= 1 ==> i == Intermediate(cipher, s)
        invariant randData == if stage >= 2 then Out(cipher, s) else old(randData)
        invariant lastRandData == if stage == 3 then Out(cipher, s) else old(randData)
        invariant v == if stage == 3 then Next(cipher, s).v else s.v
        invariant stage == 3 ==> Out(cipher, s) != old(randData)
        invariant dt == s.dt && cipher == old(cipher) && fixedSize == old(fixedSize) && !needReset
        invariant randDataValid == old(randDataValid)
      {
        var tmp: Block;
        if stage == 0 {
          tmp := dt;
          i := cipher(tmp);
        } else if stage == 1 {
          tmp := XorVectors(i, v);
          randData := cipher(tmp);
        } else {
          if randData == lastRandData {
            if contTest {
              return Panic;
            }
            needReset := true;
            return Failed;
          }
          lastRandData := randData;
          tmp := XorVectors(randData, i);
          v := cipher(tmp);
        }
        stage := stage + 1;
      }
      dt := StepCounter(dt);
      randDataValid := 0;
      return Ok;
    }

    /** empty_rbuf: copies what is left of the block; stops, without counting the byte, when no more are wanted. */
    method EmptyBuffer(buf: array<Byte>, ptr: nat, count: nat) returns (ptr': nat, count': nat)
      requires randDataValid <= SIZE && count >= 1 && ptr + count <= buf.Length
      modifies `randDataValid, buf
      ensures ptr' + count' == ptr + count && ptr <= ptr'
      ensures buf[..ptr] == old(buf[..ptr]) && buf[ptr'..] == old(buf[ptr'..])
      ensures old(randDataValid) + (ptr' - ptr) <= SIZE
      ensures buf[ptr..ptr'] == old(randData[randDataValid..randDataValid + (ptr' - ptr)])
      ensures if count <= SIZE - old(randDataValid) then count' == 0 && randDataValid == old(randDataValid) + count - 1
              else randDataValid == SIZE && ptr' - ptr == SIZE - old(randDataValid)
    {
      ptr', count' := ptr, count;
      while randDataValid < SIZE
        invariant randDataValid <= SIZE && count' >= 1 && ptr' + count' == ptr + count
        invariant ptr' - ptr == randDataValid - old(randDataValid) >= 0
        invariant buf[..ptr] == old(buf[..ptr]) && buf[ptr'..] == old(buf[ptr'..])
        invariant buf[ptr..ptr'] == randData[old(randDataValid)..randDataValid]
      {
        buf[ptr'] := randData[randDataValid];
        ptr', count' := ptr' + 1, count' - 1;
        assert buf[ptr..ptr'] == buf[ptr..ptr' - 1] + [randData[randDataValid]];
        assert buf[ptr..ptr'] == randData[old(randDataValid)..randDataValid + 1];
        assert buf[ptr'..] == old(buf[ptr'..]);
        if count' == 0 {
          return;
        }
        randDataValid := randDataValid + 1;
      }
    }

    /** The next block, if the last one is used up. */
    method Refill(contTest: bool, ghost g0: Gen, ghost k: nat, ghost done: nat) returns (code: Code, ghost k': nat)
      requires Valid() && !needReset && Along(cipher, g0, k, Model(), done)
      modifies this
      ensures Valid() && cipher == old(cipher) && fixedSize == old(fixedSize)
      ensures code == Ok ==> !needReset && Along(cipher, g0, k', Model(), done)
                             && randDataValid == if old(randDataValid) == SIZE then 0 else old(randDataValid)
      ensures code != Ok ==> old(randDataValid) == SIZE && !NoRepeat(cipher, g0.seed, g0.data, k + 1)
                             && code == (if contTest then Panic else Failed) && (needReset <==> !contTest)
    {
      code, k' := Ok, k;
      if randDataValid == SIZE {
        AlongBlock(cipher, g0, k, Model(), done);
        code := GetMore(contTest);
        k' := k + 1;
      }
    }

    /** empty_rbuf in the course of a call. */
    method CopyRest(buf: array<Byte>, ptr: nat, count: nat, ghost g0: Gen, ghost k: nat)
      returns (ptr': nat, count': nat)
      requires Along(cipher, g0, k, Model(), ptr) && count >= 1 && ptr + count <= buf.Length
      requires buf[..ptr] == Ahead(cipher, g0, ptr)
      modifies `randDataValid, buf
      ensures ptr' + count' == ptr + count && ptr <= ptr'
      ensures buf[..ptr'] == Ahead(cipher, g0, ptr') && buf[ptr'..] == old(buf[ptr'..])
      ensures if count <= SIZE - old(randDataValid)
              then
                && count' == 0 && SIZE * k + randDataValid + 1 == g0.valid + ptr'
                && randDataValid == old(randDataValid) + count - 1
              else count' >= 1 && Along(cipher, g0, k, Model(), ptr') && randDataValid == SIZE
    {
      ghost var g := Model();
      ptr', count' := EmptyBuffer(buf, ptr, count);
      AlongRun(cipher, g0, k, g, ptr, ptr' - ptr);
      assert buf[..ptr'] == buf[..ptr] + buf[ptr..ptr'];
    }

    /** The copy of a whole block. */
    method CopyBlock(buf: array<Byte>, ptr: nat, ghost g0: Gen, ghost k: nat)
      requires Along(cipher, g0, k, Model(), ptr) && randDataValid == 0 && ptr + SIZE <= buf.Length
      requires buf[..ptr] == Ahead(cipher, g0, ptr)
      modifies `randDataValid, buf
      ensures Along(cipher, g0, k, Model(), ptr + SIZE) && randDataValid == SIZE
      ensures buf[..ptr + SIZE] == Ahead(cipher, g0, ptr + SIZE) && buf[ptr + SIZE..] == old(buf[ptr + SIZE..])
    {
      AlongRun(cipher, g0, k, Model(), ptr, SIZE);
      var j := 0;
      while j < SIZE
        invariant 0 <= j <= SIZE
        invariant buf[..ptr] == old(buf[..ptr]) && buf[ptr..ptr + j] == randData[..j]
        invariant buf[ptr + SIZE..] == old(buf[ptr + SIZE..])
      {
        buf[ptr + j] := randData[j];
        j := j + 1;
      }
      assert buf[..ptr + SIZE] == buf[..ptr] + randData[0..SIZE];
      randDataValid := SIZE;
    }

    /** A call is on its way: `ptr` bytes are in the buffer and the context is right behind them. */
    ghost predicate Going(buf: array<Byte>, ptr: nat, g0: Gen, k: nat)
      reads this, buf
    {
      && Valid() && !needReset && ptr <= buf.Length
      && Along(cipher, g0, k, Model(), ptr) && buf[..ptr] == Ahead(cipher, g0, ptr)
    }

    /** The call has met a repeated block. */
    ghost predicate Broken(code: Code, contTest: bool, g0: Gen, n: nat)
      requires g0.valid <= SIZE
      reads this
    {
      && code == (if contTest then Panic else Failed) && (needReset <==> !contTest) && Valid()
      && !NoRepeat(cipher, g0.seed, g0.data, Need(g0.valid, n))
    }

    /** The call has returned its n bytes. */
    ghost predicate Finished(buf: array<Byte>, g0: Gen, n: nat)
      requires g0.valid <= SIZE && n >= 1
      reads this, buf
    {
      && Valid() && !needReset && n <= buf.Length && buf[..n] == Ahead(cipher, g0, n) && Model() == Call(cipher, g0, n)
      && NoRepeat(cipher, g0.seed, g0.data, Need(g0.valid, n))
    }

    /** One turn of the loop over whole blocks: what is left of a block, or a whole one. */
    method BlockTurn(buf: array<Byte>, ptr: nat, count: nat, contTest: bool, ghost g0: Gen, ghost k: nat)
      returns (code: Code, ptr': nat, count': nat, ghost k': nat)
      requires g0.valid <= SIZE && Going(buf, ptr, g0, k) && count >= SIZE && ptr + count <= buf.Length
      modifies this, buf
      ensures cipher == old(cipher) && fixedSize == old(fixedSize)
      ensures ptr' + count' == ptr + count && buf[ptr + count..] == old(buf[ptr + count..])
      ensures code != Ok ==> Broken(code, contTest, g0, ptr + count)
      ensures code == Ok ==> Going(buf, ptr', g0, k') && randDataValid == SIZE && ptr' > ptr
      ensures code == Ok && count' == 0 ==> ptr' >= SIZE
    {
      code, k' := Refill(contTest, g0, k, ptr);
      ptr', count' := ptr, count;
      if code != Ok {
        RepeatMet(cipher, g0, k, ptr + count, ptr);
      } else if randDataValid > 0 {
        ptr', count' := CopyRest(buf, ptr, count, g0, k');
        assert buf[ptr + count..] == buf[ptr'..][count'..];
      } else {
        CopyBlock(buf, ptr, g0, k');
        ptr', count' := ptr + SIZE, count - SIZE;
        assert buf[ptr + count..] == buf[ptr'..][count'..];
      }
    }

    /** Where a call for n bytes stands: it has failed, is done, or has less than a block to go from a fresh one. */
    ghost predicate Handled(code: Code, contTest: bool, buf: array<Byte>, g0: Gen, n: nat, ptr: nat, count: nat, k: nat)
      requires g0.valid <= SIZE && 1 <= n <= buf.Length
      reads this, buf
    {
      if code != Ok then Broken(code, contTest, g0, n)
      else if count == 0 then Finished(buf, g0, n)
      else Going(buf, ptr, g0, k) && count < SIZE && randDataValid == SIZE
    }

    /** The loop over whole blocks. */
    method WholeBlocks(buf: array<Byte>, ptr: nat, count: nat, contTest: bool, ghost g0: Gen, ghost k: nat)
      returns (code: Code, ptr': nat, count': nat, ghost k': nat)
      requires g0.valid <= SIZE && Going(buf, ptr, g0, k) && count >= 1 && ptr + count <= buf.Length
      requires count >= SIZE || randDataValid == SIZE
      modifies this, buf
      ensures cipher == old(cipher) && fixedSize == old(fixedSize)
      ensures ptr' + count' == ptr + count && buf[ptr + count..] == old(buf[ptr + count..])
      ensures Handled(code, contTest, buf, g0, ptr + count, ptr', count', k')
    {
      code, ptr', count', k' := Ok, ptr, count, k;
      while code == Ok && count' >= SIZE
        invariant ptr' + count' == ptr + count && buf[ptr + count..] == old(buf[ptr + count..])
        invariant cipher == old(cipher) && fixedSize == old(fixedSize)
        invariant code != Ok ==> Broken(code, contTest, g0, ptr + count)
        invariant code == Ok ==> Going(buf, ptr', g0, k') && (count' >= SIZE || randDataValid == SIZE)
        invariant code == Ok && count' == 0 ==> ptr' >= SIZE
        decreases code == Ok, count'
      {
        code, ptr', count', k' := BlockTurn(buf, ptr', count', contTest, g0, k');
      }
      if code == Ok && count' == 0 {
        EndedOnBlock(cipher, g0, k', Model(), ptr + count);
      }
    }

    /** The bytes of a request for less than a block, as far as the block has them. */
    method LastBytes(buf: array<Byte>, ptr: nat, count: nat, ghost g0: Gen, ghost k: nat)
      returns (ptr': nat, count': nat)
      requires g0.valid <= SIZE && Going(buf, ptr, g0, k) && 1 <= count < SIZE && ptr + count <= buf.Length
      requires (ptr == 0 && randDataValid < SIZE) || randDataValid == 0
      modifies `randDataValid, buf
      ensures ptr' + count' == ptr + count && count' < count && buf[ptr + count..] == old(buf[ptr + count..])
      ensures if count' == 0 then Finished(buf, g0, ptr + count) else Going(buf, ptr', g0, k) && randDataValid == SIZE
    {
      ptr', count' := CopyRest(buf, ptr, count, g0, k);
      assert buf[ptr + count..] == buf[ptr'..][count'..];
      if count' == 0 {
        EndedInside(cipher, g0, k, Model(), ptr + count);
      }
    }

    /** remainder: from a fresh block if need be, the bytes of a request for less than a block. */
    method Remainder(buf: array<Byte>, ptr: nat, count: nat, contTest: bool, ghost g0: Gen, ghost k: nat)
      returns (code: Code, ptr': nat, count': nat, ghost k': nat)
      requires g0.valid <= SIZE && Going(buf, ptr, g0, k) && count >= 1 && ptr + count <= buf.Length
      requires ptr == 0 || (randDataValid == SIZE && count < SIZE)
      modifies this, buf
      ensures cipher == old(cipher) && fixedSize == old(fixedSize)
      ensures ptr' + count' == ptr + count && count' <= count && buf[ptr + count..] == old(buf[ptr + count..])
      ensures code != Ok ==> Broken(code, contTest, g0, ptr + count)
      ensures code == Ok ==> if count' == 0 then Finished(buf, g0, ptr + count)
                             else
                               && Going(buf, ptr', g0, k')
                               && (count' >= SIZE || (count' < count && randDataValid == SIZE))
    {
      code, k' := Refill(contTest, g0, k, ptr);
      ptr', count' := ptr, count;
      if code != Ok {
        RepeatMet(cipher, g0, k, ptr + count, ptr);
      } else if count < SIZE {
        ptr', count' := LastBytes(buf, ptr, count, g0, k');
      }
    }

    /** One turn from the label remainder to the jump back to it. */
    method Turn(buf: array<Byte>, ptr: nat, count: nat, contTest: bool, ghost g0: Gen, ghost k: nat)
      returns (code: Code, ptr': nat, count': nat, ghost k': nat)
      requires g0.valid <= SIZE && Going(buf, ptr, g0, k) && count >= 1 && ptr + count <= buf.Length
      requires ptr == 0 || (randDataValid == SIZE && count < SIZE)
      modifies this, buf
      ensures cipher == old(cipher) && fixedSize == old(fixedSize)
      ensures ptr' + count' == ptr + count && buf[ptr + count..] == old(buf[ptr + count..])
      ensures Handled(code, contTest, buf, g0, ptr + count, ptr', count', k') && (code == Ok ==> count' < count)
    {
      code, ptr', count', k' := Remainder(buf, ptr, count, contTest, g0, k);
      if code == Ok && count' > 0 {
        code, ptr', count', k' := WholeBlocks(buf, ptr', count', contTest, g0, k');
      }
    }

    /** The body of get_prng_bytes once the number of bytes is settled. */
    method Fill(buf: array<Byte>, n: nat, contTest: bool) returns (code: Code)
      requires Valid() && !needReset && 1 <= n <= buf.Length
      modifies this, buf
      ensures cipher == old(cipher) && fixedSize == old(fixedSize) && buf[n..] == old(buf[n..])
      ensures if code == Ok then Finished(buf, old(Model()), n) else Broken(code, contTest, old(Model()), n)
    {
      ghost var g0, k := Model(), 0;
      var ptr: nat, count: nat := 0, n;
      code := Ok;
      while code == Ok && count > 0
        invariant ptr + count == n && buf[n..] == old(buf[n..]) && cipher == old(cipher) && fixedSize == old(fixedSize)
        invariant code != Ok ==> Broken(code, contTest, g0, n)
        invariant code == Ok && count == 0 ==> Finished(buf, g0, n)
        invariant code == Ok && count > 0 ==>
                    Going(buf, ptr, g0, k) && (ptr == 0 || (randDataValid == SIZE && count < SIZE))
        decreases code == Ok, count
      {
        code, ptr, count, k := Turn(buf, ptr, count, contTest, g0, k);
      }
    }

    /** memset of the caller's buffer. */
    static method Clear(buf: array<Byte>, n: nat)
      requires n <= buf.Length
      modifies buf
      ensures (forall j :: 0 <= j < n ==> buf[j] == 0) && buf[n..] == old(buf[n..])
    {
      var j := 0;
      while j < n
        invariant 0 <= j <= n && buf[n..] == old(buf[n..])
        invariant forall m :: 0 <= m < j ==> buf[m] == 0
      {
        buf[j] := 0;
        j := j + 1;
      }
    }

    /** get_prng_bytes */
    method GetBytes(buf: array<Byte>, nbytes: nat, contTest: bool) returns (r: Outcome)
      requires Valid() && nbytes <= buf.Length && (nbytes >= 1 || needReset || fixedSize)
      modifies this, buf
      ensures cipher == old(cipher) && fixedSize == old(fixedSize) && Valid() && buf[nbytes..] == old(buf[nbytes..])
      ensures
        var g := old(Model());
        var n := if fixedSize then SIZE else nbytes;
        if old(needReset) || nbytes < n then r == Invalid && Model() == g && buf[..] == old(buf[..])
        else if NoRepeat(cipher, g.seed, g.data, Need(g.valid, n)) then
          && r == Filled(n) && buf[..n] == Ahead(cipher, g, n) && buf[n..] == old(buf[n..])
          && Model() == Call(cipher, g, n) && !needReset
        else if contTest then r == Panicked
        else r == Invalid && needReset && forall j :: 0 <= j < nbytes ==> buf[j] == 0
    {
      if needReset {
        return Invalid;
      }
      var n := nbytes;
      if fixedSize {
        if nbytes < SIZE {
          return Invalid;
        }
        n := SIZE;
      }
      var code := Fill(buf, n, contTest);
      assert buf[nbytes..] == buf[n..][nbytes - n..];
      if code == Panic {
        return Panicked;
      }
      if code == Failed {
        Clear(buf, nbytes);
        return Invalid;
      }
      return Filled(n);
    }

    /** reset_prng_context; `setKey` is the cipher a key gives, if it gives one. */
    method Reset(key: Option<seq<Byte>>, vSeed: Option<Block>, counter: Option<Block>,
                 setKey: seq<Byte> -> Option<Cipher>)
      returns (ok: bool)
      modifies this
      ensures Valid() && fixedSize == old(fixedSize)
      ensures var c := setKey(if key.Some? then key.value else DEFAULT_KEY);
              ok == c.Some? && needReset == c.None? && cipher == (if c.Some? then c.value else old(cipher))
      ensures Model() == Gen(Seed(if counter.Some? then counter.value else ZERO,
                                  if vSeed.Some? then vSeed.value else DEFAULT_SEED),
                             ZERO, SIZE)
      ensures randData == lastRandData
    {
      needReset := true;
      var prngKey := if key.Some? then key.value else DEFAULT_KEY;
      v := if vSeed.Some? then vSeed.value else DEFAULT_SEED;
      dt := if counter.Some? then counter.value else ZERO;
      randData, lastRandData := ZERO, ZERO;
      randDataValid := SIZE;
      var c := setKey(prngKey);
      if c.None? {
        return false;
      }
      cipher := c.value;
      needReset := false;
      return true;
    }

    /** cprng_init: a context that still has to be reset. */
    constructor (cipher: Cipher)
      ensures Valid() && needReset && !fixedSize && this.cipher == cipher
    {
      this.cipher := cipher;
      randData, lastRandData, dt, i, v := ZERO, ZERO, ZERO, ZERO, ZERO;
      randDataValid, fixedSize, needReset := SIZE, false, true;
    }
  }
}
