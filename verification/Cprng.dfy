/**
 The generator of ANSI X9.31 Appendix A.2.4 (crypto/ansi_cprng.c).

 The block cipher is any function on blocks.  The blocks form one byte stream; the context holds the
 last block and how much of it has been used.
 */
module Cprng {
  import opened Sums

  type Byte = bv8
  const SIZE: nat := 16
  type Block = b: seq<Byte> | |b| == SIZE witness seq(SIZE, _ => 0)
  type Cipher = Block -> Block

  function Xor(a: Block, b: Block): Block {
    seq(SIZE, i requires 0 <= i < SIZE => a[i] ^ b[i])
  }

  // ---------------------------------------------------------------------------
  // The counter
  // ---------------------------------------------------------------------------

  /** The increment: from the last byte on, up to the first that does not become zero. */
  function Inc(b: seq<Byte>): (r: seq<Byte>)
    ensures |r| == |b|
  {
    if b == [] then []
    else
      var n := |b| - 1;
      if b[n] + 1 == 0 then Inc(b[..n]) + [0] else b[..n] + [b[n] + 1]
  }

  function BigEndian(b: seq<Byte>): nat {
    if b == [] then 0 else BigEndian(b[..|b| - 1]) * 256 + b[|b| - 1] as nat
  }

  function Pow256(n: nat): nat {
    if n == 0 then 1 else 256 * Pow256(n - 1)
  }

  lemma ByteInc(x: Byte)
    ensures x + 1 == 0 <==> x as nat == 255
    ensures x + 1 != 0 ==> (x + 1) as nat == x as nat + 1
  {
  }

  lemma {:induction false} BigEndianBound(b: seq<Byte>)
    ensures BigEndian(b) < Pow256(|b|)
  {
    if b != [] {
      BigEndianBound(b[..|b| - 1]);
    }
  }

  /** The counter steps as a big-endian integer. */
  lemma {:induction false} IncCounts(b: seq<Byte>)
    ensures BigEndian(Inc(b)) == if BigEndian(b) + 1 == Pow256(|b|) then 0 else BigEndian(b) + 1
  {
    if b != [] {
      var n := |b| - 1;
      ByteInc(b[n]);
      BigEndianBound(b[..n]);
      if b[n] + 1 == 0 {
        IncCounts(b[..n]);
        assert (Inc(b[..n]) + [0])[..n] == Inc(b[..n]);
      } else {
        assert (b[..n] + [b[n] + 1])[..n] == b[..n];
      }
    }
  }

  // ---------------------------------------------------------------------------
  // The stream of blocks
  // ---------------------------------------------------------------------------

  /** The counter DT and the secret V the next block is made from. */
  datatype Seed = Seed(dt: Block, v: Block)

  function Intermediate(e: Cipher, s: Seed): Block {
    e(s.dt)
  }

  /** The block a seed gives. */
  function Out(e: Cipher, s: Seed): Block {
    e(Xor(Intermediate(e, s), s.v))
  }

  function Next(e: Cipher, s: Seed): Seed {
    Seed(Inc(s.dt), e(Xor(Out(e, s), Intermediate(e, s))))
  }

  /** The bytes of the blocks from a seed on, one after the other. */
  function Stream(e: Cipher, s: Seed, i: nat): Byte
    decreases i
  {
    if i < SIZE then Out(e, s)[i] else Stream(e, Next(e, s), i - SIZE)
  }

  /** The seed of the n-th block from `s` on. */
  function SeedAt(e: Cipher, s: Seed, n: nat): Seed
    decreases n
  {
    if n == 0 then s else SeedAt(e, Next(e, s), n - 1)
  }

  lemma {:induction false} SeedNext(e: Cipher, s: Seed, n: nat)
    ensures SeedAt(e, s, n + 1) == Next(e, SeedAt(e, s, n))
    decreases n
  {
    if n > 0 {
      SeedNext(e, Next(e, s), n - 1);
    }
  }

  lemma {:induction false} StreamBlock(e: Cipher, s: Seed, n: nat, j: nat)
    requires j < SIZE
    ensures Stream(e, s, SIZE * n + j) == Out(e, SeedAt(e, s, n))[j]
    decreases n
  {
    if n > 0 {
      StreamBlock(e, Next(e, s), n - 1, j);
      assert SIZE * n + j - SIZE == SIZE * (n - 1) + j;
    }
  }

  function IncBy(b: seq<Byte>, n: nat): (r: seq<Byte>)
    ensures |r| == |b|
    decreases n
  {
    if n == 0 then b else IncBy(Inc(b), n - 1)
  }

  lemma {:induction false} IncByCounts(b: seq<Byte>, n: nat)
    requires BigEndian(b) + n < Pow256(|b|)
    ensures BigEndian(IncBy(b, n)) == BigEndian(b) + n
    decreases n
  {
    if n > 0 {
      IncCounts(b);
      IncByCounts(Inc(b), n - 1);
    }
  }

  /** The counter of the n-th block. */
  lemma {:induction false} SeedCounts(e: Cipher, s: Seed, n: nat)
    ensures SeedAt(e, s, n).dt == IncBy(s.dt, n)
    decreases n
  {
    if n > 0 {
      SeedCounts(e, Next(e, s), n - 1);
    }
  }

  /**
   The blocks are those of Appendix A.2.4 of ANSI X9.31: with I the encrypted counter, a block is the encryption
   of I xor V, the next V that of I xor the block, and the counter goes up by one from block to block.
   */
  lemma BlocksFollow(e: Cipher, s: Seed, n: nat)
    ensures var c, d := SeedAt(e, s, n), SeedAt(e, s, n + 1);
            var i := e(c.dt);
            var r := e(seq(SIZE, j requires 0 <= j < SIZE => i[j] ^ c.v[j]));
            && (forall j :: 0 <= j < SIZE ==> Stream(e, s, SIZE * n + j) == r[j])
            && d.v == e(seq(SIZE, j requires 0 <= j < SIZE => r[j] ^ i[j]))
            && (BigEndian(s.dt) + n < Pow256(|s.dt|) ==> BigEndian(c.dt) == BigEndian(s.dt) + n)
  {
    var c := SeedAt(e, s, n);
    var i := e(c.dt);
    SeedNext(e, s, n);
    SeedCounts(e, s, n);
    if BigEndian(s.dt) + n < Pow256(|s.dt|) {
      IncByCounts(s.dt, n);
    }
    assert seq(SIZE, j requires 0 <= j < SIZE => i[j] ^ c.v[j]) == Xor(i, c.v);
    var r := e(Xor(i, c.v));
    assert seq(SIZE, j requires 0 <= j < SIZE => r[j] ^ i[j]) == Xor(r, i);
    forall j | 0 <= j < SIZE ensures Stream(e, s, SIZE * n + j) == r[j] {
      StreamBlock(e, s, n, j);
    }
  }

  /** The next k blocks all differ from the block before them. */
  predicate NoRepeat(e: Cipher, s: Seed, before: Block, k: nat)
    decreases k
  {
    k == 0 || (Out(e, s) != before && NoRepeat(e, Next(e, s), Out(e, s), k - 1))
  }

  // ---------------------------------------------------------------------------
  // What a call does
  // ---------------------------------------------------------------------------

  /** The context: the seed of the next block, the last block, and where in it the next byte is. */
  datatype Gen = Gen(seed: Seed, data: Block, valid: nat)

  /** The bytes of the last block, and then those of the blocks to come. */
  function Tape(e: Cipher, g: Gen, i: nat): Byte {
    if i < SIZE then g.data[i] else Stream(e, g.seed, i - SIZE)
  }

  /** The bytes a context has ahead of it. */
  function Ahead(e: Cipher, g: Gen, n: nat): seq<Byte> {
    seq(n, i requires 0 <= i < n => Tape(e, g, g.valid + i))
  }

  /** k blocks further. */
  function Advance(e: Cipher, g: Gen, k: nat): Gen
    decreases k
  {
    if k == 0 then g else Advance(e, Gen(Next(e, g.seed), Out(e, g.seed), g.valid), k - 1)
  }

  /** How many new blocks a call for n bytes needs. */
  function Need(valid: nat, n: nat): nat
    requires valid <= SIZE
  {
    if n <= SIZE - valid then 0 else (valid + n - 1) / SIZE
  }

  /** The call ends with the copy of a whole block. */
  predicate EndsOnBlock(valid: nat, n: nat) {
    n >= SIZE && (valid + n) % SIZE == 0
  }

  /** The context after a call for n bytes that meets no repetition. */
  function Call(e: Cipher, g: Gen, n: nat): (r: Gen)
    requires g.valid <= SIZE && n >= 1
    ensures r.valid <= SIZE
  {
    var k := Need(g.valid, n);
    Advance(e, g, k).(valid := g.valid + n - SIZE * k - if EndsOnBlock(g.valid, n) then 0 else 1)
  }

  /** Blocks further on, the tape starts later. */
  lemma {:induction false} AdvanceTape(e: Cipher, g: Gen, k: nat, i: nat)
    ensures Tape(e, Advance(e, g, k), i) == Tape(e, g, i + SIZE * k)
    decreases k
  {
    if k > 0 {
      var g1 := Gen(Next(e, g.seed), Out(e, g.seed), g.valid);
      AdvanceTape(e, g1, k - 1, i);
      assert Tape(e, g1, i + SIZE * (k - 1)) == Stream(e, g.seed, i + SIZE * (k - 1));
    }
  }

  /**
   A call moves on by as many bytes as it returns when it ends on a whole block, and by one byte less
   otherwise: the last byte of a partial copy is not counted as used.
   */
  lemma CallMoves(e: Cipher, g: Gen, n: nat, i: nat)
    requires g.valid <= SIZE && n >= 1
    ensures var r := Call(e, g, n);
            Tape(e, r, r.valid + i) == Tape(e, g, g.valid + n - (if EndsOnBlock(g.valid, n) then 0 else 1) + i)
  {
    AdvanceTape(e, g, Need(g.valid, n), Call(e, g, n).valid + i);
  }

  predicate Constant(s: seq<Byte>) {
    forall i :: 0 <= i < |s| ==> s[i] == s[0]
  }

  lemma {:induction false} StepsConstant(s: seq<Byte>, i: nat)
    requires i < |s| && forall j :: 0 <= j < |s| - 1 ==> s[..|s| - 1][j] == s[1..][j]
    ensures s[i] == s[0]
  {
    if i > 0 {
      StepsConstant(s, i - 1);
      assert s[..|s| - 1][i - 1] == s[1..][i - 1];
    }
  }

  /** A sequence equals itself moved by one only if it is constant. */
  lemma ShiftedConstant(s: seq<Byte>)
    requires s != []
    ensures s[..|s| - 1] == s[1..] <==> Constant(s)
  {
    if s[..|s| - 1] == s[1..] {
      forall i | 0 <= i < |s| ensures s[i] == s[0] {
        StepsConstant(s, i);
      }
    }
  }

  /** What the second of two calls returns. */
  lemma SecondCall(e: Cipher, g: Gen, a: nat, b: nat)
    requires g.valid <= SIZE && a >= 1
    ensures var all := Ahead(e, g, a + b);
            Ahead(e, Call(e, g, a), b) == if EndsOnBlock(g.valid, a) then all[a..] else all[a - 1..a + b - 1]
  {
    var all, second := Ahead(e, g, a + b), Ahead(e, Call(e, g, a), b);
    var want := if EndsOnBlock(g.valid, a) then all[a..] else all[a - 1..a + b - 1];
    forall i | 0 <= i < b ensures second[i] == want[i] {
      CallMoves(e, g, a, i);
    }
  }

  lemma Halves(all: seq<Byte>, second: seq<Byte>, a: nat)
    requires a <= |all|
    ensures all[..a] + second == all <==> second == all[a..]
  {
    assert all == all[..a] + all[a..];
    if all[..a] + second == all {
      assert second == (all[..a] + second)[a..];
    }
  }

  /** A part of a sequence, and behind it the rest, or the rest moved back by one. */
  lemma PartAndRest(all: seq<Byte>, second: seq<Byte>, a: nat, b: nat, ends: bool)
    requires |all| == a + b && a >= 1 && second == if ends then all[a..] else all[a - 1..a + b - 1]
    ensures all[..a] + second == all <==> ends || Constant(all[a - 1..])
  {
    Halves(all, second, a);
    var s := all[a - 1..];
    ShiftedConstant(s);
    assert s[1..] == all[a..] && s[..|s| - 1] == all[a - 1..a + b - 1];
  }

  lemma AheadPrefix(e: Cipher, g: Gen, a: nat, n: nat)
    requires g.valid <= SIZE && a <= n
    ensures Ahead(e, g, n)[..a] == Ahead(e, g, a)
  {
  }

  /**
   Two calls give consecutive bytes of the stream exactly when the first ends on a whole block, or
   all bytes from the last of the first call on are the same anyway.
   */
  lemma TwoCalls(e: Cipher, g: Gen, a: nat, b: nat)
    requires g.valid <= SIZE && a >= 1
    ensures Ahead(e, g, a) + Ahead(e, Call(e, g, a), b) == Ahead(e, g, a + b)
            <==> EndsOnBlock(g.valid, a) || Constant(Ahead(e, g, a + b)[a - 1..])
  {
    AheadPrefix(e, g, a, a + b);
    SecondCall(e, g, a, b);
    PartAndRest(Ahead(e, g, a + b), Ahead(e, Call(e, g, a), b), a, b, EndsOnBlock(g.valid, a));
  }

  // ---------------------------------------------------------------------------
  // Many calls
  // ---------------------------------------------------------------------------

  ghost predicate Sizes(ns: seq<nat>) {
    forall i :: 0 <= i < |ns| ==> ns[i] >= 1
  }

  /** What a sequence of calls returns, all together. */
  ghost function Calls(e: Cipher, g: Gen, ns: seq<nat>): seq<Byte>
    requires g.valid <= SIZE && Sizes(ns)
    decreases |ns|
  {
    if ns == [] then [] else Ahead(e, g, ns[0]) + Calls(e, Call(e, g, ns[0]), ns[1..])
  }

  /** All calls but the last end on a whole block. */
  ghost predicate OnBlocks(valid: nat, ns: seq<nat>)
    decreases |ns|
  {
    |ns| <= 1 || (EndsOnBlock(valid, ns[0]) && OnBlocks(SIZE, ns[1..]))
  }

  /** When every call but the last ends on a whole block, the calls return the stream, however the total is split. */
  lemma {:induction false} CallsFollow(e: Cipher, g: Gen, ns: seq<nat>)
    requires g.valid <= SIZE && Sizes(ns) && OnBlocks(g.valid, ns)
    ensures Calls(e, g, ns) == Ahead(e, g, Sum(ns))
    decreases |ns|
  {
    if ns != [] {
      var g1 := Call(e, g, ns[0]);
      if |ns| == 1 {
        assert Calls(e, g1, ns[1..]) == [];
      } else {
        assert g1.valid == SIZE;
        CallsFollow(e, g1, ns[1..]);
        TwoCalls(e, g, ns[0], Sum(ns[1..]));
      }
    }
  }

  ghost predicate Changes(e: Cipher, g: Gen, i: nat) {
    Tape(e, g, g.valid + i) != Tape(e, g, g.valid + i + 1)
  }

  /** Each of the next n bytes differs from the one after it. */
  ghost predicate Lively(e: Cipher, g: Gen, n: nat) {
    forall i: nat :: i < n ==> Changes(e, g, i)
  }

  lemma LivelyRest(e: Cipher, g: Gen, a: nat, n: nat)
    requires g.valid <= SIZE && a >= 1 && EndsOnBlock(g.valid, a) && Lively(e, g, a + n)
    ensures Lively(e, Call(e, g, a), n)
  {
    forall i: nat | i < n ensures Changes(e, Call(e, g, a), i) {
      CallMoves(e, g, a, i);
      CallMoves(e, g, a, i + 1);
      assert Changes(e, g, a + i);
    }
  }

  /** A call that does not end on a whole block is followed by a byte that is not the next of the stream. */
  lemma NotNext(e: Cipher, g: Gen, a: nat, later: seq<Byte>, n: nat)
    requires g.valid <= SIZE && 1 <= a < n && !EndsOnBlock(g.valid, a) && Changes(e, g, a - 1)
    requires later != [] && later[0] == Tape(e, Call(e, g, a), Call(e, g, a).valid)
    ensures Ahead(e, g, a) + later != Ahead(e, g, n)
  {
    CallMoves(e, g, a, 0);
    assert (Ahead(e, g, a) + later)[a] == later[0];
    assert Ahead(e, g, n)[a] == Tape(e, g, g.valid + a);
  }

  lemma CallsStart(e: Cipher, g: Gen, ns: seq<nat>)
    requires g.valid <= SIZE && Sizes(ns) && ns != []
    ensures Calls(e, g, ns) != [] && Calls(e, g, ns)[0] == Tape(e, g, g.valid)
  {
    assert Ahead(e, g, ns[0])[0] == Tape(e, g, g.valid + 0);
  }

  lemma SameTail(first: seq<Byte>, a: seq<Byte>, b: seq<Byte>)
    ensures first + a == first + b <==> a == b
  {
    assert (first + a)[|first|..] == a && (first + b)[|first|..] == b;
  }

  lemma NotFollowed(e: Cipher, g: Gen, ns: seq<nat>)
    requires g.valid <= SIZE && Sizes(ns) && |ns| >= 2 && !EndsOnBlock(g.valid, ns[0]) && Changes(e, g, ns[0] - 1)
    ensures Calls(e, g, ns) != Ahead(e, g, Sum(ns))
  {
    var rest := ns[1..];
    CallsStart(e, Call(e, g, ns[0]), rest);
    assert Sum(rest) == rest[0] + Sum(rest[1..]);
    NotNext(e, g, ns[0], Calls(e, Call(e, g, ns[0]), rest), Sum(ns));
  }

  lemma FollowedStep(e: Cipher, g: Gen, ns: seq<nat>)
    requires g.valid <= SIZE && Sizes(ns) && ns != [] && EndsOnBlock(g.valid, ns[0])
    ensures var g1, rest := Call(e, g, ns[0]), ns[1..];
            Calls(e, g, ns) == Ahead(e, g, Sum(ns)) <==> Calls(e, g1, rest) == Ahead(e, g1, Sum(rest))
  {
    var g1, rest := Call(e, g, ns[0]), ns[1..];
    TwoCalls(e, g, ns[0], Sum(rest));
    SameTail(Ahead(e, g, ns[0]), Calls(e, g1, rest), Ahead(e, g1, Sum(rest)));
  }

  /**
   On a stream whose neighbouring bytes differ, the calls return the stream exactly when all but the last end
   on a whole block.
   */
  lemma {:induction false} CallsFollowIff(e: Cipher, g: Gen, ns: seq<nat>)
    requires g.valid <= SIZE && Sizes(ns) && Lively(e, g, Sum(ns))
    ensures Calls(e, g, ns) == Ahead(e, g, Sum(ns)) <==> OnBlocks(g.valid, ns)
    decreases |ns|
  {
    if |ns| <= 1 {
      CallsFollow(e, g, ns);
    } else if EndsOnBlock(g.valid, ns[0]) {
      var g1 := Call(e, g, ns[0]);
      assert g1.valid == SIZE;
      LivelyRest(e, g, ns[0], Sum(ns[1..]));
      CallsFollowIff(e, g1, ns[1..]);
      FollowedStep(e, g, ns);
    } else {
      assert Changes(e, g, ns[0] - 1);
      NotFollowed(e, g, ns);
    }
  }

  ghost function After(e: Cipher, g: Gen, ns: seq<nat>): (r: Gen)
    requires g.valid <= SIZE && Sizes(ns)
    ensures r.valid <= SIZE
    decreases |ns|
  {
    if ns == [] then g else After(e, Call(e, g, ns[0]), ns[1..])
  }

  /** How many of the calls do not end on a whole block. */
  ghost function Partial(e: Cipher, g: Gen, ns: seq<nat>): nat
    requires g.valid <= SIZE && Sizes(ns)
    decreases |ns|
  {
    if ns == [] then 0
    else (if EndsOnBlock(g.valid, ns[0]) then 0 else 1) + Partial(e, Call(e, g, ns[0]), ns[1..])
  }

  lemma {:induction false} PartialBound(e: Cipher, g: Gen, ns: seq<nat>)
    requires g.valid <= SIZE && Sizes(ns)
    ensures Partial(e, g, ns) <= Sum(ns)
    decreases |ns|
  {
    if ns != [] {
      PartialBound(e, Call(e, g, ns[0]), ns[1..]);
    }
  }

  /**
   Where the stream stands after calls: behind all bytes returned, less one for each call that does not end
   on a whole block.
   */
  ghost function Moved(e: Cipher, g: Gen, ns: seq<nat>): nat
    requires g.valid <= SIZE && Sizes(ns)
  {
    PartialBound(e, g, ns);
    Sum(ns) - Partial(e, g, ns)
  }

  lemma MovedStep(e: Cipher, g: Gen, ns: seq<nat>)
    requires g.valid <= SIZE && Sizes(ns) && ns != []
    ensures Moved(e, g, ns) == ns[0] - (if EndsOnBlock(g.valid, ns[0]) then 0 else 1) +
            Moved(e, Call(e, g, ns[0]), ns[1..])
  {
  }

  /** Every call that does not end on a whole block sets the stream back by one byte, for all calls after it. */
  lemma {:induction false} CallsMove(e: Cipher, g: Gen, ns: seq<nat>, i: nat)
    requires g.valid <= SIZE && Sizes(ns)
    ensures Tape(e, After(e, g, ns), After(e, g, ns).valid + i) == Tape(e, g, g.valid + Moved(e, g, ns) + i)
    decreases |ns|
  {
    if ns != [] {
      var g1, rest := Call(e, g, ns[0]), ns[1..];
      CallsMove(e, g1, rest, i);
      MovedStep(e, g, ns);
      CallMoves(e, g, ns[0], Moved(e, g1, rest) + i);
    }
  }

  /** With any cipher, two calls for one byte at the start of a block return the same byte. */
  lemma SameByteTwice(e: Cipher, g: Gen)
    requires g.valid == SIZE
    ensures Ahead(e, Call(e, g, 1), 1) == Ahead(e, g, 1)
  {
    SecondCall(e, g, 1, 1);
    assert Ahead(e, g, 2)[0..1] == Ahead(e, g, 1);
  }

  const ZERO: Block := seq(SIZE, _ => 0)
  const ONE_ZERO: Block := [1] + seq(SIZE - 1, _ => 0)

  function Plain(b: Block): Block {
    b
  }

  const START := Gen(Seed(ZERO, ONE_ZERO), ZERO, SIZE)

  /** A stream that starts 1, 0 is returned as 1, 1. */
  lemma StreamNotFollowed()
    ensures Calls(Plain, START, [1, 1]) == [1, 1] && Ahead(Plain, START, 2) == [1, 0]
  {
    var g1 := Call(Plain, START, 1);
    assert Out(Plain, START.seed) == ONE_ZERO;
    assert Tape(Plain, START, SIZE) == ONE_ZERO[0] && Tape(Plain, START, SIZE + 1) == ONE_ZERO[1];
    assert Ahead(Plain, START, 1) == [1];
    SameByteTwice(Plain, START);
    assert [1, 1][1..] == [1];
    assert Calls(Plain, g1, [1]) == Ahead(Plain, g1, 1) + Calls(Plain, Call(Plain, g1, 1), []);
  }
}
