/**
 The context of crypto/aes_generic.c: the expanded keys, filled in place, and the two ciphers that
 run over them.
 */
module AesContext {
  import opened AesRounds
  import opened Fips197
  import opened AesCode

  // ---------------------------------------------------------------------------
  // The key expansion of section 5.2 of FIPS-197
  // ---------------------------------------------------------------------------

  function Power(x: Map, n: nat): Byte {
    if n == 0 then Byte(1) else x(Power(x, n - 1))
  }

  /** The round constant of section 5.2. */
  function Rcon(x: Map, i: nat): Col
    requires i >= 1
  {
    Col(Power(x, i - 1), ZERO, ZERO, ZERO)
  }

  /** What word i of the schedule adds to the word Nk before it. */
  function Temp(tb: Tables, key: seq<Col>, i: nat): Col
    requires 1 <= |key| <= i
    decreases i, 0
  {
    var t, nk := KeyWord(tb, key, i - 1), |key|;
    if i % nk == 0 then XorCol(SubWord(tb.sub, Ror8(t)), Rcon(tb.x, i / nk))
    else if nk > 6 && i % nk == 4 then SubWord(tb.sub, t)
    else t
  }

  /** Word i of the key schedule. */
  function KeyWord(tb: Tables, key: seq<Col>, i: nat): Col
    requires |key| >= 1
    decreases i, 1
  {
    if i < |key| then key[i] else XorCol(KeyWord(tb, key, i - |key|), Temp(tb, key, i))
  }

  function RoundKey(tb: Tables, key: seq<Col>, r: nat): State
    requires |key| >= 1
  {
    State(KeyWord(tb, key, 4 * r), KeyWord(tb, key, 4 * r + 1), KeyWord(tb, key, 4 * r + 2),
          KeyWord(tb, key, 4 * r + 3))
  }

  /** The keys of all rounds: Nr is Nk + 6. */
  function RoundKeys(tb: Tables, key: seq<Col>): (w: seq<State>)
    requires |key| >= 1
    ensures |w| == |key| + 7
  {
    seq(|key| + 7, r requires r >= 0 => RoundKey(tb, key, r))
  }

  /** The rco_tab of the code. */
  const RCO_TAB: seq<Byte> :=
    [Byte(1), Byte(2), Byte(4), Byte(8), Byte(16), Byte(32), Byte(64), Byte(128), Byte(27), Byte(54)]

  ghost predicate RcoFits(x: Map) {
    forall i :: 0 <= i < 10 ==> RCO_TAB[i] == Power(x, i)
  }

  // ---------------------------------------------------------------------------
  // Bytes and words
  // ---------------------------------------------------------------------------

  /** le32_to_cpu of word i. */
  function WordAt(b: seq<Byte>, i: nat): Col
    requires 4 * i + 4 <= |b|
  {
    Col(b[4 * i], b[4 * i + 1], b[4 * i + 2], b[4 * i + 3])
  }

  function Words(b: seq<Byte>): (w: seq<Col>)
    requires |b| % 4 == 0
    ensures |w| == |b| / 4
  {
    seq(|b| / 4, i requires 0 <= i < |b| / 4 => WordAt(b, i))
  }

  function Load(b: seq<Byte>): State
    requires |b| == 16
  {
    State(WordAt(b, 0), WordAt(b, 1), WordAt(b, 2), WordAt(b, 3))
  }

  function Store(s: State): (b: seq<Byte>)
    ensures |b| == 16
  {
    [s.c0.b0, s.c0.b1, s.c0.b2, s.c0.b3, s.c1.b0, s.c1.b1, s.c1.b2, s.c1.b3,
     s.c2.b0, s.c2.b1, s.c2.b2, s.c2.b3, s.c3.b0, s.c3.b1, s.c3.b2, s.c3.b3]
  }

  lemma LoadStore(s: State)
    ensures Load(Store(s)) == s
  {
  }

  lemma StoreLoad(b: seq<Byte>)
    requires |b| == 16
    ensures Store(Load(b)) == b
  {
  }

  /** ls_box */
  function LsBox(tb: Tables, c: Col): Col {
    XorCol(XorCol(XorCol(Fl(tb, c.b0), Ror24(Fl(tb, c.b1))), Ror16(Fl(tb, c.b2))), Ror8(Fl(tb, c.b3)))
  }

  lemma LsBoxSame(tb: Tables, c: Col)
    ensures LsBox(tb, c) == SubWord(tb.sub, c)
  {
    WithZeros(tb.sub(c.b0));
    WithZeros(tb.sub(c.b1));
    WithZeros(tb.sub(c.b2));
    WithZeros(tb.sub(c.b3));
    WithZeros(ZERO);
  }

  lemma ColSwap(a: Col, b: Col)
    ensures XorCol(a, b) == XorCol(b, a)
  {
    Swap(a.b0, b.b0);
    Swap(a.b1, b.b1);
    Swap(a.b2, b.b2);
    Swap(a.b3, b.b3);
  }

  /** XOR with an entry of rco_tab, which sits in the lowest byte. */
  function AddRco(t: Col, i: nat): Col
    requires i < 10
  {
    XorCol(t, Col(RCO_TAB[i], ZERO, ZERO, ZERO))
  }

  /** The first word of a group of Nk: what the macros compute from the word before it. */
  lemma TempAtStart(tb: Tables, key: seq<Col>, i: nat, at: nat, t: Col)
    requires |key| >= 1 && RcoFits(tb.x) && i < 10 && at >= |key| && at % |key| == 0 && at / |key| == i + 1
    requires t == KeyWord(tb, key, at - 1)
    ensures AddRco(LsBox(tb, Ror8(t)), i) == Temp(tb, key, at)
  {
    LsBoxSame(tb, Ror8(t));
  }

  /** Word `at` of the schedule adds the word before it as it is. */
  predicate Plain(nk: nat, at: nat)
    requires nk >= 1
  {
    at % nk != 0 && (nk <= 6 || at % nk != 4)
  }

  lemma Places4(i: nat)
    ensures (4 * i + 4) % 4 == 0 && (4 * i + 4) / 4 == i + 1
    ensures Plain(4, 4 * i + 5) && Plain(4, 4 * i + 6) && Plain(4, 4 * i + 7)
  {
  }

  lemma Places6(i: nat)
    ensures (6 * i + 6) % 6 == 0 && (6 * i + 6) / 6 == i + 1
    ensures Plain(6, 6 * i + 7) && Plain(6, 6 * i + 8) && Plain(6, 6 * i + 9) && Plain(6, 6 * i + 10) &&
            Plain(6, 6 * i + 11)
  {
  }

  lemma Places8(i: nat)
    ensures (8 * i + 8) % 8 == 0 && (8 * i + 8) / 8 == i + 1 && (8 * i + 12) % 8 == 4
    ensures Plain(8, 8 * i + 9) && Plain(8, 8 * i + 10) && Plain(8, 8 * i + 11)
    ensures Plain(8, 8 * i + 13) && Plain(8, 8 * i + 14) && Plain(8, 8 * i + 15)
  {
  }

  /**
   Where the decryption key keeps what word i of the schedule becomes: the rounds are reversed, the words of
   a round not.
   */
  function Mirror(n: nat, i: nat): (j: nat)
    requires n % 4 == 0 && i < n + 4
    ensures j < n + 4
  {
    n - (i - i % 4) + i % 4
  }

  lemma MirrorTwice(n: nat, i: nat)
    requires n % 4 == 0 && i < n + 4
    ensures Mirror(n, Mirror(n, i)) == i
  {
  }

  lemma MirrorWord(n: nat, r: nat, i: nat, c: nat)
    requires n % 4 == 0 && 4 * r + i == n + c && c < 4
    ensures i < n + 4 && Mirror(n, i) == 4 * r + c
  {
  }

  /** A word of the decryption key. */
  function DecWord(tb: Tables, key: seq<Col>, i: nat): Col
    requires |key| >= 1
  {
    if i < 4 || i >= 4 * |key| + 24 then KeyWord(tb, key, i) else InvMixColumn(tb.x, KeyWord(tb, key, i))
  }

  // ---------------------------------------------------------------------------
  // The ciphers
  // ---------------------------------------------------------------------------

  function OpsOf(tb: Tables): Ops<State> {
    AesOps(tb.sub, tb.invSub, tb.x)
  }

  /** The round keys in the order the decryption uses them. */
  function DecKey(tb: Tables, key: seq<Col>, r: nat): State
    requires |key| >= 1 && r <= |key| + 6
  {
    var q := 4 * (|key| + 6 - r);
    State(DecWord(tb, key, q), DecWord(tb, key, q + 1), DecWord(tb, key, q + 2), DecWord(tb, key, q + 3))
  }

  lemma KeyOfWords(tb: Tables, key: seq<Col>, r: nat, c0: Col, c1: Col, c2: Col, c3: Col)
    requires |key| >= 1 && r <= |key| + 6
    requires c0 == DecWord(tb, key, 4 * (|key| + 6 - r) + 0) && c1 == DecWord(tb, key, 4 * (|key| + 6 - r) + 1)
    requires c2 == DecWord(tb, key, 4 * (|key| + 6 - r) + 2) && c3 == DecWord(tb, key, 4 * (|key| + 6 - r) + 3)
    ensures State(c0, c1, c2, c3) == DecKey(tb, key, r)
  {
  }

  function DecKeys(tb: Tables, key: seq<Col>): (d: seq<State>)
    requires |key| >= 1
    ensures |d| == |key| + 7
  {
    seq(|key| + 7, r requires 0 <= r <= |key| + 6 => DecKey(tb, key, r))
  }

  lemma DecKeyMixed(tb: Tables, key: seq<Col>, r: nat)
    requires |key| >= 1 && 0 < r < |key| + 6
    ensures DecKey(tb, key, r) == InvMixColumns(tb.x, RoundKey(tb, key, |key| + 6 - r))
  {
  }

  lemma DecKeyEnds(tb: Tables, key: seq<Col>)
    requires |key| >= 1
    ensures DecKey(tb, key, 0) == RoundKey(tb, key, |key| + 6) && DecKey(tb, key, |key| + 6) == RoundKey(tb, key, 0)
  {
  }

  lemma DecKeyIndexed(tb: Tables, key: seq<Col>, r: nat)
    requires |key| >= 1 && 0 < r < |key| + 6
    ensures DecKeys(tb, key)[r] == InvMixColumns(tb.x, RoundKeys(tb, key)[|key| + 6 - r])
  {
    DecKeyMixed(tb, key, r);
    assert DecKeys(tb, key)[r] == DecKey(tb, key, r);
    assert RoundKeys(tb, key)[|key| + 6 - r] == RoundKey(tb, key, |key| + 6 - r);
  }

  lemma DecKeysEnds(tb: Tables, key: seq<Col>)
    requires |key| >= 1
    ensures DecKeys(tb, key)[0] == RoundKeys(tb, key)[|key| + 6] && DecKeys(tb, key)[|key| + 6] == RoundKeys(tb, key)[0]
  {
    DecKeyEnds(tb, key);
  }

  lemma MixedKeys(x: Map, o: Ops<State>, w: seq<State>, d: seq<State>)
    requires |w| == |d| >= 2 && d[0] == w[|w| - 1] && d[|w| - 1] == w[0]
    requires forall r :: 0 < r < |w| - 1 ==> d[r] == InvMixColumns(x, w[|w| - 1 - r])
    requires forall a {:trigger o.invMix(a)} :: o.invMix(a) == InvMixColumns(x, a)
    ensures DecryptionKeys(o, w, d)
  {
  }

  /** The keys the decryption uses are those of the equivalent inverse cipher. */
  lemma DecKeysFit(tb: Tables, key: seq<Col>)
    requires |key| >= 1
    ensures DecryptionKeys(OpsOf(tb), RoundKeys(tb, key), DecKeys(tb, key))
  {
    DecKeysEnds(tb, key);
    forall r | 0 < r < |key| + 6 ensures DecKeys(tb, key)[r] == InvMixColumns(tb.x, RoundKeys(tb, key)[|key| + 6 - r]) {
      DecKeyIndexed(tb, key, r);
    }
    MixedKeys(tb.x, OpsOf(tb), RoundKeys(tb, key), DecKeys(tb, key));
  }

  /** What aes_encrypt computes. */
  function Encrypted(tb: Tables, key: seq<Col>, block: seq<Byte>): (r: seq<Byte>)
    requires |key| >= 1 && |block| == 16
    ensures |r| == 16
  {
    Store(Cipher(OpsOf(tb), RoundKeys(tb, key), Load(block)))
  }

  /** What aes_decrypt computes. */
  function Decrypted(tb: Tables, key: seq<Col>, block: seq<Byte>): seq<Byte>
    requires |key| >= 1 && |block| == 16
  {
    Store(EqInvCipher(OpsOf(tb), DecKeys(tb, key), Load(block)))
  }

  /** Ciphers that undo one another. */
  ghost predicate Matched(o: Ops<State>, w: seq<State>, d: seq<State>) {
    Undone(o) && Exchanged(o) && DecryptionKeys(o, w, d)
  }

  lemma AesMatched(tb: Tables, key: seq<Col>)
    requires Inverse(tb.sub, tb.invSub) && Linear(tb.x) && |key| >= 1
    ensures Matched(OpsOf(tb), RoundKeys(tb, key), DecKeys(tb, key))
  {
    AesUndone(tb.sub, tb.invSub, tb.x);
    AesExchanged(tb.sub, tb.invSub, tb.x);
    DecKeysFit(tb, key);
  }

  /** A block goes out and comes back. */
  lemma BlockTrip(o: Ops<State>, w: seq<State>, d: seq<State>, block: seq<Byte>)
    requires Matched(o, w, d) && |block| == 16
    ensures Store(EqInvCipher(o, d, Load(Store(Cipher(o, w, Load(block)))))) == block
  {
    var y := Cipher(o, w, Load(block));
    LoadStore(y);
    EqInvCipherSame(o, w, d, y);
    InvCipherInverts(o, w, Load(block));
    StoreLoad(block);
  }

  /** Decryption undoes encryption, for every key and every block. */
  lemma RoundTrip(tb: Tables, key: seq<Col>, block: seq<Byte>)
    requires Inverse(tb.sub, tb.invSub) && Linear(tb.x) && |key| >= 1 && |block| == 16
    ensures Decrypted(tb, key, Encrypted(tb, key, block)) == block
  {
    AesMatched(tb, key);
    BlockTrip(OpsOf(tb), RoundKeys(tb, key), DecKeys(tb, key), block);
  }

  /** The rounds of the code are those of `o`. */
  ghost predicate Rounds(tb: Tables, o: Ops<State>) {
    && (forall a, k {:trigger AddRoundKey(a, k)} :: AddRoundKey(a, k) == o.add(a, k))
    && (forall b, k {:trigger FNround(tb, b, k)} :: FNround(tb, b, k) == o.add(o.mix(o.shift(o.sub(b))), k))
    && (forall b, k {:trigger FLround(tb, b, k)} :: FLround(tb, b, k) == o.add(o.shift(o.sub(b)), k))
    && (forall b, k {:trigger INround(tb, b, k)} :: INround(tb, b, k) == o.add(o.invMix(o.invShift(o.invSub(b))), k))
    && (forall b, k {:trigger ILround(tb, b, k)} :: ILround(tb, b, k) == o.add(o.invShift(o.invSub(b)), k))
  }

  lemma RoundsFit(tb: Tables)
    ensures Rounds(tb, OpsOf(tb))
  {
    var o := OpsOf(tb);
    forall b, k ensures FNround(tb, b, k) == o.add(o.mix(o.shift(o.sub(b))), k) {
      FNroundSame(tb, b, k);
    }
    forall b, k ensures FLround(tb, b, k) == o.add(o.shift(o.sub(b)), k) {
      FLroundSame(tb, b, k);
    }
    forall b, k ensures INround(tb, b, k) == o.add(o.invMix(o.invShift(o.invSub(b))), k) {
      INroundSame(tb, b, k);
    }
    forall b, k ensures ILround(tb, b, k) == o.add(o.invShift(o.invSub(b)), k) {
      ILroundSame(tb, b, k);
    }
  }

  class Context {
    const tb: Tables
    var keyLength: nat
    const keyEnc: array<Col>
    const keyDec: array<Col>

    constructor (tb: Tables)
      ensures this.tb == tb && Sized() && fresh(keyEnc) && fresh(keyDec)
    {
      this.tb, keyLength := tb, 0;
      keyEnc := new Col[60](_ => Col(ZERO, ZERO, ZERO, ZERO));
      keyDec := new Col[60](_ => Col(ZERO, ZERO, ZERO, ZERO));
    }

    ghost predicate Sized() {
      keyEnc.Length == keyDec.Length == 60 && keyEnc != keyDec
    }

    /** The first m words of the schedule are in place. */
    ghost predicate Filled(key: seq<Col>, m: nat)
      requires |key| >= 1 && keyEnc.Length == 60 && m <= 60
      reads keyEnc
    {
      forall j :: 0 <= j < m ==> keyEnc[j] == KeyWord(tb, key, j)
    }

    /** t ^= key_enc[at - Nk]; key_enc[at] = t */
    method Put(ghost key: seq<Col>, nk: nat, at: nat, temp: Col) returns (t: Col)
      requires Sized() && 1 <= nk == |key| <= at < 60 && Filled(key, at) && temp == Temp(tb, key, at)
      modifies keyEnc
      ensures Filled(key, at + 1) && t == KeyWord(tb, key, at)
    {
      t := XorCol(temp, keyEnc[at - nk]);
      ColSwap(temp, keyEnc[at - nk]);
      keyEnc[at] := t;
    }

    /** A word that continues a group. */
    method PutNext(ghost key: seq<Col>, nk: nat, at: nat, prev: Col) returns (t: Col)
      requires Sized() && 1 <= nk == |key| <= at < 60 && Filled(key, at) && prev == KeyWord(tb, key, at - 1)
      requires Plain(nk, at)
      modifies keyEnc
      ensures Filled(key, at + 1) && t == KeyWord(tb, key, at)
    {
      t := Put(key, nk, at, prev);
    }

    /** The first word of a group. */
    method PutFirst(ghost key: seq<Col>, nk: nat, i: nat, at: nat, prev: Col) returns (t: Col)
      requires Sized() && RcoFits(tb.x) && 1 <= nk == |key| <= at < 60 && Filled(key, at) &&
               prev == KeyWord(tb, key, at - 1)
      requires i < 10 && at % nk == 0 && at / nk == i + 1
      modifies keyEnc
      ensures Filled(key, at + 1) && t == KeyWord(tb, key, at)
    {
      TempAtStart(tb, key, i, at, prev);
      t := Ror8(prev);
      t := AddRco(LsBox(tb, t), i);
      t := Put(key, nk, at, t);
    }

    /** Three words that continue a group. */
    method PutThree(ghost key: seq<Col>, nk: nat, at: nat, prev: Col) returns (t: Col)
      requires Sized() && 4 <= nk == |key| <= at && at + 2 < 60 && Filled(key, at) && prev == KeyWord(tb, key, at - 1)
      requires Plain(nk, at) && Plain(nk, at + 1) && Plain(nk, at + 2)
      modifies keyEnc
      ensures Filled(key, at + 3) && t == KeyWord(tb, key, at + 2)
    {
      t := PutNext(key, nk, at, prev);
      t := PutNext(key, nk, at + 1, t);
      t := PutNext(key, nk, at + 2, t);
    }

    /** loop4 */
    method Loop4(ghost key: seq<Col>, i: nat, t0: Col) returns (t: Col)
      requires Sized() && RcoFits(tb.x) && |key| == 4 && i < 10
      requires Filled(key, 4 * i + 4) && t0 == KeyWord(tb, key, 4 * i + 3)
      modifies keyEnc
      ensures Filled(key, 4 * i + 8) && t == KeyWord(tb, key, 4 * i + 7)
    {
      Places4(i);
      t := PutFirst(key, 4, i, 4 * i + 4, t0);
      t := PutThree(key, 4, 4 * i + 5, t);
    }

    /** loop6 */
    method Loop6(ghost key: seq<Col>, i: nat, t0: Col) returns (t: Col)
      requires Sized() && RcoFits(tb.x) && |key| == 6 && i < 8
      requires Filled(key, 6 * i + 6) && t0 == KeyWord(tb, key, 6 * i + 5)
      modifies keyEnc
      ensures Filled(key, 6 * i + 12) && t == KeyWord(tb, key, 6 * i + 11)
    {
      Places6(i);
      t := PutFirst(key, 6, i, 6 * i + 6, t0);
      t := PutThree(key, 6, 6 * i + 7, t);
      t := PutNext(key, 6, 6 * i + 10, t);
      t := PutNext(key, 6, 6 * i + 11, t);
    }

    /** loop8tophalf */
    method Loop8TopHalf(ghost key: seq<Col>, i: nat, t0: Col) returns (t: Col)
      requires Sized() && RcoFits(tb.x) && |key| == 8 && i < 7
      requires Filled(key, 8 * i + 8) && t0 == KeyWord(tb, key, 8 * i + 7)
      modifies keyEnc
      ensures Filled(key, 8 * i + 12) && t == KeyWord(tb, key, 8 * i + 11)
    {
      Places8(i);
      t := PutFirst(key, 8, i, 8 * i + 8, t0);
      t := PutThree(key, 8, 8 * i + 9, t);
    }

    /** The second half of loop8 starts with another substitution. */
    method PutMiddle(ghost key: seq<Col>, at: nat, prev: Col) returns (t: Col)
      requires Sized() && |key| == 8 <= at < 60 && at % 8 == 4 && Filled(key, at) && prev == KeyWord(tb, key, at - 1)
      modifies keyEnc
      ensures Filled(key, at + 1) && t == KeyWord(tb, key, at)
    {
      LsBoxSame(tb, prev);
      t := Put(key, 8, at, LsBox(tb, prev));
    }

    /** loop8 */
    method Loop8(ghost key: seq<Col>, i: nat, t0: Col) returns (t: Col)
      requires Sized() && RcoFits(tb.x) && |key| == 8 && i < 6
      requires Filled(key, 8 * i + 8) && t0 == KeyWord(tb, key, 8 * i + 7)
      modifies keyEnc
      ensures Filled(key, 8 * i + 16) && t == KeyWord(tb, key, 8 * i + 15)
    {
      Places8(i);
      t := Loop8TopHalf(key, i, t0);
      t := PutMiddle(key, 8 * i + 12, t);
      t := PutThree(key, 8, 8 * i + 13, t);
    }

    /** The words of the key itself. */
    method PutKey(inKey: seq<Byte>)
      requires Sized() && |inKey| % 4 == 0 && 16 <= |inKey| <= 32
      modifies keyEnc
      ensures Filled(Words(inKey), |inKey| / 4)
    {
      var i, nk := 0, |inKey| / 4;
      while i < nk
        invariant 0 <= i <= nk && Filled(Words(inKey), i)
      {
        keyEnc[i] := WordAt(inKey, i);
        i := i + 1;
      }
    }

    /** The switch of crypto_aes_expand_key. */
    method FillEnc(inKey: seq<Byte>)
      requires Sized() && RcoFits(tb.x) && |inKey| in {16, 24, 32}
      modifies keyEnc
      ensures Filled(Words(inKey), |inKey| + 28)
    {
      ghost var key := Words(inKey);
      PutKey(inKey);
      var i := 0;
      if |inKey| == 16 {
        var t := keyEnc[3];
        while i < 10
          invariant 0 <= i <= 10 && Filled(key, 4 * i + 4) && t == KeyWord(tb, key, 4 * i + 3)
        {
          t := Loop4(key, i, t);
          i := i + 1;
        }
      } else if |inKey| == 24 {
        var t := keyEnc[5];
        while i < 8
          invariant 0 <= i <= 8 && Filled(key, 6 * i + 6) && t == KeyWord(tb, key, 6 * i + 5)
        {
          t := Loop6(key, i, t);
          i := i + 1;
        }
      } else {
        var t := keyEnc[7];
        while i < 6
          invariant 0 <= i <= 6 && Filled(key, 8 * i + 8) && t == KeyWord(tb, key, 8 * i + 7)
        {
          t := Loop8(key, i, t);
          i := i + 1;
        }
        t := Loop8TopHalf(key, i, t);
      }
    }

    /** What word i of the schedule becomes is in its place in the decryption key. */
    ghost predicate InPlace(key: seq<Col>, i: nat)
      requires |key| >= 1 && keyDec.Length == 60 && i < 4 * |key| + 28 <= 60
      reads keyDec
    {
      keyDec[Mirror(4 * |key| + 24, i)] == DecWord(tb, key, i)
    }

    /** The decryption key holds what words lo..hi of the schedule become. */
    ghost predicate Mirrored(key: seq<Col>, lo: nat, hi: nat)
      requires |key| >= 1 && keyDec.Length == 60 && hi <= 4 * |key| + 28 <= 60
      reads keyDec
    {
      forall i: nat :: lo <= i < hi ==> InPlace(key, i)
    }

    /** One word of the decryption key. */
    method PutDec(ghost key: seq<Col>, n: nat, i: nat, c: Col)
      requires Sized() && 1 <= |key| <= 8 && n == 4 * |key| + 24 && i < n + 4 && c == DecWord(tb, key, i)
      requires Mirrored(key, 0, i)
      modifies keyDec
      ensures Mirrored(key, 0, i + 1)
    {
      MirrorTwice(n, i);
      keyDec[Mirror(n, i)] := c;
      forall k: nat | k < i + 1 ensures InPlace(key, k) {
        if k < i {
          assert old(InPlace(key, k));
          MirrorTwice(n, k);
        }
      }
    }

    /** Four words of the schedule as they are. */
    method CopyRound(ghost key: seq<Col>, n: nat, i: nat)
      requires Sized() && 1 <= |key| <= 8 && n == 4 * |key| + 24 && (i == 0 || i == n) && Filled(key, n + 4)
      requires Mirrored(key, 0, i)
      modifies keyDec
      ensures Mirrored(key, 0, i + 4)
    {
      PutDec(key, n, i, keyEnc[i]);
      PutDec(key, n, i + 1, keyEnc[i + 1]);
      PutDec(key, n, i + 2, keyEnc[i + 2]);
      PutDec(key, n, i + 3, keyEnc[i + 3]);
    }

    /** The rest of crypto_aes_expand_key: the words of the schedule, mirrored and mixed. */
    method FillDec(ghost key: seq<Col>, n: nat)
      requires Sized() && 1 <= |key| <= 8 && n == 4 * |key| + 24 && Filled(key, n + 4)
      modifies keyDec
      ensures Mirrored(key, 0, n + 4)
    {
      CopyRound(key, n, 0);
      var i := 4;
      while i < n
        invariant 4 <= i <= n && Mirrored(key, 0, i)
      {
        ImixColSame(tb.x, keyEnc[i]);
        PutDec(key, n, i, ImixCol(tb.x, keyEnc[i]));
        i := i + 1;
      }
      CopyRound(key, n, n);
    }

    /** Both keys are those of `key`. */
    ghost predicate Ready(key: seq<Col>)
      reads this, keyEnc, keyDec
    {
      && Sized() && (|key| == 4 || |key| == 6 || |key| == 8) && keyLength == 4 * |key|
      && Filled(key, keyLength + 28) && Mirrored(key, 0, keyLength + 28)
    }

    /** crypto_aes_expand_key */
    method ExpandKey(inKey: seq<Byte>) returns (ok: bool)
      requires Sized() && RcoFits(tb.x)
      modifies this, keyEnc, keyDec
      ensures ok <==> |inKey| in {16, 24, 32}
      ensures ok ==> Ready(Words(inKey))
      ensures !ok ==> keyLength == old(keyLength) && keyEnc[..] == old(keyEnc[..]) && keyDec[..] == old(keyDec[..])
    {
      if |inKey| != 16 && |inKey| != 24 && |inKey| != 32 {
        return false;
      }
      keyLength := |inKey|;
      FillEnc(inKey);
      FillDec(Words(inKey), |inKey| + 24);
      return true;
    }

    /** The encryption key holds the round keys `w`. */
    ghost predicate EncKeys(w: seq<State>)
      reads keyEnc
    {
      && keyEnc.Length == 60 && 4 * |w| <= 60
      && forall r :: 0 <= r < |w| ==>
           State(keyEnc[4 * r], keyEnc[4 * r + 1], keyEnc[4 * r + 2], keyEnc[4 * r + 3]) == w[r]
    }

    ghost predicate DecKeysAre(d: seq<State>)
      reads keyDec
    {
      && keyDec.Length == 60 && 4 * |d| <= 60
      && forall r :: 0 <= r < |d| ==>
           State(keyDec[4 * r], keyDec[4 * r + 1], keyDec[4 * r + 2], keyDec[4 * r + 3]) == d[r]
    }

    /** f_nround on the way: b is the state after r - 1 rounds. */
    method EncRound(b: State, kp: nat, ghost o: Ops<State>, ghost w: seq<State>, ghost x: State, ghost r: nat)
      returns (b': State, kp': nat)
      requires EncKeys(w) && Rounds(tb, o) && kp == 4 * r && 1 <= r < |w| && b == Forward(o, w, x, r - 1)
      ensures b' == Forward(o, w, x, r) && kp' == kp + 4
    {
      var k := State(keyEnc[kp], keyEnc[kp + 1], keyEnc[kp + 2], keyEnc[kp + 3]);
      assert k == w[r];
      return FNround(tb, b, k), kp + 4;
    }

    /** Two rounds: from b0 to b1 and back. */
    method EncRounds(b: State, kp: nat, ghost o: Ops<State>, ghost w: seq<State>, ghost x: State, ghost r: nat)
      returns (b': State, kp': nat)
      requires EncKeys(w) && Rounds(tb, o) && kp == 4 * r && 1 <= r && r + 1 < |w| && b == Forward(o, w, x, r - 1)
      ensures b' == Forward(o, w, x, r + 1) && kp' == kp + 8
    {
      var b1, kp1 := EncRound(b, kp, o, w, x, r);
      b', kp' := EncRound(b1, kp1, o, w, x, r + 1);
    }

    /** The rounds that only the longer keys have. */
    method EncLonger(b: State, ghost o: Ops<State>, ghost w: seq<State>, ghost x: State)
      returns (b0: State, kp: nat)
      requires EncKeys(w) && Rounds(tb, o) && keyLength in {16, 24, 32} && |w| == keyLength / 4 + 7
      requires b == Forward(o, w, x, 0)
      ensures kp == 4 * (|w| - 10) && b0 == Forward(o, w, x, |w| - 11)
    {
      b0, kp := b, 4;
      ghost var r := 1;
      if keyLength > 24 {
        b0, kp := EncRounds(b0, kp, o, w, x, r);
        r := 3;
      }
      if keyLength > 16 {
        b0, kp := EncRounds(b0, kp, o, w, x, r);
      }
    }

    /** The nine rounds all keys have. */
    method EncNine(b: State, kp: nat, ghost o: Ops<State>, ghost w: seq<State>, ghost x: State)
      returns (b1: State, kp': nat)
      requires EncKeys(w) && Rounds(tb, o) && |w| >= 11 && kp == 4 * (|w| - 10) && b == Forward(o, w, x, |w| - 11)
      ensures kp' == 4 * (|w| - 1) && b1 == Forward(o, w, x, |w| - 2)
    {
      b1, kp' := EncRounds(b, kp, o, w, x, |w| - 10);
      b1, kp' := EncRounds(b1, kp', o, w, x, |w| - 8);
      b1, kp' := EncRounds(b1, kp', o, w, x, |w| - 6);
      b1, kp' := EncRounds(b1, kp', o, w, x, |w| - 4);
      b1, kp' := EncRound(b1, kp', o, w, x, |w| - 2);
    }

    /** The rounds of aes_encrypt. */
    method RunEncrypt(src: State, ghost o: Ops<State>, ghost w: seq<State>) returns (b0: State)
      requires EncKeys(w) && Rounds(tb, o) && keyLength in {16, 24, 32} && |w| == keyLength / 4 + 7
      ensures b0 == Cipher(o, w, src)
    {
      var k := State(keyEnc[0], keyEnc[1], keyEnc[2], keyEnc[3]);
      assert k == w[0] by {
        assert State(keyEnc[4 * 0], keyEnc[4 * 0 + 1], keyEnc[4 * 0 + 2], keyEnc[4 * 0 + 3]) == w[0];
      }
      b0 := AddRoundKey(src, k);
      var kp, b1;
      b0, kp := EncLonger(b0, o, w, src);
      b1, kp := EncNine(b0, kp, o, w, src);
      k := State(keyEnc[kp], keyEnc[kp + 1], keyEnc[kp + 2], keyEnc[kp + 3]);
      assert k == w[|w| - 1];
      b0 := FLround(tb, b1, k);
    }

    lemma EncKeysReady(key: seq<Col>)
      requires Ready(key)
      ensures EncKeys(RoundKeys(tb, key))
    {
    }

    /** aes_encrypt */
    method Encrypt(block: seq<Byte>, ghost key: seq<Col>) returns (out: seq<Byte>)
      requires Ready(key) && |block| == 16
      ensures out == Encrypted(tb, key, block)
    {
      RoundsFit(tb);
      EncKeysReady(key);
      var b0 := RunEncrypt(Load(block), OpsOf(tb), RoundKeys(tb, key));
      return Store(b0);
    }

    method DecRound(b: State, kp: nat, ghost o: Ops<State>, ghost d: seq<State>, ghost y: State, ghost r: nat)
      returns (b': State, kp': nat)
      requires DecKeysAre(d) && Rounds(tb, o) && kp == 4 * r && 1 <= r < |d| && b == EqBackward(o, d, y, r - 1)
      ensures b' == EqBackward(o, d, y, r) && kp' == kp + 4
    {
      var k := State(keyDec[kp], keyDec[kp + 1], keyDec[kp + 2], keyDec[kp + 3]);
      assert k == d[r];
      return INround(tb, b, k), kp + 4;
    }

    method DecRounds(b: State, kp: nat, ghost o: Ops<State>, ghost d: seq<State>, ghost y: State, ghost r: nat)
      returns (b': State, kp': nat)
      requires DecKeysAre(d) && Rounds(tb, o) && kp == 4 * r && 1 <= r && r + 1 < |d| && b == EqBackward(o, d, y, r - 1)
      ensures b' == EqBackward(o, d, y, r + 1) && kp' == kp + 8
    {
      var b1, kp1 := DecRound(b, kp, o, d, y, r);
      b', kp' := DecRound(b1, kp1, o, d, y, r + 1);
    }

    /** The rounds that only the longer keys have. */
    method DecLonger(b: State, ghost o: Ops<State>, ghost d: seq<State>, ghost x: State)
      returns (b0: State, kp: nat)
      requires DecKeysAre(d) && Rounds(tb, o) && keyLength in {16, 24, 32} && |d| == keyLength / 4 + 7
      requires b == EqBackward(o, d, x, 0)
      ensures kp == 4 * (|d| - 10) && b0 == EqBackward(o, d, x, |d| - 11)
    {
      b0, kp := b, 4;
      ghost var r := 1;
      if keyLength > 24 {
        b0, kp := DecRounds(b0, kp, o, d, x, r);
        r := 3;
      }
      if keyLength > 16 {
        b0, kp := DecRounds(b0, kp, o, d, x, r);
      }
    }

    /** The nine rounds all keys have. */
    method DecNine(b: State, kp: nat, ghost o: Ops<State>, ghost d: seq<State>, ghost x: State)
      returns (b1: State, kp': nat)
      requires DecKeysAre(d) && Rounds(tb, o) && |d| >= 11 && kp == 4 * (|d| - 10) && b == EqBackward(o, d, x, |d| - 11)
      ensures kp' == 4 * (|d| - 1) && b1 == EqBackward(o, d, x, |d| - 2)
    {
      b1, kp' := DecRounds(b, kp, o, d, x, |d| - 10);
      b1, kp' := DecRounds(b1, kp', o, d, x, |d| - 8);
      b1, kp' := DecRounds(b1, kp', o, d, x, |d| - 6);
      b1, kp' := DecRounds(b1, kp', o, d, x, |d| - 4);
      b1, kp' := DecRound(b1, kp', o, d, x, |d| - 2);
    }

    /** The rounds of aes_decrypt. */
    method RunDecrypt(src: State, ghost o: Ops<State>, ghost d: seq<State>) returns (b0: State)
      requires DecKeysAre(d) && Rounds(tb, o) && keyLength in {16, 24, 32} && |d| == keyLength / 4 + 7
      ensures b0 == EqInvCipher(o, d, src)
    {
      var k := State(keyDec[0], keyDec[1], keyDec[2], keyDec[3]);
      assert k == d[0] by {
        assert State(keyDec[4 * 0], keyDec[4 * 0 + 1], keyDec[4 * 0 + 2], keyDec[4 * 0 + 3]) == d[0];
      }
      b0 := AddRoundKey(src, k);
      var kp, b1;
      b0, kp := DecLonger(b0, o, d, src);
      b1, kp := DecNine(b0, kp, o, d, src);
      k := State(keyDec[kp], keyDec[kp + 1], keyDec[kp + 2], keyDec[kp + 3]);
      assert k == d[|d| - 1];
      b0 := ILround(tb, b1, k);
    }

    lemma DecKeysReady(key: seq<Col>)
      requires Ready(key)
      ensures DecKeysAre(DecKeys(tb, key))
    {
      var d, n := DecKeys(tb, key), 4 * |key| + 24;
      forall r: nat | r < |d|
        ensures State(keyDec[4 * r], keyDec[4 * r + 1], keyDec[4 * r + 2], keyDec[4 * r + 3]) == d[r]
      {
        DecKeyInPlace(key, r);
      }
    }

    lemma DecWordInPlace(key: seq<Col>, r: nat, c: nat)
      requires keyDec.Length == 60 && 1 <= |key| <= 8 && Mirrored(key, 0, 4 * |key| + 28) && r <= |key| + 6 && c < 4
      ensures keyDec[4 * r + c] == DecWord(tb, key, 4 * (|key| + 6 - r) + c)
    {
      var n, i := 4 * |key| + 24, 4 * (|key| + 6 - r) + c;
      MirrorWord(n, r, i, c);
      assert InPlace(key, i);
    }

    lemma DecKeyInPlace(key: seq<Col>, r: nat)
      requires keyDec.Length == 60 && 1 <= |key| <= 8 && Mirrored(key, 0, 4 * |key| + 28) && r <= |key| + 6
      ensures State(keyDec[4 * r], keyDec[4 * r + 1], keyDec[4 * r + 2], keyDec[4 * r + 3]) == DecKey(tb, key, r)
    {
      DecWordInPlace(key, r, 0);
      DecWordInPlace(key, r, 1);
      DecWordInPlace(key, r, 2);
      DecWordInPlace(key, r, 3);
      KeyOfWords(tb, key, r, keyDec[4 * r], keyDec[4 * r + 1], keyDec[4 * r + 2], keyDec[4 * r + 3]);
    }

    /** aes_decrypt */
    method Decrypt(block: seq<Byte>, ghost key: seq<Col>) returns (out: seq<Byte>)
      requires Ready(key) && |block| == 16
      ensures out == Decrypted(tb, key, block)
    {
      RoundsFit(tb);
      DecKeysReady(key);
      var b0 := RunDecrypt(Load(block), OpsOf(tb), DecKeys(tb, key));
      return Store(b0);
    }
  }
}
