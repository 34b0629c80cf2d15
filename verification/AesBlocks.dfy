/**
 aes_encrypt and aes_decrypt of crypto/aes_generic.c as they work on 32-bit words throughout: the
 key schedule, the rounds by table words and the bytes at both ends.  They compute what the ciphers
 on columns compute.
 */
module AesBlocks {
  import opened AesRounds
  import opened Fips197
  import opened AesCode
  import opened AesTables
  import opened AesContext
  import opened AesWords
  import Aes

  /** Four words: a block on its way, or the key of a round. */
  datatype Quad = Quad(w0: bv32, w1: bv32, w2: bv32, w3: bv32)

  function Packed(s: State): Quad {
    Quad(Word(s.c0), Word(s.c1), Word(s.c2), Word(s.c3))
  }

  // ---------------------------------------------------------------------------
  // The rounds
  // ---------------------------------------------------------------------------

  function AddQuad(a: Quad, k: Quad): Quad {
    Quad(XorWord(a.w0, k.w0), XorWord(a.w1, k.w1), XorWord(a.w2, k.w2), XorWord(a.w3, k.w3))
  }

  /** f_nround */
  function FNquad(b: Quad, k: Quad): Quad {
    Quad(FRnWord(b.w0, b.w1, b.w2, b.w3, k.w0), FRnWord(b.w1, b.w2, b.w3, b.w0, k.w1),
         FRnWord(b.w2, b.w3, b.w0, b.w1, k.w2), FRnWord(b.w3, b.w0, b.w1, b.w2, k.w3))
  }

  /** f_lround */
  function FLquad(b: Quad, k: Quad): Quad {
    Quad(FRlWord(b.w0, b.w1, b.w2, b.w3, k.w0), FRlWord(b.w1, b.w2, b.w3, b.w0, k.w1),
         FRlWord(b.w2, b.w3, b.w0, b.w1, k.w2), FRlWord(b.w3, b.w0, b.w1, b.w2, k.w3))
  }

  /** i_nround */
  function INquad(b: Quad, k: Quad): Quad {
    Quad(IRnWord(b.w0, b.w3, b.w2, b.w1, k.w0), IRnWord(b.w1, b.w0, b.w3, b.w2, k.w1),
         IRnWord(b.w2, b.w1, b.w0, b.w3, k.w2), IRnWord(b.w3, b.w2, b.w1, b.w0, k.w3))
  }

  /** i_lround */
  function ILquad(b: Quad, k: Quad): Quad {
    Quad(IRlWord(b.w0, b.w3, b.w2, b.w1, k.w0), IRlWord(b.w1, b.w0, b.w3, b.w2, k.w1),
         IRlWord(b.w2, b.w1, b.w0, b.w3, k.w2), IRlWord(b.w3, b.w2, b.w1, b.w0, k.w3))
  }

  lemma AddSame(a: State, k: State)
    ensures AddQuad(Packed(a), Packed(k)) == Packed(AddRoundKey(a, k))
  {
    XorSame(a.c0, k.c0);
    XorSame(a.c1, k.c1);
    XorSame(a.c2, k.c2);
    XorSame(a.c3, k.c3);
  }

  lemma FNsame(b: State, k: State)
    ensures FNquad(Packed(b), Packed(k)) == Packed(FNround(AES, b, k))
  {
    FRnWords(b.c0, b.c1, b.c2, b.c3, k.c0);
    FRnWords(b.c1, b.c2, b.c3, b.c0, k.c1);
    FRnWords(b.c2, b.c3, b.c0, b.c1, k.c2);
    FRnWords(b.c3, b.c0, b.c1, b.c2, k.c3);
  }

  lemma FLsame(b: State, k: State)
    ensures FLquad(Packed(b), Packed(k)) == Packed(FLround(AES, b, k))
  {
    FRlWords(b.c0, b.c1, b.c2, b.c3, k.c0);
    FRlWords(b.c1, b.c2, b.c3, b.c0, k.c1);
    FRlWords(b.c2, b.c3, b.c0, b.c1, k.c2);
    FRlWords(b.c3, b.c0, b.c1, b.c2, k.c3);
  }

  lemma INsame(b: State, k: State)
    ensures INquad(Packed(b), Packed(k)) == Packed(INround(AES, b, k))
  {
    IRnWords(b.c0, b.c3, b.c2, b.c1, k.c0);
    IRnWords(b.c1, b.c0, b.c3, b.c2, k.c1);
    IRnWords(b.c2, b.c1, b.c0, b.c3, k.c2);
    IRnWords(b.c3, b.c2, b.c1, b.c0, k.c3);
  }

  lemma ILsame(b: State, k: State)
    ensures ILquad(Packed(b), Packed(k)) == Packed(ILround(AES, b, k))
  {
    IRlWords(b.c0, b.c3, b.c2, b.c1, k.c0);
    IRlWords(b.c1, b.c0, b.c3, b.c2, k.c1);
    IRlWords(b.c2, b.c1, b.c0, b.c3, k.c2);
    IRlWords(b.c3, b.c2, b.c1, b.c0, k.c3);
  }

  lemma FRnWords(a: Col, b: Col, c: Col, d: Col, k: Col)
    ensures FRnWord(Word(a), Word(b), Word(c), Word(d), Word(k)) == Word(FRn(AES, a, b, c, d, k))
  {
    FRnWordSame(a, b, c, d, k);
    FRnSame(AES, a, b, c, d, k);
  }

  lemma FRlWords(a: Col, b: Col, c: Col, d: Col, k: Col)
    ensures FRlWord(Word(a), Word(b), Word(c), Word(d), Word(k)) == Word(FRl(AES, a, b, c, d, k))
  {
    FRlWordSame(a, b, c, d, k);
    FRlSame(AES, a, b, c, d, k);
  }

  lemma IRnWords(a: Col, b: Col, c: Col, d: Col, k: Col)
    ensures IRnWord(Word(a), Word(b), Word(c), Word(d), Word(k)) == Word(IRn(AES, a, b, c, d, k))
  {
    IRnWordSame(a, b, c, d, k);
    IRnSame(AES, a, b, c, d, k);
  }

  lemma IRlWords(a: Col, b: Col, c: Col, d: Col, k: Col)
    ensures IRlWord(Word(a), Word(b), Word(c), Word(d), Word(k)) == Word(IRl(AES, a, b, c, d, k))
  {
    IRlWordSame(a, b, c, d, k);
    IRlSame(AES, a, b, c, d, k);
  }

  // ---------------------------------------------------------------------------
  // The ciphers
  // ---------------------------------------------------------------------------

  /** The first key, then r rounds by `round`. */
  function RoundsBy(add: (Quad, Quad) -> Quad, round: (Quad, Quad) -> Quad, w: seq<Quad>, x: Quad, r: nat): Quad
    requires r < |w|
  {
    if r == 0 then add(x, w[0]) else round(RoundsBy(add, round, w, x, r - 1), w[r])
  }

  /** The rounds of aes_encrypt, with the words of the round keys. */
  function EncryptQuad(w: seq<Quad>, x: Quad): Quad
    requires |w| >= 2
  {
    FLquad(RoundsBy(AddQuad, FNquad, w, x, |w| - 2), w[|w| - 1])
  }

  /** The rounds of aes_decrypt. */
  function DecryptQuad(d: seq<Quad>, y: Quad): Quad
    requires |d| >= 2
  {
    ILquad(RoundsBy(AddQuad, INquad, d, y, |d| - 2), d[|d| - 1])
  }

  /** `w` holds the words of the round keys `k`. */
  ghost predicate KeysPacked(pack: State -> Quad, w: seq<Quad>, k: seq<State>) {
    |w| == |k| && forall r :: 0 <= r < |k| ==> w[r] == pack(k[r])
  }

  /** What `quad` does with words, `state` does with columns. */
  ghost predicate Mirrors(pack: State -> Quad, quad: (Quad, Quad) -> Quad, state: (State, State) -> State) {
    forall b, k {:trigger quad(pack(b), pack(k))} :: quad(pack(b), pack(k)) == pack(state(b, k))
  }

  /** The first key and r rounds on columns. */
  function StatesBy(add: (State, State) -> State, round: (State, State) -> State, k: seq<State>, x: State,
                    r: nat): State
    requires r < |k|
  {
    if r == 0 then add(x, k[0]) else round(StatesBy(add, round, k, x, r - 1), k[r])
  }

  lemma {:induction false} RoundsSame(pack: State -> Quad, addQ: (Quad, Quad) -> Quad, roundQ: (Quad, Quad) -> Quad,
                                      addS: (State, State) -> State, roundS: (State, State) -> State,
                                      w: seq<Quad>, k: seq<State>, x: State, r: nat)
    requires Mirrors(pack, addQ, addS) && Mirrors(pack, roundQ, roundS) && KeysPacked(pack, w, k) && r < |w|
    ensures RoundsBy(addQ, roundQ, w, pack(x), r) == pack(StatesBy(addS, roundS, k, x, r))
  {
    if r > 0 {
      RoundsSame(pack, addQ, roundQ, addS, roundS, w, k, x, r - 1);
    }
  }

  function EncRoundS(b: State, k: State): State {
    FNround(AES, b, k)
  }

  function DecRoundS(b: State, k: State): State {
    INround(AES, b, k)
  }

  lemma AllMirrored()
    ensures Mirrors(Packed, AddQuad, AddRoundKey)
    ensures Mirrors(Packed, FNquad, EncRoundS) && Mirrors(Packed, INquad, DecRoundS)
  {
    forall b, k ensures AddQuad(Packed(b), Packed(k)) == Packed(AddRoundKey(b, k)) {
      AddSame(b, k);
    }
    forall b, k ensures FNquad(Packed(b), Packed(k)) == Packed(EncRoundS(b, k)) {
      FNsame(b, k);
    }
    forall b, k ensures INquad(Packed(b), Packed(k)) == Packed(DecRoundS(b, k)) {
      INsame(b, k);
    }
  }

  lemma {:induction false} StatesForward(o: Ops<State>, add: (State, State) -> State, round: (State, State) -> State,
                                         k: seq<State>, x: State, r: nat)
    requires r < |k| && forall a, c {:trigger add(a, c)} :: add(a, c) == o.add(a, c)
    requires forall b, c {:trigger round(b, c)} :: round(b, c) == o.add(o.mix(o.shift(o.sub(b))), c)
    ensures StatesBy(add, round, k, x, r) == Forward(o, k, x, r)
  {
    if r > 0 {
      StatesForward(o, add, round, k, x, r - 1);
    }
  }

  lemma {:induction false} StatesBackward(o: Ops<State>, add: (State, State) -> State, round: (State, State) -> State,
                                          k: seq<State>, y: State, r: nat)
    requires r < |k| && forall a, c {:trigger add(a, c)} :: add(a, c) == o.add(a, c)
    requires forall b, c {:trigger round(b, c)} :: round(b, c) == o.add(o.invMix(o.invShift(o.invSub(b))), c)
    ensures StatesBy(add, round, k, y, r) == EqBackward(o, k, y, r)
  {
    if r > 0 {
      StatesBackward(o, add, round, k, y, r - 1);
    }
  }

  lemma RoundsAre(o: Ops<State>)
    requires o == OpsOf(AES)
    ensures forall a, c {:trigger AddRoundKey(a, c)} :: AddRoundKey(a, c) == o.add(a, c)
    ensures forall b, c {:trigger EncRoundS(b, c)} :: EncRoundS(b, c) == o.add(o.mix(o.shift(o.sub(b))), c)
    ensures forall b, c {:trigger DecRoundS(b, c)} :: DecRoundS(b, c) == o.add(o.invMix(o.invShift(o.invSub(b))), c)
    ensures forall b, c {:trigger FLround(AES, b, c)} :: FLround(AES, b, c) == o.add(o.shift(o.sub(b)), c)
    ensures forall b, c {:trigger ILround(AES, b, c)} :: ILround(AES, b, c) == o.add(o.invShift(o.invSub(b)), c)
  {
    RoundsFit(AES);
    forall b, c ensures EncRoundS(b, c) == o.add(o.mix(o.shift(o.sub(b))), c) {
      assert EncRoundS(b, c) == FNround(AES, b, c);
    }
    forall b, c ensures DecRoundS(b, c) == o.add(o.invMix(o.invShift(o.invSub(b))), c) {
      assert DecRoundS(b, c) == INround(AES, b, c);
    }
  }

  /** The rounds on words are the cipher, for all round keys. */
  lemma EncryptQuadSame(w: seq<Quad>, k: seq<State>, x: State)
    requires KeysPacked(Packed, w, k) && |w| >= 2
    ensures EncryptQuad(w, Packed(x)) == Packed(Cipher(OpsOf(AES), k, x))
  {
    var o := OpsOf(AES);
    AllMirrored();
    RoundsAre(o);
    RoundsSame(Packed, AddQuad, FNquad, AddRoundKey, EncRoundS, w, k, x, |w| - 2);
    StatesForward(o, AddRoundKey, EncRoundS, k, x, |w| - 2);
    FLsame(Forward(o, k, x, |w| - 2), k[|w| - 1]);
  }

  /** The decryption rounds on words are the equivalent inverse cipher. */
  lemma DecryptQuadSame(d: seq<Quad>, k: seq<State>, y: State)
    requires KeysPacked(Packed, d, k) && |d| >= 2
    ensures DecryptQuad(d, Packed(y)) == Packed(EqInvCipher(OpsOf(AES), k, y))
  {
    var o := OpsOf(AES);
    AllMirrored();
    RoundsAre(o);
    RoundsSame(Packed, AddQuad, INquad, AddRoundKey, DecRoundS, d, k, y, |d| - 2);
    StatesBackward(o, AddRoundKey, DecRoundS, k, y, |d| - 2);
    ILsame(EqBackward(o, k, y, |d| - 2), k[|d| - 1]);
  }

  // ---------------------------------------------------------------------------
  // The key schedule
  // ---------------------------------------------------------------------------

  /** rco_tab[n - 1], a word */
  function RcoWord(n: nat): bv32 {
    if 1 <= n <= 10 then RCO_TAB[n - 1].bits as bv32 else 0
  }

  /** What word i of the schedule adds to the word Nk before it, from the word before it. */
  function TempWord(t: bv32, nk: nat, i: nat): bv32
    requires 1 <= nk
  {
    if i % nk == 0 then XorWord(LsBoxWord(RorWord8(t)), RcoWord(i / nk))
    else if nk > 6 && i % nk == 4 then LsBoxWord(t)
    else t
  }

  /** Word i of key_enc. */
  function ScheduleWord(key: seq<bv32>, i: nat): bv32
    requires |key| >= 1
  {
    if i < |key| then key[i]
    else XorWord(ScheduleWord(key, i - |key|), TempWord(ScheduleWord(key, i - 1), |key|, i))
  }

  /** What word i of key_enc becomes in key_dec. */
  function MixedWord(key: seq<bv32>, i: nat): bv32
    requires |key| >= 1
  {
    if i < 4 || i >= 4 * |key| + 24 then ScheduleWord(key, i) else ImixWord(ScheduleWord(key, i))
  }

  function KeyBits(key: seq<Col>): (w: seq<bv32>)
    ensures |w| == |key|
  {
    seq(|key|, i requires 0 <= i < |key| => Word(key[i]))
  }

  lemma PackLow(b: bv8)
    ensures Pack(b, 0, 0, 0) == b as bv32
  {
  }

  lemma RconWord(n: nat)
    requires 1 <= n <= 10
    ensures RcoWord(n) == Word(Rcon(AES.x, n))
  {
    Aes.RcoTab();
    assert RCO_TAB[n - 1] == Power(AES.x, n - 1);
    PackLow(RCO_TAB[n - 1].bits);
  }

  lemma RotatedSame(c: Col, n: nat)
    requires 1 <= n <= 10
    ensures XorWord(LsBoxWord(RorWord8(Word(c))), RcoWord(n)) == Word(XorCol(SubWord(AES.sub, Ror8(c)), Rcon(AES.x, n)))
  {
    WordRor8(c);
    LsBoxWordSame(Ror8(c));
    RconWord(n);
    XorSame(SubWord(AES.sub, Ror8(c)), Rcon(AES.x, n));
  }

  lemma TempWordSame(c: Col, temp: Col, nk: nat, i: nat)
    requires 1 <= nk && 1 <= i / nk <= 10
    requires temp == if i % nk == 0 then XorCol(SubWord(AES.sub, Ror8(c)), Rcon(AES.x, i / nk))
                     else if nk > 6 && i % nk == 4 then SubWord(AES.sub, c)
                     else c
    ensures TempWord(Word(c), nk, i) == Word(temp)
  {
    if i % nk == 0 {
      RotatedSame(c, i / nk);
    } else if nk > 6 && i % nk == 4 {
      LsBoxWordSame(c);
    }
  }

  lemma TempSame(key: seq<Col>, i: nat)
    requires 1 <= |key| <= i && 1 <= i / |key| <= 10
    ensures TempWord(Word(KeyWord(AES, key, i - 1)), |key|, i) == Word(Temp(AES, key, i))
  {
    TempWordSame(KeyWord(AES, key, i - 1), Temp(AES, key, i), |key|, i);
  }

  lemma Quotient(i: nat, nk: nat)
    requires nk in {4, 6, 8} && nk <= i < 4 * nk + 28
    ensures 1 <= i / nk <= 10
  {
  }

  /** The schedule on words is that of section 5.2 of FIPS-197. */
  lemma {:induction false} ScheduleSame(key: seq<Col>, i: nat)
    requires |key| in {4, 6, 8} && i < 4 * |key| + 28
    ensures ScheduleWord(KeyBits(key), i) == Word(KeyWord(AES, key, i))
  {
    if i >= |key| {
      ScheduleSame(key, i - 1);
      ScheduleSame(key, i - |key|);
      Quotient(i, |key|);
      TempSame(key, i);
      XorSame(KeyWord(AES, key, i - |key|), Temp(AES, key, i));
    }
  }

  lemma MixedSame(key: seq<Col>, i: nat)
    requires |key| in {4, 6, 8} && i < 4 * |key| + 28
    ensures MixedWord(KeyBits(key), i) == Word(DecWord(AES, key, i))
  {
    ScheduleSame(key, i);
    ImixWordSame(KeyWord(AES, key, i));
  }

  // ---------------------------------------------------------------------------
  // Whole blocks
  // ---------------------------------------------------------------------------

  function RoundQuad(key: seq<bv32>, r: nat): Quad
    requires |key| >= 1
  {
    Quad(ScheduleWord(key, 4 * r), ScheduleWord(key, 4 * r + 1), ScheduleWord(key, 4 * r + 2),
         ScheduleWord(key, 4 * r + 3))
  }

  /** key_enc, round by round. */
  function RoundQuads(key: seq<bv32>): (w: seq<Quad>)
    requires |key| >= 1
    ensures |w| == |key| + 7
  {
    seq(|key| + 7, r requires r >= 0 => RoundQuad(key, r))
  }

  function MixedQuad(key: seq<bv32>, r: nat): Quad
    requires |key| >= 1 && r <= |key| + 6
  {
    var q := 4 * (|key| + 6 - r);
    Quad(MixedWord(key, q), MixedWord(key, q + 1), MixedWord(key, q + 2), MixedWord(key, q + 3))
  }

  /** key_dec, round by round. */
  function MixedQuads(key: seq<bv32>): (d: seq<Quad>)
    requires |key| >= 1
    ensures |d| == |key| + 7
  {
    seq(|key| + 7, r requires 0 <= r <= |key| + 6 => MixedQuad(key, r))
  }

  lemma RoundQuadSame(key: seq<Col>, r: nat)
    requires |key| in {4, 6, 8} && r <= |key| + 6
    ensures RoundQuad(KeyBits(key), r) == Packed(RoundKey(AES, key, r))
  {
    ScheduleSame(key, 4 * r);
    ScheduleSame(key, 4 * r + 1);
    ScheduleSame(key, 4 * r + 2);
    ScheduleSame(key, 4 * r + 3);
  }

  lemma MixedQuadSame(key: seq<Col>, r: nat)
    requires |key| in {4, 6, 8} && r <= |key| + 6
    ensures MixedQuad(KeyBits(key), r) == Packed(DecKey(AES, key, r))
  {
    var q := 4 * (|key| + 6 - r);
    MixedSame(key, q);
    MixedSame(key, q + 1);
    MixedSame(key, q + 2);
    MixedSame(key, q + 3);
  }

  lemma RoundQuadsPacked(key: seq<Col>)
    requires |key| in {4, 6, 8}
    ensures KeysPacked(Packed, RoundQuads(KeyBits(key)), RoundKeys(AES, key))
  {
    forall r: nat | r < |key| + 7 ensures RoundQuads(KeyBits(key))[r] == Packed(RoundKeys(AES, key)[r]) {
      RoundQuadSame(key, r);
    }
  }

  lemma MixedQuadsPacked(key: seq<Col>)
    requires |key| in {4, 6, 8}
    ensures KeysPacked(Packed, MixedQuads(KeyBits(key)), DecKeys(AES, key))
  {
    forall r: nat | r < |key| + 7 ensures MixedQuads(KeyBits(key))[r] == Packed(DecKeys(AES, key)[r]) {
      MixedQuadSame(key, r);
    }
  }

  /** le32_to_cpu of word i. */
  function LoadWord(b: seq<Byte>, i: nat): bv32
    requires 4 * i + 4 <= |b|
  {
    Pack(b[4 * i].bits, b[4 * i + 1].bits, b[4 * i + 2].bits, b[4 * i + 3].bits)
  }

  function LoadKey(b: seq<Byte>): seq<bv32>
    requires |b| % 4 == 0
  {
    seq(|b| / 4, i requires 0 <= i < |b| / 4 => LoadWord(b, i))
  }

  function LoadQuad(b: seq<Byte>): Quad
    requires |b| == 16
  {
    Quad(LoadWord(b, 0), LoadWord(b, 1), LoadWord(b, 2), LoadWord(b, 3))
  }

  /** cpu_to_le32 of a word. */
  function StoreWord(w: bv32): seq<Byte> {
    [Byte(Byte0(w)), Byte(Byte1(w)), Byte(Byte2(w)), Byte(Byte3(w))]
  }

  function StoreQuad(q: Quad): seq<Byte> {
    StoreWord(q.w0) + StoreWord(q.w1) + StoreWord(q.w2) + StoreWord(q.w3)
  }

  lemma LoadWordSame(b: seq<Byte>, i: nat)
    requires 4 * i + 4 <= |b|
    ensures LoadWord(b, i) == Word(WordAt(b, i))
  {
  }

  lemma LoadKeySame(b: seq<Byte>)
    requires |b| % 4 == 0
    ensures LoadKey(b) == KeyBits(Words(b))
  {
    forall i | 0 <= i < |b| / 4 ensures LoadKey(b)[i] == KeyBits(Words(b))[i] {
      LoadWordSame(b, i);
    }
  }

  lemma LoadQuadSame(b: seq<Byte>)
    requires |b| == 16
    ensures LoadQuad(b) == Packed(Load(b))
  {
    LoadWordSame(b, 0);
    LoadWordSame(b, 1);
    LoadWordSame(b, 2);
    LoadWordSame(b, 3);
  }

  function ColBytes(c: Col): seq<Byte> {
    [c.b0, c.b1, c.b2, c.b3]
  }

  lemma StoreWordSame(c: Col)
    ensures StoreWord(Word(c)) == ColBytes(c)
  {
    ByteSame(c);
  }

  lemma StoreParts(s: State)
    ensures ColBytes(s.c0) + ColBytes(s.c1) + ColBytes(s.c2) + ColBytes(s.c3) == Store(s)
  {
  }

  lemma JoinParts(a: seq<Byte>, b: seq<Byte>, c: seq<Byte>, d: seq<Byte>,
                  a': seq<Byte>, b': seq<Byte>, c': seq<Byte>, d': seq<Byte>)
    requires a == a' && b == b' && c == c' && d == d'
    ensures a + b + c + d == a' + b' + c' + d'
  {
  }

  lemma StoreQuadSame(s: State)
    ensures StoreQuad(Packed(s)) == Store(s)
  {
    StoreWordSame(s.c0);
    StoreWordSame(s.c1);
    StoreWordSame(s.c2);
    StoreWordSame(s.c3);
    JoinParts(StoreWord(Word(s.c0)), StoreWord(Word(s.c1)), StoreWord(Word(s.c2)), StoreWord(Word(s.c3)),
              ColBytes(s.c0), ColBytes(s.c1), ColBytes(s.c2), ColBytes(s.c3));
    StoreParts(s);
  }

  /** crypto_aes_set_key and aes_encrypt, all of it on words. */
  function EncryptBlock(inKey: seq<Byte>, block: seq<Byte>): seq<Byte>
    requires |inKey| in {16, 24, 32} && |block| == 16
  {
    StoreQuad(EncryptQuad(RoundQuads(LoadKey(inKey)), LoadQuad(block)))
  }

  /** crypto_aes_set_key and aes_decrypt, all of it on words. */
  function DecryptBlock(inKey: seq<Byte>, block: seq<Byte>): seq<Byte>
    requires |inKey| in {16, 24, 32} && |block| == 16
  {
    StoreQuad(DecryptQuad(MixedQuads(LoadKey(inKey)), LoadQuad(block)))
  }

  /** For every key and every block the words make the cipher of FIPS-197. */
  lemma EncryptBlockSame(inKey: seq<Byte>, block: seq<Byte>)
    requires |inKey| in {16, 24, 32} && |block| == 16
    ensures EncryptBlock(inKey, block) == Store(Cipher(OpsOf(AES), RoundKeys(AES, Words(inKey)), Load(block)))
  {
    var key := Words(inKey);
    LoadKeySame(inKey);
    RoundQuadsPacked(key);
    LoadQuadSame(block);
    EncryptQuadSame(RoundQuads(KeyBits(key)), RoundKeys(AES, key), Load(block));
    StoreQuadSame(Cipher(OpsOf(AES), RoundKeys(AES, key), Load(block)));
  }

  /** And its inverse. */
  lemma DecryptBlockSame(inKey: seq<Byte>, block: seq<Byte>)
    requires |inKey| in {16, 24, 32} && |block| == 16
    ensures DecryptBlock(inKey, block) == Store(InvCipher(OpsOf(AES), RoundKeys(AES, Words(inKey)), Load(block)))
  {
    var key := Words(inKey);
    LoadKeySame(inKey);
    MixedQuadsPacked(key);
    LoadQuadSame(block);
    DecryptQuadSame(MixedQuads(KeyBits(key)), DecKeys(AES, key), Load(block));
    StoreQuadSame(EqInvCipher(OpsOf(AES), DecKeys(AES, key), Load(block)));
    AesTablesFit();
    Aes.DecryptedIsInvCipher(AES, key, block);
  }

  lemma BlockEncrypted(inKey: seq<Byte>, block: seq<Byte>)
    requires |inKey| in {16, 24, 32} && |block| == 16
    ensures EncryptBlock(inKey, block) == Encrypted(AES, Words(inKey), block)
  {
    EncryptBlockSame(inKey, block);
  }

  lemma BlockDecrypted(inKey: seq<Byte>, block: seq<Byte>)
    requires |inKey| in {16, 24, 32} && |block| == 16
    ensures DecryptBlock(inKey, block) == Decrypted(AES, Words(inKey), block)
  {
    DecryptBlockSame(inKey, block);
    AesTablesFit();
    Aes.DecryptedIsInvCipher(AES, Words(inKey), block);
  }

  /** So decrypting what was encrypted returns the block, on words as well. */
  lemma BlockRoundTrip(inKey: seq<Byte>, block: seq<Byte>)
    requires |inKey| in {16, 24, 32} && |block| == 16
    ensures |EncryptBlock(inKey, block)| == 16 && DecryptBlock(inKey, EncryptBlock(inKey, block)) == block
  {
    var code := Encrypted(AES, Words(inKey), block);
    BlockEncrypted(inKey, block);
    BlockDecrypted(inKey, code);
    Aes.AesRoundTrip(inKey, block);
  }
}
