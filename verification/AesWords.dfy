/**
 The macros of crypto/aes_generic.c on the 32-bit words they are written for: each computes the
 word of the column that its counterpart on columns computes, with the tables of the code.
 */
module AesWords {
  import opened Fips197
  import opened AesCode
  import opened AesTables
  import opened AesContext

  function XorWord(a: bv32, b: bv32): bv32 {
    a ^ b
  }

  /** byte(w, n), for n from 0 to 3 */
  function Byte0(w: bv32): bv8 {
    (w & 0xff) as bv8
  }

  function Byte1(w: bv32): bv8 {
    ((w >> 8) & 0xff) as bv8
  }

  function Byte2(w: bv32): bv8 {
    ((w >> 16) & 0xff) as bv8
  }

  function Byte3(w: bv32): bv8 {
    (w >> 24) as bv8
  }

  // ---------------------------------------------------------------------------
  // imix_col
  // ---------------------------------------------------------------------------

  /** imix_col */
  function ImixWord(x: bv32): bv32 {
    var u := StarWord(x);
    var v := StarWord(u);
    var w := StarWord(v);
    var t := XorWord(w, x);
    XorWord(XorWord(XorWord(u, v), w),
            XorWord(XorWord(RorWord8(XorWord(u, t)), RorWord16(XorWord(v, t))), RorWord24(t)))
  }

  lemma XorSame(c: Col, d: Col)
    ensures XorWord(Word(c), Word(d)) == Word(XorCol(c, d))
  {
    WordXor(c, d);
  }

  /** The macro computes InvMixColumns on the word of every column. */
  lemma ImixWordSame(c: Col)
    ensures ImixWord(Word(c)) == Word(InvMixColumn(AES.x, c))
  {
    var u := StarX(AES.x, c);
    var v := StarX(AES.x, u);
    var w := StarX(AES.x, v);
    var t := XorCol(w, c);
    WordStar(c);
    WordStar(u);
    WordStar(v);
    XorSame(w, c);
    XorSame(u, v);
    XorSame(XorCol(u, v), w);
    XorSame(u, t);
    XorSame(v, t);
    WordRor8(XorCol(u, t));
    WordRor16(XorCol(v, t));
    WordRor24(t);
    XorSame(Ror8(XorCol(u, t)), Ror16(XorCol(v, t)));
    XorSame(XorCol(Ror8(XorCol(u, t)), Ror16(XorCol(v, t))), Ror24(t));
    XorSame(XorCol(XorCol(u, v), w), XorCol(XorCol(Ror8(XorCol(u, t)), Ror16(XorCol(v, t))), Ror24(t)));
    ImixColSame(AES.x, c);
  }

  // ---------------------------------------------------------------------------
  // The tables, and the macros that combine their entries
  // ---------------------------------------------------------------------------

  /** An entry of crypto_ft_tab[0] */
  function FtWord(b: bv8): bv32 {
    var s := SubBits(b);
    Pack(Twofold(s), s, s, Twofold(s) ^ s)
  }

  /** An entry of crypto_fl_tab[0] */
  function FlWord(b: bv8): bv32 {
    Pack(SubBits(b), 0, 0, 0)
  }

  /** An entry of crypto_it_tab[0]: 14, 9, 13 and 11 times the substituted byte */
  function ItWord(b: bv8): bv32 {
    var s := InvSub(Byte(b));
    var s2, s4, s8 := XTime(s), XTime(XTime(s)), XTime(XTime(XTime(s)));
    Pack(Xor(s8, Xor(s4, s2)).bits, Xor(s8, s).bits, Xor(s8, Xor(s4, s)).bits, Xor(s8, Xor(s2, s)).bits)
  }

  /** An entry of crypto_il_tab[0] */
  function IlWord(b: bv8): bv32 {
    Pack(InvSubBits(b), 0, 0, 0)
  }

  lemma FtSame(b: Byte)
    ensures FtWord(b.bits) == Word(Ft(AES, b))
  {
  }

  lemma FlSame(b: Byte)
    ensures FlWord(b.bits) == Word(Fl(AES, b))
  {
  }

  lemma ItSame(b: Byte)
    ensures ItWord(b.bits) == Word(It(AES, b))
  {
    var s := InvSub(b);
    assert TimesE(XTime, s) == Xor(XTime(XTime(XTime(s))), Xor(XTime(XTime(s)), XTime(s)));
  }

  lemma IlSame(b: Byte)
    ensures IlWord(b.bits) == Word(Il(AES, b))
  {
  }

  /** Tables 1 to 3 hold the entries of table 0 rotated to the left by so many bytes. */
  function CombineWords(t0: bv32, t1: bv32, t2: bv32, t3: bv32): bv32 {
    XorWord(XorWord(XorWord(t0, RorWord24(t1)), RorWord16(t2)), RorWord8(t3))
  }

  lemma CombineSame(t0: Col, t1: Col, t2: Col, t3: Col)
    ensures CombineWords(Word(t0), Word(t1), Word(t2), Word(t3))
         == Word(XorCol(XorCol(XorCol(t0, Ror24(t1)), Ror16(t2)), Ror8(t3)))
  {
    WordRor24(t1);
    WordRor16(t2);
    WordRor8(t3);
    XorSame(t0, Ror24(t1));
    XorSame(XorCol(t0, Ror24(t1)), Ror16(t2));
    XorSame(XorCol(XorCol(t0, Ror24(t1)), Ror16(t2)), Ror8(t3));
  }

  /** ls_box */
  function LsBoxWord(x: bv32): bv32 {
    CombineWords(FlWord(Byte0(x)), FlWord(Byte1(x)), FlWord(Byte2(x)), FlWord(Byte3(x)))
  }

  /** f_rn, with the words a, b, c and d from the n-th on */
  function FRnWord(a: bv32, b: bv32, c: bv32, d: bv32, k: bv32): bv32 {
    XorWord(CombineWords(FtWord(Byte0(a)), FtWord(Byte1(b)), FtWord(Byte2(c)), FtWord(Byte3(d))), k)
  }

  /** f_rl */
  function FRlWord(a: bv32, b: bv32, c: bv32, d: bv32, k: bv32): bv32 {
    XorWord(CombineWords(FlWord(Byte0(a)), FlWord(Byte1(b)), FlWord(Byte2(c)), FlWord(Byte3(d))), k)
  }

  /** i_rn, with the words from the n-th down */
  function IRnWord(a: bv32, b: bv32, c: bv32, d: bv32, k: bv32): bv32 {
    XorWord(CombineWords(ItWord(Byte0(a)), ItWord(Byte1(b)), ItWord(Byte2(c)), ItWord(Byte3(d))), k)
  }

  /** i_rl */
  function IRlWord(a: bv32, b: bv32, c: bv32, d: bv32, k: bv32): bv32 {
    XorWord(CombineWords(IlWord(Byte0(a)), IlWord(Byte1(b)), IlWord(Byte2(c)), IlWord(Byte3(d))), k)
  }

  lemma ByteSame(c: Col)
    ensures Byte0(Word(c)) == c.b0.bits && Byte1(Word(c)) == c.b1.bits
    ensures Byte2(Word(c)) == c.b2.bits && Byte3(Word(c)) == c.b3.bits
  {
    WordBytes(c);
  }

  /** ls_box is SubWord on the word of every column. */
  lemma LsBoxWordSame(c: Col)
    ensures LsBoxWord(Word(c)) == Word(SubWord(AES.sub, c))
  {
    ByteSame(c);
    FlSame(c.b0);
    FlSame(c.b1);
    FlSame(c.b2);
    FlSame(c.b3);
    CombineSame(Fl(AES, c.b0), Fl(AES, c.b1), Fl(AES, c.b2), Fl(AES, c.b3));
    LsBoxSame(AES, c);
  }

  /** f_rn on words is a column of SubBytes, ShiftRows, MixColumns and AddRoundKey. */
  lemma FRnWordSame(a: Col, b: Col, c: Col, d: Col, k: Col)
    ensures FRnWord(Word(a), Word(b), Word(c), Word(d), Word(k))
         == Word(XorCol(MixColumn(AES.x, SubWord(AES.sub, Col(a.b0, b.b1, c.b2, d.b3))), k))
  {
    ByteSame(a);
    ByteSame(b);
    ByteSame(c);
    ByteSame(d);
    FtSame(a.b0);
    FtSame(b.b1);
    FtSame(c.b2);
    FtSame(d.b3);
    var t0, t1, t2, t3 := Ft(AES, a.b0), Ft(AES, b.b1), Ft(AES, c.b2), Ft(AES, d.b3);
    CombineSame(t0, t1, t2, t3);
    XorSame(XorCol(XorCol(XorCol(t0, Ror24(t1)), Ror16(t2)), Ror8(t3)), k);
    FRnSame(AES, a, b, c, d, k);
  }

  lemma FRlWordSame(a: Col, b: Col, c: Col, d: Col, k: Col)
    ensures FRlWord(Word(a), Word(b), Word(c), Word(d), Word(k))
         == Word(XorCol(SubWord(AES.sub, Col(a.b0, b.b1, c.b2, d.b3)), k))
  {
    ByteSame(a);
    ByteSame(b);
    ByteSame(c);
    ByteSame(d);
    FlSame(a.b0);
    FlSame(b.b1);
    FlSame(c.b2);
    FlSame(d.b3);
    var t0, t1, t2, t3 := Fl(AES, a.b0), Fl(AES, b.b1), Fl(AES, c.b2), Fl(AES, d.b3);
    CombineSame(t0, t1, t2, t3);
    XorSame(XorCol(XorCol(XorCol(t0, Ror24(t1)), Ror16(t2)), Ror8(t3)), k);
    FRlSame(AES, a, b, c, d, k);
  }

  lemma IRnWordSame(a: Col, b: Col, c: Col, d: Col, k: Col)
    ensures IRnWord(Word(a), Word(b), Word(c), Word(d), Word(k))
         == Word(XorCol(InvMixColumn(AES.x, SubWord(AES.invSub, Col(a.b0, b.b1, c.b2, d.b3))), k))
  {
    ByteSame(a);
    ByteSame(b);
    ByteSame(c);
    ByteSame(d);
    ItSame(a.b0);
    ItSame(b.b1);
    ItSame(c.b2);
    ItSame(d.b3);
    var t0, t1, t2, t3 := It(AES, a.b0), It(AES, b.b1), It(AES, c.b2), It(AES, d.b3);
    CombineSame(t0, t1, t2, t3);
    XorSame(XorCol(XorCol(XorCol(t0, Ror24(t1)), Ror16(t2)), Ror8(t3)), k);
    IRnSame(AES, a, b, c, d, k);
  }

  lemma IRlWordSame(a: Col, b: Col, c: Col, d: Col, k: Col)
    ensures IRlWord(Word(a), Word(b), Word(c), Word(d), Word(k))
         == Word(XorCol(SubWord(AES.invSub, Col(a.b0, b.b1, c.b2, d.b3)), k))
  {
    ByteSame(a);
    ByteSame(b);
    ByteSame(c);
    ByteSame(d);
    IlSame(a.b0);
    IlSame(b.b1);
    IlSame(c.b2);
    IlSame(d.b3);
    var t0, t1, t2, t3 := Il(AES, a.b0), Il(AES, b.b1), Il(AES, c.b2), Il(AES, d.b3);
    CombineSame(t0, t1, t2, t3);
    XorSame(XorCol(XorCol(XorCol(t0, Ror24(t1)), Ror16(t2)), Ror8(t3)), k);
    IRlSame(AES, a, b, c, d, k);
  }
}
