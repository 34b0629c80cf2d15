/**
 The rounds and the key mixing of crypto/aes_generic.c.

 A 32-bit word is a column whose row 0 is its lowest byte.  The large tables are the columns that
 mixing gives a single byte, rotated to the row the byte is in.
 */
module AesCode {
  import opened Fips197

  /** crypto_fl_tab[0], crypto_il_tab[0], and the multiplication by x in each byte. */
  datatype Tables = Tables(sub: Map, invSub: Map, x: Map)

  const ZERO := Byte(0)

  /** A word rotated left by one byte: ror32 by 24. */
  function Ror24(c: Col): Col {
    Col(c.b3, c.b0, c.b1, c.b2)
  }

  function Ror16(c: Col): Col {
    Col(c.b2, c.b3, c.b0, c.b1)
  }

  function Ror8(c: Col): Col {
    Col(c.b1, c.b2, c.b3, c.b0)
  }

  // ---------------------------------------------------------------------------
  // The tables
  // ---------------------------------------------------------------------------

  /** crypto_ft_tab[0] */
  function Ft(tb: Tables, b: Byte): Col {
    var s := tb.sub(b);
    Col(tb.x(s), s, s, Xor(tb.x(s), s))
  }

  /** crypto_fl_tab[0] */
  function Fl(tb: Tables, b: Byte): Col {
    Col(tb.sub(b), ZERO, ZERO, ZERO)
  }

  /** crypto_it_tab[0] */
  function It(tb: Tables, b: Byte): Col {
    var s := tb.invSub(b);
    Col(TimesE(tb.x, s), Times9(tb.x, s), TimesD(tb.x, s), TimesB(tb.x, s))
  }

  /** crypto_il_tab[0] */
  function Il(tb: Tables, b: Byte): Col {
    Col(tb.invSub(b), ZERO, ZERO, ZERO)
  }

  /** Four table entries, the later ones rotated to their rows, and a word of the key. */
  function Combine(t0: Col, t1: Col, t2: Col, t3: Col, k: Col): Col {
    XorCol(XorCol(XorCol(XorCol(t0, Ror24(t1)), Ror16(t2)), Ror8(t3)), k)
  }

  /** f_rn */
  function FRn(tb: Tables, a: Col, b: Col, c: Col, d: Col, k: Col): Col {
    Combine(Ft(tb, a.b0), Ft(tb, b.b1), Ft(tb, c.b2), Ft(tb, d.b3), k)
  }

  /** f_rl */
  function FRl(tb: Tables, a: Col, b: Col, c: Col, d: Col, k: Col): Col {
    Combine(Fl(tb, a.b0), Fl(tb, b.b1), Fl(tb, c.b2), Fl(tb, d.b3), k)
  }

  /** i_rn */
  function IRn(tb: Tables, a: Col, b: Col, c: Col, d: Col, k: Col): Col {
    Combine(It(tb, a.b0), It(tb, b.b1), It(tb, c.b2), It(tb, d.b3), k)
  }

  /** i_rl */
  function IRl(tb: Tables, a: Col, b: Col, c: Col, d: Col, k: Col): Col {
    Combine(Il(tb, a.b0), Il(tb, b.b1), Il(tb, c.b2), Il(tb, d.b3), k)
  }

  /** f_nround */
  function FNround(tb: Tables, b: State, k: State): State {
    State(FRn(tb, b.c0, b.c1, b.c2, b.c3, k.c0), FRn(tb, b.c1, b.c2, b.c3, b.c0, k.c1),
          FRn(tb, b.c2, b.c3, b.c0, b.c1, k.c2), FRn(tb, b.c3, b.c0, b.c1, b.c2, k.c3))
  }

  /** f_lround */
  function FLround(tb: Tables, b: State, k: State): State {
    State(FRl(tb, b.c0, b.c1, b.c2, b.c3, k.c0), FRl(tb, b.c1, b.c2, b.c3, b.c0, k.c1),
          FRl(tb, b.c2, b.c3, b.c0, b.c1, k.c2), FRl(tb, b.c3, b.c0, b.c1, b.c2, k.c3))
  }

  /** i_nround */
  function INround(tb: Tables, b: State, k: State): State {
    State(IRn(tb, b.c0, b.c3, b.c2, b.c1, k.c0), IRn(tb, b.c1, b.c0, b.c3, b.c2, k.c1),
          IRn(tb, b.c2, b.c1, b.c0, b.c3, k.c2), IRn(tb, b.c3, b.c2, b.c1, b.c0, k.c3))
  }

  /** i_lround */
  function ILround(tb: Tables, b: State, k: State): State {
    State(IRl(tb, b.c0, b.c3, b.c2, b.c1, k.c0), IRl(tb, b.c1, b.c0, b.c3, b.c2, k.c1),
          IRl(tb, b.c2, b.c1, b.c0, b.c3, k.c2), IRl(tb, b.c3, b.c2, b.c1, b.c0, k.c3))
  }

  // ---------------------------------------------------------------------------
  // They are the rounds of the standard
  // ---------------------------------------------------------------------------

  /** The four ways the sum of four comes up, row by row. */
  lemma FourSums(a: Byte, b: Byte, c: Byte, d: Byte)
    ensures Xor(Xor(Xor(a, b), c), d) == Xor(Xor(a, b), Xor(c, d))
    ensures Xor(Xor(Xor(a, b), c), d) == Xor(Xor(b, c), Xor(d, a))
    ensures Xor(Xor(Xor(a, b), c), d) == Xor(Xor(c, d), Xor(a, b))
    ensures Xor(Xor(Xor(a, b), c), d) == Xor(Xor(d, a), Xor(b, c))
  {
    Assoc(Xor(a, b), c, d);
    Swap(Xor(a, b), Xor(c, d));
    Assoc(b, c, Xor(d, a));
    Assoc(c, d, a);
    Swap(Xor(c, d), a);
    Swap(b, Xor(a, Xor(c, d)));
    Assoc(a, Xor(c, d), b);
    Swap(Xor(c, d), b);
    Assoc(a, b, Xor(c, d));
    Swap(Xor(b, c), Xor(d, a));
  }

  /** One word of f_nround mixes the substituted and shifted column. */
  lemma FRnSame(tb: Tables, a: Col, b: Col, c: Col, d: Col, k: Col)
    ensures FRn(tb, a, b, c, d, k) == XorCol(MixColumn(tb.x, SubWord(tb.sub, Col(a.b0, b.b1, c.b2, d.b3))), k)
  {
    var s0, s1, s2, s3 := tb.sub(a.b0), tb.sub(b.b1), tb.sub(c.b2), tb.sub(d.b3);
    FourSums(tb.x(s0), Xor(tb.x(s1), s1), s2, s3);
    FourSums(s0, tb.x(s1), Xor(tb.x(s2), s2), s3);
    FourSums(s0, s1, tb.x(s2), Xor(tb.x(s3), s3));
    FourSums(Xor(tb.x(s0), s0), s1, s2, tb.x(s3));
  }

  lemma WithZeros(a: Byte)
    ensures Xor(a, ZERO) == a && Xor(ZERO, a) == a
  {
  }

  lemma FRlSame(tb: Tables, a: Col, b: Col, c: Col, d: Col, k: Col)
    ensures FRl(tb, a, b, c, d, k) == XorCol(SubWord(tb.sub, Col(a.b0, b.b1, c.b2, d.b3)), k)
  {
    WithZeros(tb.sub(a.b0));
    WithZeros(tb.sub(b.b1));
    WithZeros(tb.sub(c.b2));
    WithZeros(tb.sub(d.b3));
    WithZeros(ZERO);
  }

  lemma IRnSame(tb: Tables, a: Col, b: Col, c: Col, d: Col, k: Col)
    ensures IRn(tb, a, b, c, d, k) == XorCol(InvMixColumn(tb.x, SubWord(tb.invSub, Col(a.b0, b.b1, c.b2, d.b3))), k)
  {
    var s0, s1, s2, s3 := tb.invSub(a.b0), tb.invSub(b.b1), tb.invSub(c.b2), tb.invSub(d.b3);
    FourSums(TimesE(tb.x, s0), TimesB(tb.x, s1), TimesD(tb.x, s2), Times9(tb.x, s3));
    FourSums(Times9(tb.x, s0), TimesE(tb.x, s1), TimesB(tb.x, s2), TimesD(tb.x, s3));
    FourSums(TimesD(tb.x, s0), Times9(tb.x, s1), TimesE(tb.x, s2), TimesB(tb.x, s3));
    FourSums(TimesB(tb.x, s0), TimesD(tb.x, s1), Times9(tb.x, s2), TimesE(tb.x, s3));
  }

  lemma IRlSame(tb: Tables, a: Col, b: Col, c: Col, d: Col, k: Col)
    ensures IRl(tb, a, b, c, d, k) == XorCol(SubWord(tb.invSub, Col(a.b0, b.b1, c.b2, d.b3)), k)
  {
    WithZeros(tb.invSub(a.b0));
    WithZeros(tb.invSub(b.b1));
    WithZeros(tb.invSub(c.b2));
    WithZeros(tb.invSub(d.b3));
    WithZeros(ZERO);
  }

  /** A round by tables is SubBytes, ShiftRows, MixColumns and AddRoundKey. */
  lemma FNroundSame(tb: Tables, b: State, k: State)
    ensures FNround(tb, b, k) == AddRoundKey(MixColumns(tb.x, ShiftRows(SubBytes(tb.sub, b))), k)
  {
    FRnSame(tb, b.c0, b.c1, b.c2, b.c3, k.c0);
    FRnSame(tb, b.c1, b.c2, b.c3, b.c0, k.c1);
    FRnSame(tb, b.c2, b.c3, b.c0, b.c1, k.c2);
    FRnSame(tb, b.c3, b.c0, b.c1, b.c2, k.c3);
  }

  lemma FLroundSame(tb: Tables, b: State, k: State)
    ensures FLround(tb, b, k) == AddRoundKey(ShiftRows(SubBytes(tb.sub, b)), k)
  {
    FRlSame(tb, b.c0, b.c1, b.c2, b.c3, k.c0);
    FRlSame(tb, b.c1, b.c2, b.c3, b.c0, k.c1);
    FRlSame(tb, b.c2, b.c3, b.c0, b.c1, k.c2);
    FRlSame(tb, b.c3, b.c0, b.c1, b.c2, k.c3);
  }

  /** A decryption round by tables is that of the equivalent inverse cipher. */
  lemma INroundSame(tb: Tables, b: State, k: State)
    ensures INround(tb, b, k) == AddRoundKey(InvMixColumns(tb.x, InvShiftRows(SubBytes(tb.invSub, b))), k)
  {
    IRnSame(tb, b.c0, b.c3, b.c2, b.c1, k.c0);
    IRnSame(tb, b.c1, b.c0, b.c3, b.c2, k.c1);
    IRnSame(tb, b.c2, b.c1, b.c0, b.c3, k.c2);
    IRnSame(tb, b.c3, b.c2, b.c1, b.c0, k.c3);
  }

  lemma ILroundSame(tb: Tables, b: State, k: State)
    ensures ILround(tb, b, k) == AddRoundKey(InvShiftRows(SubBytes(tb.invSub, b)), k)
  {
    IRlSame(tb, b.c0, b.c3, b.c2, b.c1, k.c0);
    IRlSame(tb, b.c1, b.c0, b.c3, b.c2, k.c1);
    IRlSame(tb, b.c2, b.c1, b.c0, b.c3, k.c2);
    IRlSame(tb, b.c3, b.c2, b.c1, b.c0, k.c3);
  }

  // ---------------------------------------------------------------------------
  // The key of the decryption rounds
  // ---------------------------------------------------------------------------

  /** star_x */
  function StarX(x: Map, c: Col): Col {
    Col(x(c.b0), x(c.b1), x(c.b2), x(c.b3))
  }

  /** imix_col */
  function ImixCol(x: Map, c: Col): Col {
    var u := StarX(x, c);
    var v := StarX(x, u);
    var w := StarX(x, v);
    var t := XorCol(w, c);
    XorCol(XorCol(XorCol(u, v), w), XorCol(XorCol(Ror8(XorCol(u, t)), Ror16(XorCol(v, t))), Ror24(t)))
  }

  lemma ThreeSums(a: Byte, b: Byte, c: Byte)
    ensures Xor(Xor(a, b), c) == Xor(c, Xor(b, a))
    ensures Xor(b, Xor(c, a)) == Xor(c, Xor(b, a))
  {
    Swap(Xor(a, b), c);
    Swap(a, b);
    Assoc(b, c, a);
    Swap(b, c);
    Assoc(c, b, a);
  }

  lemma ImixRow(x: Map, a: Byte, b: Byte, c: Byte, d: Byte)
    ensures Xor(Xor(Xor(x(a), x(x(a))), x(x(x(a)))),
                Xor(Xor(Xor(x(b), Xor(x(x(x(b))), b)), Xor(x(x(c)), Xor(x(x(x(c))), c))), Xor(x(x(x(d))), d)))
         == InvMixRow(x, a, b, c, d)
  {
    ThreeSums(x(a), x(x(a)), x(x(x(a))));
    ThreeSums(b, x(b), x(x(x(b))));
    ThreeSums(c, x(x(c)), x(x(x(c))));
    var e, f, g, h := TimesE(x, a), TimesB(x, b), TimesD(x, c), Times9(x, d);
    Assoc(f, g, h);
    Assoc(e, f, Xor(g, h));
  }

  /** imix_col is InvMixColumns. */
  lemma ImixColSame(x: Map, c: Col)
    ensures ImixCol(x, c) == InvMixColumn(x, c)
  {
    ImixRow(x, c.b0, c.b1, c.b2, c.b3);
    ImixRow(x, c.b1, c.b2, c.b3, c.b0);
    ImixRow(x, c.b2, c.b3, c.b0, c.b1);
    ImixRow(x, c.b3, c.b0, c.b1, c.b2);
  }
}
