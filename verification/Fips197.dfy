/**
 The transformations of FIPS-197 on a state of four columns (section 3.4), for any substitution and
 any linear multiplication by x.
 */
module Fips197 {
  import opened AesRounds

  datatype Byte = Byte(bits: bv8)
  type Map = Byte -> Byte

  function Xor(a: Byte, b: Byte): Byte {
    Byte(a.bits ^ b.bits)
  }

  /** A column, or a word, with the byte of row 0 first. */
  datatype Col = Col(b0: Byte, b1: Byte, b2: Byte, b3: Byte)
  datatype State = State(c0: Col, c1: Col, c2: Col, c3: Col)

  function XorCol(a: Col, b: Col): Col {
    Col(Xor(a.b0, b.b0), Xor(a.b1, b.b1), Xor(a.b2, b.b2), Xor(a.b3, b.b3))
  }

  /** Section 5.1.4 */
  function AddRoundKey(a: State, k: State): State {
    State(XorCol(a.c0, k.c0), XorCol(a.c1, k.c1), XorCol(a.c2, k.c2), XorCol(a.c3, k.c3))
  }

  function SubWord(s: Map, c: Col): Col {
    Col(s(c.b0), s(c.b1), s(c.b2), s(c.b3))
  }

  /** Sections 5.1.1 and 5.3.2, with the substitution as parameter. */
  function SubBytes(s: Map, a: State): State {
    State(SubWord(s, a.c0), SubWord(s, a.c1), SubWord(s, a.c2), SubWord(s, a.c3))
  }

  /** Section 5.1.2: row r moves r columns to the left. */
  function ShiftRows(a: State): State {
    State(Col(a.c0.b0, a.c1.b1, a.c2.b2, a.c3.b3), Col(a.c1.b0, a.c2.b1, a.c3.b2, a.c0.b3),
          Col(a.c2.b0, a.c3.b1, a.c0.b2, a.c1.b3), Col(a.c3.b0, a.c0.b1, a.c1.b2, a.c2.b3))
  }

  /** Section 5.3.1: row r moves r columns to the right. */
  function InvShiftRows(a: State): State {
    State(Col(a.c0.b0, a.c3.b1, a.c2.b2, a.c1.b3), Col(a.c1.b0, a.c0.b1, a.c3.b2, a.c2.b3),
          Col(a.c2.b0, a.c1.b1, a.c0.b2, a.c3.b3), Col(a.c3.b0, a.c2.b1, a.c1.b2, a.c0.b3))
  }

  /** {02}a + {03}b + c + d */
  function MixRow(x: Map, a: Byte, b: Byte, c: Byte, d: Byte): Byte {
    Xor(Xor(x(a), Xor(x(b), b)), Xor(c, d))
  }

  /** Section 5.1.3 for one column. */
  function MixColumn(x: Map, c: Col): Col {
    Col(MixRow(x, c.b0, c.b1, c.b2, c.b3), MixRow(x, c.b1, c.b2, c.b3, c.b0),
        MixRow(x, c.b2, c.b3, c.b0, c.b1), MixRow(x, c.b3, c.b0, c.b1, c.b2))
  }

  function Times9(x: Map, a: Byte): Byte {
    Xor(x(x(x(a))), a)
  }

  function TimesB(x: Map, a: Byte): Byte {
    Xor(x(x(x(a))), Xor(x(a), a))
  }

  function TimesD(x: Map, a: Byte): Byte {
    Xor(x(x(x(a))), Xor(x(x(a)), a))
  }

  function TimesE(x: Map, a: Byte): Byte {
    Xor(x(x(x(a))), Xor(x(x(a)), x(a)))
  }

  /** {0e}a + {0b}b + {0d}c + {09}d */
  function InvMixRow(x: Map, a: Byte, b: Byte, c: Byte, d: Byte): Byte {
    Xor(Xor(TimesE(x, a), TimesB(x, b)), Xor(TimesD(x, c), Times9(x, d)))
  }

  /** Section 5.3.3 for one column. */
  function InvMixColumn(x: Map, c: Col): Col {
    Col(InvMixRow(x, c.b0, c.b1, c.b2, c.b3), InvMixRow(x, c.b1, c.b2, c.b3, c.b0),
        InvMixRow(x, c.b2, c.b3, c.b0, c.b1), InvMixRow(x, c.b3, c.b0, c.b1, c.b2))
  }

  function MixColumns(x: Map, a: State): State {
    State(MixColumn(x, a.c0), MixColumn(x, a.c1), MixColumn(x, a.c2), MixColumn(x, a.c3))
  }

  function InvMixColumns(x: Map, a: State): State {
    State(InvMixColumn(x, a.c0), InvMixColumn(x, a.c1), InvMixColumn(x, a.c2), InvMixColumn(x, a.c3))
  }

  // ---------------------------------------------------------------------------
  // What the transformations need of the substitution and the multiplication
  // ---------------------------------------------------------------------------

  ghost predicate Inverse(s: Map, t: Map) {
    forall b :: t(s(b)) == b
  }

  ghost predicate Linear(x: Map) {
    forall a, b :: x(Xor(a, b)) == Xor(x(a), x(b))
  }

  // ---------------------------------------------------------------------------
  // Sums
  // ---------------------------------------------------------------------------

  lemma Swap(a: Byte, b: Byte)
    ensures Xor(a, b) == Xor(b, a)
  {
  }

  lemma Assoc(a: Byte, b: Byte, c: Byte)
    ensures Xor(Xor(a, b), c) == Xor(a, Xor(b, c))
  {
  }

  lemma Interchange(a: Byte, b: Byte, c: Byte, d: Byte)
    ensures Xor(Xor(a, b), Xor(c, d)) == Xor(Xor(a, c), Xor(b, d))
  {
  }

  lemma Telescope(a: Byte, b: Byte, c: Byte)
    ensures Xor(Xor(a, b), Xor(b, c)) == Xor(a, c)
  {
  }

  lemma Twice(a: Byte, k: Byte)
    ensures Xor(Xor(a, k), k) == a
  {
  }

  lemma SameAdded(a: Byte, b: Byte, k: Byte)
    ensures Xor(Xor(a, k), Xor(b, k)) == Xor(a, b)
  {
  }

  // ---------------------------------------------------------------------------
  // Mixing columns, through its square
  // ---------------------------------------------------------------------------

  /** MixRow with a single multiplication. */
  function AltRow(x: Map, a: Byte, b: Byte, c: Byte, d: Byte): Byte {
    Xor(Xor(b, Xor(c, d)), x(Xor(a, b)))
  }

  lemma AltSum(p: Byte, q: Byte, b: Byte, c: Byte, d: Byte)
    ensures Xor(Xor(p, Xor(q, b)), Xor(c, d)) == Xor(Xor(b, Xor(c, d)), Xor(p, q))
  {
  }

  lemma AltSame(x: Map, a: Byte, b: Byte, c: Byte, d: Byte)
    requires Linear(x)
    ensures MixRow(x, a, b, c, d) == AltRow(x, a, b, c, d)
  {
    AltSum(x(a), x(b), b, c, d);
  }

  /** MixRow applied twice: {05}a + {04}c */
  function SquareRow(x: Map, a: Byte, c: Byte): Byte {
    Xor(a, x(x(Xor(a, c))))
  }

  lemma HeadSum(b0: Byte, b1: Byte, b2: Byte, b3: Byte)
    ensures Xor(Xor(b1, Xor(b2, b3)), Xor(b2, Xor(b3, b0))) == Xor(b0, b1)
  {
  }

  /** The sum of two rows that follow one another. */
  lemma RowPair(x: Map, b0: Byte, b1: Byte, b2: Byte, b3: Byte)
    requires Linear(x)
    ensures Xor(x(Xor(b0, b1)), x(Xor(b1, b2))) == x(Xor(b0, b2))
    ensures Xor(AltRow(x, b0, b1, b2, b3), AltRow(x, b1, b2, b3, b0)) == Xor(Xor(b0, b1), x(Xor(b0, b2)))
  {
    assert Xor(x(Xor(b0, b1)), x(Xor(b1, b2))) == x(Xor(b0, b2)) by {
      Telescope(b0, b1, b2);
      assert x(Xor(Xor(b0, b1), Xor(b1, b2))) == Xor(x(Xor(b0, b1)), x(Xor(b1, b2)));
    }
    Interchange(Xor(b1, Xor(b2, b3)), x(Xor(b0, b1)), Xor(b2, Xor(b3, b0)), x(Xor(b1, b2)));
    HeadSum(b0, b1, b2, b3);
  }

  lemma SquareSum(u: Byte, p: Byte, d: Byte, q: Byte, r: Byte)
    ensures Xor(Xor(Xor(u, p), Xor(d, Xor(q, p))), Xor(q, r)) == Xor(Xor(u, d), r)
  {
  }

  lemma TailSum(b0: Byte, b2: Byte, b3: Byte)
    ensures Xor(Xor(b2, Xor(b3, b0)), Xor(b2, b3)) == b0
  {
  }

  lemma AltAlt(x: Map, b0: Byte, b1: Byte, b2: Byte, b3: Byte)
    requires Linear(x)
    ensures AltRow(x, AltRow(x, b0, b1, b2, b3), AltRow(x, b1, b2, b3, b0), AltRow(x, b2, b3, b0, b1),
                   AltRow(x, b3, b0, b1, b2))
         == SquareRow(x, b0, b2)
  {
    var e := x(Xor(b0, b2));
    RowPair(x, b0, b1, b2, b3);
    RowPair(x, b2, b3, b0, b1);
    Swap(b0, b2);
    assert x(Xor(Xor(b0, b1), e)) == Xor(x(Xor(b0, b1)), x(e));
    SquareSum(Xor(b2, Xor(b3, b0)), x(Xor(b1, b2)), Xor(b2, b3), x(Xor(b0, b1)), x(e));
    TailSum(b0, b2, b3);
  }

  /** MixColumn applied twice. */
  function Square(x: Map, c: Col): Col {
    Col(SquareRow(x, c.b0, c.b2), SquareRow(x, c.b1, c.b3), SquareRow(x, c.b2, c.b0), SquareRow(x, c.b3, c.b1))
  }

  function AltColumn(x: Map, c: Col): Col {
    Col(AltRow(x, c.b0, c.b1, c.b2, c.b3), AltRow(x, c.b1, c.b2, c.b3, c.b0),
        AltRow(x, c.b2, c.b3, c.b0, c.b1), AltRow(x, c.b3, c.b0, c.b1, c.b2))
  }

  lemma AltColumnSame(x: Map, c: Col)
    requires Linear(x)
    ensures MixColumn(x, c) == AltColumn(x, c)
  {
    AltSame(x, c.b0, c.b1, c.b2, c.b3);
    AltSame(x, c.b1, c.b2, c.b3, c.b0);
    AltSame(x, c.b2, c.b3, c.b0, c.b1);
    AltSame(x, c.b3, c.b0, c.b1, c.b2);
  }

  lemma MixMix(x: Map, c: Col)
    requires Linear(x)
    ensures MixColumn(x, MixColumn(x, c)) == Square(x, c)
  {
    AltColumnSame(x, c);
    AltColumnSame(x, AltColumn(x, c));
    AltAlt(x, c.b0, c.b1, c.b2, c.b3);
    AltAlt(x, c.b1, c.b2, c.b3, c.b0);
    AltAlt(x, c.b2, c.b3, c.b0, c.b1);
    AltAlt(x, c.b3, c.b0, c.b1, c.b2);
  }

  lemma SquareTwiceRow(x: Map, a: Byte, c: Byte)
    ensures SquareRow(x, SquareRow(x, a, c), SquareRow(x, c, a)) == a
  {
    var e := x(x(Xor(a, c)));
    Swap(a, c);
    SameAdded(a, c, e);
    Twice(a, e);
  }

  lemma SquareTwice(x: Map, c: Col)
    ensures Square(x, Square(x, c)) == c
  {
    SquareTwiceRow(x, c.b0, c.b2);
    SquareTwiceRow(x, c.b1, c.b3);
    SquareTwiceRow(x, c.b2, c.b0);
    SquareTwiceRow(x, c.b3, c.b1);
  }

  // ---------------------------------------------------------------------------
  // The inverse: {0e}, {0b}, {0d}, {09} are the mixed square
  // ---------------------------------------------------------------------------

  /** What the inverse adds to MixRow: {0c}(a + c) + {08}(b + d) */
  function Extra(x: Map, a: Byte, b: Byte, c: Byte, d: Byte): Byte {
    var e, f := x(x(Xor(a, c))), x(x(Xor(b, d)));
    Xor(Xor(x(e), e), x(f))
  }

  lemma TwoPowers(x: Map, a: Byte, c: Byte)
    requires Linear(x)
    ensures x(x(Xor(a, c))) == Xor(x(x(a)), x(x(c)))
    ensures x(x(x(Xor(a, c)))) == Xor(x(x(x(a))), x(x(x(c))))
  {
    assert x(Xor(a, c)) == Xor(x(a), x(c));
    assert x(Xor(x(a), x(c))) == Xor(x(x(a)), x(x(c)));
    assert x(Xor(x(x(a)), x(x(c)))) == Xor(x(x(x(a))), x(x(x(c))));
  }

  /** {0e}a + {0d}c */
  lemma OuterPair(x: Map, a: Byte, c: Byte)
    requires Linear(x)
    ensures var e := x(x(Xor(a, c))); Xor(TimesE(x, a), TimesD(x, c)) == Xor(Xor(x(e), e), Xor(x(a), c))
  {
    TwoPowers(x, a, c);
    Interchange(x(x(x(a))), Xor(x(x(a)), x(a)), x(x(x(c))), Xor(x(x(c)), c));
    Interchange(x(x(a)), x(a), x(x(c)), c);
    Assoc(x(x(x(Xor(a, c)))), x(x(Xor(a, c))), Xor(x(a), c));
  }

  /** {0b}b + {09}d */
  lemma InnerPair(x: Map, b: Byte, d: Byte)
    requires Linear(x)
    ensures var f := x(x(Xor(b, d))); Xor(TimesB(x, b), Times9(x, d)) == Xor(x(f), Xor(Xor(x(b), b), d))
  {
    TwoPowers(x, b, d);
    Interchange(x(x(x(b))), Xor(x(b), b), x(x(x(d))), d);
  }

  lemma InvRowSum(x: Map, a: Byte, b: Byte, c: Byte, d: Byte)
    requires Linear(x)
    ensures InvMixRow(x, a, b, c, d) == Xor(MixRow(x, a, b, c, d), Extra(x, a, b, c, d))
  {
    var e, f := x(x(Xor(a, c))), x(x(Xor(b, d)));
    Interchange(TimesE(x, a), TimesB(x, b), TimesD(x, c), Times9(x, d));
    OuterPair(x, a, c);
    InnerPair(x, b, d);
    Interchange(Xor(x(e), e), Xor(x(a), c), x(f), Xor(Xor(x(b), b), d));
    Interchange(x(a), c, Xor(x(b), b), d);
    Swap(Extra(x, a, b, c, d), MixRow(x, a, b, c, d));
  }

  lemma SquareMixedRow(x: Map, b0: Byte, b1: Byte, b2: Byte, b3: Byte)
    requires Linear(x)
    ensures AltRow(x, SquareRow(x, b0, b2), SquareRow(x, b1, b3), SquareRow(x, b2, b0), SquareRow(x, b3, b1))
         == Xor(AltRow(x, b0, b1, b2, b3), Extra(x, b0, b1, b2, b3))
  {
    var e, f := x(x(Xor(b0, b2))), x(x(Xor(b1, b3)));
    Swap(b0, b2);
    Swap(b1, b3);
    Interchange(b0, e, b1, f);
    assert x(Xor(Xor(b0, b1), Xor(e, f))) == Xor(x(Xor(b0, b1)), Xor(x(e), x(f)));
    Interchange(b2, e, b3, f);
    Interchange(b1, f, Xor(b2, b3), Xor(e, f));
    Swap(f, Xor(e, f));
    Twice(e, f);
    Interchange(Xor(b1, Xor(b2, b3)), e, x(Xor(b0, b1)), Xor(x(e), x(f)));
    Assoc(e, x(e), x(f));
    Swap(e, x(e));
  }

  lemma InvMixIsMixedSquare(x: Map, c: Col)
    requires Linear(x)
    ensures InvMixColumn(x, c) == MixColumn(x, Square(x, c))
  {
    AltColumnSame(x, c);
    AltColumnSame(x, Square(x, c));
    InvRowSum(x, c.b0, c.b1, c.b2, c.b3);
    InvRowSum(x, c.b1, c.b2, c.b3, c.b0);
    InvRowSum(x, c.b2, c.b3, c.b0, c.b1);
    InvRowSum(x, c.b3, c.b0, c.b1, c.b2);
    SquareMixedRow(x, c.b0, c.b1, c.b2, c.b3);
    SquareMixedRow(x, c.b1, c.b2, c.b3, c.b0);
    SquareMixedRow(x, c.b2, c.b3, c.b0, c.b1);
    SquareMixedRow(x, c.b3, c.b0, c.b1, c.b2);
  }

  /** InvMixColumns undoes MixColumns: mixing four times changes nothing. */
  lemma InvMixMix(x: Map, c: Col)
    requires Linear(x)
    ensures InvMixColumn(x, MixColumn(x, c)) == c
  {
    var m := MixColumn(x, c);
    InvMixIsMixedSquare(x, m);
    MixMix(x, m);
    MixMix(x, MixColumn(x, m));
    MixMix(x, c);
    SquareTwice(x, c);
  }

  // ---------------------------------------------------------------------------
  // InvMixColumns is linear
  // ---------------------------------------------------------------------------

  lemma TimesXor(x: Map, a: Byte, b: Byte)
    requires Linear(x)
    ensures Times9(x, Xor(a, b)) == Xor(Times9(x, a), Times9(x, b))
    ensures TimesB(x, Xor(a, b)) == Xor(TimesB(x, a), TimesB(x, b))
    ensures TimesD(x, Xor(a, b)) == Xor(TimesD(x, a), TimesD(x, b))
    ensures TimesE(x, Xor(a, b)) == Xor(TimesE(x, a), TimesE(x, b))
  {
    TwoPowers(x, a, b);
    var t, u := x(x(x(a))), x(x(x(b)));
    var p, q := x(x(a)), x(x(b));
    Interchange(t, a, u, b);
    Interchange(x(a), a, x(b), b);
    Interchange(t, Xor(x(a), a), u, Xor(x(b), b));
    Interchange(p, a, q, b);
    Interchange(t, Xor(p, a), u, Xor(q, b));
    Interchange(p, x(a), q, x(b));
    Interchange(t, Xor(p, x(a)), u, Xor(q, x(b)));
  }

  lemma InvMixRowXor(x: Map, a0: Byte, a1: Byte, a2: Byte, a3: Byte, b0: Byte, b1: Byte, b2: Byte, b3: Byte)
    requires Linear(x)
    ensures InvMixRow(x, Xor(a0, b0), Xor(a1, b1), Xor(a2, b2), Xor(a3, b3))
         == Xor(InvMixRow(x, a0, a1, a2, a3), InvMixRow(x, b0, b1, b2, b3))
  {
    TimesXor(x, a0, b0);
    TimesXor(x, a1, b1);
    TimesXor(x, a2, b2);
    TimesXor(x, a3, b3);
    Interchange(TimesE(x, a0), TimesE(x, b0), TimesB(x, a1), TimesB(x, b1));
    Interchange(TimesD(x, a2), TimesD(x, b2), Times9(x, a3), Times9(x, b3));
    Interchange(Xor(TimesE(x, a0), TimesB(x, a1)), Xor(TimesE(x, b0), TimesB(x, b1)),
                Xor(TimesD(x, a2), Times9(x, a3)), Xor(TimesD(x, b2), Times9(x, b3)));
  }

  lemma InvMixXor(x: Map, a: Col, b: Col)
    requires Linear(x)
    ensures InvMixColumn(x, XorCol(a, b)) == XorCol(InvMixColumn(x, a), InvMixColumn(x, b))
  {
    InvMixRowXor(x, a.b0, a.b1, a.b2, a.b3, b.b0, b.b1, b.b2, b.b3);
    InvMixRowXor(x, a.b1, a.b2, a.b3, a.b0, b.b1, b.b2, b.b3, b.b0);
    InvMixRowXor(x, a.b2, a.b3, a.b0, a.b1, b.b2, b.b3, b.b0, b.b1);
    InvMixRowXor(x, a.b3, a.b0, a.b1, a.b2, b.b3, b.b0, b.b1, b.b2);
  }

  // ---------------------------------------------------------------------------
  // The cipher
  // ---------------------------------------------------------------------------

  /** The transformations for the substitution `s`, its inverse `t` and the multiplication `x`. */
  function AesOps(s: Map, t: Map, x: Map): Ops<State> {
    Ops(a => SubBytes(s, a), a => ShiftRows(a), a => MixColumns(x, a),
        a => SubBytes(t, a), a => InvShiftRows(a), a => InvMixColumns(x, a),
        (a, k) => AddRoundKey(a, k))
  }

  lemma ColTwice(a: Col, k: Col)
    ensures XorCol(XorCol(a, k), k) == a
  {
    Twice(a.b0, k.b0);
    Twice(a.b1, k.b1);
    Twice(a.b2, k.b2);
    Twice(a.b3, k.b3);
  }

  lemma StateTwice(a: State, k: State)
    ensures AddRoundKey(AddRoundKey(a, k), k) == a
  {
    ColTwice(a.c0, k.c0);
    ColTwice(a.c1, k.c1);
    ColTwice(a.c2, k.c2);
    ColTwice(a.c3, k.c3);
  }

  lemma StateMixed(x: Map, a: State)
    requires Linear(x)
    ensures InvMixColumns(x, MixColumns(x, a)) == a
  {
    InvMixMix(x, a.c0);
    InvMixMix(x, a.c1);
    InvMixMix(x, a.c2);
    InvMixMix(x, a.c3);
  }

  lemma StateMixXor(x: Map, a: State, k: State)
    requires Linear(x)
    ensures InvMixColumns(x, AddRoundKey(a, k)) == AddRoundKey(InvMixColumns(x, a), InvMixColumns(x, k))
  {
    InvMixXor(x, a.c0, k.c0);
    InvMixXor(x, a.c1, k.c1);
    InvMixXor(x, a.c2, k.c2);
    InvMixXor(x, a.c3, k.c3);
  }

  lemma StateSubbed(s: Map, t: Map, a: State)
    requires Inverse(s, t)
    ensures SubBytes(t, SubBytes(s, a)) == a
  {
  }

  /** The transformations undo one another. */
  lemma AesUndone(s: Map, t: Map, x: Map)
    requires Inverse(s, t) && Linear(x)
    ensures Undone(AesOps(s, t, x))
  {
    var o := AesOps(s, t, x);
    forall a ensures o.invSub(o.sub(a)) == a {
      StateSubbed(s, t, a);
    }
    forall a ensures o.invMix(o.mix(a)) == a {
      StateMixed(x, a);
    }
    forall a, k ensures o.add(o.add(a, k), k) == a {
      StateTwice(a, k);
    }
  }

  /** They can be exchanged as section 5.3.5 says. */
  lemma AesExchanged(s: Map, t: Map, x: Map)
    requires Linear(x)
    ensures Exchanged(AesOps(s, t, x))
  {
    var o := AesOps(s, t, x);
    forall a, k ensures o.invMix(o.add(a, k)) == o.add(o.invMix(a), o.invMix(k)) {
      StateMixXor(x, a, k);
    }
  }
}
