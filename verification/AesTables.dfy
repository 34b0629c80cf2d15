/**
 The tables of crypto/aes_generic.c: the substitution is crypto_fl_tab[0] and its inverse
 crypto_il_tab[0], and bytes are multiplied as star_x multiplies them.  Also how columns stand for
 32-bit words.
 */
module AesTables {
  import opened Fips197
  import opened AesCode

  // ---------------------------------------------------------------------------
  // The substitution
  // ---------------------------------------------------------------------------

  /** One of sixteen rows, by the upper half of x. */
  function Row(x: bv8, r0: bv128, r1: bv128, r2: bv128, r3: bv128, r4: bv128, r5: bv128, r6: bv128, r7: bv128,
               r8: bv128, r9: bv128, ra: bv128, rb: bv128, rc: bv128, rd: bv128, re: bv128, rf: bv128): bv128
  {
    if x & 0x80 == 0 then
      if x & 0x40 == 0 then
        if x & 0x20 == 0 then (if x & 0x10 == 0 then r0 else r1) else (if x & 0x10 == 0 then r2 else r3)
      else
        if x & 0x20 == 0 then (if x & 0x10 == 0 then r4 else r5) else (if x & 0x10 == 0 then r6 else r7)
    else
      if x & 0x40 == 0 then
        if x & 0x20 == 0 then (if x & 0x10 == 0 then r8 else r9) else (if x & 0x10 == 0 then ra else rb)
      else
        if x & 0x20 == 0 then (if x & 0x10 == 0 then rc else rd) else (if x & 0x10 == 0 then re else rf)
  }

  /** The byte of a row at the lower half of x, counted from the left. */
  function Entry(row: bv128, x: bv8): bv8 {
    var d: bv64 := if x & 8 == 0 then (row >> 64) as bv64 else (row & 0xffff_ffff_ffff_ffff) as bv64;
    var w: bv32 := if x & 4 == 0 then (d >> 32) as bv32 else (d & 0xffff_ffff) as bv32;
    var h: bv16 := if x & 2 == 0 then (w >> 16) as bv16 else (w & 0xffff) as bv16;
    if x & 1 == 0 then (h >> 8) as bv8 else (h & 0xff) as bv8
  }

  /** crypto_fl_tab[0] */
  function SubBits(x: bv8): bv8 {
    Entry(Row(x,
              0x637c777b_f26b6fc5_3001672b_fed7ab76,
              0xca82c97d_fa5947f0_add4a2af_9ca472c0,
              0xb7fd9326_363ff7cc_34a5e5f1_71d83115,
              0x04c723c3_1896059a_071280e2_eb27b275,
              0x09832c1a_1b6e5aa0_523bd6b3_29e32f84,
              0x53d100ed_20fcb15b_6acbbe39_4a4c58cf,
              0xd0efaafb_434d3385_45f9027f_503c9fa8,
              0x51a3408f_929d38f5_bcb6da21_10fff3d2,
              0xcd0c13ec_5f974417_c4a77e3d_645d1973,
              0x60814fdc_222a9088_46eeb814_de5e0bdb,
              0xe0323a0a_4906245c_c2d3ac62_9195e479,
              0xe7c8376d_8dd54ea9_6c56f4ea_657aae08,
              0xba78252e_1ca6b4c6_e8dd741f_4bbd8b8a,
              0x703eb566_4803f60e_613557b9_86c11d9e,
              0xe1f89811_69d98e94_9b1e87e9_ce5528df,
              0x8ca1890d_bfe64268_41992d0f_b054bb16), x)
  }

  /** crypto_il_tab[0] */
  function InvSubBits(x: bv8): bv8 {
    Entry(Row(x,
              0x52096ad5_3036a538_bf40a39e_81f3d7fb,
              0x7ce33982_9b2fff87_348e4344_c4dee9cb,
              0x547b9432_a6c2233d_ee4c950b_42fac34e,
              0x082ea166_28d924b2_765ba249_6d8bd125,
              0x72f8f664_86689816_d4a45ccc_5d65b692,
              0x6c704850_fdedb9da_5e154657_a78d9d84,
              0x90d8ab00_8cbcd30a_f7e45805_b8b34506,
              0xd02c1e8f_ca3f0f02_c1afbd03_01138a6b,
              0x3a911141_4f67dcea_97f2cfce_f0b4e673,
              0x96ac7422_e7ad3585_e2f937e8_1c75df6e,
              0x47f11a71_1d29c589_6fb7620e_aa18be1b,
              0xfc563e4b_c6d27920_9adbc0fe_78cd5af4,
              0x1fdda833_8807c731_b1121059_2780ec5f,
              0x60517fa9_19b54a0d_2de57a9f_93c99cef,
              0xa0e03b4d_ae2af5b0_c8ebbb3c_83539961,
              0x172b047e_ba77d626_e1691463_55210c7d), x)
  }

  lemma SubInverse(x: bv8)
    ensures InvSubBits(SubBits(x)) == x
  {
  }

  /** The affine transformation of section 5.1.1 of FIPS-197. */
  function Affine(b: bv8): bv8 {
    b ^ ((b << 1) | (b >> 7)) ^ ((b << 2) | (b >> 6)) ^ ((b << 3) | (b >> 5)) ^ ((b << 4) | (b >> 4)) ^ 0x63
  }

  function InvAffine(s: bv8): bv8 {
    ((s << 1) | (s >> 7)) ^ ((s << 3) | (s >> 5)) ^ ((s << 6) | (s >> 2)) ^ 0x05
  }

  /** Multiplication by x: section 4.2.1 of FIPS-197. */
  function Twofold(b: bv8): bv8 {
    (b << 1) ^ ((b >> 7) * 0x1b)
  }

  /** The product of section 4.2 of FIPS-197. */
  function Product(a: bv8, b: bv8): bv8 {
    var a1 := Twofold(a);
    var a2 := Twofold(a1);
    var a3 := Twofold(a2);
    var a4 := Twofold(a3);
    var a5 := Twofold(a4);
    var a6 := Twofold(a5);
    var a7 := Twofold(a6);
    (a * (b & 1)) ^ (a1 * ((b >> 1) & 1)) ^ (a2 * ((b >> 2) & 1)) ^ (a3 * ((b >> 3) & 1)) ^
    (a4 * ((b >> 4) & 1)) ^ (a5 * ((b >> 5) & 1)) ^ (a6 * ((b >> 6) & 1)) ^ (a7 * (b >> 7))
  }

  /**
   The table is the substitution of section 5.1.1 of FIPS-197: the inverse in the field, then the affine
   transformation.
   */
  lemma SubStandard(a: bv8)
    ensures Affine(InvAffine(SubBits(a))) == SubBits(a)
    ensures a == 0 ==> InvAffine(SubBits(a)) == 0
    ensures a != 0 ==> Product(a, InvAffine(SubBits(a))) == 1
  {
  }

  function Sub(b: Byte): Byte {
    Byte(SubBits(b.bits))
  }

  function InvSub(b: Byte): Byte {
    Byte(InvSubBits(b.bits))
  }

  function XTime(b: Byte): Byte {
    Byte(Twofold(b.bits))
  }

  const AES := Tables(Sub, InvSub, XTime)

  lemma TwofoldXor(a: bv8, b: bv8)
    ensures Twofold(a ^ b) == Twofold(a) ^ Twofold(b)
  {
  }

  lemma SubUndone(b: Byte)
    ensures InvSub(Sub(b)) == b
  {
    SubInverse(b.bits);
  }

  lemma XTimeXor(a: Byte, b: Byte)
    ensures XTime(Xor(a, b)) == Xor(XTime(a), XTime(b))
  {
    var p, q := a.bits, b.bits;
    assert Xor(a, b) == Byte(p ^ q);
    assert XTime(Byte(p ^ q)) == Byte(Twofold(p ^ q));
    TwofoldXor(p, q);
  }

  lemma AesInverse()
    ensures Inverse(Sub, InvSub)
  {
    forall b ensures InvSub(Sub(b)) == b {
      SubUndone(b);
    }
  }

  lemma AesLinear()
    ensures Linear(XTime)
  {
    forall a, b ensures XTime(Xor(a, b)) == Xor(XTime(a), XTime(b)) {
      XTimeXor(a, b);
    }
  }

  /** The tables of the code meet what the rounds need. */
  lemma AesTablesFit()
    ensures Inverse(AES.sub, AES.invSub) && Linear(AES.x)
  {
    AesInverse();
    AesLinear();
  }

  // ---------------------------------------------------------------------------
  // Words
  // ---------------------------------------------------------------------------

  /** The 32-bit word of four bytes, the lowest first. */
  function Pack(b0: bv8, b1: bv8, b2: bv8, b3: bv8): bv32 {
    (b0 as bv32) | ((b1 as bv32) << 8) | ((b2 as bv32) << 16) | ((b3 as bv32) << 24)
  }

  function Word(c: Col): bv32 {
    Pack(c.b0.bits, c.b1.bits, c.b2.bits, c.b3.bits)
  }

  /** The macro star_x on a 32-bit word. */
  function StarWord(w: bv32): bv32 {
    ((w & 0x7f7f7f7f) << 1) ^ (((w & 0x80808080) >> 7) * 0x1b)
  }

  /** ror32 by 8, 16 and 24 */
  function RorWord8(w: bv32): bv32 {
    (w >> 8) | (w << 24)
  }

  function RorWord16(w: bv32): bv32 {
    (w >> 16) | (w << 16)
  }

  function RorWord24(w: bv32): bv32 {
    (w >> 24) | (w << 8)
  }

  lemma PackByte(b0: bv8, b1: bv8, b2: bv8, b3: bv8)
    ensures var w := Pack(b0, b1, b2, b3);
            && (w & 0xff) as bv8 == b0 && ((w >> 8) & 0xff) as bv8 == b1
            && ((w >> 16) & 0xff) as bv8 == b2 && (w >> 24) as bv8 == b3
  {
  }

  lemma PackXor(a0: bv8, a1: bv8, a2: bv8, a3: bv8, b0: bv8, b1: bv8, b2: bv8, b3: bv8)
    ensures Pack(a0, a1, a2, a3) ^ Pack(b0, b1, b2, b3) == Pack(a0 ^ b0, a1 ^ b1, a2 ^ b2, a3 ^ b3)
  {
  }

  lemma PackRor8(b0: bv8, b1: bv8, b2: bv8, b3: bv8)
    ensures RorWord8(Pack(b0, b1, b2, b3)) == Pack(b1, b2, b3, b0)
  {
  }

  lemma PackRor16(b0: bv8, b1: bv8, b2: bv8, b3: bv8)
    ensures RorWord16(Pack(b0, b1, b2, b3)) == Pack(b2, b3, b0, b1)
  {
  }

  lemma PackRor24(b0: bv8, b1: bv8, b2: bv8, b3: bv8)
    ensures RorWord24(Pack(b0, b1, b2, b3)) == Pack(b3, b0, b1, b2)
  {
  }

  lemma PackStar(b0: bv8, b1: bv8, b2: bv8, b3: bv8)
    ensures StarWord(Pack(b0, b1, b2, b3)) == Pack(Twofold(b0), Twofold(b1), Twofold(b2), Twofold(b3))
  {
  }

  // What the code does with words, columns do: exclusive or, ror32 and star_x.

  lemma WordXor(c: Col, d: Col)
    ensures Word(c) ^ Word(d) == Word(XorCol(c, d))
  {
    PackXor(c.b0.bits, c.b1.bits, c.b2.bits, c.b3.bits, d.b0.bits, d.b1.bits, d.b2.bits, d.b3.bits);
  }

  lemma WordRor8(c: Col)
    ensures RorWord8(Word(c)) == Word(Ror8(c))
  {
    PackRor8(c.b0.bits, c.b1.bits, c.b2.bits, c.b3.bits);
  }

  lemma WordRor16(c: Col)
    ensures RorWord16(Word(c)) == Word(Ror16(c))
  {
    PackRor16(c.b0.bits, c.b1.bits, c.b2.bits, c.b3.bits);
  }

  lemma WordRor24(c: Col)
    ensures RorWord24(Word(c)) == Word(Ror24(c))
  {
    PackRor24(c.b0.bits, c.b1.bits, c.b2.bits, c.b3.bits);
  }

  lemma WordStar(c: Col)
    ensures StarWord(Word(c)) == Word(StarX(AES.x, c))
  {
    PackStar(c.b0.bits, c.b1.bits, c.b2.bits, c.b3.bits);
  }

  /** A word has its bytes, so it stands for one column only. */
  lemma WordBytes(c: Col)
    ensures (Word(c) & 0xff) as bv8 == c.b0.bits && ((Word(c) >> 8) & 0xff) as bv8 == c.b1.bits
    ensures ((Word(c) >> 16) & 0xff) as bv8 == c.b2.bits && (Word(c) >> 24) as bv8 == c.b3.bits
  {
    PackByte(c.b0.bits, c.b1.bits, c.b2.bits, c.b3.bits);
  }
}
