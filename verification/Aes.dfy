/** AES: the cipher of crypto/aes_generic.c with its own tables. */
module Aes {
  import opened AesRounds
  import opened Fips197
  import opened AesCode
  import opened AesTables
  import opened AesContext

  lemma Doubled(a: bv8, b: bv8)
    requires Twofold(a) == b
    ensures AES.x(Byte(a)) == Byte(b)
  {
  }

  /** The constants of the key schedule are the powers of x. */
  lemma RcoTab()
    ensures RcoFits(AES.x)
  {
    Doubled(1, 2);
    Doubled(2, 4);
    Doubled(4, 8);
    Doubled(8, 16);
    Doubled(16, 32);
    Doubled(32, 64);
    Doubled(64, 128);
    Doubled(128, 27);
    Doubled(27, 54);
    PowersUp(AES.x);
  }

  lemma PowersUp(x: Map)
    requires forall i :: 0 <= i < 9 ==> x(RCO_TAB[i]) == RCO_TAB[i + 1]
    ensures RcoFits(x)
  {
    var i := 0;
    while i < 9
      invariant 0 <= i <= 9 && forall j :: 0 <= j <= i ==> RCO_TAB[j] == Power(x, j)
    {
      assert Power(x, i + 1) == x(Power(x, i));
      i := i + 1;
    }
  }

  /** Decryption is the inverse cipher of section 5.3 of FIPS-197. */
  lemma DecryptedIsInvCipher(tb: Tables, key: seq<Col>, block: seq<Byte>)
    requires Linear(tb.x) && |key| >= 1 && |block| == 16
    ensures Decrypted(tb, key, block) == Store(InvCipher(OpsOf(tb), RoundKeys(tb, key), Load(block)))
  {
    AesExchanged(tb.sub, tb.invSub, tb.x);
    DecKeysFit(tb, key);
    EqInvCipherSame(OpsOf(tb), RoundKeys(tb, key), DecKeys(tb, key), Load(block));
  }

  /** For every key of 16, 24 or 32 bytes and every block, decrypting what was encrypted returns the block. */
  lemma AesRoundTrip(inKey: seq<Byte>, block: seq<Byte>)
    requires |inKey| in {16, 24, 32} && |block| == 16
    ensures Decrypted(AES, Words(inKey), Encrypted(AES, Words(inKey), block)) == block
  {
    AesTablesFit();
    RoundTrip(AES, Words(inKey), block);
  }
}
