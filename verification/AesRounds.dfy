/**
 The round structure of FIPS-197, for any state and any transformations that undo one another:
 the cipher (section 5.1), the inverse cipher (section 5.3) and the equivalent inverse cipher
 (section 5.3.5).
 */
module AesRounds {

  datatype Ops<!S(!new)> = Ops(
    sub: S -> S, shift: S -> S, mix: S -> S,
    invSub: S -> S, invShift: S -> S, invMix: S -> S,
    add: (S, S) -> S)

  ghost predicate Undone<S(!new)>(o: Ops<S>) {
    && (forall a :: o.invSub(o.sub(a)) == a)
    && (forall a :: o.invShift(o.shift(a)) == a)
    && (forall a :: o.invMix(o.mix(a)) == a)
    && (forall a, k :: o.add(o.add(a, k), k) == a)
  }

  /** What the equivalent inverse cipher relies on. */
  ghost predicate Exchanged<S(!new)>(o: Ops<S>) {
    && (forall a :: o.invShift(o.invSub(a)) == o.invSub(o.invShift(a)))
    && (forall a, k :: o.invMix(o.add(a, k)) == o.add(o.invMix(a), o.invMix(k)))
  }

  // ---------------------------------------------------------------------------
  // The cipher and its inverses; `w` holds the round keys
  // ---------------------------------------------------------------------------

  /** The state after the first key and r full rounds. */
  function Forward<S(!new)>(o: Ops<S>, w: seq<S>, x: S, r: nat): S
    requires r < |w|
  {
    if r == 0 then o.add(x, w[0]) else o.add(o.mix(o.shift(o.sub(Forward(o, w, x, r - 1)))), w[r])
  }

  function Cipher<S(!new)>(o: Ops<S>, w: seq<S>, x: S): S
    requires |w| >= 2
  {
    o.add(o.shift(o.sub(Forward(o, w, x, |w| - 2))), w[|w| - 1])
  }

  /** The inverse cipher after the first key and r full rounds. */
  function Backward<S(!new)>(o: Ops<S>, w: seq<S>, y: S, r: nat): S
    requires r < |w|
  {
    if r == 0 then o.add(y, w[|w| - 1])
    else o.invMix(o.add(o.invSub(o.invShift(Backward(o, w, y, r - 1))), w[|w| - 1 - r]))
  }

  function InvCipher<S(!new)>(o: Ops<S>, w: seq<S>, y: S): S
    requires |w| >= 2
  {
    o.add(o.invSub(o.invShift(Backward(o, w, y, |w| - 2))), w[0])
  }

  /** The equivalent inverse cipher; `d` holds its keys in the order they are used. */
  function EqBackward<S(!new)>(o: Ops<S>, d: seq<S>, y: S, r: nat): S
    requires r < |d|
  {
    if r == 0 then o.add(y, d[0])
    else o.add(o.invMix(o.invShift(o.invSub(EqBackward(o, d, y, r - 1)))), d[r])
  }

  function EqInvCipher<S(!new)>(o: Ops<S>, d: seq<S>, y: S): S
    requires |d| >= 2
  {
    o.add(o.invShift(o.invSub(EqBackward(o, d, y, |d| - 2))), d[|d| - 1])
  }

  /** The keys of the equivalent inverse cipher: reversed, and mixed but for the first and the last. */
  ghost predicate DecryptionKeys<S(!new)>(o: Ops<S>, w: seq<S>, d: seq<S>) {
    && |d| == |w| >= 2
    && d[0] == w[|w| - 1] && d[|w| - 1] == w[0]
    && forall r :: 0 < r < |w| - 1 ==> d[r] == o.invMix(w[|w| - 1 - r])
  }

  // ---------------------------------------------------------------------------
  // They undo the cipher
  // ---------------------------------------------------------------------------

  /** Each round of the inverse cipher takes back one round of the cipher. */
  lemma {:induction false} BackwardMeets<S(!new)>(o: Ops<S>, w: seq<S>, x: S, r: nat)
    requires Undone(o) && |w| >= 2 && r <= |w| - 2
    ensures Backward(o, w, Cipher(o, w, x), r) == o.shift(o.sub(Forward(o, w, x, |w| - 2 - r)))
  {
    if r > 0 {
      BackwardMeets(o, w, x, r - 1);
      var f := Forward(o, w, x, |w| - 1 - r);
      assert o.invSub(o.invShift(Backward(o, w, Cipher(o, w, x), r - 1))) == f;
      assert f == o.add(o.mix(o.shift(o.sub(Forward(o, w, x, |w| - 2 - r)))), w[|w| - 1 - r]);
    }
  }

  /** The inverse cipher inverts the cipher, for all keys. */
  lemma InvCipherInverts<S(!new)>(o: Ops<S>, w: seq<S>, x: S)
    requires Undone(o) && |w| >= 2
    ensures InvCipher(o, w, Cipher(o, w, x)) == x
  {
    BackwardMeets(o, w, x, |w| - 2);
    assert o.invSub(o.invShift(o.shift(o.sub(Forward(o, w, x, 0))))) == Forward(o, w, x, 0);
  }

  lemma {:induction false} EqBackwardSame<S(!new)>(o: Ops<S>, w: seq<S>, d: seq<S>, y: S, r: nat)
    requires Exchanged(o) && DecryptionKeys(o, w, d) && r <= |w| - 2
    ensures EqBackward(o, d, y, r) == Backward(o, w, y, r)
  {
    if r > 0 {
      EqBackwardSame(o, w, d, y, r - 1);
      var b := Backward(o, w, y, r - 1);
      assert o.invMix(o.add(o.invSub(o.invShift(b)), w[|w| - 1 - r]))
          == o.add(o.invMix(o.invSub(o.invShift(b))), o.invMix(w[|w| - 1 - r]));
    }
  }

  /** The equivalent inverse cipher is the inverse cipher. */
  lemma EqInvCipherSame<S(!new)>(o: Ops<S>, w: seq<S>, d: seq<S>, y: S)
    requires Exchanged(o) && DecryptionKeys(o, w, d)
    ensures EqInvCipher(o, d, y) == InvCipher(o, w, y)
  {
    EqBackwardSame(o, w, d, y, |w| - 2);
  }
}
