/** Exclusive or of 16-bit registers, kept behind a name so that proofs can treat it as a group. */
module Words {

  function Xor(a: bv16, b: bv16): bv16 { a ^ b }

  function Wide(b: bv8): bv16 { b as bv16 }

  function HighByte(c: bv16): bv8 { (c >> 8) as bv8 }

  function LowByte(c: bv16): bv8 { (c & 0xFF) as bv8 }

  lemma XorAssociates(a: bv16, b: bv16, c: bv16)
    ensures Xor(Xor(a, b), c) == Xor(a, Xor(b, c))
  {
  }

  lemma XorSwaps(a: bv16, b: bv16)
    ensures Xor(a, b) == Xor(b, a)
  {
  }

  lemma XorZero(a: bv16)
    ensures Xor(a, 0) == a && Xor(0, a) == a
  {
  }

  lemma XorSelf(a: bv16)
    ensures Xor(a, a) == 0
  {
  }

  lemma XorExchange(a: bv16, b: bv16, c: bv16, d: bv16)
    ensures Xor(Xor(a, b), Xor(c, d)) == Xor(Xor(a, c), Xor(b, d))
  {
    hide Xor;
    XorAssociates(a, b, Xor(c, d));
    XorAssociates(b, c, d);
    XorSwaps(b, c);
    XorAssociates(c, b, d);
    XorAssociates(a, c, Xor(b, d));
  }

  lemma XorMiddle(a: bv16, b: bv16, p: bv16)
    ensures Xor(Xor(a, p), b) == Xor(Xor(a, b), p)
  {
    hide Xor;
    XorAssociates(a, p, b);
    XorSwaps(p, b);
    XorAssociates(a, b, p);
  }

  /** The same word twice cancels. */
  lemma XorPairs(a: bv16, b: bv16, p: bv16)
    ensures Xor(Xor(a, p), Xor(b, p)) == Xor(a, b)
    ensures Xor(Xor(p, a), Xor(p, b)) == Xor(a, b)
  {
    hide Xor;
    XorExchange(a, p, b, p);
    XorExchange(p, a, p, b);
    XorSelf(p);
    XorZero(Xor(a, b));
  }

  lemma XorTwice(a: bv16, p: bv16)
    ensures Xor(Xor(a, p), p) == a
  {
    hide Xor;
    XorAssociates(a, p, p);
    XorSelf(p);
    XorZero(a);
  }

  lemma XorCancels(a: bv16, b: bv16, c: bv16)
    ensures Xor(a, c) == Xor(b, c) ==> a == b
    ensures Xor(c, a) == Xor(c, b) ==> a == b
  {
    hide Xor;
    XorTwice(a, c);
    XorTwice(b, c);
    XorSwaps(a, c);
    XorSwaps(b, c);
  }
}
