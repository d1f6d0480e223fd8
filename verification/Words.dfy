/** Exclusive or of 32-bit words, under a name of its own so that proofs see its laws only. */
module Words {
  function Xor(a: bv32, b: bv32): bv32 { a ^ b }

  lemma XorLaws(a: bv32, b: bv32)
    ensures Xor(Xor(a, b), b) == a
    ensures Xor(a, b) == Xor(b, a)
    ensures Xor(a, 0) == a
  {}
}
