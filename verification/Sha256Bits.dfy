/** The functions of the hash, bit by bit. */
module Sha256Bits {
  // Section 4.1.2 of FIPS 180-4 in terms of single bits, counted from the lowest.

  import opened SecureHash

  predicate Bit(x: bv32, i: bv6)
    requires i < 32
  {
    (x >> i) & 1 == 1
  }

  /** A sum of bits without carry. */
  predicate Odd(a: bool, b: bool, c: bool) { (a != b) != c }

  lemma XorBit(a: bv32, b: bv32, c: bv32, i: bv6)
    requires i < 32
    ensures Bit(a ^ b ^ c, i) == Odd(Bit(a, i), Bit(b, i), Bit(c, i))
  {
  }

  lemma Rotated2(x: bv32, i: bv6)
    requires i < 32
    ensures Bit(Rotr(x, 2), i) == Bit(x, (i + 2) & 31)
  {
  }

  lemma Rotated6(x: bv32, i: bv6)
    requires i < 32
    ensures Bit(Rotr(x, 6), i) == Bit(x, (i + 6) & 31)
  {
  }

  lemma Rotated7(x: bv32, i: bv6)
    requires i < 32
    ensures Bit(Rotr(x, 7), i) == Bit(x, (i + 7) & 31)
  {
  }

  lemma Rotated11(x: bv32, i: bv6)
    requires i < 32
    ensures Bit(Rotr(x, 11), i) == Bit(x, (i + 11) & 31)
  {
  }

  lemma Rotated13(x: bv32, i: bv6)
    requires i < 32
    ensures Bit(Rotr(x, 13), i) == Bit(x, (i + 13) & 31)
  {
  }

  lemma Rotated17(x: bv32, i: bv6)
    requires i < 32
    ensures Bit(Rotr(x, 17), i) == Bit(x, (i + 17) & 31)
  {
  }

  lemma Rotated18(x: bv32, i: bv6)
    requires i < 32
    ensures Bit(Rotr(x, 18), i) == Bit(x, (i + 18) & 31)
  {
  }

  lemma Rotated19(x: bv32, i: bv6)
    requires i < 32
    ensures Bit(Rotr(x, 19), i) == Bit(x, (i + 19) & 31)
  {
  }

  lemma Rotated22(x: bv32, i: bv6)
    requires i < 32
    ensures Bit(Rotr(x, 22), i) == Bit(x, (i + 22) & 31)
  {
  }

  lemma Rotated25(x: bv32, i: bv6)
    requires i < 32
    ensures Bit(Rotr(x, 25), i) == Bit(x, (i + 25) & 31)
  {
  }

  lemma Shifted3(x: bv32, i: bv6)
    requires i < 32
    ensures Bit(x >> 3, i) == (i + 3 < 32 && Bit(x, (i + 3) & 31))
  {
  }

  lemma Shifted10(x: bv32, i: bv6)
    requires i < 32
    ensures Bit(x >> 10, i) == (i + 10 < 32 && Bit(x, (i + 10) & 31))
  {
  }

  // ---------- The functions of the standard ----------

  lemma UpperSigma0Bits(x: bv32, i: bv6)
    requires i < 32
    ensures Bit(UpperSigma0(x), i) == Odd(Bit(x, (i + 2) & 31), Bit(x, (i + 13) & 31), Bit(x, (i + 22) & 31))
  {
    hide Bit, Rotr;
    XorBit(Rotr(x, 2), Rotr(x, 13), Rotr(x, 22), i);
    Rotated2(x, i);
    Rotated13(x, i);
    Rotated22(x, i);
  }

  lemma UpperSigma1Bits(x: bv32, i: bv6)
    requires i < 32
    ensures Bit(UpperSigma1(x), i) == Odd(Bit(x, (i + 6) & 31), Bit(x, (i + 11) & 31), Bit(x, (i + 25) & 31))
  {
    hide Bit, Rotr;
    XorBit(Rotr(x, 6), Rotr(x, 11), Rotr(x, 25), i);
    Rotated6(x, i);
    Rotated11(x, i);
    Rotated25(x, i);
  }

  lemma LowerSigma0Bits(x: bv32, i: bv6)
    requires i < 32
    ensures Bit(LowerSigma0(x), i) == Odd(Bit(x, (i + 7) & 31), Bit(x, (i + 18) & 31), i + 3 < 32 && Bit(x, (i + 3) & 31))
  {
    hide Bit, Rotr;
    XorBit(Rotr(x, 7), Rotr(x, 18), x >> 3, i);
    Rotated7(x, i);
    Rotated18(x, i);
    Shifted3(x, i);
  }

  lemma LowerSigma1Bits(x: bv32, i: bv6)
    requires i < 32
    ensures Bit(LowerSigma1(x), i) == Odd(Bit(x, (i + 17) & 31), Bit(x, (i + 19) & 31), i + 10 < 32 && Bit(x, (i + 10) & 31))
  {
    hide Bit, Rotr;
    XorBit(Rotr(x, 17), Rotr(x, 19), x >> 10, i);
    Rotated17(x, i);
    Rotated19(x, i);
    Shifted10(x, i);
  }

  lemma AndBit(a: bv32, b: bv32, i: bv6)
    requires i < 32
    ensures Bit(And(a, b), i) <==> Bit(a, i) && Bit(b, i)
  {
  }

  lemma NotBit(a: bv32, i: bv6)
    requires i < 32
    ensures Bit(Not(a), i) <==> !Bit(a, i)
  {
  }

  lemma NoBit(i: bv6)
    requires i < 32
    ensures !Bit(0, i)
  {
  }

  lemma XorNothing(a: bv32, b: bv32)
    ensures Xor(a, b) == a ^ b ^ 0
  {
  }

  lemma PlainXorBit(a: bv32, b: bv32, i: bv6)
    requires i < 32
    ensures Bit(Xor(a, b), i) == (Bit(a, i) != Bit(b, i))
  {
    hide Bit, Xor;
    XorNothing(a, b);
    XorBit(a, b, 0, i);
    NoBit(i);
  }

  /** The first word chooses between the bits of the other two. */
  lemma ChoiceBits(x: bv32, y: bv32, z: bv32, i: bv6)
    requires i < 32
    ensures Bit(Choice(x, y, z), i) == if Bit(x, i) then Bit(y, i) else Bit(z, i)
  {
    hide Bit, And, Not, Xor;
    PlainXorBit(And(x, y), And(Not(x), z), i);
    AndBit(x, y, i);
    AndBit(Not(x), z, i);
    NotBit(x, i);
  }

  /** What two of the three have. */
  lemma MajorityBits(x: bv32, y: bv32, z: bv32, i: bv6)
    requires i < 32
    ensures Bit(Majority(x, y, z), i) <==>
            (Bit(x, i) && Bit(y, i)) || (Bit(y, i) && Bit(z, i)) || (Bit(x, i) && Bit(z, i))
  {
    hide Bit, And, Xor;
    PlainXorBit(Xor(And(x, y), And(x, z)), And(y, z), i);
    PlainXorBit(And(x, y), And(x, z), i);
    AndBit(x, y, i);
    AndBit(x, z, i);
    AndBit(y, z, i);
  }
}
