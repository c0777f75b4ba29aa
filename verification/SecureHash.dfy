/** The Secure Hash Standard, as far as SHA-256 goes. */
module SecureHash {
  // FIPS 180-4: padding, schedule, rounds, and what its constants are.

  newtype Byte = x: int | 0 <= x < 0x100

  newtype Word = x: int | 0 <= x < 0x1_0000_0000

  // ---------- Functions and constants: sections 3.2, 4.1.2, 4.2.2, 5.3.3 ----------

  /** Addition of words is modulo 2^32. */
  function Add(x: Word, y: Word): Word { ((x as int + y as int) % 0x1_0000_0000) as Word }

  lemma AddCommutes(x: Word, y: Word)
    ensures Add(x, y) == Add(y, x)
  {
  }

  lemma AddAssociates(x: Word, y: Word, z: Word)
    ensures Add(Add(x, y), z) == Add(x, Add(y, z))
  {
    hide Add;
    AddIsSum(x, y);
    AddIsSum(y, z);
    AddIsSum(Add(x, y), z);
    AddIsSum(x, Add(y, z));
  }

  /** The sum, less 2^32 where it does not fit. */
  lemma AddIsSum(x: Word, y: Word)
    ensures Add(x, y) as int == x as int + y as int - if x as int + y as int < 0x1_0000_0000 then 0 else 0x1_0000_0000
  {
  }

  lemma AddReorders(p: Word, q: Word, r: Word, s: Word)
    ensures Add(Add(Add(p, q), r), s) == Add(Add(Add(s, r), q), p)
  {
    AddCommutes(p, q);
    AddCommutes(Add(p, q), r);
    AddCommutes(Add(Add(p, q), r), s);
    AddAssociates(r, q, p);
    AddAssociates(s, Add(r, q), p);
    AddAssociates(s, r, q);
  }

  function Rotr(x: bv32, n: nat): bv32
    requires 0 < n < 32
  {
    (x >> n) | (x << (32 - n))
  }

  // On bits.

  function And(x: bv32, y: bv32): bv32 { x & y }

  function Not(x: bv32): bv32 { !x }

  function Xor(x: bv32, y: bv32): bv32 { x ^ y }

  function Choice(x: bv32, y: bv32, z: bv32): bv32 { Xor(And(x, y), And(Not(x), z)) }

  function Majority(x: bv32, y: bv32, z: bv32): bv32 { Xor(Xor(And(x, y), And(x, z)), And(y, z)) }

  function UpperSigma0(x: bv32): bv32 { Rotr(x, 2) ^ Rotr(x, 13) ^ Rotr(x, 22) }

  function UpperSigma1(x: bv32): bv32 { Rotr(x, 6) ^ Rotr(x, 11) ^ Rotr(x, 25) }

  function LowerSigma0(x: bv32): bv32 { Rotr(x, 7) ^ Rotr(x, 18) ^ (x >> 3) }

  function LowerSigma1(x: bv32): bv32 { Rotr(x, 17) ^ Rotr(x, 19) ^ (x >> 10) }

  // On words.

  function Ch(x: Word, y: Word, z: Word): Word { Choice(x as bv32, y as bv32, z as bv32) as Word }

  function Maj(x: Word, y: Word, z: Word): Word { Majority(x as bv32, y as bv32, z as bv32) as Word }

  function BigSigma0(x: Word): Word { UpperSigma0(x as bv32) as Word }

  function BigSigma1(x: Word): Word { UpperSigma1(x as bv32) as Word }

  function SmallSigma0(x: Word): Word { LowerSigma0(x as bv32) as Word }

  function SmallSigma1(x: Word): Word { LowerSigma1(x as bv32) as Word }

  /** The round constants. */
  function K(t: nat): Word
    requires t < 64
  {
    if t < 8 then K0(t) else
    if t < 16 then K1(t) else
    if t < 24 then K2(t) else
    if t < 32 then K3(t) else
    if t < 40 then K4(t) else
    if t < 48 then K5(t) else
    if t < 56 then K6(t) else
    K7(t)
  }

  function K0(t: nat): Word {
    if t == 0 then 0x428a2f98 else if t == 1 then 0x71374491 else if t == 2 then 0xb5c0fbcf else if t == 3 then 0xe9b5dba5 else
    if t == 4 then 0x3956c25b else if t == 5 then 0x59f111f1 else if t == 6 then 0x923f82a4 else 0xab1c5ed5
  }

  function K1(t: nat): Word {
    if t == 8 then 0xd807aa98 else if t == 9 then 0x12835b01 else if t == 10 then 0x243185be else if t == 11 then 0x550c7dc3 else
    if t == 12 then 0x72be5d74 else if t == 13 then 0x80deb1fe else if t == 14 then 0x9bdc06a7 else 0xc19bf174
  }

  function K2(t: nat): Word {
    if t == 16 then 0xe49b69c1 else if t == 17 then 0xefbe4786 else if t == 18 then 0x0fc19dc6 else if t == 19 then 0x240ca1cc else
    if t == 20 then 0x2de92c6f else if t == 21 then 0x4a7484aa else if t == 22 then 0x5cb0a9dc else 0x76f988da
  }

  function K3(t: nat): Word {
    if t == 24 then 0x983e5152 else if t == 25 then 0xa831c66d else if t == 26 then 0xb00327c8 else if t == 27 then 0xbf597fc7 else
    if t == 28 then 0xc6e00bf3 else if t == 29 then 0xd5a79147 else if t == 30 then 0x06ca6351 else 0x14292967
  }

  function K4(t: nat): Word {
    if t == 32 then 0x27b70a85 else if t == 33 then 0x2e1b2138 else if t == 34 then 0x4d2c6dfc else if t == 35 then 0x53380d13 else
    if t == 36 then 0x650a7354 else if t == 37 then 0x766a0abb else if t == 38 then 0x81c2c92e else 0x92722c85
  }

  function K5(t: nat): Word {
    if t == 40 then 0xa2bfe8a1 else if t == 41 then 0xa81a664b else if t == 42 then 0xc24b8b70 else if t == 43 then 0xc76c51a3 else
    if t == 44 then 0xd192e819 else if t == 45 then 0xd6990624 else if t == 46 then 0xf40e3585 else 0x106aa070
  }

  function K6(t: nat): Word {
    if t == 48 then 0x19a4c116 else if t == 49 then 0x1e376c08 else if t == 50 then 0x2748774c else if t == 51 then 0x34b0bcb5 else
    if t == 52 then 0x391c0cb3 else if t == 53 then 0x4ed8aa4a else if t == 54 then 0x5b9cca4f else 0x682e6ff3
  }

  function K7(t: nat): Word {
    if t == 56 then 0x748f82ee else if t == 57 then 0x78a5636f else if t == 58 then 0x84c87814 else if t == 59 then 0x8cc70208 else
    if t == 60 then 0x90befffa else if t == 61 then 0xa4506ceb else if t == 62 then 0xbef9a3f7 else 0xc67178f2
  }

  /** The initial hash value. */
  function H0(t: nat): Word
    requires t < 8
  {
    if t == 0 then 0x6a09e667 else if t == 1 then 0xbb67ae85 else if t == 2 then 0x3c6ef372 else if t == 3 then 0xa54ff53a else
    if t == 4 then 0x510e527f else if t == 5 then 0x9b05688c else if t == 6 then 0x1f83d9ab else 0x5be0cd19
  }

  /** The first sixty-four primes. */
  function Prime(t: nat): nat
    requires t < 64
  {
    if t < 8 then Prime0(t) else
    if t < 16 then Prime1(t) else
    if t < 24 then Prime2(t) else
    if t < 32 then Prime3(t) else
    if t < 40 then Prime4(t) else
    if t < 48 then Prime5(t) else
    if t < 56 then Prime6(t) else
    Prime7(t)
  }

  function Prime0(t: nat): nat {
    if t == 0 then 2 else if t == 1 then 3 else if t == 2 then 5 else if t == 3 then 7 else
    if t == 4 then 11 else if t == 5 then 13 else if t == 6 then 17 else 19
  }

  function Prime1(t: nat): nat {
    if t == 8 then 23 else if t == 9 then 29 else if t == 10 then 31 else if t == 11 then 37 else
    if t == 12 then 41 else if t == 13 then 43 else if t == 14 then 47 else 53
  }

  function Prime2(t: nat): nat {
    if t == 16 then 59 else if t == 17 then 61 else if t == 18 then 67 else if t == 19 then 71 else
    if t == 20 then 73 else if t == 21 then 79 else if t == 22 then 83 else 89
  }

  function Prime3(t: nat): nat {
    if t == 24 then 97 else if t == 25 then 101 else if t == 26 then 103 else if t == 27 then 107 else
    if t == 28 then 109 else if t == 29 then 113 else if t == 30 then 127 else 131
  }

  function Prime4(t: nat): nat {
    if t == 32 then 137 else if t == 33 then 139 else if t == 34 then 149 else if t == 35 then 151 else
    if t == 36 then 157 else if t == 37 then 163 else if t == 38 then 167 else 173
  }

  function Prime5(t: nat): nat {
    if t == 40 then 179 else if t == 41 then 181 else if t == 42 then 191 else if t == 43 then 193 else
    if t == 44 then 197 else if t == 45 then 199 else if t == 46 then 211 else 223
  }

  function Prime6(t: nat): nat {
    if t == 48 then 227 else if t == 49 then 229 else if t == 50 then 233 else if t == 51 then 239 else
    if t == 52 then 241 else if t == 53 then 251 else if t == 54 then 257 else 263
  }

  function Prime7(t: nat): nat {
    if t == 56 then 269 else if t == 57 then 271 else if t == 58 then 277 else if t == 59 then 281 else
    if t == 60 then 283 else if t == 61 then 293 else if t == 62 then 307 else 311
  }

  // ---------- Preprocessing: sections 5.1.1 and 5.2.1 ----------

  const TWO64 := 0x1_0000_0000_0000_0000

  /** `n` in `width` bytes, most significant first. */
  function BigEndian(n: nat, width: nat): (s: seq<Byte>)
    ensures |s| == width
  {
    if width == 0 then [] else BigEndian(n / 256, width - 1) + [(n % 256) as Byte]
  }

  function Pow256(n: nat): (p: nat)
    ensures p > 0
  {
    if n == 0 then 1 else 256 * Pow256(n - 1)
  }

  /** The bytes of a number, by shifting. */
  lemma {:induction false} BigEndianAt(n: nat, width: nat, i: nat)
    requires i < width
    ensures BigEndian(n, width)[i] as int == n / Pow256(width - 1 - i) % 256
  {
    if i == width - 1 {
      assert n / Pow256(0) == n;
    } else {
      BigEndianAt(n / 256, width - 1, i);
      DivDiv(n, Pow256(width - 2 - i));
    }
  }

  lemma DivDiv(n: nat, p: nat)
    requires p > 0
    ensures n / 256 / p == n / (256 * p)
  {
    var q := n / 256 / p;
    var r, s := n % 256, n / 256 % p;
    assert n == 256 * (p * q + s) + r;
    assert 256 * (p * q + s) + r == (256 * p) * q + (256 * s + r);
    assert 256 * s + r < 256 * p;
    QuotientUnique(n, 256 * p, q, 256 * s + r);
  }

  lemma QuotientUnique(n: nat, d: nat, q: nat, r: nat)
    requires n == d * q + r && r < d
    ensures n / d == q
  {
    var k := n / d;
    assert n == d * k + n % d;
    if k < q {
      Multiples(d, k, q - k - 1);
    } else if q < k {
      Multiples(d, q, k - q - 1);
    }
  }

  lemma Multiples(d: nat, a: nat, c: nat)
    ensures d * (a + 1 + c) == d * a + d + d * c
  {
  }

  function Zeros(n: nat): seq<Byte> { seq(n, i => 0) }

  /** The least number of zero bytes that leaves room for the length in the last block. */
  function ZeroCount(length: nat): nat { (119 - length % 64) % 64 }

  /** The message with its end mark, zeros, and its length in bits, a whole number of blocks. */
  function Padded(message: seq<Byte>, bits: nat): seq<Byte> {
    message + [0x80] + Zeros(ZeroCount(|message|)) + BigEndian(bits, 8)
  }

  lemma PaddedFills(message: seq<Byte>, bits: nat)
    ensures |Padded(message, bits)| % 64 == 0
  {
    LeastZeros(|message|, 0);
  }

  lemma LeastZeros(length: nat, n: nat)
    ensures (length + 1 + ZeroCount(length)) % 64 == 56
    ensures (length + 1 + n) % 64 == 56 ==> n >= ZeroCount(length)
  {
    var q, r := length / 64, length % 64;
    assert length == 64 * q + r;
    if n < 64 {
      assert (length + 1 + n) % 64 == (r + 1 + n) % 64;
    }
  }

  // ---------- The computation: section 6.2.2 ----------

  function WordAt(block: seq<Byte>, i: nat): Word
    requires |block| == 64 && i < 16
  {
    ((block[4 * i] as bv32 << 24) | (block[4 * i + 1] as bv32 << 16) | (block[4 * i + 2] as bv32 << 8) | block[4 * i + 3] as bv32) as Word
  }

  function Schedule(block: seq<Byte>, t: nat): Word
    requires |block| == 64
  {
    if t < 16 then WordAt(block, t)
    else Add(Add(Add(SmallSigma1(Schedule(block, t - 2)), Schedule(block, t - 7)), SmallSigma0(Schedule(block, t - 15))),
             Schedule(block, t - 16))
  }

  datatype Vars = Vars(a: Word, b: Word, c: Word, d: Word, e: Word, f: Word, g: Word, h: Word)

  function Round(v: Vars, k: Word, w: Word): Vars {
    var t1 := Add(Add(Add(Add(v.h, BigSigma1(v.e)), Ch(v.e, v.f, v.g)), k), w);
    var t2 := Add(BigSigma0(v.a), Maj(v.a, v.b, v.c));
    Vars(Add(t1, t2), v.a, v.b, v.c, Add(v.d, t1), v.e, v.f, v.g)
  }

  function Rounds(v: Vars, block: seq<Byte>, t: nat): Vars
    requires |block| == 64 && t <= 64
  {
    if t == 0 then v else Round(Rounds(v, block, t - 1), K(t - 1), Schedule(block, t - 1))
  }

  function Compress(h: Vars, block: seq<Byte>): Vars
    requires |block| == 64
  {
    var v := Rounds(h, block, 64);
    Vars(Add(v.a, h.a), Add(v.b, h.b), Add(v.c, h.c), Add(v.d, h.d), Add(v.e, h.e), Add(v.f, h.f), Add(v.g, h.g), Add(v.h, h.h))
  }

  function Initial(): Vars {
    Vars(H0(0), H0(1), H0(2), H0(3), H0(4), H0(5), H0(6), H0(7))
  }

  /** The hash value after all blocks of `text`. */
  function Absorb(text: seq<Byte>): Vars
    requires |text| % 64 == 0
  {
    if text == [] then Initial() else Compress(Absorb(text[..|text| - 64]), text[|text| - 64..])
  }

  /** The hash of a message whose length field says `bits`; the standard's when that is its length. */
  function HashWith(message: seq<Byte>, bits: nat): Vars {
    PaddedFills(message, bits);
    Absorb(Padded(message, bits))
  }

  /** Defined by the standard for messages shorter than 2^64 bits. */
  function Hash(message: seq<Byte>): Vars
    requires 8 * |message| < TWO64
  {
    HashWith(message, 8 * |message|)
  }

  // ---------- The constants are what the standard says they are ----------

  /** `k` is the first thirty-two bits behind the point of the cube root of `p`. */
  predicate CubeRootBits(p: nat, k: Word) {
    var x := CubeRootFloor(p) * 0x1_0000_0000 + k as nat;
    x * x * x <= p * 0x1_0000_0000_0000_0000_0000_0000 < (x + 1) * (x + 1) * (x + 1)
  }

  /** For primes up to 311. */
  function CubeRootFloor(p: nat): nat {
    if p < 8 then 1 else if p < 27 then 2 else if p < 64 then 3 else if p < 125 then 4 else if p < 216 then 5 else 6
  }

  /** `h` is the first thirty-two bits behind the point of the square root of `p`. */
  predicate SquareRootBits(p: nat, h: Word) {
    var x := SquareRootFloor(p) * 0x1_0000_0000 + h as nat;
    x * x <= p * 0x1_0000_0000_0000_0000 < (x + 1) * (x + 1)
  }

  /** For primes up to 19. */
  function SquareRootFloor(p: nat): nat {
    if p < 4 then 1 else if p < 9 then 2 else if p < 16 then 3 else 4
  }

  lemma RoundConstants(t: nat)
    requires t < 64
    ensures CubeRootBits(Prime(t), K(t))
  {
    hide RootsIn, CubeRootBits, K, Prime;
    Roots0();
    Roots1();
    Roots2();
    Roots3();
    Roots4();
    Roots5();
    Roots6();
    Roots7();
    RootInTable(t / 8 * 8, t / 8 * 8 + 8, t);
  }

  /** A part of the table. */
  predicate RootsIn(from: nat, to: nat)
    requires to <= 64
    decreases if from < to then to - from else 0
  {
    from >= to || (CubeRootBits(Prime(from), K(from)) && RootsIn(from + 1, to))
  }

  lemma {:induction false} RootInTable(from: nat, to: nat, t: nat)
    requires from <= t < to <= 64 && RootsIn(from, to)
    ensures CubeRootBits(Prime(t), K(t))
    decreases t - from
  {
    hide CubeRootBits, K, Prime;
    if from < t { RootInTable(from + 1, to, t); }
  }

  lemma Roots0()
    ensures RootsIn(0, 8)
  {
  }

  lemma Roots1()
    ensures RootsIn(8, 16)
  {
  }

  lemma Roots2()
    ensures RootsIn(16, 24)
  {
  }

  lemma Roots3()
    ensures RootsIn(24, 32)
  {
  }

  lemma Roots4()
    ensures RootsIn(32, 40)
  {
  }

  lemma Roots5()
    ensures RootsIn(40, 48)
  {
  }

  lemma Roots6()
    ensures RootsIn(48, 56)
  {
  }

  lemma Roots7()
    ensures RootsIn(56, 64)
  {
  }

  lemma InitialHash(t: nat)
    requires t < 8
    ensures SquareRootBits(Prime(t), H0(t))
  {
    InitialHashes();
  }

  lemma InitialHashes()
    ensures SquareRootBits(Prime(0), H0(0)) && SquareRootBits(Prime(1), H0(1))
    ensures SquareRootBits(Prime(2), H0(2)) && SquareRootBits(Prime(3), H0(3))
    ensures SquareRootBits(Prime(4), H0(4)) && SquareRootBits(Prime(5), H0(5))
    ensures SquareRootBits(Prime(6), H0(6)) && SquareRootBits(Prime(7), H0(7))
  {
  }

  // ---------- The primes ----------

  predicate IsPrime(n: nat) {
    n > 1 && forall d :: 2 <= d < n ==> n % d != 0
  }

  predicate HasSmallFactor(n: nat) {
    (n > 2 && n % 2 == 0) || (n > 3 && n % 3 == 0) || (n > 5 && n % 5 == 0) || (n > 7 && n % 7 == 0)
    || (n > 11 && n % 11 == 0) || (n > 13 && n % 13 == 0) || (n > 17 && n % 17 == 0)
  }

  lemma FactorDivides(n: nat, m: nat, k: nat, p: nat, j: nat)
    requires n == m * k && m == p * j && p > 0
    ensures n % p == 0
  {
    assert n == p * (j * k) by { Regroup3(p, j, k); }
    MultipleHasNoRest(p, j * k);
  }

  lemma Regroup3(p: nat, j: nat, k: nat)
    ensures (p * j) * k == p * (j * k)
  {
  }

  lemma MultipleHasNoRest(p: nat, q: nat)
    requires p > 0
    ensures (p * q) % p == 0
  {
    QuotientUnique(p * q, p, q, 0);
    assert p * q == p * ((p * q) / p) + (p * q) % p;
  }

  /** A small factor of a number below 19 squared, from any factor not above its square root. */
  lemma SmallFactorFrom(n: nat, m: nat, k: nat)
    requires n == m * k && 2 <= m <= 18 && m <= k
    ensures HasSmallFactor(n)
  {
    var p := if m % 2 == 0 then 2 else if m % 3 == 0 then 3 else if m % 5 == 0 then 5 else if m % 7 == 0 then 7 else m;
    assert p == 2 || p == 3 || p == 5 || p == 7 || p == 11 || p == 13 || p == 17;
    FactorDivides(n, m, k, p, m / p);
    TwiceAtLeast(m, k);
    assert p <= m < n;
  }

  lemma TwiceAtLeast(m: nat, k: nat)
    requires m >= 2 && k >= 2
    ensures m * k > m
  {
  }

  lemma RootBound(m: nat, k: nat)
    requires 2 <= m <= k && m * k < 361
    ensures m <= 18
  {
    if m >= 19 { ProductAtLeast(m, k); }
  }

  lemma ProductAtLeast(m: nat, k: nat)
    requires m >= 19 && k >= 19
    ensures m * k >= 361
  {
  }

  /** Trial division by the primes up to 17 decides primality below 361. */
  lemma SmallFactorsDecide(n: nat)
    requires 2 <= n < 361
    ensures IsPrime(n) <==> !HasSmallFactor(n)
  {
    if !HasSmallFactor(n) {
      forall d | 2 <= d < n
        ensures n % d != 0
      {
        if n % d == 0 {
          var e := n / d;
          assert n == d * e;
          Cofactor(n, d, e);
          if d <= e {
            RootBound(d, e);
            SmallFactorFrom(n, d, e);
          } else {
            assert n == e * d;
            RootBound(e, d);
            SmallFactorFrom(n, e, d);
          }
        }
      }
    }
  }

  lemma Cofactor(n: nat, d: nat, e: nat)
    requires n == d * e && 2 <= d < n
    ensures e >= 2
  {
  }

  /** The table lists exactly the primes up to 311, in order. */
  lemma PrimesInOrder(t: nat, n: nat)
    requires t < 64
    ensures IsPrime(Prime(t)) && Prime(0) == 2 && Prime(63) == 311
    ensures t < 63 && Prime(t) < n < Prime(t + 1) ==> !IsPrime(n)
  {
    hide IsPrime, HasSmallFactor;
    GapAt(t, n);
    PrimeBound(t);
    SmallFactorsDecide(Prime(t));
    if t < 63 && Prime(t) < n < Prime(t + 1) {
      PrimeBound(t + 1);
      SmallFactorsDecide(n);
    }
  }

  lemma PrimeBound(t: nat)
    requires t < 64
    ensures 2 <= Prime(t) <= 311
  {
  }

  lemma GapAt(t: nat, n: nat)
    requires t < 64
    ensures !HasSmallFactor(Prime(t)) && (t < 63 && Prime(t) < n < Prime(t + 1) ==> HasSmallFactor(n))
  {
    hide GapsIn, AllComposite, HasSmallFactor, Prime;
    Gaps0();
    Gaps1();
    Gaps2();
    Gaps3();
    Gaps4();
    Gaps5();
    Gaps6();
    Gaps7();
    GapInTable(t / 8 * 8, t / 8 * 8 + 8, t, n);
  }

  /** The numbers from `a` up to `b` have small factors. */
  predicate AllComposite(a: nat, b: nat)
    decreases if a < b then b - a else 0
  {
    a >= b || (HasSmallFactor(a) && AllComposite(a + 1, b))
  }

  /** A part of the table holds primes, and leaves out none behind them. */
  predicate GapsIn(from: nat, to: nat)
    requires to <= 64
    decreases if from < to then to - from else 0
  {
    from >= to ||
    (!HasSmallFactor(Prime(from)) && (from < 63 ==> AllComposite(Prime(from) + 1, Prime(from + 1))) && GapsIn(from + 1, to))
  }

  lemma Gaps0()
    ensures GapsIn(0, 8)
  {
    assert !HasSmallFactor(2) && !HasSmallFactor(3) && !HasSmallFactor(5) && !HasSmallFactor(7);
    assert !HasSmallFactor(11) && !HasSmallFactor(13) && !HasSmallFactor(17) && !HasSmallFactor(19);
    assert AllComposite(4, 5) && AllComposite(6, 7) && AllComposite(8, 11) && AllComposite(12, 13);
    assert AllComposite(14, 17) && AllComposite(18, 19) && AllComposite(20, 23);
  }

  lemma Gaps1()
    ensures GapsIn(8, 16)
  {
    assert !HasSmallFactor(23) && !HasSmallFactor(29) && !HasSmallFactor(31) && !HasSmallFactor(37);
    assert !HasSmallFactor(41) && !HasSmallFactor(43) && !HasSmallFactor(47) && !HasSmallFactor(53);
    assert AllComposite(24, 29) && AllComposite(30, 31) && AllComposite(32, 37) && AllComposite(38, 41);
    assert AllComposite(42, 43) && AllComposite(44, 47) && AllComposite(48, 53) && AllComposite(54, 59);
  }

  lemma Gaps2()
    ensures GapsIn(16, 24)
  {
    assert !HasSmallFactor(59) && !HasSmallFactor(61) && !HasSmallFactor(67) && !HasSmallFactor(71);
    assert !HasSmallFactor(73) && !HasSmallFactor(79) && !HasSmallFactor(83) && !HasSmallFactor(89);
    assert AllComposite(60, 61) && AllComposite(62, 67) && AllComposite(68, 71) && AllComposite(72, 73);
    assert AllComposite(74, 79) && AllComposite(80, 83) && AllComposite(84, 89) && AllComposite(90, 97);
  }

  lemma Gaps3()
    ensures GapsIn(24, 32)
  {
    assert !HasSmallFactor(97) && !HasSmallFactor(101) && !HasSmallFactor(103) && !HasSmallFactor(107);
    assert !HasSmallFactor(109) && !HasSmallFactor(113) && !HasSmallFactor(127) && !HasSmallFactor(131);
    assert AllComposite(98, 101) && AllComposite(102, 103) && AllComposite(104, 107) && AllComposite(108, 109);
    assert AllComposite(110, 113) && AllComposite(114, 127) && AllComposite(128, 131) && AllComposite(132, 137);
  }

  lemma Gaps4()
    ensures GapsIn(32, 40)
  {
    assert !HasSmallFactor(137) && !HasSmallFactor(139) && !HasSmallFactor(149) && !HasSmallFactor(151);
    assert !HasSmallFactor(157) && !HasSmallFactor(163) && !HasSmallFactor(167) && !HasSmallFactor(173);
    assert AllComposite(138, 139) && AllComposite(140, 149) && AllComposite(150, 151) && AllComposite(152, 157);
    assert AllComposite(158, 163) && AllComposite(164, 167) && AllComposite(168, 173) && AllComposite(174, 179);
  }

  lemma Gaps5()
    ensures GapsIn(40, 48)
  {
    assert !HasSmallFactor(179) && !HasSmallFactor(181) && !HasSmallFactor(191) && !HasSmallFactor(193);
    assert !HasSmallFactor(197) && !HasSmallFactor(199) && !HasSmallFactor(211) && !HasSmallFactor(223);
    assert AllComposite(180, 181) && AllComposite(182, 191) && AllComposite(192, 193) && AllComposite(194, 197);
    assert AllComposite(198, 199) && AllComposite(200, 211) && AllComposite(212, 223) && AllComposite(224, 227);
  }

  lemma Gaps6()
    ensures GapsIn(48, 56)
  {
    assert !HasSmallFactor(227) && !HasSmallFactor(229) && !HasSmallFactor(233) && !HasSmallFactor(239);
    assert !HasSmallFactor(241) && !HasSmallFactor(251) && !HasSmallFactor(257) && !HasSmallFactor(263);
    assert AllComposite(228, 229) && AllComposite(230, 233) && AllComposite(234, 239) && AllComposite(240, 241);
    assert AllComposite(242, 251) && AllComposite(252, 257) && AllComposite(258, 263) && AllComposite(264, 269);
  }

  lemma Gaps7()
    ensures GapsIn(56, 64)
  {
    assert !HasSmallFactor(269) && !HasSmallFactor(271) && !HasSmallFactor(277) && !HasSmallFactor(281);
    assert !HasSmallFactor(283) && !HasSmallFactor(293) && !HasSmallFactor(307) && !HasSmallFactor(311);
    assert AllComposite(270, 271) && AllComposite(272, 277) && AllComposite(278, 281) && AllComposite(282, 283);
    assert AllComposite(284, 293) && AllComposite(294, 307) && AllComposite(308, 311);
  }

  lemma {:induction false} GapInTable(from: nat, to: nat, t: nat, n: nat)
    requires from <= t < to <= 64 && GapsIn(from, to)
    ensures !HasSmallFactor(Prime(t)) && (t < 63 && Prime(t) < n < Prime(t + 1) ==> HasSmallFactor(n))
    decreases t - from
  {
    hide HasSmallFactor, Prime, AllComposite;
    if from < t {
      GapInTable(from + 1, to, t, n);
    } else if t < 63 && Prime(t) < n < Prime(t + 1) {
      CompositeBetween(Prime(t) + 1, Prime(t + 1), n);
    }
  }

  lemma {:induction false} CompositeBetween(a: nat, b: nat, n: nat)
    requires AllComposite(a, b) && a <= n < b
    ensures HasSmallFactor(n)
    decreases b - a
  {
    hide HasSmallFactor;
    if a < n { CompositeBetween(a + 1, b, n); }
  }
}
