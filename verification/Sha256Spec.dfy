/**
 * SHA-256 as FIPS 180-4 defines it: the constants, the functions, the message
 * schedule and the compression of a block.
 */
module Sha256Spec {
  import opened Basics

  type Word = bv32
  type Octet = bv8

  // ---- Constants (sections 4.2.2 and 5.3.3) ----

  const ROUND_CONSTANTS: seq<seq<nat>> := [
    [0x428a2f98, 0x71374491, 0xb5c0fbcf, 0xe9b5dba5, 0x3956c25b, 0x59f111f1, 0x923f82a4, 0xab1c5ed5],
    [0xd807aa98, 0x12835b01, 0x243185be, 0x550c7dc3, 0x72be5d74, 0x80deb1fe, 0x9bdc06a7, 0xc19bf174],
    [0xe49b69c1, 0xefbe4786, 0x0fc19dc6, 0x240ca1cc, 0x2de92c6f, 0x4a7484aa, 0x5cb0a9dc, 0x76f988da],
    [0x983e5152, 0xa831c66d, 0xb00327c8, 0xbf597fc7, 0xc6e00bf3, 0xd5a79147, 0x06ca6351, 0x14292967],
    [0x27b70a85, 0x2e1b2138, 0x4d2c6dfc, 0x53380d13, 0x650a7354, 0x766a0abb, 0x81c2c92e, 0x92722c85],
    [0xa2bfe8a1, 0xa81a664b, 0xc24b8b70, 0xc76c51a3, 0xd192e819, 0xd6990624, 0xf40e3585, 0x106aa070],
    [0x19a4c116, 0x1e376c08, 0x2748774c, 0x34b0bcb5, 0x391c0cb3, 0x4ed8aa4a, 0x5b9cca4f, 0x682e6ff3],
    [0x748f82ee, 0x78a5636f, 0x84c87814, 0x8cc70208, 0x90befffa, 0xa4506ceb, 0xbef9a3f7, 0xc67178f2]]

  const PRIMES: seq<seq<nat>> := [
    [2, 3, 5, 7, 11, 13, 17, 19],
    [23, 29, 31, 37, 41, 43, 47, 53],
    [59, 61, 67, 71, 73, 79, 83, 89],
    [97, 101, 103, 107, 109, 113, 127, 131],
    [137, 139, 149, 151, 157, 163, 167, 173],
    [179, 181, 191, 193, 197, 199, 211, 223],
    [227, 229, 233, 239, 241, 251, 257, 263],
    [269, 271, 277, 281, 283, 293, 307, 311]]

  const INITIAL: seq<nat> := [0x6a09e667, 0xbb67ae85, 0x3c6ef372, 0xa54ff53a, 0x510e527f, 0x9b05688c, 0x1f83d9ab,
      0x5be0cd19]

  function K(t: nat): nat
    requires t < 64
  {
    ROUND_CONSTANTS[t / 8][t % 8]
  }

  function Prime(t: nat): nat
    requires t < 64
  {
    PRIMES[t / 8][t % 8]
  }

  /** k is the first thirty-two bits of the fraction of the cube root of p, whose whole part is a. */
  predicate CubeRootBits(p: nat, a: nat, k: nat) {
    var v := a * 0x1_0000_0000 + k;
    k < 0x1_0000_0000 && v * v * v <= p * 0x1_0000_0000_0000_0000_0000_0000 < (v + 1) * (v + 1) * (v + 1)
  }

  /** The same of a square root. */
  predicate SquareRootBits(p: nat, a: nat, k: nat) {
    var v := a * 0x1_0000_0000 + k;
    k < 0x1_0000_0000 && v * v <= p * 0x1_0000_0000_0000_0000 < (v + 1) * (v + 1)
  }

  function WholeRoot(p: nat): nat {
    if p < 8 then 1 else if p < 27 then 2 else if p < 64 then 3 else if p < 125 then 4 else if p < 216 then 5 else 6
  }

  lemma RootsOfRow0()
    ensures forall c :: 0 <= c < 8 ==> CubeRootBits(PRIMES[0][c], WholeRoot(PRIMES[0][c]), ROUND_CONSTANTS[0][c])
  {
    assert CubeRootBits(2, 1, 0x428a2f98);
    assert CubeRootBits(3, 1, 0x71374491);
    assert CubeRootBits(5, 1, 0xb5c0fbcf);
    assert CubeRootBits(7, 1, 0xe9b5dba5);
    assert CubeRootBits(11, 2, 0x3956c25b);
    assert CubeRootBits(13, 2, 0x59f111f1);
    assert CubeRootBits(17, 2, 0x923f82a4);
    assert CubeRootBits(19, 2, 0xab1c5ed5);
  }

  lemma RootsOfRow1()
    ensures forall c :: 0 <= c < 8 ==> CubeRootBits(PRIMES[1][c], WholeRoot(PRIMES[1][c]), ROUND_CONSTANTS[1][c])
  {
    assert CubeRootBits(23, 2, 0xd807aa98);
    assert CubeRootBits(29, 3, 0x12835b01);
    assert CubeRootBits(31, 3, 0x243185be);
    assert CubeRootBits(37, 3, 0x550c7dc3);
    assert CubeRootBits(41, 3, 0x72be5d74);
    assert CubeRootBits(43, 3, 0x80deb1fe);
    assert CubeRootBits(47, 3, 0x9bdc06a7);
    assert CubeRootBits(53, 3, 0xc19bf174);
  }

  lemma RootsOfRow2()
    ensures forall c :: 0 <= c < 8 ==> CubeRootBits(PRIMES[2][c], WholeRoot(PRIMES[2][c]), ROUND_CONSTANTS[2][c])
  {
    assert CubeRootBits(59, 3, 0xe49b69c1);
    assert CubeRootBits(61, 3, 0xefbe4786);
    assert CubeRootBits(67, 4, 0x0fc19dc6);
    assert CubeRootBits(71, 4, 0x240ca1cc);
    assert CubeRootBits(73, 4, 0x2de92c6f);
    assert CubeRootBits(79, 4, 0x4a7484aa);
    assert CubeRootBits(83, 4, 0x5cb0a9dc);
    assert CubeRootBits(89, 4, 0x76f988da);
  }

  lemma RootsOfRow3()
    ensures forall c :: 0 <= c < 8 ==> CubeRootBits(PRIMES[3][c], WholeRoot(PRIMES[3][c]), ROUND_CONSTANTS[3][c])
  {
    assert CubeRootBits(97, 4, 0x983e5152);
    assert CubeRootBits(101, 4, 0xa831c66d);
    assert CubeRootBits(103, 4, 0xb00327c8);
    assert CubeRootBits(107, 4, 0xbf597fc7);
    assert CubeRootBits(109, 4, 0xc6e00bf3);
    assert CubeRootBits(113, 4, 0xd5a79147);
    assert CubeRootBits(127, 5, 0x06ca6351);
    assert CubeRootBits(131, 5, 0x14292967);
  }

  lemma RootsOfRow4()
    ensures forall c :: 0 <= c < 8 ==> CubeRootBits(PRIMES[4][c], WholeRoot(PRIMES[4][c]), ROUND_CONSTANTS[4][c])
  {
    assert CubeRootBits(137, 5, 0x27b70a85);
    assert CubeRootBits(139, 5, 0x2e1b2138);
    assert CubeRootBits(149, 5, 0x4d2c6dfc);
    assert CubeRootBits(151, 5, 0x53380d13);
    assert CubeRootBits(157, 5, 0x650a7354);
    assert CubeRootBits(163, 5, 0x766a0abb);
    assert CubeRootBits(167, 5, 0x81c2c92e);
    assert CubeRootBits(173, 5, 0x92722c85);
  }

  lemma RootsOfRow5()
    ensures forall c :: 0 <= c < 8 ==> CubeRootBits(PRIMES[5][c], WholeRoot(PRIMES[5][c]), ROUND_CONSTANTS[5][c])
  {
    assert CubeRootBits(179, 5, 0xa2bfe8a1);
    assert CubeRootBits(181, 5, 0xa81a664b);
    assert CubeRootBits(191, 5, 0xc24b8b70);
    assert CubeRootBits(193, 5, 0xc76c51a3);
    assert CubeRootBits(197, 5, 0xd192e819);
    assert CubeRootBits(199, 5, 0xd6990624);
    assert CubeRootBits(211, 5, 0xf40e3585);
    assert CubeRootBits(223, 6, 0x106aa070);
  }

  lemma RootsOfRow6()
    ensures forall c :: 0 <= c < 8 ==> CubeRootBits(PRIMES[6][c], WholeRoot(PRIMES[6][c]), ROUND_CONSTANTS[6][c])
  {
    assert CubeRootBits(227, 6, 0x19a4c116);
    assert CubeRootBits(229, 6, 0x1e376c08);
    assert CubeRootBits(233, 6, 0x2748774c);
    assert CubeRootBits(239, 6, 0x34b0bcb5);
    assert CubeRootBits(241, 6, 0x391c0cb3);
    assert CubeRootBits(251, 6, 0x4ed8aa4a);
    assert CubeRootBits(257, 6, 0x5b9cca4f);
    assert CubeRootBits(263, 6, 0x682e6ff3);
  }

  lemma RootsOfRow7()
    ensures forall c :: 0 <= c < 8 ==> CubeRootBits(PRIMES[7][c], WholeRoot(PRIMES[7][c]), ROUND_CONSTANTS[7][c])
  {
    assert CubeRootBits(269, 6, 0x748f82ee);
    assert CubeRootBits(271, 6, 0x78a5636f);
    assert CubeRootBits(277, 6, 0x84c87814);
    assert CubeRootBits(281, 6, 0x8cc70208);
    assert CubeRootBits(283, 6, 0x90befffa);
    assert CubeRootBits(293, 6, 0xa4506ceb);
    assert CubeRootBits(307, 6, 0xbef9a3f7);
    assert CubeRootBits(311, 6, 0xc67178f2);
  }

  /**
   * The round constants are what the standard says: the first thirty-two bits of the fractions of
   * the cube roots of the first primes.
   */
  lemma RoundConstants(t: nat)
    requires t < 64
    ensures CubeRootBits(Prime(t), WholeRoot(Prime(t)), K(t))
  {
    RootsOfRow0(); RootsOfRow1(); RootsOfRow2(); RootsOfRow3();
    RootsOfRow4(); RootsOfRow5(); RootsOfRow6(); RootsOfRow7();
  }

  /** The initial hash value likewise, from square roots. */
  lemma InitialHash()
    ensures |INITIAL| == 8 && forall i :: 0 <= i < 8 ==>
        SquareRootBits(PRIMES[0][i], WholeSquareRoot(PRIMES[0][i]), INITIAL[i])
  {
    assert SquareRootBits(2, 1, 0x6a09e667);
    assert SquareRootBits(3, 1, 0xbb67ae85);
    assert SquareRootBits(5, 2, 0x3c6ef372);
    assert SquareRootBits(7, 2, 0xa54ff53a);
    assert SquareRootBits(11, 3, 0x510e527f);
    assert SquareRootBits(13, 3, 0x9b05688c);
    assert SquareRootBits(17, 4, 0x1f83d9ab);
    assert SquareRootBits(19, 4, 0x5be0cd19);
  }

  function WholeSquareRoot(p: nat): nat {
    if p < 4 then 1 else if p < 9 then 2 else if p < 16 then 3 else 4
  }

  // ---- Functions (section 4.1.2) ----

  /** Addition modulo 2^32. */
  function Add(x: Word, y: Word): Word { x + y }

  function Ch(x: Word, y: Word, z: Word): Word { (x & y) ^ (!x & z) }

  function Maj(x: Word, y: Word, z: Word): Word { (x & y) ^ (x & z) ^ (y & z) }

  function BigSigma0(x: Word): Word { x.RotateRight(2) ^ x.RotateRight(13) ^ x.RotateRight(22) }

  function BigSigma1(x: Word): Word { x.RotateRight(6) ^ x.RotateRight(11) ^ x.RotateRight(25) }

  function SmallSigma0(x: Word): Word { x.RotateRight(7) ^ x.RotateRight(18) ^ (x >> 3) }

  function SmallSigma1(x: Word): Word { x.RotateRight(17) ^ x.RotateRight(19) ^ (x >> 10) }

  // ---- Words and octets ----

  /** Four octets as a word, the most significant first (section 3.1). */
  function WordOf(a: Octet, b: Octet, c: Octet, d: Octet): Word {
    ((a as Word) << 24) | ((b as Word) << 16) | ((c as Word) << 8) | (d as Word)
  }

  function OctetsOf(w: Word): seq<Octet> {
    [((w >> 24) & 0xff) as Octet, ((w >> 16) & 0xff) as Octet, ((w >> 8) & 0xff) as Octet, (w & 0xff) as Octet]
  }

  // ---- A block (section 6.2.2) ----

  const BLOCK: nat := 64

  /** The message schedule. */
  function W(block: seq<Octet>, t: nat): Word
    requires |block| == BLOCK && t < 64
  {
    if t < 16 then WordOf(block[4 * t], block[4 * t + 1], block[4 * t + 2], block[4 * t + 3])
    else Add(Add(Add(SmallSigma1(W(block, t - 2)), W(block, t - 7)), SmallSigma0(W(block, t - 15))), W(block, t - 16))
  }

  /** The eight working variables, and the hash value they are added to. */
  datatype Hash = Hash(a: Word, b: Word, c: Word, d: Word, e: Word, f: Word, g: Word, h: Word)

  function Round(v: Hash, k: Word, w: Word): Hash {
    var t1 := Add(Add(Add(Add(v.h, BigSigma1(v.e)), Ch(v.e, v.f, v.g)), k), w);
    var t2 := Add(BigSigma0(v.a), Maj(v.a, v.b, v.c));
    Hash(Add(t1, t2), v.a, v.b, v.c, Add(v.d, t1), v.e, v.f, v.g)
  }

  function KWord(t: nat): Word
    requires t < 64
  {
    KIsAWord(t);
    K(t) as Word
  }

  lemma KIsAWord(t: nat)
    requires t < 64
    ensures K(t) < 0x1_0000_0000
  {
    RoundConstants(t);
  }

  function Rounds(v: Hash, block: seq<Octet>, t: nat): Hash
    requires |block| == BLOCK && t <= 64
  {
    if t == 0 then v else Round(Rounds(v, block, t - 1), KWord(t - 1), W(block, t - 1))
  }

  function Compress(v: Hash, block: seq<Octet>): Hash
    requires |block| == BLOCK
  {
    var r := Rounds(v, block, 64);
    Hash(Add(v.a, r.a), Add(v.b, r.b), Add(v.c, r.c), Add(v.d, r.d), Add(v.e, r.e), Add(v.f, r.f), Add(v.g, r.g),
        Add(v.h, r.h))
  }

  /** The hash value after the whole blocks of a message. */
  function Absorb(v: Hash, m: seq<Octet>): Hash
    decreases |m|
  {
    hide Compress;
    if |m| < BLOCK then v else Absorb(Compress(v, m[..BLOCK]), m[BLOCK..])
  }

  /** What is left after them. */
  function Rest(m: seq<Octet>): (r: seq<Octet>)
    ensures |r| == |m| % BLOCK
  {
    m[|m| - |m| % BLOCK..]
  }

  /** Absorbing a message is absorbing its beginning, then what that left with the rest. */
  lemma {:induction false} AbsorbMore(v: Hash, m: seq<Octet>, more: seq<Octet>)
    ensures Absorb(v, m + more) == Absorb(Absorb(v, m), Rest(m) + more)
    ensures Rest(m + more) == Rest(Rest(m) + more)
    decreases |m|
  {
    hide Compress;
    if |m| < BLOCK {
      assert Rest(m) == m;
    } else {
      var u := Compress(v, m[..BLOCK]);
      assert (m + more)[..BLOCK] == m[..BLOCK] && (m + more)[BLOCK..] == m[BLOCK..] + more;
      RestOfTail(m);
      RestOfTail(m + more);
      AbsorbMore(u, m[BLOCK..], more);
    }
  }

  lemma RestOfTail(m: seq<Octet>)
    requires |m| >= BLOCK
    ensures Rest(m[BLOCK..]) == Rest(m)
  {
    assert (|m| - BLOCK) % BLOCK == |m| % BLOCK;
  }

  // ---- A message (sections 5.1.1, 5.3.3 and 6.2) ----

  function InitialWord(i: nat): Word
    requires i < 8
  {
    InitialHash();
    INITIAL[i] as Word
  }

  function Initial(): Hash {
    Hash(InitialWord(0), InitialWord(1), InitialWord(2), InitialWord(3), InitialWord(4), InitialWord(5),
        InitialWord(6), InitialWord(7))
  }

  /** x as eight octets, the most significant first. */
  function Length64(x: nat): (r: seq<Octet>)
    ensures |r| == 8
  {
    var d := Digits(x, 8);
    seq(8, i requires 0 <= i < 8 => d[i] as Octet)
  }

  /** The last n digits of a number to the base 256, the most significant first. */
  function Digits(x: nat, n: nat): (r: Bytes)
    ensures |r| == n
  {
    if n == 0 then [] else Digits(x / 256, n - 1) + [x % 256]
  }

  /** The number some digits are. */
  function Number(digits: Bytes): nat {
    if digits == [] then 0 else 256 * Number(digits[..|digits| - 1]) + digits[|digits| - 1]
  }

  function Power256(n: nat): (p: nat)
    ensures p > 0
  {
    if n == 0 then 1 else 256 * Power256(n - 1)
  }

  /** Eight octets say a number up to sixty-four bits. */
  lemma {:induction false} DigitsAre(x: nat, n: nat) returns (q: nat)
    ensures x == q * Power256(n) + Number(Digits(x, n))
    ensures Number(Digits(x, n)) < Power256(n)
  {
    if n == 0 {
      q := x;
    } else {
      q := DigitsAre(x / 256, n - 1);
      var high := Digits(x / 256, n - 1);
      NumberOfMore(high, x % 256);
      Regroup(q, Power256(n - 1), Number(high), x / 256, x);
    }
  }

  lemma NumberOfMore(high: Bytes, last: Byte)
    ensures Number(high + [last]) == 256 * Number(high) + last
  {
    assert (high + [last])[..|high|] == high;
  }

  lemma Regroup(q: nat, p: nat, low: nat, high: nat, x: nat)
    requires high == q * p + low && x / 256 == high
    ensures x == q * (256 * p) + (256 * low + x % 256)
  {
    assert 256 * (q * p) == q * (256 * p);
  }

  /** Digit by digit: shifted down and cut off. */
  lemma {:induction false} DigitIs(x: nat, n: nat, i: nat)
    requires i < n
    ensures Digits(x, n)[i] == x / Power256(n - 1 - i) % 256
  {
    if i < n - 1 {
      DigitIs(x / 256, n - 1, i);
      DivTwice(x, Power256(n - 2 - i));
    }
  }

  lemma DivTwice(x: nat, p: nat)
    requires p > 0
    ensures x / 256 / p == x / (256 * p)
  {
    var y := x / 256;
    var q, r := y / p, y % p;
    assert y == q * p + r;
    var low := 256 * r + x % 256;
    assert 256 * (q * p) == q * (256 * p);
    assert x == q * (256 * p) + low && low < 256 * p;
    DivOf(x, 256 * p, q, low);
  }

  lemma DivOf(x: nat, m: nat, q: nat, r: nat)
    requires m > 0 && x == q * m + r && r < m
    ensures x / m == q
  {
    var d := x / m;
    Euclid(x, m);
    Factor(d, q, m);
    Factor(q, d, m);
  }

  /** The length field says the message's length in bits exactly when that fits sixty-four of them. */
  lemma LengthFits(bits: nat)
    ensures Number(Digits(bits, 8)) == bits <==> bits < Power256(8)
  {
    var q := DigitsAre(bits, 8);
    if q > 0 { assert q * Power256(8) >= Power256(8); }
  }

  /** The zeros after the one bit, so that the length ends a block. */
  function Zeros(n: nat): (z: nat)
    ensures z < BLOCK && (n + 1 + z) % BLOCK == 56
  {
    (BLOCK + 55 - n % BLOCK) % BLOCK
  }

  /** A message padded, with bits as its length field. */
  function Padded(m: seq<Octet>, bits: nat): seq<Octet> {
    m + [0x80] + seq(Zeros(|m|), _ => 0) + Length64(bits)
  }

  function DigestOctets(v: Hash): seq<Octet> {
    OctetsOf(v.a) + OctetsOf(v.b) + OctetsOf(v.c) + OctetsOf(v.d) + OctetsOf(v.e) + OctetsOf(v.f) + OctetsOf(v.g) +
        OctetsOf(v.h)
  }

  /** The digest of a message. */
  function Digest(m: seq<Octet>): seq<Octet> { DigestOctets(Absorb(Initial(), Padded(m, 8 * |m|))) }

  /** A padded message is whole blocks, so that its digest is of all of it. */
  lemma PaddedIsWhole(m: seq<Octet>, bits: nat)
    ensures |Padded(m, bits)| % BLOCK == 0 && |m| + 9 <= |Padded(m, bits)| < |m| + 9 + BLOCK
    ensures Rest(Padded(m, bits)) == []
  {
  }
}
