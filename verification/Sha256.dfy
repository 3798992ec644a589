/**
 * The incremental SHA-256: a context that takes a message in pieces of any
 * size and gives the digest of the whole.
 */
module Sha256 {
  import opened Basics
  import opened Sha256Spec

  const WRAP: nat := 0x1_0000_0000_0000_0000

  /** The rotations are written as shifts. */
  function ShiftedBig0(x: Word): (r: Word)
    ensures r == BigSigma0(x)
  {
    ((x >> 2) | (x << 30)) ^ ((x >> 13) | (x << 19)) ^ ((x >> 22) | (x << 10))
  }

  function ShiftedBig1(x: Word): (r: Word)
    ensures r == BigSigma1(x)
  {
    ((x >> 6) | (x << 26)) ^ ((x >> 11) | (x << 21)) ^ ((x >> 25) | (x << 7))
  }

  function ShiftedSmall0(x: Word): (r: Word)
    ensures r == SmallSigma0(x)
  {
    ((x >> 7) | (x << 25)) ^ ((x >> 18) | (x << 14)) ^ (x >> 3)
  }

  function ShiftedSmall1(x: Word): (r: Word)
    ensures r == SmallSigma1(x)
  {
    ((x >> 17) | (x << 15)) ^ ((x >> 19) | (x << 13)) ^ (x >> 10)
  }

  function HashOf(s: seq<Word>): Hash
    requires |s| == 8
  {
    Hash(s[0], s[1], s[2], s[3], s[4], s[5], s[6], s[7])
  }

  lemma WStarts(block: seq<Octet>, t: nat)
    requires |block| == BLOCK && t < 16
    ensures W(block, t) == WordOf(block[t * 4], block[t * 4 + 1], block[t * 4 + 2], block[t * 4 + 3])
  {
  }

  lemma WGoesOn(block: seq<Octet>, t: nat)
    requires |block| == BLOCK && 16 <= t < 64
    ensures W(block, t) ==
        Add(Add(Add(SmallSigma1(W(block, t - 2)), W(block, t - 7)), SmallSigma0(W(block, t - 15))), W(block, t - 16))
  {
    hide Add;
    hide SmallSigma0;
    hide SmallSigma1;
  }

  /** The message schedule of a block. */
  method Schedule(block: seq<Octet>) returns (w: array<Word>)
    requires |block| == BLOCK
    ensures fresh(w) && w.Length == 64 && forall t :: 0 <= t < 64 ==> w[t] == W(block, t)
  {
    hide Add;
    hide SmallSigma0;
    hide SmallSigma1;
    hide ShiftedSmall0;
    hide ShiftedSmall1;
    hide WordOf;
    hide W;
    w := new Word[64];
    var i := 0;
    while i < 16
      invariant 0 <= i <= 16 && forall t :: 0 <= t < i ==> w[t] == W(block, t)
    {
      WStarts(block, i);
      w[i] := WordOf(block[i * 4], block[i * 4 + 1], block[i * 4 + 2], block[i * 4 + 3]);
      i := i + 1;
    }
    while i < 64
      invariant 16 <= i <= 64 && forall t :: 0 <= t < i ==> w[t] == W(block, t)
    {
      WGoesOn(block, i);
      w[i] := Add(Add(Add(ShiftedSmall1(w[i - 2]), w[i - 7]), ShiftedSmall0(w[i - 15])), w[i - 16]);
      i := i + 1;
    }
  }

  /** One block into the state. */
  method Transform(state: array<Word>, block: seq<Octet>)
    requires state.Length == 8 && |block| == BLOCK
    modifies state
    ensures HashOf(state[..]) == Compress(HashOf(old(state[..])), block)
  {
    hide Add;
    hide BigSigma0;
    hide BigSigma1;
    hide ShiftedBig0;
    hide ShiftedBig1;
    hide Ch;
    hide Maj;
    hide W;
    hide KWord;
    var w := Schedule(block);
    var a, b, c, d := state[0], state[1], state[2], state[3];
    var e, f, g, h := state[4], state[5], state[6], state[7];
    ghost var v := HashOf(old(state[..]));
    var i := 0;
    while i < 64
      modifies {}
      invariant 0 <= i <= 64 && Hash(a, b, c, d, e, f, g, h) == Rounds(v, block, i)
    {
      var t1 := Add(Add(Add(Add(h, ShiftedBig1(e)), Ch(e, f, g)), KWord(i)), w[i]);
      var t2 := Add(ShiftedBig0(a), Maj(a, b, c));
      h, g, f, e, d, c, b, a := g, f, e, Add(d, t1), c, b, a, Add(t1, t2);
      i := i + 1;
    }
    hide Rounds;
    state[0], state[1], state[2], state[3] := Add(state[0], a), Add(state[1], b), Add(state[2], c), Add(state[3], d);
    state[4], state[5], state[6], state[7] := Add(state[4], e), Add(state[5], f), Add(state[6], g), Add(state[7], h);
  }

  method CopyInto(buffer: array<Octet>, at: nat, data: seq<Octet>)
    requires at + |data| <= buffer.Length
    modifies buffer
    ensures buffer[..at + |data|] == old(buffer[..at]) + data
  {
    var i := 0;
    while i < |data|
      invariant 0 <= i <= |data| && buffer[..at] == old(buffer[..at]) && buffer[at..at + i] == data[..i]
    {
      buffer[at + i] := data[i];
      i := i + 1;
    }
    assert buffer[..at + i] == buffer[..at] + buffer[at..at + i];
  }

  class Context {
    const state: array<Word>
    const buffer: array<Octet>
    var count: nat
    ghost var message: seq<Octet>

    ghost predicate Valid() reads this, state, buffer {
      && state.Length == 8 && buffer.Length == BLOCK && state as object != buffer
      && count == |message| % WRAP
      && HashOf(state[..]) == Absorb(Initial(), message)
      && buffer[..|message| % BLOCK] == Rest(message)
    }

    constructor ()
      ensures Valid() && message == [] && fresh(state) && fresh(buffer)
    {
      hide InitialWord;
      state := new Word[8];
      buffer := new Octet[BLOCK];
      count, message := 0, [];
      new;
      var i := 0;
      state[0], state[1], state[2], state[3] := InitialWord(0), InitialWord(1), InitialWord(2), InitialWord(3);
      state[4], state[5], state[6], state[7] := InitialWord(4), InitialWord(5), InitialWord(6), InitialWord(7);
    }

    /** A piece of the message, of any size. */
    method Update(data: seq<Octet>)
      requires Valid()
      modifies this, state, buffer
      ensures Valid() && message == old(message) + data
    {
      hide Compress;
      hide Initial;
      hide Absorb;
      hide Rest;
      if data == [] {
        assert message + data == message;
        return;
      }
      AbsorbMore(Initial(), message, data);
      ghost var rest := Rest(message);
      ghost var was := message;
      var index := count % BLOCK;
      WrapKeeps(|message|, |data|);
      WrapKeeps(0, |message|);
      message := message + data;
      count := (count + |data|) % WRAP;
      RestLength(was);
      TakeIn(index, data, rest);
    }

    /** The digest of everything fed, and the context is spent. */
    method Final() returns (digest: seq<Octet>)
      requires Valid()
      modifies this, state, buffer
      ensures digest == DigestOctets(Absorb(Initial(), Padded(old(message), 8 * |old(message)| % WRAP)))
      ensures |old(message)| < 0x2000_0000_0000_0000 ==> digest == Digest(old(message))
    {
      hide Compress;
      hide Initial;
      hide Absorb;
      hide OctetsOf;
      hide Length64;
      ghost var m := message;
      var bits := count * 8 % WRAP;
      BitsWrap(|m|);
      PadZeros();
      var length := LengthOctets(bits);
      Update(length);
      digest := StateOctets();
    }

    /** A one bit, and zeros until the length would end a block. */
    method PadZeros()
      requires Valid()
      modifies this, state, buffer
      ensures Valid() && message == old(message) + [0x80] + seq(Zeros(|old(message)|), _ => 0)
    {
      hide Compress;
      hide Initial;
      hide Absorb;
      hide Rest;
      ghost var m := message;
      Update([0x80]);
      ghost var z := 0;
      assert message == m + [0x80] + seq(0, _ => 0);
      while count % BLOCK != 56
        invariant Valid() && z <= Zeros(|m|) && message == m + [0x80] + seq(z, _ => 0)
        decreases Zeros(|m|) - z
      {
        CountIs();
        MoreZeros(|m|, z);
        Update([0]);
        assert seq(z, _ => 0 as Octet) + [0] == seq(z + 1, _ => 0);
        z := z + 1;
      }
      CountIs();
      MoreZeros(|m|, z);
    }

    lemma CountIs()
      requires Valid()
      ensures count % BLOCK == |message| % BLOCK
    {
      WrapKeeps(0, |message|);
    }

    method StateOctets() returns (digest: seq<Octet>)
      requires Valid()
      ensures digest == DigestOctets(Absorb(Initial(), message))
    {
      hide OctetsOf;
      hide DigestOctets;
      hide Absorb;
      hide Rest;
      hide Initial;
      digest := [];
      var i := 0;
      while i < 8
        modifies {}
        invariant 0 <= i <= 8 && digest == FirstOctets(state[..], i)
      {
        digest := digest + OctetsOf(state[i]);
        i := i + 1;
      }
      FirstOctetsAll(state[..]);
    }

    /** The bytes waiting and the new ones, a block at a time, and what is left kept waiting. */
    method TakeIn(index: nat, data: seq<Octet>, ghost rest: seq<Octet>)
      requires state.Length == 8 && buffer.Length == BLOCK && state as object != buffer
      requires |rest| == index < BLOCK && buffer[..index] == rest
      modifies state, buffer
      ensures HashOf(state[..]) == Absorb(HashOf(old(state[..])), rest + data)
      ensures buffer[..|rest + data| % BLOCK] == Rest(rest + data)
    {
      hide Compress;
      ghost var all := rest + data;
      var p := data;
      if index > 0 {
        var left := BLOCK - index;
        if |p| < left {
          CopyInto(buffer, index, p);
          assert Rest(all) == all;
          return;
        }
        CopyInto(buffer, index, p[..left]);
        assert buffer[..] == all[..BLOCK] && p[left..] == all[BLOCK..];
        Transform(state, buffer[..]);
        p := p[left..];
        RestOfTail(all);
      } else {
        assert all == data;
      }
      p := WholeBlocks(state, p);
      CopyInto(buffer, 0, p);
    }
  }

  /** The eight octets of a length, the most significant first. */
  method LengthOctets(bits: nat) returns (octets: seq<Octet>)
    ensures octets == Length64(bits)
  {
    octets := [];
    var i := 0;
    while i < 8
      invariant 0 <= i <= 8 && octets == Length64(bits)[..i]
    {
      DigitIs(bits, 8, i);
      octets := octets + [(bits / Power256(7 - i) % 256) as Octet];
      i := i + 1;
    }
  }

  method WholeBlocks(state: array<Word>, data: seq<Octet>) returns (p: seq<Octet>)
    requires state.Length == 8
    modifies state
    ensures HashOf(state[..]) == Absorb(HashOf(old(state[..])), data) && p == Rest(data)
  {
    hide Compress;
    p := data;
    while |p| >= BLOCK
      invariant Absorb(HashOf(state[..]), p) == Absorb(HashOf(old(state[..])), data) && Rest(p) == Rest(data)
    {
      RestOfTail(p);
      Transform(state, p[..BLOCK]);
      p := p[BLOCK..];
    }
    assert Rest(p) == p;
  }

  function FirstOctets(s: seq<Word>, n: nat): seq<Octet>
    requires n <= |s|
  {
    if n == 0 then [] else FirstOctets(s, n - 1) + OctetsOf(s[n - 1])
  }

  lemma FirstOctetsAll(s: seq<Word>)
    requires |s| == 8
    ensures FirstOctets(s, 8) == DigestOctets(HashOf(s))
  {
    hide OctetsOf;
    assert FirstOctets(s, 0) == [];
    assert FirstOctets(s, 1) == OctetsOf(s[0]);
    assert FirstOctets(s, 2) == OctetsOf(s[0]) + OctetsOf(s[1]);
    assert FirstOctets(s, 3) == OctetsOf(s[0]) + OctetsOf(s[1]) + OctetsOf(s[2]);
    assert FirstOctets(s, 4) == OctetsOf(s[0]) + OctetsOf(s[1]) + OctetsOf(s[2]) + OctetsOf(s[3]);
    assert FirstOctets(s, 6) == FirstOctets(s, 4) + OctetsOf(s[4]) + OctetsOf(s[5]);
    assert FirstOctets(s, 8) == FirstOctets(s, 6) + OctetsOf(s[6]) + OctetsOf(s[7]);
  }

  lemma BitsWrap(n: nat)
    ensures n % WRAP * 8 % WRAP == 8 * n % WRAP
    ensures n < 0x2000_0000_0000_0000 ==> 8 * n % WRAP == 8 * n
  {
    TimesEight(n, WRAP);
  }

  lemma TimesEight(n: nat, m: nat)
    requires m > 0
    ensures n % m * 8 % m == 8 * n % m
    ensures 8 * n < m ==> 8 * n % m == 8 * n
  {
    var q, r := n / m, n % m;
    var t, s := 8 * r / m, 8 * r % m;
    Split(n, m);
    Split(8 * r, m);
    EightOf(n, m, q, r, t, s);
    ModOf(8 * n, m, 8 * q + t, s);
    if 8 * n < m { ModOf(8 * n, m, 0, 8 * n); }
  }

  lemma EightOf(n: nat, m: nat, q: nat, r: nat, t: nat, s: nat)
    requires n == q * m + r && 8 * r == t * m + s
    ensures 8 * n == (8 * q + t) * m + s
  {
  }

  lemma ModOf(x: nat, m: nat, q: nat, r: nat)
    requires m > 0 && x == q * m + r && r < m
    ensures x % m == r
  {
    DivOf(x, m, q, r);
    Split(x, m);
  }

  lemma Split(x: nat, m: nat)
    requires m > 0
    ensures x == x / m * m + x % m && x % m < m
  {
  }

  /** The zeros end exactly when the length would end a block. */
  lemma MoreZeros(n: nat, z: nat)
    requires z <= Zeros(n)
    ensures (n + 1 + z) % BLOCK == 56 <==> z == Zeros(n)
  {
  }

  lemma WrapKeeps(a: nat, b: nat)
    ensures (a % WRAP + b) % WRAP == (a + b) % WRAP && b % WRAP % BLOCK == b % BLOCK
  {
    ModOfSum(a, b, WRAP);
    ModOfMod(b, WRAP / BLOCK, BLOCK);
  }

  lemma ModOfSum(a: nat, b: nat, m: nat)
    requires m > 0
    ensures (a % m + b) % m == (a + b) % m
  {
    var q, r := a / m, a % m;
    var t, s := (r + b) / m, (r + b) % m;
    Split(a, m);
    Split(r + b, m);
    SumOf(a, b, m, q, r, t, s);
    ModOf(a + b, m, q + t, s);
  }

  lemma SumOf(a: nat, b: nat, m: nat, q: nat, r: nat, t: nat, s: nat)
    requires a == q * m + r && r + b == t * m + s
    ensures a + b == (q + t) * m + s
  {
  }

  lemma ModOfMod(x: nat, k: nat, m: nat)
    requires m > 0 && k > 0 && k * m > 0
    ensures x % (k * m) % m == x % m
  {
    var q, r := x / (k * m), x % (k * m);
    var t, s := r / m, r % m;
    Split(x, k * m);
    Split(r, m);
    PartsOf(x, k, m, q, r, t, s);
    ModOf(x, m, q * k + t, s);
  }

  lemma PartsOf(x: nat, k: nat, m: nat, q: nat, r: nat, t: nat, s: nat)
    requires x == q * (k * m) + r && r == t * m + s
    ensures x == (q * k + t) * m + s
  {
    assert q * (k * m) == (q * k) * m;
  }

  lemma RestLength(m: seq<Octet>)
    ensures |Rest(m)| == |m| % BLOCK
  {
  }

  function Joined(pieces: seq<seq<Octet>>): seq<Octet> {
    if pieces == [] then [] else Joined(pieces[..|pieces| - 1]) + pieces[|pieces| - 1]
  }

  /** However a message is cut into pieces, the digest is the one of the whole. */
  method DigestOfPieces(pieces: seq<seq<Octet>>) returns (digest: seq<Octet>)
    requires |Joined(pieces)| < 0x2000_0000_0000_0000
    ensures digest == Digest(Joined(pieces))
  {
    hide Digest;
    var context := new Context();
    var i := 0;
    while i < |pieces|
      invariant i <= |pieces| && context.Valid() && context.message == Joined(pieces[..i])
      invariant fresh(context) && fresh(context.state) && fresh(context.buffer)
    {
      assert pieces[..i + 1][..i] == pieces[..i];
      context.Update(pieces[i]);
      i := i + 1;
    }
    assert pieces[..i] == pieces;
    digest := context.Final();
  }

  /** The length field the context writes is the message's length in bits exactly for messages under 2^61 octets. */
  lemma LengthFieldTells(n: nat)
    ensures Number(Digits(8 * n % WRAP, 8)) == 8 * n <==> n < 0x2000_0000_0000_0000
  {
    BitsWrap(n);
    LengthFits(8 * n % WRAP);
    assert Power256(8) == WRAP by {
      assert Power256(2) == 65536 && Power256(4) == 0x1_0000_0000 && Power256(6) == 0x1_0000_0000_0000;
    }
  }
}
