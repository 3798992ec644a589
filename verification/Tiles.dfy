/**
 * Products computed in tiles and chunks, bit for bit: a float is its
 * bits, and what the processor does with them (Ops) is left uninterpreted, so
 * two results are equal only when they are the same expression.
 */
module Tiles {
  import opened Basics
  import Pool

  type F32 = x: int | 0 <= x < 0x1_0000_0000

  const PLUS_ZERO: F32 := 0

  /** fma(a, b, c) is a * b + c in one rounding; mac(s, a, b) is what s += a * b makes of s. */
  datatype Ops = Ops(fma: (F32, F32, F32) -> F32, add: (F32, F32) -> F32, mac: (F32, F32, F32) -> F32)

  // ---- Eight lanes ----

  type Lanes = s: seq<F32> | |s| == 8 witness [0, 0, 0, 0, 0, 0, 0, 0]

  const ZEROS: Lanes := [0, 0, 0, 0, 0, 0, 0, 0]

  function Fma8(o: Ops, a: Lanes, b: Lanes, c: Lanes): Lanes {
    [o.fma(a[0], b[0], c[0]), o.fma(a[1], b[1], c[1]), o.fma(a[2], b[2], c[2]), o.fma(a[3], b[3], c[3]),
     o.fma(a[4], b[4], c[4]), o.fma(a[5], b[5], c[5]), o.fma(a[6], b[6], c[6]), o.fma(a[7], b[7], c[7])]
  }

  function Add8(o: Ops, a: Lanes, b: Lanes): Lanes {
    [o.add(a[0], b[0]), o.add(a[1], b[1]), o.add(a[2], b[2]), o.add(a[3], b[3]),
     o.add(a[4], b[4]), o.add(a[5], b[5]), o.add(a[6], b[6]), o.add(a[7], b[7])]
  }

  function Load(s: seq<F32>, k: nat): Lanes
    requires k + 8 <= |s|
  {
    s[k..k + 8]
  }

  function Sum8(o: Ops, v: Lanes): F32 {
    o.add(o.add(o.add(v[0], v[4]), o.add(v[2], v[6])), o.add(o.add(v[1], v[5]), o.add(v[3], v[7])))
  }

  /** The lanes added up: halves, then pairs, then the two left. */
  method Hsum8(o: Ops, v: Lanes) returns (r: F32)
    ensures r == Sum8(o, v)
  {
    var s := [o.add(v[0], v[4]), o.add(v[1], v[5]), o.add(v[2], v[6]), o.add(v[3], v[7])];
    s := [o.add(s[0], s[2]), o.add(s[1], s[3]), s[2], s[3]];
    r := o.add(s[0], s[1]);
  }

  // ---- What a dot product is ----

  /** One running sum: over every stride-th pair from l on, in order, before end. */
  function Lane(o: Ops, a: seq<F32>, b: seq<F32>, l: nat, stride: nat, end: nat): F32
    requires l < stride && end <= |a| == |b|
    decreases end
  {
    if end < stride then PLUS_ZERO
    else o.fma(a[end - stride + l], b[end - stride + l], Lane(o, a, b, l, stride, end - stride))
  }

  /** Eight running sums side by side. */
  function Running(o: Ops, a: seq<F32>, b: seq<F32>, l: nat, stride: nat, end: nat): Lanes
    requires l + 8 <= stride && end <= |a| == |b|
  {
    [Lane(o, a, b, l, stride, end), Lane(o, a, b, l + 1, stride, end),
     Lane(o, a, b, l + 2, stride, end), Lane(o, a, b, l + 3, stride, end),
     Lane(o, a, b, l + 4, stride, end), Lane(o, a, b, l + 5, stride, end),
     Lane(o, a, b, l + 6, stride, end), Lane(o, a, b, l + 7, stride, end)]
  }

  lemma RunningNone(o: Ops, a: seq<F32>, b: seq<F32>, l: nat, stride: nat)
    requires l + 8 <= stride && |a| == |b|
    ensures Running(o, a, b, l, stride, 0) == ZEROS
  {
  }

  /** Eight more pairs, multiplied and added at once, are one more to each sum. */
  lemma RunningMore(o: Ops, a: seq<F32>, b: seq<F32>, l: nat, stride: nat, end: nat)
    requires l + 8 <= stride && end + stride <= |a| == |b|
    ensures Running(o, a, b, l, stride, end + stride)
         == Fma8(o, Load(a, end + l), Load(b, end + l), Running(o, a, b, l, stride, end))
  {
  }

  /** The pairs from k to m, added one at a time. */
  function OneByOne(o: Ops, a: seq<F32>, b: seq<F32>, k: nat, m: nat, s: F32): F32
    requires k <= m <= |a| == |b|
    decreases m
  {
    if k == m then s else o.mac(OneByOne(o, a, b, k, m - 1, s), a[m - 1], b[m - 1])
  }

  function Eights(n: nat): (e: nat)
    ensures e <= n && e % 8 == 0
  {
    n / 8 * 8
  }

  /** Eight running sums, those added in a fixed order, then the inputs left over one at a time. */
  function Dot(o: Ops, a: seq<F32>, b: seq<F32>): F32
    requires |a| == |b|
  {
    var n8 := Eights(|a|);
    OneByOne(o, a, b, n8, |a|, Sum8(o, Running(o, a, b, 0, 8, n8)))
  }

  method DotAvx2(o: Ops, a: seq<F32>, b: seq<F32>) returns (s: F32)
    requires |a| == |b|
    ensures s == Dot(o, a, b)
  {
    hide Running;
    hide Sum8;
    hide Fma8;
    var n8 := Eights(|a|);
    var acc := ZEROS;
    var k := 0;
    RunningNone(o, a, b, 0, 8);
    while k < n8
      invariant k <= n8 && k % 8 == 0 && acc == Running(o, a, b, 0, 8, k)
    {
      RunningMore(o, a, b, 0, 8, k);
      acc := Fma8(o, Load(a, k), Load(b, k), acc);
      k := k + 8;
    }
    s := Hsum8(o, acc);
    ghost var start := s;
    while k < |a|
      invariant n8 <= k <= |a| && s == OneByOne(o, a, b, n8, k, start)
    {
      s := o.mac(s, a[k], b[k]);
      k := k + 1;
    }
  }

  // ---- Every product once ----

  function Mul(x: int, y: int): int { x * y }

  /** Arithmetic modulo 2^32, an instance of what the processor might do that loses no product. */
  const MODULAR: Ops := Ops((a, b, c) => Kept(Mul(a, b) + c), (a, b) => Kept(a as int + b),
      (s, a, b) => Kept(s + Mul(a, b)))

  function Kept(x: int): F32 { x % 0x1_0000_0000 }

  predicate Same(x: int, y: int) { Kept(x) == Kept(y) }

  /** The products of the pairs from k to m, added up. */
  function Products(a: seq<F32>, b: seq<F32>, k: nat, m: nat): int
    requires k <= m <= |a| == |b|
    decreases m
  {
    if k == m then 0 else Products(a, b, k, m - 1) + Mul(a[m - 1], b[m - 1])
  }

  lemma {:induction false} ProductsOn(a: seq<F32>, b: seq<F32>, k: nat, m: nat, n: nat)
    requires k <= m <= n <= |a| == |b|
    ensures Products(a, b, k, n) == Products(a, b, k, m) + Products(a, b, m, n)
    decreases n
  {
    hide Mul;
    if m < n { ProductsOn(a, b, k, m, n - 1); }
  }

  /** Those of the eight pairs from l on in every stride, before end. */
  function Strided(a: seq<F32>, b: seq<F32>, l: nat, stride: nat, end: nat): int
    requires l + 8 <= stride && end <= |a| == |b|
    decreases end
  {
    if end < stride then 0
    else Strided(a, b, l, stride, end - stride) + Products(a, b, end - stride + l, end - stride + l + 8)
  }

  function Total(v: seq<int>): int
    requires |v| == 8
  {
    v[0] + v[1] + v[2] + v[3] + v[4] + v[5] + v[6] + v[7]
  }

  lemma SumIsTotal(v: Lanes)
    ensures Sum8(MODULAR, v) == Kept(Total(v))
  {
    hide Kept;
    hide Total;
    TotalKept(v);
  }

  lemma TotalKept(s: seq<int>)
    requires |s| == 8
    ensures Kept(Total(s))
         == Kept(Kept(Kept(s[0] + s[4]) as int + Kept(s[2] + s[6])) as int
               + Kept(Kept(s[1] + s[5]) as int + Kept(s[3] + s[7])))
  {
    KeptSum(s[0] + s[4], s[2] + s[6]);
    KeptSum(s[1] + s[5], s[3] + s[7]);
    KeptSum(s[0] + s[4] + (s[2] + s[6]), s[1] + s[5] + (s[3] + s[7]));
    hide Kept;
  }

  lemma KeptSum(x: int, y: int)
    ensures Kept(Kept(x) as int + Kept(y)) == Kept(x + y)
  {
  }

  lemma SameSum(x: int, x': int, y: int, y': int)
    requires Same(x, x') && Same(y, y')
    ensures Same(x + y, x' + y')
  {
  }

  lemma KeptIsSame(x: int)
    ensures Same(Kept(x), x)
  {
  }

  lemma TotalOfSum(u: Lanes, v: Lanes)
    ensures Same(Total(Add8(MODULAR, u, v)), Total(u) + Total(v))
  {
    hide Same;
    hide Kept;
    var x: seq<int>, y: seq<int> := u, v;
    SameEight(Add8(MODULAR, u, v), [x[0] + y[0], x[1] + y[1], x[2] + y[2], x[3] + y[3],
                                    x[4] + y[4], x[5] + y[5], x[6] + y[6], x[7] + y[7]]);
  }

  /** Lane by lane the same, so the same in all. */
  lemma SameEight(s: seq<int>, e: seq<int>)
    requires |s| == |e| == 8 && forall i :: 0 <= i < 8 ==> s[i] == Kept(e[i])
    ensures Same(Total(s), Total(e))
  {
    forall i | 0 <= i < 8 ensures Same(s[i], e[i]) { KeptIsSame(e[i]); }
    hide Kept;
    hide Same;
    SameSum(s[0], e[0], s[1], e[1]);
    SameSum(s[0] + s[1], e[0] + e[1], s[2], e[2]);
    SameSum(s[0] + s[1] + s[2], e[0] + e[1] + e[2], s[3], e[3]);
    SameSum(s[0] + s[1] + s[2] + s[3], e[0] + e[1] + e[2] + e[3], s[4], e[4]);
    SameSum(s[0] + s[1] + s[2] + s[3] + s[4], e[0] + e[1] + e[2] + e[3] + e[4], s[5], e[5]);
    SameSum(s[0] + s[1] + s[2] + s[3] + s[4] + s[5], e[0] + e[1] + e[2] + e[3] + e[4] + e[5], s[6], e[6]);
    SameSum(s[0] + s[1] + s[2] + s[3] + s[4] + s[5] + s[6],
            e[0] + e[1] + e[2] + e[3] + e[4] + e[5] + e[6], s[7], e[7]);
  }

  lemma EightProducts(a: seq<F32>, b: seq<F32>, k: nat)
    requires k + 8 <= |a| == |b|
    ensures Products(a, b, k, k + 8)
         == Mul(a[k], b[k]) + Mul(a[k + 1], b[k + 1]) + Mul(a[k + 2], b[k + 2]) + Mul(a[k + 3], b[k + 3])
          + Mul(a[k + 4], b[k + 4]) + Mul(a[k + 5], b[k + 5]) + Mul(a[k + 6], b[k + 6]) + Mul(a[k + 7], b[k + 7])
  {
    hide Mul;
    assert Products(a, b, k, k + 1) == Mul(a[k], b[k]);
    assert Products(a, b, k, k + 2) == Products(a, b, k, k + 1) + Mul(a[k + 1], b[k + 1]);
    assert Products(a, b, k, k + 4) == Products(a, b, k, k + 2) + Mul(a[k + 2], b[k + 2]) + Mul(a[k + 3], b[k + 3]);
    assert Products(a, b, k, k + 6) == Products(a, b, k, k + 4) + Mul(a[k + 4], b[k + 4]) + Mul(a[k + 5], b[k + 5]);
  }

  lemma TotalMore(a: seq<F32>, b: seq<F32>, k: nat, v: Lanes)
    requires k + 8 <= |a| == |b|
    ensures Same(Total(Fma8(MODULAR, Load(a, k), Load(b, k), v)), Products(a, b, k, k + 8) + Total(v))
  {
    hide Same;
    hide Kept;
    hide Mul;
    hide Products;
    EightProducts(a, b, k);
    var e := [Mul(a[k], b[k]) + v[0], Mul(a[k + 1], b[k + 1]) + v[1], Mul(a[k + 2], b[k + 2]) + v[2],
              Mul(a[k + 3], b[k + 3]) + v[3], Mul(a[k + 4], b[k + 4]) + v[4], Mul(a[k + 5], b[k + 5]) + v[5],
              Mul(a[k + 6], b[k + 6]) + v[6], Mul(a[k + 7], b[k + 7]) + v[7]];
    SameEight(Fma8(MODULAR, Load(a, k), Load(b, k), v), e);
  }

  lemma {:induction false} RunningAddsUp(a: seq<F32>, b: seq<F32>, l: nat, stride: nat, end: nat)
    requires l + 8 <= stride && end <= |a| == |b|
    ensures Same(Total(Running(MODULAR, a, b, l, stride, end)), Strided(a, b, l, stride, end))
    decreases end
  {
    hide *;
    if end < stride {
      NothingRun(a, b, l, stride, end);
    } else {
      var k := end - stride;
      RunningAddsUp(a, b, l, stride, k);
      RunningMore(MODULAR, a, b, l, stride, k);
      var v := Running(MODULAR, a, b, l, stride, k);
      TotalMore(a, b, k + l, v);
      SameMore(a, b, l, stride, k, v);
    }
  }

  lemma NothingRun(a: seq<F32>, b: seq<F32>, l: nat, stride: nat, end: nat)
    requires l + 8 <= stride && end < stride && end <= |a| == |b|
    ensures Same(Total(Running(MODULAR, a, b, l, stride, end)), Strided(a, b, l, stride, end))
  {
    assert Running(MODULAR, a, b, l, stride, end) == ZEROS;
  }

  lemma SameMore(a: seq<F32>, b: seq<F32>, l: nat, stride: nat, k: nat, v: Lanes)
    requires l + 8 <= stride && k + stride <= |a| == |b| && Same(Total(v), Strided(a, b, l, stride, k))
    requires Same(Total(Fma8(MODULAR, Load(a, k + l), Load(b, k + l), v)), Products(a, b, k + l, k + l + 8) + Total(v))
    ensures Same(Total(Fma8(MODULAR, Load(a, k + l), Load(b, k + l), v)), Strided(a, b, l, stride, k + stride))
  {
    hide Total;
    hide Fma8;
    hide Load;
    hide Products;
    var p := Products(a, b, k + l, k + l + 8);
    SameSum(p, p, Total(v), Strided(a, b, l, stride, k));
  }

  lemma {:induction false} OneByOneAddsUp(a: seq<F32>, b: seq<F32>, k: nat, m: nat, s: F32)
    requires k <= m <= |a| == |b|
    ensures OneByOne(MODULAR, a, b, k, m, s) == Kept(s + Products(a, b, k, m))
    decreases m
  {
    hide Mul;
    hide Kept;
    if k == m {
      KeptOf(s);
    } else {
      OneByOneAddsUp(a, b, k, m - 1, s);
      MacKept(OneByOne(MODULAR, a, b, k, m - 1, s), s + Products(a, b, k, m - 1), a[m - 1], b[m - 1]);
    }
  }

  lemma KeptOf(s: F32)
    ensures Kept(s) == s
  {
  }

  lemma MacKept(s: F32, p: int, x: F32, y: F32)
    requires s == Kept(p)
    ensures MODULAR.mac(s, x, y) == Kept(p + Mul(x, y))
  {
    hide Mul;
    KeptMore(p, Mul(x, y));
  }

  lemma KeptMore(p: int, x: int)
    ensures Kept(Kept(p) + x) == Kept(p + x)
  {
  }

  lemma StridedMore(a: seq<F32>, b: seq<F32>, l: nat, stride: nat, k: nat)
    requires l + 8 <= stride && k + stride <= |a| == |b|
    ensures Strided(a, b, l, stride, k + stride) == Strided(a, b, l, stride, k) + Products(a, b, k + l, k + l + 8)
  {
    hide Products;
  }

  lemma StridedNone(a: seq<F32>, b: seq<F32>, l: nat, stride: nat)
    requires l + 8 <= stride && |a| == |b|
    ensures Strided(a, b, l, stride, 0) == 0 == Products(a, b, 0, 0)
  {
  }

  /** Steps of eight leave no pair out. */
  lemma {:induction false} StridedByEight(a: seq<F32>, b: seq<F32>, n: nat)
    requires 8 * n <= |a| == |b|
    ensures Strided(a, b, 0, 8, 8 * n) == Products(a, b, 0, 8 * n)
    decreases n
  {
    hide *;
    if n == 0 {
      StridedNone(a, b, 0, 8);
    } else {
      var k := 8 * (n - 1);
      StridedByEight(a, b, n - 1);
      StridedMore(a, b, 0, 8, k);
      ProductsOn(a, b, 0, k, k + 8);
    }
  }

  /** A dot product adds every pair's product once: modulo 2^32 it is their sum. */
  lemma DotAddsUp(a: seq<F32>, b: seq<F32>)
    requires |a| == |b|
    ensures Dot(MODULAR, a, b) == Products(a, b, 0, |a|) % 0x1_0000_0000
  {
    hide Products;
    hide Running;
    hide Sum8;
    hide OneByOne;
    hide Total;
    hide Same;
    hide Strided;
    var n8 := Eights(|a|);
    RunningAddsUp(a, b, 0, 8, n8);
    StridedByEight(a, b, |a| / 8);
    ProductsOn(a, b, 0, n8, |a|);
    AddsUp(a, b, n8, Running(MODULAR, a, b, 0, 8, n8));
  }

  /** Lanes that are the same as the products so far, and then the rest. */
  lemma AddsUp(a: seq<F32>, b: seq<F32>, k: nat, v: Lanes)
    requires k <= |a| == |b| && Same(Total(v), Products(a, b, 0, k))
    ensures OneByOne(MODULAR, a, b, k, |a|, Sum8(MODULAR, v)) == Kept(Products(a, b, 0, |a|))
  {
    hide Sum8;
    hide Total;
    hide Products;
    SumIsTotal(v);
    OneByOneAddsUp(a, b, k, |a|, Sum8(MODULAR, v));
    ProductsOn(a, b, 0, k, |a|);
    var rest := Products(a, b, k, |a|);
    SameSum(Sum8(MODULAR, v), Products(a, b, 0, k), rest, rest);
  }

  // ---- A tile ----

  /** Four rows by three: the sums of the twelve pairs over whole steps of eight. */
  method TileSums(o: Ops, x: seq<seq<F32>>, w: seq<seq<F32>>, n: nat) returns (s: seq<F32>)
    requires |x| == 4 && |w| == 3 && (forall r :: 0 <= r < 4 ==> |x[r]| == n) &&
        (forall c :: 0 <= c < 3 ==> |w[c]| == n)
    ensures |s| == 12
    ensures forall q :: 0 <= q < 12 ==> s[q] == Sum8(o, Running(o, x[q / 3], w[q % 3], 0, 8, Eights(n)))
  {
    hide Running;
    hide Sum8;
    hide Fma8;
    hide Load;
    hide Lane;
    hide Eights;
    var n8 := Eights(n);
    var a00, a01, a02, a10, a11, a12 := ZEROS, ZEROS, ZEROS, ZEROS, ZEROS, ZEROS;
    var a20, a21, a22, a30, a31, a32 := ZEROS, ZEROS, ZEROS, ZEROS, ZEROS, ZEROS;
    forall r, c | 0 <= r < 4 && 0 <= c < 3 ensures Running(o, x[r], w[c], 0, 8, 0) == ZEROS {
      RunningNone(o, x[r], w[c], 0, 8);
    }
    var k := 0;
    while k < n8
      invariant k <= n8 && k % 8 == 0
      invariant a00 == Running(o, x[0], w[0], 0, 8, k) && a01 == Running(o, x[0], w[1], 0, 8, k) &&
          a02 == Running(o, x[0], w[2], 0, 8, k)
      invariant a10 == Running(o, x[1], w[0], 0, 8, k) && a11 == Running(o, x[1], w[1], 0, 8, k) &&
          a12 == Running(o, x[1], w[2], 0, 8, k)
      invariant a20 == Running(o, x[2], w[0], 0, 8, k) && a21 == Running(o, x[2], w[1], 0, 8, k) &&
          a22 == Running(o, x[2], w[2], 0, 8, k)
      invariant a30 == Running(o, x[3], w[0], 0, 8, k) && a31 == Running(o, x[3], w[1], 0, 8, k) &&
          a32 == Running(o, x[3], w[2], 0, 8, k)
    {
      RunningMore(o, x[0], w[0], 0, 8, k); RunningMore(o, x[0], w[1], 0, 8, k); RunningMore(o, x[0], w[2], 0, 8, k);
      RunningMore(o, x[1], w[0], 0, 8, k); RunningMore(o, x[1], w[1], 0, 8, k); RunningMore(o, x[1], w[2], 0, 8, k);
      RunningMore(o, x[2], w[0], 0, 8, k); RunningMore(o, x[2], w[1], 0, 8, k); RunningMore(o, x[2], w[2], 0, 8, k);
      RunningMore(o, x[3], w[0], 0, 8, k); RunningMore(o, x[3], w[1], 0, 8, k); RunningMore(o, x[3], w[2], 0, 8, k);
      var wa, wb, wc := Load(w[0], k), Load(w[1], k), Load(w[2], k);
      var v := Load(x[0], k);
      a00, a01, a02 := Fma8(o, v, wa, a00), Fma8(o, v, wb, a01), Fma8(o, v, wc, a02);
      v := Load(x[1], k);
      a10, a11, a12 := Fma8(o, v, wa, a10), Fma8(o, v, wb, a11), Fma8(o, v, wc, a12);
      v := Load(x[2], k);
      a20, a21, a22 := Fma8(o, v, wa, a20), Fma8(o, v, wb, a21), Fma8(o, v, wc, a22);
      v := Load(x[3], k);
      a30, a31, a32 := Fma8(o, v, wa, a30), Fma8(o, v, wb, a31), Fma8(o, v, wc, a32);
      k := k + 8;
    }
    var s00 := Hsum8(o, a00); var s01 := Hsum8(o, a01); var s02 := Hsum8(o, a02);
    var s10 := Hsum8(o, a10); var s11 := Hsum8(o, a11); var s12 := Hsum8(o, a12);
    var s20 := Hsum8(o, a20); var s21 := Hsum8(o, a21); var s22 := Hsum8(o, a22);
    var s30 := Hsum8(o, a30); var s31 := Hsum8(o, a31); var s32 := Hsum8(o, a32);
    s := [s00, s01, s02, s10, s11, s12, s20, s21, s22, s30, s31, s32];
  }

  /** The twelve rows, or weights, of a tile's outputs. */
  ghost function Spread(x: seq<seq<F32>>, w: seq<seq<F32>>): (p: (seq<seq<F32>>, seq<seq<F32>>))
    requires |x| == 4 && |w| == 3
    ensures |p.0| == |p.1| == 12 && forall q :: 0 <= q < 12 ==> p.0[q] == x[q / 3] && p.1[q] == w[q % 3]
  {
    (seq(12, q requires 0 <= q < 12 => x[q / 3]), seq(12, q requires 0 <= q < 12 => w[q % 3]))
  }

  /** A tile's twelve dot products: the sums, then the inputs left over, pair by pair. */
  method TileDots(o: Ops, x: seq<seq<F32>>, w: seq<seq<F32>>, n: nat) returns (s: array<F32>)
    requires |x| == 4 && |w| == 3 && (forall r :: 0 <= r < 4 ==> |x[r]| == n) &&
        (forall c :: 0 <= c < 3 ==> |w[c]| == n)
    ensures fresh(s) && s.Length == 12
    ensures forall q :: 0 <= q < 12 ==> s[q] == Dot(o, x[q / 3], w[q % 3])
  {
    hide Running;
    hide Sum8;
    var n8 := Eights(n);
    var start := TileSums(o, x, w, n);
    s := new F32[12](i requires 0 <= i < 12 => start[i]);
    ghost var (xs, ws) := Spread(x, w);
    hide Spread;
    var k := n8;
    while k < n
      invariant n8 <= k <= n
      invariant forall q :: 0 <= q < 12 ==> s[q] == OneByOne(o, xs[q], ws[q], n8, k, start[q])
    {
      LeftOver(o, x, w, k, n8, s, xs, ws, start);
      k := k + 1;
    }
  }

  /** One more input of every pair. */
  method LeftOver(o: Ops, x: seq<seq<F32>>, w: seq<seq<F32>>, k: nat, ghost n8: nat, s: array<F32>,
                  ghost xs: seq<seq<F32>>, ghost ws: seq<seq<F32>>, ghost start: seq<F32>)
    requires |x| == 4 && |w| == 3 && s.Length == |start| == 12 && (xs, ws) == Spread(x, w) && n8 <= k
    requires (forall r :: 0 <= r < 4 ==> |x[r]| > k) && (forall q :: 0 <= q < 12 ==> |xs[q]| == |ws[q]| > k)
    requires forall q :: 0 <= q < 12 ==> s[q] == OneByOne(o, xs[q], ws[q], n8, k, start[q])
    modifies s
    ensures forall q :: 0 <= q < 12 ==> s[q] == OneByOne(o, xs[q], ws[q], n8, k + 1, start[q])
  {
    ghost var was := s[..];
    for r := 0 to 4
      invariant forall q :: 3 * r <= q < 12 ==> s[q] == was[q]
      invariant forall q :: 0 <= q < 3 * r ==> s[q] == o.mac(was[q], xs[q][k], ws[q][k])
    {
      for c := 0 to 3
        invariant forall q :: 3 * r + c <= q < 12 ==> s[q] == was[q]
        invariant forall q :: 0 <= q < 3 * r + c ==> s[q] == o.mac(was[q], xs[q][k], ws[q][k])
      {
        assert (3 * r + c) / 3 == r && (3 * r + c) % 3 == c;
        assert |ws[3 * r + c]| > k;
        s[3 * r + c] := o.mac(s[3 * r + c], x[r][k], w[c][k]);
      }
    }
  }

  // ---- A product ----

  /** y[i][j] = b[j] + x[i] . w[j]: rows of x by rows of w, each laid out one after another. */
  datatype Product = Product(o: Ops, x: seq<F32>, rows: nat, w: seq<F32>, out: nat, b: Option<seq<F32>>, width: nat) {
    predicate Valid() { |x| == rows * width && |w| == out * width && (b.Some? ==> |b.value| == out) }

    function XRow(i: nat): (r: seq<F32>)
      requires Valid() && i < rows
      ensures |r| == width
    {
      RowFits(i, rows, width);
      x[i * width..i * width + width]
    }

    function WRow(j: nat): (r: seq<F32>)
      requires Valid() && j < out
      ensures |r| == width
    {
      RowFits(j, out, width);
      w[j * width..j * width + width]
    }

    function Bias(j: nat): F32
      requires Valid() && j < out
    {
      if b.Some? then b.value[j] else PLUS_ZERO
    }

    /** An output is its row's and its weights' alone. */
    function Output(i: nat, j: nat): F32
      requires Valid() && i < rows && j < out
    {
      o.add(Dot(o, XRow(i), WRow(j)), Bias(j))
    }
  }

  /** The products of n pairs side by side, from s in one and from t in the other, added up. */
  function Inner(x: seq<F32>, s: nat, w: seq<F32>, t: nat, n: nat): int
    requires s + n <= |x| && t + n <= |w|
    decreases n
  {
    if n == 0 then 0 else Inner(x, s, w, t, n - 1) + Mul(x[s + n - 1], w[t + n - 1])
  }

  lemma {:induction false} InnerIs(x: seq<F32>, s: nat, w: seq<F32>, t: nat, m: nat, n: nat)
    requires m <= n && s + n <= |x| && t + n <= |w|
    ensures Products(x[s..s + n], w[t..t + n], 0, m) == Inner(x, s, w, t, m)
    decreases m
  {
    hide Mul;
    if m > 0 { InnerIs(x, s, w, t, m - 1, n); }
  }

  /** An output is the matrices' own row and column multiplied out, and the bias: modulo 2^32 that sum. */
  lemma OutputAddsUp(p: Product, i: nat, j: nat)
    requires p.Valid() && p.o == MODULAR && i < p.rows && j < p.out
    ensures 0 <= i * p.width && 0 <= j * p.width
    ensures i * p.width + p.width <= |p.x| && j * p.width + p.width <= |p.w|
    ensures p.Output(i, j)
         == (Inner(p.x, i * p.width, p.w, j * p.width, p.width) + (if p.b.Some? then p.b.value[j] else 0)) %
            0x1_0000_0000
  {
    hide Dot;
    hide Products;
    hide Inner;
    RowFits(i, p.rows, p.width);
    RowFits(j, p.out, p.width);
    DotAddsUp(p.XRow(i), p.WRow(j));
    InnerIs(p.x, i * p.width, p.w, j * p.width, p.width, p.width);
    KeptMore(Inner(p.x, i * p.width, p.w, j * p.width, p.width), p.Bias(j));
  }

  lemma RowFits(i: nat, n: nat, width: nat)
    requires i < n
    ensures 0 <= i * width && i * width + width <= n * width
  {
    Factor(n, i, width);
  }

  function Cell(out: nat, i: nat, j: nat): nat { i * out + j }

  lemma CellFits(rows: nat, out: nat, i: nat, j: nat)
    requires i < rows && j < out
    ensures Cell(out, i, j) < rows * out
  {
    RowFits(i, rows, out);
  }

  lemma CellsApart(out: nat, i: nat, j: nat, i': nat, j': nat)
    requires j < out && j' < out && (i != i' || j != j')
    ensures Cell(out, i, j) != Cell(out, i', j')
  {
    if i < i' { RowFits(i, i', out); } else if i' < i { RowFits(i', i, out); }
  }

  /** Outputs i0 to i1 - 1 by j0 to j1 - 1. */
  ghost function Block(i0: nat, i1: nat, j0: nat, j1: nat): set<(nat, nat)> {
    set i: nat, j: nat | i0 <= i < i1 && j0 <= j < j1 :: (i, j)
  }

  /** An output that is done is what it should be, and any other cell as it was. */
  ghost predicate CellHolds(p: Product, y: seq<F32>, was: seq<F32>, done: set<(nat, nat)>, i: nat, j: nat)
    requires p.Valid() && |y| == |was| == p.rows * p.out && i < p.rows && j < p.out
  {
    CellFits(p.rows, p.out, i, j);
    y[Cell(p.out, i, j)] == if (i, j) in done then p.Output(i, j) else was[Cell(p.out, i, j)]
  }

  ghost predicate Holds(p: Product, y: seq<F32>, was: seq<F32>, done: set<(nat, nat)>)
    requires p.Valid()
  {
    |y| == |was| == p.rows * p.out && forall i: nat, j: nat :: i < p.rows && j < p.out ==>
        CellHolds(p, y, was, done, i, j)
  }

  lemma HoldsMore(p: Product, y: seq<F32>, was: seq<F32>, done: set<(nat, nat)>, i: nat, j: nat)
    requires p.Valid() && Holds(p, y, was, done) && i < p.rows && j < p.out
    ensures Cell(p.out, i, j) < |y|
    ensures Holds(p, y[Cell(p.out, i, j) := p.Output(i, j)], was, done + {(i, j)})
  {
    CellFits(p.rows, p.out, i, j);
    var more := y[Cell(p.out, i, j) := p.Output(i, j)];
    hide CellHolds;
    forall i': nat, j': nat | i' < p.rows && j' < p.out ensures CellHolds(p, more, was, done + {(i, j)}, i', j') {
      OneCell(p, y, was, done, i, j, i', j');
    }
  }

  lemma OneCell(p: Product, y: seq<F32>, was: seq<F32>, done: set<(nat, nat)>, i: nat, j: nat, i': nat, j': nat)
    requires p.Valid() && |y| == |was| == p.rows * p.out && i < p.rows && j < p.out && i' < p.rows && j' < p.out
    requires CellHolds(p, y, was, done, i', j')
    ensures Cell(p.out, i, j) < |y|
    ensures CellHolds(p, y[Cell(p.out, i, j) := p.Output(i, j)], was, done + {(i, j)}, i', j')
  {
    hide Cell;
    CellFits(p.rows, p.out, i, j);
    CellFits(p.rows, p.out, i', j');
    if (i', j') != (i, j) { CellsApart(p.out, i, j, i', j'); }
  }

  lemma Wider(i0: nat, i1: nat, j0: nat, j: nat, j1: nat)
    requires j0 <= j <= j1
    ensures Block(i0, i1, j0, j) + Block(i0, i1, j, j1) == Block(i0, i1, j0, j1)
  {
  }

  lemma Taller(i0: nat, i: nat, i1: nat, j0: nat, j1: nat)
    requires i0 <= i <= i1
    ensures Block(i0, i, j0, j1) + Block(i, i1, j0, j1) == Block(i0, i1, j0, j1)
  {
  }

  lemma Single(i: nat, j: nat)
    ensures Block(i, i + 1, j, j + 1) == {(i, j)}
  {
  }

  lemma Nothing(i0: nat, i1: nat, j0: nat, j1: nat)
    requires i0 == i1 || j0 == j1
    ensures Block(i0, i1, j0, j1) == {}
  {
  }

  lemma AlsoNothing(done: set<(nat, nat)>)
    ensures done + {} == done
  {
  }

  lemma Regroup(a: set<(nat, nat)>, b: set<(nat, nat)>, c: set<(nat, nat)>)
    ensures a + b + c == a + (b + c)
  {
  }

  // ---- The tiled product ----

  method Put(p: Product, y: array<F32>, i: nat, j: nat, v: F32, ghost was: seq<F32>, ghost done: set<(nat, nat)>)
    requires p.Valid() && i < p.rows && j < p.out && v == p.Output(i, j) && Holds(p, y[..], was, done)
    modifies y
    ensures Holds(p, y[..], was, done + Block(i, i + 1, j, j + 1))
  {
    hide Holds;
    hide Block;
    HoldsMore(p, y[..], was, done, i, j);
    Single(i, j);
    ghost var next := y[..][i * p.out + j := v];
    y[i * p.out + j] := v;
    assert y[..] == next;
  }

  /** A tile's twelve outputs, each its dot product and its bias. */
  method StoreTile(p: Product, y: array<F32>, i: nat, j: nat, s: array<F32>, ghost was: seq<F32>,
      ghost done: set<(nat, nat)>)
    requires p.Valid() && i + 4 <= p.rows && j + 3 <= p.out && s.Length == 12 && s != y
    requires forall q :: 0 <= q < 12 ==> s[..][q] == Dot(p.o, p.XRow(i + q / 3), p.WRow(j + q % 3))
    requires Holds(p, y[..], was, done)
    modifies y
    ensures Holds(p, y[..], was, done + Block(i, i + 4, j, j + 3))
  {
    hide Holds;
    hide Block;
    hide Dot;
    ghost var sums := s[..];
    Nothing(i, i, j, j + 3);
    AlsoNothing(done);
    for r := 0 to 4
      invariant s[..] == sums
      invariant Holds(p, y[..], was, done + Block(i, i + r, j, j + 3))
    {
      ghost var above := done + Block(i, i + r, j, j + 3);
      Nothing(i + r, i + r + 1, j, j);
      AlsoNothing(above);
      for c := 0 to 3
        invariant s[..] == sums
        invariant Holds(p, y[..], was, above + Block(i + r, i + r + 1, j, j + c))
      {
        assert (3 * r + c) / 3 == r && (3 * r + c) % 3 == c;
        assert s[3 * r + c] == sums[3 * r + c];
        Wider(i + r, i + r + 1, j, j + c, j + c + 1);
        Regroup(above, Block(i + r, i + r + 1, j, j + c), Block(i + r, i + r + 1, j + c, j + c + 1));
        Put(p, y, i + r, j + c, p.o.add(s[3 * r + c], p.Bias(j + c)), was, above + Block(i + r, i + r + 1, j, j + c));
      }
      Taller(i, i + r, i + r + 1, j, j + 3);
      Regroup(done, Block(i, i + r, j, j + 3), Block(i + r, i + r + 1, j, j + 3));
    }
  }

  /** Outputs of some rows, one dot product at a time. */
  method Singly(p: Product, y: array<F32>, i0: nat, i1: nat, j: nat, ghost was: seq<F32>, ghost done: set<(nat, nat)>)
    requires p.Valid() && i0 <= i1 <= p.rows && j < p.out && Holds(p, y[..], was, done)
    modifies y
    ensures Holds(p, y[..], was, done + Block(i0, i1, j, j + 1))
  {
    hide Holds;
    hide Block;
    hide Dot;
    Nothing(i0, i0, j, j + 1);
    AlsoNothing(done);
    for i := i0 to i1
      invariant Holds(p, y[..], was, done + Block(i0, i, j, j + 1))
    {
      var dot := DotAvx2(p.o, p.XRow(i), p.WRow(j));
      Taller(i0, i, i + 1, j, j + 1);
      Regroup(done, Block(i0, i, j, j + 1), Block(i, i + 1, j, j + 1));
      Put(p, y, i, j, p.o.add(dot, p.Bias(j)), was, done + Block(i0, i, j, j + 1));
    }
  }

  /** Four rows' outputs j0 to j1 - 1: tiles of three, then the outputs left over. */
  method FourRows(p: Product, y: array<F32>, i: nat, j0: nat, j1: nat, ghost was: seq<F32>, ghost done: set<(nat, nat)>)
    requires p.Valid() && i + 4 <= p.rows && j0 <= j1 <= p.out && Holds(p, y[..], was, done)
    modifies y
    ensures Holds(p, y[..], was, done + Block(i, i + 4, j0, j1))
  {
    hide Holds;
    hide Block;
    hide Dot;
    Nothing(i, i + 4, j0, j0);
    AlsoNothing(done);
    var x := seq(4, r requires 0 <= r < 4 => p.XRow(i + r));
    assert forall r :: 0 <= r < 4 ==> x[r] == p.XRow(i + r);
    var j := j0;
    while j + 3 <= j1
      invariant j0 <= j <= j1
      invariant Holds(p, y[..], was, done + Block(i, i + 4, j0, j))
    {
      var w := seq(3, c requires 0 <= c < 3 => p.WRow(j + c));
      assert forall c :: 0 <= c < 3 ==> w[c] == p.WRow(j + c);
      var s := TileDots(p.o, x, w, p.width);
      Wider(i, i + 4, j0, j, j + 3);
      Regroup(done, Block(i, i + 4, j0, j), Block(i, i + 4, j, j + 3));
      StoreTile(p, y, i, j, s, was, done + Block(i, i + 4, j0, j));
      j := j + 3;
    }
    while j < j1
      invariant j0 <= j <= j1
      invariant Holds(p, y[..], was, done + Block(i, i + 4, j0, j))
    {
      Wider(i, i + 4, j0, j, j + 1);
      Regroup(done, Block(i, i + 4, j0, j), Block(i, i + 4, j, j + 1));
      Singly(p, y, i, i + 4, j, was, done + Block(i, i + 4, j0, j));
      j := j + 1;
    }
  }

  /**
   * Outputs j0 to j1 - 1 of every row, four rows by three outputs at a time,
   * with what is left over of either: each is what one dot product alone
   * gives, and no other cell changes.
   */
  method DenseAvx2(p: Product, y: array<F32>, j0: nat, j1: nat, ghost was: seq<F32>, ghost done: set<(nat, nat)>)
    requires p.Valid() && j0 <= j1 <= p.out && Holds(p, y[..], was, done)
    modifies y
    ensures Holds(p, y[..], was, done + Block(0, p.rows, j0, j1))
  {
    hide Holds;
    hide Block;
    Nothing(0, 0, j0, j1);
    AlsoNothing(done);
    var i := 0;
    while i + 4 <= p.rows
      invariant i <= p.rows
      invariant Holds(p, y[..], was, done + Block(0, i, j0, j1))
    {
      Taller(0, i, i + 4, j0, j1);
      Regroup(done, Block(0, i, j0, j1), Block(i, i + 4, j0, j1));
      FourRows(p, y, i, j0, j1, was, done + Block(0, i, j0, j1));
      i := i + 4;
    }
    while i < p.rows
      invariant i <= p.rows
      invariant Holds(p, y[..], was, done + Block(0, i, j0, j1))
    {
      ghost var above := done + Block(0, i, j0, j1);
      Nothing(i, i + 1, j0, j0);
      AlsoNothing(above);
      for j := j0 to j1
        invariant Holds(p, y[..], was, above + Block(i, i + 1, j0, j))
      {
        Wider(i, i + 1, j0, j, j + 1);
        Regroup(above, Block(i, i + 1, j0, j), Block(i, i + 1, j, j + 1));
        Singly(p, y, i, i + 1, j, was, above + Block(i, i + 1, j0, j));
      }
      Taller(0, i, i + 1, j0, j1);
      Regroup(done, Block(0, i, j0, j1), Block(i, i + 1, j0, j1));
      i := i + 1;
    }
  }

  // ---- A product in chunks, a chunk a task ----

  const DENSE_CHUNK: nat := 24

  function Tasks(out: nat): nat { (out + DENSE_CHUNK - 1) / DENSE_CHUNK }

  /** A task's first output, and the one after its last. */
  function ChunkFrom(task: nat): nat { task * DENSE_CHUNK }

  function ChunkTo(out: nat, task: nat): nat { Min(ChunkFrom(task) + DENSE_CHUNK, out) }

  /** Every output is in one task's chunk and in no other's. */
  lemma OneTaskEach(out: nat, j: nat, task: nat)
    requires j < out
    ensures j / DENSE_CHUNK < Tasks(out)
    ensures ChunkFrom(task) <= j < ChunkTo(out, task) <==> task == j / DENSE_CHUNK
    ensures task < Tasks(out) ==> ChunkFrom(task) < out
  {
  }

  /** The outputs of some tasks. */
  ghost function Chunks(p: Product, ran: set<nat>): set<(nat, nat)> {
    set i: nat, j: nat | i < p.rows && j < p.out && j / DENSE_CHUNK in ran :: (i, j)
  }

  lemma OneChunkMore(p: Product, ran: set<nat>, task: nat)
    requires task < Tasks(p.out)
    ensures ChunkFrom(task) <= ChunkTo(p.out, task) <= p.out
    ensures Chunks(p, ran) + Block(0, p.rows, ChunkFrom(task), ChunkTo(p.out, task)) == Chunks(p, ran + {task})
  {
    var more := Chunks(p, ran) + Block(0, p.rows, ChunkFrom(task), ChunkTo(p.out, task));
    assert ChunkFrom(task) < p.out;
    forall i: nat, j: nat | i < p.rows && j < p.out
      ensures (i, j) in more <==> (i, j) in Chunks(p, ran + {task})
    {
      OneTaskEach(p.out, j, task);
    }
    assert forall c :: c in more ==> c.0 < p.rows && c.1 < p.out;
  }

  lemma AllChunks(p: Product, ran: set<nat>)
    requires forall t: nat :: t < Tasks(p.out) ==> t in ran
    ensures Chunks(p, ran) == Block(0, p.rows, 0, p.out)
  {
    forall i: nat, j: nat | i < p.rows && j < p.out ensures (i, j) in Chunks(p, ran) { OneTaskEach(p.out, j, 0); }
    assert Chunks(p, ran) <= Block(0, p.rows, 0, p.out);
  }

  /**
   * The whole product, its tasks shared out over a pool of threads: every output is what one dot
   * product alone gives. A task is one step here. Tasks that run beside each other write cells of
   * their own (OneTaskEach, CellsApart) and read none, so how their writes mix changes nothing.
   */
  method Dense(p: Product, y: array<F32>, threads: nat)
    requires p.Valid() && y.Length == p.rows * p.out && threads >= 1
    modifies y
    ensures forall i: nat, j: nat :: i < p.rows && j < p.out ==>
          Cell(p.out, i, j) < y.Length &&
          y[Cell(p.out, i, j)] == p.Output(i, j)
  {
    hide Chunks;
    hide Block;
    hide CellHolds;
    ghost var was := y[..];
    ghost var ran: set<nat> := {};
    var order := Pool.ShareOut(threads, Tasks(p.out));
    NoChunks(p);
    NoneDone(p, was);
    for k := 0 to |order|
      invariant (forall q :: 0 <= q < k ==> order[q].0 in ran) && Holds(p, y[..], was, Chunks(p, ran))
    {
      var task := order[k].0;
      OneChunkMore(p, ran, task);
      DenseAvx2(p, y, ChunkFrom(task), ChunkTo(p.out, task), was, Chunks(p, ran));
      ran := ran + {task};
    }
    forall t: nat | t < Tasks(p.out) ensures t in ran {
      assert Pool.HasTurn(order, t);
    }
    AllChunks(p, ran);
    AllDone(p, y[..], was);
  }

  lemma NoChunks(p: Product)
    ensures Chunks(p, {}) == {}
  {
  }

  lemma NoneDone(p: Product, y: seq<F32>)
    requires p.Valid() && |y| == p.rows * p.out
    ensures Holds(p, y, y, {})
  {
  }

  lemma AllDone(p: Product, y: seq<F32>, was: seq<F32>)
    requires p.Valid() && Holds(p, y, was, Block(0, p.rows, 0, p.out))
    ensures forall i: nat, j: nat :: i < p.rows && j < p.out ==>
          Cell(p.out, i, j) < |y| &&
          y[Cell(p.out, i, j)] == p.Output(i, j)
  {
    forall i: nat, j: nat | i < p.rows && j < p.out
      ensures Cell(p.out, i, j) < |y| && y[Cell(p.out, i, j)] == p.Output(i, j)
    {
      CellFits(p.rows, p.out, i, j);
      assert CellHolds(p, y, was, Block(0, p.rows, 0, p.out), i, j);
    }
  }
}
