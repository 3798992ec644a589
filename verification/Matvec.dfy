/**
 * A matrix kept in blocks of a packed format, multiplied a block at a time:
 * bit for bit what multiplying the widened float32 matrix gives.
 */
module Matvec {
  import opened Basics
  import opened Tiles

  function Sixteens(n: nat): (e: nat)
    ensures e <= n && e % 16 == 0
  {
    n / 16 * 16
  }

  /** Two times eight running sums, added, then the inputs left over. */
  function WideDot(o: Ops, a: seq<F32>, b: seq<F32>): F32
    requires |a| == |b|
  {
    var n16 := Sixteens(|a|);
    OneByOne(o, a, b, n16, |a|, Sum8(o, Add8(o, Running(o, a, b, 0, 16, n16), Running(o, a, b, 8, 16, n16))))
  }

  /** Sixteen at a time leave no pair out. */
  lemma {:induction false} StridedBySixteen(a: seq<F32>, b: seq<F32>, n: nat)
    requires 16 * n <= |a| == |b|
    ensures Strided(a, b, 0, 16, 16 * n) + Strided(a, b, 8, 16, 16 * n) == Products(a, b, 0, 16 * n)
    decreases n
  {
    hide *;
    if n == 0 {
      StridedNone(a, b, 0, 16);
      StridedNone(a, b, 8, 16);
    } else {
      var k := 16 * (n - 1);
      StridedBySixteen(a, b, n - 1);
      StridedMore(a, b, 0, 16, k);
      StridedMore(a, b, 8, 16, k);
      ProductsOn(a, b, 0, k, k + 16);
      ProductsOn(a, b, k, k + 8, k + 16);
    }
  }

  /** A row adds every product once: modulo 2^32 it is their sum. */
  lemma WideDotAddsUp(a: seq<F32>, b: seq<F32>)
    requires |a| == |b|
    ensures WideDot(MODULAR, a, b) == Products(a, b, 0, |a|) % 0x1_0000_0000
  {
    hide Products;
    hide Running;
    hide Sum8;
    hide Add8;
    hide Total;
    hide Same;
    hide OneByOne;
    LanesAddUp(a, b, |a| / 16, Sixteens(|a|));
  }

  lemma LanesAddUp(a: seq<F32>, b: seq<F32>, n: nat, k: nat)
    requires k <= |a| == |b| && k == 16 * n
    ensures var v := Add8(MODULAR, Running(MODULAR, a, b, 0, 16, k), Running(MODULAR, a, b, 8, 16, k));
            OneByOne(MODULAR, a, b, k, |a|, Sum8(MODULAR, v)) == Kept(Products(a, b, 0, |a|))
  {
    hide *;
    RunningAddsUp(a, b, 0, 16, k);
    RunningAddsUp(a, b, 8, 16, k);
    StridedBySixteen(a, b, n);
    var u, v := Running(MODULAR, a, b, 0, 16, k), Running(MODULAR, a, b, 8, 16, k);
    TotalOfSum(u, v);
    SameSum(Total(u), Strided(a, b, 0, 16, k), Total(v), Strided(a, b, 8, 16, k));
    SameAgain(Total(Add8(MODULAR, u, v)), Total(u) + Total(v), Products(a, b, 0, k));
    AddsUp(a, b, k, Add8(MODULAR, u, v));
  }

  lemma SameAgain(x: int, y: int, z: int)
    requires Same(x, y) && Same(y, z)
    ensures Same(x, z)
  {
  }

  /** A row of rows of numbers laid out one after another. */
  function RowOf(w: seq<F32>, rows: nat, cols: nat, r: nat): (row: seq<F32>)
    requires |w| == rows * cols && r < rows
    ensures |row| == cols
  {
    RowFits(r, rows, cols);
    w[r * cols..r * cols + cols]
  }

  /** An output of a matrix times a vector is its row multiplied out: modulo 2^32 that sum. */
  lemma RowAddsUp(w: seq<F32>, rows: nat, cols: nat, r: nat, x: seq<F32>)
    requires |w| == rows * cols && |x| == cols && r < rows
    ensures 0 <= r * cols && r * cols + cols <= |w|
    ensures WideDot(MODULAR, RowOf(w, rows, cols, r), x) == Inner(w, r * cols, x, 0, cols) % 0x1_0000_0000
  {
    hide WideDot;
    hide Products;
    hide Inner;
    RowFits(r, rows, cols);
    WideDotAddsUp(RowOf(w, rows, cols, r), x);
    InnerIs(w, r * cols, x, 0, cols, cols);
    assert x[0..0 + cols] == x;
  }

  /** A row, sixteen inputs at a time and then one at a time. */
  method DotWide(o: Ops, row: seq<F32>, x: seq<F32>) returns (sum: F32)
    requires |row| == |x|
    ensures sum == WideDot(o, row, x)
  {
    hide Running;
    hide Sum8;
    hide Add8;
    hide Fma8;
    var cols := |x|;
    var a0, a1 := ZEROS, ZEROS;
    RunningNone(o, row, x, 0, 16);
    RunningNone(o, row, x, 8, 16);
    var c := 0;
    while c + 16 <= cols
      invariant c <= cols && c % 16 == 0 && a0 == Running(o, row, x, 0, 16, c) && a1 == Running(o, row, x, 8, 16, c)
    {
      RunningMore(o, row, x, 0, 16, c);
      RunningMore(o, row, x, 8, 16, c);
      a0 := Fma8(o, Load(row, c), Load(x, c), a0);
      a1 := Fma8(o, Load(row, c + 8), Load(x, c + 8), a1);
      c := c + 16;
    }
    sum := Hsum8(o, Add8(o, a0, a1));
    ghost var start, n16 := sum, c;
    assert n16 == Sixteens(cols);
    while c < cols
      invariant n16 <= c <= cols && sum == OneByOne(o, row, x, n16, c, start)
    {
      sum := o.mac(sum, row[c], x[c]);
      c := c + 1;
    }
  }

  method MatvecF32(o: Ops, w: seq<F32>, x: seq<F32>, y: array<F32>, rows: nat, cols: nat)
    requires |w| == rows * cols && |x| == cols && y.Length == rows
    modifies y
    ensures forall r :: 0 <= r < rows ==> y[r] == WideDot(o, RowOf(w, rows, cols, r), x)
  {
    hide WideDot;
    hide RowOf;
    for r := 0 to rows
      invariant forall q :: 0 <= q < r ==> y[q] == WideDot(o, RowOf(w, rows, cols, q), x)
    {
      y[r] := DotWide(o, RowOf(w, rows, cols, r), x);
    }
  }

  // ---- Blocks ----

  const BLOCK_MAX: nat := 256

  /** A packed format: so many weights in so many bytes, and what a block's bytes are as floats. */
  datatype Format = Format(elems: nat, bytes: nat, widen: Bytes -> seq<F32>)

  ghost predicate WfFormat(f: Format) {
    && 0 < f.elems <= BLOCK_MAX && f.elems % 16 == 0
    && forall b: Bytes :: |b| == f.bytes ==> |f.widen(b)| == f.elems
  }

  /** k * n, added up. */
  function Times(k: nat, n: nat): nat { if k == 0 then 0 else Times(k - 1, n) + n }

  lemma {:induction false} TimesIs(k: nat, n: nat)
    ensures Times(k, n) == k * n
  {
    if k > 0 {
      TimesIs(k - 1, n);
      NextBlock(k - 1, n);
    }
  }

  lemma {:induction false} TimesUpTo(a: nat, b: nat, n: nat)
    requires a <= b
    ensures Times(a, n) <= Times(b, n)
    decreases b
  {
    if a < b { TimesUpTo(a, b - 1, n); }
  }

  function BlockOf(f: Format, row: Bytes, k: nat): (b: Bytes)
    requires Times(k, f.bytes) + f.bytes <= |row|
    ensures |b| == f.bytes
  {
    row[Times(k, f.bytes)..Times(k, f.bytes) + f.bytes]
  }

  /** A row's first blocks, each widened. */
  function Widened(f: Format, row: Bytes, blocks: nat): (w: seq<F32>)
    requires WfFormat(f) && |row| == Times(blocks, f.bytes)
    ensures |w| == Times(blocks, f.elems)
    decreases blocks
  {
    if blocks == 0 then []
    else
      var most := Times(blocks - 1, f.bytes);
      Widened(f, row[..most], blocks - 1) + f.widen(row[most..])
  }

  lemma InHead<T>(head: seq<T>, last: seq<T>, e: nat, n: nat)
    requires e + n <= |head|
    ensures (head + last)[e..e + n] == head[e..e + n]
  {
  }

  /** Each block's weights are where the row's are. */
  lemma {:induction false} WidenedBlock(f: Format, row: Bytes, blocks: nat, k: nat)
    requires WfFormat(f) && |row| == Times(blocks, f.bytes) && k < blocks
    ensures Times(k, f.bytes) + f.bytes <= |row| && Times(k, f.elems) + f.elems <= Times(blocks, f.elems)
    ensures var e := Times(k, f.elems); Widened(f, row, blocks)[e..e + f.elems] == f.widen(BlockOf(f, row, k))
    decreases blocks
  {
    hide Widened;
    TimesUpTo(k + 1, blocks, f.bytes);
    TimesUpTo(k + 1, blocks, f.elems);
    WidenedMore(f, row, blocks - 1);
    var most := Times(blocks - 1, f.bytes);
    var head, last := Widened(f, row[..most], blocks - 1), f.widen(row[most..]);
    if k < blocks - 1 {
      TimesUpTo(k + 1, blocks - 1, f.bytes);
      TimesUpTo(k + 1, blocks - 1, f.elems);
      WidenedBlock(f, row[..most], blocks - 1, k);
      assert BlockOf(f, row[..most], k) == BlockOf(f, row, k);
      InHead(head, last, Times(k, f.elems), f.elems);
    } else {
      assert BlockOf(f, row, k) == row[most..];
    }
  }

  /** A block widened into the buffer. */
  method Dequant(f: Format, src: Bytes, buf: array<F32>)
    requires WfFormat(f) && |src| == f.bytes && buf.Length == BLOCK_MAX
    modifies buf
    ensures buf[..f.elems] == f.widen(src)
  {
    var w := f.widen(src);
    for i := 0 to f.elems
      invariant buf[..i] == w[..i]
    {
      buf[i] := w[i];
    }
  }

  /** A packed row, a block at a time: the sums run on from block to block. */
  method DotBlocks(o: Ops, f: Format, row: Bytes, blocks: nat, x: seq<F32>, buf: array<F32>) returns (sum: F32)
    requires WfFormat(f) && |row| == Times(blocks, f.bytes) && |x| == Times(blocks, f.elems)
    requires buf.Length == BLOCK_MAX
    modifies buf
    ensures sum == WideDot(o, Widened(f, row, blocks), x)
  {
    hide Running;
    hide Sum8;
    hide Add8;
    hide Fma8;
    hide Widened;
    hide BlockOf;
    hide Lane;
    ghost var wide := Widened(f, row, blocks);
    var a0, a1 := ZEROS, ZEROS;
    RunningNone(o, wide, x, 0, 16);
    RunningNone(o, wide, x, 8, 16);
    var c := 0;
    for k := 0 to blocks
      invariant c == Times(k, f.elems) <= |x| && c % 16 == 0
      invariant a0 == Running(o, wide, x, 0, 16, c) && a1 == Running(o, wide, x, 8, 16, c)
    {
      AtBlock(f, row, blocks, k, c);
      Dequant(f, BlockOf(f, row, c / f.elems), buf);
      a0, a1 := DotBlock(o, wide, x, c, f.elems, buf, a0, a1);
      c := c + f.elems;
    }
    sum := Hsum8(o, Add8(o, a0, a1));
    assert Sixteens(|x|) == |x|;
  }

  lemma AtBlock(f: Format, row: Bytes, blocks: nat, k: nat, c: nat)
    requires WfFormat(f) && |row| == Times(blocks, f.bytes) && k < blocks && c == Times(k, f.elems) && c % 16 == 0
    ensures c / f.elems == k && Times(k, f.bytes) + f.bytes <= |row|
    ensures c + f.elems == Times(k + 1, f.elems) <= Times(blocks, f.elems) && (c + f.elems) % 16 == 0
    ensures Widened(f, row, blocks)[c..c + f.elems] == f.widen(BlockOf(f, row, k))
  {
    hide Widened;
    hide WfFormat;
    hide BlockOf;
    Aligned(f, c);
    Quotient(k, f.elems);
    TimesIs(k, f.elems);
    TimesUpTo(k + 1, blocks, f.elems);
    WidenedBlock(f, row, blocks, k);
  }

  lemma Aligned(f: Format, c: nat)
    requires WfFormat(f) && c % 16 == 0
    ensures f.elems > 0 && (c + f.elems) % 16 == 0
  {
  }

  lemma Quotient(k: nat, n: nat)
    requires n > 0
    ensures k * n / n == k
  {
    Euclid(k * n, n);
    Factor(k, k * n / n, n);
    Factor(k * n / n, k, n);
  }

  lemma NextBlock(k: nat, n: nat)
    ensures (k + 1) * n == k * n + n
  {
  }

  /** One widened block, sixteen weights at a time. */
  method DotBlock(o: Ops, ghost wide: seq<F32>, x: seq<F32>, c: nat, elems: nat, buf: array<F32>, b0: Lanes, b1: Lanes)
    returns (a0: Lanes, a1: Lanes)
    requires |wide| == |x| && c + elems <= |x| && c % 16 == 0 && elems % 16 == 0 && elems <= buf.Length
    requires buf[..elems] == wide[c..c + elems]
    requires b0 == Running(o, wide, x, 0, 16, c) && b1 == Running(o, wide, x, 8, 16, c)
    ensures a0 == Running(o, wide, x, 0, 16, c + elems) && a1 == Running(o, wide, x, 8, 16, c + elems)
  {
    hide Running;
    hide Fma8;
    a0, a1 := b0, b1;
    var i := 0;
    while i < elems
      invariant i <= elems && i % 16 == 0
      invariant a0 == Running(o, wide, x, 0, 16, c + i) && a1 == Running(o, wide, x, 8, 16, c + i)
    {
      RunningMore(o, wide, x, 0, 16, c + i);
      RunningMore(o, wide, x, 8, 16, c + i);
      SamePart(buf[..elems], wide, c, i);
      SamePart(buf[..elems], wide, c, i + 8);
      a0 := Fma8(o, Load(buf[..elems], i), Load(x, c + i), a0);
      a1 := Fma8(o, Load(buf[..elems], i + 8), Load(x, c + i + 8), a1);
      i := i + 16;
    }
  }

  lemma SamePart(part: seq<F32>, whole: seq<F32>, c: nat, i: nat)
    requires c + |part| <= |whole| && part == whole[c..c + |part|] && i + 8 <= |part|
    ensures Load(part, i) == Load(whole, c + i)
  {
    forall q | 0 <= q < 8 ensures Load(part, i)[q] == Load(whole, c + i)[q] {
      assert part[i + q] == whole[c + (i + q)];
    }
  }

  /** A run of blocks is widened as it is among the others. */
  lemma {:induction false} WidenedRun(f: Format, w: Bytes, n: nat, a: nat, b: nat)
    requires WfFormat(f) && |w| == Times(n, f.bytes) && a <= b <= n
    ensures Times(a, f.bytes) <= Times(b, f.bytes) <= |w| && Times(a, f.elems) <= Times(b, f.elems) <= Times(n, f.elems)
    ensures Times(b, f.bytes) - Times(a, f.bytes) == Times(b - a, f.bytes)
    ensures Widened(f, w, n)[Times(a, f.elems)..Times(b, f.elems)] ==
        Widened(f, w[Times(a, f.bytes)..Times(b, f.bytes)], b - a)
    decreases b
  {
    hide WfFormat;
    hide Widened;
    TimesUpTo(a, b, f.bytes);
    TimesUpTo(b, n, f.bytes);
    TimesUpTo(a, b, f.elems);
    TimesUpTo(b, n, f.elems);
    if a == b {
      NoBlocks(f);
      assert w[Times(a, f.bytes)..Times(b, f.bytes)] == [];
    } else {
      WidenedRun(f, w, n, a, b - 1);
      WidenedBlock(f, w, n, b - 1);
      RunOneMore(f, w, n, b - 1 - a, Times(a, f.bytes), Times(b - 1, f.bytes), Times(a, f.elems),
          Times(b - 1, f.elems));
    }
  }

  lemma NoBlocks(f: Format)
    requires WfFormat(f)
    ensures Widened(f, [], 0) == []
  {
  }

  /** The run up to a block and that block: p0 to p1 the run's bytes, e0 to e1 its weights. */
  lemma RunOneMore(f: Format, w: Bytes, n: nat, k: nat, p0: nat, p1: nat, e0: nat, e1: nat)
    requires WfFormat(f) && |w| == Times(n, f.bytes) && p0 <= p1 && p1 + f.bytes <= |w| && p1 - p0 == Times(k, f.bytes)
    requires e0 <= e1 && e1 + f.elems <= |Widened(f, w, n)|
    requires Widened(f, w, n)[e0..e1] == Widened(f, w[p0..p1], k)
    requires Widened(f, w, n)[e1..e1 + f.elems] == f.widen(w[p1..p1 + f.bytes])
    ensures Widened(f, w, n)[e0..e1 + f.elems] == Widened(f, w[p0..p1 + f.bytes], k + 1)
  {
    hide Widened;
    assert Times(k + 1, f.bytes) == p1 + f.bytes - p0;
    WidenedMore(f, w[p0..p1 + f.bytes], k);
    Cuts(w, p0, p1, p1 + f.bytes);
    Cuts(Widened(f, w, n), e0, e1, e1 + f.elems);
  }

  lemma Cuts<T>(s: seq<T>, i: nat, j: nat, k: nat)
    requires i <= j <= k <= |s|
    ensures s[i..k] == s[i..j] + s[j..k] && s[i..k][..j - i] == s[i..j] && s[i..k][j - i..] == s[j..k]
  {
  }

  lemma WidenedMore(f: Format, w: Bytes, k: nat)
    requires WfFormat(f) && |w| == Times(k + 1, f.bytes)
    ensures var p := Times(k, f.bytes);
            p <= |w| && Widened(f, w, k + 1) == Widened(f, w[..p], k) + f.widen(w[p..])
  {
  }

  /** The blocks of the rows before, counted row by row. */
  lemma {:induction false} TimesTwice(r: nat, blocks: nat, n: nat)
    ensures Times(r * blocks, n) == r * Times(blocks, n)
  {
    TimesIs(r * blocks, n);
    TimesIs(blocks, n);
    Regrouped(r, blocks, n);
  }

  lemma Regrouped(r: nat, blocks: nat, n: nat)
    ensures r * blocks * n == r * (blocks * n)
  {
  }

  /** A row of the widened matrix is the widened row. */
  lemma WidenedRow(f: Format, w: Bytes, rows: nat, blocks: nat, r: nat)
    requires WfFormat(f) && |w| == Times(rows * blocks, f.bytes) && r < rows
    ensures var cols, rowBytes := Times(blocks, f.elems), Times(blocks, f.bytes);
            && |Widened(f, w, rows * blocks)| == rows * cols
            && 0 <= r * rowBytes && r * rowBytes + rowBytes <= |w|
            && RowOf(Widened(f, w, rows * blocks), rows, cols, r) ==
                 Widened(f, w[r * rowBytes..r * rowBytes + rowBytes], blocks)
  {
    hide Widened;
    hide WfFormat;
    hide Times;
    var cols, rowBytes := Times(blocks, f.elems), Times(blocks, f.bytes);
    TimesTwice(rows, blocks, f.elems);
    TimesTwice(r, blocks, f.elems);
    TimesTwice(r, blocks, f.bytes);
    TimesTwice(r + 1, blocks, f.elems);
    TimesTwice(r + 1, blocks, f.bytes);
    NextBlock(r, cols);
    NextBlock(r, rowBytes);
    NextBlock(r, blocks);
    RowFits(r, rows, blocks);
    WidenedRun(f, w, rows * blocks, r * blocks, (r + 1) * blocks);
    OneRow(f, w, rows, blocks, r, cols, rowBytes, r * cols, r * rowBytes);
  }

  lemma OneRow(f: Format, w: Bytes, rows: nat, blocks: nat, r: nat, cols: nat, rowBytes: nat, e: nat, p: nat)
    requires WfFormat(f) && |w| == Times(rows * blocks, f.bytes) && r < rows && rowBytes == Times(blocks, f.bytes)
    requires e == r * cols && p + rowBytes <= |w| && |Widened(f, w, rows * blocks)| == rows * cols
    requires e + cols <= rows * cols
    requires Widened(f, w, rows * blocks)[e..e + cols] == Widened(f, w[p..p + rowBytes], blocks)
    ensures RowOf(Widened(f, w, rows * blocks), rows, cols, r) == Widened(f, w[p..p + rowBytes], blocks)
  {
    hide Widened;
    hide Times;
  }

  /**
   * The packed matrix times x is, bit for bit, the widened matrix times x: a
   * row is whole blocks, and so are its bytes.
   */
  method MatvecBlocks(o: Ops, f: Format, w: Bytes, x: seq<F32>, y: array<F32>, rows: nat, blocks: nat)
    requires WfFormat(f) && |w| == Times(rows * blocks, f.bytes) && |x| == Times(blocks, f.elems) && y.Length == rows
    modifies y
    ensures |Widened(f, w, rows * blocks)| == rows * |x|
    ensures forall r :: 0 <= r < rows ==> y[r] == WideDot(o, RowOf(Widened(f, w, rows * blocks), rows, |x|, r), x)
  {
    hide WideDot;
    hide RowOf;
    hide Widened;
    hide WfFormat;
    hide Times;
    TimesTwice(rows, blocks, f.elems);
    ghost var wide := Widened(f, w, rows * blocks);
    var buf := new F32[BLOCK_MAX];
    var rowBytes := Times(blocks, f.bytes);
    for r := 0 to rows
      invariant forall q :: 0 <= q < r ==> y[q] == WideDot(o, RowOf(wide, rows, |x|, q), x)
    {
      WidenedRow(f, w, rows, blocks, r);
      y[r] := DotBlocks(o, f, w[r * rowBytes..r * rowBytes + rowBytes], blocks, x, buf);
    }
  }
}
