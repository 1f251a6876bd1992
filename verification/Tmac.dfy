/**
 * The scalar ternary product by table lookup: activation tables per group of four columns, two rows
 * at a time, eight groups at a time, in cache blocks accumulated into the output.
 */
module Tmac {
  import opened Basics
  import opened Ternary
  import WorkRange

  const BLOCK := 256
  const PAR_THRESHOLD := 64

  // ---------------------------------------------------------------- one group

  /** Sum of the activations whose bit is set. */
  function SubsetSum(x: seq<int>, m: nat): int
    requires |x| == 4
  {
    (if Bit(m, 0) then x[0] else 0) + (if Bit(m, 1) then x[1] else 0)
    + (if Bit(m, 2) then x[2] else 0) + (if Bit(m, 3) then x[3] else 0)
  }

  ghost predicate IsLut(lut: seq<int>, x: seq<int>) {
    |lut| == 16 && |x| == 4 && forall m :: 0 <= m < 16 ==> lut[m] == SubsetSum(x, m)
  }

  lemma SumByRanges(x: seq<int>, m: nat)
    requires |x| == 4 && m < 16
    ensures SubsetSum(x, m) ==
              (if m % 2 == 1 then x[0] else 0) + (if m % 4 >= 2 then x[1] else 0)
              + (if m % 8 >= 4 then x[2] else 0) + (if m >= 8 then x[3] else 0)
  { }

  method BuildLut(x: seq<int>) returns (lut: seq<int>)
    requires |x| == 4
    ensures IsLut(lut, x)
  {
    var x0, x1, x2, x3 := x[0], x[1], x[2], x[3];
    var x01, x23 := x0 + x1, x2 + x3;
    lut := [0, x0, x1, x01, x2, x0 + x2, x1 + x2, x01 + x2,
            x3, x0 + x3, x1 + x3, x01 + x3, x23, x0 + x23, x1 + x23, x01 + x23];
    forall m | 0 <= m < 16 ensures lut[m] == SubsetSum(x, m) { SumByRanges(x, m); }
  }

  function GroupDot(b: Byte, x: seq<int>): int
    requires |x| == 4
  {
    Unpack(b, 0) * x[0] + Unpack(b, 1) * x[1] + Unpack(b, 2) * x[2] + Unpack(b, 3) * x[3]
  }

  /** Two lookups and a subtraction. */
  function Term(lut: seq<int>, b: Byte): int
    requires |lut| == 16
  {
    lut[PMask(b)] - lut[NMask(b)]
  }

  lemma OneWeight(b: Byte, j: nat, v: int)
    requires j < 4
    ensures (if Bit(PMask(b), j) then v else 0) - (if Bit(NMask(b), j) then v else 0) == Unpack(b, j) * v
  {
    MaskBits(b, 1, j);
    MaskBits(b, -1, j);
    var w := Unpack(b, j);
    assert w == -1 || w == 0 || w == 1;
  }

  /** Subset sums of the positive and of the negative weights differ by the four-weight product. */
  lemma TermIsGroupDot(lut: seq<int>, x: seq<int>, b: Byte)
    requires IsLut(lut, x)
    ensures Term(lut, b) == GroupDot(b, x)
  {
    OneWeight(b, 0, x[0]);
    OneWeight(b, 1, x[1]);
    OneWeight(b, 2, x[2]);
    OneWeight(b, 3, x[3]);
  }

  // ---------------------------------------------------------------- one block of one row

  ghost predicate Luts(luts: seq<seq<int>>, n: nat) { n <= |luts| && forall g :: 0 <= g < n ==> |luts[g]| == 16 }

  ghost function LutSum(luts: seq<seq<int>>, bytes: seq<Byte>, n: nat): int
    requires Luts(luts, n) && n <= |bytes|
  {
    if n == 0 then 0 else LutSum(luts, bytes, n - 1) + Term(luts[n - 1], bytes[n - 1])
  }

  ghost predicate LutsFor(luts: seq<seq<int>>, x: seq<int>, gStart: nat, n: nat) {
    && n <= |luts| && 4 * (gStart + n) <= |x|
    && forall g :: 0 <= g < n ==> IsLut(luts[g], x[4 * (gStart + g)..4 * (gStart + g) + 4])
  }

  lemma GroupStep(row: seq<Byte>, x: seq<int>, lo: nat, g: nat)
    requires g < |row| && lo <= 4 * g && 4 * g + 4 <= |x|
    ensures Dot(row, x, lo, 4 * g + 4) == Dot(row, x, lo, 4 * g) + GroupDot(row[g], x[4 * g..4 * g + 4])
  {
    var h := 4 * g;
    assert Dot(row, x, lo, h + 1) == Dot(row, x, lo, h) + Unpack(row[g], 0) * x[h];
    assert Dot(row, x, lo, h + 2) == Dot(row, x, lo, h + 1) + Unpack(row[g], 1) * x[h + 1];
    assert Dot(row, x, lo, h + 3) == Dot(row, x, lo, h + 2) + Unpack(row[g], 2) * x[h + 2];
    assert Dot(row, x, lo, h + 4) == Dot(row, x, lo, h + 3) + Unpack(row[g], 3) * x[h + 3];
  }

  /** A block of lookups is the product over the block's columns. */
  lemma {:induction false} LutSumIsDot(luts: seq<seq<int>>, bytes: seq<Byte>, row: seq<Byte>, x: seq<int>, gStart: nat,
                                       n: nat)
    requires LutsFor(luts, x, gStart, n) && gStart + n <= |row|
    requires n <= |bytes| && forall i :: 0 <= i < n ==> bytes[i] == row[gStart + i]
    ensures Luts(luts, n) && LutSum(luts, bytes, n) == Dot(row, x, 4 * gStart, 4 * (gStart + n))
  {
    if n > 0 {
      LutSumIsDot(luts, bytes, row, x, gStart, n - 1);
      LutStep(luts, row, x, gStart, n - 1);
    }
  }

  lemma LutStep(luts: seq<seq<int>>, row: seq<Byte>, x: seq<int>, gStart: nat, k: nat)
    requires LutsFor(luts, x, gStart, k + 1) && gStart + k < |row|
    ensures var g := gStart + k;
            |luts[k]| == 16 && Dot(row, x, 4 * gStart, 4 * (g + 1)) == Dot(row, x, 4 * gStart, 4 * g) + Term(luts[k], row[g])
  {
    var g := gStart + k;
    assert IsLut(luts[k], x[4 * g..4 * g + 4]);
    TermIsGroupDot(luts[k], x[4 * g..4 * g + 4], row[g]);
    GroupStep(row, x, 4 * gStart, g);
  }

  /** A block total fits a float exactly. */
  lemma BlockBound(row: seq<Byte>, x: seq<int>, gStart: nat, n: nat)
    requires n <= BLOCK && gStart + n <= |row| && 4 * (gStart + n) <= |x| && Int8(x)
    ensures -131072 <= Dot(row, x, 4 * gStart, 4 * (gStart + n)) <= 131072
  {
    DotBound(row, x, 4 * gStart, 4 * (gStart + n));
  }

  ghost function Term8(luts: seq<seq<int>>, bytes: seq<Byte>, g: nat): int
    requires Luts(luts, g + 8) && g + 8 <= |bytes|
  {
    Term(luts[g], bytes[g]) + Term(luts[g + 1], bytes[g + 1]) + Term(luts[g + 2], bytes[g + 2]) + Term(luts[g + 3], bytes[g + 3])
    + Term(luts[g + 4], bytes[g + 4]) + Term(luts[g + 5], bytes[g + 5]) + Term(luts[g + 6], bytes[g + 6]) + Term(luts[g + 7], bytes[g + 7])
  }

  lemma LutSum8(luts: seq<seq<int>>, bytes: seq<Byte>, g: nat)
    requires Luts(luts, g + 8) && g + 8 <= |bytes|
    ensures LutSum(luts, bytes, g + 8) == LutSum(luts, bytes, g) + Term8(luts, bytes, g)
  {
    assert LutSum(luts, bytes, g + 2) == LutSum(luts, bytes, g) + Term(luts[g], bytes[g]) + Term(luts[g + 1], bytes[g + 1]);
    assert LutSum(luts, bytes, g + 4) == LutSum(luts, bytes, g + 2) + Term(luts[g + 2], bytes[g + 2]) + Term(luts[g + 3], bytes[g + 3]);
    assert LutSum(luts, bytes, g + 6) == LutSum(luts, bytes, g + 4) + Term(luts[g + 4], bytes[g + 4]) + Term(luts[g + 5], bytes[g + 5]);
  }

  method LookUp(tb: Tables, lut: seq<int>, b: Byte) returns (v: int)
    requires tb.Ready() && |lut| == 16
    ensures v == Term(lut, b)
  {
    assert tb.Filled(b);
    v := lut[tb.pMask[b]] - lut[tb.nMask[b]];
  }

  method FourTerms(tb: Tables, luts: seq<seq<int>>, bytes: seq<Byte>, g: nat)
    returns (v0: int, v1: int, v2: int, v3: int)
    requires tb.Ready() && Luts(luts, g + 4) && g + 4 <= |bytes|
    ensures v0 == Term(luts[g], bytes[g]) && v1 == Term(luts[g + 1], bytes[g + 1])
    ensures v2 == Term(luts[g + 2], bytes[g + 2]) && v3 == Term(luts[g + 3], bytes[g + 3])
  {
    v0 := LookUp(tb, luts[g], bytes[g]);
    v1 := LookUp(tb, luts[g + 1], bytes[g + 1]);
    v2 := LookUp(tb, luts[g + 2], bytes[g + 2]);
    v3 := LookUp(tb, luts[g + 3], bytes[g + 3]);
  }

  /** What eight groups add to the four accumulators. */
  method EightTerms(tb: Tables, luts: seq<seq<int>>, bytes: seq<Byte>, g: nat)
    returns (v0: int, v1: int, v2: int, v3: int)
    requires tb.Ready() && Luts(luts, g + 8) && g + 8 <= |bytes|
    ensures v0 + v1 + v2 + v3 == Term8(luts, bytes, g)
  {
    var u0, u1, u2, u3 := FourTerms(tb, luts, bytes, g);
    var u4, u5, u6, u7 := FourTerms(tb, luts, bytes, g + 4);
    v0, v1, v2, v3 := u0 + u4, u1 + u5, u2 + u6, u3 + u7;
  }

  /** Four accumulators, eight groups at a time, then one group at a time. */
  method OneRow(tb: Tables, luts: seq<seq<int>>, bytes: seq<Byte>, n: nat) returns (total: int)
    requires tb.Ready() && Luts(luts, n) && n <= |bytes|
    ensures total == LutSum(luts, bytes, n)
  {
    var t0, t1, t2, t3 := 0, 0, 0, 0;
    var g := 0;
    while g + 8 <= n
      invariant g <= n && t0 + t1 + t2 + t3 == LutSum(luts, bytes, g)
    {
      var v0, v1, v2, v3 := EightTerms(tb, luts, bytes, g);
      t0, t1, t2, t3 := t0 + v0, t1 + v1, t2 + v2, t3 + v3;
      LutSum8(luts, bytes, g);
      g := g + 8;
    }
    total := t0 + t1 + t2 + t3;
    while g < n
      invariant g <= n && total == LutSum(luts, bytes, g)
    {
      var v := LookUp(tb, luts[g], bytes[g]);
      total := total + v;
      g := g + 1;
    }
  }

  /** The same for two rows side by side. */
  method TwoRows(tb: Tables, luts: seq<seq<int>>, rp0: seq<Byte>, rp1: seq<Byte>, n: nat)
    returns (total0: int, total1: int)
    requires tb.Ready() && Luts(luts, n) && n <= |rp0| && n <= |rp1|
    ensures total0 == LutSum(luts, rp0, n) && total1 == LutSum(luts, rp1, n)
  {
    var a0, a1, a2, a3 := 0, 0, 0, 0;
    var b0, b1, b2, b3 := 0, 0, 0, 0;
    var g := 0;
    while g + 8 <= n
      invariant g <= n && a0 + a1 + a2 + a3 == LutSum(luts, rp0, g) && b0 + b1 + b2 + b3 == LutSum(luts, rp1, g)
    {
      var u0, u1, u2, u3 := EightTerms(tb, luts, rp0, g);
      var v0, v1, v2, v3 := EightTerms(tb, luts, rp1, g);
      a0, a1, a2, a3 := a0 + u0, a1 + u1, a2 + u2, a3 + u3;
      b0, b1, b2, b3 := b0 + v0, b1 + v1, b2 + v2, b3 + v3;
      LutSum8(luts, rp0, g);
      LutSum8(luts, rp1, g);
      g := g + 8;
    }
    total0, total1 := TwoRowsTail(tb, luts, rp0, rp1, g, n, a0 + a1 + a2 + a3, b0 + b1 + b2 + b3);
  }

  /** The groups left over after the unrolled loop. */
  method TwoRowsTail(tb: Tables, luts: seq<seq<int>>, rp0: seq<Byte>, rp1: seq<Byte>, start: nat, n: nat, sum0: int,
                     sum1: int)
    returns (total0: int, total1: int)
    requires tb.Ready() && Luts(luts, n) && start <= n <= |rp0| && n <= |rp1|
    requires sum0 == LutSum(luts, rp0, start) && sum1 == LutSum(luts, rp1, start)
    ensures total0 == LutSum(luts, rp0, n) && total1 == LutSum(luts, rp1, n)
  {
    total0, total1 := sum0, sum1;
    for g := start to n
      invariant total0 == LutSum(luts, rp0, g) && total1 == LutSum(luts, rp1, g)
    {
      var u := LookUp(tb, luts[g], rp0[g]);
      var v := LookUp(tb, luts[g], rp1[g]);
      total0, total1 := total0 + u, total1 + v;
    }
  }

  // ---------------------------------------------------------------- rows

  /** `rows` rows of `stride` bytes each. */
  predicate Matrix(packed: seq<Byte>, stride: nat, rows: nat) { rows * stride <= |packed| }

  lemma RowInside(packed: seq<Byte>, stride: nat, rows: nat, r: nat)
    requires Matrix(packed, stride, rows) && r < rows
    ensures 0 <= r * stride <= r * stride + stride <= |packed|
  {
    assert (rows - r - 1) * stride >= 0;
    assert (rows - r - 1) * stride == rows * stride - r * stride - stride;
  }

  const INT_MAX := 0x7FFF_FFFF

  /** Every product of a row index and the stride is a 32-bit integer, as the source computes it. */
  ghost predicate OffsetsFit(rows: nat, stride: nat) { forall r: nat :: r < rows ==> IntTimes(r, stride) <= INT_MAX }

  lemma OffsetsFitIff(rows: nat, stride: nat)
    requires rows > 0
    ensures OffsetsFit(rows, stride) <==> (rows - 1) * stride <= INT_MAX
  {
    assert IntTimes(rows - 1, stride) == (rows - 1) * stride;
    forall r: nat | r < rows ensures IntTimes(r, stride) <= (rows - 1) * stride {
      assert (rows - 1 - r) * stride >= 0;
      assert (rows - 1 - r) * stride == (rows - 1) * stride - r * stride;
    }
  }

  function ByteIndex(r: nat, stride: nat, b: nat): int { IntTimes(r, stride) + b }

  /** So is every byte index, which the column tail of the lane kernel adds up as an integer. */
  ghost predicate IndicesFit(rows: nat, stride: nat) {
    forall r: nat, b: nat :: r < rows && b < stride ==> ByteIndex(r, stride, b) <= INT_MAX
  }

  lemma IndicesFitIff(rows: nat, stride: nat)
    requires rows > 0 && stride > 0
    ensures IndicesFit(rows, stride) <==> IntTimes(rows, stride) <= INT_MAX + 1
  {
    TimesNext(rows - 1, stride);
    assert ByteIndex(rows - 1, stride, stride - 1) == IntTimes(rows, stride) - 1;
    forall r: nat, b: nat | r < rows && b < stride ensures ByteIndex(r, stride, b) < IntTimes(rows, stride) {
      TimesNext(r, stride);
      TimesMonotone(r + 1, rows, stride);
    }
  }

  lemma TimesNext(r: nat, stride: nat)
    ensures IntTimes(r + 1, stride) == IntTimes(r, stride) + stride
  { }

  /** Both dimensions legal, 2^20 rows and 2^14 columns: the last offsets do not fit. */
  lemma OffsetsOverflow()
    ensures !OffsetsFit(0x10_0000, (0x4000 + 3) / 4)
  {
    OffsetsFitIff(0x10_0000, (0x4000 + 3) / 4);
  }

  function RowBytes(packed: seq<Byte>, stride: nat, rows: nat, r: nat): (row: seq<Byte>)
    requires Matrix(packed, stride, rows) && r < rows
    ensures |row| == stride
  {
    RowInside(packed, stride, rows, r);
    packed[r * stride..r * stride + stride]
  }

  predicate RowsOf(ws: seq<seq<Byte>>, stride: nat) { forall r :: 0 <= r < |ws| ==> |ws[r]| == stride }

  /** The row pointers of a packed matrix. */
  function RowPointers(packed: seq<Byte>, stride: nat, rows: nat): (ws: seq<seq<Byte>>)
    requires Matrix(packed, stride, rows)
    ensures |ws| == rows && RowsOf(ws, stride)
    ensures forall r :: 0 <= r < rows ==> ws[r] == RowBytes(packed, stride, rows, r)
  {
    seq(rows, (r: nat) requires r < rows && Matrix(packed, stride, rows) => RowBytes(packed, stride, rows, r))
  }

  function Scaled(total: int, inv: real): real { total as real * inv }

  lemma ScaledSum(a: int, b: int, inv: real)
    ensures Scaled(a + b, inv) == Scaled(a, inv) + Scaled(b, inv)
  { }

  datatype Block = Block(ws: seq<seq<Byte>>, stride: nat, luts: seq<seq<int>>, gStart: nat, n: nat, inv: real)
  {
    ghost predicate Valid() { RowsOf(ws, stride) && Luts(luts, n) && gStart + n <= stride }

    function Bytes(r: nat): (b: seq<Byte>)
      requires Valid() && r < |ws|
      ensures |b| == n
    {
      ws[r][gStart..gStart + n]
    }

    ghost function Total(r: nat): real
      requires Valid() && r < |ws|
    {
      Scaled(LutSum(luts, Bytes(r), n), inv)
    }
  }

  /** `out` with the block's totals added to the rows [lo, hi). */
  ghost predicate Added(w: Block, before: seq<real>, after: seq<real>, lo: nat, hi: nat)
    requires w.Valid()
  {
    && |after| == |before| == |w.ws| && lo <= hi <= |w.ws|
    && forall r :: 0 <= r < |w.ws| ==> after[r] == before[r] + if lo <= r < hi then w.Total(r) else 0.0
  }

  lemma AddedMore(w: Block, before: seq<real>, mid: seq<real>, after: seq<real>, lo: nat, r: nat)
    requires w.Valid() && r < |w.ws| && Added(w, before, mid, lo, r) && after == mid[r := mid[r] + w.Total(r)]
    ensures Added(w, before, after, lo, r + 1)
  { }

  method AddTotal(w: Block, r: nat, total: int, out: array<real>)
    requires w.Valid() && r < |w.ws| == out.Length && total == LutSum(w.luts, w.Bytes(r), w.n)
    modifies out
    ensures out[..] == old(out[..])[r := old(out[..])[r] + w.Total(r)]
  {
    out[r] := out[r] + Scaled(total, w.inv);
  }

  /** Rows in pairs, then the odd one. */
  method RowRange(tb: Tables, w: Block, rStart: nat, rEnd: nat, out: array<real>)
    requires tb.Ready() && w.Valid() && rStart <= rEnd <= |w.ws| == out.Length
    modifies out
    ensures Added(w, old(out[..]), out[..], rStart, rEnd)
  {
    ghost var before := out[..];
    var r := rStart;
    while r + 2 <= rEnd
      invariant rStart <= r <= rEnd && Added(w, before, out[..], rStart, r)
    {
      var total0, total1 := TwoRows(tb, w.luts, w.Bytes(r), w.Bytes(r + 1), w.n);
      ghost var mid := out[..];
      AddTotal(w, r, total0, out);
      AddedMore(w, before, mid, out[..], rStart, r);
      mid := out[..];
      AddTotal(w, r + 1, total1, out);
      AddedMore(w, before, mid, out[..], rStart, r + 1);
      r := r + 2;
    }
    while r < rEnd
      invariant rStart <= r <= rEnd && Added(w, before, out[..], rStart, r)
    {
      var total := OneRow(tb, w.luts, w.Bytes(r), w.n);
      ghost var mid := out[..];
      AddTotal(w, r, total, out);
      AddedMore(w, before, mid, out[..], rStart, r);
      r := r + 1;
    }
  }

  method RowWorker(tb: Tables, w: Block, tid: nat, nThreads: nat, out: array<real>)
    requires tb.Ready() && w.Valid() && nThreads > 0 && out.Length == |w.ws|
    modifies out
    ensures var r := WorkRange.Range(tid, nThreads, |w.ws|); Added(w, old(out[..]), out[..], r.0, r.1)
  {
    var r := WorkRange.Range(tid, nThreads, |w.ws|);
    if tid < nThreads { WorkRange.Within(tid, nThreads, |w.ws|); }
    RowRange(tb, w, r.0, r.1, out);
  }

  /** All workers of one block, in tid order; their rows are disjoint, so no order matters. */
  method BlockRows(tb: Tables, w: Block, nThreads: nat, out: array<real>)
    requires tb.Ready() && w.Valid() && nThreads > 0 && out.Length == |w.ws|
    modifies out
    ensures Added(w, old(out[..]), out[..], 0, |w.ws|)
  {
    WorkRange.Adjacent(0, nThreads, |w.ws|);
    WorkRange.Within(0, nThreads, |w.ws|);
    var tid := 0;
    while tid < nThreads
      invariant tid <= nThreads && WorkRange.Range(tid, nThreads, |w.ws|).0 <= |w.ws|
      invariant Added(w, old(out[..]), out[..], 0, WorkRange.Range(tid, nThreads, |w.ws|).0)
    {
      ghost var mid := out[..];
      RowWorker(tb, w, tid, nThreads, out);
      WorkRange.Within(tid, nThreads, |w.ws|);
      WorkRange.Adjacent(tid, nThreads, |w.ws|);
      AddedOn(w, old(out[..]), mid, out[..], WorkRange.Range(tid, nThreads, |w.ws|).0, WorkRange.Range(tid, nThreads, |w.ws|).1);
      tid := tid + 1;
    }
  }

  lemma AddedOn(w: Block, before: seq<real>, mid: seq<real>, after: seq<real>, m: nat, hi: nat)
    requires w.Valid() && Added(w, before, mid, 0, m) && Added(w, mid, after, m, hi)
    ensures Added(w, before, after, 0, hi)
  { }

  // ---------------------------------------------------------------- the whole product

  datatype Product = Product(ws: seq<seq<Byte>>, cols: nat, x: seq<int>, inv: real)
  {
    function Stride(): nat { (cols + 3) / 4 }

    ghost predicate Valid() { RowsOf(ws, Stride()) && cols <= |x| }

    /** Row `r` over the first `c` columns. */
    ghost function Part(r: nat, c: nat): real
      requires Valid() && r < |ws| && c <= cols
    {
      Scaled(Dot(ws[r], x, 0, c), inv)
    }
  }

  ghost predicate PartDone(p: Product, out: seq<real>, c: nat)
    requires p.Valid()
  {
    |out| == |p.ws| && c <= p.cols && forall r :: 0 <= r < |p.ws| ==> out[r] == p.Part(r, c)
  }

  function BlockOf(p: Product, luts: seq<seq<int>>, gStart: nat, n: nat): Block {
    Block(p.ws, p.Stride(), luts, gStart, n, p.inv)
  }

  lemma BlockRow(p: Product, luts: seq<seq<int>>, gStart: nat, n: nat, r: nat)
    requires p.Valid() && r < |p.ws| && LutsFor(luts, p.x, gStart, n) && 4 * (gStart + n) <= p.cols
    ensures BlockOf(p, luts, gStart, n).Valid()
    ensures p.Part(r, 4 * (gStart + n)) == p.Part(r, 4 * gStart) + BlockOf(p, luts, gStart, n).Total(r)
  {
    var a, b := Dot(p.ws[r], p.x, 0, 4 * gStart), Dot(p.ws[r], p.x, 4 * gStart, 4 * (gStart + n));
    LutSumIsDot(luts, p.ws[r][gStart..gStart + n], p.ws[r], p.x, gStart, n);
    DotSplit(p.ws[r], p.x, 0, 4 * gStart, 4 * (gStart + n));
    ScaledSum(a, b, p.inv);
  }

  lemma BlockDone(p: Product, luts: seq<seq<int>>, gStart: nat, n: nat, before: seq<real>, after: seq<real>)
    requires p.Valid() && LutsFor(luts, p.x, gStart, n) && 4 * (gStart + n) <= p.cols && PartDone(p, before, 4 * gStart)
    requires BlockOf(p, luts, gStart, n).Valid() && Added(BlockOf(p, luts, gStart, n), before, after, 0, |p.ws|)
    ensures PartDone(p, after, 4 * (gStart + n))
  {
    forall r | 0 <= r < |p.ws| ensures after[r] == p.Part(r, 4 * (gStart + n)) { BlockRow(p, luts, gStart, n, r); }
  }

  method BuildLuts(x: seq<int>, gStart: nat, n: nat, luts: array<seq<int>>)
    requires n <= luts.Length && 4 * (gStart + n) <= |x|
    modifies luts
    ensures LutsFor(luts[..], x, gStart, n)
  {
    var g := 0;
    while g < n
      invariant g <= n && LutsFor(luts[..], x, gStart, g)
    {
      ghost var before := luts[..];
      luts[g] := BuildLut(x[(gStart + g) * 4..(gStart + g) * 4 + 4]);
      assert luts[..] == before[g := luts[g]];
      g := g + 1;
    }
  }

  /** Fewer than four columns are left: plain multiplication. */
  method Remainder(tb: Tables, p: Product, r: nat) returns (total: int)
    requires tb.Ready() && p.Valid() && r < |p.ws|
    ensures total == Dot(p.ws[r], p.x, p.cols / 4 * 4, p.cols)
  {
    var row := p.ws[r];
    var start := p.cols / 4 * 4;
    var at, act := p.cols / 4, start;
    total := 0;
    var c := start;
    while c < p.cols
      invariant start <= c <= p.cols && act == c && at == c / 4 && total == Dot(row, p.x, start, c)
    {
      assert tb.Filled(row[at]);
      var w := tb.unpack[row[at], c % 4];
      total := total + w * p.x[act];
      act := act + 1;
      if c % 4 == 3 { at := at + 1; }
      c := c + 1;
    }
  }

  method RemainderRows(tb: Tables, p: Product, out: array<real>)
    requires tb.Ready() && p.Valid() && PartDone(p, out[..], p.cols / 4 * 4)
    modifies out
    ensures PartDone(p, out[..], p.cols)
  {
    ghost var before := out[..];
    for r := 0 to |p.ws|
      invariant out.Length == |p.ws|
      invariant forall q :: 0 <= q < |p.ws| ==> out[q] == if q < r then p.Part(q, p.cols) else before[q]
    {
      var total := Remainder(tb, p, r);
      DotSplit(p.ws[r], p.x, 0, p.cols / 4 * 4, p.cols);
      ScaledSum(Dot(p.ws[r], p.x, 0, p.cols / 4 * 4), total, p.inv);
      out[r] := out[r] + Scaled(total, p.inv);
    }
  }

  method Clear(p: Product, out: array<real>)
    requires p.Valid() && out.Length == |p.ws|
    modifies out
    ensures PartDone(p, out[..], 0)
  {
    for r := 0 to |p.ws|
      invariant forall q :: 0 <= q < r ==> out[q] == 0.0
    {
      out[r] := 0.0;
    }
  }

  method BlockLoop(tb: Tables, p: Product, nThreads: nat, luts: array<seq<int>>, out: array<real>)
    requires tb.Ready() && p.Valid() && nThreads > 0 && luts.Length == BLOCK && PartDone(p, out[..], 0)
    modifies out, luts
    ensures PartDone(p, out[..], p.cols / 4 * 4)
  {
    var nGroups := p.cols / 4;
    var gStart := 0;
    while gStart < nGroups
      invariant gStart <= nGroups && PartDone(p, out[..], 4 * gStart)
    {
      var gEnd := if gStart + BLOCK > nGroups then nGroups else gStart + BLOCK;
      var n := gEnd - gStart;
      BuildLuts(p.x, gStart, n, luts);
      ghost var before := out[..];
      BlockFits(p, luts[..], gStart, n);
      BlockRows(tb, BlockOf(p, luts[..], gStart, n), nThreads, out);
      BlockDone(p, luts[..], gStart, n, before, out[..]);
      gStart := gEnd;
    }
  }

  lemma BlockFits(p: Product, luts: seq<seq<int>>, gStart: nat, n: nat)
    requires p.Valid() && LutsFor(luts, p.x, gStart, n) && 4 * (gStart + n) <= p.cols
    ensures BlockOf(p, luts, gStart, n).Valid()
  { }

  /** Lookup tables, blocks, unrolling and remainder together are the scaled naive product. */
  method Forward(tb: Tables, packed: seq<Byte>, rows: nat, cols: nat, x: seq<int>, inv: real, poolThreads: nat,
                 luts: array<seq<int>>, out: array<real>)
    requires tb.Ready() && poolThreads > 0 && luts.Length == BLOCK && out.Length == rows
    requires Matrix(packed, (cols + 3) / 4, rows) && cols <= |x|
    modifies out, luts
    ensures forall r :: 0 <= r < rows ==> out[r] == Scaled(Dot(RowBytes(packed, (cols + 3) / 4, rows, r), x, 0, cols), inv)
  {
    var p := PackedProduct(packed, rows, cols, x, inv);
    var nThreads := if rows >= PAR_THRESHOLD && poolThreads > 1 then if rows < poolThreads then rows else poolThreads else 1;
    Clear(p, out);
    BlockLoop(tb, p, nThreads, luts, out);
    if cols / 4 * 4 < cols { RemainderRows(tb, p, out); }
    PartIsWhole(packed, rows, cols, x, inv, out[..]);
    assert forall r :: 0 <= r < rows ==> out[r] == out[..][r];
  }

  function PackedProduct(packed: seq<Byte>, rows: nat, cols: nat, x: seq<int>, inv: real): (p: Product)
    requires Matrix(packed, (cols + 3) / 4, rows) && cols <= |x|
    ensures p.Valid() && |p.ws| == rows && p.cols == cols
  {
    Product(RowPointers(packed, (cols + 3) / 4, rows), cols, x, inv)
  }

  lemma PartIsWhole(packed: seq<Byte>, rows: nat, cols: nat, x: seq<int>, inv: real, out: seq<real>)
    requires Matrix(packed, (cols + 3) / 4, rows) && cols <= |x|
    requires PartDone(PackedProduct(packed, rows, cols, x, inv), out, cols)
    ensures forall r :: 0 <= r < rows ==> out[r] == Scaled(Dot(RowBytes(packed, (cols + 3) / 4, rows, r), x, 0, cols), inv)
  { }
}
