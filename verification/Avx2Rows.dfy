/** The AVX2 row loops: eight rows at a time, four, one; 32 columns at a time, then one. */
module Avx2Rows {
  import opened Ternary
  import opened Avx2
  import Tmac

  // ---------------------------------------------------------------- accumulation over columns

  predicate Fits(row: seq<Byte>, x: seq<int>, cols: nat) { cols <= |x| && cols <= 4 * |row| && Int8(x) }

  /** The 32 activations and the 8 bytes of step `n`. */
  function Acts(x: seq<int>, n: nat): (r: seq<int>)
    requires 32 * n + 32 <= |x|
    ensures |r| == 32 && (Int8(x) ==> Int8(r))
  {
    x[32 * n..32 * n + 32]
  }

  function Raw(row: seq<Byte>, n: nat): (r: seq<Byte>)
    requires 8 * n + 8 <= |row|
    ensures |r| == 8
  {
    row[8 * n..8 * n + 8]
  }

  /** What lane `m` should hold after `n` steps of 32 columns. */
  ghost function LaneSum(row: seq<Byte>, x: seq<int>, n: nat, m: nat): int
    requires 32 * n <= |x| && 8 * n <= |row| && m < 8
  {
    if n == 0 then 0 else LaneSum(row, x, n - 1, m) + LaneProduct(Acts(x, n - 1), Raw(row, n - 1), m)
  }

  ghost predicate Lanes(row: seq<Byte>, x: seq<int>, n: nat, acc: seq<int>) {
    && 32 * n <= |x| && 8 * n <= |row| && |acc| == 8
    && forall m :: 0 <= m < 8 ==> acc[m] == LaneSum(row, x, n, m)
  }

  lemma {:induction false} LaneSumBound(row: seq<Byte>, x: seq<int>, n: nat, m: nat)
    requires 32 * n <= |x| && 8 * n <= |row| && m < 8 && Int8(x)
    ensures -512 * n <= LaneSum(row, x, n, m) <= 512 * n
  {
    if n > 0 {
      LaneSumBound(row, x, n - 1, m);
      LaneBound(Acts(x, n - 1), Raw(row, n - 1), m);
    }
  }

  lemma ByteDotIs(row: seq<Byte>, x: seq<int>, n: nat, j: nat)
    requires 32 * n + 32 <= |x| && 8 * n + 8 <= |row| && j < 8
    ensures Dot(row, x, 0, 32 * n + 4 * j + 4) == Dot(row, x, 0, 32 * n + 4 * j) + ByteDot(Acts(x, n), Raw(row, n), j)
  {
    var g := 8 * n + j;
    Tmac.GroupStep(row, x, 0, g);
    GroupIsByteDot(row, x, n, j);
  }

  lemma GroupIsByteDot(row: seq<Byte>, x: seq<int>, n: nat, j: nat)
    requires 32 * n + 32 <= |x| && 8 * n + 8 <= |row| && j < 8
    ensures var g := 8 * n + j;
            Tmac.GroupDot(row[g], x[4 * g..4 * g + 4]) == ByteDot(Acts(x, n), Raw(row, n), j)
  {
    var g := 8 * n + j;
    assert Raw(row, n)[j] == row[g];
    var xs, acts := x[4 * g..4 * g + 4], Acts(x, n);
    assert xs == acts[4 * j..4 * j + 4];
    assert xs[0] == acts[4 * j] && xs[1] == acts[4 * j + 1] && xs[2] == acts[4 * j + 2] && xs[3] == acts[4 * j + 3];
  }

  ghost function BytesUpTo(xs: seq<int>, raw: seq<Byte>, j: nat): int
    requires |xs| == 32 && |raw| == 8 && j <= 8
  {
    if j == 0 then 0 else BytesUpTo(xs, raw, j - 1) + ByteDot(xs, raw, j - 1)
  }

  lemma {:induction false} BytesAreDot(row: seq<Byte>, x: seq<int>, n: nat, j: nat)
    requires 32 * n + 32 <= |x| && 8 * n + 8 <= |row| && j <= 8
    ensures Dot(row, x, 0, 32 * n + 4 * j) == Dot(row, x, 0, 32 * n) + BytesUpTo(Acts(x, n), Raw(row, n), j)
  {
    if j > 0 {
      BytesAreDot(row, x, n, j - 1);
      ByteDotIs(row, x, n, j - 1);
    }
  }

  lemma BytesAll(xs: seq<int>, raw: seq<Byte>)
    requires |xs| == 32 && |raw| == 8
    ensures BytesUpTo(xs, raw, 8) == ByteDot(xs, raw, 0) + ByteDot(xs, raw, 1) + ByteDot(xs, raw, 2) + ByteDot(xs, raw, 3)
                                     + ByteDot(xs, raw, 4) + ByteDot(xs, raw, 5) + ByteDot(xs, raw, 6) + ByteDot(xs, raw, 7)
  {
    assert BytesUpTo(xs, raw, 1) == ByteDot(xs, raw, 0);
    assert BytesUpTo(xs, raw, 3) == BytesUpTo(xs, raw, 1) + ByteDot(xs, raw, 1) + ByteDot(xs, raw, 2);
    assert BytesUpTo(xs, raw, 5) == BytesUpTo(xs, raw, 3) + ByteDot(xs, raw, 3) + ByteDot(xs, raw, 4);
    assert BytesUpTo(xs, raw, 7) == BytesUpTo(xs, raw, 5) + ByteDot(xs, raw, 5) + ByteDot(xs, raw, 6);
  }

  lemma Dot32(row: seq<Byte>, x: seq<int>, n: nat, v: seq<int>)
    requires 32 * n + 32 <= |x| && 8 * n + 8 <= |row| && |v| == 8
    requires forall m :: 0 <= m < 8 ==> v[m] == LaneProduct(Acts(x, n), Raw(row, n), m)
    ensures Dot(row, x, 0, 32 * n + 32) == Dot(row, x, 0, 32 * n) + LaneTotal(v)
  {
    LanesAreBytes(Acts(x, n), Raw(row, n), v);
    BytesAll(Acts(x, n), Raw(row, n));
    BytesAreDot(row, x, n, 8);
  }

  lemma LaneTotalAdd(acc: seq<int>, prev: seq<int>, v: seq<int>)
    requires |acc| == |prev| == |v| == 8 && forall m :: 0 <= m < 8 ==> acc[m] == prev[m] + v[m]
    ensures LaneTotal(acc) == LaneTotal(prev) + LaneTotal(v)
  { }

  ghost function LaneSums(row: seq<Byte>, x: seq<int>, n: nat): (r: seq<int>)
    requires 32 * n <= |x| && 8 * n <= |row|
    ensures Lanes(row, x, n, r)
  {
    seq(8, (m: nat) requires m < 8 && 32 * n <= |x| && 8 * n <= |row| => LaneSum(row, x, n, m))
  }

  ghost function LaneProducts(xs: seq<int>, raw: seq<Byte>): (r: seq<int>)
    requires |xs| == 32 && |raw| == 8
    ensures |r| == 8 && forall m :: 0 <= m < 8 ==> r[m] == LaneProduct(xs, raw, m)
  {
    seq(8, (m: nat) requires m < 8 && |xs| == 32 && |raw| == 8 => LaneProduct(xs, raw, m))
  }

  lemma LaneSumStep(row: seq<Byte>, x: seq<int>, n: nat, m: nat)
    requires 32 * n + 32 <= |x| && 8 * n + 8 <= |row| && m < 8
    ensures LaneSum(row, x, n + 1, m) == LaneSum(row, x, n, m) + LaneProduct(Acts(x, n), Raw(row, n), m)
  { }

  ghost predicate LanesAgree(row: seq<Byte>, x: seq<int>, n: nat) {
    32 * n <= |x| && 8 * n <= |row| && LaneTotal(LaneSums(row, x, n)) == Dot(row, x, 0, 32 * n)
  }

  lemma LanesAgreeZero(row: seq<Byte>, x: seq<int>)
    ensures LanesAgree(row, x, 0)
  {
    LanesZero(row, x, LaneSums(row, x, 0));
  }

  lemma LanesAgreeNext(row: seq<Byte>, x: seq<int>, n: nat)
    requires 32 * n + 32 <= |x| && 8 * n + 8 <= |row| && LanesAgree(row, x, n)
    ensures LanesAgree(row, x, n + 1)
  {
    LanesDotStep(row, x, n, LaneSums(row, x, n), LaneSums(row, x, n + 1));
  }

  lemma {:induction false} LanesAgreeFrom(row: seq<Byte>, x: seq<int>, k: nat, n: nat)
    requires k <= n && 32 * n <= |x| && 8 * n <= |row| && LanesAgree(row, x, k)
    ensures LanesAgree(row, x, n)
    decreases n - k
  {
    if k < n {
      LanesAgreeNext(row, x, k);
      LanesAgreeFrom(row, x, k + 1, n);
    }
  }

  /** The lanes together are the product so far. */
  lemma LanesAreDot(row: seq<Byte>, x: seq<int>, n: nat, acc: seq<int>)
    requires Lanes(row, x, n, acc)
    ensures LaneTotal(acc) == Dot(row, x, 0, 32 * n)
  {
    LanesAgreeZero(row, x);
    LanesAgreeFrom(row, x, 0, n);
    assert acc == LaneSums(row, x, n);
  }

  lemma LanesZero(row: seq<Byte>, x: seq<int>, acc: seq<int>)
    requires Lanes(row, x, 0, acc)
    ensures LaneTotal(acc) == 0 == Dot(row, x, 0, 0)
  {
    forall m | 0 <= m < 8 ensures acc[m] == 0 { assert LaneSum(row, x, 0, m) == 0; }
  }

  lemma LanesDotStep(row: seq<Byte>, x: seq<int>, n: nat, prev: seq<int>, acc: seq<int>)
    requires Lanes(row, x, n, prev) && Lanes(row, x, n + 1, acc) && LaneTotal(prev) == Dot(row, x, 0, 32 * n)
    ensures LaneTotal(acc) == Dot(row, x, 0, 32 * n + 32)
  {
    var v := LaneProducts(Acts(x, n), Raw(row, n));
    Dot32(row, x, n, v);
    LanesAdd(row, x, n, prev, acc, v);
  }

  lemma LanesAdd(row: seq<Byte>, x: seq<int>, n: nat, prev: seq<int>, acc: seq<int>, v: seq<int>)
    requires Lanes(row, x, n, prev) && Lanes(row, x, n + 1, acc) && |v| == 8
    requires forall m :: 0 <= m < 8 ==> v[m] == LaneProduct(Acts(x, n), Raw(row, n), m)
    ensures LaneTotal(acc) == LaneTotal(prev) + LaneTotal(v)
  {
    forall m | 0 <= m < 8 ensures acc[m] == prev[m] + v[m] { LaneSumStep(row, x, n, m); }
    LaneTotalAdd(acc, prev, v);
  }

  lemma WrapSmall(v: int)
    requires -0x8000_0000 <= v < 0x8000_0000
    ensures Wrap32(v) == v
  { }

  function DecodeRow(acc: seq<int>, xs: seq<int>, raw: seq<Byte>): (r: seq<int>)
    requires |acc| == 8 && |xs| == 32 && Int8(xs) && |raw| == 8
    ensures |r| == 8
  {
    Add32(acc, Products(xs, raw))
  }

  lemma DecodeLane(acc: seq<int>, xs: seq<int>, raw: seq<Byte>, m: nat)
    requires |acc| == 8 && |xs| == 32 && Int8(xs) && |raw| == 8 && m < 8 && -0x4000_0000 <= acc[m] <= 0x4000_0000
    ensures DecodeRow(acc, xs, raw)[m] == acc[m] + LaneProduct(xs, raw, m)
  {
    LaneAt(xs, raw, m);
    LaneBound(xs, raw, m);
    AddLane(acc, Products(xs, raw), m);
  }

  lemma AddLane(acc: seq<int>, v: seq<int>, m: nat)
    requires |acc| == |v| == 8 && m < 8 && -0x4000_0000 <= acc[m] <= 0x4000_0000 && -512 <= v[m] <= 512
    ensures Add32(acc, v)[m] == acc[m] + v[m]
  {
    WrapSmall(acc[m] + v[m]);
  }

  /** One step of one row: decode, multiply, accumulate; no 32-bit lane wraps. */
  lemma StepLanes(row: seq<Byte>, x: seq<int>, n: nat, acc: seq<int>)
    requires Lanes(row, x, n, acc) && 32 * n + 32 <= |x| && 8 * n + 8 <= |row| && Int8(x) && 32 * n <= MAX_DIM
    ensures Lanes(row, x, n + 1, DecodeRow(acc, Acts(x, n), Raw(row, n)))
  {
    var r := DecodeRow(acc, Acts(x, n), Raw(row, n));
    forall m | 0 <= m < 8 ensures r[m] == LaneSum(row, x, n + 1, m) {
      LaneSumBound(row, x, n, m);
      DecodeLane(acc, Acts(x, n), Raw(row, n), m);
      LaneSumStep(row, x, n, m);
    }
  }

  predicate SmallLanes(acc: seq<int>) { |acc| == 8 && forall m :: 0 <= m < 8 ==> -0x1000_0000 < acc[m] < 0x1000_0000 }

  lemma HorizontalIsTotal(acc: seq<int>)
    requires SmallLanes(acc)
    ensures HorizontalSum(acc) == LaneTotal(acc)
  {
    var s0, s1, s2, s3 := acc[0] + acc[4], acc[1] + acc[5], acc[2] + acc[6], acc[3] + acc[7];
    WrapSmall(s0);
    WrapSmall(s1);
    WrapSmall(s2);
    WrapSmall(s3);
    WrapSmall(s0 + s1);
    WrapSmall(s2 + s3);
    WrapSmall(s0 + s1 + (s2 + s3));
  }

  lemma HorizontalIsDot(row: seq<Byte>, x: seq<int>, n: nat, acc: seq<int>)
    requires Lanes(row, x, n, acc) && Int8(x) && 32 * n <= MAX_DIM
    ensures HorizontalSum(acc) == Dot(row, x, 0, 32 * n)
  {
    forall m | 0 <= m < 8 ensures -0x1000_0000 < acc[m] < 0x1000_0000 { LaneSumBound(row, x, n, m); }
    HorizontalIsTotal(acc);
    LanesAreDot(row, x, n, acc);
  }

  lemma TailStep(row: seq<Byte>, x: seq<int>, c: nat)
    requires c < |x| && c < 4 * |row| && Int8(x) && c < MAX_DIM
    ensures Wrap32(Dot(row, x, 0, c) + Weight(row, c) * x[c]) == Dot(row, x, 0, c + 1)
  {
    DotBound(row, x, 0, c + 1);
    WrapSmall(Dot(row, x, 0, c + 1));
  }

  // ---------------------------------------------------------------- one row as a function

  type EightLanes = s: seq<int> | |s| == 8 witness [0, 0, 0, 0, 0, 0, 0, 0]

  function ZeroLanes(): EightLanes { [0, 0, 0, 0, 0, 0, 0, 0] }

  /** The accumulators after `n` steps. */
  function Accumulated(step: (EightLanes, nat) -> EightLanes, n: nat): EightLanes {
    if n == 0 then ZeroLanes() else step(Accumulated(step, n - 1), n - 1)
  }

  /** Whatever step keeps the lanes right step by step accumulates them. */
  ghost predicate KeepsLanes(row: seq<Byte>, x: seq<int>, n: nat, step: (EightLanes, nat) -> EightLanes) {
    forall k: nat, acc: EightLanes :: k < n && Lanes(row, x, k, acc) ==> Lanes(row, x, k + 1, step(acc, k))
  }

  lemma {:induction false} AccumulatedLanes(row: seq<Byte>, x: seq<int>, n: nat, step: (EightLanes, nat) -> EightLanes)
    requires KeepsLanes(row, x, n, step)
    ensures Lanes(row, x, n, Accumulated(step, n))
  {
    if n == 0 { LanesStart(row, x); } else { AccumulatedLanes(row, x, n - 1, step); }
  }

  /** One step of 32 columns on the eight lanes of a row. */
  function LaneStep(row: seq<Byte>, x: seq<int>): (EightLanes, nat) -> EightLanes {
    (acc: EightLanes, k: nat) =>
      if 32 * k + 32 <= |x| && 8 * k + 8 <= |row| && Int8(x) then DecodeRow(acc, Acts(x, k), Raw(row, k)) else acc
  }

  lemma LaneStepLanes(row: seq<Byte>, x: seq<int>, k: nat, acc: EightLanes)
    requires Lanes(row, x, k, acc) && 32 * k + 32 <= |x| && 8 * k + 8 <= |row| && Int8(x) && 32 * k <= MAX_DIM
    ensures Lanes(row, x, k + 1, LaneStep(row, x)(acc, k))
  {
    StepLanes(row, x, k, acc);
  }

  lemma LaneStepKeeps(row: seq<Byte>, x: seq<int>, n: nat)
    requires 32 * n <= |x| && 8 * n <= |row| && Int8(x) && 32 * n <= MAX_DIM
    ensures KeepsLanes(row, x, n, LaneStep(row, x))
  {
    forall k: nat, acc: EightLanes | k < n && Lanes(row, x, k, acc) ensures Lanes(row, x, k + 1, LaneStep(row, x)(acc, k)) {
      LaneStepLanes(row, x, k, acc);
    }
  }

  /** `total` with the columns [lo, hi) added one by one. */
  function TailSum(row: seq<Byte>, x: seq<int>, total: int, lo: nat, hi: nat): int
    requires lo <= hi <= |x| && hi <= 4 * |row|
  {
    if lo == hi then total else Wrap32(TailSum(row, x, total, lo, hi - 1) + Weight(row, hi - 1) * x[hi - 1])
  }

  /** What the lanes, the horizontal sum and the column tail make of a row. */
  function RowSum(row: seq<Byte>, x: seq<int>, cols: nat): int
    requires cols <= |x| && cols <= 4 * |row| && Int8(x)
  {
    var n := cols / 32;
    TailSum(row, x, HorizontalSum(Accumulated(LaneStep(row, x), n)), 32 * n, cols)
  }

  lemma LanesStart(row: seq<Byte>, x: seq<int>)
    ensures Lanes(row, x, 0, ZeroLanes())
  { }

  lemma {:induction false} TailSumIsDot(row: seq<Byte>, x: seq<int>, lo: nat, hi: nat)
    requires lo <= hi <= |x| && hi <= 4 * |row| && Int8(x) && hi <= MAX_DIM
    ensures TailSum(row, x, Dot(row, x, 0, lo), lo, hi) == Dot(row, x, 0, hi)
  {
    if lo < hi {
      TailSumIsDot(row, x, lo, hi - 1);
      TailStep(row, x, hi - 1);
    }
  }

  /** It is the naive product, exactly. */
  lemma RowSumIsDot(row: seq<Byte>, x: seq<int>, cols: nat)
    requires cols <= |x| && cols <= 4 * |row| && Int8(x) && cols <= MAX_DIM
    ensures RowSum(row, x, cols) == Dot(row, x, 0, cols)
  {
    var n := cols / 32;
    LaneStepKeeps(row, x, n);
    AccumulatedLanes(row, x, n, LaneStep(row, x));
    HorizontalIsDot(row, x, n, Accumulated(LaneStep(row, x), n));
    TailSumIsDot(row, x, 32 * n, cols);
  }

  // ---------------------------------------------------------------- a group of rows

  datatype Work = Work(ws: seq<seq<Byte>>, x: seq<int>, cols: nat, inv: real)
  {
    ghost predicate Valid() {
      cols <= MAX_DIM && cols <= |x| && Int8(x) && forall r :: 0 <= r < |ws| ==> Fits(ws[r], x, cols)
    }

    /** The naive product of row `r`. */
    ghost function Naive(r: nat): int
      requires Valid() && r < |ws|
    {
      assert Fits(ws[r], x, cols);
      Dot(ws[r], x, 0, cols)
    }

    /** What the kernel computes for row `r`. */
    ghost function Computed(r: nat): real
      requires Valid() && r < |ws|
    {
      assert Fits(ws[r], x, cols);
      Tmac.Scaled(RowSum(ws[r], x, cols), inv)
    }

    /** What is stored for row `r`. */
    ghost function Value(r: nat): real
      requires Valid() && r < |ws|
    {
      Tmac.Scaled(Naive(r), inv)
    }
  }

  ghost predicate RowLanes(w: Work, q: nat, n: nat, acc: seq<int>)
    requires w.Valid() && q < |w.ws|
  {
    Fits(w.ws[q], w.x, w.cols) && Lanes(w.ws[q], w.x, n, acc)
  }

  ghost predicate RowTotal(w: Work, q: nat, c: nat, total: int)
    requires w.Valid() && q < |w.ws| && c <= w.cols
  {
    Fits(w.ws[q], w.x, w.cols) && total == Dot(w.ws[q], w.x, 0, c)
  }

  ghost predicate AllLanes(w: Work, r: nat, u: nat, n: nat, accs: seq<seq<int>>)
    requires w.Valid() && r + u <= |w.ws|
  {
    |accs| == u && forall i :: 0 <= i < u ==> RowLanes(w, r + i, n, accs[i])
  }

  ghost predicate Totals(w: Work, r: nat, u: nat, c: nat, totals: seq<int>)
    requires w.Valid() && r + u <= |w.ws| && c <= w.cols
  {
    |totals| == u && forall i :: 0 <= i < u ==> RowTotal(w, r + i, c, totals[i])
  }

  method StartRows(w: Work, r: nat, u: nat) returns (accs: seq<seq<int>>)
    requires w.Valid() && r + u <= |w.ws|
    ensures AllLanes(w, r, u, 0, accs)
  {
    accs := seq(u, _ => ZeroLanes());
    forall i | 0 <= i < u ensures RowLanes(w, r + i, 0, accs[i]) {
      assert Fits(w.ws[r + i], w.x, w.cols);
      LanesStart(w.ws[r + i], w.x);
    }
  }

  lemma DecodeOne(w: Work, q: nat, n: nat, acc: seq<int>)
    requires w.Valid() && q < |w.ws| && 32 * n + 32 <= w.cols && RowLanes(w, q, n, acc) && 8 * n + 8 <= |w.ws[q]|
    ensures RowLanes(w, q, n + 1, DecodeRow(acc, Acts(w.x, n), Raw(w.ws[q], n)))
  {
    StepLanes(w.ws[q], w.x, n, acc);
  }

  lemma AllLanesMore(w: Work, r: nat, i: nat, n: nat, accs: seq<seq<int>>, acc: seq<int>)
    requires w.Valid() && r + i < |w.ws| && AllLanes(w, r, i, n, accs) && RowLanes(w, r + i, n, acc)
    ensures AllLanes(w, r, i + 1, n, accs + [acc])
  { }

  lemma TotalsMore(w: Work, r: nat, i: nat, c: nat, totals: seq<int>, total: int)
    requires w.Valid() && r + i < |w.ws| && c <= w.cols && Totals(w, r, i, c, totals) && RowTotal(w, r + i, c, total)
    ensures Totals(w, r, i + 1, c, totals + [total])
  { }

  method DecodeAcc(w: Work, q: nat, n: nat, acc0: seq<int>, xs: seq<int>) returns (acc: seq<int>)
    requires w.Valid() && q < |w.ws| && 32 * n + 32 <= w.cols && RowLanes(w, q, n, acc0) && xs == Acts(w.x, n)
    ensures RowLanes(w, q, n + 1, acc)
  {
    DecodeOne(w, q, n, acc0);
    acc := DecodeRow(acc0, xs, Raw(w.ws[q], n));
  }

  method DecodeNext(w: Work, r: nat, u: nat, n: nat, accs0: seq<seq<int>>, xs: seq<int>, accs: seq<seq<int>>)
      returns (more: seq<seq<int>>)
    requires w.Valid() && r + u <= |w.ws| && 32 * n + 32 <= w.cols && AllLanes(w, r, u, n, accs0) && xs == Acts(w.x, n)
    requires |accs| < u && AllLanes(w, r, |accs|, n + 1, accs)
    ensures AllLanes(w, r, |accs| + 1, n + 1, more)
  {
    var i := |accs|;
    LanesOfRow(w, r, u, n, accs0, i);
    var acc := DecodeAcc(w, r + i, n, accs0[i], xs);
    AllLanesMore(w, r, i, n + 1, accs, acc);
    more := accs + [acc];
  }

  lemma LanesOfRow(w: Work, r: nat, u: nat, n: nat, accs: seq<seq<int>>, i: nat)
    requires w.Valid() && r + u <= |w.ws| && AllLanes(w, r, u, n, accs) && i < u
    ensures RowLanes(w, r + i, n, accs[i])
  { }

  /** One load of 32 activations serves all `u` rows. */
  method DecodeRows(w: Work, r: nat, u: nat, n: nat, accs0: seq<seq<int>>) returns (accs: seq<seq<int>>)
    requires w.Valid() && r + u <= |w.ws| && 32 * n + 32 <= w.cols && AllLanes(w, r, u, n, accs0)
    ensures AllLanes(w, r, u, n + 1, accs)
  {
    var xs := Acts(w.x, n);
    accs := [];
    var i := 0;
    while i < u
      invariant i <= u && AllLanes(w, r, i, n + 1, accs)
    {
      accs := DecodeNext(w, r, u, n, accs0, xs, accs);
      i := i + 1;
    }
  }

  method SumRows(w: Work, r: nat, u: nat, n: nat, accs: seq<seq<int>>) returns (totals: seq<int>)
    requires w.Valid() && r + u <= |w.ws| && 32 * n <= w.cols && AllLanes(w, r, u, n, accs)
    ensures Totals(w, r, u, 32 * n, totals)
  {
    totals := [];
    var i := 0;
    while i < u
      invariant i <= u && Totals(w, r, i, 32 * n, totals)
    {
      LanesOfRow(w, r, u, n, accs, i);
      SumOne(w, r + i, n, accs[i]);
      var total := HorizontalSum(accs[i]);
      TotalsMore(w, r, i, 32 * n, totals, total);
      totals := totals + [total];
      i := i + 1;
    }
  }

  lemma SumOne(w: Work, q: nat, n: nat, acc: seq<int>)
    requires w.Valid() && q < |w.ws| && 32 * n <= w.cols && RowLanes(w, q, n, acc)
    ensures RowTotal(w, q, 32 * n, HorizontalSum(acc))
  {
    HorizontalIsDot(w.ws[q], w.x, n, acc);
  }

  lemma TailOne(w: Work, q: nat, c: nat, total: int)
    requires w.Valid() && q < |w.ws| && c < w.cols && RowTotal(w, q, c, total)
    ensures c / 4 < |w.ws[q]| && RowTotal(w, q, c + 1, Wrap32(total + Unpack(w.ws[q][c / 4], c % 4) * w.x[c]))
  {
    TailStep(w.ws[q], w.x, c);
  }

  method TailRows(w: Work, r: nat, u: nat, c: nat, totals0: seq<int>) returns (totals: seq<int>)
    requires w.Valid() && r + u <= |w.ws| && c < w.cols && Totals(w, r, u, c, totals0)
    ensures Totals(w, r, u, c + 1, totals)
  {
    totals := [];
    var byteIdx, subIdx := c / 4, c % 4;
    var i := 0;
    while i < u
      invariant i <= u && Totals(w, r, i, c + 1, totals)
    {
      assert RowTotal(w, r + i, c, totals0[i]);
      TailOne(w, r + i, c, totals0[i]);
      var total := Wrap32(totals0[i] + Unpack(w.ws[r + i][byteIdx], subIdx) * w.x[c]);
      TotalsMore(w, r, i, c + 1, totals, total);
      totals := totals + [total];
      i := i + 1;
    }
  }

  /** The totals of rows r .. r + u. */
  method RowGroup(w: Work, r: nat, u: nat) returns (totals: seq<int>)
    requires w.Valid() && r + u <= |w.ws|
    ensures Totals(w, r, u, w.cols, totals)
  {
    var accs := StartRows(w, r, u);
    var c, n := 0, 0;
    while c + 32 <= w.cols
      invariant c == 32 * n <= w.cols && AllLanes(w, r, u, n, accs)
    {
      accs := DecodeRows(w, r, u, n, accs);
      c, n := c + 32, n + 1;
    }
    totals := SumRows(w, r, u, n, accs);
    while c < w.cols
      invariant c <= w.cols && Totals(w, r, u, c, totals)
    {
      totals := TailRows(w, r, u, c, totals);
      c := c + 1;
    }
  }

  ghost predicate Stored(w: Work, before: seq<real>, after: seq<real>, lo: nat, hi: nat)
    requires w.Valid()
  {
    && |before| == |after| == |w.ws| && lo <= hi <= |w.ws|
    && forall r :: 0 <= r < |w.ws| ==> after[r] == if lo <= r < hi then w.Value(r) else before[r]
  }

  method StoreRows(w: Work, r: nat, u: nat, totals: seq<int>, out: array<real>)
    requires w.Valid() && r + u <= |w.ws| == out.Length && Totals(w, r, u, w.cols, totals)
    modifies out
    ensures Stored(w, old(out[..]), out[..], r, r + u)
  {
    var i := 0;
    while i < u
      invariant i <= u && Stored(w, old(out[..]), out[..], r, r + i)
    {
      ghost var before := out[..];
      out[r + i] := Tmac.Scaled(totals[i], w.inv);
      assert out[..] == before[r + i := out[r + i]];
      i := i + 1;
    }
  }

  lemma StoredOn(w: Work, before: seq<real>, mid: seq<real>, after: seq<real>, lo: nat, m: nat, hi: nat)
    requires w.Valid() && Stored(w, before, mid, lo, m) && Stored(w, mid, after, m, hi)
    ensures Stored(w, before, after, lo, hi)
  { }

  /** For every row of the range the scaled naive product; nothing else is written. */
  method RowBlock(w: Work, rStart: nat, rEnd: nat, out: array<real>)
    requires w.Valid() && rEnd <= |w.ws| == out.Length
    modifies out
    ensures rStart < rEnd ==> Stored(w, old(out[..]), out[..], rStart, rEnd)
    ensures rStart >= rEnd ==> out[..] == old(out[..])
  {
    if rStart >= rEnd { return; }
    ghost var before := out[..];
    var r := rStart;
    while r + 8 <= rEnd
      invariant rStart <= r <= rEnd && Stored(w, before, out[..], rStart, r)
    {
      ghost var mid := out[..];
      var totals := RowGroup(w, r, 8);
      StoreRows(w, r, 8, totals, out);
      StoredOn(w, before, mid, out[..], rStart, r, r + 8);
      r := r + 8;
    }
    while r + 4 <= rEnd
      invariant rStart <= r <= rEnd && Stored(w, before, out[..], rStart, r)
    {
      ghost var mid := out[..];
      var totals := RowGroup(w, r, 4);
      StoreRows(w, r, 4, totals, out);
      StoredOn(w, before, mid, out[..], rStart, r, r + 4);
      r := r + 4;
    }
    while r < rEnd
      invariant rStart <= r <= rEnd && Stored(w, before, out[..], rStart, r)
    {
      ghost var mid := out[..];
      var totals := RowGroup(w, r, 1);
      StoreRows(w, r, 1, totals, out);
      StoredOn(w, before, mid, out[..], rStart, r, r + 1);
      r := r + 1;
    }
  }

  lemma StoredAt(w: Work, before: seq<real>, after: seq<real>, lo: nat, hi: nat)
    requires w.Valid() && |before| == |after| == |w.ws| && lo <= hi <= |w.ws|
    requires if lo < hi then Stored(w, before, after, lo, hi) else after == before
    ensures forall r :: lo <= r < hi ==> after[r] == Tmac.Scaled(w.Naive(r), w.inv)
    ensures forall r :: 0 <= r < |after| && !(lo <= r < hi) ==> after[r] == before[r]
  { }

  function PackedWork(packed: seq<Byte>, rows: nat, cols: nat, x: seq<int>, inv: real): (w: Work)
    requires Tmac.Matrix(packed, (cols + 3) / 4, rows) && cols <= |x| && cols <= MAX_DIM && Int8(x)
    ensures w.Valid() && |w.ws| == rows && w.inv == inv
  {
    Work(Tmac.RowPointers(packed, (cols + 3) / 4, rows), x, cols, inv)
  }

  lemma ComputedRow(w: Work, r: nat)
    requires w.Valid() && r < |w.ws|
    ensures w.Computed(r) == w.Value(r)
  {
    assert Fits(w.ws[r], w.x, w.cols);
    RowSumIsDot(w.ws[r], w.x, w.cols);
  }

  lemma NaiveRow(packed: seq<Byte>, rows: nat, cols: nat, x: seq<int>, inv: real, r: nat)
    requires Tmac.Matrix(packed, (cols + 3) / 4, rows) && cols <= |x| && cols <= MAX_DIM && Int8(x) && r < rows
    ensures PackedWork(packed, rows, cols, x, inv).Naive(r) == Dot(Tmac.RowBytes(packed, (cols + 3) / 4, rows, r), x, 0, cols)
  { }

  /**
   * The lane kernel and the table kernel agree: both give the scaled naive product.
   * `packed` is the weight file's own layout.
   */
  method Rows(packed: seq<Byte>, rows: nat, cols: nat, x: seq<int>, inv: real, rStart: nat, rEnd: nat, out: array<real>)
    requires Tmac.Matrix(packed, (cols + 3) / 4, rows) && cols <= |x| && cols <= MAX_DIM && Int8(x)
    requires rStart <= rEnd <= rows == out.Length
    modifies out
    ensures forall r :: rStart <= r < rEnd ==>
              out[r] == Dot(Tmac.RowBytes(packed, (cols + 3) / 4, rows, r), x, 0, cols) as real * inv
    ensures forall r :: 0 <= r < rows && !(rStart <= r < rEnd) ==> out[r] == old(out[r])
  {
    var w := PackedWork(packed, rows, cols, x, inv);
    ghost var before := out[..];
    RowBlock(w, rStart, rEnd, out);
    StoredAt(w, before, out[..], rStart, rEnd);
    forall r | rStart <= r < rEnd
      ensures out[r] == Tmac.Scaled(Dot(Tmac.RowBytes(packed, (cols + 3) / 4, rows, r), x, 0, cols), inv)
    {
      assert out[..][r] == out[r];
      NaiveRow(packed, rows, cols, x, inv, r);
    }
    forall r | 0 <= r < rows && !(rStart <= r < rEnd) ensures out[r] == before[r] { assert out[..][r] == out[r]; }
  }
}
