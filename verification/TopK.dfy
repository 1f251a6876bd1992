/**
 * Top-k selection of logits: a bucket histogram gives a cutoff, the candidates above it are
 * extracted, and a heap keeps the k largest. Logits are reals.
 */
module TopK {
  import opened Basics
  import opened TopHeap

  const BUCKETS := 128
  const SCALE: real := 127.0 / 20.0
  const FLOOR: real := -1000000000000000000000000000000.0
  const INT_LIMIT: real := 2147483648.0

  function MaxReal(a: real, b: real): real { if a > b then a else b }

  /** The running maximum starts at -1e30, not at the first logit. */
  function MaxLogit(s: seq<real>): (m: real)
    ensures m >= FLOOR
    ensures forall i :: 0 <= i < |s| ==> s[i] <= m
  {
    if s == [] then FLOOR
    else
      var m := MaxLogit(s[..|s| - 1]);
      assert forall i :: 0 <= i < |s| - 1 ==> s[..|s| - 1][i] == s[i];
      if s[|s| - 1] > m then s[|s| - 1] else m
  }

  lemma {:induction false} MaxAttained(s: seq<real>)
    ensures MaxLogit(s) == FLOOR || MaxLogit(s) in s
  {
    if s != [] { MaxAttained(s[..|s| - 1]); }
  }

  /** `logMinP` is the logarithm of `minP`. */
  function MinPThreshold(max: real, minP: real, logMinP: real): real {
    if minP >= 1.0 then max else if minP > 0.0 then max + logMinP else FLOOR
  }

  /** Conversion to a 32-bit integer: truncation where the value fits, whatever the machine does elsewhere. */
  function ToInt(conv: real -> int, x: real): int
    requires x >= 0.0
  {
    if x < INT_LIMIT then x.Floor else conv(x)
  }

  function Bucket(conv: real -> int, max: real, l: real): (b: nat)
    requires l <= max
    ensures b < BUCKETS
  {
    assert (max - l) * SCALE >= 0.0;
    var b := ToInt(conv, (max - l) * SCALE);
    if b >= BUCKETS then BUCKETS - 1 else if b < 0 then 0 else b
  }

  function BucketThreshold(max: real, c: nat): real { max - (c + 1) as real / SCALE }

  // ---------------------------------------------------------------- candidates

  /** The logits at or above `thr` with their ids, in order. */
  function Cands(s: seq<real>, thr: real): (r: seq<Item>)
    ensures |r| <= |s|
  {
    if s == [] then []
    else
      var n := |s| - 1;
      Cands(s[..n], thr) + if s[n] >= thr then [Item(n, s[n])] else []
  }

  function Between(s: seq<real>, lo: real, hi: real): seq<Item> {
    if s == [] then []
    else
      var n := |s| - 1;
      Between(s[..n], lo, hi) + if lo <= s[n] < hi then [Item(n, s[n])] else []
  }

  /** Candidates are exactly the (id, logit) pairs that reach the threshold, each once. */
  lemma {:induction false} CandsAre(s: seq<real>, thr: real, x: Item)
    ensures multiset(Cands(s, thr))[x] == if x.id < |s| && s[x.id] == x.val >= thr then 1 else 0
  {
    if s != [] { CandsAre(s[..|s| - 1], thr, x); }
  }

  lemma {:induction false} BetweenBelow(s: seq<real>, lo: real, hi: real, x: Item)
    requires x in multiset(Between(s, lo, hi))
    ensures x.val < hi
  {
    var n := |s| - 1;
    if x in multiset(Between(s[..n], lo, hi)) { BetweenBelow(s[..n], lo, hi, x); }
  }

  lemma {:induction false} CandsSplit(s: seq<real>, lo: real, hi: real)
    requires lo <= hi
    ensures multiset(Cands(s, lo)) == multiset(Cands(s, hi)) + multiset(Between(s, lo, hi))
  {
    if s != [] { CandsSplit(s[..|s| - 1], lo, hi); }
  }

  lemma {:induction false} CandsEmpty(s: seq<real>, thr: real)
    ensures Cands(s, thr) == [] <==> forall i :: 0 <= i < |s| ==> s[i] < thr
  {
    if s != [] {
      var n := |s| - 1;
      CandsEmpty(s[..n], thr);
      assert s == s[..n] + [s[n]];
    }
  }

  // ---------------------------------------------------------------- histogram

  function HistOf(conv: real -> int, s: seq<real>, max: real, thr: real): (h: seq<nat>)
    requires forall i :: 0 <= i < |s| ==> s[i] <= max
    ensures |h| == BUCKETS
  {
    if s == [] then seq(BUCKETS, _ => 0)
    else
      var n := |s| - 1;
      var h := HistOf(conv, s[..n], max, thr);
      if s[n] >= thr then var b := Bucket(conv, max, s[n]); h[b := h[b] + 1] else h
  }

  function SumTo(h: seq<nat>, c: nat): nat
    requires c <= |h|
  {
    if c == 0 then 0 else SumTo(h, c - 1) + h[c - 1]
  }

  lemma {:induction false} SumUpdate(h: seq<nat>, b: nat, c: nat)
    requires b < |h| && c <= |h|
    ensures SumTo(h[b := h[b] + 1], c) == SumTo(h, c) + if b < c then 1 else 0
  {
    if c > 0 { SumUpdate(h, b, c - 1); }
  }

  lemma {:induction false} SumZero(c: nat)
    requires c <= BUCKETS
    ensures SumTo(seq(BUCKETS, _ => 0), c) == 0
  {
    if c > 0 { SumZero(c - 1); }
  }

  /** The buckets up to `b` hold at least `k` logits. */
  predicate Reaches(h: seq<nat>, k: nat, b: nat) { b < |h| && SumTo(h, b + 1) >= k }

  /** The first bucket where the count from the top reaches `k`, the last one if none does. */
  ghost predicate IsCutoff(h: seq<nat>, k: nat, c: nat) {
    && |h| == BUCKETS && c < BUCKETS
    && (forall b :: 0 <= b < c ==> !Reaches(h, k, b))
    && (c < BUCKETS - 1 ==> Reaches(h, k, c))
  }

  function CutoffFrom(h: seq<nat>, k: nat, b: nat): (c: nat)
    requires |h| == BUCKETS && b < BUCKETS
    ensures c < BUCKETS
    decreases BUCKETS - b
  {
    if Reaches(h, k, b) || b == BUCKETS - 1 then b else CutoffFrom(h, k, b + 1)
  }

  lemma {:induction false} CutoffIs(h: seq<nat>, k: nat, b: nat)
    requires |h| == BUCKETS && b < BUCKETS && forall j :: 0 <= j < b ==> !Reaches(h, k, j)
    ensures IsCutoff(h, k, CutoffFrom(h, k, b))
    decreases BUCKETS - b
  {
    if !(Reaches(h, k, b) || b == BUCKETS - 1) { CutoffIs(h, k, b + 1); }
  }

  // ---------------------------------------------------------------- the cutoff is safe

  /** The conversion of a passing logit's distance is in range, or lands in the last bucket anyway. */
  ghost predicate Converts(conv: real -> int, max: real, l: real)
    requires l <= max
  {
    (max - l) * SCALE < INT_LIMIT || conv((max - l) * SCALE) >= BUCKETS - 1
  }

  ghost predicate AllConvert(conv: real -> int, s: seq<real>, max: real, thr: real)
    requires forall i :: 0 <= i < |s| ==> s[i] <= max
  {
    forall i :: 0 <= i < |s| && s[i] >= thr ==> Converts(conv, max, s[i])
  }

  lemma BucketReaches(conv: real -> int, max: real, l: real, c: nat)
    requires l <= max && Converts(conv, max, l) && Bucket(conv, max, l) <= c < BUCKETS - 1
    ensures l >= BucketThreshold(max, c)
  {
    var x := (max - l) * SCALE;
    assert x >= 0.0;
    assert x < INT_LIMIT && x.Floor <= c;
    assert x < (c + 1) as real;
    assert max - l == x / SCALE;
    assert x / SCALE <= (c + 1) as real / SCALE;
  }

  /** What the top buckets count, the extraction finds. */
  lemma {:induction false} CountedAreExtracted(conv: real -> int, s: seq<real>, max: real, thr: real, c: nat, ext: real)
    requires forall i :: 0 <= i < |s| ==> s[i] <= max
    requires AllConvert(conv, s, max, thr) && c < BUCKETS - 1 && ext == MaxReal(BucketThreshold(max, c), thr)
    ensures SumTo(HistOf(conv, s, max, thr), c + 1) <= |Cands(s, ext)|
  {
    if s == [] {
      SumZero(c + 1);
    } else {
      var n := |s| - 1;
      assert forall i :: 0 <= i < n ==> s[..n][i] == s[i];
      CountedAreExtracted(conv, s[..n], max, thr, c, ext);
      if s[n] >= thr {
        var b := Bucket(conv, max, s[n]);
        SumUpdate(HistOf(conv, s[..n], max, thr), b, c + 1);
        if b <= c { BucketReaches(conv, max, s[n], c); }
      }
    }
  }

  /** The whole range of the histogram. */
  function Limit(s: seq<real>, thr: real): real { MaxReal(BucketThreshold(MaxLogit(s), BUCKETS - 1), thr) }

  function Cutoff(conv: real -> int, s: seq<real>, thr: real, k: nat): (c: nat)
    ensures c < BUCKETS
  {
    CutoffFrom(HistOf(conv, s, MaxLogit(s), thr), k, 0)
  }

  function ExtractThreshold(conv: real -> int, s: seq<real>, thr: real, k: nat): real {
    MaxReal(BucketThreshold(MaxLogit(s), Cutoff(conv, s, thr, k)), thr)
  }

  lemma CutoffAboveLimit(conv: real -> int, s: seq<real>, thr: real, k: nat)
    ensures Limit(s, thr) <= ExtractThreshold(conv, s, thr, k)
  {
    var c := Cutoff(conv, s, thr, k);
    assert (c + 1) as real / SCALE <= BUCKETS as real / SCALE;
  }

  lemma EnoughOrAll(conv: real -> int, s: seq<real>, thr: real, k: nat)
    requires AllConvert(conv, s, MaxLogit(s), thr)
    ensures var ext := ExtractThreshold(conv, s, thr, k); |Cands(s, ext)| >= k || ext == Limit(s, thr)
  {
    var h, c := HistOf(conv, s, MaxLogit(s), thr), Cutoff(conv, s, thr, k);
    CutoffIs(h, k, 0);
    if c < BUCKETS - 1 { CountedAreExtracted(conv, s, MaxLogit(s), thr, c, ExtractThreshold(conv, s, thr, k)); }
  }

  /** What the sampler keeps. */
  function Survivors(conv: real -> int, s: seq<real>, thr: real, k: nat): seq<Item>
    requires k > 0
  {
    var cands := Cands(s, ExtractThreshold(conv, s, thr, k));
    if |cands| > k then Select(cands, k) else cands
  }

  /** The `k` largest of `all`, or all of it. */
  ghost predicate TopOf(sel: seq<Item>, all: seq<Item>, k: nat) {
    |sel| == (if |all| < k then |all| else k) && IsTop(multiset(sel), multiset(all))
  }

  lemma KeptIsTop(s: seq<Item>, k: nat)
    requires k > 0
    ensures var r := if |s| > k then Select(s, k) else s; TopOf(r, s, k)
  {
    if |s| > k { SelectTop(s, k); }
  }

  lemma LiftTop(sel: multiset<Item>, s: seq<real>, lo: real, hi: real)
    requires lo <= hi && IsTop(sel, multiset(Cands(s, hi)))
    ensures IsTop(sel, multiset(Cands(s, lo)))
  {
    CandsSplit(s, lo, hi);
    var a, b := multiset(Cands(s, hi)), multiset(Between(s, lo, hi));
    assert (a + b) - sel == (a - sel) + b;
    forall x, y | x in sel && y in (a - sel) + b ensures y.val <= x.val {
      if y in b {
        BetweenBelow(s, lo, hi, y);
        assert x in a;
        CandsAre(s, hi, x);
      }
    }
  }

  /**
   * Survivors are the top min(k, |C|) logits of C, those within the histogram's range of the maximum
   * that pass the min_p threshold.
   */
  lemma SurvivorsExact(conv: real -> int, s: seq<real>, thr: real, k: nat)
    requires k > 0 && AllConvert(conv, s, MaxLogit(s), thr)
    ensures TopOf(Survivors(conv, s, thr, k), Cands(s, Limit(s, thr)), k)
  {
    var ext, lim := ExtractThreshold(conv, s, thr, k), Limit(s, thr);
    KeptIsTop(Cands(s, ext), k);
    CutoffAboveLimit(conv, s, thr, k);
    EnoughOrAll(conv, s, thr, k);
    CandsSplit(s, lim, ext);
    assert |Cands(s, lim)| == |multiset(Cands(s, lim))| >= |multiset(Cands(s, ext))| == |Cands(s, ext)|;
    LiftTop(multiset(Survivors(conv, s, thr, k)), s, lim, ext);
  }

  /** No survivors: every logit is below the range. */
  lemma GuardIff(conv: real -> int, s: seq<real>, thr: real, k: nat)
    requires k > 0 && AllConvert(conv, s, MaxLogit(s), thr)
    ensures Cands(s, ExtractThreshold(conv, s, thr, k)) == [] <==> forall i :: 0 <= i < |s| ==> s[i] < Limit(s, thr)
  {
    EnoughOrAll(conv, s, thr, k);
    CutoffAboveLimit(conv, s, thr, k);
    CandsEmpty(s, ExtractThreshold(conv, s, thr, k));
    CandsEmpty(s, Limit(s, thr));
    if Cands(s, ExtractThreshold(conv, s, thr, k)) != [] {
      var i :| 0 <= i < |s| && s[i] >= ExtractThreshold(conv, s, thr, k);
    }
  }

  /** The empty-candidate guard cannot fire as soon as one logit reaches -1e30. */
  lemma GuardUnreachable(conv: real -> int, s: seq<real>, minP: real, logMinP: real, k: nat, j: nat)
    requires k > 0 && j < |s| && s[j] >= FLOOR && (0.0 < minP < 1.0 ==> logMinP <= 0.0)
    ensures Cands(s, ExtractThreshold(conv, s, MinPThreshold(MaxLogit(s), minP, logMinP), k)) != []
  {
    var thr := MinPThreshold(MaxLogit(s), minP, logMinP);
    MaxAttained(s);
    var i := if MaxLogit(s) in s then (var i :| 0 <= i < |s| && s[i] == MaxLogit(s); i) else j;
    assert s[i] == MaxLogit(s) >= ExtractThreshold(conv, s, thr, k);
    CandsEmpty(s, ExtractThreshold(conv, s, thr, k));
  }

  // ---------------------------------------------------------------- when the conversion matters

  /** Out-of-range distances convert to something the clamp sends to the last bucket. */
  ghost predicate Saturates(conv: real -> int) { forall x :: x >= INT_LIMIT ==> conv(x) >= BUCKETS - 1 }

  ghost predicate AlwaysExact(conv: real -> int) {
    forall s: seq<real>, k: nat :: k > 0 ==> Exact(conv, s, k)
  }

  ghost predicate Exact(conv: real -> int, s: seq<real>, k: nat)
    requires k > 0
  {
    TopOf(Survivors(conv, s, FLOOR, k), Cands(s, Limit(s, FLOOR)), k)
  }

  /** One logit at the maximum, one near the end of the range, one far below it. */
  function Spread(x: real): seq<real> { [x / SCALE, x / SCALE - 127.5 / SCALE, 0.0] }

  lemma SpreadPrefixes(x: real)
    ensures Spread(x)[..2] == [x / SCALE, x / SCALE - 127.5 / SCALE] && Spread(x)[..2][..1] == [x / SCALE]
    ensures Spread(x)[..2][..1][..0] == []
  { }

  lemma SpreadMax(x: real)
    requires x >= INT_LIMIT
    ensures MaxLogit(Spread(x)) == x / SCALE
  {
    SpreadPrefixes(x);
    assert MaxLogit(Spread(x)[..2][..1]) == x / SCALE;
    assert MaxLogit(Spread(x)[..2]) == x / SCALE;
  }

  lemma SpreadReaches(conv: real -> int, x: real)
    requires x >= INT_LIMIT && conv(x) < BUCKETS - 1
    ensures var b := Bucket(conv, x / SCALE, 0.0);
            b < BUCKETS - 1 && MaxLogit(Spread(x)) == x / SCALE && Reaches(HistOf(conv, Spread(x), x / SCALE, FLOOR), 2, b)
  {
    SpreadMax(x);
    SpreadPrefixes(x);
    var m, b := x / SCALE, Bucket(conv, x / SCALE, 0.0);
    assert (m - 0.0) * SCALE == x;
    var h0 := HistOf(conv, [], m, FLOOR);
    var h1 := HistOf(conv, Spread(x)[..2][..1], m, FLOOR);
    var h2 := HistOf(conv, Spread(x)[..2], m, FLOOR);
    assert Bucket(conv, m, m) == 0;
    assert h1 == h0[0 := h0[0] + 1];
    SumZero(b + 1);
    SumUpdate(h0, 0, b + 1);
    SumUpdate(h1, Bucket(conv, m, m - 127.5 / SCALE), b + 1);
    SumUpdate(h2, b, b + 1);
  }

  lemma SpreadCounts(x: real, ext: real)
    requires x >= INT_LIMIT
    ensures ext > x / SCALE - 127.5 / SCALE ==> |Cands(Spread(x), ext)| <= 1
    ensures ext <= x / SCALE - 127.5 / SCALE ==> |Cands(Spread(x), ext)| >= 2
  {
    SpreadPrefixes(x);
    assert Cands(Spread(x)[..2][..1], ext) == if x / SCALE >= ext then [Item(0, x / SCALE)] else [];
    assert x / SCALE - 127.5 / SCALE > 0.0;
  }

  /** A conversion that does not saturate loses a candidate. */
  lemma SpreadFails(conv: real -> int, x: real)
    requires x >= INT_LIMIT && conv(x) < BUCKETS - 1
    ensures !Exact(conv, Spread(x), 2)
  {
    SpreadReaches(conv, x);
    var s, m, b := Spread(x), x / SCALE, Bucket(conv, x / SCALE, 0.0);
    var h, c := HistOf(conv, s, m, FLOOR), Cutoff(conv, s, FLOOR, 2);
    CutoffIs(h, 2, 0);
    assert c <= b;
    assert BucketThreshold(m, c) >= m - 127.0 / SCALE;
    SpreadCounts(x, ExtractThreshold(conv, s, FLOOR, 2));
    SpreadCounts(x, Limit(s, FLOOR));
  }

  /** Top-k selection is exact on all inputs if and only if the conversion saturates. */
  lemma ExactIff(conv: real -> int)
    ensures AlwaysExact(conv) <==> Saturates(conv)
  {
    if Saturates(conv) {
      forall s: seq<real>, k: nat | k > 0 ensures Exact(conv, s, k) { SurvivorsExact(conv, s, FLOOR, k); }
    } else {
      var x :| x >= INT_LIMIT && conv(x) < BUCKETS - 1;
      SpreadFails(conv, x);
    }
  }

  // ---------------------------------------------------------------- the loops

  function Tempered(s: seq<real>, invTemp: real): (r: seq<real>)
    ensures |r| == |s|
  {
    seq(|s|, i requires 0 <= i < |s| => RealTimes(s[i], invTemp))
  }

  /** Temperature and maximum in one pass. */
  method ScaleAndMax(logits: array<real>, invTemp: real) returns (max: real)
    modifies logits
    ensures logits[..] == Tempered(old(logits[..]), invTemp) && max == MaxLogit(logits[..])
  {
    max := FLOOR;
    ghost var before := logits[..];
    var i := 0;
    while i < logits.Length
      invariant i <= logits.Length && logits[i..] == before[i..]
      invariant logits[..i] == Tempered(before[..i], invTemp) && max == MaxLogit(logits[..i])
    {
      ghost var prefix := logits[..i];
      assert logits[i] == logits[i..][0] == before[i];
      logits[i] := RealTimes(logits[i], invTemp);
      assert logits[..i + 1] == prefix + [logits[i]] && logits[..i + 1][..i] == prefix;
      assert Tempered(before[..i + 1], invTemp) == Tempered(before[..i], invTemp) + [logits[i]];
      if logits[i] > max { max := logits[i]; }
      i := i + 1;
    }
    assert logits[..logits.Length] == logits[..] && before[..logits.Length] == before;
  }

  method Histogram(conv: real -> int, logits: seq<real>, max: real, thr: real) returns (hist: array<nat>)
    requires max == MaxLogit(logits)
    ensures fresh(hist) && hist[..] == HistOf(conv, logits, max, thr)
  {
    hist := new nat[BUCKETS](_ => 0);
    assert hist[..] == HistOf(conv, logits[..0], max, thr);
    for i := 0 to |logits|
      invariant fresh(hist) && hist.Length == BUCKETS
      invariant forall j :: 0 <= j < i ==> logits[..i][j] <= max
      invariant hist[..] == HistOf(conv, logits[..i], max, thr)
    {
      ghost var before := hist[..];
      assert logits[..i + 1][..i] == logits[..i];
      if logits[i] >= thr {
        var b := Bucket(conv, max, logits[i]);
        hist[b] := hist[b] + 1;
        assert hist[..] == before[b := before[b] + 1];
      }
    }
    assert logits[..|logits|] == logits;
  }

  method FindCutoff(hist: seq<nat>, k: nat) returns (c: nat)
    requires |hist| == BUCKETS
    ensures c == CutoffFrom(hist, k, 0)
  {
    var accum := 0;
    c := BUCKETS - 1;
    var b := 0;
    while b < BUCKETS
      invariant b <= BUCKETS && accum == SumTo(hist, b) && c == BUCKETS - 1
      invariant b < BUCKETS ==> CutoffFrom(hist, k, 0) == CutoffFrom(hist, k, b)
      invariant b == BUCKETS ==> CutoffFrom(hist, k, 0) == BUCKETS - 1
    {
      accum := accum + hist[b];
      if accum >= k {
        c := b;
        break;
      }
      b := b + 1;
    }
  }

  method Extract(logits: seq<real>, thr: real, probs: array<Item>) returns (n: nat)
    requires probs.Length >= |logits|
    modifies probs
    ensures n <= probs.Length && probs[..n] == Cands(logits, thr)
  {
    n := 0;
    for i := 0 to |logits|
      invariant n <= i && probs[..n] == Cands(logits[..i], thr)
    {
      assert logits[..i + 1][..i] == logits[..i];
      if logits[i] >= thr {
        ghost var before := probs[..n];
        probs[n] := Item(i, logits[i]);
        assert probs[..n + 1] == before + [probs[n]];
        n := n + 1;
      }
    }
    assert logits[..|logits|] == logits;
  }

  /** Histogram, cutoff, extraction and heap: what is left in the buffer are the survivors. */
  method SelectCandidates(conv: real -> int, logits: seq<real>, max: real, thr: real, k: nat, probs: array<Item>)
    returns (n: nat)
    requires max == MaxLogit(logits) && k > 0 && probs.Length >= |logits|
    modifies probs
    ensures n <= probs.Length && probs[..n] == Survivors(conv, logits, thr, k)
    ensures AllConvert(conv, logits, max, thr) ==> TopOf(probs[..n], Cands(logits, Limit(logits, thr)), k)
  {
    var hist := Histogram(conv, logits, max, thr);
    var c := FindCutoff(hist[..], k);
    n := Extract(logits, MaxReal(BucketThreshold(max, c), thr), probs);
    if n > k {
      SelectInPlace(probs, k, n);
      n := k;
    }
    if AllConvert(conv, logits, max, thr) { SurvivorsExact(conv, logits, thr, k); }
  }
}
