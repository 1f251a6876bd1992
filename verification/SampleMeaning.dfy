/** Thresholds on logits, selection and arrangement give what the textbook sampler asks for. */
module SampleMeaning {
  import opened Basics
  import opened TopHeap
  import opened TopK
  import opened Nucleus
  import opened Sampler
  import opened SampleSpec

  // ---------------------------------------------------------------- the whole sampler

  /** Is the histogram path taken? */
  predicate UsesTopK(topK: int) { 0 < topK <= MAX_K }

  /** The candidates that go into the softmax. */
  ghost function KeptItems(conv: real -> int, s: seq<real>, thr: real, topK: int): seq<Item> {
    if UsesTopK(topK) then Survivors(conv, s, thr, topK) else Cands(s, thr)
  }

  /** Sorted when a cut needs the order, as the buffer stands otherwise. */
  ghost predicate DrawnFrom(sort: seq<Item> -> seq<Item>, soft: seq<Item>, topP: real, topK: int, u: real, id: nat) {
    if topP < 1.0 || 0 < topK < |soft| then DrawnAs(soft, sort(soft), topP, topK, u, id)
    else |soft| > 0 && id == soft[Chosen(soft, 0.0, topP, topK, u)].id
  }

  /** What is left of top_k for the last cut: nothing when the selection has applied it. */
  function RestK(topK: int): int { if UsesTopK(topK) then 0 else topK }

  ghost predicate Sampled(conv: real -> int, exp: real -> real, sort: seq<Item> -> seq<Item>, s: seq<real>, thr: real,
                          topP: real, topK: int, u: real, id: nat) {
    var kept := KeptItems(conv, s, thr, topK);
    && id < |s|
    && if kept == [] then Largest(s, id)
       else exists m, soft :: Softened(exp, kept, m, soft) && DrawnFrom(sort, soft, topP, RestK(topK), u, id)
  }

  // ---------------------------------------------------------------- softmax without the maximum

  /** Every exponential of a logit less `m`, times `k`, is that of the logit. */
  ghost predicate Shifts(exp: real -> real, s: seq<Item>, m: real, k: real) {
    forall i :: 0 <= i < |s| ==> RealTimes(exp(s[i].val - m), k) == exp(s[i].val - 0.0)
  }

  lemma ExpShifts(exp: real -> real, s: seq<Item>, m: real)
    requires IsExp(exp)
    ensures Shifts(exp, s, m, exp(m)) && exp(m) > 0.0
  {
    forall i | 0 <= i < |s| ensures RealTimes(exp(s[i].val - m), exp(m)) == exp(s[i].val - 0.0) {
      assert (s[i].val - m) + m == s[i].val - 0.0;
    }
  }

  lemma Distribute(a: real, b: real, k: real)
    ensures RealTimes(a + b, k) == RealTimes(a, k) + RealTimes(b, k)
  { }

  lemma {:induction false} SumShift(exp: real -> real, s: seq<Item>, m: real, k: real, n: nat)
    requires Shifts(exp, s, m, k) && n <= |s|
    ensures RealTimes(ExpSum(exp, s, m, n), k) == ExpSum(exp, s, 0.0, n)
  {
    if n > 0 {
      SumShift(exp, s, m, k, n - 1);
      Distribute(ExpSum(exp, s, m, n - 1), exp(s[n - 1].val - m), k);
    }
  }

  lemma SameRatio(a: real, k: real, t: real)
    requires k > 0.0 && t > 0.0
    ensures RealTimes(t, k) > 0.0 && RealTimes(a, 1.0 / t) == RealTimes(RealTimes(a, k), 1.0 / RealTimes(t, k))
  {
    assert t * k > 0.0;
    assert a * (1.0 / t) == a / t && (a * k) * (1.0 / (t * k)) == (a * k) / (t * k);
    assert (a / t) * (t * k) == a * k;
  }

  lemma RatioShift(exp: real -> real, s: seq<Item>, m: real, k: real, r: seq<Item>)
    requires Shifts(exp, s, m, k) && k > 0.0 && Softened(exp, s, m, r)
    ensures Softened(exp, s, 0.0, r)
  {
    var t := ExpSum(exp, s, m, |s|);
    SumShift(exp, s, m, k, |s|);
    SameRatio(1.0, k, t);
    forall i | 0 <= i < |s| ensures r[i].val == RealTimes(exp(s[i].val - 0.0), 1.0 / ExpSum(exp, s, 0.0, |s|)) {
      SameRatio(exp(s[i].val - m), k, t);
    }
  }

  /** Softmax over logits less `m` is softmax over the logits. */
  lemma SoftShift(exp: real -> real, s: seq<Item>, m: real, r: seq<Item>)
    requires IsExp(exp) && Softened(exp, s, m, r)
    ensures Softened(exp, s, 0.0, r)
  {
    ExpShifts(exp, s, m);
    RatioShift(exp, s, m, exp(m), r);
  }

  lemma InversePositive(x: real)
    requires x > 0.0
    ensures 1.0 / x > 0.0
  { }

  lemma SoftPositive(exp: real -> real, s: seq<Item>, m: real, r: seq<Item>)
    requires IsExp(exp) && Softened(exp, s, m, r)
    ensures forall i :: 0 <= i < |r| ==> r[i].val > 0.0
  {
    var sum := ExpSum(exp, s, m, |s|);
    InversePositive(sum);
    forall i | 0 <= i < |r| ensures r[i].val > 0.0 { assert exp(s[i].val - m) * (1.0 / sum) > 0.0; }
  }

  // ---------------------------------------------------------------- thresholds are probabilities

  lemma {:induction false} TotalPositive(exp: real -> real, l: seq<real>)
    requires IsExp(exp)
    ensures l != [] ==> Total(exp, l) > 0.0
    ensures Total(exp, l) >= 0.0
  {
    if l != [] {
      TotalPositive(exp, l[..|l| - 1]);
      var last := l[|l| - 1];
      assert exp(last) > 0.0;
    }
  }

  lemma ExpZero(exp: real -> real)
    requires IsExp(exp)
    ensures exp(0.0) == 1.0
  {
    var e, zero := exp(0.0), 0.0;
    assert zero + zero == 0.0 && exp(zero + zero) == RealTimes(e, e);
    assert e * e == e && e > 0.0;
    assert (e - 1.0) * e == 0.0;
  }

  lemma TimesRatio(c: real, a: real, z: real)
    requires z > 0.0
    ensures RealTimes(c, a / z) == RealTimes(c, a) / z
  {
    assert c * (a / z) == (c * a) / z;
  }

  /** Being `c` times as likely is being at most the logarithm of `c` below. */
  lemma LikelyByLogit(exp: real -> real, l: seq<real>, i: nat, j: nat, c: real, logC: real)
    requires IsExp(exp) && i < |l| && j < |l| && Total(exp, l) > 0.0 && exp(logC) == c
    ensures Prob(exp, l, i) >= RealTimes(c, Prob(exp, l, j)) <==> l[i] >= l[j] + logC
  {
    MinPEquivalence(exp, l[i], l[j], 0.0, Total(exp, l), c, logC);
    TimesRatio(c, exp(l[j]), Total(exp, l));
    assert l[i] - 0.0 == l[i] && l[j] - 0.0 == l[j];
  }

  /** `logMinP` is the logarithm of a `minP` between 0 and 1. */
  ghost predicate IsLog(exp: real -> real, minP: real, logMinP: real) { 0.0 < minP < 1.0 ==> exp(logMinP) == minP }

  function LogOf(minP: real, logMinP: real): real { if minP < 1.0 then logMinP else 0.0 }

  lemma LikelyIff(exp: real -> real, l: seq<real>, minP: real, logMinP: real, i: nat)
    requires IsExp(exp) && IsLog(exp, minP, logMinP) && minP > 0.0 && i < |l|
    ensures Likely(exp, l, minP, i) <==> forall j :: 0 <= j < |l| ==> l[i] >= l[j] + LogOf(minP, logMinP)
  {
    var c, logC := if minP < 1.0 then minP else 1.0, LogOf(minP, logMinP);
    ExpZero(exp);
    TotalPositive(exp, l);
    forall j | 0 <= j < |l| ensures Prob(exp, l, i) >= RealTimes(c, Prob(exp, l, j)) <==> l[i] >= l[j] + logC {
      LikelyByLogit(exp, l, i, j, c, logC);
    }
  }

  /** Some logit is not below -1e30, so the running maximum is one of them. */
  ghost predicate Ordinary(l: seq<real>) { exists j :: 0 <= j < |l| && l[j] >= -1000000000000000000000000000000.0 }

  lemma Attained(l: seq<real>) returns (k: nat)
    requires Ordinary(l)
    ensures k < |l| && l[k] == MaxLogit(l)
  {
    MaxAttained(l);
    var j :| 0 <= j < |l| && l[j] >= FLOOR;
    if MaxLogit(l) in l {
      k :| 0 <= k < |l| && l[k] == MaxLogit(l);
    } else {
      k := j;
    }
  }

  lemma ThresholdIsPasses(exp: real -> real, l: seq<real>, minP: real, logMinP: real, i: nat)
    requires IsExp(exp) && IsLog(exp, minP, logMinP) && Ordinary(l) && i < |l|
    ensures l[i] >= MinPThreshold(MaxLogit(l), minP, logMinP) <==> Passes(exp, l, minP, i)
  {
    var k := Attained(l);
    if minP > 0.0 {
      LikelyIff(exp, l, minP, logMinP, i);
      assert (forall j :: 0 <= j < |l| ==> l[i] >= l[j] + LogOf(minP, logMinP)) <==> l[i] >= l[k] + LogOf(minP, logMinP);
    }
  }

  /** Whatever the other logits are, nothing unlikely gets over the threshold. */
  lemma OverIsLikely(exp: real -> real, l: seq<real>, minP: real, logMinP: real, i: nat)
    requires IsExp(exp) && IsLog(exp, minP, logMinP) && minP > 0.0 && i < |l|
    requires l[i] >= MinPThreshold(MaxLogit(l), minP, logMinP) || Largest(l, i)
    ensures Likely(exp, l, minP, i)
  {
    LikelyIff(exp, l, minP, logMinP, i);
    if minP < 1.0 { LogNegative(exp, minP, logMinP); }
  }

  lemma LogNegative(exp: real -> real, minP: real, logMinP: real)
    requires IsExp(exp) && exp(logMinP) == minP < 1.0
    ensures logMinP < 0.0
  {
    ExpZero(exp);
    assert 0.0 < logMinP ==> exp(0.0) < exp(logMinP);
  }

  // ---------------------------------------------------------------- the kept tokens

  lemma LimitIsReach(l: seq<real>, thr: real, i: nat)
    requires Ordinary(l) && i < |l|
    ensures l[i] >= Limit(l, thr) <==> l[i] >= thr && InReach(l, i)
  {
    var k := Attained(l);
    assert BUCKETS as real / SCALE == 2560.0 / 127.0;
  }

  /** Out-of-range distances do not matter, or there are none. */
  ghost predicate Convertible(conv: real -> int, l: seq<real>) {
    Saturates(conv) || forall i, j :: 0 <= i < |l| && 0 <= j < |l| ==> (l[j] - l[i]) * 127.0 / 20.0 < 2147483648.0
  }

  lemma ConvertibleIs(conv: real -> int, l: seq<real>, thr: real)
    requires Ordinary(l) && Convertible(conv, l)
    ensures AllConvert(conv, l, MaxLogit(l), thr)
  {
    var k := Attained(l);
    forall i | 0 <= i < |l| && l[i] >= thr ensures Converts(conv, MaxLogit(l), l[i]) {
      if !Saturates(conv) { assert (l[k] - l[i]) * 127.0 / 20.0 < 2147483648.0; }
    }
  }

  function Cut(l: seq<real>, thr: real, topK: int): real { if UsesTopK(topK) then Limit(l, thr) else thr }

  lemma CutIsEligible(exp: real -> real, l: seq<real>, minP: real, logMinP: real, topK: int, i: nat)
    requires IsExp(exp) && IsLog(exp, minP, logMinP) && Ordinary(l) && i < |l|
    ensures l[i] >= Cut(l, MinPThreshold(MaxLogit(l), minP, logMinP), topK) <==> Eligible(exp, l, minP, topK, i)
  {
    ThresholdIsPasses(exp, l, minP, logMinP, i);
    LimitIsReach(l, MinPThreshold(MaxLogit(l), minP, logMinP), i);
  }

  lemma CandsArePool(exp: real -> real, l: seq<real>, minP: real, logMinP: real, topK: int)
    requires IsExp(exp) && IsLog(exp, minP, logMinP) && Ordinary(l)
    ensures IsPool(exp, l, minP, topK, multiset(Cands(l, Cut(l, MinPThreshold(MaxLogit(l), minP, logMinP), topK))))
  {
    var cut := Cut(l, MinPThreshold(MaxLogit(l), minP, logMinP), topK);
    forall x: Item
      ensures multiset(Cands(l, cut))[x] == if Eligible(exp, l, minP, topK, x.id) && x.val == l[x.id] then 1 else 0
    {
      CandsAre(l, cut, x);
      if x.id < |l| { CutIsEligible(exp, l, minP, logMinP, topK, x.id); }
    }
  }

  /** The largest logit is over the threshold. */
  lemma SomeOver(exp: real -> real, l: seq<real>, minP: real, logMinP: real, topK: int)
    requires IsExp(exp) && IsLog(exp, minP, logMinP) && Ordinary(l)
    ensures Cands(l, Cut(l, MinPThreshold(MaxLogit(l), minP, logMinP), topK)) != []
  {
    var k := Attained(l);
    var cut := Cut(l, MinPThreshold(MaxLogit(l), minP, logMinP), topK);
    if 0.0 < minP < 1.0 { LogNegative(exp, minP, logMinP); }
    CandsEmpty(l, cut);
    assert l[k] >= cut;
  }

  lemma KeptIsKept(conv: real -> int, exp: real -> real, l: seq<real>, minP: real, logMinP: real, topK: int)
    requires IsExp(exp) && IsLog(exp, minP, logMinP) && Ordinary(l) && (UsesTopK(topK) ==> Convertible(conv, l))
    ensures var kept := KeptItems(conv, l, MinPThreshold(MaxLogit(l), minP, logMinP), topK);
            kept != [] && KeptOf(exp, l, minP, topK, kept)
  {
    var thr := MinPThreshold(MaxLogit(l), minP, logMinP);
    var kept, pool := KeptItems(conv, l, thr, topK), Cands(l, Cut(l, thr, topK));
    CandsArePool(exp, l, minP, logMinP, topK);
    SomeOver(exp, l, minP, logMinP, topK);
    assert |multiset(pool)| == |pool|;
    if UsesTopK(topK) {
      ConvertibleIs(conv, l, thr);
      SurvivorsExact(conv, l, thr, topK);
    }
    assert LargestOf(topK, multiset(pool), kept);
  }

  // ---------------------------------------------------------------- the draw

  lemma {:induction false} MassIsSum(exp: real -> real, kept: seq<Item>, n: nat)
    requires n <= |kept|
    ensures Mass(exp, kept[..n]) == ExpSum(exp, kept, 0.0, n)
  {
    if n > 0 {
      MassIsSum(exp, kept, n - 1);
      assert kept[..n][..n - 1] == kept[..n - 1];
      assert kept[n - 1].val - 0.0 == kept[n - 1].val;
    }
  }

  lemma SoftenedAre(exp: real -> real, kept: seq<Item>, soft: seq<Item>)
    requires Softened(exp, kept, 0.0, soft)
    ensures Probabilities(exp, kept, soft)
  {
    MassIsSum(exp, kept, |kept|);
    assert kept[..|kept|] == kept;
    forall i | 0 <= i < |kept| ensures soft[i] == Item(kept[i].id, exp(kept[i].val) / Mass(exp, kept)) {
      assert kept[i].val - 0.0 == kept[i].val;
      TimesRatio(exp(kept[i].val), 1.0, Mass(exp, kept));
      assert RealTimes(exp(kept[i].val), 1.0) == exp(kept[i].val);
    }
  }

  lemma KeptIsCut(order: seq<Item>, topP: real, topK: int)
    requires |order| > 0
    ensures CutAt(order, topP, topK, Kept(order, 0.0, topP, topK))
  {
    var m := NucleusCut(order, |order|, topP);
    if topP < 1.0 { NucleusIff(order, topP, m); }
    assert NucleusAt(order, topP, m);
  }

  lemma {:induction false} SamePrefixSums(a: seq<Item>, b: seq<Item>, n: nat)
    requires |a| == |b| && n <= |a| && forall i :: 0 <= i < |a| ==> a[i].val == b[i].val
    ensures Prefix(a, n) == Prefix(b, n)
  {
    if n > 0 { SamePrefixSums(a, b, n - 1); }
  }

  ghost predicate AllPositive(s: seq<Item>) { forall i :: 0 <= i < |s| ==> s[i].val > 0.0 }

  /** The draw falls into the share of the position chosen. */
  lemma ChosenShare(order: seq<Item>, topP: real, topK: int, u: real)
    requires order != [] && AllPositive(order) && 0.0 <= u < 1.0
    ensures var n, p := Kept(order, 0.0, topP, topK), Chosen(order, 0.0, topP, topK, u);
            p < n && Prefix(order, p) <= RealTimes(u, Prefix(order, n)) < Prefix(order, p + 1)
  {
    var n := Kept(order, 0.0, topP, topK);
    PrefixGrows(order, 1, n);
    assert Prefix(order, 1) == order[0].val;
    NoFallback(order, n, u);
  }

  lemma SameCut(a: seq<Item>, b: seq<Item>, topP: real, topK: int, n: nat)
    requires |a| == |b| && (forall i :: 0 <= i < |a| ==> a[i].val == b[i].val) && CutAt(a, topP, topK, n)
    ensures CutAt(b, topP, topK, n)
  {
    var m: nat :| NucleusAt(a, topP, m) && n == if 0 < topK < m then topK else m;
    forall j | 0 <= j <= |a| ensures Prefix(a, j) == Prefix(b, j) { SamePrefixSums(a, b, j); }
    assert NucleusAt(b, topP, m);
  }

  /** Among equally likely tokens the order is free: put the one returned where the draw fell. */
  lemma Rearranged(full: seq<Item>, p: nat, y: Item) returns (order: seq<Item>)
    requires p < |full| && y in full && y.val == full[p].val
    ensures |order| == |full| && multiset(order) == multiset(full) && order[p] == y
    ensures forall i :: 0 <= i < |full| ==> order[i].val == full[i].val
  {
    var q :| 0 <= q < |full| && full[q] == y;
    SwapKeeps(full, q, p);
    order := Swap(full, q, p);
  }

  lemma PositiveSorted(soft: seq<Item>, full: seq<Item>)
    requires AllPositive(soft) && multiset(full) == multiset(soft)
    ensures AllPositive(full)
  {
    forall i | 0 <= i < |full| ensures full[i].val > 0.0 {
      assert full[i] in multiset(full);
      assert full[i] in soft;
    }
  }

  lemma SortedDrew(sort: seq<Item> -> seq<Item>, soft: seq<Item>, topP: real, topK: int, u: real, id: nat)
    returns (order: seq<Item>, n: nat, p: nat)
    requires Sorts(sort) && AllPositive(soft) && 0.0 <= u < 1.0 && DrawnAs(soft, sort(soft), topP, topK, u, id)
    ensures Drew(soft, topP, topK, u, id, order, n, p)
  {
    var full := sort(soft);
    SortedShape(sort, soft);
    PositiveSorted(soft, full);
    n, p := Kept(full, 0.0, topP, topK), Chosen(full, 0.0, topP, topK, u);
    ChosenShare(full, topP, topK, u);
    KeptIsCut(full, topP, topK);
    var y :| y in soft && y.id == id && y.val == full[p].val;
    assert y in multiset(soft) && y in multiset(full);
    order := Rearranged(full, p, y);
    SameCut(full, order, topP, topK, n);
    SamePrefixSums(full, order, p);
    SamePrefixSums(full, order, p + 1);
    SamePrefixSums(full, order, n);
  }

  lemma DrawnDrew(sort: seq<Item> -> seq<Item>, soft: seq<Item>, topP: real, topK: int, u: real, id: nat)
    returns (order: seq<Item>, n: nat, p: nat)
    requires Sorts(sort) && soft != [] && AllPositive(soft) && 0.0 <= u < 1.0 && DrawnFrom(sort, soft, topP, topK, u, id)
    ensures Drew(soft, topP, topK, u, id, order, n, p)
  {
    if topP < 1.0 || 0 < topK < |soft| {
      order, n, p := SortedDrew(sort, soft, topP, topK, u, id);
    } else {
      order, n, p := soft, Kept(soft, 0.0, topP, topK), Chosen(soft, 0.0, topP, topK, u);
      ChosenShare(soft, topP, topK, u);
      KeptIsCut(soft, topP, topK);
    }
  }

  lemma DrawnIsDrawnBy(exp: real -> real, sort: seq<Item> -> seq<Item>, kept: seq<Item>, m: real, soft: seq<Item>,
                       topP: real, topK: int, u: real, id: nat)
    requires IsExp(exp) && Sorts(sort) && kept != [] && Softened(exp, kept, m, soft) && 0.0 <= u < 1.0
    requires DrawnFrom(sort, soft, topP, topK, u, id)
    ensures DrawnBy(exp, kept, topP, topK, u, id)
  {
    SoftShift(exp, kept, m, soft);
    SoftenedAre(exp, kept, soft);
    SoftPositive(exp, kept, m, soft);
    var order, n, p := DrawnDrew(sort, soft, topP, topK, u, id);
  }

  /** A selection of at most top_k items leaves nothing for the last cut. */
  lemma NoRestCut(exp: real -> real, kept: seq<Item>, topP: real, topK: int, u: real, id: nat)
    requires 0 < |kept| <= topK && DrawnBy(exp, kept, topP, 0, u, id)
    ensures DrawnBy(exp, kept, topP, topK, u, id)
  {
    var q, order, n, p :| Probabilities(exp, kept, q) && Drew(q, topP, 0, u, id, order, n, p);
    assert |multiset(order)| == |order| && |multiset(q)| == |q|;
    var m: nat :| NucleusAt(order, topP, m) && n == if 0 < 0 < m then 0 else m;
    assert CutAt(order, topP, topK, n);
    assert Drew(q, topP, topK, u, id, order, n, p);
  }

  lemma KeptFits(conv: real -> int, s: seq<real>, thr: real, topK: int)
    requires UsesTopK(topK)
    ensures |KeptItems(conv, s, thr, topK)| <= topK
  {
    KeptIsTop(Cands(s, ExtractThreshold(conv, s, thr, topK)), topK);
  }

  /** Thresholds, selection and draw are those of the textbook. */
  lemma SampledIsTextbook(conv: real -> int, exp: real -> real, sort: seq<Item> -> seq<Item>, l: seq<real>, minP: real,
                          logMinP: real, topP: real, topK: int, u: real, id: nat)
    requires IsExp(exp) && Sorts(sort) && IsLog(exp, minP, logMinP) && 0.0 <= u < 1.0
    requires Ordinary(l) && (UsesTopK(topK) ==> Convertible(conv, l))
    requires Sampled(conv, exp, sort, l, MinPThreshold(MaxLogit(l), minP, logMinP), topP, topK, u, id)
    ensures TextbookSample(exp, l, minP, topP, topK, u, id)
  {
    var thr := MinPThreshold(MaxLogit(l), minP, logMinP);
    var kept := KeptItems(conv, l, thr, topK);
    KeptIsKept(conv, exp, l, minP, logMinP, topK);
    var m, soft :| Softened(exp, kept, m, soft) && DrawnFrom(sort, soft, topP, RestK(topK), u, id);
    DrawnIsDrawnBy(exp, sort, kept, m, soft, topP, RestK(topK), u, id);
    if UsesTopK(topK) {
      KeptFits(conv, l, thr, topK);
      NoRestCut(exp, kept, topP, topK, u, id);
    }
  }

  /** The token drawn is one of those kept. */
  lemma DrawnIsKept(sort: seq<Item> -> seq<Item>, exp: real -> real, kept: seq<Item>, m: real, soft: seq<Item>,
                    topP: real, topK: int, u: real, id: nat) returns (i: nat)
    requires Softened(exp, kept, m, soft) && DrawnFrom(sort, soft, topP, topK, u, id)
    ensures i < |kept| && kept[i].id == id
  {
    var y :| y in soft && y.id == id;
    i :| 0 <= i < |soft| && soft[i] == y;
  }

  lemma KeptOverThreshold(conv: real -> int, s: seq<real>, thr: real, topK: int, i: nat)
    requires i < |KeptItems(conv, s, thr, topK)|
    ensures var x := KeptItems(conv, s, thr, topK)[i]; x.id < |s| && s[x.id] >= thr
  {
    if UsesTopK(topK) {
      SurvivorId(conv, s, thr, topK, i);
    } else {
      var x := Cands(s, thr)[i];
      assert x in multiset(Cands(s, thr));
      CandsAre(s, thr, x);
    }
  }

  /** Whatever the logits and the conversion, the token drawn passes min_p. */
  lemma SampledIsLikely(conv: real -> int, exp: real -> real, sort: seq<Item> -> seq<Item>, l: seq<real>, minP: real,
                        logMinP: real, topP: real, topK: int, u: real, id: nat)
    requires IsExp(exp) && IsLog(exp, minP, logMinP) && minP > 0.0
    requires Sampled(conv, exp, sort, l, MinPThreshold(MaxLogit(l), minP, logMinP), topP, topK, u, id)
    ensures Likely(exp, l, minP, id)
  {
    var thr := MinPThreshold(MaxLogit(l), minP, logMinP);
    var kept := KeptItems(conv, l, thr, topK);
    if kept != [] {
      var m, soft :| Softened(exp, kept, m, soft) && DrawnFrom(sort, soft, topP, RestK(topK), u, id);
      var i := DrawnIsKept(sort, exp, kept, m, soft, topP, RestK(topK), u, id);
      KeptOverThreshold(conv, l, thr, topK, i);
    }
    OverIsLikely(exp, l, minP, logMinP, id);
  }

  ghost predicate Divided(before: seq<real>, temp: real, l: seq<real>)
    requires temp != 0.0
  {
    |l| == |before| && forall i :: 0 <= i < |l| ==> l[i] == before[i] / temp
  }

  lemma TemperedIs(s: seq<real>, temp: real)
    requires temp > 0.0
    ensures Divided(s, temp, Tempered(s, 1.0 / temp))
  {
    forall i | 0 <= i < |s| ensures RealTimes(s[i], 1.0 / temp) == s[i] / temp { TimesRatio(s[i], 1.0, temp); }
  }

  /**
   * What the sampler promises of the token it returns: it passes min_p; and, unless all logits lie below -1e30 or
   * out-of-range conversions spoil the selection, it is the one the textbook sampler draws.
   */
  ghost predicate Sound(conv: real -> int, exp: real -> real, l: seq<real>, minP: real, logMinP: real, topP: real,
                        topK: int, u: real, id: nat) {
    IsLog(exp, minP, logMinP) ==>
      && (minP > 0.0 ==> Likely(exp, l, minP, id))
      && (0.0 <= u < 1.0 && Ordinary(l) && (Selects(topK) ==> Convertible(conv, l)) ==>
            TextbookSample(exp, l, minP, topP, topK, u, id))
  }

  lemma SampledIsSound(conv: real -> int, exp: real -> real, sort: seq<Item> -> seq<Item>, l: seq<real>, minP: real,
                       logMinP: real, topP: real, topK: int, u: real, id: nat)
    requires IsExp(exp) && Sorts(sort)
    requires Sampled(conv, exp, sort, l, MinPThreshold(MaxLogit(l), minP, logMinP), topP, topK, u, id)
    ensures Sound(conv, exp, l, minP, logMinP, topP, topK, u, id)
  {
    if IsLog(exp, minP, logMinP) {
      if minP > 0.0 { SampledIsLikely(conv, exp, sort, l, minP, logMinP, topP, topK, u, id); }
      if 0.0 <= u < 1.0 && Ordinary(l) && (Selects(topK) ==> Convertible(conv, l)) {
        SampledIsTextbook(conv, exp, sort, l, minP, logMinP, topP, topK, u, id);
      }
    }
  }
}
