/** The sampler as a whole: greedy choice, top-k path and the path without top-k. */
module Sampler {
  import opened Basics
  import opened TopHeap
  import opened TopK
  import opened Nucleus

  const GREEDY_BELOW: real := 0.05
  const GREEDY_FLOOR: real := -1000000000.0
  const MAX_K := 256

  /** What is used of the exponential: positive, increasing, sums to products. */
  ghost predicate IsExp(exp: real -> real) {
    && (forall x :: exp(x) > 0.0)
    && (forall x, y :: x < y ==> exp(x) < exp(y))
    && (forall x, y :: exp(x + y) == RealTimes(exp(x), exp(y)))
  }

  lemma ScaleCompare(a: real, b: real, z: real)
    requires z > 0.0
    ensures a / z >= b / z <==> a >= b
  {
    assert a / z * z == a && b / z * z == b;
    if a >= b { assert (a / z - b / z) * z >= 0.0; }
    else { assert (a / z - b / z) * z < 0.0; }
  }

  /**
   * Cutting logits at max + log(minP) is cutting probabilities at minP times the largest one: here
   * p(l) = exp(l - m) / z for any shift `m` and any positive sum `z`.
   */
  lemma MinPEquivalence(exp: real -> real, l: real, max: real, m: real, z: real, minP: real, logMinP: real)
    requires IsExp(exp) && z > 0.0 && exp(logMinP) == minP
    ensures exp(l - m) / z >= RealTimes(minP, exp(max - m)) / z <==> l >= max + logMinP
  {
    var bound := logMinP + (max - m);
    assert exp(bound) == RealTimes(minP, exp(max - m));
    ScaleCompare(exp(l - m), exp(bound), z);
    if l - m < bound { assert exp(l - m) < exp(bound); }
    else if l - m > bound { assert exp(l - m) > exp(bound); }
  }

  // ---------------------------------------------------------------- softmax

  ghost function ExpSum(exp: real -> real, s: seq<Item>, m: real, n: nat): real
    requires n <= |s|
  {
    if n == 0 then 0.0 else ExpSum(exp, s, m, n - 1) + exp(s[n - 1].val - m)
  }

  lemma {:induction false} ExpSumPositive(exp: real -> real, s: seq<Item>, m: real, n: nat)
    requires n <= |s| && IsExp(exp)
    ensures n > 0 ==> ExpSum(exp, s, m, n) > 0.0
    ensures ExpSum(exp, s, m, n) >= 0.0
  {
    if n > 0 { ExpSumPositive(exp, s, m, n - 1); }
  }

  /** The same items with their probabilities. */
  ghost predicate Softened(exp: real -> real, s: seq<Item>, m: real, r: seq<Item>) {
    && |r| == |s| > 0 && ExpSum(exp, s, m, |s|) > 0.0
    && forall i :: 0 <= i < |s| ==> r[i].id == s[i].id && r[i].val == RealTimes(exp(s[i].val - m), 1.0 / ExpSum(exp, s, m, |s|))
  }

  lemma ScaleKeepsOrder(a: real, b: real, c: real)
    requires a < b && c > 0.0
    ensures RealTimes(a, c) < RealTimes(b, c)
  {
    assert (b - a) * c > 0.0 && (b - a) * c == b * c - a * c;
  }

  /** Softmax keeps the order of the items. */
  lemma SoftmaxOrder(exp: real -> real, s: seq<Item>, m: real, r: seq<Item>, i: nat, j: nat)
    requires IsExp(exp) && Softened(exp, s, m, r) && i < |s| && j < |s|
    ensures r[i].val < r[j].val <==> s[i].val < s[j].val
  {
    var inv := 1.0 / ExpSum(exp, s, m, |s|);
    assert inv > 0.0;
    if s[i].val < s[j].val { ScaleKeepsOrder(exp(s[i].val - m), exp(s[j].val - m), inv); }
    if s[i].val > s[j].val { ScaleKeepsOrder(exp(s[j].val - m), exp(s[i].val - m), inv); }
  }

  /** The first `i` items raised, the others as they were. */
  ghost predicate RaisedUpTo(exp: real -> real, s: seq<Item>, m: real, i: nat, cur: seq<Item>) {
    |cur| == |s| && forall j :: 0 <= j < |s| ==> cur[j] == if j < i then Item(s[j].id, exp(s[j].val - m)) else s[j]
  }

  lemma RaisedNext(exp: real -> real, s: seq<Item>, m: real, i: nat, cur: seq<Item>)
    requires i < |s| && RaisedUpTo(exp, s, m, i, cur)
    ensures cur[i] == s[i]
    ensures RaisedUpTo(exp, s, m, i + 1, cur[i := Item(s[i].id, exp(s[i].val - m))])
    ensures ExpSum(exp, s, m, i + 1) == ExpSum(exp, s, m, i) + exp(s[i].val - m)
  { }

  method Exponentials(exp: real -> real, probs: array<Item>, n: nat, m: real) returns (sum: real)
    requires n <= probs.Length
    modifies probs
    ensures sum == ExpSum(exp, old(probs[..n]), m, n)
    ensures Raised(exp, old(probs[..n]), m, probs[..n])
  {
    ghost var s := probs[..n];
    sum := 0.0;
    for i := 0 to n
      invariant sum == ExpSum(exp, s, m, i) && RaisedUpTo(exp, s, m, i, probs[..n])
    {
      ghost var cur := probs[..n];
      RaisedNext(exp, s, m, i, cur);
      var e := exp(probs[i].val - m);
      probs[i] := Item(probs[i].id, e);
      assert probs[..n] == cur[i := Item(s[i].id, e)];
      sum := sum + e;
    }
  }

  method Softmax(exp: real -> real, probs: array<Item>, n: nat, m: real)
    requires 0 < n <= probs.Length && IsExp(exp)
    modifies probs
    ensures Softened(exp, old(probs[..n]), m, probs[..n])
  {
    ghost var s := probs[..n];
    ExpSumPositive(exp, s, m, n);
    var sum := Exponentials(exp, probs, n, m);
    ghost var e := probs[..n];
    ScaleAll(probs, n, 1.0 / sum);
    SoftenedFrom(exp, s, m, e, probs[..n]);
  }

  /** The items with the exponentials of their shifted values. */
  ghost predicate Raised(exp: real -> real, s: seq<Item>, m: real, e: seq<Item>) {
    |e| == |s| && forall i :: 0 <= i < |s| ==> e[i] == Item(s[i].id, exp(s[i].val - m))
  }

  lemma SoftenedFrom(exp: real -> real, s: seq<Item>, m: real, e: seq<Item>, r: seq<Item>)
    requires |r| == |s| > 0 && ExpSum(exp, s, m, |s|) > 0.0 && Raised(exp, s, m, e)
    requires ScaledBy(e, 1.0 / ExpSum(exp, s, m, |s|), r)
    ensures Softened(exp, s, m, r)
  { }

  ghost predicate ScaledBy(e: seq<Item>, inv: real, r: seq<Item>) {
    |r| == |e| && forall i :: 0 <= i < |e| ==> r[i] == Item(e[i].id, RealTimes(e[i].val, inv))
  }

  method ScaleAll(probs: array<Item>, n: nat, inv: real)
    requires n <= probs.Length
    modifies probs
    ensures ScaledBy(old(probs[..n]), inv, probs[..n])
  {
    ghost var s := probs[..n];
    for i := 0 to n
      invariant forall j :: 0 <= j < i ==> probs[j] == Item(s[j].id, RealTimes(s[j].val, inv))
      invariant forall j :: i <= j < n ==> probs[j] == s[j]
    {
      probs[i] := Item(probs[i].id, RealTimes(probs[i].val, inv));
    }
  }

  // ---------------------------------------------------------------- choosing

  /** The first largest logit, provided it exceeds -1e9; otherwise 0. */
  ghost predicate FirstLargest(logits: seq<real>, best: nat) {
    && best < |logits|
    && ((exists i :: 0 <= i < |logits| && logits[i] > -1000000000.0) ==>
          (forall i :: 0 <= i < |logits| ==> logits[i] <= logits[best]) && (forall i :: 0 <= i < best ==> logits[i] < logits[best]))
    && ((forall i :: 0 <= i < |logits| ==> logits[i] <= -1000000000.0) ==> best == 0)
  }

  method Greedy(logits: seq<real>) returns (best: nat)
    requires |logits| > 0
    ensures FirstLargest(logits, best)
  {
    best := 0;
    var max := GREEDY_FLOOR;
    for i := 0 to |logits|
      invariant best < |logits| && max >= GREEDY_FLOOR && (forall j :: 0 <= j < i ==> logits[j] <= max)
      invariant max > GREEDY_FLOOR ==> max == logits[best] && (forall j :: 0 <= j < best ==> logits[j] < max)
      invariant max == GREEDY_FLOOR ==> best == 0
    {
      if logits[i] > max { max, best := logits[i], i; }
    }
  }

  ghost predicate Largest(logits: seq<real>, best: nat) {
    best < |logits| && forall i :: 0 <= i < |logits| ==> logits[i] <= logits[best]
  }

  method ArgMax(logits: seq<real>) returns (best: nat)
    requires |logits| > 0
    ensures Largest(logits, best)
  {
    best := 0;
    for i := 1 to |logits|
      invariant best < |logits| && forall j :: 0 <= j < i ==> logits[j] <= logits[best]
    {
      if logits[i] > logits[best] { best := i; }
    }
  }

  method LargestVal(probs: array<Item>, n: nat) returns (m: real)
    requires n <= probs.Length
    ensures LocalMax(probs[..n], m)
  {
    m := FLOOR;
    for i := 0 to n
      invariant m >= FLOOR && forall j :: 0 <= j < i ==> probs[j].val <= m
      invariant m == FLOOR || exists j :: 0 <= j < i && probs[j].val == m
    {
      if probs[i].val > m { m := probs[i].val; }
    }
  }

  /** The running maximum of the survivors, which starts at -1e30. */
  ghost predicate LocalMax(s: seq<Item>, m: real) {
    m >= FLOOR && (forall i :: 0 <= i < |s| ==> s[i].val <= m) && (m == FLOOR || exists i :: 0 <= i < |s| && s[i].val == m)
  }

  /** `id` is what the draw `u` selects from the softmax of `top`, in descending order when the nucleus is cut. */
  ghost predicate Drawn(exp: real -> real, sort: seq<Item> -> seq<Item>, top: seq<Item>, m: real, soft: seq<Item>,
                        topP: real, u: real, id: nat) {
    && LocalMax(top, m) && Softened(exp, top, m, soft)
    && var s := if topP < 1.0 then sort(soft) else soft;
       |s| > 0 && id == s[Chosen(s, 0.0, topP, 0, u)].id
  }

  lemma SoftenedId(sort: seq<Item> -> seq<Item>, exp: real -> real, s: seq<Item>, m: real, r: seq<Item>, x: Item)
    returns (i: nat)
    requires Sorts(sort) && Softened(exp, s, m, r) && (x in r || x in sort(r))
    ensures i < |s| && s[i].id == x.id
  {
    SortedShape(sort, r);
    assert x in multiset(r) || x in multiset(sort(r));
    assert x in r;
    i :| 0 <= i < |r| && r[i] == x;
  }

  /** Whatever the conversion does, a survivor is a candidate: a token whose logit lies in the histogram's range. */
  lemma SurvivorId(conv: real -> int, s: seq<real>, thr: real, k: nat, i: nat)
    requires k > 0 && i < |Survivors(conv, s, thr, k)|
    ensures var x := Survivors(conv, s, thr, k)[i]; x.id < |s| && s[x.id] == x.val >= Limit(s, thr)
  {
    var ext, top := ExtractThreshold(conv, s, thr, k), Survivors(conv, s, thr, k);
    KeptIsTop(Cands(s, ext), k);
    assert top[i] in multiset(top) && top[i] in multiset(Cands(s, ext));
    CandsAre(s, ext, top[i]);
    CutoffAboveLimit(conv, s, thr, k);
  }

  lemma DrawnIsToken(conv: real -> int, exp: real -> real, sort: seq<Item> -> seq<Item>, logits: seq<real>, thr: real,
                     k: nat, m: real, soft: seq<Item>, topP: real, u: real, id: nat)
    requires k > 0 && Sorts(sort) && Drawn(exp, sort, Survivors(conv, logits, thr, k), m, soft, topP, u, id)
    ensures id < |logits| && logits[id] >= Limit(logits, thr)
  {
    var s := if topP < 1.0 then sort(soft) else soft;
    var i := SoftenedId(sort, exp, Survivors(conv, logits, thr, k), m, soft, s[Chosen(s, 0.0, topP, 0, u)]);
    SurvivorId(conv, logits, thr, k, i);
  }

  /** Softmax over the survivors, sorted when the nucleus is to be cut, and the draw. */
  method SampleSurvivors(exp: real -> real, sort: seq<Item> -> seq<Item>, n: nat, topP: real, u: real,
                         probs: array<Item>)
    returns (id: nat, ghost m: real, ghost soft: seq<Item>)
    requires 0 < n <= probs.Length && IsExp(exp) && Sorts(sort)
    modifies probs
    ensures Drawn(exp, sort, old(probs[..n]), m, soft, topP, u, id)
  {
    var max := LargestVal(probs, n);
    Softmax(exp, probs, n, max);
    m, soft := max, probs[..n];
    var s := probs[..n];
    if topP < 1.0 {
      s := sort(s);
      SortedShape(sort, soft);
    }
    id := FilterAndSample(s, 0.0, topP, 0, u);
  }

  /** With top_k active: the draw from the softmaxed survivors, or the argmax when there are none. */
  method SampleTopK(conv: real -> int, exp: real -> real, sort: seq<Item> -> seq<Item>, logits: seq<real>, thr: real,
                    k: nat, topP: real, u: real, probs: array<Item>) returns (id: nat)
    requires |logits| > 0 && k > 0 && probs.Length >= |logits| && IsExp(exp) && Sorts(sort)
    modifies probs
    ensures id < |logits|
    ensures var top := Survivors(conv, logits, thr, k);
            if top == [] then forall i :: 0 <= i < |logits| ==> logits[i] <= logits[id]
            else logits[id] >= Limit(logits, thr) && exists m, soft :: Drawn(exp, sort, top, m, soft, topP, u, id)
  {
    var n := SelectCandidates(conv, logits, MaxLogit(logits), thr, k, probs);
    assert probs[..n] == Survivors(conv, logits, thr, k);
    if n == 0 {
      id := ArgMax(logits);
      return;
    }
    ghost var m, soft;
    id, m, soft := SampleSurvivors(exp, sort, n, topP, u, probs);
    DrawnIsToken(conv, exp, sort, logits, thr, k, m, soft, topP, u, id);
  }
}
