/**
 * The last stage of sampling: min_p, nucleus and top_k cuts of a descending list, the draw, and the
 * shortcut that sorts only the 256 largest.
 */
module Nucleus {
  import opened Basics
  import opened TopHeap

  const PARTIAL := 256

  /** Sum of the first `n` probabilities. */
  function Prefix(s: seq<Item>, n: nat): real
    requires n <= |s|
  {
    if n == 0 then 0.0 else Prefix(s, n - 1) + s[n - 1].val
  }

  ghost predicate NonNegative(s: seq<Item>) { forall i :: 0 <= i < |s| ==> s[i].val >= 0.0 }

  lemma {:induction false} PrefixGrows(s: seq<Item>, i: nat, j: nat)
    requires i <= j <= |s| && NonNegative(s)
    ensures Prefix(s, i) <= Prefix(s, j)
    decreases j
  {
    if i < j { PrefixGrows(s, i, j - 1); }
  }

  // ---------------------------------------------------------------- the cuts

  /** First item from `i` on below the threshold, `n` if none. */
  function MinPFrom(s: seq<Item>, n: nat, thr: real, i: nat): (r: nat)
    requires i <= n <= |s|
    ensures i <= r <= n
    decreases n - i
  {
    if i == n || s[i].val < thr then i else MinPFrom(s, n, thr, i + 1)
  }

  function MinPCut(s: seq<Item>, n: nat, minP: real): (r: nat)
    requires 0 < n <= |s|
    ensures 0 < r <= n
  {
    if minP > 0.0 then MinPFrom(s, n, s[0].val * minP, 1) else n
  }

  /** The nucleus: up to and including the item that brings the sum to `topP`. */
  function NucleusFrom(s: seq<Item>, n: nat, topP: real, i: nat): (r: nat)
    requires i < n <= |s|
    ensures i < r <= n
    decreases n - i
  {
    if Prefix(s, i + 1) >= topP || i + 1 == n then i + 1 else NucleusFrom(s, n, topP, i + 1)
  }

  function NucleusCut(s: seq<Item>, n: nat, topP: real): (r: nat)
    requires 0 < n <= |s|
    ensures 0 < r <= n
  {
    if topP < 1.0 then NucleusFrom(s, n, topP, 0) else n
  }

  function TopKCut(n: nat, topK: int): (r: nat)
    requires n > 0
    ensures 0 < r <= n
  {
    if topK > 0 && topK < n then topK else n
  }

  function Kept(s: seq<Item>, minP: real, topP: real, topK: int): (r: nat)
    requires |s| > 0
    ensures 0 < r <= |s|
  {
    TopKCut(NucleusCut(s, MinPCut(s, |s|, minP), topP), topK)
  }

  /** No shorter non-empty prefix reaches `topP`, and this one does if any does. */
  lemma {:induction false} NucleusIsShortest(s: seq<Item>, n: nat, topP: real, i: nat)
    requires i < n <= |s| && (forall j :: 1 <= j <= i ==> Prefix(s, j) < topP)
    ensures var r := NucleusFrom(s, n, topP, i);
            (forall j :: 1 <= j < r ==> Prefix(s, j) < topP) && (Prefix(s, r) >= topP || r == n)
    decreases n - i
  {
    if !(Prefix(s, i + 1) >= topP || i + 1 == n) { NucleusIsShortest(s, n, topP, i + 1); }
  }

  /** The nucleus is the shortest prefix that reaches `topP`, and it is never empty. */
  lemma NucleusIff(s: seq<Item>, topP: real, r: nat)
    requires 0 < r <= |s| && topP < 1.0
    ensures NucleusCut(s, |s|, topP) == r <==>
              ((forall j :: 1 <= j < r ==> Prefix(s, j) < topP) && (Prefix(s, r) >= topP || r == |s|))
  {
    NucleusIsShortest(s, |s|, topP, 0);
    var c := NucleusCut(s, |s|, topP);
    if c < r { assert 1 <= c < r; }
    if r < c { assert 1 <= r < c; }
  }

  lemma {:induction false} MinPFromIs(s: seq<Item>, n: nat, thr: real, i: nat)
    requires i <= n <= |s|
    ensures var r := MinPFrom(s, n, thr, i);
            (forall j :: i <= j < r ==> s[j].val >= thr) && (r < n ==> s[r].val < thr)
    decreases n - i
  {
    if !(i == n || s[i].val < thr) { MinPFromIs(s, n, thr, i + 1); }
  }

  ghost predicate Desc(s: seq<Item>) { forall i, j :: 0 <= i <= j < |s| ==> s[i].val >= s[j].val }

  /** On a descending list the min_p cut keeps exactly the items at or above the threshold, and the first. */
  lemma MinPKeeps(s: seq<Item>, minP: real, j: nat)
    requires 0 < j < |s| && Desc(s) && minP > 0.0
    ensures j < MinPCut(s, |s|, minP) <==> s[j].val >= s[0].val * minP
  {
    MinPFromIs(s, |s|, s[0].val * minP, 1);
  }

  // ---------------------------------------------------------------- the draw

  /** First index whose prefix sum exceeds the draw, the last one if none does. */
  function PickFrom(s: seq<Item>, n: nat, r: real, i: nat): (p: nat)
    requires i < n <= |s|
    ensures i <= p < n
    decreases n - i
  {
    if r < Prefix(s, i + 1) || i + 1 == n then i else PickFrom(s, n, r, i + 1)
  }

  lemma {:induction false} PickIs(s: seq<Item>, n: nat, r: real, i: nat)
    requires i < n <= |s| && Prefix(s, i) <= r
    ensures var p := PickFrom(s, n, r, i); Prefix(s, p) <= r && (r < Prefix(s, p + 1) || p == n - 1)
    decreases n - i
  {
    if !(r < Prefix(s, i + 1) || i + 1 == n) { PickIs(s, n, r, i + 1); }
  }

  /**
   * Index `i` is chosen exactly when the draw lies between consecutive prefix sums; the last one also
   * when the draw is past the end. The interval of `i` is as long as its probability.
   */
  lemma PickIff(s: seq<Item>, n: nat, r: real, i: nat)
    requires i < n <= |s| && NonNegative(s) && r >= 0.0
    ensures PickFrom(s, n, r, 0) == i <==> Prefix(s, i) <= r && (r < Prefix(s, i + 1) || i == n - 1)
    ensures Prefix(s, i + 1) - Prefix(s, i) == s[i].val
  {
    PickIs(s, n, r, 0);
    var p := PickFrom(s, n, r, 0);
    if p < i { PrefixGrows(s, p + 1, i); }
    if i < p { PrefixGrows(s, i + 1, p); }
  }

  function Chosen(s: seq<Item>, minP: real, topP: real, topK: int, u: real): (p: nat)
    requires |s| > 0
    ensures p < |s|
  {
    var n := Kept(s, minP, topP, topK);
    PickFrom(s, n, RealTimes(u, Prefix(s, n)), 0)
  }

  /** With a draw in [0, 1) and positive mass the fallback is never taken. */
  lemma NoFallback(s: seq<Item>, n: nat, u: real)
    requires 0 < n <= |s| && NonNegative(s) && Prefix(s, n) > 0.0 && 0.0 <= u < 1.0
    ensures var r, p := RealTimes(u, Prefix(s, n)), PickFrom(s, n, RealTimes(u, Prefix(s, n)), 0);
            Prefix(s, p) <= r < Prefix(s, p + 1)
  {
    DrawBelow(u, Prefix(s, n));
    PickIs(s, n, RealTimes(u, Prefix(s, n)), 0);
  }

  lemma DrawBelow(u: real, sum: real)
    requires 0.0 <= u < 1.0 && sum > 0.0
    ensures 0.0 <= RealTimes(u, sum) < sum
  {
    assert (1.0 - u) * sum > 0.0;
    assert (1.0 - u) * sum == sum - u * sum;
  }

  /** The first item at or after the start that brings the running sum to the target. */
  method FilterAndSample(probs: seq<Item>, minP: real, topP: real, topK: int, u: real) returns (id: nat)
    requires |probs| > 0
    ensures id == probs[Chosen(probs, minP, topP, topK, u)].id
  {
    var n := |probs|;
    if minP > 0.0 { n := CutMinP(probs, minP); }
    if topP < 1.0 { n := CutNucleus(probs, n, topP); }
    if topK > 0 && topK < n { n := topK; }
    var sum := 0.0;
    for i := 0 to n
      invariant sum == Prefix(probs, i)
    {
      sum := sum + probs[i].val;
    }
    var p := Draw(probs, n, RealTimes(u, sum));
    return probs[p].id;
  }

  method CutMinP(probs: seq<Item>, minP: real) returns (n: nat)
    requires |probs| > 0 && minP > 0.0
    ensures n == MinPCut(probs, |probs|, minP)
  {
    n := |probs|;
    var thr := probs[0].val * minP;
    var i := 1;
    while i < |probs|
      invariant 1 <= i <= |probs| && n == |probs| && MinPCut(probs, |probs|, minP) == MinPFrom(probs, |probs|, thr, i)
    {
      if probs[i].val < thr {
        n := i;
        break;
      }
      i := i + 1;
    }
  }

  method CutNucleus(probs: seq<Item>, m: nat, topP: real) returns (n: nat)
    requires 0 < m <= |probs| && topP < 1.0
    ensures n == NucleusCut(probs, m, topP)
  {
    n := m;
    var cs := 0.0;
    var i := 0;
    while i < m
      invariant i <= m == n && cs == Prefix(probs, i)
      invariant NucleusCut(probs, m, topP) == if i < m then NucleusFrom(probs, m, topP, i) else m
    {
      cs := cs + probs[i].val;
      if cs >= topP {
        n := i + 1;
        break;
      }
      i := i + 1;
    }
  }

  method Draw(probs: seq<Item>, n: nat, r: real) returns (p: nat)
    requires 0 < n <= |probs|
    ensures p == PickFrom(probs, n, r, 0)
  {
    var cdf := 0.0;
    var i := 0;
    while i < n
      invariant i <= n && cdf == Prefix(probs, i)
      invariant PickFrom(probs, n, r, 0) == if i < n then PickFrom(probs, n, r, i) else n - 1
    {
      cdf := cdf + probs[i].val;
      if r < cdf { return i; }
      i := i + 1;
    }
    p := n - 1;
  }

  // ---------------------------------------------------------------- sorting only the largest

  ghost function CountGe(s: seq<Item>, v: real): nat {
    if s == [] then 0 else CountGe(s[..|s| - 1], v) + if s[|s| - 1].val >= v then 1 else 0
  }

  function Without(s: seq<Item>, i: nat): (r: seq<Item>)
    requires i < |s|
    ensures |r| == |s| - 1
  {
    s[..i] + s[i + 1..]
  }

  lemma {:induction false} CountConcat(a: seq<Item>, b: seq<Item>, v: real)
    ensures CountGe(a + b, v) == CountGe(a, v) + CountGe(b, v)
    decreases |b|
  {
    if b == [] {
      assert a + b == a;
    } else {
      var n := |b| - 1;
      CountConcat(a, b[..n], v);
      assert (a + b)[..|a + b| - 1] == a + b[..n];
    }
  }

  lemma WithoutCounts(s: seq<Item>, i: nat, v: real)
    requires i < |s|
    ensures CountGe(s, v) == CountGe(Without(s, i), v) + if s[i].val >= v then 1 else 0
    ensures multiset(s) == multiset(Without(s, i)) + multiset{s[i]}
  {
    assert s == s[..i] + ([s[i]] + s[i + 1..]);
    CountConcat(s[..i], [s[i]] + s[i + 1..], v);
    CountConcat([s[i]], s[i + 1..], v);
    CountConcat(s[..i], s[i + 1..], v);
    assert [s[i]][..0] == [];
  }

  lemma {:induction false} SomeCounted(s: seq<Item>, v: real) returns (y: Item)
    requires CountGe(s, v) > 0
    ensures y in multiset(s) && y.val >= v
  {
    var n := |s| - 1;
    assert s == s[..n] + [s[n]];
    if s[n].val >= v { y := s[n]; } else { y := SomeCounted(s[..n], v); }
  }

  /** The last item of a part, taken out of both. */
  lemma DropLast(a: seq<Item>, b: seq<Item>) returns (i: nat)
    requires |a| > 0 && multiset(a) <= multiset(b)
    ensures i < |b| && b[i] == a[|a| - 1] && multiset(a[..|a| - 1]) <= multiset(Without(b, i))
    ensures multiset(b) - multiset(a) == multiset(Without(b, i)) - multiset(a[..|a| - 1])
  {
    var x := a[|a| - 1];
    assert a == a[..|a| - 1] + [x];
    assert multiset(a)[x] >= 1 && multiset(b)[x] >= 1;
    assert x in multiset(b);
    i :| 0 <= i < |b| && b[i] == x;
    WithoutCounts(b, i, 0.0);
    assert multiset(a) == multiset(a[..|a| - 1]) + multiset{x};
    forall y ensures multiset(a[..|a| - 1])[y] <= multiset(Without(b, i))[y] {
      assert multiset(a)[y] <= multiset(b)[y];
    }
  }

  /** More items reach `v` in `b` than in its part `a`, so one of those left out does. */
  lemma {:induction false} LeftOver(a: seq<Item>, b: seq<Item>, v: real) returns (y: Item)
    requires multiset(a) <= multiset(b) && CountGe(a, v) < CountGe(b, v)
    ensures y in multiset(b) - multiset(a) && y.val >= v
    decreases |a|
  {
    if a == [] {
      y := SomeCounted(b, v);
    } else {
      var i := DropLast(a, b);
      WithoutCounts(b, i, v);
      y := LeftOver(a[..|a| - 1], Without(b, i), v);
    }
  }

  lemma {:induction false} PartCounts(a: seq<Item>, b: seq<Item>, v: real)
    requires multiset(a) <= multiset(b)
    ensures CountGe(a, v) <= CountGe(b, v)
    decreases |a|
  {
    if a != [] {
      var i := DropLast(a, b);
      WithoutCounts(b, i, v);
      PartCounts(a[..|a| - 1], Without(b, i), v);
    }
  }

  lemma {:induction false} DescCount(s: seq<Item>, v: real, i: nat)
    requires Desc(s) && i < |s|
    ensures s[i].val >= v ==> CountGe(s, v) >= i + 1
    ensures s[i].val < v ==> CountGe(s, v) <= i
    decreases |s|
  {
    var n := |s| - 1;
    if i < n {
      DescCount(s[..n], v, i);
    } else if n > 0 {
      DescCount(s[..n], v, n - 1);
      CountAtMost(s[..n], v);
    }
  }

  lemma {:induction false} CountAtMost(s: seq<Item>, v: real)
    ensures CountGe(s, v) <= |s|
  {
    if s != [] { CountAtMost(s[..|s| - 1], v); }
  }

  /** The sorted top and the sorted whole agree in value, place by place. */
  lemma TopPlaces(top: seq<Item>, full: seq<Item>, i: nat)
    requires Desc(top) && Desc(full) && i < |top| <= |full| && IsTop(multiset(top), multiset(full))
    ensures top[i].val == full[i].val
  {
    var v, w := top[i].val, full[i].val;
    if v > w {
      DescCount(top, v, i);
      DescCount(full, v, i);
      PartCounts(top, full, v);
    } else if w > v {
      DescCount(top, w, i);
      DescCount(full, w, i);
      assert top[i] in multiset(top);
      var y := LeftOver(top, full, w);
    }
  }

  lemma {:induction false} SamePrefix(top: seq<Item>, full: seq<Item>, n: nat)
    requires n <= |top| && n <= |full| && forall i :: 0 <= i < n ==> top[i].val == full[i].val
    ensures Prefix(top, n) == Prefix(full, n)
  {
    if n > 0 { SamePrefix(top, full, n - 1); }
  }

  lemma {:induction false} SamePick(top: seq<Item>, full: seq<Item>, n: nat, r: real, i: nat)
    requires i < n <= |top| && n <= |full| && forall j :: 0 <= j < n ==> top[j].val == full[j].val
    ensures PickFrom(top, n, r, i) == PickFrom(full, n, r, i)
    decreases n - i
  {
    SamePrefix(top, full, i + 1);
    if !(r < Prefix(top, i + 1) || i + 1 == n) { SamePick(top, full, n, r, i + 1); }
  }

  /** Some prefix of the top reaches `topP`. */
  ghost predicate Covers(top: seq<Item>, topP: real) { exists j :: 1 <= j <= |top| && Prefix(top, j) >= topP }

  lemma SameNucleus(top: seq<Item>, full: seq<Item>, topP: real)
    requires 0 < |top| <= |full| && topP < 1.0 && Covers(top, topP)
    requires forall i :: 0 <= i < |top| ==> top[i].val == full[i].val
    ensures NucleusCut(top, |top|, topP) == NucleusCut(full, |full|, topP)
  {
    var r := NucleusCut(top, |top|, topP);
    NucleusIsShortest(top, |top|, topP, 0);
    var j :| 1 <= j <= |top| && Prefix(top, j) >= topP;
    forall j | 1 <= j <= r ensures Prefix(full, j) == Prefix(top, j) { SamePrefix(top, full, j); }
    NucleusIff(full, topP, r);
  }

  ghost predicate DistinctVals(s: seq<Item>) { forall i, j :: 0 <= i < j < |s| ==> s[i].val != s[j].val }

  /**
   * Sorting only the largest refines sorting all: the same nucleus, the same renormalizing sum, the
   * same position, the same probability there, and the same id when probabilities are distinct.
   */
  lemma PartialIsFull(top: seq<Item>, full: seq<Item>, topP: real, topK: int, u: real)
    requires Desc(top) && Desc(full) && 0 < |top| <= |full| && IsTop(multiset(top), multiset(full))
    requires topP < 1.0 && Covers(top, topP)
    ensures var n := Kept(top, 0.0, topP, topK); n == Kept(full, 0.0, topP, topK) && Prefix(top, n) == Prefix(full, n)
    ensures var p := Chosen(top, 0.0, topP, topK, u); p == Chosen(full, 0.0, topP, topK, u) && top[p].val == full[p].val
    ensures DistinctVals(full) ==>
      var p := Chosen(top, 0.0, topP, topK, u); top[p].id == full[p].id
  {
    forall i | 0 <= i < |top| ensures top[i].val == full[i].val { TopPlaces(top, full, i); }
    SameNucleus(top, full, topP);
    var n := Kept(top, 0.0, topP, topK);
    SamePrefix(top, full, n);
    SamePick(top, full, n, RealTimes(u, Prefix(top, n)), 0);
    var p := Chosen(top, 0.0, topP, topK, u);
    if DistinctVals(full) { SameItem(top, full, p); }
  }

  lemma SameItem(top: seq<Item>, full: seq<Item>, p: nat)
    requires p < |top| <= |full| && multiset(top) <= multiset(full) && top[p].val == full[p].val && DistinctVals(full)
    ensures top[p] == full[p]
  {
    assert top[p] in multiset(top);
    assert top[p] in full;
    var i :| 0 <= i < |full| && full[i] == top[p];
  }

  /** Any sorting routine: some descending permutation, ties in any order. */
  ghost predicate Sorts(sort: seq<Item> -> seq<Item>) {
    forall s :: Desc(sort(s)) && multiset(sort(s)) == multiset(s)
  }

  method OfferTo(top: array<Item>, z: Item)
    requires top.Length > 0
    modifies top
    ensures top[..] == Offer(old(top[..]), z)
  {
    if z.val > top[0].val {
      ghost var before := top[..];
      top[0] := z;
      assert top[..top.Length] == before[0 := z];
      SiftDown(top, top.Length, 0);
      assert top[..] == top[..top.Length];
    }
  }

  /** The first `k` items in a buffer of their own. */
  method CopyFirst(probs: array<Item>, k: nat) returns (top: array<Item>)
    requires k <= probs.Length
    ensures fresh(top) && top[..] == probs[..k]
  {
    top := new Item[k](i requires 0 <= i < k <= probs.Length reads probs => probs[i]);
  }

  method OfferAll(top: array<Item>, rest: seq<Item>)
    requires top.Length > 0
    modifies top
    ensures top[..] == Scan(old(top[..]), rest)
  {
    ghost var h := top[..];
    for i := 0 to |rest|
      invariant top[..] == Scan(h, rest[..i])
    {
      assert rest[..i + 1][..i] == rest[..i];
      OfferTo(top, rest[i]);
    }
    assert rest[..|rest|] == rest;
  }

  /** Heap-select the largest into a buffer of their own. */
  method SelectCopy(probs: array<Item>, k: nat, n: nat) returns (top: array<Item>)
    requires 0 < k <= n <= probs.Length
    ensures fresh(top) && top[..] == Select(probs[..n], k)
  {
    top := CopyFirst(probs, k);
    ghost var s := probs[..n];
    assert top.Length == |top[..]| == k && top[..k] == top[..] == s[..k];
    BuildMinHeap(top, k);
    assert top[..k] == top[..];
    assert probs[k..n] == s[k..];
    OfferAll(top, probs[k..n]);
  }

  lemma SortedShape(sort: seq<Item> -> seq<Item>, s: seq<Item>)
    requires Sorts(sort)
    ensures Desc(sort(s)) && multiset(sort(s)) == multiset(s) && |sort(s)| == |s|
  {
    assert |multiset(sort(s))| == |sort(s)| && |multiset(s)| == |s|;
  }

  /** `id` belongs to a candidate as probable as the one the full sort draws; to that very one if all differ. */
  ghost predicate DrawnAs(cands: seq<Item>, full: seq<Item>, topP: real, topK: int, u: real, id: nat) {
    && |full| > 0
    && var x := full[Chosen(full, 0.0, topP, topK, u)];
       (DistinctVals(full) ==> id == x.id) && exists y :: y in cands && y.id == id && y.val == x.val
  }

  lemma FullDrawn(cands: seq<Item>, full: seq<Item>, topP: real, topK: int, u: real)
    requires |full| > 0 && multiset(full) == multiset(cands)
    ensures DrawnAs(cands, full, topP, topK, u, full[Chosen(full, 0.0, topP, topK, u)].id)
  {
    var x := full[Chosen(full, 0.0, topP, topK, u)];
    assert x in multiset(full);
    assert x in cands;
  }

  lemma PartialDrawn(cands: seq<Item>, full: seq<Item>, top: seq<Item>, topP: real, topK: int, u: real)
    requires Desc(top) && Desc(full) && 0 < |top| <= |full| && multiset(full) == multiset(cands)
    requires IsTop(multiset(top), multiset(cands)) && topP < 1.0 && Covers(top, topP)
    ensures DrawnAs(cands, full, topP, topK, u, top[Chosen(top, 0.0, topP, topK, u)].id)
  {
    PartialIsFull(top, full, topP, topK, u);
    var x := top[Chosen(top, 0.0, topP, topK, u)];
    assert x in multiset(top);
    assert x in cands;
  }

  /** Does the running sum reach `topP`? */
  method Reaches(top: seq<Item>, topP: real) returns (b: bool)
    requires |top| > 0
    ensures b == Covers(top, topP)
  {
    var cs := 0.0;
    for i := 0 to |top|
      invariant cs == Prefix(top, i) && forall j :: 1 <= j <= i ==> Prefix(top, j) < topP
    {
      cs := cs + top[i].val;
      if cs >= topP {
        assert Prefix(top, i + 1) >= topP;
        return true;
      }
    }
    return false;
  }

  /** The id drawn from the sorted candidates, sorting only the largest when they suffice. */
  method SampleNucleus(sort: seq<Item> -> seq<Item>, probs: array<Item>, n: nat, topP: real, topK: int, u: real)
    returns (id: nat)
    requires Sorts(sort) && 0 < n <= probs.Length && topP < 1.0
    ensures DrawnAs(probs[..n], sort(probs[..n]), topP, topK, u, id)
  {
    ghost var cands := probs[..n];
    SortedShape(sort, cands);
    if n > PARTIAL {
      var buf := SelectCopy(probs, PARTIAL, n);
      ghost var sel := buf[..];
      SelectTop(cands, PARTIAL);
      SortedShape(sort, sel);
      var top := sort(buf[..]);
      var enough := Reaches(top, topP);
      if enough {
        id := FilterAndSample(top, 0.0, topP, topK, u);
        PartialDrawn(cands, sort(cands), top, topP, topK, u);
        return;
      }
    }
    id := FilterAndSample(sort(probs[..n]), 0.0, topP, topK, u);
    FullDrawn(cands, sort(cands), topP, topK, u);
  }
}
