/**
 * Sampling as a textbook has it: softmax over all tokens, keep the likely ones, arrange, cut, and let the draw
 * fall into the share of one of them.
 */
module SampleSpec {
  import opened Basics
  import opened TopHeap
  import opened Nucleus

  // ---------------------------------------------------------------- which tokens may be drawn

  ghost function Total(exp: real -> real, l: seq<real>): real {
    if l == [] then 0.0 else Total(exp, l[..|l| - 1]) + exp(l[|l| - 1])
  }

  /** The softmax probability of token `i`. */
  ghost function Prob(exp: real -> real, l: seq<real>, i: nat): real
    requires i < |l| && Total(exp, l) > 0.0
  {
    exp(l[i]) / Total(exp, l)
  }

  /** Token `i` is at least `minP` times as likely as the likeliest one; nothing more than that is asked. */
  ghost predicate Likely(exp: real -> real, l: seq<real>, minP: real, i: nat) {
    && i < |l| && Total(exp, l) > 0.0
    && forall j :: 0 <= j < |l| ==> Prob(exp, l, i) >= RealTimes(if minP < 1.0 then minP else 1.0, Prob(exp, l, j))
  }

  /** Token `i` passes min_p; without min_p only logits below -1e30 fail. */
  ghost predicate Passes(exp: real -> real, l: seq<real>, minP: real, i: nat) {
    if minP > 0.0 then Likely(exp, l, minP, i) else i < |l| && l[i] >= -1000000000000000000000000000000.0
  }

  /** A top_k of at most 256 looks only at logits within 128 buckets of 20/127 of the largest. */
  predicate InReach(l: seq<real>, i: nat) { i < |l| && forall j :: 0 <= j < |l| ==> l[i] >= l[j] - 2560.0 / 127.0 }

  predicate Selects(topK: int) { 0 < topK <= 256 }

  ghost predicate Eligible(exp: real -> real, l: seq<real>, minP: real, topK: int, i: nat) {
    Passes(exp, l, minP, i) && (Selects(topK) ==> InReach(l, i))
  }

  /** Every eligible token once, with its logit. */
  ghost predicate IsPool(exp: real -> real, l: seq<real>, minP: real, topK: int, pool: multiset<Item>) {
    forall x :: pool[x] == if Eligible(exp, l, minP, topK, x.id) && x.val == l[x.id] then 1 else 0
  }

  /** The pool, or with top_k the largest of it. */
  ghost predicate KeptOf(exp: real -> real, l: seq<real>, minP: real, topK: int, kept: seq<Item>) {
    exists pool :: IsPool(exp, l, minP, topK, pool) && LargestOf(topK, pool, kept)
  }

  ghost predicate LargestOf(topK: int, pool: multiset<Item>, kept: seq<Item>) {
    if !Selects(topK) then multiset(kept) == pool
    else
      && |kept| == (if |pool| < topK then |pool| else topK) && multiset(kept) <= pool
      && forall x, y :: x in multiset(kept) && y in pool - multiset(kept) ==> y.val <= x.val
  }

  // ---------------------------------------------------------------- the draw

  ghost function Mass(exp: real -> real, kept: seq<Item>): real {
    if kept == [] then 0.0 else Mass(exp, kept[..|kept| - 1]) + exp(kept[|kept| - 1].val)
  }

  /** The kept tokens with their probabilities. */
  ghost predicate Probabilities(exp: real -> real, kept: seq<Item>, q: seq<Item>) {
    && |q| == |kept| && Mass(exp, kept) > 0.0
    && forall i :: 0 <= i < |kept| ==> q[i] == Item(kept[i].id, exp(kept[i].val) / Mass(exp, kept))
  }

  /** The shortest non-empty prefix that reaches top_p, everything when top_p is 1, and at most top_k of it. */
  ghost predicate CutAt(order: seq<Item>, topP: real, topK: int, n: nat) {
    exists m: nat :: NucleusAt(order, topP, m) && n == if 0 < topK < m then topK else m
  }

  ghost predicate NucleusAt(order: seq<Item>, topP: real, m: nat) {
    && 0 < m <= |order|
    && if topP >= 1.0 then m == |order|
       else (forall j :: 1 <= j < m ==> Prefix(order, j) < topP) && (Prefix(order, m) >= topP || m == |order|)
  }

  /** The tokens in an order, descending if a cut needs it, the first `n` kept, and the draw in the share of `p`. */
  ghost predicate Drew(q: seq<Item>, topP: real, topK: int, u: real, id: nat, order: seq<Item>, n: nat, p: nat) {
    && multiset(order) == multiset(q) && (topP < 1.0 || 0 < topK < |q| ==> Desc(order))
    && CutAt(order, topP, topK, n) && p < n <= |order|
    && Prefix(order, p) <= RealTimes(u, Prefix(order, n)) < Prefix(order, p + 1) && id == order[p].id
  }

  ghost predicate DrawnBy(exp: real -> real, kept: seq<Item>, topP: real, topK: int, u: real, id: nat) {
    exists q, order, n, p :: Probabilities(exp, kept, q) && Drew(q, topP, topK, u, id, order, n, p)
  }

  ghost predicate TextbookSample(exp: real -> real, l: seq<real>, minP: real, topP: real, topK: int, u: real, id: nat) {
    exists kept :: KeptOf(exp, l, minP, topK, kept) && DrawnBy(exp, kept, topP, topK, u, id)
  }
}
