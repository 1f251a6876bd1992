/**
 * The sampler from temperature to token, both with and without top_k.
 */
module SampleAdvanced {
  import opened Basics
  import opened TopHeap
  import opened TopK
  import opened Nucleus
  import opened Sampler
  import opened SampleSpec
  import opened SampleMeaning

  /** Without top_k: everything above the threshold, sorted only as far as needed. */
  method SampleAll(exp: real -> real, sort: seq<Item> -> seq<Item>, logits: seq<real>, max: real, thr: real,
                   topP: real, topK: int, u: real,
                   probs: array<Item>) returns (id: nat)
    requires |logits| > 0 && probs.Length >= |logits| && IsExp(exp) && Sorts(sort)
    modifies probs
    ensures var cands := Cands(logits, thr);
            if cands == [] then Largest(logits, id)
            else exists soft :: Softened(exp, cands, max, soft) && DrawnFrom(sort, soft, topP, topK, u, id)
  {
    var n := Extract(logits, thr, probs);
    if n == 0 {
      id := ArgMax(logits);
      return;
    }
    Softmax(exp, probs, n, max);
    id := SampleSoft(sort, n, topP, topK, u, probs);
  }

  method SampleSoft(sort: seq<Item> -> seq<Item>, n: nat, topP: real, topK: int, u: real, probs: array<Item>)
    returns (id: nat)
    requires 0 < n <= probs.Length && Sorts(sort)
    ensures DrawnFrom(sort, probs[..n], topP, topK, u, id)
  {
    if topP >= 1.0 && (topK <= 0 || topK >= n) {
      id := FilterAndSample(probs[..n], 0.0, topP, topK, u);
    } else if topP < 1.0 {
      id := SampleNucleus(sort, probs, n, topP, topK, u);
    } else {
      SortedShape(sort, probs[..n]);
      id := FilterAndSample(sort(probs[..n]), 0.0, topP, topK, u);
      FullDrawn(probs[..n], sort(probs[..n]), topP, topK, u);
    }
  }

  lemma DrawnIsSampled(conv: real -> int, exp: real -> real, sort: seq<Item> -> seq<Item>, s: seq<real>, thr: real,
                       topP: real, topK: int, u: real,
                       m: real, soft: seq<Item>, id: nat)
    requires Sorts(sort) && UsesTopK(topK) && id < |s| && Drawn(exp, sort, KeptItems(conv, s, thr, topK), m, soft, topP, u, id)
    ensures Sampled(conv, exp, sort, s, thr, topP, topK, u, id)
  {
    SortedShape(sort, soft);
    if topP < 1.0 { FullDrawn(soft, sort(soft), topP, 0, u); }
  }

  /** Whatever is kept is a candidate, so its id is a token. */
  lemma DrawnInRange(exp: real -> real, sort: seq<Item> -> seq<Item>, s: seq<real>, thr: real, m: real,
                     soft: seq<Item>, topP: real, topK: int, u: real, id: nat)
    requires Softened(exp, Cands(s, thr), m, soft) && DrawnFrom(sort, soft, topP, topK, u, id)
    ensures id < |s|
  {
    var y :| y in soft && y.id == id;
    var i :| 0 <= i < |soft| && soft[i] == y;
    var x := Cands(s, thr)[i];
    assert x in multiset(Cands(s, thr));
    CandsAre(s, thr, x);
  }

  /** Temperature, threshold, selection and draw. Below 0.05 the temperature means greedy choice. */
  method Sample(conv: real -> int, exp: real -> real, sort: seq<Item> -> seq<Item>, logits: array<real>, temp: real,
                minP: real, logMinP: real,
                topP: real, topK: int, u: real, probs: array<Item>) returns (id: nat)
    requires logits.Length > 0 && probs.Length >= logits.Length && IsExp(exp) && Sorts(sort)
    modifies logits, probs
    ensures temp < 0.05 ==> FirstLargest(old(logits[..]), id) && logits[..] == old(logits[..])
    ensures temp >= 0.05 ==> Divided(old(logits[..]), temp, logits[..])
    ensures temp >= 0.05 ==> Sound(conv, exp, logits[..], minP, logMinP, topP, topK, u, id)
  {
    if temp < GREEDY_BELOW {
      id := Greedy(logits[..]);
      return;
    }
    var max := ScaleAndMax(logits, 1.0 / temp);
    TemperedIs(old(logits[..]), temp);
    var thr := MinPThreshold(max, minP, logMinP);
    id := SampleScaled(conv, exp, sort, logits[..], max, thr, topP, topK, u, probs);
    SampledIsSound(conv, exp, sort, logits[..], minP, logMinP, topP, topK, u, id);
  }

  /** The two paths behind the common scan. */
  method SampleScaled(conv: real -> int, exp: real -> real, sort: seq<Item> -> seq<Item>, s: seq<real>, max: real,
                      thr: real, topP: real, topK: int, u: real,
                      probs: array<Item>) returns (id: nat)
    requires |s| > 0 && probs.Length >= |s| && IsExp(exp) && Sorts(sort) && max == MaxLogit(s)
    modifies probs
    ensures Sampled(conv, exp, sort, s, thr, topP, topK, u, id)
  {
    if UsesTopK(topK) {
      id := SampleTopK(conv, exp, sort, s, thr, topK, topP, u, probs);
      ghost var top := Survivors(conv, s, thr, topK);
      if top != [] {
        ghost var m, soft :| Drawn(exp, sort, top, m, soft, topP, u, id);
        DrawnIsSampled(conv, exp, sort, s, thr, topP, topK, u, m, soft, id);
      }
    } else {
      id := SampleAll(exp, sort, s, max, thr, topP, topK, u, probs);
      ghost var cands := Cands(s, thr);
      if cands != [] {
        ghost var soft :| Softened(exp, cands, max, soft) && DrawnFrom(sort, soft, topP, topK, u, id);
        DrawnInRange(exp, sort, s, thr, max, soft, topP, topK, u, id);
      }
    }
  }
}
