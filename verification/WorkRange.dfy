/** Balanced static partition of tasks over threads. */
module WorkRange {

  /** The tasks [r.0, r.1) of thread `tid`; empty for a tid beyond the thread count. */
  function Range(tid: nat, nThreads: nat, nTasks: nat): (r: (nat, nat))
    requires nThreads > 0
  {
    if tid >= nThreads then (nTasks, nTasks)
    else
      var base := nTasks / nThreads;
      var extra := nTasks % nThreads;
      if tid < extra then (tid * (base + 1), tid * (base + 1) + base + 1)
      else (extra * (base + 1) + (tid - extra) * base, extra * (base + 1) + (tid - extra) * base + base)
  }

  function Start(tid: nat, base: nat, extra: nat): nat { tid * base + if tid < extra then tid else extra }

  lemma StartFormula(tid: nat, nThreads: nat, nTasks: nat)
    requires tid < nThreads
    ensures var base, extra := nTasks / nThreads, nTasks % nThreads;
            Range(tid, nThreads, nTasks).0 == Start(tid, base, extra)
            && Range(tid, nThreads, nTasks).1 == Start(tid, base, extra) + base + if tid < extra then 1 else 0
  {
    var base, extra := nTasks / nThreads, nTasks % nThreads;
    if tid >= extra {
      assert extra * (base + 1) == extra * base + extra;
      assert (tid - extra) * base == tid * base - extra * base;
    }
  }

  lemma StartStep(tid: nat, base: nat, extra: nat)
    ensures Start(tid + 1, base, extra) == Start(tid, base, extra) + base + if tid < extra then 1 else 0
  {
    assert (tid + 1) * base == tid * base + base;
  }

  /** The ranges follow one another from 0 to `nTasks`, and their sizes differ by at most one. */
  lemma Adjacent(tid: nat, nThreads: nat, nTasks: nat)
    requires tid < nThreads
    ensures tid == 0 ==> Range(tid, nThreads, nTasks).0 == 0
    ensures Range(tid, nThreads, nTasks).0 <= Range(tid, nThreads, nTasks).1 == Range(tid + 1, nThreads, nTasks).0
    ensures nTasks / nThreads <= Range(tid, nThreads, nTasks).1 - Range(tid, nThreads, nTasks).0 <= nTasks / nThreads + 1
  {
    if tid == 0 { FirstStart(nThreads, nTasks); }
    Meets(tid, nThreads, nTasks);
    Size(tid, nThreads, nTasks);
  }

  lemma FirstStart(nThreads: nat, nTasks: nat)
    requires nThreads > 0
    ensures Range(0, nThreads, nTasks).0 == 0
  {
    StartFormula(0, nThreads, nTasks);
  }

  lemma Meets(tid: nat, nThreads: nat, nTasks: nat)
    requires tid < nThreads
    ensures Range(tid, nThreads, nTasks).1 == Range(tid + 1, nThreads, nTasks).0
  {
    StartFormula(tid, nThreads, nTasks);
    StartStep(tid, nTasks / nThreads, nTasks % nThreads);
    NextStart(tid, nThreads, nTasks);
  }

  lemma Size(tid: nat, nThreads: nat, nTasks: nat)
    requires tid < nThreads
    ensures nTasks / nThreads <= Range(tid, nThreads, nTasks).1 - Range(tid, nThreads, nTasks).0 <= nTasks / nThreads + 1
  {
    StartFormula(tid, nThreads, nTasks);
  }

  lemma NextStart(tid: nat, nThreads: nat, nTasks: nat)
    requires tid < nThreads
    ensures Range(tid + 1, nThreads, nTasks).0 == Start(tid + 1, nTasks / nThreads, nTasks % nThreads)
  {
    if tid + 1 < nThreads { StartFormula(tid + 1, nThreads, nTasks); } else { LastEnds(nThreads, nTasks); }
  }

  lemma LastEnds(nThreads: nat, nTasks: nat)
    requires nThreads > 0
    ensures Start(nThreads, nTasks / nThreads, nTasks % nThreads) == nTasks
  {
    var q, r := nTasks / nThreads, nTasks % nThreads;
    assert nThreads * q + r == nTasks;
  }

  lemma {:induction false} Climbs(bounds: seq<nat>, t: nat, u: nat)
    requires t <= u < |bounds| && forall k :: 0 <= k < |bounds| - 1 ==> bounds[k] <= bounds[k + 1]
    ensures bounds[t] <= bounds[u]
  {
    if t < u { Climbs(bounds, t, u - 1); assert bounds[u - 1] <= bounds[u - 1 + 1]; }
  }

  lemma Ordered(t: nat, u: nat, nThreads: nat, nTasks: nat)
    requires t < u < nThreads
    ensures Range(t, nThreads, nTasks).1 <= Range(u, nThreads, nTasks).0
  {
    var bounds := seq(nThreads, k requires 0 <= k < nThreads => Range(k, nThreads, nTasks).0);
    forall k | 0 <= k < nThreads - 1 ensures bounds[k] <= bounds[k + 1] { Adjacent(k, nThreads, nTasks); }
    Adjacent(t, nThreads, nTasks);
    Climbs(bounds, t + 1, u);
  }

  predicate InRange(x: nat, tid: nat, nThreads: nat, nTasks: nat)
    requires nThreads > 0
  {
    Range(tid, nThreads, nTasks).0 <= x < Range(tid, nThreads, nTasks).1
  }

  ghost predicate Owned(x: nat, nThreads: nat, nTasks: nat)
    requires nThreads > 0
  {
    exists t: nat :: t < nThreads && InRange(x, t, nThreads, nTasks)
  }

  lemma {:induction false} FindOwner(x: nat, nThreads: nat, nTasks: nat, t: nat) returns (u: nat)
    requires t < nThreads && x < Range(t, nThreads, nTasks).1
    ensures u <= t && InRange(x, u, nThreads, nTasks)
  {
    if InRange(x, t, nThreads, nTasks) { return t; }
    Adjacent(t, nThreads, nTasks);
    assert t > 0;
    Adjacent(t - 1, nThreads, nTasks);
    u := FindOwner(x, nThreads, nTasks, t - 1);
  }

  lemma Within(t: nat, nThreads: nat, nTasks: nat)
    requires t < nThreads
    ensures Range(t, nThreads, nTasks).0 <= Range(t, nThreads, nTasks).1 <= nTasks
  {
    Adjacent(t, nThreads, nTasks);
    Adjacent(nThreads - 1, nThreads, nTasks);
    if t < nThreads - 1 { Ordered(t, nThreads - 1, nThreads, nTasks); }
  }

  lemma Unique(x: nat, t: nat, u: nat, nThreads: nat, nTasks: nat)
    requires nThreads > 0 && InRange(x, t, nThreads, nTasks) && InRange(x, u, nThreads, nTasks)
    ensures t == u && t < nThreads && x < nTasks
  {
    if t < u { Ordered(t, u, nThreads, nTasks); }
    if u < t { Ordered(u, t, nThreads, nTasks); }
    Within(t, nThreads, nTasks);
  }

  /** Every task belongs to exactly one thread, and no thread is given anything else. */
  lemma Partition(nThreads: nat, nTasks: nat)
    requires nThreads > 0
    ensures forall x: nat :: x < nTasks ==> Owned(x, nThreads, nTasks)
    ensures forall x: nat, t: nat, u: nat ::
              InRange(x, t, nThreads, nTasks) && InRange(x, u, nThreads, nTasks) ==> t == u && t < nThreads && x < nTasks
  {
    Adjacent(nThreads - 1, nThreads, nTasks);
    forall x: nat | x < nTasks ensures Owned(x, nThreads, nTasks) {
      var t := FindOwner(x, nThreads, nTasks, nThreads - 1);
    }
    forall x: nat, t: nat, u: nat | InRange(x, t, nThreads, nTasks) && InRange(x, u, nThreads, nTasks)
      ensures t == u && t < nThreads && x < nTasks
    {
      Unique(x, t, u, nThreads, nTasks);
    }
  }
}
