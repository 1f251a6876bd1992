/** Thread placement over NUMA nodes, and the per-node counts a barrier is built from. */
module NumaPlacement {

  const MAX_NUMA := 8
  const MAX_CPUS := 256

  function Min(a: int, b: int): int { if a < b then a else b }

  function Sum(caps: seq<nat>, k: nat): nat
    requires k <= |caps|
  {
    if k == 0 then 0 else Sum(caps, k - 1) + caps[k - 1]
  }

  /** Running sums of the node sizes: entry `k` is the number of CPUs before node `k`. */
  function Starts(caps: seq<nat>): (r: seq<nat>)
    ensures |r| == |caps| + 1 && r[0] == 0
    ensures forall k :: 0 <= k < |caps| ==> r[k + 1] == r[k] + caps[k]
  {
    seq(|caps| + 1, k requires 0 <= k <= |caps| => Sum(caps, k))
  }

  /** The tid the sequential fill reaches node `k` with. */
  function CpusBefore(caps: seq<nat>, k: nat): nat
    requires k <= |caps|
  {
    Starts(caps)[k]
  }

  /** How many of `n` threads the sequential fill gives to node `k`, once it reaches it. */
  function Share(caps: seq<nat>, n: int, k: nat): int
    requires k < |caps|
  {
    Min(caps[k], n - CpusBefore(caps, k))
  }

  function TotalCpus(caps: seq<nat>): nat { CpusBefore(caps, |caps|) }

  lemma CpusBeforeMonotone(caps: seq<nat>, j: nat, k: nat)
    requires j <= k <= |caps|
    ensures CpusBefore(caps, j) <= CpusBefore(caps, k)
  {
    if j < k { CpusBeforeMonotone(caps, j, k - 1); }
  }

  /** The node whose CPU range holds `tid`, node 0 for a tid beyond the last CPU. */
  ghost predicate OnNode(caps: seq<nat>, tid: nat, k: nat) {
    k < |caps| && CpusBefore(caps, k) <= tid < CpusBefore(caps, k + 1)
  }

  lemma OnNodeUnique(caps: seq<nat>, tid: nat, j: nat, k: nat)
    requires OnNode(caps, tid, j) && OnNode(caps, tid, k)
    ensures j == k
  {
    if j < k { CpusBeforeMonotone(caps, j + 1, k); }
    if k < j { CpusBeforeMonotone(caps, k + 1, j); }
  }

  /** The two branches of the loops below share this condition on the machine. */
  ghost predicate Topology(caps: seq<nat>) {
    1 <= |caps| <= MAX_NUMA && forall k :: 0 <= k < |caps| ==> caps[k] > 0
  }

  predicate Within(lo: nat, t: nat, hi: nat) { lo <= t < hi }

  function Interval(lo: nat, hi: nat): (r: set<nat>) { set t: nat | t < hi && Within(lo, t, hi) }

  lemma IntervalSize(lo: nat, hi: nat)
    requires lo <= hi
    ensures |Interval(lo, hi)| == hi - lo
  {
    if lo < hi {
      IntervalSize(lo, hi - 1);
      assert Interval(lo, hi) == Interval(lo, hi - 1) + {hi - 1};
    }
  }

  /** Tids below `n` whose CPU lies on node `k`. */
  function NodeCount(caps: seq<nat>, n: nat, k: nat): nat
    requires k < |caps|
  {
    CpusBeforeMonotone(caps, k, k + 1);
    Min(n, CpusBefore(caps, k + 1)) - Min(n, CpusBefore(caps, k))
  }

  function ActiveBelow(caps: seq<nat>, n: nat, m: nat): set<nat>
    requires m <= |caps|
  {
    set k: nat | k < m && NodeCount(caps, n, k) > 0
  }

  lemma ActiveStep(caps: seq<nat>, n: nat, m: nat)
    requires m < |caps|
    ensures |ActiveBelow(caps, n, m + 1)| == |ActiveBelow(caps, n, m)| + if NodeCount(caps, n, m) > 0 then 1 else 0
  {
    if NodeCount(caps, n, m) > 0 { assert ActiveBelow(caps, n, m + 1) == ActiveBelow(caps, n, m) + {m}; }
    else { assert ActiveBelow(caps, n, m + 1) == ActiveBelow(caps, n, m); }
  }

  function ActiveNodes(caps: seq<nat>, n: nat): set<nat> { ActiveBelow(caps, n, |caps|) }

  /** The structural fields of the global pool; static storage, so all start at zero. */
  class ThreadPool {
    var nNodes: int
    var nThreads: int
    const nodeThreads: array<int>
    const nodeFirstTid: array<int>
    const tidNode: array<int>

    constructor ()
      ensures fresh(nodeThreads) && fresh(nodeFirstTid) && fresh(tidNode)
      ensures Shape()
      ensures forall caps: seq<nat> | Topology(caps) :: Consistent(caps)
    {
      nNodes, nThreads := 0, 0;
      nodeThreads := new int[MAX_NUMA](_ => 0);
      nodeFirstTid := new int[MAX_NUMA](_ => 0);
      tidNode := new int[MAX_CPUS](_ => 0);
    }

    ghost predicate Shape() {
      nodeThreads.Length == MAX_NUMA && nodeFirstTid.Length == MAX_NUMA && tidNode.Length == MAX_CPUS
      && nodeThreads != nodeFirstTid && nodeThreads != tidNode && nodeFirstTid != tidNode
    }

    /** What every placement on one machine leaves behind, stale entries of earlier pools included. */
    ghost predicate Consistent(caps: seq<nat>)
      requires Topology(caps)
      reads this, nodeThreads, nodeFirstTid, tidNode
    {
      && Shape()
      && (forall k :: 0 <= k < |caps| ==>
            nodeThreads[k] == 0 || (0 <= nodeThreads[k] <= caps[k] && nodeFirstTid[k] == CpusBefore(caps, k)))
      && (forall t :: 0 <= t < MAX_CPUS ==> tidNode[t] == 0 || (tidNode[t] > 0 && OnNode(caps, t, tidNode[t])))
    }

    /** Every placed tid is on the node that owns its CPU, and each node records how many it got. */
    ghost predicate Placed(caps: seq<nat>)
      requires Topology(caps)
      reads this, nodeThreads, nodeFirstTid, tidNode
    {
      && Consistent(caps)
      && nNodes == |caps|
      && 1 <= nThreads <= MAX_CPUS
      && (forall t :: 0 <= t < nThreads && t < TotalCpus(caps) ==>
            0 <= tidNode[t] < |caps| && OnNode(caps, t, tidNode[t]))
      && (forall k :: 0 <= k < |caps| && CpusBefore(caps, k) < nThreads ==>
            nodeThreads[k] == Share(caps, nThreads, k))
    }

    /** The inner loop: `count` tids from `first` on go to `node`. */
    method AssignTids(node: int, first: int, count: int)
      requires Shape() && 0 <= first <= MAX_CPUS && 0 <= count
      modifies tidNode
      ensures forall u :: 0 <= u < MAX_CPUS ==>
                tidNode[u] == if first <= u < first + count then node else old(tidNode[u])
    {
      var t := 0;
      while t < count && first + t < MAX_CPUS
        invariant 0 <= t <= count && first + t <= MAX_CPUS
        invariant forall u :: 0 <= u < MAX_CPUS ==>
                    tidNode[u] == if first <= u < first + t then node else old(tidNode[u])
      {
        tidNode[first + t] := node;
        t := t + 1;
      }
    }

    /** The first `node` nodes are filled for `n` threads. */
    ghost predicate FilledUpTo(caps: seq<nat>, n: int, node: nat)
      requires Topology(caps) && node <= |caps|
      reads this, nodeThreads, nodeFirstTid, tidNode
    {
      && Consistent(caps)
      && (forall t :: 0 <= t < n && t < CpusBefore(caps, node) && t < MAX_CPUS ==>
            0 <= tidNode[t] < |caps| && OnNode(caps, t, tidNode[t]))
      && (forall k :: 0 <= k < node && CpusBefore(caps, k) < n ==> nodeThreads[k] == Share(caps, n, k))
    }

    /** The body of the outer loop. */
    method FillNode(ghost caps: seq<nat>, ghost n: int, node: nat, first: int, count: int)
      requires Topology(caps) && node < |caps| && n <= MAX_CPUS && FilledUpTo(caps, n, node)
      requires first == CpusBefore(caps, node) < n && count == Share(caps, n, node)
      modifies nodeThreads, nodeFirstTid, tidNode
      ensures FilledUpTo(caps, n, node + 1)
    {
      nodeThreads[node] := count;
      nodeFirstTid[node] := first;
      AssignTids(node, first, count);
      assert CpusBefore(caps, node + 1) == CpusBefore(caps, node) + caps[node];
      assert forall u :: first <= u < first + count ==> OnNode(caps, u, node);
    }

    /** Fill the nodes in order, each up to its CPU count (the multi-node branch). */
    method PlaceThreads(caps: seq<nat>, n: int)
      requires Topology(caps) && |caps| > 1 && 1 <= n <= MAX_CPUS
      requires Consistent(caps)
      modifies this, nodeThreads, nodeFirstTid, tidNode
      ensures nThreads == n && Placed(caps)
    {
      nThreads, nNodes := n, |caps|;
      var remaining, tidOffset, node := n, 0, 0;
      while node < nNodes && remaining > 0
        invariant 0 <= node <= nNodes == |caps| && nThreads == n
        invariant tidOffset + remaining == n && tidOffset == Min(n, CpusBefore(caps, node))
        invariant FilledUpTo(caps, n, node)
      {
        var perNode := if remaining < caps[node] then remaining else caps[node];
        FillNode(caps, n, node, tidOffset, perNode);
        tidOffset := tidOffset + perNode;
        remaining := remaining - perNode;
        node := node + 1;
      }
      FilledIsPlaced(caps, n, node);
    }

    lemma FilledIsPlaced(caps: seq<nat>, n: int, node: nat)
      requires Topology(caps) && node <= |caps| && FilledUpTo(caps, n, node)
      requires node == |caps| || CpusBefore(caps, node) >= n
      requires nNodes == |caps| && nThreads == n && 1 <= n <= MAX_CPUS
      ensures Placed(caps)
    {
      forall k | node <= k < |caps| ensures CpusBefore(caps, k) >= n {
        CpusBeforeMonotone(caps, node, k);
      }
    }

    /** Intersect the recorded tid range of `node` with [0, n). */
    method CountOnNode(ghost caps: seq<nat>, n: int, node: int) returns (count: int)
      requires Topology(caps) && Placed(caps) && 1 <= n <= nThreads && 0 <= node < |caps|
      ensures count == NodeCount(caps, n, node)
    {
      var first := nodeFirstTid[node];
      var last := first + nodeThreads[node];
      var lo := if first > 0 then first else 0;
      var hi := if last < n then last else n;
      count := if hi > lo then hi - lo else 0;
      assert CpusBefore(caps, node + 1) == CpusBefore(caps, node) + caps[node];
      assert CpusBefore(caps, node) < nThreads ==> nodeThreads[node] == Share(caps, nThreads, node);
    }

    /** Count the tids below `n` on each node from the recorded node ranges. */
    method BarrierInit(caps: seq<nat>, n: int) returns (nodeN: array<int>, activeNodes: int)
      requires Topology(caps) && Placed(caps) && 1 <= n <= nThreads
      ensures fresh(nodeN) && nodeN.Length == MAX_NUMA
      ensures |caps| > 1 ==> forall k :: 0 <= k < |caps| ==> nodeN[k] == NodeCount(caps, n, k)
      ensures |caps| > 1 ==> activeNodes == |ActiveNodes(caps, n)|
      ensures |caps| == 1 ==> activeNodes == 1 && nodeN[0] == n
    {
      nodeN := new int[MAX_NUMA](_ => 0);
      if nNodes <= 1 {
        activeNodes := 1;
        nodeN[0] := n;
        return;
      }
      activeNodes := 0;
      var node := 0;
      assert ActiveBelow(caps, n, 0) == {};
      while node < nNodes
        invariant 0 <= node <= nNodes == |caps|
        invariant forall k :: 0 <= k < node ==> nodeN[k] == NodeCount(caps, n, k)
        invariant activeNodes == |ActiveBelow(caps, n, node)|
      {
        var count := CountOnNode(caps, n, node);
        nodeN[node] := count;
        if count > 0 { activeNodes := activeNodes + 1; }
        ActiveStep(caps, n, node);
        node := node + 1;
      }
    }
  }
}
