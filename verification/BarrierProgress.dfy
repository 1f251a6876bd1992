/** What a user of a barrier may rely on, whatever its implementation. */
module BarrierSpec {
  datatype Sync = Sync(arrivals: seq<nat>, departures: seq<nat>)

  ghost predicate Fits(n: nat, a: Sync) { |a.arrivals| == |a.departures| == n }

  /** Thread `t` enters its next wait. */
  ghost predicate Arrive(n: nat, a: Sync, b: Sync, t: nat) {
    && Fits(n, a) && t < n && a.arrivals[t] == a.departures[t]
    && b == a.(arrivals := a.arrivals[t := a.arrivals[t] + 1])
  }

  /** Thread `t` returns from the wait it is in; everybody has arrived at it. */
  ghost predicate Leave(n: nat, a: Sync, b: Sync, t: nat) {
    && Fits(n, a) && t < n && a.departures[t] < a.arrivals[t]
    && (forall u :: 0 <= u < n ==> a.arrivals[u] > a.departures[t])
    && b == a.(departures := a.departures[t := a.departures[t] + 1])
  }
}

/** Deadlock freedom, termination of every round, refinement, and when the barrier is correct. */
module BarrierProgress {
  import opened NumaPlacement
  import opened Barrier
  import Spec = BarrierSpec

  function Abs(c: Config, s: State): Spec.Sync
    requires Shape(c, s)
  {
    Spec.Sync(seq(c.n, t requires 0 <= t < c.n => Arrivals(s, t)), s.done)
  }

  /** Every step of the two-level barrier is an arrival, a legal return, or invisible. */
  lemma RefinesSpec(c: Config, s: State, t: nat)
    requires Shape(c, s) && Inv(c, s) && Exact(c) && t < c.n
    ensures var r := Step(c, s, t);
            Abs(c, r) == Abs(c, s) || Spec.Arrive(c.n, Abs(c, s), Abs(c, r), t) || Spec.Leave(c.n, Abs(c, s), Abs(c, r), t)
  {
    var r := Step(c, s, t);
    StepInv(c, s, t);
    if r.done == s.done {
      if Arrived(r.pc[t]) == Arrived(s.pc[t]) {
        assert Abs(c, r).arrivals == Abs(c, s).arrivals;
      } else {
        assert Abs(c, r).arrivals == Abs(c, s).arrivals[t := Arrivals(s, t) + 1];
      }
    } else {
      LeavesLegally(c, s, t);
    }
  }

  lemma LeavesLegally(c: Config, s: State, t: nat)
    requires Shape(c, s) && Inv(c, s) && Exact(c) && t < c.n && Step(c, s, t).done != s.done
    requires Shape(c, Step(c, s, t)) && Inv(c, Step(c, s, t))
    ensures Spec.Leave(c.n, Abs(c, s), Abs(c, Step(c, s, t)), t)
  {
    var r := Step(c, s, t);
    InvSafe(c, r);
    assert Abs(c, r).arrivals == Abs(c, s).arrivals;
    assert s.done[t] < Arrivals(s, t);
    forall u | 0 <= u < c.n ensures Abs(c, s).arrivals[u] > s.done[t] {
      assert r.done[t] <= Arrivals(r, u);
    }
  }

  // ---------------------------------------------------------------- progress

  /** A node whose current round is open has a thread that can move. */
  lemma NodeAdvances(c: Config, s: State, k: nat, v: nat) returns (t: nat)
    requires Shape(c, s) && Inv(c, s) && Exact(c) && v < |c.nodeN|
    requires NoLeader(c, s, v) && s.rounds[v] < k && c.LocalN(v) > 0 && (c.Flat() ==> v == 0)
    ensures t < c.n && s.done[t] < k && Step(c, s, t) != s
  {
    assert NodeInv(c, s, v);
    if NodeMembers(c, v) <= RoundSet(c, s, v) { SubsetSize(NodeMembers(c, v), RoundSet(c, s, v)); }
    t :| t in NodeMembers(c, v) && t !in RoundSet(c, s, v);
    assert ThreadInv(c, s, t) && MemberOf(c, t, v);
    assert s.pc[t].Waiting? ==> s.done[t] + 1 == s.rounds[v];
    assert s.pc[t].Idle? ==> Step(c, s, t).pc[t].Loaded?;
    assert s.pc[t].Loaded? ==> !Step(c, s, t).pc[t].Loaded?;
  }

  /** A leader waiting in the open global round: some other node has yet to get there. */
  lemma GlobalAdvances(c: Config, s: State, k: nat, l: nat) returns (t: nat)
    requires Shape(c, s) && Inv(c, s) && Exact(c) && l < c.n && !c.Flat()
    requires s.pc[l].GWaiting? && s.done[l] == s.gRounds < k && NoLastLeader(c, s)
    requires forall x :: 0 <= x < c.n && s.done[x] < k ==> s.pc[x].Waiting? || s.pc[x].GWaiting?
    ensures t < c.n && s.done[t] < k && Step(c, s, t) != s
  {
    if ActiveSet(c) <= GlobalSet(c, s) { SubsetSize(ActiveSet(c), GlobalSet(c, s)); }
    var w: nat :| w in ActiveSet(c) && w !in GlobalSet(c, s);
    assert Active(c, w);
    assert NodeMembers(c, w) != {};
    var m: nat :| m in NodeMembers(c, w);
    assert MemberOf(c, m, w);
    NodeLevel(c, s, m);
    if NoLeader(c, s, w) {
      assert LevelInv(c, s, m);
      t := NodeAdvances(c, s, k, w);
    } else {
      t :| MemberOf(c, t, w) && Leader(s.pc[t]);
      assert ThreadInv(c, s, t) && LevelInv(c, s, t);
      assert !InGlobalRound(c, s, t);
    }
  }

  /** While somebody has not returned from the k-th wait, one such thread has a real step. */
  lemma CanAdvance(c: Config, s: State, k: nat) returns (t: nat)
    requires Shape(c, s) && Inv(c, s) && Exact(c)
    requires exists x :: 0 <= x < c.n && s.done[x] < k
    ensures t < c.n && s.done[t] < k && Step(c, s, t) != s
  {
    if x: nat :| x < c.n && s.done[x] < k && !s.pc[x].Waiting? && !s.pc[x].GWaiting? {
      assert Step(c, s, x).pc[x] != s.pc[x];
      return x;
    }
    t :| t < c.n && s.done[t] < k;
    var v := c.Node(t);
    assert ThreadInv(c, s, t) && NodeInv(c, s, v) && MemberOf(c, t, v);
    if Step(c, s, t) != s { return; }
    if NoLeader(c, s, v) {
      assert s.pc[t].Waiting? && s.done[t] == s.rounds[v];
      assert t in NodeMembers(c, v);
      t := NodeAdvances(c, s, k, v);
      return;
    }
    var l: nat :| MemberOf(c, l, v) && Leader(s.pc[l]);
    assert ThreadInv(c, s, l) && LeaderInv(c, s, l);
    assert s.done[l] == s.rounds[v] < k;
    t := l;
    if Step(c, s, l) == s { t := LeaderAdvances(c, s, k, l); }
  }

  /** A leader waits at the global level; everybody else below round `k` waits too. */
  lemma LeaderAdvances(c: Config, s: State, k: nat, l: nat) returns (t: nat)
    requires Shape(c, s) && Inv(c, s) && Exact(c) && l < c.n && Leader(s.pc[l]) && s.done[l] < k && Step(c, s, l) == s
    requires forall x :: 0 <= x < c.n && s.done[x] < k ==> s.pc[x].Waiting? || s.pc[x].GWaiting?
    ensures t < c.n && s.done[t] < k && Step(c, s, t) != s
  {
    assert ThreadInv(c, s, l) && LevelInv(c, s, l);
    assert s.done[l] == s.gRounds;
    forall x | 0 <= x < c.n ensures !LastLeader(s.pc[x]) {
      assert ThreadInv(c, s, x) && LevelInv(c, s, x);
    }
    t := GlobalAdvances(c, s, k, l);
  }

  function Stage(p: PC): nat {
    match p
    case Idle => 0
    case Loaded(_) => 1
    case Waiting(_) => 2
    case Reset(_) => 2
    case GLoad(_) => 3
    case GAdd(_, _) => 4
    case GWaiting(_, _) => 5
    case GReset(_, _) => 5
    case GStore(_, _) => 6
    case Release(_) => 7
  }

  /** Steps thread `t` may still need until it has returned from its k-th wait. */
  function Cost(c: Config, s: State, k: nat, t: nat): nat
    requires Shape(c, s) && t < c.n
  {
    if s.done[t] >= k then 0 else 8 * (k - s.done[t]) - Stage(s.pc[t])
  }

  function Work(c: Config, s: State, k: nat, m: nat): nat
    requires Shape(c, s) && m <= c.n
  {
    if m == 0 then 0 else Work(c, s, k, m - 1) + Cost(c, s, k, m - 1)
  }

  lemma {:induction false} WorkUpdate(c: Config, s: State, r: State, k: nat, t: nat, m: nat)
    requires Shape(c, s) && Shape(c, r) && t < c.n && m <= c.n
    requires forall u :: 0 <= u < c.n && u != t ==> Cost(c, r, k, u) == Cost(c, s, k, u)
    ensures Work(c, r, k, m) - Work(c, s, k, m) == if t < m then Cost(c, r, k, t) - Cost(c, s, k, t) else 0
  {
    if m > 0 { WorkUpdate(c, s, r, k, t, m - 1); }
  }

  /** A step is either spinning or strictly nearer the end of round k; no step ever moves away. */
  lemma StepWork(c: Config, s: State, k: nat, t: nat)
    requires Shape(c, s) && t < c.n
    ensures var r := Step(c, s, t);
            r != s && s.done[t] < k ==> Work(c, r, k, c.n) < Work(c, s, k, c.n)
    ensures Work(c, Step(c, s, t), k, c.n) <= Work(c, s, k, c.n)
  {
    WorkUpdate(c, s, Step(c, s, t), k, t, c.n);
  }

  /** The schedule leaves a thread alone once it has returned from its k-th wait. */
  predicate Early(c: Config, s: State, sched: seq<nat>, k: nat)
    requires Shape(c, s) && Schedule(c, sched)
    decreases |sched|
  {
    sched == [] || (s.done[sched[0]] < k && Early(c, Step(c, s, sched[0]), sched[1..], k))
  }

  /** No deadlock: from every reachable state, k waits of every thread can be completed. */
  lemma CanFinish(c: Config, s: State, k: nat) returns (sched: seq<nat>)
    requires Shape(c, s) && Inv(c, s) && Exact(c)
    ensures Schedule(c, sched) && Early(c, s, sched, k)
    ensures forall t :: 0 <= t < c.n ==> Run(c, s, sched).done[t] >= k
    decreases Work(c, s, k, c.n)
  {
    sched := [];
    if exists x :: 0 <= x < c.n && s.done[x] < k {
      var t := CanAdvance(c, s, k);
      StepInv(c, s, t);
      StepWork(c, s, k, t);
      var rest := CanFinish(c, Step(c, s, t), k);
      sched := [t] + rest;
      assert sched[1..] == rest;
    }
  }

  /**
   * In every reachable state a waiter is at most one release behind, and a counter that nobody
   * has reached in its current round, or that has just been released, reads zero.
   */
  lemma CountersOnReentry(c: Config, sched: seq<nat>, t: nat)
    requires Exact(c) && Schedule(c, sched) && t < c.n
    ensures var s := Run(c, Init(c), sched);
      && (s.pc[t].Waiting? ==> s.done[t] <= s.rounds[c.Node(t)] <= s.done[t] + 1)
      && (!Arrived(s.pc[t]) ==> s.arrived[c.Node(t)] == |RoundSet(c, s, c.Node(t))|)
      && (s.pc[t].Release? ==> s.arrived[c.Node(t)] == 0)
      && s.phase[c.Node(t)] == s.rounds[c.Node(t)] % U32
  {
    var s := Run(c, Init(c), sched);
    InitInv(c);
    RunInv(c, Init(c), sched);
    assert ThreadInv(c, s, t) && NodeInv(c, s, c.Node(t));
    if !Arrived(s.pc[t]) {
      NotInRoundNoLeader(c, s, t);
      assert MemberOf(c, t, c.Node(t)) && t in NodeMembers(c, c.Node(t));
    }
  }

  // ---------------------------------------------------------------- the pool's own configuration

  ghost function NodeOf(caps: seq<nat>, t: nat): (k: nat)
    ensures OnNode(caps, t, k) || (k == 0 && forall j: nat :: !OnNode(caps, t, j))
  {
    if j: nat :| OnNode(caps, t, j) then j else 0
  }

  /** What a pool of `n` threads on this machine hands to the barrier. */
  ghost function PoolConfig(caps: seq<nat>, n: nat): Config
    requires Topology(caps)
  {
    Config(n, seq(n, t requires 0 <= t => NodeOf(caps, t)),
           seq(|caps|, k requires 0 <= k < |caps| => if |caps| > 1 then NodeCount(caps, n, k) else n),
           if |caps| > 1 then |ActiveNodes(caps, n)| else 1)
  }

  /** The placement loop and `bm_barrier_init` produce exactly that configuration. */
  lemma PoolMakesConfig(pool: ThreadPool, caps: seq<nat>, t: nat)
    requires Topology(caps) && |caps| > 1 && pool.Placed(caps) && t < pool.nThreads
    ensures pool.tidNode[t] == NodeOf(caps, t)
  {
    if j: nat :| OnNode(caps, t, j) {
      CpusBeforeMonotone(caps, j + 1, |caps|);
      OnNodeUnique(caps, t, j, pool.tidNode[t]);
      OnNodeUnique(caps, t, j, NodeOf(caps, t));
    } else {
      assert !OnNode(caps, t, pool.tidNode[t]);
    }
  }

  lemma {:induction false} HasNode(caps: seq<nat>, t: nat, m: nat) returns (k: nat)
    requires m <= |caps| && t < CpusBefore(caps, m)
    ensures OnNode(caps, t, k)
  {
    if t < CpusBefore(caps, m - 1) { k := HasNode(caps, t, m - 1); } else { k := m - 1; }
  }

  lemma PoolWellFormed(caps: seq<nat>, n: nat)
    requires Topology(caps) && 1 <= n <= MAX_CPUS
    ensures PoolConfig(caps, n).WellFormed()
  {
    SubsetSize(ActiveNodes(caps, n), Interval(0, |caps|));
    IntervalSize(0, |caps|);
  }

  lemma NodeExact(caps: seq<nat>, n: nat, v: nat)
    requires Topology(caps) && 1 <= n <= MAX_CPUS && (|caps| == 1 || n <= TotalCpus(caps))
    requires var c := PoolConfig(caps, n); c.WellFormed() && v < |c.nodeN| && !(c.Flat() && v != 0)
    ensures |NodeMembers(PoolConfig(caps, n), v)| == PoolConfig(caps, n).LocalN(v)
  {
    var c := PoolConfig(caps, n);
    if c.Flat() {
      IntervalSize(0, n);
      assert NodeMembers(c, v) == Interval(0, n);
    } else {
      WideNodeExact(caps, n, v);
    }
  }

  lemma WideNodeExact(caps: seq<nat>, n: nat, v: nat)
    requires Topology(caps) && 1 <= n <= MAX_CPUS && n <= TotalCpus(caps) && |caps| > 1
    requires var c := PoolConfig(caps, n); c.WellFormed() && v < |c.nodeN| && !c.Flat()
    ensures |NodeMembers(PoolConfig(caps, n), v)| == PoolConfig(caps, n).LocalN(v)
  {
    var c := PoolConfig(caps, n);
    var lo, hi := Min(n, CpusBefore(caps, v)), Min(n, CpusBefore(caps, v + 1));
    CpusBeforeMonotone(caps, v, v + 1);
    IntervalSize(lo, hi);
    forall t: nat ensures t < n && MemberOf(c, t, v) <==> t < hi && Within(lo, t, hi) { MemberByPlace(caps, n, v, t); }
    assert NodeMembers(c, v) == Interval(lo, hi);
  }

  lemma MemberByPlace(caps: seq<nat>, n: nat, v: nat, t: nat)
    requires Topology(caps) && 1 <= n <= MAX_CPUS && n <= TotalCpus(caps)
    requires var c := PoolConfig(caps, n); c.WellFormed() && v < |c.nodeN| && !c.Flat()
    ensures var lo, hi := Min(n, CpusBefore(caps, v)), Min(n, CpusBefore(caps, v + 1));
            t < n && MemberOf(PoolConfig(caps, n), t, v) <==> t < hi && lo <= t < hi
  {
    if t < n {
      var k := HasNode(caps, t, |caps|);
      assert OnNode(caps, t, NodeOf(caps, t));
      OnNodeUnique(caps, t, k, NodeOf(caps, t));
      if OnNode(caps, t, v) { OnNodeUnique(caps, t, v, k); }
    }
  }

  /** With every tid on a CPU, the per-node counts are the true ones. */
  lemma PoolExact(caps: seq<nat>, n: nat)
    requires Topology(caps) && 1 <= n <= MAX_CPUS && (|caps| == 1 || n <= TotalCpus(caps))
    ensures Exact(PoolConfig(caps, n))
  {
    var c := PoolConfig(caps, n);
    PoolWellFormed(caps, n);
    forall v | 0 <= v < |c.nodeN| && !(c.Flat() && v != 0) ensures |NodeMembers(c, v)| == c.LocalN(v) {
      NodeExact(caps, n, v);
    }
    if !c.Flat() { ActiveExact(caps, n); }
  }

  lemma ActiveExact(caps: seq<nat>, n: nat)
    requires Topology(caps) && PoolConfig(caps, n).WellFormed() && |caps| > 1
    ensures ActiveSet(PoolConfig(caps, n)) == ActiveNodes(caps, n)
  { }

  // ---------------------------------------------------------------- more threads than CPUs

  /** `s` is `a` with further threads that have never entered the barrier. */
  ghost predicate Embeds(d: Config, c: Config, a: State, s: State) {
    && Shape(d, a) && Shape(c, s) && d.n <= c.n
    && s.pc[..d.n] == a.pc && s.done[..d.n] == a.done
    && s == a.(pc := s.pc, done := s.done)
    && (forall t :: d.n <= t < c.n ==> s.pc[t].Idle? && s.done[t] == 0)
  }

  /** A configuration that differs only in threads no node counts. */
  ghost predicate Extends(d: Config, c: Config) {
    && d.WellFormed() && c.WellFormed() && d.n < c.n && !c.Flat() && !d.Flat()
    && c.nodeN == d.nodeN && c.activeNodes == d.activeNodes && c.tidNode[..d.n] == d.tidNode
  }

  lemma StepEmbeds(d: Config, c: Config, a: State, s: State, t: nat)
    requires Embeds(d, c, a, s) && Extends(d, c) && t < d.n
    ensures Embeds(d, c, Step(d, a, t), Step(c, s, t))
  {
    assert c.Node(t) == d.Node(t) && s.pc[t] == a.pc[t] && s.done[t] == a.done[t];
  }

  lemma {:induction false} RunEmbeds(d: Config, c: Config, a: State, s: State, sched: seq<nat>)
    requires Embeds(d, c, a, s) && Schedule(d, sched) && Extends(d, c)
    ensures Schedule(c, sched) && Embeds(d, c, Run(d, a, sched), Run(c, s, sched))
    decreases |sched|
  {
    if sched != [] {
      var t := sched[0];
      StepEmbeds(d, c, a, s, t);
      RunEmbeds(d, c, Step(d, a, t), Step(c, s, t), sched[1..]);
    }
  }

  /** Threads beyond the last CPU change none of the counts. */
  lemma SameCounts(caps: seq<nat>, n: nat)
    requires Topology(caps) && |caps| > 1 && TotalCpus(caps) <= n <= MAX_CPUS
    ensures 1 <= TotalCpus(caps) && PoolConfig(caps, n).nodeN == caps
    ensures PoolConfig(caps, n).activeNodes == |caps|
  {
    CpusBeforeMonotone(caps, 1, |caps|);
    assert CpusBefore(caps, 1) == CpusBefore(caps, 0) + caps[0];
    forall k | 0 <= k < |caps| ensures NodeCount(caps, n, k) == caps[k] { FullCount(caps, n, k); }
    assert ActiveNodes(caps, n) == Interval(0, |caps|);
    IntervalSize(0, |caps|);
  }

  lemma FullCount(caps: seq<nat>, n: nat, k: nat)
    requires TotalCpus(caps) <= n && k < |caps|
    ensures NodeCount(caps, n, k) == caps[k]
  {
    CpusBeforeMonotone(caps, k, k + 1);
    CpusBeforeMonotone(caps, k + 1, |caps|);
  }

  lemma SameNodes(caps: seq<nat>, m: nat, n: nat)
    requires Topology(caps) && 1 <= m <= n <= MAX_CPUS
    ensures |PoolConfig(caps, n).tidNode| == n && PoolConfig(caps, n).tidNode[..m] == PoolConfig(caps, m).tidNode
  { }

  /** A tid without a CPU is counted nowhere: the others get through without it. */
  lemma Oversubscribed(caps: seq<nat>, n: nat) returns (sched: seq<nat>)
    requires Topology(caps) && |caps| > 1 && TotalCpus(caps) < n <= MAX_CPUS
    ensures PoolConfig(caps, n).WellFormed() && Schedule(PoolConfig(caps, n), sched)
    ensures !Safe(PoolConfig(caps, n), Run(PoolConfig(caps, n), Init(PoolConfig(caps, n)), sched))
  {
    PoolExtends(caps, n);
    sched := FirstRoundWithout(PoolConfig(caps, TotalCpus(caps)), PoolConfig(caps, n));
  }

  /** The pool of the threads that have a CPU, and the pool with all of them. */
  lemma PoolExtends(caps: seq<nat>, n: nat)
    requires Topology(caps) && |caps| > 1 && TotalCpus(caps) < n <= MAX_CPUS
    ensures 1 <= TotalCpus(caps) && Exact(PoolConfig(caps, TotalCpus(caps)))
    ensures Extends(PoolConfig(caps, TotalCpus(caps)), PoolConfig(caps, n))
  {
    var m := TotalCpus(caps);
    SameCounts(caps, n);
    SameCounts(caps, m);
    PoolWellFormed(caps, n);
    PoolExact(caps, m);
    SameNodes(caps, m, n);
  }

  lemma FirstRoundWithout(d: Config, c: Config) returns (sched: seq<nat>)
    requires Exact(d) && Extends(d, c)
    ensures Schedule(c, sched) && !Safe(c, Run(c, Init(c), sched))
  {
    InitInv(d);
    sched := CanFinish(d, Init(d), 1);
    assert Embeds(d, c, Init(d), Init(c));
    RunEmbeds(d, c, Init(d), Init(c), sched);
    var a, s := Run(d, Init(d), sched), Run(c, Init(c), sched);
    assert a.done[0] >= 1 && s.done[..d.n][0] == s.done[0];
    assert Arrivals(s, d.n) == 0;
  }

  /**
   * The barrier keeps its promise on every run exactly when the machine has a CPU for every
   * thread, or has a single node.
   */
  lemma BarrierSafeIff(caps: seq<nat>, n: nat)
    requires Topology(caps) && 1 <= n <= MAX_CPUS
    ensures PoolConfig(caps, n).WellFormed()
    ensures (forall sched :: Schedule(PoolConfig(caps, n), sched) ==>
               Safe(PoolConfig(caps, n), Run(PoolConfig(caps, n), Init(PoolConfig(caps, n)), sched)))
       <==> |caps| == 1 || n <= TotalCpus(caps)
  {
    var c := PoolConfig(caps, n);
    PoolWellFormed(caps, n);
    if |caps| == 1 || n <= TotalCpus(caps) {
      PoolExact(caps, n);
      forall sched | Schedule(c, sched) ensures Safe(c, Run(c, Init(c), sched)) { BarrierSafe(c, sched); }
    } else {
      var sched := Oversubscribed(caps, n);
    }
  }
}
