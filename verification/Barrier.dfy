/**
 * The in-dispatch barrier as a transition system: one program counter per thread and one
 * transition per atomic operation, interleaved in any order. A run is a schedule, the sequence
 * of tids that take the next step; spinning is a step that changes nothing.
 */
module Barrier {
  import opened NumaPlacement

  const U32 := 0x1_0000_0000

  /** What `bm_barrier_init` and the pool fix before the first wait. */
  datatype Config = Config(n: nat, tidNode: seq<nat>, nodeN: seq<nat>, activeNodes: nat)
  {
    predicate Flat() { activeNodes <= 1 }

    predicate WellFormed() {
      && 1 <= n < U32 && |tidNode| == n && 1 <= |nodeN| < U32
      && (forall t :: 0 <= t < n ==> tidNode[t] < |nodeN|)
      && (forall v :: 0 <= v < |nodeN| ==> nodeN[v] < U32)
      && activeNodes < U32
    }

    /** The counter a thread waits on: its node's, or counter 0 when the barrier is flat. */
    function Node(t: nat): nat
      requires WellFormed() && t < n
    {
      if Flat() then 0 else tidNode[t]
    }

    function LocalN(v: nat): nat
      requires WellFormed() && v < |nodeN|
    {
      if Flat() then n else nodeN[v]
    }
  }

  /** Where a thread stands inside `bm_barrier_wait`; `cur` and `gcur` are the phases it loaded. */
  datatype PC =
    | Idle
    | Loaded(cur: nat)
    | Waiting(cur: nat)
    | Reset(cur: nat)
    | GLoad(cur: nat)
    | GAdd(cur: nat, gcur: nat)
    | GWaiting(cur: nat, gcur: nat)
    | GReset(cur: nat, gcur: nat)
    | GStore(cur: nat, gcur: nat)
    | Release(cur: nat)

  predicate Leader(p: PC) { !p.Idle? && !p.Loaded? && !p.Waiting? }

  /** The thread has done its fetch_add on the local counter. */
  predicate Arrived(p: PC) { !p.Idle? && !p.Loaded? }

  /**
   * `done`, `rounds` and `gRounds` are history: waits returned per thread, and releases per
   * counter. No step reads them.
   */
  datatype State = State(
    pc: seq<PC>, arrived: seq<nat>, phase: seq<nat>, gArrived: nat, gPhase: nat,
    done: seq<nat>, rounds: seq<nat>, gRounds: nat)

  predicate Shape(c: Config, s: State) {
    && c.WellFormed()
    && |s.pc| == |s.done| == c.n
    && |s.arrived| == |s.phase| == |s.rounds| == |c.nodeN|
  }

  function Init(c: Config): State {
    var m := |c.nodeN|;
    State(seq(c.n, _ => Idle), seq(m, _ => 0), seq(m, _ => 0), 0, 0, seq(c.n, _ => 0), seq(m, _ => 0), 0)
  }

  function Goto(s: State, t: nat, p: PC): State
    requires t < |s.pc|
  {
    s.(pc := s.pc[t := p])
  }

  function Return(s: State, t: nat): State
    requires t < |s.pc| && t < |s.done|
  {
    s.(pc := s.pc[t := Idle], done := s.done[t := s.done[t] + 1])
  }

  /** fetch_add on the local counter: the last of the node becomes its leader. */
  function Arrive(c: Config, s: State, t: nat, cur: nat): (r: State)
    requires Shape(c, s) && t < c.n
  {
    var v := c.Node(t);
    var idx := s.arrived[v];
    Goto(s.(arrived := s.arrived[v := (idx + 1) % U32]), t,
         if idx == (c.LocalN(v) - 1) % U32 then Reset(cur) else Waiting(cur))
  }

  function ResetLocal(c: Config, s: State, t: nat, cur: nat): (r: State)
    requires Shape(c, s) && t < c.n
  {
    Goto(s.(arrived := s.arrived[c.Node(t) := 0]), t, if c.Flat() then Release(cur) else GLoad(cur))
  }

  /** fetch_add on the global counter: the last leader resets and releases it. */
  function ArriveGlobal(c: Config, s: State, t: nat, cur: nat, gcur: nat): (r: State)
    requires Shape(c, s) && t < c.n
  {
    Goto(s.(gArrived := (s.gArrived + 1) % U32), t,
         if s.gArrived == (c.activeNodes - 1) % U32 then GReset(cur, gcur) else GWaiting(cur, gcur))
  }

  function StoreGlobal(c: Config, s: State, t: nat, cur: nat, gcur: nat): (r: State)
    requires Shape(c, s) && t < c.n
  {
    Goto(s.(gPhase := (gcur + 1) % U32, gRounds := s.gRounds + 1), t, Release(cur))
  }

  function ReleaseLocal(c: Config, s: State, t: nat, cur: nat): (r: State)
    requires Shape(c, s) && t < c.n
  {
    var v := c.Node(t);
    Return(s.(phase := s.phase[v := (cur + 1) % U32], rounds := s.rounds[v := s.rounds[v] + 1]), t)
  }

  /** The next atomic operation of thread `t`. */
  function Step(c: Config, s: State, t: nat): (r: State)
    requires Shape(c, s) && t < c.n
    ensures Shape(c, r)
  {
    match s.pc[t]
    case Idle => Goto(s, t, Loaded(s.phase[c.Node(t)]))
    case Loaded(cur) => Arrive(c, s, t, cur)
    case Waiting(cur) => if s.phase[c.Node(t)] == cur then s else Return(s, t)
    case Reset(cur) => ResetLocal(c, s, t, cur)
    case GLoad(cur) => Goto(s, t, GAdd(cur, s.gPhase))
    case GAdd(cur, gcur) => ArriveGlobal(c, s, t, cur, gcur)
    case GWaiting(cur, gcur) => if s.gPhase == gcur then s else Goto(s, t, Release(cur))
    case GReset(cur, gcur) => Goto(s.(gArrived := 0), t, GStore(cur, gcur))
    case GStore(cur, gcur) => StoreGlobal(c, s, t, cur, gcur)
    case Release(cur) => ReleaseLocal(c, s, t, cur)
  }

  predicate Schedule(c: Config, sched: seq<nat>) { forall i :: 0 <= i < |sched| ==> sched[i] < c.n }

  function Run(c: Config, s: State, sched: seq<nat>): (r: State)
    requires Shape(c, s) && Schedule(c, sched)
    ensures Shape(c, r)
    decreases |sched|
  {
    if sched == [] then s else Run(c, Step(c, s, sched[0]), sched[1..])
  }

  /** Waits thread `t` has arrived at. */
  function Arrivals(s: State, t: nat): nat
    requires t < |s.pc| && t < |s.done|
  {
    s.done[t] + if Arrived(s.pc[t]) then 1 else 0
  }

  /** No thread has returned from its k-th wait before every thread arrived at its k-th wait. */
  ghost predicate Safe(c: Config, s: State)
    requires Shape(c, s)
  {
    forall t, u :: 0 <= t < c.n && 0 <= u < c.n ==> s.done[t] <= Arrivals(s, u)
  }

  // ---------------------------------------------------------------- the invariant

  predicate MemberOf(c: Config, t: nat, v: nat) { c.WellFormed() && t < c.n && c.Node(t) == v }

  function NodeMembers(c: Config, v: nat): set<nat> { set t: nat | t < c.n && MemberOf(c, t, v) }

  predicate Active(c: Config, v: nat) { v < |c.nodeN| && c.nodeN[v] > 0 }

  function ActiveSet(c: Config): set<nat> { set v: nat | v < |c.nodeN| && Active(c, v) }

  /** The counts the barrier was initialised with are those of the threads that will use it. */
  ghost predicate Exact(c: Config) {
    && c.WellFormed()
    && (forall v :: 0 <= v < |c.nodeN| ==> |NodeMembers(c, v)| == c.LocalN(v) || (c.Flat() && v != 0))
    && (!c.Flat() ==> |ActiveSet(c)| == c.activeNodes)
  }

  /** In the current round of its counter, thread `t` has arrived. */
  predicate InRound(c: Config, s: State, t: nat)
    requires Shape(c, s)
  {
    t < c.n && Arrived(s.pc[t]) && s.done[t] == s.rounds[c.Node(t)]
  }

  function RoundSet(c: Config, s: State, v: nat): set<nat>
    requires Shape(c, s)
  {
    set t: nat | t < c.n && MemberOf(c, t, v) && InRound(c, s, t)
  }

  /** Thread `t` leads its node in the current global round. */
  predicate InGlobalRound(c: Config, s: State, t: nat)
    requires Shape(c, s)
  {
    t < c.n && match s.pc[t]
    case GWaiting(_, _) => s.done[t] == s.gRounds
    case GReset(_, _) => true
    case GStore(_, _) => true
    case _ => false
  }

  ghost predicate NodeInGlobalRound(c: Config, s: State, v: nat)
    requires Shape(c, s)
  {
    exists t: nat :: MemberOf(c, t, v) && InGlobalRound(c, s, t)
  }

  ghost function GlobalSet(c: Config, s: State): set<nat>
    requires Shape(c, s)
  {
    set v: nat | v < |c.nodeN| && NodeInGlobalRound(c, s, v)
  }

  ghost predicate ThreadInv(c: Config, s: State, t: nat)
    requires Shape(c, s) && t < c.n
  {
    var v := c.Node(t);
    var d := s.done[t];
    match s.pc[t]
    case Idle => d == s.rounds[v]
    case Loaded(cur) => d == s.rounds[v] && cur == d % U32
    case Waiting(cur) => (d == s.rounds[v] || d + 1 == s.rounds[v]) && cur == d % U32
    case Reset(cur) => d == s.rounds[v] && cur == d % U32 && s.arrived[v] == c.LocalN(v)
    case Release(cur) => d == s.rounds[v] && cur == d % U32 && s.arrived[v] == 0 && (!c.Flat() ==> s.gRounds == d + 1)
    case GLoad(cur) => !c.Flat() && d == s.rounds[v] && cur == d % U32 && s.arrived[v] == 0
    case GAdd(cur, gcur) => !c.Flat() && d == s.rounds[v] && cur == d % U32 && s.arrived[v] == 0 && gcur == s.gRounds % U32
    case GWaiting(cur, gcur) => !c.Flat() && d == s.rounds[v] && cur == d % U32 && s.arrived[v] == 0 && gcur == d % U32
    case GReset(cur, gcur) =>
      !c.Flat() && d == s.rounds[v] && cur == d % U32 && s.arrived[v] == 0 && gcur == s.gRounds % U32
      && s.gArrived == c.activeNodes
    case GStore(cur, gcur) =>
      !c.Flat() && d == s.rounds[v] && cur == d % U32 && s.arrived[v] == 0 && gcur == s.gRounds % U32
      && s.gArrived == 0
  }

  /** A leader's whole node waits for it. */
  ghost predicate LeaderInv(c: Config, s: State, t: nat)
    requires Shape(c, s) && t < c.n
  {
    Leader(s.pc[t]) ==>
      forall u :: 0 <= u < c.n && u != t && c.Node(u) == c.Node(t) ==>
        s.pc[u].Waiting? && s.done[u] == s.rounds[c.Node(u)]
  }

  ghost predicate NoLeader(c: Config, s: State, v: nat)
    requires Shape(c, s)
  {
    forall t: nat :: MemberOf(c, t, v) ==> !Leader(s.pc[t])
  }

  ghost predicate NodeInv(c: Config, s: State, v: nat)
    requires Shape(c, s) && v < |c.nodeN|
  {
    && s.phase[v] == s.rounds[v] % U32
    && (NoLeader(c, s, v) && c.LocalN(v) > 0 ==>
          s.arrived[v] == |RoundSet(c, s, v)| && s.arrived[v] < c.LocalN(v))
  }

  predicate LastLeader(p: PC) { p.GReset? || p.GStore? }

  /** A node is behind the global round only while its leader has yet to release it. */
  ghost predicate LevelInv(c: Config, s: State, t: nat)
    requires Shape(c, s) && t < c.n
  {
    var l := s.rounds[c.Node(t)];
    && (s.pc[t].GWaiting? ==> l == s.gRounds || l + 1 == s.gRounds)
    && (Leader(s.pc[t]) && !s.pc[t].GWaiting? && !s.pc[t].Release? ==> l == s.gRounds)
    && (NoLeader(c, s, c.Node(t)) ==> l == s.gRounds)
  }

  ghost predicate NoLastLeader(c: Config, s: State)
    requires Shape(c, s)
  {
    forall t :: 0 <= t < c.n ==> !LastLeader(s.pc[t])
  }

  ghost predicate GlobalInv(c: Config, s: State)
    requires Shape(c, s)
  {
    && s.gPhase == s.gRounds % U32
    && (NoLastLeader(c, s) ==> s.gArrived == |GlobalSet(c, s)| && s.gArrived < c.activeNodes)
    && (forall t :: 0 <= t < c.n && LastLeader(s.pc[t]) ==> GlobalSet(c, s) == ActiveSet(c))
    && (forall t, u :: 0 <= t < c.n && 0 <= u < c.n && LastLeader(s.pc[t]) && LastLeader(s.pc[u]) ==> t == u)
    && (forall t :: 0 <= t < c.n ==> LevelInv(c, s, t))
  }

  ghost predicate Inv(c: Config, s: State)
    requires Shape(c, s)
  {
    && (forall t :: 0 <= t < c.n ==> ThreadInv(c, s, t) && LeaderInv(c, s, t))
    && (forall v :: 0 <= v < |c.nodeN| ==> NodeInv(c, s, v))
    && (!c.Flat() ==> GlobalInv(c, s))
  }

  /** A counter is level with the global round, or one behind with all its threads arrived. */
  lemma NodeLevel(c: Config, s: State, t: nat)
    requires Shape(c, s) && Inv(c, s) && !c.Flat() && t < c.n
    ensures s.rounds[c.Node(t)] <= s.gRounds <= s.rounds[c.Node(t)] + 1
    ensures s.gRounds > s.rounds[c.Node(t)] ==> Arrived(s.pc[t]) && s.done[t] == s.rounds[c.Node(t)]
  {
    assert LevelInv(c, s, t);
    if !NoLeader(c, s, c.Node(t)) {
      var x: nat :| MemberOf(c, x, c.Node(t)) && Leader(s.pc[x]);
      assert LevelInv(c, s, x) && ThreadInv(c, s, x) && LeaderInv(c, s, x);
    }
  }

  lemma InvSafe(c: Config, s: State)
    requires Shape(c, s) && Inv(c, s)
    ensures Safe(c, s)
  {
    forall t, u | 0 <= t < c.n && 0 <= u < c.n ensures s.done[t] <= Arrivals(s, u) {
      assert ThreadInv(c, s, t) && ThreadInv(c, s, u);
      if !c.Flat() { NodeLevel(c, s, t); NodeLevel(c, s, u); }
    }
  }

  // ---------------------------------------------------------------- what one step leaves alone

  lemma NodeBound(c: Config, t: nat)
    requires c.WellFormed() && t < c.n
    ensures c.Node(t) < |c.nodeN|
  {
  }

  lemma SameGlobalSet(c: Config, s: State, r: State)
    requires Shape(c, s) && Shape(c, r)
    requires forall u: nat :: InGlobalRound(c, s, u) == InGlobalRound(c, r, u)
    ensures GlobalSet(c, s) == GlobalSet(c, r)
  {
    forall v | 0 <= v < |c.nodeN| ensures NodeInGlobalRound(c, s, v) == NodeInGlobalRound(c, r, v) {
      if NodeInGlobalRound(c, s, v) {
        var t: nat :| MemberOf(c, t, v) && InGlobalRound(c, s, t);
        assert InGlobalRound(c, r, t);
      }
      if NodeInGlobalRound(c, r, v) {
        var t: nat :| MemberOf(c, t, v) && InGlobalRound(c, r, t);
        assert InGlobalRound(c, s, t);
      }
    }
  }

  /** A step that neither makes nor unmakes a leader and stays out of the round counts. */
  lemma QuietStep(c: Config, s: State, r: State, t: nat)
    requires Shape(c, s) && Shape(c, r) && Inv(c, s) && t < c.n
    requires r == s.(pc := r.pc, done := r.done)
    requires forall u :: 0 <= u < c.n && u != t ==> r.pc[u] == s.pc[u] && r.done[u] == s.done[u]
    requires !Leader(s.pc[t]) && !Leader(r.pc[t]) && !InRound(c, s, t) && !InRound(c, r, t)
    requires ThreadInv(c, r, t)
    ensures Inv(c, r)
  {
    forall v | 0 <= v < |c.nodeN| ensures NodeInv(c, r, v) && NoLeader(c, s, v) == NoLeader(c, r, v) {
      assert NodeInv(c, s, v);
      assert RoundSet(c, r, v) == RoundSet(c, s, v);
    }
    forall u | 0 <= u < c.n ensures ThreadInv(c, r, u) && LeaderInv(c, r, u) {
      assert ThreadInv(c, s, u) && LeaderInv(c, s, u);
    }
    if !c.Flat() {
      SameGlobalSet(c, s, r);
      forall u | 0 <= u < c.n ensures LevelInv(c, r, u) {
        assert LevelInv(c, s, u);
      }
    }
  }

  lemma StepIdle(c: Config, s: State, t: nat)
    requires Shape(c, s) && Inv(c, s) && t < c.n && s.pc[t].Idle?
    ensures Inv(c, Step(c, s, t))
  {
    assert ThreadInv(c, s, t);
    assert NodeInv(c, s, c.Node(t));
    QuietStep(c, s, Step(c, s, t), t);
  }

  lemma StepWaiting(c: Config, s: State, t: nat)
    requires Shape(c, s) && Inv(c, s) && t < c.n && s.pc[t].Waiting?
    ensures Inv(c, Step(c, s, t))
  {
    assert ThreadInv(c, s, t);
    assert NodeInv(c, s, c.Node(t));
    if Step(c, s, t) != s {
      QuietStep(c, s, Step(c, s, t), t);
    }
  }

  lemma SubsetFull<T>(a: set<T>, b: set<T>)
    requires a <= b && |a| >= |b|
    ensures a == b
  {
    assert b == a + (b - a);
  }

  lemma NotInRoundNoLeader(c: Config, s: State, t: nat)
    requires Shape(c, s) && Inv(c, s) && t < c.n && (s.pc[t].Idle? || s.pc[t].Loaded?)
    ensures NoLeader(c, s, c.Node(t))
  {
    forall x: nat | MemberOf(c, x, c.Node(t)) ensures !Leader(s.pc[x]) { assert LeaderInv(c, s, x); }
  }

  lemma RoundGains(c: Config, s: State, r: State, t: nat)
    requires Shape(c, s) && Shape(c, r) && t < c.n
    requires r.rounds == s.rounds && r.done == s.done && r.pc == s.pc[t := r.pc[t]]
    requires !Arrived(s.pc[t]) && Arrived(r.pc[t]) && s.done[t] == s.rounds[c.Node(t)]
    ensures RoundSet(c, r, c.Node(t)) == RoundSet(c, s, c.Node(t)) + {t} && t !in RoundSet(c, s, c.Node(t))
    ensures forall w :: 0 <= w < |c.nodeN| && w != c.Node(t) ==> RoundSet(c, r, w) == RoundSet(c, s, w)
  {
    assert MemberOf(c, t, c.Node(t));
    forall w | 0 <= w < |c.nodeN| && w != c.Node(t) ensures RoundSet(c, r, w) == RoundSet(c, s, w) {
    }
  }

  /** Not every thread of the node is in the round while `t` is not. */
  lemma RoundNotFull(c: Config, s: State, t: nat)
    requires Shape(c, s) && Exact(c) && t < c.n && !Arrived(s.pc[t])
    ensures RoundSet(c, s, c.Node(t)) <= NodeMembers(c, c.Node(t)) - {t}
    ensures |NodeMembers(c, c.Node(t)) - {t}| == c.LocalN(c.Node(t)) - 1
    ensures |RoundSet(c, s, c.Node(t))| < c.LocalN(c.Node(t))
  {
    var v := c.Node(t);
    assert MemberOf(c, t, v) && t in NodeMembers(c, v);
    SubsetSize(RoundSet(c, s, v), NodeMembers(c, v) - {t});
  }

  /** The last arrival finds every other thread of its node in the round. */
  lemma LastArrival(c: Config, s: State, t: nat)
    requires Shape(c, s) && Exact(c) && t < c.n && !Arrived(s.pc[t])
    requires |RoundSet(c, s, c.Node(t))| == c.LocalN(c.Node(t)) - 1
    ensures forall x :: 0 <= x < c.n && x != t && c.Node(x) == c.Node(t) ==> InRound(c, s, x)
  {
    var v := c.Node(t);
    RoundNotFull(c, s, t);
    SubsetFull(RoundSet(c, s, v), NodeMembers(c, v) - {t});
    forall x | 0 <= x < c.n && x != t && c.Node(x) == v ensures InRound(c, s, x) {
      assert MemberOf(c, x, v) && x in NodeMembers(c, v);
      assert x in RoundSet(c, s, v);
    }
  }

  lemma SubsetSize<T>(a: set<T>, b: set<T>)
    requires a <= b
    ensures |a| <= |b|
  {
    assert b == a + (b - a);
  }

  lemma ArriveFacts(c: Config, s: State, t: nat)
    requires Shape(c, s) && Inv(c, s) && Exact(c) && t < c.n && s.pc[t].Loaded?
    ensures var r := Arrive(c, s, t, s.pc[t].cur);
      && NoLeader(c, s, c.Node(t)) && s.arrived[c.Node(t)] == |RoundSet(c, s, c.Node(t))| < c.LocalN(c.Node(t))
      && ThreadInv(c, s, t) && r.arrived == s.arrived[c.Node(t) := s.arrived[c.Node(t)] + 1]
      && (r.pc[t].Reset? <==> r.arrived[c.Node(t)] == c.LocalN(c.Node(t)))
      && (r.pc[t].Reset? ==>
            forall x :: 0 <= x < c.n && x != t && c.Node(x) == c.Node(t) ==> InRound(c, s, x))
  {
    NotInRoundNoLeader(c, s, t);
    RoundNotFull(c, s, t);
    assert ThreadInv(c, s, t) && NodeInv(c, s, c.Node(t));
    if Arrive(c, s, t, s.pc[t].cur).pc[t].Reset? { LastArrival(c, s, t); }
  }

  lemma ArriveThread(c: Config, s: State, t: nat, u: nat)
    requires Shape(c, s) && Inv(c, s) && Exact(c) && t < c.n && s.pc[t].Loaded? && u < c.n
    ensures var r := Arrive(c, s, t, s.pc[t].cur);
            ThreadInv(c, r, u) && LeaderInv(c, r, u) && (!c.Flat() ==> LevelInv(c, r, u))
  {
    ArriveFacts(c, s, t);
    ArriveNode(c, s, t, c.Node(u));
    assert ThreadInv(c, s, u) && LeaderInv(c, s, u);
    if !c.Flat() { assert LevelInv(c, s, u) && LevelInv(c, s, t); }
    assert MemberOf(c, u, c.Node(u));
  }

  lemma ArriveNode(c: Config, s: State, t: nat, w: nat)
    requires Shape(c, s) && Inv(c, s) && Exact(c) && t < c.n && s.pc[t].Loaded? && w < |c.nodeN|
    ensures var r := Arrive(c, s, t, s.pc[t].cur); NodeInv(c, r, w) && (NoLeader(c, r, w) ==> NoLeader(c, s, w))
  {
    var r := Arrive(c, s, t, s.pc[t].cur);
    ArriveFacts(c, s, t);
    assert NodeInv(c, s, w);
    RoundGains(c, s, r, t);
    assert MemberOf(c, t, c.Node(t));
    if NoLeader(c, r, w) {
      forall x: nat | MemberOf(c, x, w) ensures !Leader(s.pc[x]) { assert x == t || r.pc[x] == s.pc[x]; }
    }
  }

  lemma StepLoaded(c: Config, s: State, t: nat)
    requires Shape(c, s) && Inv(c, s) && Exact(c) && t < c.n && s.pc[t].Loaded?
    ensures Inv(c, Step(c, s, t))
  {
    var r := Arrive(c, s, t, s.pc[t].cur);
    forall u | 0 <= u < c.n
      ensures ThreadInv(c, r, u) && LeaderInv(c, r, u) && (!c.Flat() ==> LevelInv(c, r, u))
    { ArriveThread(c, s, t, u); }
    forall w | 0 <= w < |c.nodeN| ensures NodeInv(c, r, w) { ArriveNode(c, s, t, w); }
    if !c.Flat() {
      SameGlobalSet(c, s, r);
      if NoLastLeader(c, r) {
        forall u | 0 <= u < c.n ensures !LastLeader(s.pc[u]) { assert !LastLeader(r.pc[u]); }
      }
    }
  }

  // ---------------------------------------------------------------- the leader's steps

  /** A leader that stays one changes nothing the node-level clauses speak of. */
  lemma LeaderStays(c: Config, s: State, r: State, t: nat, w: nat)
    requires Shape(c, s) && Shape(c, r) && Inv(c, s) && t < c.n && w < |c.nodeN|
    requires r.pc == s.pc[t := r.pc[t]] && r.rounds == s.rounds && r.done == s.done && r.phase == s.phase
    requires forall x :: 0 <= x < |c.nodeN| && x != c.Node(t) ==> r.arrived[x] == s.arrived[x]
    requires Leader(s.pc[t]) && Leader(r.pc[t])
    ensures NodeInv(c, r, w) && NoLeader(c, r, w) == NoLeader(c, s, w)
  {
    assert NodeInv(c, s, w) && MemberOf(c, t, c.Node(t));
    if NoLeader(c, r, w) {
      forall x: nat | MemberOf(c, x, w) ensures !Leader(s.pc[x]) { assert !Leader(r.pc[x]); }
    }
    if NoLeader(c, s, w) {
      forall x: nat | MemberOf(c, x, w) ensures !Leader(r.pc[x]) { assert !Leader(s.pc[x]); }
      assert RoundSet(c, r, w) == RoundSet(c, s, w);
    }
  }

  lemma SameLeaders(c: Config, s: State, r: State, t: nat, u: nat)
    requires Shape(c, s) && Shape(c, r) && Inv(c, s) && t < c.n && u < c.n
    requires r.pc == s.pc[t := r.pc[t]] && r.rounds == s.rounds && r.done == s.done
    requires Leader(s.pc[t]) && Leader(r.pc[t])
    ensures LeaderInv(c, r, u)
    ensures u != t && c.Node(u) == c.Node(t) ==> s.pc[u].Waiting?
  {
    assert LeaderInv(c, s, u) && LeaderInv(c, s, t);
  }

  /** The leader's steps that leave the global counter and round alone. */
  lemma StepLocalLeader(c: Config, s: State, t: nat)
    requires Shape(c, s) && Inv(c, s) && t < c.n
    requires s.pc[t].Reset? || s.pc[t].GLoad?
    ensures Inv(c, Step(c, s, t))
  {
    var r := Step(c, s, t);
    assert ThreadInv(c, s, t);
    forall w | 0 <= w < |c.nodeN| ensures NodeInv(c, r, w) { LeaderStays(c, s, r, t, w); }
    if !c.Flat() { SameGlobalSet(c, s, r); }
    forall u | 0 <= u < c.n
      ensures ThreadInv(c, r, u) && LeaderInv(c, r, u) && (!c.Flat() ==> LevelInv(c, r, u))
      ensures !c.Flat() ==> LastLeader(r.pc[u]) == LastLeader(s.pc[u])
    {
      SameLeaders(c, s, r, t, u);
      assert ThreadInv(c, s, u);
      if !c.Flat() {
        assert LevelInv(c, s, u) && LevelInv(c, s, t);
        LeaderStays(c, s, r, t, c.Node(u));
      }
    }
    if !c.Flat() {
      assert NoLastLeader(c, r) ==> NoLastLeader(c, s) by {
        if NoLastLeader(c, r) { forall u | 0 <= u < c.n ensures !LastLeader(s.pc[u]) { assert !LastLeader(r.pc[u]); } }
      }
    }
  }

  lemma MemberActive(c: Config, t: nat)
    requires Exact(c) && !c.Flat() && t < c.n
    ensures c.Node(t) in ActiveSet(c)
  {
    NodeBound(c, t);
    assert MemberOf(c, t, c.Node(t)) && t in NodeMembers(c, c.Node(t));
    assert Active(c, c.Node(t));
  }

  lemma GlobalWithinActive(c: Config, s: State)
    requires Shape(c, s) && Exact(c) && !c.Flat()
    ensures GlobalSet(c, s) <= ActiveSet(c)
  {
    forall v | v in GlobalSet(c, s) ensures v in ActiveSet(c) {
      var t: nat :| MemberOf(c, t, v) && InGlobalRound(c, s, t);
      MemberActive(c, t);
    }
  }

  /** Two leaders of one node are one. */
  lemma OneLeader(c: Config, s: State, t: nat, u: nat)
    requires Shape(c, s) && Inv(c, s) && t < c.n && u < c.n && c.Node(t) == c.Node(u)
    requires Leader(s.pc[t]) && Leader(s.pc[u])
    ensures t == u
  {
    assert LeaderInv(c, s, t);
  }

  /** A leader short of the global counter: its node is not counted and nobody is last yet. */
  lemma BeforeGlobal(c: Config, s: State, t: nat)
    requires Shape(c, s) && Inv(c, s) && Exact(c) && !c.Flat() && t < c.n && s.pc[t].GAdd?
    ensures NoLastLeader(c, s) && c.Node(t) !in GlobalSet(c, s)
  {
    if c.Node(t) in GlobalSet(c, s) {
      var x: nat :| MemberOf(c, x, c.Node(t)) && InGlobalRound(c, s, x);
      OneLeader(c, s, t, x);
    }
    MemberActive(c, t);
  }

  lemma GlobalGains(c: Config, s: State, r: State, t: nat)
    requires Shape(c, s) && Shape(c, r) && t < c.n && r.pc == s.pc[t := r.pc[t]]
    requires r.done == s.done && r.gRounds == s.gRounds
    requires !InGlobalRound(c, s, t) && InGlobalRound(c, r, t)
    ensures GlobalSet(c, r) == GlobalSet(c, s) + {c.Node(t)}
  {
    NodeBound(c, t);
    assert MemberOf(c, t, c.Node(t));
    forall v: nat | v < |c.nodeN|
      ensures NodeInGlobalRound(c, r, v) <==> NodeInGlobalRound(c, s, v) || v == c.Node(t)
    {
      if NodeInGlobalRound(c, r, v) && v != c.Node(t) {
        var x: nat :| MemberOf(c, x, v) && InGlobalRound(c, r, x);
        assert InGlobalRound(c, s, x);
      }
      if NodeInGlobalRound(c, s, v) {
        var x: nat :| MemberOf(c, x, v) && InGlobalRound(c, s, x);
        assert InGlobalRound(c, r, x);
      }
    }
  }

  lemma GAddFacts(c: Config, s: State, t: nat)
    requires Shape(c, s) && Inv(c, s) && Exact(c) && t < c.n && s.pc[t].GAdd?
    ensures var r := ArriveGlobal(c, s, t, s.pc[t].cur, s.pc[t].gcur);
      && !c.Flat() && NoLastLeader(c, s)
      && r.gArrived == |GlobalSet(c, r)| <= c.activeNodes
      && (r.pc[t].GReset? <==> r.gArrived == c.activeNodes)
      && (r.pc[t].GReset? ==> GlobalSet(c, r) == ActiveSet(c))
  {
    var r := ArriveGlobal(c, s, t, s.pc[t].cur, s.pc[t].gcur);
    assert ThreadInv(c, s, t) && LevelInv(c, s, t);
    BeforeGlobal(c, s, t);
    GlobalGains(c, s, r, t);
    GlobalWithinActive(c, r);
    SubsetSize(GlobalSet(c, r), ActiveSet(c));
    if r.pc[t].GReset? { SubsetFull(GlobalSet(c, r), ActiveSet(c)); }
  }

  lemma GAddThread(c: Config, s: State, t: nat, u: nat)
    requires Shape(c, s) && Inv(c, s) && Exact(c) && t < c.n && s.pc[t].GAdd? && u < c.n
    ensures var r := ArriveGlobal(c, s, t, s.pc[t].cur, s.pc[t].gcur);
            ThreadInv(c, r, u) && LeaderInv(c, r, u) && LevelInv(c, r, u)
  {
    var r := ArriveGlobal(c, s, t, s.pc[t].cur, s.pc[t].gcur);
    GAddFacts(c, s, t);
    assert ThreadInv(c, s, t) && LevelInv(c, s, t);
    SameLeaders(c, s, r, t, u);
    assert ThreadInv(c, s, u) && LevelInv(c, s, u) && !LastLeader(s.pc[u]);
    LeaderStays(c, s, r, t, c.Node(u));
  }

  /** fetch_add on the global counter. */
  lemma StepGAdd(c: Config, s: State, t: nat)
    requires Shape(c, s) && Inv(c, s) && Exact(c) && t < c.n && s.pc[t].GAdd?
    ensures Inv(c, Step(c, s, t))
  {
    var r := ArriveGlobal(c, s, t, s.pc[t].cur, s.pc[t].gcur);
    GAddFacts(c, s, t);
    forall w | 0 <= w < |c.nodeN| ensures NodeInv(c, r, w) { LeaderStays(c, s, r, t, w); }
    forall u | 0 <= u < c.n
      ensures ThreadInv(c, r, u) && LeaderInv(c, r, u) && LevelInv(c, r, u)
      ensures LastLeader(r.pc[u]) ==> u == t
    {
      GAddThread(c, s, t, u);
      assert !LastLeader(s.pc[u]);
    }
    if NoLastLeader(c, r) { assert !LastLeader(r.pc[t]); }
  }

  lemma StepGWaiting(c: Config, s: State, t: nat)
    requires Shape(c, s) && Inv(c, s) && Exact(c) && t < c.n && s.pc[t].GWaiting?
    ensures Inv(c, Step(c, s, t))
  {
    var r := Step(c, s, t);
    assert ThreadInv(c, s, t) && LevelInv(c, s, t);
    if r != s {
      SameGlobalSet(c, s, r);
      forall w | 0 <= w < |c.nodeN| ensures NodeInv(c, r, w) { LeaderStays(c, s, r, t, w); }
      forall u | 0 <= u < c.n
        ensures ThreadInv(c, r, u) && LeaderInv(c, r, u) && LevelInv(c, r, u) && LastLeader(r.pc[u]) == LastLeader(s.pc[u])
      {
        SameLeaders(c, s, r, t, u);
        assert ThreadInv(c, s, u) && LevelInv(c, s, u);
        LeaderStays(c, s, r, t, c.Node(u));
      }
      if NoLastLeader(c, r) { forall u | 0 <= u < c.n ensures !LastLeader(s.pc[u]) { assert !LastLeader(r.pc[u]); } }
    }
  }

  lemma StepGReset(c: Config, s: State, t: nat)
    requires Shape(c, s) && Inv(c, s) && Exact(c) && t < c.n && s.pc[t].GReset?
    ensures Inv(c, Step(c, s, t))
  {
    var r := Step(c, s, t);
    assert ThreadInv(c, s, t) && LevelInv(c, s, t);
    SameGlobalSet(c, s, r);
    forall w | 0 <= w < |c.nodeN| ensures NodeInv(c, r, w) { LeaderStays(c, s, r, t, w); }
    forall u | 0 <= u < c.n
      ensures ThreadInv(c, r, u) && LeaderInv(c, r, u) && LevelInv(c, r, u) && LastLeader(r.pc[u]) == LastLeader(s.pc[u])
    {
      SameLeaders(c, s, r, t, u);
      assert ThreadInv(c, s, u) && LevelInv(c, s, u);
      LeaderStays(c, s, r, t, c.Node(u));
    }
    assert LastLeader(r.pc[t]);
  }

  /** While a last leader is at work, every other leader waits in its global round. */
  lemma LastLeaderAlone(c: Config, s: State, t: nat, u: nat)
    requires Shape(c, s) && Inv(c, s) && Exact(c) && !c.Flat() && t < c.n && u < c.n && t != u
    requires LastLeader(s.pc[t]) && Leader(s.pc[u])
    ensures s.pc[u].GWaiting? && s.done[u] == s.gRounds
  {
    MemberActive(c, u);
    assert c.Node(u) in GlobalSet(c, s);
    var x: nat :| MemberOf(c, x, c.Node(u)) && InGlobalRound(c, s, x);
    OneLeader(c, s, u, x);
  }

  /** While a last leader is at work, every thread of every node has arrived in this round. */
  lemma LastLeaderAll(c: Config, s: State, t: nat, u: nat)
    requires Shape(c, s) && Inv(c, s) && Exact(c) && !c.Flat() && t < c.n && u < c.n
    requires LastLeader(s.pc[t])
    ensures !NoLeader(c, s, c.Node(u)) && Arrived(s.pc[u]) && s.done[u] == s.rounds[c.Node(u)] == s.gRounds
  {
    MemberActive(c, u);
    assert c.Node(u) in GlobalSet(c, s);
    var x: nat :| MemberOf(c, x, c.Node(u)) && InGlobalRound(c, s, x);
    assert LeaderInv(c, s, x) && ThreadInv(c, s, x) && LevelInv(c, s, x);
  }

  /** The last leader's store to the global phase. */
  lemma StepGStore(c: Config, s: State, t: nat)
    requires Shape(c, s) && Inv(c, s) && Exact(c) && t < c.n && s.pc[t].GStore?
    ensures Inv(c, Step(c, s, t))
  {
    var r := StoreGlobal(c, s, t, s.pc[t].cur, s.pc[t].gcur);
    assert ThreadInv(c, s, t) && LevelInv(c, s, t);
    forall w | 0 <= w < |c.nodeN| ensures NodeInv(c, r, w) { LeaderStays(c, s, r, t, w); }
    forall u | 0 <= u < c.n
      ensures ThreadInv(c, r, u) && LeaderInv(c, r, u) && LevelInv(c, r, u) && !LastLeader(r.pc[u]) && !InGlobalRound(c, r, u)
    {
      SameLeaders(c, s, r, t, u);
      assert ThreadInv(c, s, u) && LevelInv(c, s, u);
      LastLeaderAll(c, s, t, u);
      if u != t && Leader(s.pc[u]) { LastLeaderAlone(c, s, t, u); }
      LeaderStays(c, s, r, t, c.Node(u));
    }
    assert GlobalSet(c, r) == {};
  }

  /** A leader releases its node: everybody there may return, nobody elsewhere moves. */
  lemma ReleaseFacts(c: Config, s: State, t: nat)
    requires Shape(c, s) && Inv(c, s) && Exact(c) && t < c.n && s.pc[t].Release?
    ensures var r := ReleaseLocal(c, s, t, s.pc[t].cur);
      && NoLeader(c, r, c.Node(t)) && RoundSet(c, r, c.Node(t)) == {}
      && (forall w :: 0 <= w < |c.nodeN| && w != c.Node(t) ==>
            NoLeader(c, r, w) == NoLeader(c, s, w) && RoundSet(c, r, w) == RoundSet(c, s, w))
      && (forall u: nat :: InGlobalRound(c, s, u) == InGlobalRound(c, r, u))
  {
    var r := ReleaseLocal(c, s, t, s.pc[t].cur);
    assert ThreadInv(c, s, t) && LeaderInv(c, s, t);
    forall u | 0 <= u < c.n && c.Node(u) == c.Node(t) ensures !Leader(r.pc[u]) && !InRound(c, r, u) {
    }
    forall w | 0 <= w < |c.nodeN| && w != c.Node(t)
      ensures NoLeader(c, r, w) == NoLeader(c, s, w) && RoundSet(c, r, w) == RoundSet(c, s, w)
    {
      forall x: nat | MemberOf(c, x, w) ensures r.pc[x] == s.pc[x] && r.done[x] == s.done[x] {
      }
    }
  }

  lemma StepRelease(c: Config, s: State, t: nat)
    requires Shape(c, s) && Inv(c, s) && Exact(c) && t < c.n && s.pc[t].Release?
    ensures Inv(c, Step(c, s, t))
  {
    var r := ReleaseLocal(c, s, t, s.pc[t].cur);
    assert ThreadInv(c, s, t) && LeaderInv(c, s, t);
    ReleaseFacts(c, s, t);
    forall w | 0 <= w < |c.nodeN| ensures NodeInv(c, r, w) { assert NodeInv(c, s, w); }
    forall u | 0 <= u < c.n ensures ThreadInv(c, r, u) && LeaderInv(c, r, u) {
      assert ThreadInv(c, s, u) && LeaderInv(c, s, u);
    }
    if !c.Flat() {
      SameGlobalSet(c, s, r);
      forall u | 0 <= u < c.n ensures LevelInv(c, r, u) && LastLeader(r.pc[u]) == LastLeader(s.pc[u]) {
        assert LevelInv(c, s, u);
        NodeBound(c, u);
      }
      if NoLastLeader(c, r) { forall u | 0 <= u < c.n ensures !LastLeader(s.pc[u]) { assert !LastLeader(r.pc[u]); } }
    }
  }

  // ---------------------------------------------------------------- all runs

  lemma InitInv(c: Config)
    requires Exact(c)
    ensures Inv(c, Init(c))
  {
    var s := Init(c);
    forall v | 0 <= v < |c.nodeN| ensures NodeInv(c, s, v) {
      assert RoundSet(c, s, v) == {};
    }
    if !c.Flat() { assert GlobalSet(c, s) == {}; }
  }

  lemma StepInv(c: Config, s: State, t: nat)
    requires Shape(c, s) && Inv(c, s) && Exact(c) && t < c.n
    ensures Inv(c, Step(c, s, t))
  {
    match s.pc[t]
    case Idle => StepIdle(c, s, t);
    case Loaded(_) => StepLoaded(c, s, t);
    case Waiting(_) => StepWaiting(c, s, t);
    case Reset(_) => StepLocalLeader(c, s, t);
    case GLoad(_) => StepLocalLeader(c, s, t);
    case GAdd(_, _) => StepGAdd(c, s, t);
    case GWaiting(_, _) => StepGWaiting(c, s, t);
    case GReset(_, _) => StepGReset(c, s, t);
    case GStore(_, _) => StepGStore(c, s, t);
    case Release(_) => StepRelease(c, s, t);
  }

  lemma {:induction false} RunInv(c: Config, s: State, sched: seq<nat>)
    requires Shape(c, s) && Inv(c, s) && Exact(c) && Schedule(c, sched)
    ensures Inv(c, Run(c, s, sched))
    decreases |sched|
  {
    if sched != [] {
      StepInv(c, s, sched[0]);
      RunInv(c, Step(c, s, sched[0]), sched[1..]);
    }
  }

  /** On every run, in every interleaving, no wait returns before all threads arrived at it. */
  lemma BarrierSafe(c: Config, sched: seq<nat>)
    requires Exact(c) && Schedule(c, sched)
    ensures Safe(c, Run(c, Init(c), sched))
  {
    InitInv(c);
    RunInv(c, Init(c), sched);
    InvSafe(c, Run(c, Init(c), sched));
  }
}
