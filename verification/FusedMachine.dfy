/**
 * The fused layer step with the barrier a pool of threads on a given machine gets: result, freedom
 * from data races and termination when every thread has a CPU or there is a single node, and the
 * race that occurs otherwise.
 */
module FusedMachine {
  import F = FusedBlock
  import R = FusedBlockRuns
  import B = Barrier
  import P = BarrierProgress
  import WS = WorkSteal
  import WorkRange
  import opened NumaPlacement
  import opened FusedDispatch

  /** A CPU for every thread, or a single node: the condition under which the barrier is correct. */
  predicate Provided(caps: seq<nat>, n: nat) { |caps| == 1 || n <= TotalCpus(caps) }

  ghost predicate OnMachine(c: F.Config, caps: seq<nat>) { c.Valid() && Topology(caps) && c.n <= MAX_CPUS }

  ghost function Bar(c: F.Config, caps: seq<nat>): (b: B.Config)
    requires OnMachine(c, caps)
    ensures b.WellFormed()
  {
    P.PoolWellFormed(caps, c.n);
    P.PoolConfig(caps, c.n)
  }

  ghost function Reach(c: F.Config, caps: seq<nat>, sched: seq<nat>): (s: State)
    requires OnMachine(c, caps) && R.Schedule(c, sched)
    ensures Shape(c, Bar(c, caps), s)
  {
    Run(c, Bar(c, caps), Init(c, Bar(c, caps)), sched)
  }

  lemma ReachInv(c: F.Config, caps: seq<nat>, sched: seq<nat>)
    requires OnMachine(c, caps) && Provided(caps, c.n) && R.Schedule(c, sched)
    ensures B.Exact(Bar(c, caps)) && Inv(c, Bar(c, caps), Reach(c, caps, sched))
  {
    P.PoolExact(caps, c.n);
    InitInv(c, Bar(c, caps));
    RunInv(c, Bar(c, caps), Init(c, Bar(c, caps)), sched);
  }

  // ---------------------------------------------------------------- the result

  /**
   * With a CPU for every thread, or on one node: whatever the interleaving of row, channel and
   * barrier operations, the dispatch leaves the memory of in_proj; scan; prepare; out_proj.
   */
  lemma FusedIsSequential(c: F.Config, caps: seq<nat>, sched: seq<nat>)
    requires OnMachine(c, caps) && Provided(caps, c.n) && R.Schedule(c, sched)
    requires R.AllReturned(c, Reach(c, caps, sched).work)
    ensures Reach(c, caps, sched).work.mem == F.Sequential(c)
  {
    ReachInv(c, caps, sched);
    ReturnedMemory(c, Bar(c, caps), Reach(c, caps, sched));
  }

  lemma ReturnedMemory(c: F.Config, d: B.Config, s: State)
    requires Inv(c, d, s) && R.AllReturned(c, s.work)
    ensures s.work.mem == F.Sequential(c)
  {
    forall t | 0 <= t < c.n ensures Seen(c, d, s).stage[t] == s.work.stage[t] {
      assert Seen(c, d, s).stage[t] == SeenStage(c, d, s, t);
    }
    R.ReturnedIsSequential(c, Seen(c, d, s));
  }

  // ---------------------------------------------------------------- data races

  /** No two threads are about to touch one location, one of them writing. */
  ghost predicate RaceFree(c: F.Config, s: State)
    requires F.Shape(c, s.work)
  {
    forall t: nat, u: nat, l :: t < c.n && u < c.n && t != u && R.Writes(c, R.WorkOf(c, s.work, t), l) ==>
      !R.Reads(c, R.WorkOf(c, s.work, u), l) && !R.Writes(c, R.WorkOf(c, s.work, u), l)
  }

  lemma SameWork(c: F.Config, d: B.Config, s: State, t: nat)
    requires Inv(c, d, s) && t < c.n
    ensures R.WorkOf(c, s.work, t) == R.WorkOf(c, Seen(c, d, s), t)
  {
    var v := Seen(c, d, s);
    assert ThreadLink(c, d, s, t) && v.stage[t] == SeenStage(c, d, s, t);
    if v.stage[t] == s.work.stage[t] { WorkLocal(c, s.work, v, t); } else { OverIsControl(c, v, t); }
  }

  /** What a thread does next depends on no stage but its own. */
  lemma WorkLocal(c: F.Config, w: F.State, v: F.State, t: nat)
    requires F.Shape(c, w) && F.Shape(c, v) && t < c.n && v == w.(stage := v.stage) && v.stage[t] == w.stage[t]
    ensures R.WorkOf(c, w, t) == R.WorkOf(c, v, t)
  { }

  /** A thread that is through with its phase has no row, channel or element left in it. */
  lemma OverIsControl(c: F.Config, w: F.State, t: nat)
    requires F.Shape(c, w) && t < c.n && PhaseOver(c, w, t, w.stage[t]) && w.stage[t] <= F.PREPARE
    ensures R.WorkOf(c, w, t).Control?
  { }

  lemma InvRaceFree(c: F.Config, d: B.Config, s: State)
    requires Inv(c, d, s)
    ensures RaceFree(c, s)
  {
    forall t: nat, u: nat, l | t < c.n && u < c.n && t != u && R.Writes(c, R.WorkOf(c, s.work, t), l)
      ensures !R.Reads(c, R.WorkOf(c, s.work, u), l) && !R.Writes(c, R.WorkOf(c, s.work, u), l)
    {
      SameWork(c, d, s, t);
      SameWork(c, d, s, u);
      R.NoRace(c, Seen(c, d, s), t, u, l);
    }
  }

  lemma NoRace(c: F.Config, caps: seq<nat>, sched: seq<nat>)
    requires OnMachine(c, caps) && Provided(caps, c.n) && R.Schedule(c, sched)
    ensures RaceFree(c, Reach(c, caps, sched))
  {
    ReachInv(c, caps, sched);
    InvRaceFree(c, Bar(c, caps), Reach(c, caps, sched));
  }

  /** Thread 0 overwrites the quantized input only when every thread is through with in_proj. */
  lemma OverwriteIsLate(c: F.Config, caps: seq<nat>, sched: seq<nat>, u: nat)
    requires OnMachine(c, caps) && Provided(caps, c.n) && R.Schedule(c, sched) && u < c.n
    requires R.WorkOf(c, Reach(c, caps, sched).work, 0).Element?
    ensures var w := Reach(c, caps, sched).work; w.stage[u] > F.SCAN && w.c1.pc[u].Done?
  {
    ReachInv(c, caps, sched);
    var d, s := Bar(c, caps), Reach(c, caps, sched);
    SameWork(c, d, s, 0);
    R.OverwriteIsLate(c, Seen(c, d, s), u);
    assert Seen(c, d, s).stage[u] == SeenStage(c, d, s, u);
  }

  // ---------------------------------------------------------------- termination

  /** What is left: phase work first, then operations inside the waits. */
  ghost predicate Nearer(c: F.Config, d: B.Config, r: State, s: State)
    requires Shape(c, d, r) && Shape(c, d, s)
  {
    R.Below(R.Left(c, r.work), R.Left(c, s.work))
    || (r.work == s.work && P.Work(d, r.bar, 3, c.n) < P.Work(d, s.bar, 3, c.n))
  }

  lemma LinkedClaims(c: F.Config, d: B.Config, s: State)
    requires Inv(c, d, s)
    ensures R.ClaimsHold(c, s.work)
  { }

  /** Every step of every thread is spinning or brings the dispatch nearer its end. */
  lemma StepNearer(c: F.Config, d: B.Config, s: State, t: nat)
    requires Inv(c, d, s) && t < c.n
    ensures Step(c, d, s, t) == s || Nearer(c, d, Step(c, d, s, t), s)
  {
    assert ThreadLink(c, d, s, t);
    if F.AtBarrier(s.work, t) {
      P.StepWork(d, s.bar, 3, t);
      R.StageStepLeft(c, s.work, t);
    } else if s.work.stage[t] < F.RETURNED {
      LinkedClaims(c, d, s);
      R.PhaseStepLeft(c, s.work, t);
    }
  }

  /** While a worker has not returned, some worker has a step that is not spinning. */
  lemma CanAdvance(c: F.Config, d: B.Config, s: State) returns (t: nat)
    requires Inv(c, d, s) && B.Exact(d) && !R.AllReturned(c, s.work)
    ensures t < c.n && Step(c, d, s, t) != s
  {
    t :| t < c.n && s.work.stage[t] < F.RETURNED;
    if u: nat :| u < c.n && !F.AtBarrier(s.work, u) && s.work.stage[u] < F.RETURNED {
      LinkedClaims(c, d, s);
      R.PhaseStepLeft(c, s.work, u);
      return u;
    }
    assert ThreadLink(c, d, s, t);
    t := P.CanAdvance(d, s.bar, 3);
    assert ThreadLink(c, d, s, t);
  }

  lemma Advances(c: F.Config, d: B.Config, s: State) returns (t: nat)
    requires Inv(c, d, s) && B.Exact(d) && !R.AllReturned(c, s.work)
    ensures t < c.n && Inv(c, d, Step(c, d, s, t)) && Nearer(c, d, Step(c, d, s, t), s)
  {
    t := CanAdvance(c, d, s);
    StepInv(c, d, s, t);
    StepNearer(c, d, s, t);
  }

  lemma RunCons(c: F.Config, d: B.Config, s: State, t: nat, rest: seq<nat>)
    requires Shape(c, d, s) && t < c.n && R.Schedule(c, rest)
    ensures R.Schedule(c, [t] + rest) && Run(c, d, s, [t] + rest) == Run(c, d, Step(c, d, s, t), rest)
  {
    assert ([t] + rest)[1..] == rest;
  }

  lemma CanFinish(c: F.Config, d: B.Config, s: State) returns (sched: seq<nat>)
    requires Inv(c, d, s) && B.Exact(d)
    ensures R.Schedule(c, sched) && R.AllReturned(c, Run(c, d, s, sched).work)
    decreases R.Left(c, s.work).stage, R.Left(c, s.work).claims, R.Left(c, s.work).steps, P.Work(d, s.bar, 3, c.n)
  {
    sched := [];
    if !R.AllReturned(c, s.work) {
      var t := Advances(c, d, s);
      var rest := CanFinish(c, d, Step(c, d, s, t));
      sched := [t] + rest;
      RunCons(c, d, s, t, rest);
    }
  }

  lemma NearerOn(c: F.Config, d: B.Config, q: State, r: State, s: State)
    requires Shape(c, d, q) && Shape(c, d, r) && Shape(c, d, s)
    requires (q == r || Nearer(c, d, q, r)) && (r == s || Nearer(c, d, r, s))
    ensures (q == s && r == s) || Nearer(c, d, q, s)
  { }

  /** No schedule takes the dispatch away from its end; one that keeps the state has only spun. */
  lemma {:induction false} RunNearer(c: F.Config, d: B.Config, s: State, sched: seq<nat>)
    requires Inv(c, d, s) && B.Exact(d) && R.Schedule(c, sched)
    ensures Inv(c, d, Run(c, d, s, sched))
    ensures Run(c, d, s, sched) == s || Nearer(c, d, Run(c, d, s, sched), s)
    decreases |sched|
  {
    if sched != [] {
      var r := Step(c, d, s, sched[0]);
      StepInv(c, d, s, sched[0]);
      StepNearer(c, d, s, sched[0]);
      RunNearer(c, d, r, sched[1..]);
      NearerOn(c, d, Run(c, d, r, sched[1..]), r, s);
    }
  }

  lemma ScheduleConcat(c: F.Config, a: seq<nat>, b: seq<nat>)
    requires R.Schedule(c, a) && R.Schedule(c, b)
    ensures R.Schedule(c, a + b) && if a == [] then a + b == b else a + b == [a[0]] + (a[1..] + b) && a == [a[0]] + a[1..]
  { }

  lemma {:induction false} RunConcat(c: F.Config, d: B.Config, s: State, a: seq<nat>, b: seq<nat>)
    requires Shape(c, d, s) && R.Schedule(c, a) && R.Schedule(c, b)
    ensures R.Schedule(c, a + b) && Run(c, d, s, a + b) == Run(c, d, Run(c, d, s, a), b)
    decreases |a|
  {
    ScheduleConcat(c, a, b);
    if a != [] {
      RunConcat(c, d, Step(c, d, s, a[0]), a[1..], b);
      RunCons(c, d, s, a[0], a[1..] + b);
      RunCons(c, d, s, a[0], a[1..]);
    }
  }

  /** Every thread takes a step in it. */
  ghost predicate Fair(c: F.Config, round: seq<nat>) {
    R.Schedule(c, round) && forall t :: 0 <= t < c.n ==> t in round
  }

  /** A step that is not spinning in `s` still counts after the others have spun. */
  lemma Stepped(c: F.Config, d: B.Config, s: State, r: State, t: nat)
    requires Inv(c, d, s) && Inv(c, d, r) && B.Exact(d) && t < c.n && Step(c, d, s, t) != s && (r == s || Nearer(c, d, r, s))
    ensures Inv(c, d, Step(c, d, r, t)) && Nearer(c, d, Step(c, d, r, t), s)
  {
    StepInv(c, d, r, t);
    StepNearer(c, d, r, t);
    NearerOn(c, d, Step(c, d, r, t), r, s);
  }

  lemma HelpedRun(c: F.Config, d: B.Config, s: State, a: seq<nat>, t: nat, b: seq<nat>)
    requires Inv(c, d, s) && B.Exact(d) && t < c.n && Step(c, d, s, t) != s && R.Schedule(c, a) && R.Schedule(c, b)
    ensures R.Schedule(c, a + ([t] + b)) && Inv(c, d, Run(c, d, s, a + ([t] + b)))
    ensures Nearer(c, d, Run(c, d, s, a + ([t] + b)), s)
  {
    var r := Run(c, d, s, a);
    var q := Step(c, d, r, t);
    RunNearer(c, d, s, a);
    Stepped(c, d, s, r, t);
    RunNearer(c, d, q, b);
    RunCons(c, d, r, t, b);
    RunConcat(c, d, s, a, [t] + b);
    NearerOn(c, d, Run(c, d, q, b), q, s);
  }

  lemma RoundNearer(c: F.Config, d: B.Config, s: State, round: seq<nat>)
    requires Inv(c, d, s) && B.Exact(d) && !R.AllReturned(c, s.work) && Fair(c, round)
    ensures Inv(c, d, Run(c, d, s, round)) && Nearer(c, d, Run(c, d, s, round), s)
  {
    var t := CanAdvance(c, d, s);
    var a, b := TurnOf(c, round, t);
    HelpedRun(c, d, s, a, t, b);
  }

  /** The step of `t` in a fair round, with what comes before and after it. */
  lemma TurnOf(c: F.Config, round: seq<nat>, t: nat) returns (a: seq<nat>, b: seq<nat>)
    requires Fair(c, round) && t < c.n
    ensures R.Schedule(c, a) && R.Schedule(c, b) && round == a + ([t] + b)
  {
    assert t in round;
    var k :| 0 <= k < |round| && round[k] == t;
    a, b := round[..k], round[k + 1..];
  }

  /** The rounds from the `i`-th up to the `k`-th. */
  ghost function RunRounds(c: F.Config, d: B.Config, s: State, rounds: nat -> seq<nat>, i: nat, k: nat): (r: State)
    requires Shape(c, d, s) && forall j :: Fair(c, rounds(j))
    ensures Shape(c, d, r)
    decreases k - i
  {
    if i >= k then s else assert Fair(c, rounds(i)); RunRounds(c, d, Run(c, d, s, rounds(i)), rounds, i + 1, k)
  }

  /** On every infinite schedule that keeps giving every thread a step, all workers return. */
  lemma FairRunsReturn(c: F.Config, d: B.Config, s: State, rounds: nat -> seq<nat>, i: nat) returns (k: nat)
    requires Inv(c, d, s) && B.Exact(d) && forall j :: Fair(c, rounds(j))
    ensures k >= i && R.AllReturned(c, RunRounds(c, d, s, rounds, i, k).work)
    decreases R.Left(c, s.work).stage, R.Left(c, s.work).claims, R.Left(c, s.work).steps, P.Work(d, s.bar, 3, c.n)
  {
    if R.AllReturned(c, s.work) {
      k := i;
    } else {
      assert Fair(c, rounds(i));
      var r := Run(c, d, s, rounds(i));
      RoundNearer(c, d, s, rounds(i));
      k := FairRunsReturn(c, d, r, rounds, i + 1);
    }
  }

  // ---------------------------------------------------------------- more threads than CPUs

  lemma HasWork(tid: nat, nThreads: nat, nTasks: nat)
    requires tid < nThreads && tid < nTasks
    ensures WorkRange.Range(tid, nThreads, nTasks).0 < WorkRange.Range(tid, nThreads, nTasks).1
  {
    WorkRange.StartFormula(tid, nThreads, nTasks);
    if nTasks / nThreads == 0 { assert nTasks % nThreads == nTasks; }
  }

  /** Only threads below `m` have computed rows, and they have finished in_proj once past it; nothing has been scanned. */
  ghost predicate HalfWritten(c: F.Config, w: F.State, m: nat)
    requires F.Shape(c, w) && m < c.n
  {
    && w.mem.quant == c.mem.quant && w.mem.bufs == c.mem.bufs
    && (forall y :: 0 <= y < c.l.p.ProjDim() ==> w.mem.proj[y] == if w.c1.runs[y] >= 1 then F.FinalProj(c)[y] else c.mem.proj[y])
    && w.c1.pc[m] == WS.Rows(m, WS.Lo(F.InRows(c), m))
    && (forall t :: m < t < c.n ==> w.c1.pc[t] == WS.Test(t))
    && (forall t :: 0 <= t < m && w.stage[t] > F.IN_PROJ ==> w.c1.pc[t].Done?)
  }

  lemma HalfWrittenStep(c: F.Config, w: F.State, m: nat, t: nat)
    requires F.Shape(c, w) && t < m < c.n && HalfWritten(c, w, m) && w.stage[t] == F.IN_PROJ && R.ClaimsHold(c, w)
    ensures HalfWritten(c, F.PhaseStep(c, w, t), m)
  {
    F.StepRuns(F.InRows(c), w.c1, t);
    if WS.Computes(F.InRows(c), w.c1, t) {
      WS.NoRowRace(F.InRows(c), w.c1, t, t);
      F.FinalRow(c, w.c1.pc[t].row);
    }
  }

  /** Thread `m` is about to compute row `x`; the threads below it are in in_proj, at the first barrier or past it. */
  ghost predicate Pending(c: F.Config, d: B.Config, s: State, m: nat, x: nat) {
    && Shape(c, d, s) && m < c.n && x < c.l.p.ProjDim() && R.ClaimsHold(c, s.work)
    && WS.Computes(F.InRows(c), s.work.c1, m) && s.work.c1.pc[m].row == x
    && s.work.mem.proj[x] == c.mem.proj[x] && HalfWritten(c, s.work, m)
    && (forall t :: 0 <= t < c.n ==> s.work.stage[t] <= if t < m then 2 else 0)
    && (forall t :: 0 <= t < c.n ==> s.work.idx[t] == F.Lo(c, t))
  }

  lemma PendingRow(c: F.Config, d: B.Config, m: nat)
    requires c.Valid() && d.WellFormed() && c.n == d.n && !c.steal && m < c.n && m < c.l.p.ProjDim()
    ensures var s := Step(c, d, Init(c, d), m);
            Pending(c, d, s, m, WS.Lo(F.InRows(c), m)) && s.bar == B.Init(d)
  {
    HasWork(m, c.n, c.l.p.ProjDim());
    WorkRange.Within(m, c.n, c.l.p.ProjDim());
    WS.InitInv(F.InRows(c));
    WS.InitInv(F.OutRows(c));
    WS.StepInv(F.InRows(c), WS.Init(F.InRows(c)), m);
  }

  lemma PendingStays(c: F.Config, d: B.Config, s: State, m: nat, x: nat, t: nat)
    requires Pending(c, d, s, m, x) && t < m && s.work.stage[t] == F.IN_PROJ
    ensures Pending(c, d, Step(c, d, s, t), m, x) && Step(c, d, s, t).bar == s.bar
  {
    WS.NoRowRace(F.InRows(c), s.work.c1, m, t);
    WS.StepInv(F.InRows(c), s.work.c1, t);
    F.StepRuns(F.InRows(c), s.work.c1, t);
    HalfWrittenStep(c, s.work, m, t);
  }

  /** The threads below `m` can all be run to the first barrier. */
  lemma ToBarrier(c: F.Config, d: B.Config, s: State, m: nat, x: nat) returns (sched: seq<nat>)
    requires Pending(c, d, s, m, x) && forall t :: 0 <= t < m ==> s.work.stage[t] <= 1
    ensures R.Schedule(c, sched)
    ensures var r := Run(c, d, s, sched);
            Pending(c, d, r, m, x) && r.bar == s.bar && forall t :: 0 <= t < m ==> r.work.stage[t] == 1
    decreases R.Left(c, s.work).stage, R.Left(c, s.work).claims, R.Left(c, s.work).steps
  {
    sched := [];
    if t: nat :| t < m && s.work.stage[t] == F.IN_PROJ {
      R.PhaseStepLeft(c, s.work, t);
      PendingStays(c, d, s, m, x, t);
      var rest := ToBarrier(c, d, Step(c, d, s, t), m, x);
      sched := [t] + rest;
      RunCons(c, d, s, t, rest);
    }
  }

  /** `s` is the dispatch whose barrier is the smaller pool's barrier `a`; nobody is past its first wait by more than the scan's start. */
  ghost predicate InFirstWait(c: F.Config, e: B.Config, d: B.Config, s: State, a: B.State, x: nat) {
    && P.Extends(e, d) && P.Embeds(e, d, a, s.bar) && Pending(c, d, s, e.n, x)
    && forall t :: 0 <= t < e.n ==> a.done[t] <= 1 && s.work.stage[t] == 1 + a.done[t]
  }

  lemma WaitStays(c: F.Config, e: B.Config, d: B.Config, s: State, a: B.State, x: nat, t: nat)
    requires InFirstWait(c, e, d, s, a, x) && t < e.n && a.done[t] == 0
    ensures InFirstWait(c, e, d, Step(c, d, s, t), B.Step(e, a, t), x)
  {
    P.StepEmbeds(e, d, a, s.bar, t);
    WaitStep(d, s.bar, t);
    WaitStep(e, a, t);
    assert s.bar.done[t] == s.bar.done[..e.n][t] && B.Step(d, s.bar, t).done[t] == B.Step(d, s.bar, t).done[..e.n][t];
  }

  /** A schedule of the smaller pool's first wait is one of the dispatch. */
  lemma {:induction false} Replay(c: F.Config, e: B.Config, d: B.Config, s: State, a: B.State, x: nat, sched: seq<nat>)
    requires InFirstWait(c, e, d, s, a, x) && B.Schedule(e, sched) && P.Early(e, a, sched, 1)
    ensures R.Schedule(c, sched) && InFirstWait(c, e, d, Run(c, d, s, sched), B.Run(e, a, sched), x)
    decreases |sched|
  {
    if sched != [] {
      var t := sched[0];
      WaitStays(c, e, d, s, a, x, t);
      Replay(c, e, d, Step(c, d, s, t), B.Step(e, a, t), x, sched[1..]);
    }
  }

  /** The scan of thread 0 starts although a row has not been computed. */
  ghost predicate ScansUnwritten(c: F.Config, s: State, m: nat, x: nat)
    requires F.Shape(c, s.work)
  {
    && 0 < m < c.n && x < |s.work.c1.runs|
    && R.WorkOf(c, s.work, 0) == R.Channel(0) && R.WorkOf(c, s.work, m) == R.InRow(x)
    && s.work.c1.runs[x] == 0 && s.work.mem.proj[x] == c.mem.proj[x]
    && WS.Inv(F.InRows(c), s.work.c1) && HalfWritten(c, s.work, m)
    && (forall t :: 0 <= t < m ==> s.work.stage[t] > F.IN_PROJ) && (forall t :: 0 <= t < c.n ==> s.work.idx[t] == F.Lo(c, t))
  }

  lemma PastWait(c: F.Config, e: B.Config, d: B.Config, s: State, a: B.State, x: nat)
    requires InFirstWait(c, e, d, s, a, x) && e.n > 0 && a.done[0] >= 1 && c.l.p.dInner > 0
    ensures ScansUnwritten(c, s, e.n, x)
  {
    HasWork(0, c.n, c.l.p.dInner);
    WorkRange.Adjacent(0, c.n, c.l.p.dInner);
    WorkRange.Within(0, c.n, c.l.p.dInner);
    WS.NoRowRace(F.InRows(c), s.work.c1, e.n, e.n);
  }

  /**
   * With several nodes and a thread that has no CPU but has a row of in_proj: on some schedule the
   * others leave the first barrier without it, and thread 0 scans a projection that lacks its row.
   */
  lemma Unprovided(c: F.Config, caps: seq<nat>) returns (sched: seq<nat>, x: nat)
    requires OnMachine(c, caps) && !Provided(caps, c.n) && !c.steal && c.l.p.dInner > 0 && TotalCpus(caps) < c.l.p.ProjDim()
    ensures R.Schedule(c, sched) && ScansUnwritten(c, Reach(c, caps, sched), TotalCpus(caps), x)
  {
    var m, d := TotalCpus(caps), Bar(c, caps);
    P.PoolExtends(caps, c.n);
    var rest: seq<nat>;
    PendingRow(c, d, m);
    rest, x := WithoutOne(c, P.PoolConfig(caps, m), d);
    sched := [m] + rest;
    RunCons(c, d, Init(c, d), m, rest);
  }

  lemma WithoutOne(c: F.Config, e: B.Config, d: B.Config) returns (sched: seq<nat>, x: nat)
    requires c.Valid() && B.Exact(e) && P.Extends(e, d) && d.n == c.n && c.l.p.dInner > 0
    requires Pending(c, d, Step(c, d, Init(c, d), e.n), e.n, WS.Lo(F.InRows(c), e.n))
    requires Step(c, d, Init(c, d), e.n).bar == B.Init(d)
    ensures R.Schedule(c, sched) && ScansUnwritten(c, Run(c, d, Step(c, d, Init(c, d), e.n), sched), e.n, x)
  {
    var s := Step(c, d, Init(c, d), e.n);
    x := WS.Lo(F.InRows(c), e.n);
    var toBarrier := ToBarrier(c, d, s, e.n, x);
    var wait := FirstWait(c, e, d, Run(c, d, s, toBarrier), x);
    sched := toBarrier + wait;
    RunConcat(c, d, s, toBarrier, wait);
  }

  lemma FirstWait(c: F.Config, e: B.Config, d: B.Config, s: State, x: nat) returns (sched: seq<nat>)
    requires B.Exact(e) && P.Extends(e, d) && Pending(c, d, s, e.n, x) && s.bar == B.Init(d) && c.l.p.dInner > 0
    requires forall t :: 0 <= t < e.n ==> s.work.stage[t] == 1
    ensures R.Schedule(c, sched) && ScansUnwritten(c, Run(c, d, s, sched), e.n, x)
  {
    var a := B.Init(e);
    B.InitInv(e);
    sched := P.CanFinish(e, a, 1);
    assert P.Embeds(e, d, a, s.bar);
    Replay(c, e, d, s, a, x, sched);
    PastWait(c, e, d, Run(c, d, s, sched), B.Run(e, a, sched), x);
  }

  /**
   * A fused step with a row for every thread is free of data races on every run exactly when the
   * machine has a CPU for every thread or a single node. (Stealing is off with several nodes.)
   */
  lemma RaceFreeIff(c: F.Config, caps: seq<nat>)
    requires OnMachine(c, caps) && (c.steal ==> |caps| == 1) && c.l.p.dInner > 0 && c.n <= c.l.p.ProjDim()
    ensures (forall sched :: R.Schedule(c, sched) ==> RaceFree(c, Reach(c, caps, sched))) <==> Provided(caps, c.n)
  {
    if Provided(caps, c.n) {
      forall sched | R.Schedule(c, sched) ensures RaceFree(c, Reach(c, caps, sched)) { NoRace(c, caps, sched); }
    } else {
      var sched, x := Unprovided(c, caps);
      var s := Reach(c, caps, sched);
      assert R.Writes(c, R.WorkOf(c, s.work, TotalCpus(caps)), R.Proj(x)) && R.Reads(c, R.WorkOf(c, s.work, 0), R.Proj(x));
    }
  }
}
