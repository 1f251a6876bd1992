/**
 * One call of the pool with the fused layer step as its function: pool, barrier and shared memory in one
 * state. A thread inside the function takes the steps of the dispatch; everybody else those of the pool.
 */
module ForkJoinTask {
  import J = ForkJoin
  import Q = ForkJoinProgress
  import Fair = ForkJoinFair
  import D = FusedDispatch
  import M = FusedMachine
  import F = FusedBlock
  import R = FusedBlockRuns
  import B = Barrier
  import P = BarrierProgress

  /** The pool, the layer step and the barrier of the call. */
  datatype Config = Config(pool: J.Config, c: F.Config, d: B.Config)

  datatype State = State(pool: J.State, task: D.State)

  predicate Shape(k: Config, s: State) {
    J.Shape(k.pool, s.pool) && D.Shape(k.c, k.d, s.task) && 2 <= k.c.n <= k.pool.n
  }

  /** Thread `tid` has returned from the function. */
  predicate Returned(k: Config, s: State, tid: nat)
    requires Shape(k, s) && tid < k.c.n
  {
    s.task.work.stage[tid] >= F.RETURNED
  }

  /** The action of thread `tid`. */
  function ActOf(tid: nat): J.Act { if tid == 0 then J.Main else J.Work(tid - 1) }

  predicate Inside(s: State, tid: nat)
    requires tid <= |s.pool.workers|
  {
    if tid == 0 then s.pool.main.RunMain? else s.pool.workers[tid - 1].pc.Running?
  }

  /** Thread `tid` is executing the function. */
  predicate Busy(k: Config, s: State, tid: nat)
    requires Shape(k, s)
  {
    tid < k.c.n && Inside(s, tid) && !Returned(k, s, tid)
  }

  function Step(k: Config, s: State, tid: nat): (r: State)
    requires Shape(k, s)
    ensures Shape(k, r)
  {
    if Busy(k, s, tid) then s.(task := D.Step(k.c, k.d, s.task, tid))
    else s.(pool := J.Step(k.pool, s.pool, ActOf(tid)))
  }

  function Run(k: Config, s: State, sched: seq<nat>): (r: State)
    requires Shape(k, s)
    ensures Shape(k, r)
    decreases |sched|
  {
    if sched == [] then s else Run(k, Step(k, s, sched[0]), sched[1..])
  }

  // ---------------------------------------------------------------- the invariant

  predicate InCall(k: Config, m: J.MainPC) {
    (m.PubFn? || m.PubArg? || m.PubN? || m.Bump? || J.Dispatching(m)) && m.call.eff == k.c.n
  }

  /** A worker that is done with the call has returned from the function. */
  ghost predicate Linked(k: Config, s: State, i: nat)
    requires Shape(k, s) && i < k.c.n - 1
  {
    var w := s.pool.workers[i];
    J.Dispatching(s.pool.main) && (w.pc.Finish? || w.lastDone == s.pool.curGen) ==> Returned(k, s, i + 1)
  }

  ghost predicate Inv(k: Config, s: State) {
    && Shape(k, s) && Q.FullInv(k.pool, s.pool) && B.Exact(k.d) && D.Inv(k.c, k.d, s.task)
    && (forall i :: 0 <= i < k.c.n - 1 ==> Linked(k, s, i))
    && (s.pool.main.Collect? ==> Returned(k, s, 0))
    && (InCall(k, s.pool.main) || (s.pool.main.Idle? && R.AllReturned(k.c, s.task.work)))
  }

  /** A dispatch step returns nobody's return. */
  lemma TaskReturns(k: Config, s: State, tid: nat, u: nat)
    requires Shape(k, s) && tid < k.c.n && u < k.c.n && Returned(k, s, u)
    ensures Returned(k, s.(task := D.Step(k.c, k.d, s.task, tid)), u)
  { }

  lemma BusyInv(k: Config, s: State, tid: nat)
    requires Inv(k, s) && Busy(k, s, tid)
    ensures Inv(k, Step(k, s, tid))
  {
    var r := Step(k, s, tid);
    D.StepInv(k.c, k.d, s.task, tid);
    forall u: nat | u < k.c.n && Returned(k, s, u) ensures Returned(k, r, u) { TaskReturns(k, s, tid, u); }
    forall i | 0 <= i < k.c.n - 1 ensures Linked(k, r, i) { assert Linked(k, s, i); }
  }

  /** A worker finishes only out of the function, and is done only after finishing. */
  lemma WorkerServes(p: J.Config, s: J.State, j: nat)
    requires J.Shape(p, s) && j < |s.workers|
    ensures J.Shape(p, J.WorkerStep(p, s, j))
    ensures var w, v := s.workers[j], J.WorkerStep(p, s, j).workers[j];
            (v.pc.Finish? ==> w.pc.Running?) && (v.lastDone != w.lastDone ==> w.pc.Finish?)
  { }

  lemma WorkLinks(k: Config, s: State, j: nat, i: nat)
    requires Shape(k, s) && j < |s.pool.workers| && !Busy(k, s, j + 1) && i < k.c.n - 1 && Linked(k, s, i)
    requires J.Shape(k.pool, J.WorkerStep(k.pool, s.pool, j))
    ensures Linked(k, s.(pool := J.WorkerStep(k.pool, s.pool, j)), i)
  {
    J.WorkerFrame(k.pool, s.pool, j);
    if i == j { WorkerServes(k.pool, s.pool, j); }
  }

  lemma PublishFrame(p: J.Config, s: J.State)
    requires J.Shape(p, s) && !s.main.Bump?
    ensures var r := J.PublishStep(p, s); r.workers == s.workers && !(J.Settled(s.main) && J.Dispatching(r.main))
  { }

  lemma DispatchFrame(p: J.Config, s: J.State, i: nat)
    requires J.Shape(p, s) && i < |s.workers|
    ensures var r := J.DispatchStep(p, s);
      && |r.workers| == |s.workers| && r.workers[i].lastDone == s.workers[i].lastDone
      && (r.workers[i].pc.Finish? ==> s.workers[i].pc.Finish?) && r.curGen == s.curGen
  { }

  lemma CloseFrame(p: J.Config, s: J.State)
    requires J.Shape(p, s) && J.Closing(s.main)
    ensures !J.Dispatching(J.CloseStep(p, s).main)
  { }

  /** Within a dispatch main neither finishes a worker nor marks one as done, and keeps the generation. */
  lemma MainFrame(p: J.Config, s: J.State, i: nat)
    requires J.Shape(p, s) && i < |s.workers| && !s.main.Bump? && J.Dispatching(J.MainStep(p, s).main)
    ensures var r := J.MainStep(p, s);
      && J.Dispatching(s.main) && r.curGen == s.curGen
      && |r.workers| == |s.workers| && r.workers[i].lastDone == s.workers[i].lastDone
      && (r.workers[i].pc.Finish? ==> s.workers[i].pc.Finish?)
  {
    if J.Settled(s.main) { PublishFrame(p, s); }
    else if J.Dispatching(s.main) { DispatchFrame(p, s, i); }
    else { CloseFrame(p, s); }
  }

  lemma NewCall(p: J.Config, s: J.State, i: nat)
    requires J.Inv(p, s) && i < |s.workers| && s.main.Bump?
    ensures var r := J.MainStep(p, s);
            |r.workers| == |s.workers| && !r.workers[i].pc.Finish? && r.workers[i].lastDone != r.curGen
  {
    assert J.WorkerInv(p, s, i);
  }

  lemma MainLinks(k: Config, s: State, i: nat)
    requires Shape(k, s) && J.Inv(k.pool, s.pool) && !Busy(k, s, 0) && i < k.c.n - 1 && Linked(k, s, i)
    ensures Linked(k, Step(k, s, 0), i)
  {
    if s.pool.main.Bump? { NewCall(k.pool, s.pool, i); } else if J.Dispatching(J.MainStep(k.pool, s.pool).main) { MainFrame(k.pool, s.pool, i); }
  }

  /** When main has collected everybody, everybody has returned. */
  lemma CollectEnds(k: Config, s: State)
    requires Inv(k, s) && s.pool.main.Collect? && J.MainStep(k.pool, s.pool).main.Idle?
    ensures R.AllReturned(k.c, s.task.work)
  {
    assert InCall(k, s.pool.main) && s.pool.main.i >= k.c.n - 1;
    forall tid | 0 <= tid < k.c.n ensures s.task.work.stage[tid] >= F.RETURNED {
      if tid > 0 { assert J.WorkerInv(k.pool, s.pool, tid - 1) && Linked(k, s, tid - 1); }
      assert Returned(k, s, tid);
    }
  }

  lemma MainInCall(k: Config, s: State)
    requires Shape(k, s) && J.MainInv(k.pool, s.pool) && !Busy(k, s, 0) && InCall(k, s.pool.main)
    requires s.pool.main.Collect? ==> Returned(k, s, 0)
    ensures var m := J.MainStep(k.pool, s.pool).main;
            (InCall(k, m) || (s.pool.main.Collect? && m.Idle?)) && (m.Collect? ==> Returned(k, s, 0))
  { }

  lemma MainInv(k: Config, s: State)
    requires Inv(k, s) && !Busy(k, s, 0)
    ensures Inv(k, Step(k, s, 0))
  {
    Q.StepFullInv(k.pool, s.pool, J.Main);
    if InCall(k, s.pool.main) {
      MainInCall(k, s);
      if s.pool.main.Collect? && J.MainStep(k.pool, s.pool).main.Idle? { CollectEnds(k, s); }
      var r := Step(k, s, 0);
      forall i | 0 <= i < k.c.n - 1 ensures Linked(k, r, i) {
        assert Linked(k, s, i);
        MainLinks(k, s, i);
      }
    }
  }

  /** While main stands still, only the links can be lost. */
  lemma KeptInv(k: Config, s: State, r: State)
    requires Inv(k, s) && r.task == s.task && Q.FullInv(k.pool, r.pool) && r.pool.main == s.pool.main
    requires J.Dispatching(s.pool.main) ==> forall i :: 0 <= i < k.c.n - 1 ==> Linked(k, r, i)
    ensures Inv(k, r)
  { }

  lemma WorkerKept(p: J.Config, s: J.State, j: nat)
    requires Q.FullInv(p, s) && j < |s.workers|
    ensures Q.FullInv(p, J.WorkerStep(p, s, j)) && J.WorkerStep(p, s, j).main == s.main
  {
    J.WorkerFrame(p, s, j);
    Q.StepFullInv(p, s, J.Work(j));
  }

  /** A worker outside the function takes its step in the pool. */
  lemma OutsideStep(k: Config, s: State, j: nat)
    requires Shape(k, s) && j < |s.pool.workers| && !Busy(k, s, j + 1)
    ensures Step(k, s, j + 1).task == s.task && Step(k, s, j + 1).pool == J.WorkerStep(k.pool, s.pool, j)
  { }

  lemma WorkInv(k: Config, s: State, j: nat, r: State)
    requires Inv(k, s) && j < |s.pool.workers| && !Busy(k, s, j + 1)
    requires r.task == s.task && r.pool == J.WorkerStep(k.pool, s.pool, j)
    ensures Inv(k, r)
  {
    WorkerKept(k.pool, s.pool, j);
    if J.Dispatching(s.pool.main) {
      forall i | 0 <= i < k.c.n - 1 ensures Linked(k, r, i) {
        assert Linked(k, s, i);
        WorkLinks(k, s, j, i);
      }
    }
    KeptInv(k, s, r);
  }

  lemma OutsideInv(k: Config, s: State, j: nat)
    requires Inv(k, s) && j < |s.pool.workers| && !Busy(k, s, j + 1)
    ensures Inv(k, Step(k, s, j + 1))
  {
    OutsideStep(k, s, j);
    WorkInv(k, s, j, Step(k, s, j + 1));
  }

  /** A worker the pool does not have does nothing. */
  lemma AbsentInv(k: Config, s: State, tid: nat)
    requires Inv(k, s) && tid > |s.pool.workers|
    ensures Inv(k, Step(k, s, tid))
  {
    assert Step(k, s, tid) == s;
  }

  lemma StepInv(k: Config, s: State, tid: nat)
    requires Inv(k, s)
    ensures Inv(k, Step(k, s, tid))
  {
    if tid > |s.pool.workers| { AbsentInv(k, s, tid); }
    else if Busy(k, s, tid) { BusyInv(k, s, tid); }
    else if tid == 0 { MainInv(k, s); }
    else { OutsideInv(k, s, tid - 1); }
  }

  // ---------------------------------------------------------------- progress

  /** Nearer the end: by a step of the pool, or by a step of the function. */
  ghost predicate Lower(k: Config, r: State, s: State)
    requires Shape(k, r) && Shape(k, s)
  {
    Fair.Potential(k.pool, r.pool) < Fair.Potential(k.pool, s.pool)
    || (Fair.Potential(k.pool, r.pool) == Fair.Potential(k.pool, s.pool) && M.Nearer(k.c, k.d, r.task, s.task))
  }

  /** Nothing but spinning has happened. */
  ghost predicate Idles(k: Config, s: State, r: State)
    requires Shape(k, r) && Shape(k, s)
  {
    Fair.Potential(k.pool, r.pool) == Fair.Potential(k.pool, s.pool) && Fair.Stalls(s.pool, r.pool) && r.task == s.task
  }

  lemma StallsSame(p: J.State)
    ensures Fair.Stalls(p, p)
  { }

  lemma StepLower(k: Config, s: State, tid: nat)
    requires Inv(k, s)
    ensures Lower(k, Step(k, s, tid), s) || Idles(k, s, Step(k, s, tid))
  {
    if Busy(k, s, tid) {
      M.StepNearer(k.c, k.d, s.task, tid);
      StallsSame(s.pool);
    } else {
      Fair.StepNearer(k.pool, s.pool, ActOf(tid));
    }
  }

  /** The step of `t` is certain to help: in the function, or on its way into it or out of it. */
  ghost predicate Helpful(k: Config, s: State, t: nat)
    requires Shape(k, s)
  {
    && t <= |s.pool.workers|
    && if Busy(k, s, t) then D.Step(k.c, k.d, s.task, t) != s.task
       else ActOf(t) == Fair.Helper(k.pool, s.pool)
            || (t > 0 && !J.MainHolds(s.pool.main, t - 1) && Q.OnItsWay(s.pool.workers[t - 1]))
  }

  lemma MainHelps(k: Config, s: State)
    requires Shape(k, s) && (s.pool.main.RunMain? || (s.pool.main.Collect? && Returned(k, s, 0)))
    requires !Returned(k, s, 0) && D.Step(k.c, k.d, s.task, 0) != s.task
    ensures Helpful(k, s, 0)
  { }

  lemma WorkerHelps(k: Config, s: State, i: nat)
    requires Shape(k, s) && J.Inv(k.pool, s.pool) && i < k.c.n - 1 && Q.SleepInv(k.pool, s.pool, i) && Linked(k, s, i)
    requires InCall(k, s.pool.main) && (s.pool.main.RunMain? || s.pool.main.Collect?)
    requires !Returned(k, s, i + 1) && D.Step(k.c, k.d, s.task, i + 1) != s.task
    ensures Helpful(k, s, i + 1)
  {
    if !s.pool.workers[i].pc.Running? { Entering(k, s, i); }
  }

  /** Whoever has a step left in the function helps: by taking it, or by coming to it. */
  lemma LeftHelps(k: Config, s: State, t: nat)
    requires Inv(k, s) && InCall(k, s.pool.main) && (s.pool.main.RunMain? || s.pool.main.Collect?)
    requires t < k.c.n && D.Step(k.c, k.d, s.task, t) != s.task
    ensures Helpful(k, s, t)
  {
    NotReturned(k, s, t);
    if t == 0 {
      MainHelps(k, s);
    } else {
      assert Q.SleepInv(k.pool, s.pool, t - 1) && Linked(k, s, t - 1);
      WorkerHelps(k, s, t - 1);
    }
  }

  /** A thread with a step left in the function has not returned from it. */
  lemma NotReturned(k: Config, s: State, t: nat)
    requires Inv(k, s) && t < k.c.n && D.Step(k.c, k.d, s.task, t) != s.task
    ensures !Returned(k, s, t)
  {
    assert D.ThreadLink(k.c, k.d, s.task, t);
  }

  /** If the thread main waits for is inside the function, main has signalled everybody. */
  lemma PastSignals(k: Config, s: State, h: nat)
    requires Shape(k, s) && J.Inv(k.pool, s.pool) && InCall(k, s.pool.main) && Busy(k, s, h)
    requires ActOf(h) == Fair.Helper(k.pool, s.pool)
    ensures s.pool.main.RunMain? || s.pool.main.Collect?
  {
    if h > 0 { assert J.WorkerInv(k.pool, s.pool, h - 1); }
  }

  /** Then a worker that is neither inside nor done is on its way in. */
  lemma Entering(k: Config, s: State, i: nat)
    requires Shape(k, s) && J.Inv(k.pool, s.pool) && i < k.c.n - 1 && Q.SleepInv(k.pool, s.pool, i) && Linked(k, s, i)
    requires InCall(k, s.pool.main) && (s.pool.main.RunMain? || s.pool.main.Collect?)
    requires !Returned(k, s, i + 1) && !s.pool.workers[i].pc.Running?
    ensures !J.MainHolds(s.pool.main, i) && Q.OnItsWay(s.pool.workers[i])
  {
    assert J.WorkerInv(k.pool, s.pool, i);
  }

  lemma SomeHelper(k: Config, s: State) returns (t: nat)
    requires Inv(k, s) && InCall(k, s.pool.main)
    ensures Helpful(k, s, t)
  {
    t := 0;
    if J.MainStep(k.pool, s.pool).main == s.pool.main {
      Q.BlockedOn(k.pool, s.pool);
      t := Q.Awaited(s.pool) + 1;
    }
    if Busy(k, s, t) {
      PastSignals(k, s, t);
      t := M.CanAdvance(k.c, k.d, s.task);
      LeftHelps(k, s, t);
    }
  }

  /** Spinning of others changes nothing about who is inside the function. */
  lemma SameBusy(k: Config, s: State, r: State, t: nat)
    requires Shape(k, s) && Shape(k, r) && Idles(k, s, r) && t <= |s.pool.workers|
    ensures Busy(k, r, t) == Busy(k, s, t)
  {
    if t > 0 { assert Fair.SameBut(s.pool.workers[t - 1], r.pool.workers[t - 1]); }
  }

  /** A step of the function that is not spinning. */
  lemma InsideHelps(k: Config, r: State, t: nat)
    requires Shape(k, r) && D.Inv(k.c, k.d, r.task) && Busy(k, r, t) && D.Step(k.c, k.d, r.task, t) != r.task
    ensures Lower(k, Step(k, r, t), r)
  {
    M.StepNearer(k.c, k.d, r.task, t);
  }

  /** A step of the pool that lowers its potential. */
  lemma OutsideHelps(k: Config, r: State, t: nat)
    requires Shape(k, r) && !Busy(k, r, t)
    requires Fair.Potential(k.pool, J.Step(k.pool, r.pool, ActOf(t))) < Fair.Potential(k.pool, r.pool)
    ensures Lower(k, Step(k, r, t), r)
  { }

  lemma PoolHelps(p: J.Config, s: J.State, r: J.State, t: nat)
    requires Q.FullInv(p, s) && Q.FullInv(p, r) && Fair.Settling(s) && Fair.Stalls(s, r) && t <= |s.workers|
    requires ActOf(t) == Fair.Helper(p, s) || (t > 0 && !J.MainHolds(s.main, t - 1) && Q.OnItsWay(s.workers[t - 1]))
    ensures Fair.Potential(p, J.Step(p, r, ActOf(t))) < Fair.Potential(p, r)
  {
    if ActOf(t) == Fair.Helper(p, s) { Fair.HelperHelps(p, s, r); }
    else { Fair.ComingHelps(p, s, r, t - 1); }
  }

  lemma HelpsAfter(k: Config, s: State, r: State, t: nat)
    requires Inv(k, s) && Inv(k, r) && InCall(k, s.pool.main) && Idles(k, s, r) && Helpful(k, s, t)
    ensures Lower(k, Step(k, r, t), r)
  {
    SameBusy(k, s, r, t);
    if Busy(k, s, t) {
      InsideHelps(k, r, t);
    } else {
      PoolHelps(k.pool, s.pool, r.pool, t);
      OutsideHelps(k, r, t);
    }
  }

  lemma LowerOn(k: Config, q: State, r: State, s: State)
    requires Shape(k, q) && Shape(k, r) && Shape(k, s)
    requires (Lower(k, q, r) || Idles(k, r, q)) && (Lower(k, r, s) || Idles(k, s, r))
    ensures Lower(k, q, s) || (Idles(k, r, q) && Idles(k, s, r) && Idles(k, s, q))
  {
    if Idles(k, r, q) && Idles(k, s, r) { Fair.StallsOn(s.pool, r.pool, q.pool); }
  }

  lemma {:induction false} RunLower(k: Config, s: State, sched: seq<nat>)
    requires Inv(k, s)
    ensures Inv(k, Run(k, s, sched))
    ensures Lower(k, Run(k, s, sched), s) || Idles(k, s, Run(k, s, sched))
    decreases |sched|
  {
    if sched == [] {
      StallsSame(s.pool);
    } else {
      var r := Step(k, s, sched[0]);
      StepInv(k, s, sched[0]);
      StepLower(k, s, sched[0]);
      RunLower(k, r, sched[1..]);
      LowerOn(k, Run(k, r, sched[1..]), r, s);
    }
  }

  // ---------------------------------------------------------------- all fair schedules

  /** Every thread of the pool takes a step in it. */
  ghost predicate FairRound(k: Config, round: seq<nat>) { forall t :: 0 <= t < k.pool.n ==> t in round }

  lemma Stepped(k: Config, s: State, r: State, t: nat)
    requires Inv(k, s) && Inv(k, r) && InCall(k, s.pool.main) && Helpful(k, s, t) && (Lower(k, r, s) || Idles(k, s, r))
    ensures Inv(k, Step(k, r, t)) && Lower(k, Step(k, r, t), s)
  {
    StepInv(k, r, t);
    StepLower(k, r, t);
    if Idles(k, s, r) { HelpsAfter(k, s, r, t); }
    LowerOn(k, Step(k, r, t), r, s);
  }

  /** Once `t` has had its turn the call is nearer its end than it was at `s`, whatever the others do. */
  lemma {:induction false} TurnHelps(k: Config, s: State, r: State, sched: seq<nat>, t: nat)
    requires Inv(k, s) && InCall(k, s.pool.main) && Helpful(k, s, t) && t in sched
    requires Inv(k, r) && (Lower(k, r, s) || Idles(k, s, r))
    ensures Inv(k, Run(k, r, sched)) && Lower(k, Run(k, r, sched), s)
    decreases |sched|
  {
    var q := Step(k, r, sched[0]);
    if sched[0] == t {
      Stepped(k, s, r, t);
      RunLower(k, q, sched[1..]);
      LowerOn(k, Run(k, q, sched[1..]), q, s);
    } else {
      StepInv(k, r, sched[0]);
      StepLower(k, r, sched[0]);
      LowerOn(k, q, r, s);
      TurnHelps(k, s, q, sched[1..], t);
    }
  }

  lemma RoundLower(k: Config, s: State, round: seq<nat>)
    requires Inv(k, s) && InCall(k, s.pool.main) && FairRound(k, round)
    ensures Inv(k, Run(k, s, round)) && Lower(k, Run(k, s, round), s)
  {
    var t := SomeHelper(k, s);
    StallsSame(s.pool);
    TurnHelps(k, s, s, round, t);
  }

  /** The rounds from the `i`-th up to the `j`-th. */
  function RunRounds(k: Config, s: State, rounds: nat -> seq<nat>, i: nat, j: nat): (r: State)
    requires Shape(k, s)
    ensures Shape(k, r)
    decreases j - i
  {
    if i >= j then s else RunRounds(k, Run(k, s, rounds(i)), rounds, i + 1, j)
  }

  /** How far a call is from its end, the weightier parts first. */
  datatype Rank = Rank(potential: nat, left: R.Measure, spins: nat)

  function RankOf(k: Config, s: State): Rank
    requires Shape(k, s)
  {
    Rank(Fair.Potential(k.pool, s.pool), R.Left(k.c, s.task.work), P.Work(k.d, s.task.bar, 3, k.c.n))
  }

  ghost predicate Ahead(a: Rank, b: Rank) {
    a.potential < b.potential
    || (a.potential == b.potential && (R.Below(a.left, b.left) || (a.left == b.left && a.spins < b.spins)))
  }

  lemma LowerRanks(k: Config, r: State, s: State)
    requires Shape(k, r) && Shape(k, s) && Lower(k, r, s)
    ensures Ahead(RankOf(k, r), RankOf(k, s))
  { }

  lemma NextRound(k: Config, s: State, round: seq<nat>)
    requires Inv(k, s) && !s.pool.main.Idle? && FairRound(k, round)
    ensures Inv(k, Run(k, s, round)) && Ahead(RankOf(k, Run(k, s, round)), RankOf(k, s))
  {
    RoundLower(k, s, round);
    LowerRanks(k, Run(k, s, round), s);
  }

  lemma CallEnds(k: Config, s: State, rounds: nat -> seq<nat>, i: nat, rank: Rank) returns (j: nat)
    requires Inv(k, s) && rank == RankOf(k, s) && forall x :: FairRound(k, rounds(x))
    ensures j >= i && Inv(k, RunRounds(k, s, rounds, i, j)) && RunRounds(k, s, rounds, i, j).pool.main.Idle?
    decreases rank.potential, rank.left.stage, rank.left.claims, rank.left.steps, rank.spins
  {
    if s.pool.main.Idle? {
      j := i;
    } else {
      var r := Run(k, s, rounds(i));
      NextRound(k, s, rounds(i));
      j := CallEnds(k, r, rounds, i + 1, RankOf(k, r));
    }
  }

  /** The pool on this machine, about to publish a call of the fused worker with `c.n` tasks. */
  ghost function Started(pool: J.Config, caps: seq<nat>, c: F.Config, q: J.State, fn: int,
                         arg: int): (r: (Config, State))
    requires M.OnMachine(c, caps) && 2 <= c.n <= pool.n && J.Shape(pool, q)
    ensures Shape(r.0, r.1)
  {
    (Config(pool, c, M.Bar(c, caps)), State(J.Step(pool, q, J.Begin(c.n, fn, arg)), D.Init(c, M.Bar(c, caps))))
  }

  lemma StartedInv(pool: J.Config, caps: seq<nat>, c: F.Config, q: J.State, fn: int, arg: int)
    requires M.OnMachine(c, caps) && M.Provided(caps, c.n) && 2 <= c.n <= pool.n && Q.FullInv(pool, q) && q.main.Idle?
    ensures var s := Started(pool, caps, c, q, fn, arg); Inv(s.0, s.1)
  {
    P.PoolExact(caps, c.n);
    D.InitInv(c, M.Bar(c, caps));
    Q.StepFullInv(pool, q, J.Begin(c.n, fn, arg));
  }

  lemma EndedMemory(k: Config, s: State)
    requires Inv(k, s) && s.pool.main.Idle?
    ensures s.task.work.mem == F.Sequential(k.c)
  {
    M.ReturnedMemory(k.c, k.d, s.task);
  }

  /**
   * From every idle pool, on one node or with a CPU for every thread: a call of the fused worker returns on
   * every infinite schedule that keeps giving every thread a step, barriers included, and then the memory is
   * that of the four phases in order.
   */
  lemma FusedCallReturns(pool: J.Config, caps: seq<nat>, c: F.Config, q: J.State, fn: int, arg: int,
                         rounds: nat -> seq<nat>) returns (j: nat)
    requires M.OnMachine(c, caps) && M.Provided(caps, c.n) && 2 <= c.n <= pool.n && Q.FullInv(pool, q) && q.main.Idle?
    requires var s := Started(pool, caps, c, q, fn, arg); forall x :: FairRound(s.0, rounds(x))
    ensures var s := Started(pool, caps, c, q, fn, arg);
            var r := RunRounds(s.0, s.1, rounds, 0, j);
            r.pool.main.Idle? && r.task.work.mem == F.Sequential(c)
  {
    var s := Started(pool, caps, c, q, fn, arg);
    StartedInv(pool, caps, c, q, fn, arg);
    j := CallEnds(s.0, s.1, rounds, 0, RankOf(s.0, s.1));
    EndedMemory(s.0, RunRounds(s.0, s.1, rounds, 0, j));
  }
}
