/**
 * Every fair schedule completes the operation main is in: no step of any thread moves it away from its
 * end, and a round in which every thread steps at least once brings it nearer.
 */
module ForkJoinFair {
  import opened ForkJoin
  import opened ForkJoinProgress

  // ---------------------------------------------------------------- the measure

  predicate Spinning(w: Worker) { w.wakeGen == w.myGen && (w.pc.Start? || w.pc.Check? || w.pc.CheckDown?) }

  /** A worker in its wait loop with nothing new: it may spin for ever, or fall asleep. */
  function IdleLoad(p: WorkerPC): nat
    requires InWait(p)
  {
    match p
    case Relock => 9
    case Unlock => 8
    case Lock => 6
    case Recheck => 5
    case RecheckDown => 4
    case Asleep => 1
    case _ => 7
  }

  /** The same after the shutdown flag is posted: it leaves at the next test. */
  function ClosingLoad(p: WorkerPC): nat
    requires InWait(p)
  {
    match p
    case Lock => 14
    case Recheck => 13
    case RecheckDown => 12
    case Asleep => 12
    case Relock => 12
    case Unlock => 11
    case Start => 9
    case Check => 8
    case CheckDown => 7
  }

  /** With a new generation, or serving one. */
  function BusyLoad(p: WorkerPC): nat {
    match p
    case CheckDown => 28
    case Lock => 27
    case Recheck => 26
    case RecheckDown => 25
    case Asleep => 24
    case Relock => 23
    case Unlock => 22
    case Start => 21
    case Check => 20
    case Load => 19
    case DownAfterWake => 18
    case Fetch => 17
    case Running(_) => 16
    case Finish => 15
    case Exited => 0
  }

  function Load(shutdown: bool, w: Worker): (l: nat)
    ensures l <= 28
  {
    if !InWait(w.pc) || w.wakeGen != w.myGen then BusyLoad(w.pc)
    else if shutdown then ClosingLoad(w.pc)
    else IdleLoad(w.pc)
  }

  function Loads(shutdown: bool, ws: seq<Worker>): (l: nat)
    ensures l <= 28 * |ws|
  {
    if ws == [] then 0 else Load(shutdown, ws[0]) + Loads(shutdown, ws[1..])
  }

  lemma {:induction false} LoadsUpdate(shutdown: bool, ws: seq<Worker>, i: nat, w: Worker)
    requires i < |ws|
    ensures Loads(shutdown, ws[i := w]) == Loads(shutdown, ws) - Load(shutdown, ws[i]) + Load(shutdown, w)
  {
    if i > 0 {
      LoadsUpdate(shutdown, ws[1..], i - 1, w);
      assert ws[i := w][1..] == ws[1..][i - 1 := w];
    } else {
      assert ws[i := w][1..] == ws[1..];
    }
  }

  predicate Settling(s: State) { !s.main.Idle? && !s.main.Gone? }

  function Potential(c: Config, s: State): nat
    requires Shape(c, s)
  {
    MainLeft(c, s.main) * (28 * c.n) + Loads(s.shutdown, s.workers)
  }

  lemma Pays(a: nat, b: nat, k: nat, x: nat, y: nat)
    requires a < b && x < k
    ensures a * k + x < b * k + y
  {
    assert (b - a - 1) * k >= 0;
    assert b * k == a * k + (b - a - 1) * k + k;
  }

  lemma MainPays(c: Config, s: State, r: State)
    requires Shape(c, s) && Shape(c, r) && MainLeft(c, r.main) < MainLeft(c, s.main)
    ensures Potential(c, r) < Potential(c, s)
  {
    Pays(MainLeft(c, r.main), MainLeft(c, s.main), 28 * c.n, Loads(r.shutdown, r.workers), Loads(s.shutdown, s.workers));
  }

  // ---------------------------------------------------------------- single steps

  /** Two workers that differ at most in how far they are with spinning. */
  predicate SameBut(w: Worker, v: Worker) {
    w == v || (Spinning(w) && Spinning(v) && w.wakeGen == v.wakeGen && w.myGen == v.myGen && w.lastDone == v.lastDone)
  }

  /** Nothing has happened but spinning. */
  ghost predicate Stalls(s: State, r: State) {
    && r.main == s.main && r.shutdown == s.shutdown && r.curGen == s.curGen && r.poll == s.poll && |r.workers| == |s.workers|
    && forall i :: 0 <= i < |s.workers| ==> SameBut(s.workers[i], r.workers[i])
  }

  ghost predicate Lighter(shutdown: bool, w: Worker, v: Worker) {
    Load(shutdown, v) < Load(shutdown, w) || (Load(shutdown, v) == Load(shutdown, w) && SameBut(w, v))
  }

  lemma WaiterLoad(c: Config, s: State, i: nat)
    requires FullInv(c, s) && i < |s.workers| && InWait(s.workers[i].pc)
    ensures Shape(c, WorkerStep(c, s, i)) && Lighter(s.shutdown, s.workers[i], WorkerStep(c, s, i).workers[i])
  {
    assert SleepInv(c, s, i);
  }

  lemma ServerLoad(c: Config, s: State, i: nat)
    requires FullInv(c, s) && i < |s.workers| && !InWait(s.workers[i].pc)
    ensures Shape(c, WorkerStep(c, s, i)) && Lighter(s.shutdown, s.workers[i], WorkerStep(c, s, i).workers[i])
  {
    assert WorkerInv(c, s, i);
  }

  /** Another worker's step lowers the potential, or is spinning. */
  lemma WorkNearer(c: Config, s: State, i: nat)
    requires FullInv(c, s) && i < |s.workers|
    ensures var r := Step(c, s, Work(i)); Potential(c, r) < Potential(c, s) || (Potential(c, r) == Potential(c, s) && Stalls(s, r))
  {
    if InWait(s.workers[i].pc) { WaiterLoad(c, s, i); } else { ServerLoad(c, s, i); }
    WorkerFrame(c, s, i);
    LoadsUpdate(s.shutdown, s.workers, i, WorkerStep(c, s, i).workers[i]);
  }

  lemma MainNearer(c: Config, s: State)
    requires FullInv(c, s)
    ensures var r := Step(c, s, Main); r == s || Potential(c, r) < Potential(c, s)
    ensures MainStep(c, s).main == s.main ==> Step(c, s, Main) == s
  {
    if MainStep(c, s).main != s.main {
      if Settled(s.main) { PublishDrops(c, s); }
      else if Dispatching(s.main) { DispatchDrops(c, s); }
      else { CloseDrops(c, s); }
      MainPays(c, s, Step(c, s, Main));
    } else {
      MainBlocked(c, s);
    }
  }

  lemma MainBlocked(c: Config, s: State)
    requires FullInv(c, s) && MainStep(c, s).main == s.main
    ensures MainStep(c, s) == s
  { }

  lemma StepNearer(c: Config, s: State, a: Act)
    requires FullInv(c, s) && (a.Main? || a.Work?)
    ensures var r := Step(c, s, a); Potential(c, r) < Potential(c, s) || (Potential(c, r) == Potential(c, s) && Stalls(s, r))
  {
    if a.Main? { MainNearer(c, s); } else if a.i < |s.workers| { WorkNearer(c, s, a.i); }
  }

  // ---------------------------------------------------------------- a round

  /** The thread whose step is certain to help: main, or the worker it waits for. */
  function Helper(c: Config, s: State): Act
    requires Shape(c, s)
  {
    if MainStep(c, s).main != s.main then Main else Work(Awaited(s))
  }

  lemma SameMain(c: Config, s: State, r: State)
    requires Shape(c, s) && Shape(c, r) && Stalls(s, r)
    ensures MainStep(c, s).main != s.main ==> MainStep(c, r).main != r.main
  {
    forall i | 0 <= i < |s.workers|
      ensures HoldsMutex(s.workers[i].pc) == HoldsMutex(r.workers[i].pc) && s.workers[i].pc.Exited? == r.workers[i].pc.Exited?
      ensures s.workers[i].lastDone == r.workers[i].lastDone
    {
      assert SameBut(s.workers[i], r.workers[i]);
    }
  }

  /** Spinning of others does not stop it from helping. */
  lemma HelperHelps(c: Config, s: State, r: State)
    requires FullInv(c, s) && FullInv(c, r) && Settling(s) && Stalls(s, r)
    ensures Potential(c, Step(c, r, Helper(c, s))) < Potential(c, r)
  {
    if MainStep(c, s).main != s.main {
      SameMain(c, s, r);
      MainNearer(c, r);
    } else {
      BlockedOn(c, s);
      ComingHelps(c, s, r, Awaited(s));
    }
  }

  /** A worker on its way helps, and goes on doing so while others spin. */
  lemma ComingHelps(c: Config, s: State, r: State, i: nat)
    requires FullInv(c, s) && FullInv(c, r) && Stalls(s, r)
    requires i < |s.workers| && !MainHolds(s.main, i) && OnItsWay(s.workers[i])
    ensures r.workers[i] == s.workers[i] && Potential(c, Step(c, r, Work(i))) < Potential(c, r)
  {
    assert SameBut(s.workers[i], r.workers[i]);
    AwaitedLoad(c, r, i);
    WorkerFrame(c, r, i);
    LoadsUpdate(r.shutdown, r.workers, i, WorkerStep(c, r, i).workers[i]);
  }

  lemma AwaitedLoad(c: Config, s: State, i: nat)
    requires FullInv(c, s) && i < |s.workers| && !MainHolds(s.main, i) && OnItsWay(s.workers[i])
    ensures Shape(c, WorkerStep(c, s, i)) && Load(s.shutdown, WorkerStep(c, s, i).workers[i]) < Load(s.shutdown, s.workers[i])
  {
    WorkerFrame(c, s, i);
    assert WorkerInv(c, s, i) && SleepInv(c, s, i);
  }

  lemma StallsOn(s: State, r: State, q: State)
    requires Stalls(s, r) && Stalls(r, q)
    ensures Stalls(s, q)
  {
    forall i | 0 <= i < |s.workers| ensures SameBut(s.workers[i], q.workers[i]) {
      assert SameBut(s.workers[i], r.workers[i]) && SameBut(r.workers[i], q.workers[i]);
    }
  }

  /** No schedule of thread steps raises the potential; one that keeps it has only spun. */
  lemma {:induction false} RunNearer(c: Config, s: State, sched: seq<Act>)
    requires FullInv(c, s) && OnlyThreads(sched)
    ensures FullInv(c, Run(c, s, sched))
    ensures var r := Run(c, s, sched); Potential(c, r) < Potential(c, s) || (Potential(c, r) == Potential(c, s) && Stalls(s, r))
    decreases |sched|
  {
    if sched == [] {
      assert Stalls(s, s);
    } else {
      var r := Step(c, s, sched[0]);
      StepFullInv(c, s, sched[0]);
      StepNearer(c, s, sched[0]);
      RunNearer(c, r, sched[1..]);
      if Stalls(s, r) && Stalls(r, Run(c, r, sched[1..])) { StallsOn(s, r, Run(c, r, sched[1..])); }
    }
  }

  /** Every thread takes a step in it. */
  ghost predicate Fair(c: Config, round: seq<Act>) {
    OnlyThreads(round) && Main in round && forall i :: 0 <= i < c.n - 1 ==> Work(i) in round
  }

  lemma HelperInRound(c: Config, s: State, round: seq<Act>)
    requires FullInv(c, s) && Settling(s) && Fair(c, round)
    ensures Helper(c, s) in round
  {
    if MainStep(c, s).main == s.main { BlockedOn(c, s); }
  }

  /** A fair round lowers the potential. */
  lemma RoundNearer(c: Config, s: State, round: seq<Act>)
    requires FullInv(c, s) && Settling(s) && Fair(c, round)
    ensures FullInv(c, Run(c, s, round)) && Potential(c, Run(c, s, round)) < Potential(c, s)
  {
    HelperInRound(c, s, round);
    var k :| 0 <= k < |round| && round[k] == Helper(c, s);
    assert round == round[..k] + ([round[k]] + round[k + 1..]);
    var r := Run(c, s, round[..k]);
    var q := Step(c, r, round[k]);
    RunNearer(c, s, round[..k]);
    StepFullInv(c, r, round[k]);
    StepNearer(c, r, round[k]);
    if Stalls(s, r) { HelperHelps(c, s, r); }
    RunNearer(c, q, round[k + 1..]);
    RunConcat(c, s, round[..k], [round[k]] + round[k + 1..]);
    assert ([round[k]] + round[k + 1..])[1..] == round[k + 1..];
  }

  // ---------------------------------------------------------------- all fair schedules

  function Flatten(rounds: seq<seq<Act>>): seq<Act> {
    if rounds == [] then [] else rounds[0] + Flatten(rounds[1..])
  }

  /**
   * However the threads are interleaved, with as many rounds as the potential says every call and the
   * shutdown have run to their end.
   */
  lemma {:induction false} FairRunsReturn(c: Config, s: State, rounds: seq<seq<Act>>)
    requires FullInv(c, s) && (forall k :: 0 <= k < |rounds| ==> Fair(c, rounds[k])) && |rounds| >= Potential(c, s)
    ensures var r := Run(c, s, Flatten(rounds)); FullInv(c, r) && !Settling(r)
    decreases |rounds|
  {
    if !Settling(s) {
      FlatThreads(c, rounds);
      StaysSettled(c, s, Flatten(rounds));
    } else {
      SettlingCosts(c, s);
      RoundNearer(c, s, rounds[0]);
      FairRunsReturn(c, Run(c, s, rounds[0]), rounds[1..]);
      RunConcat(c, s, rounds[0], Flatten(rounds[1..]));
    }
  }

  lemma SettlingCosts(c: Config, s: State)
    requires FullInv(c, s) && Settling(s)
    ensures Potential(c, s) > 0
  {
    assert MainLeft(c, s.main) > 0;
    Pays(0, MainLeft(c, s.main), 28 * c.n, 0, Loads(s.shutdown, s.workers));
  }

  lemma {:induction false} FlatThreads(c: Config, rounds: seq<seq<Act>>)
    requires forall k :: 0 <= k < |rounds| ==> Fair(c, rounds[k])
    ensures OnlyThreads(Flatten(rounds))
  {
    if rounds != [] {
      FlatThreads(c, rounds[1..]);
      assert Fair(c, rounds[0]);
    }
  }

  lemma {:induction false} StaysSettled(c: Config, s: State, sched: seq<Act>)
    requires FullInv(c, s) && !Settling(s) && OnlyThreads(sched)
    ensures FullInv(c, Run(c, s, sched)) && !Settling(Run(c, s, sched))
    decreases |sched|
  {
    if sched != [] {
      StepFullInv(c, s, sched[0]);
      if sched[0].Work? && sched[0].i < |s.workers| { WorkerFrame(c, s, sched[0].i); }
      StaysSettled(c, Step(c, s, sched[0]), sched[1..]);
    }
  }
}
