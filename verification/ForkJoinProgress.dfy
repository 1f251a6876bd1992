/** Sleeping workers, deadlock freedom, shutdown, and the main results about the pool. */
module ForkJoinProgress {
  import opened ForkJoin

  // ---------------------------------------------------------------- no lost wakeup

  /** Main is on its way to a signal for worker `i`. */
  predicate SignalComing(m: MainPC, i: nat) {
    match m
    case Wake(call, _) => i < call.eff - 1
    case SigLock(call, j) => j <= i < call.eff - 1
    case Sig(call, j) => j <= i < call.eff - 1
    case SigUnlock(call, j) => j < i < call.eff - 1
    case DownBump => true
    case DownWake(_) => true
    case DownLock(j) => j <= i
    case DownSig(j) => j <= i
    case DownUnlock(j) => j < i
    case _ => false
  }

  ghost predicate SleepInv(c: Config, s: State, i: nat)
    requires Shape(c, s) && i < |s.workers|
  {
    var w := s.workers[i];
    && (w.poll < 100 ==> s.everLow)
    && (w.pc.Lock? || w.pc.Recheck? || w.pc.RecheckDown? || w.pc.Asleep? ==> c.cvs && w.poll < 100)
    && (MainHolds(s.main, i) ==> !HoldsMutex(w.pc))
    && ((w.pc.RecheckDown? || w.pc.Asleep?) && w.wakeGen != w.myGen ==> SignalComing(s.main, i))
    && (w.pc.Asleep? && s.shutdown ==> SignalComing(s.main, i))
  }

  /** `poll` has not gone back to 100 (no condvars) after having been below it. */
  ghost predicate PollKept(s: State) { s.everLow <==> s.poll < 100 }

  /** A call of `bm_set_poll` that keeps it so; every other action does. */
  predicate KeepsPoll(s: State, a: Act) { a.SetPoll? && s.main.Idle? && s.everLow ==> a.p < 100 }

  ghost predicate FullInv(c: Config, s: State) {
    Inv(c, s) && PollKept(s) && forall i :: 0 <= i < |s.workers| ==> SleepInv(c, s, i)
  }

  lemma WorkerSleep(c: Config, s: State, i: nat, j: nat)
    requires FullInv(c, s) && i < |s.workers| && j < |s.workers|
    ensures Shape(c, WorkerStep(c, s, i)) && SleepInv(c, WorkerStep(c, s, i), j)
  {
    WorkerFrame(c, s, i);
    assert SleepInv(c, s, i) && SleepInv(c, s, j) && WorkerInv(c, s, i);
  }

  lemma PublishSleep(c: Config, s: State, j: nat)
    requires FullInv(c, s) && j < |s.workers| && Settled(s.main)
    ensures Shape(c, PublishStep(c, s)) && SleepInv(c, PublishStep(c, s), j)
  {
    assert SleepInv(c, s, j) && WorkerInv(c, s, j);
  }

  lemma DispatchSleep(c: Config, s: State, j: nat)
    requires FullInv(c, s) && j < |s.workers| && Dispatching(s.main)
    ensures Shape(c, DispatchStep(c, s)) && SleepInv(c, DispatchStep(c, s), j)
  {
    assert SleepInv(c, s, j) && WorkerInv(c, s, j);
  }

  lemma CloseSleep(c: Config, s: State, j: nat)
    requires FullInv(c, s) && j < |s.workers| && Closing(s.main)
    ensures Shape(c, CloseStep(c, s)) && SleepInv(c, CloseStep(c, s), j)
  {
    assert SleepInv(c, s, j) && WorkerInv(c, s, j);
  }

  /** Calls, shutdown requests, poll settings and stray wakeups. */
  lemma OutsideSleep(c: Config, s: State, a: Act, j: nat)
    requires FullInv(c, s) && j < |s.workers| && !a.Main? && !a.Work?
    ensures SleepInv(c, Step(c, s, a), j)
  {
    assert SleepInv(c, s, j);
  }

  lemma StepPollKept(c: Config, s: State, a: Act)
    requires Shape(c, s) && PollKept(s) && KeepsPoll(s, a)
    ensures PollKept(Step(c, s, a))
  { }

  lemma StepSleep(c: Config, s: State, a: Act, j: nat)
    requires FullInv(c, s) && j < |s.workers|
    ensures SleepInv(c, Step(c, s, a), j)
  {
    if a.Main? {
      if Settled(s.main) { PublishSleep(c, s, j); }
      else if Dispatching(s.main) { DispatchSleep(c, s, j); }
      else { CloseSleep(c, s, j); }
    } else if a.Work? {
      if a.i < |s.workers| { WorkerSleep(c, s, a.i, j); } else { assert SleepInv(c, s, j); }
    } else {
      OutsideSleep(c, s, a, j);
    }
  }

  lemma StepFullInv(c: Config, s: State, a: Act)
    requires FullInv(c, s) && KeepsPoll(s, a)
    ensures FullInv(c, Step(c, s, a))
  {
    StepInv(c, s, a);
    StepPollKept(c, s, a);
    forall j | 0 <= j < |s.workers| ensures SleepInv(c, Step(c, s, a), j) { StepSleep(c, s, a, j); }
  }

  // ---------------------------------------------------------------- progress

  function Rest(n: nat, i: nat): nat { if i < n then n - i else 0 }

  /** Steps main has left in the operation it is in, weighted over everything a worker may owe. */
  function MainLeft(c: Config, m: MainPC): nat {
    var n := c.n;
    match m
    case Idle => 0
    case Gone => 0
    case Direct(_) => 1
    case PubFn(_) => 6 * n + 18
    case PubArg(_) => 6 * n + 17
    case PubN(_) => 6 * n + 16
    case Bump(_) => 6 * n + 15
    case Wake(call, i) => 4 * n + 14 + Rest(call.eff, i)
    case SigLock(call, i) => n + 10 + 3 * Rest(call.eff, i)
    case Sig(call, i) => n + 9 + 3 * Rest(call.eff, i)
    case SigUnlock(call, i) => n + 8 + 3 * Rest(call.eff, i)
    case RunMain(_) => n + 6
    case Collect(call, i) => Rest(call.eff, i) + 1
    case Down => 6 * n + 20
    case DownBump => 6 * n + 19
    case DownWake(i) => 4 * n + 16 + Rest(n, i)
    case DownLock(i) => n + 10 + 3 * Rest(n, i)
    case DownSig(i) => n + 9 + 3 * Rest(n, i)
    case DownUnlock(i) => n + 8 + 3 * Rest(n, i)
    case Join(i) => 1 + Rest(n, i)
  }

  /** Distance of a worker from the end of the call it has been given, or from its wait loop. */
  function WorkerLeft(w: Worker): nat {
    if InWait(w.pc) && w.wakeGen == w.myGen then
      if w.pc.Recheck? then 4 else if w.pc.RecheckDown? then 3 else if w.pc.Unlock? then 2 else 1
    else
      match w.pc
      case CheckDown => 15
      case Lock => 14
      case Recheck => 13
      case RecheckDown => 12
      case Asleep => 11
      case Relock => 10
      case Unlock => 9
      case Start => 8
      case Check => 7
      case Load => 6
      case DownAfterWake => 5
      case Fetch => 4
      case Running(_) => 3
      case Finish => 2
      case Exited => 0
  }

  function WorkersLeft(ws: seq<Worker>): nat {
    if ws == [] then 0 else WorkerLeft(ws[0]) + WorkersLeft(ws[1..])
  }

  lemma {:induction false} WorkersLeftUpdate(ws: seq<Worker>, i: nat, w: Worker)
    requires i < |ws|
    ensures WorkersLeft(ws[i := w]) == WorkersLeft(ws) - WorkerLeft(ws[i]) + WorkerLeft(w)
  {
    if i > 0 {
      WorkersLeftUpdate(ws[1..], i - 1, w);
      assert ws[i := w][1..] == ws[1..][i - 1 := w];
    } else {
      assert ws[i := w][1..] == ws[1..];
    }
  }

  /** The worker main waits for, if main cannot move. */
  function Awaited(s: State): nat {
    if s.main.SigLock? || s.main.DownLock? || s.main.Collect? || s.main.Join? then s.main.i else 0
  }

  /** It is not asleep, and either holds its mutex or has its new generation still to serve. */
  ghost predicate OnItsWay(w: Worker) {
    HoldsMutex(w.pc)
    || (!w.pc.Exited? && !w.pc.Asleep?
        && (InWait(w.pc) ==> w.wakeGen != w.myGen) && (w.pc.Finish? ==> w.wakeGen == w.myGen))
  }

  lemma BlockedOn(c: Config, s: State)
    requires FullInv(c, s) && MainStep(c, s).main == s.main && !s.main.Idle? && !s.main.Gone?
    ensures Awaited(s) < |s.workers| && !MainHolds(s.main, Awaited(s)) && OnItsWay(s.workers[Awaited(s)])
  {
    var i := Awaited(s);
    if i < |s.workers| {
      assert WorkerInv(c, s, i) && SleepInv(c, s, i);
    }
  }

  lemma WorkerNearer(c: Config, s: State, i: nat)
    requires Shape(c, s) && i < |s.workers| && !MainHolds(s.main, i) && OnItsWay(s.workers[i])
    ensures Shape(c, WorkerStep(c, s, i)) && WorkerLeft(WorkerStep(c, s, i).workers[i]) < WorkerLeft(s.workers[i])
  {
    WorkerFrame(c, s, i);
  }

  lemma AwaitedMoves(c: Config, s: State, i: nat)
    requires Shape(c, s) && i < |s.workers| && !MainHolds(s.main, i) && OnItsWay(s.workers[i])
    ensures WorkersLeft(WorkerStep(c, s, i).workers) < WorkersLeft(s.workers)
  {
    WorkerNearer(c, s, i);
    WorkerFrame(c, s, i);
    WorkersLeftUpdate(s.workers, i, WorkerStep(c, s, i).workers[i]);
  }

  lemma PublishDrops(c: Config, s: State)
    requires FullInv(c, s) && Settled(s.main) && PublishStep(c, s).main != s.main
    ensures MainLeft(c, PublishStep(c, s).main) < MainLeft(c, s.main)
  {
  }

  lemma DispatchDrops(c: Config, s: State)
    requires FullInv(c, s) && Dispatching(s.main) && DispatchStep(c, s).main != s.main
    ensures MainLeft(c, DispatchStep(c, s).main) < MainLeft(c, s.main)
  {
  }

  lemma CloseDrops(c: Config, s: State)
    requires FullInv(c, s) && Closing(s.main) && CloseStep(c, s).main != s.main
    ensures MainLeft(c, CloseStep(c, s).main) < MainLeft(c, s.main)
  {
  }

  /** No deadlock: while main is inside an operation, some thread can take it nearer its end. */
  lemma CanAdvance(c: Config, s: State) returns (a: Act)
    requires FullInv(c, s) && !s.main.Idle? && !s.main.Gone?
    ensures a.Main? || a.Work?
    ensures var r := Step(c, s, a);
      MainLeft(c, r.main) < MainLeft(c, s.main)
      || (r.main == s.main && WorkersLeft(r.workers) < WorkersLeft(s.workers))
  {
    if MainStep(c, s).main != s.main {
      if Settled(s.main) { PublishDrops(c, s); }
      else if Dispatching(s.main) { DispatchDrops(c, s); }
      else { CloseDrops(c, s); }
      return Main;
    }
    BlockedOn(c, s);
    AwaitedMoves(c, s, Awaited(s));
    WorkerFrame(c, s, Awaited(s));
    return Work(Awaited(s));
  }

  predicate OnlyThreads(sched: seq<Act>) { forall i :: 0 <= i < |sched| ==> sched[i].Main? || sched[i].Work? }

  /** From every reachable state the operation in progress can be completed. */
  lemma CanReturn(c: Config, s: State) returns (sched: seq<Act>)
    requires FullInv(c, s)
    ensures OnlyThreads(sched)
    ensures Run(c, s, sched).main.Idle? || Run(c, s, sched).main.Gone?
    decreases MainLeft(c, s.main), WorkersLeft(s.workers)
  {
    sched := [];
    if !s.main.Idle? && !s.main.Gone? {
      var a := CanAdvance(c, s);
      StepFullInv(c, s, a);
      var r := Step(c, s, a);
      var rest := CanReturn(c, r);
      sched := [a] + rest;
      assert sched[1..] == rest;
      assert Run(c, s, sched) == Run(c, r, rest);
    }
  }

  // ---------------------------------------------------------------- all runs

  lemma {:induction false} RunInv(c: Config, s: State, sched: seq<Act>)
    requires Inv(c, s)
    ensures Inv(c, Run(c, s, sched))
    decreases |sched|
  {
    if sched != [] {
      StepInv(c, s, sched[0]);
      RunInv(c, Step(c, s, sched[0]), sched[1..]);
    }
  }

  lemma {:induction false} RunConcat(c: Config, s: State, a: seq<Act>, b: seq<Act>)
    requires Shape(c, s)
    ensures Run(c, s, a + b) == Run(c, Run(c, s, a), b)
    decreases |a|
  {
    if a == [] {
      assert a + b == b;
    } else {
      var r := Step(c, s, a[0]);
      RunConcat(c, r, a[1..], b);
      assert (a + b)[0] == a[0] && (a + b)[1..] == a[1..] + b;
    }
  }

  /** Along the whole schedule no call of `bm_set_poll` switches signalling off. */
  ghost predicate Disciplined(c: Config, s: State, sched: seq<Act>)
    requires Shape(c, s)
    decreases |sched|
  {
    sched == [] || (KeepsPoll(s, sched[0]) && Disciplined(c, Step(c, s, sched[0]), sched[1..]))
  }

  lemma {:induction false} RunFullInv(c: Config, s: State, sched: seq<Act>)
    requires FullInv(c, s) && Disciplined(c, s, sched)
    ensures FullInv(c, Run(c, s, sched))
    decreases |sched|
  {
    if sched != [] {
      StepFullInv(c, s, sched[0]);
      RunFullInv(c, Step(c, s, sched[0]), sched[1..]);
    }
  }

  // ---------------------------------------------------------------- what was asked for

  /**
   * The calls a schedule asks for, in order: each `Begin` that finds main idle, with its function, its
   * argument and the number of threads, which is the smaller of the number of tasks and the pool's size.
   */
  function Issued(c: Config, s: State, sched: seq<Act>): (calls: seq<Call>)
    requires Shape(c, s)
    decreases |sched|
  {
    if sched == [] then []
    else
      var rest := Issued(c, Step(c, s, sched[0]), sched[1..]);
      match sched[0]
      case Begin(nTasks, fn, arg) =>
        if !s.main.Idle? then rest
        else [Call(fn, arg, if nTasks <= 0 || nTasks >= c.n then c.n else nTasks)] + rest
      case _ => rest
  }

  /** Those of the calls that have work for thread `tid`. */
  function Including(calls: seq<Call>, tid: nat): seq<Call> {
    if calls == [] then []
    else (if tid < calls[0].eff then [calls[0]] else []) + Including(calls[1..], tid)
  }

  /** The calls begun so far: those on record and the one about to be put there. */
  function Begun(s: State): seq<Call> {
    s.calls + if s.main.Direct? || s.main.PubFn? || s.main.PubArg? || s.main.PubN? || s.main.Bump? then [s.main.call] else []
  }

  lemma MainBegun(c: Config, s: State)
    requires Shape(c, s)
    ensures Begun(MainStep(c, s)) == Begun(s)
  {
    if s.main.Direct? || s.main.Bump? { assert Begun(s) == s.calls + [s.main.call]; }
  }

  lemma StepBegun(c: Config, s: State, a: Act)
    requires Shape(c, s) && !a.Begin?
    ensures Begun(Step(c, s, a)) == Begun(s)
  {
    match a
    case Main => MainBegun(c, s);
    case Work(i) => if i < |s.workers| { WorkerFrame(c, s, i); }
    case _ =>
  }

  lemma BeginBegun(c: Config, s: State, a: Act)
    requires Shape(c, s) && a.Begin?
    ensures Begun(Step(c, s, a)) == Begun(s) + Issued(c, s, [a])
  {
    assert Issued(c, Step(c, s, a), [a][1..]) == [];
  }

  lemma ActBegun(c: Config, s: State, a: Act)
    requires Shape(c, s)
    ensures Begun(Step(c, s, a)) == Begun(s) + Issued(c, s, [a])
  {
    if a.Begin? {
      BeginBegun(c, s, a);
    } else {
      StepBegun(c, s, a);
      IssuedCons(c, s, a, []);
      assert Begun(s) + [] == Begun(s);
    }
  }

  lemma {:induction false} RunBegun(c: Config, s: State, sched: seq<Act>)
    requires Shape(c, s)
    ensures Begun(Run(c, s, sched)) == Begun(s) + Issued(c, s, sched)
    decreases |sched|
  {
    if sched == [] {
      assert Begun(s) + [] == Begun(s);
    } else {
      var a, rest := sched[0], sched[1..];
      var r := Step(c, s, a);
      RunBegun(c, r, rest);
      ActBegun(c, s, a);
      IssuedCons(c, s, a, rest);
      assert sched == [a] + rest;
      Joined(Begun(s), Issued(c, s, [a]), Issued(c, r, rest));
    }
  }

  lemma Joined(x: seq<Call>, y: seq<Call>, z: seq<Call>)
    ensures (x + y) + z == x + (y + z)
  { }

  lemma IssuedCons(c: Config, s: State, a: Act, rest: seq<Act>)
    requires Shape(c, s)
    ensures Issued(c, s, [a] + rest) == Issued(c, s, [a]) + Issued(c, Step(c, s, a), rest)
    ensures !a.Begin? ==> Issued(c, s, [a]) == []
  {
    assert ([a] + rest)[1..] == rest && [a][1..] == [];
    assert Issued(c, Step(c, s, a), []) == [];
  }

  lemma {:induction false} IncludingSnoc(calls: seq<Call>, last: Call, tid: nat)
    ensures Including(calls + [last], tid) == Including(calls, tid) + if tid < last.eff then [last] else []
  {
    if calls == [] {
      assert Including([last][1..], tid) == [];
    } else {
      IncludingSnoc(calls[1..], last, tid);
      assert (calls + [last])[0] == calls[0] && (calls + [last])[1..] == calls[1..] + [last];
    }
  }

  lemma {:induction false} ExpectedIsIncluding(calls: seq<Call>, tid: nat)
    ensures Expected(calls, tid) == Including(calls, tid)
  {
    if calls != [] {
      var n := |calls| - 1;
      ExpectedIsIncluding(calls[..n], tid);
      IncludingSnoc(calls[..n], calls[n], tid);
      assert calls == calls[..n] + [calls[n]];
    }
  }

  /**
   * Over any sequence of calls, in any interleaving: whenever main is between operations, each tid has
   * executed the dispatched function once per call asked for that includes it, in the order asked, with that
   * call's function, argument and thread count, and nothing else; and no worker is still inside.
   */
  lemma ExactlyOnce(c: Config, poll: nat, sched: seq<Act>)
    requires c.n >= 2 && poll <= 100
    ensures var s := Run(c, Init(c, poll), sched);
      s.main.Idle? || s.main.Gone? ==>
        && (forall tid :: 0 <= tid < c.n ==> s.logs[tid] == Including(Issued(c, Init(c, poll), sched), tid))
        && (forall i :: 0 <= i < |s.workers| ==> !InFn(s.workers[i].pc))
  {
    var s := Run(c, Init(c, poll), sched);
    InitInv(c, poll);
    RunInv(c, Init(c, poll), sched);
    if s.main.Idle? || s.main.Gone? {
      CallsAreIssued(c, poll, sched);
      LogsKept(c, s);
    }
  }

  lemma CallsAreIssued(c: Config, poll: nat, sched: seq<Act>)
    requires c.n >= 2 && poll <= 100
    ensures var s := Run(c, Init(c, poll), sched);
            s.main.Idle? || s.main.Gone? ==> s.calls == Issued(c, Init(c, poll), sched)
  {
    var s := Run(c, Init(c, poll), sched);
    RunBegun(c, Init(c, poll), sched);
    assert Begun(Init(c, poll)) == [];
    if s.main.Idle? || s.main.Gone? { assert Begun(s) == s.calls + [] == s.calls; }
  }

  lemma LogsKept(c: Config, s: State)
    requires Inv(c, s) && (s.main.Idle? || s.main.Gone?)
    ensures forall tid :: 0 <= tid < c.n ==> s.logs[tid] == Including(s.calls, tid)
    ensures forall i :: 0 <= i < |s.workers| ==> !InFn(s.workers[i].pc)
  {
    forall tid | 0 <= tid < c.n ensures s.logs[tid] == Including(s.calls, tid) {
      ExpectedIsIncluding(s.calls, tid);
      if tid > 0 { assert WorkerInv(c, s, tid - 1); }
    }
    forall i | 0 <= i < |s.workers| ensures !InFn(s.workers[i].pc) { assert WorkerInv(c, s, i); }
  }

  /** A worker inside the dispatched function works for the call in progress, which includes it. */
  lemma NeverStale(c: Config, poll: nat, sched: seq<Act>, i: nat)
    requires c.n >= 2 && poll <= 100 && i < c.n - 1
    ensures var s := Run(c, Init(c, poll), sched);
      s.workers[i].pc.Running? ==>
        Dispatching(s.main) && s.workers[i].pc.call == s.main.call && i + 1 < s.main.call.eff
  {
    var s := Run(c, Init(c, poll), sched);
    InitInv(c, poll);
    RunInv(c, Init(c, poll), sched);
    assert WorkerInv(c, s, i);
  }

  /** The dispatch fields are written only while every worker is in its wait loop. */
  lemma PublishAlone(c: Config, poll: nat, sched: seq<Act>, i: nat)
    requires c.n >= 2 && poll <= 100 && i < c.n - 1
    ensures var s := Run(c, Init(c, poll), sched);
      s.main.PubFn? || s.main.PubArg? || s.main.PubN? ==> InWait(s.workers[i].pc)
  {
    var s := Run(c, Init(c, poll), sched);
    InitInv(c, poll);
    RunInv(c, Init(c, poll), sched);
    assert WorkerInv(c, s, i);
  }

  lemma InitFullInv(c: Config, poll: nat)
    requires c.n >= 2 && poll <= 100
    ensures FullInv(c, Init(c, poll))
  {
    InitInv(c, poll);
  }

  /** A worker asleep with a new generation or the shutdown flag posted has a signal coming. */
  lemma NoLostWakeup(c: Config, poll: nat, sched: seq<Act>, i: nat)
    requires c.n >= 2 && poll <= 100 && i < c.n - 1 && Disciplined(c, Init(c, poll), sched)
    ensures var s := Run(c, Init(c, poll), sched);
      s.workers[i].pc.Asleep? && (s.workers[i].wakeGen != s.workers[i].myGen || s.shutdown) ==>
        SignalComing(s.main, i)
  {
    InitFullInv(c, poll);
    RunFullInv(c, Init(c, poll), sched);
    assert SleepInv(c, Run(c, Init(c, poll), sched), i);
  }

  /** Every call and the shutdown can run to their end from wherever they are. */
  lemma OperationsEnd(c: Config, poll: nat, sched: seq<Act>) returns (more: seq<Act>)
    requires c.n >= 2 && poll <= 100 && Disciplined(c, Init(c, poll), sched)
    ensures OnlyThreads(more)
    ensures var s := Run(c, Run(c, Init(c, poll), sched), more);
      s.main.Idle? || (s.main.Gone? && forall i :: 0 <= i < |s.workers| ==> s.workers[i].pc.Exited?)
  {
    InitFullInv(c, poll);
    RunFullInv(c, Init(c, poll), sched);
    var mid := Run(c, Init(c, poll), sched);
    more := CanReturn(c, mid);
    RunInv(c, mid, more);
    var s := Run(c, mid, more);
    if s.main.Gone? {
      forall i | 0 <= i < |s.workers| ensures s.workers[i].pc.Exited? { assert WorkerInv(c, s, i); }
    }
  }

  lemma WorkerStaysOut(c: Config, s: State, i: nat)
    requires Inv(c, s) && s.shutdown && i < |s.workers|
    ensures WorkerStep(c, s, i).logs == s.logs
  {
    assert WorkerInv(c, s, i);
  }

  lemma ClosedStep(c: Config, s: State, a: Act)
    requires Inv(c, s) && s.shutdown
    ensures var r := Step(c, s, a); r.shutdown && r.logs == s.logs && r.calls == s.calls
  {
    if a.Work? && a.i < |s.workers| {
      WorkerFrame(c, s, a.i);
      WorkerStaysOut(c, s, a.i);
    }
  }

  /** Once shutdown is posted, nothing executes the dispatched function again. */
  lemma {:induction false} ShutdownIsFinal(c: Config, s: State, sched: seq<Act>)
    requires Inv(c, s) && s.shutdown
    ensures Run(c, s, sched).shutdown && Run(c, s, sched).logs == s.logs && Run(c, s, sched).calls == s.calls
    decreases |sched|
  {
    if sched != [] {
      var a := sched[0];
      ClosedStep(c, s, a);
      StepInv(c, s, a);
      ShutdownIsFinal(c, Step(c, s, a), sched[1..]);
    }
  }
}
