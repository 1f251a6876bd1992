/**
 * The fork-join pool as a transition system: the main thread and its workers, one transition per
 * atomic operation or lock operation, interleaved in any order, with spurious condvar wakeups.
 */
module ForkJoin {

  const SPINS_PER_POLL := 1280

  /** `n` threads in all, main included; `cvs` says whether the condvar sidecar was allocated. */
  datatype Config = Config(n: nat, cvs: bool)

  /** One call of `bm_parallel_for`, with the thread count it settles on. */
  datatype Call = Call(fn: int, arg: int, eff: nat)

  datatype WorkerPC =
    | Start | Check | CheckDown | Lock | Recheck | RecheckDown | Asleep | Relock | Unlock
    | Load | DownAfterWake | Fetch | Running(call: Call) | Finish
    | Exited

  datatype Worker = Worker(pc: WorkerPC, myGen: nat, wakeGen: nat, lastDone: nat, poll: nat, spins: nat)

  datatype MainPC =
    | Idle | Direct(call: Call)
    | PubFn(call: Call) | PubArg(call: Call) | PubN(call: Call) | Bump(call: Call)
    | Wake(call: Call, i: nat) | SigLock(call: Call, i: nat) | Sig(call: Call, i: nat) | SigUnlock(call: Call, i: nat)
    | RunMain(call: Call) | Collect(call: Call, i: nat)
    | Down | DownBump | DownWake(i: nat) | DownLock(i: nat) | DownSig(i: nat) | DownUnlock(i: nat)
    | Join(i: nat) | Gone

  /**
   * `calls` (the calls issued so far), `logs` (per tid, the executions of the dispatched function, each
   * with the arguments it got) and `everLow` (the poll intensity has been below 100) are history.
   */
  datatype State = State(
    main: MainPC, workers: seq<Worker>, fn: int, arg: int, nActive: nat, curGen: nat, shutdown: bool, poll: nat,
    calls: seq<Call>, logs: seq<seq<Call>>, everLow: bool)

  /** What the schedule may do next: main begins an operation, or some thread takes its next step. */
  datatype Act =
    | Begin(nTasks: int, fn: int, arg: int) | Free | SetPoll(p: int)
    | Main | Work(i: nat) | Spurious(i: nat)

  predicate Shape(c: Config, s: State) {
    c.n >= 2 && |s.workers| == c.n - 1 && |s.logs| == c.n && s.poll <= 100
  }

  function Init(c: Config, poll: nat): State
    requires c.n >= 2 && poll <= 100
  {
    State(Idle, seq(c.n - 1, _ => Worker(Start, 0, 0, 0, poll, 0)), 0, 0, 0, 0, false, poll,
          [], seq(c.n, _ => []), poll < 100)
  }

  // ---------------------------------------------------------------- workers

  predicate HoldsMutex(p: WorkerPC) { p.Recheck? || p.RecheckDown? || p.Unlock? }

  predicate MainHolds(m: MainPC, i: nat) {
    (m.Sig? && m.i == i) || (m.SigUnlock? && m.i == i) || (m.DownSig? && m.i == i) || (m.DownUnlock? && m.i == i)
  }

  function SetWorker(s: State, i: nat, w: Worker): State
    requires i < |s.workers|
  {
    s.(workers := s.workers[i := w])
  }

  function At(s: State, i: nat, p: WorkerPC): State
    requires i < |s.workers|
  {
    SetWorker(s, i, s.workers[i].(pc := p))
  }

  /** The wait loop failed to see a new generation: leave, spin, sleep or yield. */
  function AfterCheck(c: Config, s: State, i: nat): State
    requires i < |s.workers|
  {
    var w := s.workers[i];
    if s.shutdown then At(s, i, Exited)
    else if w.spins < w.poll * SPINS_PER_POLL then SetWorker(s, i, w.(pc := Check, spins := w.spins + 1))
    else if w.poll < 100 && c.cvs then At(s, i, Lock)
    else SetWorker(s, i, w.(pc := Check, spins := 0))
  }

  function LogRun(s: State, tid: nat, call: Call): State
    requires tid < |s.logs|
  {
    s.(logs := s.logs[tid := s.logs[tid] + [call]])
  }

  function WorkerStep(c: Config, s: State, i: nat): State
    requires Shape(c, s) && i < |s.workers|
  {
    var w := s.workers[i];
    match w.pc
    case Start => SetWorker(s, i, w.(pc := Check, poll := s.poll, spins := 0))
    case Check => At(s, i, if w.wakeGen == w.myGen then CheckDown else Load)
    case CheckDown => AfterCheck(c, s, i)
    case Lock => if MainHolds(s.main, i) then s else At(s, i, Recheck)
    case Recheck => At(s, i, if w.wakeGen == w.myGen then RecheckDown else Unlock)
    case RecheckDown => At(s, i, if s.shutdown then Unlock else Asleep)
    case Asleep => s
    case Relock => if MainHolds(s.main, i) then s else At(s, i, Unlock)
    case Unlock => At(s, i, Check)
    case Load => SetWorker(s, i, w.(pc := DownAfterWake, myGen := w.wakeGen))
    case DownAfterWake => At(s, i, if s.shutdown then Exited else Fetch)
    case Fetch => At(s, i, Running(Call(s.fn, s.arg, s.nActive)))
    case Running(call) => LogRun(At(s, i, Finish), i + 1, call)
    case Finish => SetWorker(s, i, w.(pc := Start, lastDone := w.myGen))
    case Exited => s
  }

  // ---------------------------------------------------------------- the main thread

  /** How many threads a call uses: all of them unless there are fewer tasks. */
  function Effective(c: Config, nTasks: int): nat {
    if 0 < nTasks < c.n then nTasks else c.n
  }

  function Goto(s: State, m: MainPC): State { s.(main := m) }

  function WakeStep(c: Config, s: State, call: Call, i: nat): State
    requires Shape(c, s)
  {
    if i < call.eff - 1 && i < |s.workers| then
      Goto(SetWorker(s, i, s.workers[i].(wakeGen := s.curGen)), Wake(call, i + 1))
    else if s.poll < 100 && c.cvs then Goto(s, SigLock(call, 0))
    else Goto(s, RunMain(call))
  }

  /** pthread_cond_signal: the one possible waiter, if it waits, has to take the mutex again. */
  function Signal(s: State, i: nat): State {
    if i < |s.workers| && s.workers[i].pc.Asleep? then At(s, i, Relock) else s
  }

  predicate Settled(m: MainPC) {
    m.Idle? || m.Direct? || m.PubFn? || m.PubArg? || m.PubN? || m.Bump? || m.Down?
  }

  predicate Dispatching(m: MainPC) {
    m.Wake? || m.SigLock? || m.Sig? || m.SigUnlock? || m.RunMain? || m.Collect?
  }

  predicate Closing(m: MainPC) { !Settled(m) && !Dispatching(m) }

  /** Publishing a call, one plain store at a time. */
  function PublishStep(c: Config, s: State): State
    requires Shape(c, s)
  {
    match s.main
    case Direct(call) => Goto(LogRun(s.(calls := s.calls + [call]), 0, call), Idle)
    case PubFn(call) => Goto(s.(fn := call.fn), PubArg(call))
    case PubArg(call) => Goto(s.(arg := call.arg), PubN(call))
    case PubN(call) => Goto(s.(nActive := call.eff), Bump(call))
    case Bump(call) => Goto(s.(curGen := s.curGen + 1, calls := s.calls + [call]), Wake(call, 0))
    case Down => Goto(s.(shutdown := true), DownBump)
    case _ => s
  }

  function DispatchStep(c: Config, s: State): State
    requires Shape(c, s)
  {
    match s.main
    case Wake(call, i) => WakeStep(c, s, call, i)
    case SigLock(call, i) =>
      if i < call.eff - 1 && i < |s.workers| then
        if HoldsMutex(s.workers[i].pc) then s else Goto(s, Sig(call, i))
      else Goto(s, RunMain(call))
    case Sig(call, i) => Goto(Signal(s, i), SigUnlock(call, i))
    case SigUnlock(call, i) => Goto(s, SigLock(call, i + 1))
    case RunMain(call) => Goto(LogRun(s, 0, call), Collect(call, 0))
    case Collect(call, i) =>
      if i < call.eff - 1 && i < |s.workers| then
        if s.workers[i].lastDone == s.curGen then Goto(s, Collect(call, i + 1)) else s
      else Goto(s, Idle)
    case _ => s
  }

  /** `bm_thread_pool_free` after it has posted the shutdown flag. */
  function CloseStep(c: Config, s: State): State
    requires Shape(c, s)
  {
    match s.main
    case DownBump => Goto(s.(curGen := s.curGen + 1), DownWake(0))
    case DownWake(i) =>
      if i < |s.workers| then Goto(SetWorker(s, i, s.workers[i].(wakeGen := s.curGen)), DownWake(i + 1))
      else Goto(s, if c.cvs then DownLock(0) else Join(0))
    case DownLock(i) =>
      if i < |s.workers| then if HoldsMutex(s.workers[i].pc) then s else Goto(s, DownSig(i)) else Goto(s, Join(0))
    case DownSig(i) => Goto(Signal(s, i), DownUnlock(i))
    case DownUnlock(i) => Goto(s, DownLock(i + 1))
    case Join(i) =>
      if i < |s.workers| then if s.workers[i].pc.Exited? then Goto(s, Join(i + 1)) else s else Goto(s, Gone)
    case _ => s
  }

  function MainStep(c: Config, s: State): State
    requires Shape(c, s)
  {
    if Settled(s.main) then PublishStep(c, s)
    else if Dispatching(s.main) then DispatchStep(c, s)
    else CloseStep(c, s)
  }

  function Step(c: Config, s: State, a: Act): (r: State)
    requires Shape(c, s)
    ensures Shape(c, r)
  {
    match a
    case Begin(nTasks, fn, arg) =>
      if s.main.Idle? then
        var eff := Effective(c, nTasks);
        Goto(s, if eff <= 1 then Direct(Call(fn, arg, 1)) else PubFn(Call(fn, arg, eff)))
      else s
    case Free => if s.main.Idle? then Goto(s, Down) else s
    case SetPoll(p) =>
      if s.main.Idle? then
        var q: nat := if p < 0 then 0 else if p > 100 then 100 else p;
        s.(poll := q, everLow := s.everLow || q < 100)
      else s
    case Main => MainStep(c, s)
    case Work(i) => if i < |s.workers| then WorkerStep(c, s, i) else s
    case Spurious(i) => Signal(s, i)
  }

  function Run(c: Config, s: State, sched: seq<Act>): (r: State)
    requires Shape(c, s)
    ensures Shape(c, r)
    decreases |sched|
  {
    if sched == [] then s else Run(c, Step(c, s, sched[0]), sched[1..])
  }

  // ---------------------------------------------------------------- the specification

  /** The executions tid should have seen: one per call that includes it, in order. */
  function Expected(calls: seq<Call>, tid: nat): seq<Call> {
    if calls == [] then []
    else
      var last := calls[|calls| - 1];
      Expected(calls[..|calls| - 1], tid) + if tid < last.eff then [last] else []
  }

  predicate InWait(p: WorkerPC) {
    p.Start? || p.Check? || p.CheckDown? || p.Lock? || p.Recheck? || p.RecheckDown? || p.Asleep? || p.Relock? || p.Unlock?
  }

  predicate InFn(p: WorkerPC) { p.Running? }

  // ---------------------------------------------------------------- the invariant

  /** Workers below this index have their new generation. */
  function Woken(m: MainPC, n: nat): nat {
    match m
    case Wake(_, i) => i
    case DownBump => 0
    case DownWake(i) => i
    case _ => n
  }

  function Prev(calls: seq<Call>): seq<Call>
    requires calls != []
  {
    calls[..|calls| - 1]
  }

  ghost predicate Quiet(w: Worker, log: seq<Call>, calls: seq<Call>, tid: nat) {
    w.wakeGen == w.myGen == w.lastDone && InWait(w.pc) && log == Expected(calls, tid)
  }

  /** A worker included in the current dispatch, from its wake-up to the end of the call. */
  ghost predicate Included(w: Worker, log: seq<Call>, calls: seq<Call>, tid: nat, gen: nat)
    requires calls != []
  {
    && w.wakeGen == gen
    && (if InWait(w.pc) then
          w.myGen == w.lastDone <= gen && log == Expected(if w.lastDone == gen then calls else Prev(calls), tid)
        else if w.pc.Load? then w.myGen == w.lastDone < gen && log == Expected(Prev(calls), tid)
        else
          && w.myGen == gen && w.lastDone < gen && !w.pc.Exited?
          && log == Expected(if w.pc.Finish? then calls else Prev(calls), tid)
          && (w.pc.Running? ==> w.pc.call == calls[|calls| - 1]))
  }

  ghost predicate WorkerInv(c: Config, s: State, i: nat)
    requires Shape(c, s) && i < |s.workers|
  {
    var w, log := s.workers[i], s.logs[i + 1];
    if Settled(s.main) then Quiet(w, log, s.calls, i + 1) && w.wakeGen <= s.curGen
    else if Dispatching(s.main) then
      s.calls != [] &&
      (if i >= s.main.call.eff - 1 then Quiet(w, log, s.calls, i + 1) && w.wakeGen < s.curGen
       else if i >= Woken(s.main, c.n) then Quiet(w, log, Prev(s.calls), i + 1) && w.wakeGen < s.curGen
       else Included(w, log, s.calls, i + 1, s.curGen)
            && (s.main.Collect? && i < s.main.i ==> w.lastDone == s.curGen))
    else
      && log == Expected(s.calls, i + 1)
      && (if i < Woken(s.main, c.n) then
            && w.wakeGen == s.curGen
            && (((InWait(w.pc) || w.pc.Load?) && w.myGen < s.curGen) || w.pc.DownAfterWake? || w.pc.Exited?)
          else w.wakeGen == w.myGen && (InWait(w.pc) || w.pc.Exited?)
               && (if s.main.DownBump? then w.wakeGen <= s.curGen else w.wakeGen < s.curGen))
      && (s.main.Join? && i < s.main.i ==> w.pc.Exited?)
      && (s.main.Gone? ==> w.pc.Exited?)
  }

  ghost predicate MainInv(c: Config, s: State)
    requires Shape(c, s)
  {
    var m := s.main;
    && (s.shutdown <==> Closing(m))
    && (m.PubFn? || m.PubArg? || m.PubN? || m.Bump? ==> 2 <= m.call.eff <= c.n)
    && (m.Direct? ==> m.call.eff == 1)
    && (m.PubArg? || m.PubN? || m.Bump? ==> s.fn == m.call.fn)
    && (m.PubN? || m.Bump? ==> s.arg == m.call.arg)
    && (m.Bump? ==> s.nActive == m.call.eff)
    && (Dispatching(m) ==>
          && s.calls != [] && s.calls[|s.calls| - 1] == m.call == Call(s.fn, s.arg, s.nActive) && 2 <= m.call.eff <= c.n
          && (!m.RunMain? ==> m.i <= m.call.eff - 1)
          && (m.Sig? || m.SigUnlock? ==> m.i < m.call.eff - 1))
    && s.logs[0] == Expected(if Dispatching(m) && !m.Collect? then Prev(s.calls) else s.calls, 0)
    && (m.DownSig? || m.DownUnlock? ==> m.i < |s.workers|)
    && (m.DownWake? || m.DownLock? || m.Join? ==> m.i <= |s.workers|)
  }

  ghost predicate Inv(c: Config, s: State) {
    Shape(c, s) && MainInv(c, s) && forall i :: 0 <= i < |s.workers| ==> WorkerInv(c, s, i)
  }

  lemma InitInv(c: Config, poll: nat)
    requires c.n >= 2 && poll <= 100
    ensures Inv(c, Init(c, poll))
  {
  }

  /** Only the worker itself and its own log change in its step. */
  lemma WorkerFrame(c: Config, s: State, i: nat)
    requires Shape(c, s) && i < |s.workers|
    ensures var r := WorkerStep(c, s, i);
      && Shape(c, r) && r == s.(workers := s.workers[i := r.workers[i]], logs := s.logs[i + 1 := r.logs[i + 1]])
  {
  }

  lemma WorkerSettled(c: Config, s: State, i: nat)
    requires Inv(c, s) && i < |s.workers| && Settled(s.main)
    ensures Shape(c, WorkerStep(c, s, i)) && WorkerInv(c, WorkerStep(c, s, i), i)
  {
    WorkerFrame(c, s, i);
    assert WorkerInv(c, s, i);
  }

  lemma WorkerDispatching(c: Config, s: State, i: nat)
    requires Inv(c, s) && i < |s.workers| && Dispatching(s.main)
    ensures Shape(c, WorkerStep(c, s, i)) && WorkerInv(c, WorkerStep(c, s, i), i)
  {
    WorkerFrame(c, s, i);
    assert WorkerInv(c, s, i);
    assert Expected(s.calls, i + 1)
        == Expected(Prev(s.calls), i + 1) + if i + 1 < s.main.call.eff then [s.main.call] else [];
  }

  lemma WorkerClosing(c: Config, s: State, i: nat)
    requires Inv(c, s) && i < |s.workers| && Closing(s.main)
    ensures Shape(c, WorkerStep(c, s, i)) && WorkerInv(c, WorkerStep(c, s, i), i)
  {
    WorkerFrame(c, s, i);
    assert WorkerInv(c, s, i);
  }

  lemma WorkerStepInv(c: Config, s: State, i: nat)
    requires Inv(c, s) && i < |s.workers|
    ensures Inv(c, WorkerStep(c, s, i))
  {
    var r := WorkerStep(c, s, i);
    WorkerFrame(c, s, i);
    if Settled(s.main) { WorkerSettled(c, s, i); }
    else if Dispatching(s.main) { WorkerDispatching(c, s, i); }
    else { WorkerClosing(c, s, i); }
    forall j | 0 <= j < |r.workers| ensures WorkerInv(c, r, j) {
      assert WorkerInv(c, s, j);
    }
  }

  lemma PublishWorker(c: Config, s: State, j: nat)
    requires Inv(c, s) && Settled(s.main) && j < |s.workers|
    ensures Shape(c, PublishStep(c, s)) && WorkerInv(c, PublishStep(c, s), j)
  {
    assert WorkerInv(c, s, j);
    if s.main.Bump? || s.main.Direct? { assert Prev(s.calls + [s.main.call]) == s.calls; }
  }

  /** Storing the function, the argument and the thread count, and posting the shutdown. */
  lemma StoreMain(c: Config, s: State)
    requires Shape(c, s) && MainInv(c, s) && Settled(s.main) && !s.main.Direct? && !s.main.Bump?
    ensures Shape(c, PublishStep(c, s)) && MainInv(c, PublishStep(c, s))
  { }

  lemma BumpMain(c: Config, s: State)
    requires Shape(c, s) && MainInv(c, s) && s.main.Bump?
    ensures Shape(c, PublishStep(c, s)) && MainInv(c, PublishStep(c, s))
  {
    assert Prev(s.calls + [s.main.call]) == s.calls;
  }

  lemma DirectMain(c: Config, s: State)
    requires Shape(c, s) && MainInv(c, s) && s.main.Direct?
    ensures Shape(c, PublishStep(c, s)) && MainInv(c, PublishStep(c, s))
  {
    ExpectedMore(s.calls, s.main.call, 0);
  }

  lemma PublishMain(c: Config, s: State)
    requires Shape(c, s) && MainInv(c, s) && Settled(s.main)
    ensures Shape(c, PublishStep(c, s)) && MainInv(c, PublishStep(c, s))
  {
    if s.main.Direct? { DirectMain(c, s); } else if s.main.Bump? { BumpMain(c, s); } else { StoreMain(c, s); }
  }

  lemma ExpectedMore(calls: seq<Call>, call: Call, tid: nat)
    ensures Expected(calls + [call], tid) == Expected(calls, tid) + if tid < call.eff then [call] else []
  {
    assert (calls + [call])[..|calls|] == calls;
  }

  lemma PublishInv(c: Config, s: State)
    requires Inv(c, s) && Settled(s.main)
    ensures Inv(c, PublishStep(c, s))
  {
    var r := PublishStep(c, s);
    PublishMain(c, s);
    forall j | 0 <= j < |r.workers| ensures WorkerInv(c, r, j) { PublishWorker(c, s, j); }
  }

  lemma DispatchWake(c: Config, s: State, j: nat)
    requires Inv(c, s) && s.main.Wake? && j < |s.workers|
    ensures var r := WakeStep(c, s, s.main.call, s.main.i); Shape(c, r) && WorkerInv(c, r, j)
  {
    assert WorkerInv(c, s, j);
  }

  /** Signalling moves a worker from one point of its wait loop to another. */
  lemma SignalKeeps(c: Config, s: State, i: nat, j: nat)
    requires Shape(c, s) && j < |s.workers| && WorkerInv(c, s, j)
    ensures Shape(c, Signal(s, i)) && WorkerInv(c, Signal(s, i), j)
  {
  }

  lemma DispatchOther(c: Config, s: State, j: nat)
    requires Inv(c, s) && Dispatching(s.main) && !s.main.Wake? && !s.main.Sig? && j < |s.workers|
    ensures Shape(c, DispatchStep(c, s)) && WorkerInv(c, DispatchStep(c, s), j)
  {
    assert WorkerInv(c, s, j);
  }

  lemma DispatchMain(c: Config, s: State)
    requires Inv(c, s) && Dispatching(s.main)
    ensures Shape(c, DispatchStep(c, s)) && MainInv(c, DispatchStep(c, s))
  {
    if s.main.RunMain? { assert Expected(s.calls, 0) == Expected(Prev(s.calls), 0) + [s.main.call]; }
  }

  lemma DispatchInv(c: Config, s: State)
    requires Inv(c, s) && Dispatching(s.main)
    ensures Inv(c, DispatchStep(c, s))
  {
    var r := DispatchStep(c, s);
    DispatchMain(c, s);
    forall j | 0 <= j < |r.workers| ensures WorkerInv(c, r, j) {
      if s.main.Wake? { DispatchWake(c, s, j); }
      else if s.main.Sig? { assert WorkerInv(c, s, j); SignalKeeps(c, s, s.main.i, j); }
      else { DispatchOther(c, s, j); }
    }
  }

  lemma CloseWake(c: Config, s: State, j: nat)
    requires Inv(c, s) && (s.main.DownWake? || s.main.DownBump?) && j < |s.workers|
    ensures Shape(c, CloseStep(c, s)) && WorkerInv(c, CloseStep(c, s), j)
  {
    assert WorkerInv(c, s, j);
  }

  lemma CloseOther(c: Config, s: State, j: nat)
    requires Inv(c, s) && Closing(s.main) && j < |s.workers|
    requires !s.main.DownWake? && !s.main.DownBump? && !s.main.DownSig?
    ensures Shape(c, CloseStep(c, s)) && WorkerInv(c, CloseStep(c, s), j)
  {
    assert WorkerInv(c, s, j);
  }

  lemma CloseMain(c: Config, s: State)
    requires Inv(c, s) && Closing(s.main)
    ensures Shape(c, CloseStep(c, s)) && MainInv(c, CloseStep(c, s))
  { }

  lemma CloseInv(c: Config, s: State)
    requires Inv(c, s) && Closing(s.main)
    ensures Inv(c, CloseStep(c, s))
  {
    var r := CloseStep(c, s);
    CloseMain(c, s);
    forall j | 0 <= j < |r.workers| ensures WorkerInv(c, r, j) {
      if s.main.DownWake? || s.main.DownBump? { CloseWake(c, s, j); }
      else if s.main.DownSig? { assert WorkerInv(c, s, j); SignalKeeps(c, s, s.main.i, j); }
      else { CloseOther(c, s, j); }
    }
  }

  lemma MainStepInv(c: Config, s: State)
    requires Inv(c, s)
    ensures Inv(c, MainStep(c, s))
  {
    if Settled(s.main) { PublishInv(c, s); }
    else if Dispatching(s.main) { DispatchInv(c, s); }
    else { CloseInv(c, s); }
  }

  /** Calls, shutdown requests and stray wakeups. */
  lemma OutsideInv(c: Config, s: State, a: Act)
    requires Inv(c, s) && !a.Main? && !a.Work?
    ensures Inv(c, Step(c, s, a))
  {
    var r := Step(c, s, a);
    forall j | 0 <= j < |r.workers| ensures WorkerInv(c, r, j) { assert WorkerInv(c, s, j); }
  }

  lemma StepInv(c: Config, s: State, a: Act)
    requires Inv(c, s)
    ensures Inv(c, Step(c, s, a))
  {
    match a
    case Main => MainStepInv(c, s);
    case Work(i) => if i < |s.workers| { WorkerStepInv(c, s, i); }
    case _ => OutsideInv(c, s, a);
  }
}
