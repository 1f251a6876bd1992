/**
 * When a wakeup can be lost: exactly when the poll intensity goes back to 100, where calls do not
 * signal, after having been below it, where workers sleep.
 */
module ForkJoinPoll {
  import opened ForkJoin
  import opened ForkJoinProgress

  /** The values that take effect along a schedule, in order. */
  function Polls(c: Config, s: State, sched: seq<Act>): (h: seq<nat>)
    requires Shape(c, s)
    decreases |sched|
  {
    if sched == [] then []
    else
      var r := Step(c, s, sched[0]);
      (if sched[0].SetPoll? && s.main.Idle? then [r.poll] else []) + Polls(c, r, sched[1..])
  }

  /** After a value below 100 (`low`: there has been one) only such values follow. */
  predicate Steady(low: bool, h: seq<nat>)
    decreases |h|
  {
    h == [] || ((low ==> h[0] < 100) && Steady(low || h[0] < 100, h[1..]))
  }

  /** Every sleeper with a new generation or the shutdown posted has a signal still to come. */
  ghost predicate Heard(s: State) {
    forall i :: 0 <= i < |s.workers| && s.workers[i].pc.Asleep? && (s.workers[i].wakeGen != s.workers[i].myGen || s.shutdown) ==>
      SignalComing(s.main, i)
  }

  // ---------------------------------------------------------------- steady histories

  lemma {:induction false} SteadyDisciplined(c: Config, s: State, sched: seq<Act>)
    requires Shape(c, s) && (s.poll < 100 ==> s.everLow) && Steady(s.everLow, Polls(c, s, sched))
    ensures Disciplined(c, s, sched)
    decreases |sched|
  {
    if sched != [] {
      var r, rest := Step(c, s, sched[0]), Polls(c, Step(c, s, sched[0]), sched[1..]);
      SamePoll(c, s, sched[0]);
      if sched[0].SetPoll? && s.main.Idle? { assert ([r.poll] + rest)[1..] == rest; } else { assert [] + rest == rest; }
      SteadyDisciplined(c, r, sched[1..]);
    }
  }

  lemma SamePoll(c: Config, s: State, a: Act)
    requires Shape(c, s)
    ensures var r := Step(c, s, a);
            if a.SetPoll? && s.main.Idle? then r.everLow == (s.everLow || r.poll < 100) && (a.p < 100 <==> r.poll < 100)
            else r.poll == s.poll && r.everLow == s.everLow
  { }

  lemma {:induction false} SteadyPrefix(low: bool, g: seq<nat>, h: seq<nat>)
    requires g <= h && Steady(low, h)
    ensures Steady(low, g)
    decreases |g|
  {
    if g != [] { SteadyPrefix(low || h[0] < 100, g[1..], h[1..]); }
  }

  predicate Sleepless(p: WorkerPC) { !p.Lock? && !p.Recheck? && !p.RecheckDown? && !p.Asleep? }

  /** Without condvars nobody ever sleeps. */
  ghost predicate Awake(s: State) { forall i :: 0 <= i < |s.workers| ==> Sleepless(s.workers[i].pc) }

  lemma StepAwake(c: Config, s: State, a: Act)
    requires Shape(c, s) && !c.cvs && Awake(s)
    ensures Awake(Step(c, s, a))
  {
    if a.Work? && a.i < |s.workers| { WorkerFrame(c, s, a.i); }
  }

  lemma {:induction false} StaysAwake(c: Config, s: State, sched: seq<Act>)
    requires Shape(c, s) && !c.cvs && Awake(s)
    ensures Awake(Run(c, s, sched))
    decreases |sched|
  {
    if sched != [] {
      var r := Step(c, s, sched[0]);
      StepAwake(c, s, sched[0]);
      StaysAwake(c, r, sched[1..]);
    }
  }

  lemma SteadyHeard(c: Config, poll: nat, h: seq<nat>, sched: seq<Act>)
    requires c.n >= 2 && poll <= 100 && (c.cvs ==> Steady(poll < 100, h)) && Polls(c, Init(c, poll), sched) <= h
    ensures Heard(Run(c, Init(c, poll), sched))
  {
    var s := Init(c, poll);
    if c.cvs {
      SteadyPrefix(poll < 100, Polls(c, s, sched), h);
      SteadyDisciplined(c, s, sched);
      forall i | 0 <= i < c.n - 1
        ensures var r := Run(c, s, sched);
          r.workers[i].pc.Asleep? && (r.workers[i].wakeGen != r.workers[i].myGen || r.shutdown) ==> SignalComing(r.main, i)
      {
        NoLostWakeup(c, poll, sched, i);
      }
    } else {
      StaysAwake(c, s, sched);
    }
  }

  // ---------------------------------------------------------------- building runs

  lemma {:induction false} PollsConcat(c: Config, s: State, a: seq<Act>, b: seq<Act>)
    requires Shape(c, s)
    ensures Run(c, s, a + b) == Run(c, Run(c, s, a), b)
    ensures Polls(c, s, a + b) == Polls(c, s, a) + Polls(c, Run(c, s, a), b)
    decreases |a|
  {
    RunConcat(c, s, a, b);
    if a == [] {
      assert a + b == b;
    } else {
      var r := Step(c, s, a[0]);
      PollsConcat(c, r, a[1..], b);
      assert (a + b)[0] == a[0] && (a + b)[1..] == a[1..] + b;
    }
  }

  lemma RunOne(c: Config, s: State, a: Act)
    requires Shape(c, s)
    ensures Run(c, s, [a]) == Step(c, s, a)
    ensures Polls(c, s, [a]) == if a.SetPoll? && s.main.Idle? then [Step(c, s, a).poll] else []
  { }

  /** One more step of a thread. */
  lemma Extend(c: Config, s: State, sched: seq<Act>, a: Act) returns (more: seq<Act>)
    requires Shape(c, s) && !a.SetPoll?
    ensures Run(c, s, more) == Step(c, Run(c, s, sched), a) && Polls(c, s, more) == Polls(c, s, sched)
  {
    more := sched + [a];
    PollsConcat(c, s, sched, [a]);
    RunOne(c, Run(c, s, sched), a);
  }

  predicate Values(h: seq<nat>) { forall k :: 0 <= k < |h| ==> h[k] <= 100 }

  /** Setting the intensities `h` one after the other. */
  lemma {:induction false} SetPolls(c: Config, s: State, h: seq<nat>) returns (sched: seq<Act>)
    requires Shape(c, s) && s.main.Idle? && Values(h)
    ensures var r := Run(c, s, sched);
            r == s.(poll := r.poll, everLow := r.everLow) && r.poll == if h == [] then s.poll else h[|h| - 1]
    ensures Polls(c, s, sched) == h
    decreases |h|
  {
    sched := [];
    if h != [] {
      var r := Step(c, s, SetPoll(h[0]));
      var rest := SetPolls(c, r, h[1..]);
      sched := [SetPoll(h[0])] + rest;
      assert sched[1..] == rest && h == [h[0]] + h[1..];
    }
  }

  // ---------------------------------------------------------------- falling asleep

  /** The first worker in its first wait, everything else as in `s`. */
  function Falling(s: State, w: Worker): State
    requires |s.workers| > 0
  {
    s.(workers := s.workers[0 := w])
  }

  predicate BeforeCalls(c: Config, s: State) {
    Shape(c, s) && s.main.Idle? && !s.shutdown
  }

  lemma FallsTo(c: Config, s: State, sched: seq<Act>, w: Worker, v: Worker) returns (more: seq<Act>)
    requires BeforeCalls(c, s) && Run(c, s, sched) == Falling(s, w) && Polls(c, s, sched) == []
    requires WorkerStep(c, Falling(s, w), 0) == Falling(s, v)
    ensures Run(c, s, more) == Falling(s, v) && Polls(c, s, more) == []
  {
    more := Extend(c, s, sched, Work(0));
  }

  lemma {:induction false} Spins(c: Config, s: State, k: nat) returns (sched: seq<Act>)
    requires BeforeCalls(c, s) && s.workers[0].pc.Start? && s.workers[0].wakeGen == s.workers[0].myGen
    requires k <= s.poll * SPINS_PER_POLL
    ensures Run(c, s, sched) == Falling(s, s.workers[0].(pc := Check, poll := s.poll, spins := k)) && Polls(c, s, sched) == []
  {
    var w := s.workers[0].(poll := s.poll);
    if k == 0 {
      assert s == Falling(s, s.workers[0]);
      sched := FallsTo(c, s, [], s.workers[0], w.(pc := Check, spins := 0));
    } else {
      sched := Spins(c, s, k - 1);
      sched := FallsTo(c, s, sched, w.(pc := Check, spins := k - 1), w.(pc := CheckDown, spins := k - 1));
      sched := FallsTo(c, s, sched, w.(pc := CheckDown, spins := k - 1), w.(pc := Check, spins := k));
    }
  }

  /** Below 100, a worker with nothing to do spins its budget and goes to sleep. */
  lemma FallAsleep(c: Config, s: State) returns (sched: seq<Act>)
    requires BeforeCalls(c, s) && c.cvs && s.poll < 100 && s.workers[0].pc.Start? && s.workers[0].wakeGen == s.workers[0].myGen
    ensures var w := Run(c, s, sched).workers[0];
      && Run(c, s, sched) == Falling(s, w) && w.pc.Asleep? && w.wakeGen == s.workers[0].wakeGen && w.myGen == s.workers[0].myGen
      && w.lastDone == s.workers[0].lastDone
    ensures Polls(c, s, sched) == []
  {
    var w := s.workers[0].(poll := s.poll, spins := s.poll * SPINS_PER_POLL);
    sched := Spins(c, s, s.poll * SPINS_PER_POLL);
    sched := FallsTo(c, s, sched, w.(pc := Check), w.(pc := CheckDown));
    sched := FallsTo(c, s, sched, w.(pc := CheckDown), w.(pc := Lock));
    sched := FallsTo(c, s, sched, w.(pc := Lock), w.(pc := Recheck));
    sched := FallsTo(c, s, sched, w.(pc := Recheck), w.(pc := RecheckDown));
    sched := FallsTo(c, s, sched, w.(pc := RecheckDown), w.(pc := Asleep));
  }

  // ---------------------------------------------------------------- a call nobody hears

  /** Main is waiting for the first worker, which sleeps although its mailbox holds a new generation. */
  ghost predicate Hangs(c: Config, s: State) {
    && Shape(c, s) && s.main.Collect? && s.main.i == 0 && s.main.call.eff >= 2
    && s.workers[0].pc.Asleep? && s.workers[0].wakeGen != s.workers[0].myGen && s.workers[0].lastDone != s.curGen
  }

  lemma {:induction false} HangsForever(c: Config, s: State, more: seq<Act>)
    requires Hangs(c, s) && OnlyThreads(more)
    ensures Hangs(c, Run(c, s, more)) && Run(c, s, more).main == s.main
    decreases |more|
  {
    if more != [] { HangsForever(c, Step(c, s, more[0]), more[1..]); }
  }

  /** The stations of a call of two threads, with the generation and the first worker's mailbox. */
  function Station(call: Call, k: nat, gen: nat, wake: nat): (MainPC, nat, nat) {
    if k == 0 then (PubFn(call), gen, wake)
    else if k == 1 then (PubArg(call), gen, wake)
    else if k == 2 then (PubN(call), gen, wake)
    else if k == 3 then (Bump(call), gen, wake)
    else if k == 4 then (Wake(call, 0), gen + 1, wake)
    else if k == 5 then (Wake(call, 1), gen + 1, gen + 1)
    else if k == 6 then (RunMain(call), gen + 1, gen + 1)
    else (Collect(call, 0), gen + 1, gen + 1)
  }

  ghost predicate AtStation(c: Config, s: State, r: State, k: nat)
    requires Shape(c, s)
  {
    Shape(c, r) && r.poll == 100
    && (r.main, r.curGen, r.workers[0].wakeGen) == Station(Call(0, 0, 2), k, s.curGen, s.workers[0].wakeGen)
    && r.workers[0] == s.workers[0].(wakeGen := r.workers[0].wakeGen)
  }

  lemma NextStation(c: Config, s: State, r: State, k: nat)
    requires Shape(c, s) && AtStation(c, s, r, k) && k < 7
    ensures AtStation(c, s, Step(c, r, Main), k + 1)
  { }

  lemma {:induction false} ToStation(c: Config, s: State, k: nat) returns (sched: seq<Act>)
    requires BeforeCalls(c, s) && s.poll == 100 && k <= 7
    ensures AtStation(c, s, Run(c, s, sched), k) && Polls(c, s, sched) == []
  {
    if k == 0 {
      sched := Extend(c, s, [], Begin(2, 0, 0));
    } else {
      sched := ToStation(c, s, k - 1);
      NextStation(c, s, Run(c, s, sched), k - 1);
      sched := Extend(c, s, sched, Main);
    }
  }

  /** At intensity 100 a call posts the new generation and does not signal. */
  lemma CallUnheard(c: Config, s: State) returns (sched: seq<Act>)
    requires BeforeCalls(c, s) && s.poll == 100 && s.workers[0].pc.Asleep?
    requires s.workers[0].wakeGen == s.workers[0].myGen == s.workers[0].lastDone <= s.curGen
    ensures Hangs(c, Run(c, s, sched)) && Polls(c, s, sched) == []
  {
    sched := ToStation(c, s, 7);
  }

  /** A history that is not steady sets 100 after a lower value: after `h[i - 1]`, or after the initial one. */
  lemma {:induction false} Relapse(low: bool, h: seq<nat>) returns (i: nat, j: nat)
    requires !Steady(low, h) && Values(h)
    ensures i <= j < |h| && h[j] == 100 && (if i == 0 then low else h[i - 1] < 100)
    decreases |h|
  {
    if low && h[0] == 100 {
      i, j := 0, 0;
    } else {
      i, j := Relapse(low || h[0] < 100, h[1..]);
      i, j := i + 1, j + 1;
    }
  }

  /** From a sleeping worker on: raise the intensity, then call. */
  lemma RaiseAndCall(c: Config, s: State, h: seq<nat>) returns (sched: seq<Act>)
    requires BeforeCalls(c, s) && s.workers[0].pc.Asleep? && Values(h) && h != [] && h[|h| - 1] == 100
    requires s.workers[0].wakeGen == s.workers[0].myGen == s.workers[0].lastDone <= s.curGen
    ensures Hangs(c, Run(c, s, sched)) && Polls(c, s, sched) == h
  {
    var raise := SetPolls(c, s, h);
    var call := CallUnheard(c, Run(c, s, raise));
    PollsConcat(c, s, raise, call);
    sched := raise + call;
  }

  lemma Joined(c: Config, s: State, a: seq<Act>, b: seq<Act>, d: seq<Act>) returns (all: seq<Act>)
    requires Shape(c, s) && Polls(c, Run(c, s, a), b) == []
    ensures var r := Run(c, Run(c, s, a), b);
            Run(c, s, all) == Run(c, r, d) && Polls(c, s, all) == Polls(c, s, a) + Polls(c, r, d)
  {
    var r := Run(c, s, a);
    PollsConcat(c, r, b, d);
    PollsConcat(c, s, a, b + d);
    assert [] + Polls(c, Run(c, r, b), d) == Polls(c, Run(c, r, b), d);
    all := a + (b + d);
  }

  /** For every such history some schedule that goes through a part of it ends in a call that hangs for ever. */
  lemma LostWakeup(c: Config, poll: nat, h: seq<nat>) returns (sched: seq<Act>)
    requires c.n >= 2 && c.cvs && poll <= 100 && Values(h) && !Steady(poll < 100, h)
    ensures Polls(c, Init(c, poll), sched) <= h && Hangs(c, Run(c, Init(c, poll), sched))
    ensures forall more :: OnlyThreads(more) ==> Hangs(c, Run(c, Run(c, Init(c, poll), sched), more))
  {
    var s0 := Init(c, poll);
    var i, j := Relapse(poll < 100, h);
    var lower := SetPolls(c, s0, h[..i]);
    var s1 := Run(c, s0, lower);
    var sleep := FallAsleep(c, s1);
    var rest := RaiseAndCall(c, Run(c, s1, sleep), h[i..j + 1]);
    sched := Joined(c, s0, lower, sleep, rest);
    assert h[..i] + h[i..j + 1] == h[..j + 1];
    forall more | OnlyThreads(more) ensures Hangs(c, Run(c, Run(c, s0, sched), more)) { HangsForever(c, Run(c, s0, sched), more); }
  }

  /**
   * On every schedule whose poll values follow `h`, no wakeup is lost, if and only if there are no
   * condvars or no value below 100 is followed by 100.
   */
  lemma NoLostWakeupIff(c: Config, poll: nat, h: seq<nat>)
    requires c.n >= 2 && poll <= 100 && Values(h)
    ensures (forall sched :: Polls(c, Init(c, poll), sched) <= h ==> Heard(Run(c, Init(c, poll), sched)))
       <==> !c.cvs || Steady(poll < 100, h)
  {
    if !c.cvs || Steady(poll < 100, h) {
      forall sched | Polls(c, Init(c, poll), sched) <= h ensures Heard(Run(c, Init(c, poll), sched)) {
        SteadyHeard(c, poll, h, sched);
      }
    } else {
      var sched := LostWakeup(c, poll, h);
      assert !SignalComing(Run(c, Init(c, poll), sched).main, 0);
    }
  }

  /** What a steady history is: nothing below 100 before 100. */
  lemma {:induction false} SteadyMeans(low: bool, h: seq<nat>)
    requires Values(h)
    ensures Steady(low, h) <==> forall j :: 0 <= j < |h| && h[j] == 100 ==> !low && forall i :: 0 <= i < j ==> h[i] == 100
    decreases |h|
  {
    if h != [] {
      SteadyMeans(low || h[0] < 100, h[1..]);
      var t := h[1..];
      assert forall j :: 0 < j < |h| ==> h[j] == t[j - 1];
    }
  }
}
