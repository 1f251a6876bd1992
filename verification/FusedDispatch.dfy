/**
 * The fused layer step on the real barrier: one state holds the shared memory of the phases and the
 * counters of the two-level barrier, and a step of a thread inside a wait is one atomic operation of
 * that wait.
 */
module FusedDispatch {
  import F = FusedBlock
  import R = FusedBlockRuns
  import B = Barrier
  import P = BarrierProgress
  import Spec = BarrierSpec
  import WorkRange
  import opened NumaPlacement

  datatype State = State(work: F.State, bar: B.State)

  predicate Shape(c: F.Config, d: B.Config, s: State) { F.Shape(c, s.work) && B.Shape(d, s.bar) && c.n == d.n }

  function Init(c: F.Config, d: B.Config): (s: State)
    requires c.Valid() && d.WellFormed() && c.n == d.n
    ensures Shape(c, d, s)
  {
    State(F.Init(c), B.Init(d))
  }

  /** A row, a channel, an element or a claim; inside a wait, an atomic operation of the barrier. */
  function Step(c: F.Config, d: B.Config, s: State, t: nat): (r: State)
    requires Shape(c, d, s) && t < c.n
    ensures Shape(c, d, r)
  {
    if F.AtBarrier(s.work, t) then
      var b := B.Step(d, s.bar, t);
      State(if b.done[t] > s.bar.done[t] then F.Advance(c, s.work, t) else s.work, b)
    else s.(work := F.PhaseStep(c, s.work, t))
  }

  function Run(c: F.Config, d: B.Config, s: State, sched: seq<nat>): (r: State)
    requires Shape(c, d, s) && R.Schedule(c, sched)
    ensures Shape(c, d, r)
    decreases |sched|
  {
    if sched == [] then s else Run(c, d, Step(c, d, s, sched[0]), sched[1..])
  }

  // ---------------------------------------------------------------- simulation by the guarded dispatch

  /** A thread that has called the wait but is not counted yet still looks as if in the phase before. */
  function SeenStage(c: F.Config, d: B.Config, s: State, t: nat): nat
    requires Shape(c, d, s) && t < c.n
  {
    if F.AtBarrier(s.work, t) && !B.Arrived(s.bar.pc[t]) then s.work.stage[t] - 1 else s.work.stage[t]
  }

  function Seen(c: F.Config, d: B.Config, s: State): (w: F.State)
    requires Shape(c, d, s)
    ensures F.Shape(c, w)
  {
    s.work.(stage := seq(c.n, (t: nat) requires Shape(c, d, s) && t < c.n => SeenStage(c, d, s, t)))
  }

  /** `t` has nothing left to do in phase `g`. */
  predicate PhaseOver(c: F.Config, w: F.State, t: nat, g: nat)
    requires F.Shape(c, w) && t < c.n
  {
    && (g == F.IN_PROJ ==> w.c1.pc[t].Done?)
    && (g == F.SCAN ==> w.idx[t] >= F.Hi(c, t))
    && (g == F.PREPARE && t == 0 ==> w.prepped > c.l.p.dInner)
  }

  ghost predicate ThreadLink(c: F.Config, d: B.Config, s: State, t: nat)
    requires Shape(c, d, s) && t < c.n
  {
    var g := s.work.stage[t];
    && g <= F.RETURNED && s.bar.done[t] == F.Departures(g)
    && if F.AtBarrier(s.work, t) then PhaseOver(c, s.work, t, g - 1) else s.bar.pc[t].Idle?
  }

  ghost predicate Linked(c: F.Config, d: B.Config, s: State)
    requires Shape(c, d, s)
  {
    forall t :: 0 <= t < c.n ==> ThreadLink(c, d, s, t)
  }

  ghost predicate Inv(c: F.Config, d: B.Config, s: State) {
    Shape(c, d, s) && B.Inv(d, s.bar) && Linked(c, d, s) && F.Inv(c, Seen(c, d, s))
  }

  /** The stages agree with what the barrier has counted. */
  lemma SameSync(c: F.Config, d: B.Config, s: State)
    requires Shape(c, d, s) && Linked(c, d, s)
    ensures F.AbsSync(Seen(c, d, s).stage) == P.Abs(d, s.bar)
  {
    var g, a := Seen(c, d, s).stage, P.Abs(d, s.bar);
    forall t | 0 <= t < c.n
      ensures F.Arrivals(g[t]) == a.arrivals[t] && F.Departures(g[t]) == a.departures[t]
    {
      assert ThreadLink(c, d, s, t) && g[t] == SeenStage(c, d, s, t);
    }
  }

  /** A phase step looks at no stage but its own. */
  lemma PhaseLocal(c: F.Config, w: F.State, v: F.State, t: nat)
    requires F.Shape(c, w) && F.Shape(c, v) && t < c.n && v == w.(stage := v.stage) && v.stage[t] == w.stage[t]
    ensures var r := F.PhaseStep(c, w, t);
            if r.stage == w.stage then F.PhaseStep(c, v, t) == r.(stage := v.stage)
            else r == F.Advance(c, w, t) && F.PhaseStep(c, v, t) == F.Advance(c, v, t)
  { }

  lemma PhaseSimulates(c: F.Config, d: B.Config, s: State, t: nat)
    requires Shape(c, d, s) && Linked(c, d, s) && t < c.n && !F.AtBarrier(s.work, t)
    ensures var v := Seen(c, d, Step(c, d, s, t));
            v == Seen(c, d, s) || v == F.Step(c, Seen(c, d, s), t)
  {
    var w, v, r := s.work, Seen(c, d, s), Step(c, d, s, t);
    assert ThreadLink(c, d, s, t) && v.stage[t] == SeenStage(c, d, s, t);
    PhaseLocal(c, w, v, t);
    if r.work.stage == w.stage {
      assert Seen(c, d, r).stage == v.stage;
    } else {
      assert Seen(c, d, r).stage == if w.stage[t] == F.OUT_PROJ then v.stage[t := F.RETURNED] else v.stage;
    }
  }

  /** An operation of the wait moves nobody else, and an arrival is not taken back before the return. */
  lemma WaitStep(d: B.Config, b: B.State, t: nat)
    requires B.Shape(d, b) && t < d.n
    ensures var r := B.Step(d, b, t);
      && r.pc == b.pc[t := r.pc[t]]
      && if r.done[t] > b.done[t] then r.done == b.done[t := b.done[t] + 1] && r.pc[t].Idle? && B.Arrived(b.pc[t])
         else r.done == b.done && (B.Arrived(b.pc[t]) ==> B.Arrived(r.pc[t]))
  { }

  /** A counted arrival ends the phase; a return is one the guard allows. */
  lemma WaitSimulates(c: F.Config, d: B.Config, s: State, t: nat)
    requires Inv(c, d, s) && B.Exact(d) && t < c.n && F.AtBarrier(s.work, t)
    ensures var v := Seen(c, d, Step(c, d, s, t));
            v == Seen(c, d, s) || v == F.Step(c, Seen(c, d, s), t)
  {
    var v, r := Seen(c, d, s), Step(c, d, s, t);
    var b := r.bar;
    WaitStep(d, s.bar, t);
    WaitSeen(c, d, s, t);
    assert ThreadLink(c, d, s, t) && v.stage[t] == SeenStage(c, d, s, t);
    if b.done[t] > s.bar.done[t] {
      ReturnIsOpen(c, d, s, t);
    } else if B.Arrived(b.pc[t]) && !B.Arrived(s.bar.pc[t]) {
      OverAdvances(c, v, t);
    }
  }

  lemma WaitSeenAt(c: F.Config, d: B.Config, s: State, t: nat, u: nat)
    requires Shape(c, d, s) && t < c.n && u < c.n && F.AtBarrier(s.work, t)
    ensures var r := Step(c, d, s, t);
            var gone := r.bar.done[t] > s.bar.done[t] || (B.Arrived(r.bar.pc[t]) && !B.Arrived(s.bar.pc[t]));
            SeenStage(c, d, r, u) == if gone && u == t then SeenStage(c, d, s, u) + 1 else SeenStage(c, d, s, u)
  {
    WaitStep(d, s.bar, t);
  }

  lemma WaitSeen(c: F.Config, d: B.Config, s: State, t: nat)
    requires Shape(c, d, s) && t < c.n && F.AtBarrier(s.work, t)
    ensures var v, r := Seen(c, d, s), Step(c, d, s, t);
            var gone := r.bar.done[t] > s.bar.done[t] || (B.Arrived(r.bar.pc[t]) && !B.Arrived(s.bar.pc[t]));
            Seen(c, d, r) == if gone then F.Advance(c, v, t) else v
  {
    var v, r := Seen(c, d, s), Step(c, d, s, t);
    WaitStep(d, s.bar, t);
    var gone := r.bar.done[t] > s.bar.done[t] || (B.Arrived(r.bar.pc[t]) && !B.Arrived(s.bar.pc[t]));
    forall u: nat | u < c.n
      ensures SeenStage(c, d, r, u) == if gone && u == t then SeenStage(c, d, s, u) + 1 else SeenStage(c, d, s, u)
    {
      WaitSeenAt(c, d, s, t, u);
    }
    assert Seen(c, d, r).stage == if gone then v.stage[t := v.stage[t] + 1] else v.stage;
  }

  lemma OverAdvances(c: F.Config, w: F.State, t: nat)
    requires F.Shape(c, w) && t < c.n && w.stage[t] in {F.IN_PROJ, F.SCAN, F.PREPARE} && PhaseOver(c, w, t, w.stage[t])
    ensures F.Step(c, w, t) == F.Advance(c, w, t)
  { }

  lemma ReturnIsOpen(c: F.Config, d: B.Config, s: State, t: nat)
    requires Inv(c, d, s) && B.Exact(d) && t < c.n && F.AtBarrier(s.work, t)
    requires B.Step(d, s.bar, t).done[t] > s.bar.done[t]
    ensures F.AtBarrier(Seen(c, d, s), t) && F.Open(Seen(c, d, s), t)
  {
    var v := Seen(c, d, s);
    SameSync(c, d, s);
    P.RefinesSpec(d, s.bar, t);
    var b := P.Abs(d, B.Step(d, s.bar, t));
    assert b.departures[t] > P.Abs(d, s.bar).departures[t];
    assert Spec.Leave(c.n, F.AbsSync(v.stage), b, t);
    assert v.stage[t] == SeenStage(c, d, s, t);
    F.LeaveIsOpen(c, v, t, b);
  }

  lemma StepLinks(c: F.Config, d: B.Config, s: State, t: nat, u: nat)
    requires Shape(c, d, s) && Linked(c, d, s) && t < c.n && u < c.n
    ensures ThreadLink(c, d, Step(c, d, s, t), u)
  {
    assert ThreadLink(c, d, s, t) && ThreadLink(c, d, s, u);
    if F.AtBarrier(s.work, t) { WaitStep(d, s.bar, t); } else { PhaseEnds(c, s.work, t); if u != t { PhaseStays(c, s.work, t, u); } }
  }

  /** A phase step ends its phase only when it is over. */
  lemma PhaseEnds(c: F.Config, w: F.State, t: nat)
    requires F.Shape(c, w) && t < c.n && w.stage[t] <= F.RETURNED && !F.AtBarrier(w, t)
    ensures var r := F.PhaseStep(c, w, t);
            r.stage == w.stage || (r == F.Advance(c, w, t) && PhaseOver(c, w, t, w.stage[t]) && w.stage[t] < F.RETURNED)
  {
    if w.stage[t] == F.SCAN { WorkRange.Within(t, c.n, c.l.p.dInner); }
  }

  /** A phase step leaves the other threads' cursors alone. */
  lemma PhaseStays(c: F.Config, w: F.State, t: nat, u: nat)
    requires F.Shape(c, w) && t < c.n && u < c.n && u != t
    ensures var r := F.PhaseStep(c, w, t);
            r.c1.pc[u] == w.c1.pc[u] && r.idx[u] == w.idx[u] && (u == 0 ==> r.prepped == w.prepped)
  {
    F.StepRuns(F.InRows(c), w.c1, t);
  }

  lemma InitInv(c: F.Config, d: B.Config)
    requires c.Valid() && B.Exact(d) && c.n == d.n
    ensures Inv(c, d, Init(c, d))
  {
    F.InitInv(c);
    B.InitInv(d);
    assert Seen(c, d, Init(c, d)).stage == F.Init(c).stage;
  }

  /** Every step on the real barrier is a step of the guarded dispatch, or invisible to it. */
  lemma StepInv(c: F.Config, d: B.Config, s: State, t: nat)
    requires Inv(c, d, s) && B.Exact(d) && t < c.n
    ensures Inv(c, d, Step(c, d, s, t))
    ensures var v := Seen(c, d, Step(c, d, s, t));
            v == Seen(c, d, s) || v == F.Step(c, Seen(c, d, s), t)
  {
    var r := Step(c, d, s, t);
    if F.AtBarrier(s.work, t) {
      WaitSimulates(c, d, s, t);
      B.StepInv(d, s.bar, t);
    } else {
      PhaseSimulates(c, d, s, t);
    }
    forall u | 0 <= u < c.n ensures ThreadLink(c, d, r, u) { StepLinks(c, d, s, t, u); }
    F.StepInv(c, Seen(c, d, s), t);
  }

  lemma {:induction false} RunInv(c: F.Config, d: B.Config, s: State, sched: seq<nat>)
    requires Inv(c, d, s) && B.Exact(d) && R.Schedule(c, sched)
    ensures Inv(c, d, Run(c, d, s, sched))
    decreases |sched|
  {
    if sched != [] {
      StepInv(c, d, s, sched[0]);
      RunInv(c, d, Step(c, d, s, sched[0]), sched[1..]);
    }
  }
}
