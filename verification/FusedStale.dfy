/**
 * What the race costs: a thread without a CPU lets thread 0 scan a projection whose later rows are
 * stale, and the channel keeps the wrong value on every continuation.
 */
module FusedStale {
  import opened Scan
  import F = FusedBlock
  import R = FusedBlockRuns
  import B = Barrier
  import WS = WorkSteal
  import WorkRange
  import opened NumaPlacement
  import opened FusedDispatch
  import opened FusedMachine

  /** The projection when only the threads below `m` have written their rows. */
  function Stale(c: F.Config, m: nat): (r: seq<real>)
    requires c.Valid()
    ensures |r| == c.l.p.ProjDim()
  {
    seq(c.l.p.ProjDim(), (y: nat) requires c.Valid() && y < c.l.p.ProjDim() =>
      if y < WS.Lo(F.InRows(c), m) then F.FinalProj(c)[y] else c.mem.proj[y])
  }

  /** State and output of channel 0 from a projection. */
  function Channel0(c: F.Config, proj: seq<real>): (real, real)
    requires c.Valid() && c.l.p.dInner > 0
  {
    c.l.p.Channel(proj, 0, WindowAt(c.l.p, c.O(), c.mem.bufs, 0), c.mem.bufs.ssm[0])
  }

  lemma SequentialChannel0(c: F.Config)
    requires c.Valid() && c.l.p.dInner > 0
    ensures (F.FinalBufs(c).ssm[0], F.FinalBufs(c).y[0]) == Channel0(c, F.FinalProj(c))
  {
    ScanRangeMeaning(c.l.p, F.FinalProj(c), c.O(), c.mem.bufs, 0, c.l.p.dInner);
  }

  /** Row `y` lies below the rows of thread `m` exactly if its owner does. */
  lemma Below(c: F.Config, m: nat, p: nat, y: nat)
    requires c.Valid() && !c.steal && m < c.n && p < c.n && WS.InPiece(F.InRows(c), p, y)
    ensures y < WS.Lo(F.InRows(c), m) <==> p < m
  {
    if p < m { WorkRange.Ordered(p, m, c.n, c.l.p.ProjDim()); }
    if m < p {
      WorkRange.Ordered(m, p, c.n, c.l.p.ProjDim());
      WorkRange.Adjacent(m, c.n, c.l.p.ProjDim());
    }
  }

  lemma RunsOfRow(c: F.Config, s: State, m: nat, x: nat, y: nat)
    requires c.Valid() && !c.steal && F.Shape(c, s.work) && ScansUnwritten(c, s, m, x) && y < c.l.p.ProjDim()
    ensures s.work.c1.runs[y] == if y < WS.Lo(F.InRows(c), m) then 1 else 0
  {
    var w, k := F.InRows(c), s.work.c1;
    var p := WS.PieceOf(w, y);
    Below(c, m, p, y);
    assert WS.RowInv(w, k, p, y);
    if p < m {
      assert !WS.Held(k, p) by { forall t | 0 <= t < c.n ensures !WS.Holds(k.pc[t], p) { } }
    } else {
      assert WS.Holds(k.pc[p], p);
    }
  }

  /** What thread 0 finds is exactly the stale projection. */
  lemma FindsStale(c: F.Config, s: State, m: nat, x: nat)
    requires c.Valid() && !c.steal && F.Shape(c, s.work) && ScansUnwritten(c, s, m, x)
    ensures s.work.mem.proj == Stale(c, m)
  {
    forall y | 0 <= y < c.l.p.ProjDim() ensures s.work.mem.proj[y] == Stale(c, m)[y] { RunsOfRow(c, s, m, x, y); }
  }

  /** Channel 0 has been scanned, with result `v`, and nobody will scan it again. */
  ghost predicate Scanned0(c: F.Config, d: B.Config, s: State, v: (real, real)) {
    && Shape(c, d, s) && c.l.p.dInner > 0 && (s.work.mem.bufs.ssm[0], s.work.mem.bufs.y[0]) == v
    && s.work.stage[0] >= F.SCAN && forall t :: 0 <= t < c.n ==> s.work.idx[t] >= 1
  }

  lemma OtherRangesLater(c: F.Config, t: nat)
    requires c.Valid() && 0 < t < c.n && c.l.p.dInner > 0
    ensures F.Lo(c, t) >= 1
  {
    HasWork(0, c.n, c.l.p.dInner);
    WorkRange.Ordered(0, t, c.n, c.l.p.dInner);
  }

  /** Thread 0's scan of the stale projection. */
  lemma ScanStale(c: F.Config, d: B.Config, s: State, m: nat, x: nat)
    requires c.Valid() && !c.steal && Shape(c, d, s) && ScansUnwritten(c, s, m, x)
    ensures Scanned0(c, d, Step(c, d, s, 0), Channel0(c, Stale(c, m)))
  {
    FindsStale(c, s, m, x);
    F.ScanStepEffect(c, s.work, 0);
    forall t | 0 < t < c.n ensures F.Lo(c, t) >= 1 { OtherRangesLater(c, t); }
  }

  lemma StepKeeps0(c: F.Config, d: B.Config, s: State, v: (real, real), t: nat)
    requires Scanned0(c, d, s, v) && t < c.n
    ensures Scanned0(c, d, Step(c, d, s, t), v)
  { }

  lemma {:induction false} RunKeeps0(c: F.Config, d: B.Config, s: State, v: (real, real), sched: seq<nat>)
    requires Scanned0(c, d, s, v) && R.Schedule(c, sched)
    ensures Scanned0(c, d, Run(c, d, s, sched), v)
    decreases |sched|
  {
    if sched != [] {
      StepKeeps0(c, d, s, v, sched[0]);
      RunKeeps0(c, d, Step(c, d, s, sched[0]), v, sched[1..]);
    }
  }

  /**
   * With several nodes and a thread that has no CPU but has a row of in_proj: a schedule after which
   * channel 0 is the stale one, whatever happens afterwards.
   */
  lemma StaysStale(c: F.Config, caps: seq<nat>) returns (sched: seq<nat>)
    requires OnMachine(c, caps) && !Provided(caps, c.n) && !c.steal && c.l.p.dInner > 0 && TotalCpus(caps) < c.l.p.ProjDim()
    ensures R.Schedule(c, sched)
    ensures forall more :: R.Schedule(c, more) ==>
      Scanned0(c, Bar(c, caps), Run(c, Bar(c, caps), Reach(c, caps, sched), more), Channel0(c, Stale(c, TotalCpus(caps))))
  {
    var m, d, pre, x := TotalCpus(caps), Bar(c, caps), [], 0;
    pre, x := Unprovided(c, caps);
    ScanStale(c, d, Reach(c, caps, pre), m, x);
    RunConcat(c, d, Init(c, d), pre, [0]);
    RunCons(c, d, Reach(c, caps, pre), 0, []);
    sched := pre + [0];
    forall more | R.Schedule(c, more) ensures Scanned0(c, d, Run(c, d, Reach(c, caps, sched), more), Channel0(c, Stale(c, m))) {
      RunKeeps0(c, d, Reach(c, caps, sched), Channel0(c, Stale(c, m)), more);
    }
  }

  // ---------------------------------------------------------------- when every scanned channel is right

  /** Every channel a thread is through with has its sequential state and output. */
  ghost predicate ScannedRight(c: F.Config, w: F.State)
    requires F.Shape(c, w)
  {
    forall t: nat, i: nat :: t < c.n && i < c.l.p.dInner && F.Owns(c, t, i) && F.Through(w.stage, w.idx, t, i) ==>
      w.mem.bufs.ssm[i] == F.FinalBufs(c).ssm[i] && w.mem.bufs.y[i] == F.FinalBufs(c).y[i]
  }

  /** Behind guarded barriers a scanned channel is the sequential one. */
  lemma SeenRight(c: F.Config, v: F.State, t: nat, i: nat)
    requires F.Inv(c, v) && t < c.n && i < c.l.p.dInner && F.Owns(c, t, i) && F.Through(v.stage, v.idx, t, i)
    ensures v.mem.bufs.ssm[i] == F.FinalBufs(c).ssm[i] && v.mem.bufs.y[i] == F.FinalBufs(c).y[i]
  {
    assert F.SameAt(c.l, c.O(), v.mem.bufs, F.FinalBufs(c), i);
  }

  lemma InvScannedRight(c: F.Config, d: B.Config, s: State)
    requires Inv(c, d, s)
    ensures ScannedRight(c, s.work)
  {
    var v := Seen(c, d, s);
    forall t: nat, i: nat | t < c.n && i < c.l.p.dInner && F.Owns(c, t, i) && F.Through(s.work.stage, s.work.idx, t, i)
      ensures s.work.mem.bufs.ssm[i] == F.FinalBufs(c).ssm[i] && s.work.mem.bufs.y[i] == F.FinalBufs(c).y[i]
    {
      assert ThreadLink(c, d, s, t) && v.stage[t] == SeenStage(c, d, s, t);
      SeenRight(c, v, t, i);
    }
  }

  /**
   * For a layer whose first channel feels the rows of the threads without a CPU: on every run all scanned
   * channels are the sequential ones, exactly when the machine has a CPU for every thread or a single node.
   */
  lemma ScannedRightIff(c: F.Config, caps: seq<nat>)
    requires OnMachine(c, caps) && (c.steal ==> |caps| == 1) && c.l.p.dInner > 0
    requires !Provided(caps, c.n) ==> TotalCpus(caps) < c.l.p.ProjDim() && Channel0(c, Stale(c, TotalCpus(caps))) != Channel0(c, F.FinalProj(c))
    ensures (forall sched :: R.Schedule(c, sched) ==> ScannedRight(c, Reach(c, caps, sched).work)) <==> Provided(caps, c.n)
  {
    if Provided(caps, c.n) {
      forall sched | R.Schedule(c, sched) ensures ScannedRight(c, Reach(c, caps, sched).work) {
        ReachInv(c, caps, sched);
        InvScannedRight(c, Bar(c, caps), Reach(c, caps, sched));
      }
    } else {
      var sched := StaysStale(c, caps);
      var s := Run(c, Bar(c, caps), Reach(c, caps, sched), []);
      assert R.Schedule(c, []) && s == Reach(c, caps, sched);
      NotRight(c, Bar(c, caps), s, Channel0(c, Stale(c, TotalCpus(caps))));
    }
  }

  lemma NotRight(c: F.Config, d: B.Config, s: State, v: (real, real))
    requires Scanned0(c, d, s, v) && v != Channel0(c, F.FinalProj(c))
    ensures !ScannedRight(c, s.work)
  {
    SequentialChannel0(c);
    HasWork(0, c.n, c.l.p.dInner);
    WorkRange.Adjacent(0, c.n, c.l.p.dInner);
    assert F.Owns(c, 0, 0) && F.Through(s.work.stage, s.work.idx, 0, 0);
  }
}
