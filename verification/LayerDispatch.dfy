/**
 * The parallel layer steps against the plain ones of `Prefill`: the fused dispatch of a decoding step and
 * the channel-sliced scan of a batch compute exactly those, on every schedule.
 */
module LayerDispatch {
  import opened Scan
  import P = Prefill
  import B = ScanBatch
  import F = FusedBlock
  import R = FusedBlockRuns
  import M = FusedMachine

  // ---------------------------------------------------------------- the batch scan

  function BatchConfig(l: P.Layer, r: P.Ring, ps: seq<P.Vec>, n: nat): B.Config {
    B.Config(l.p, ps, n, r.conv, r.ssm, r.pos)
  }

  /** The last token can be taken on its own. */
  lemma {:induction false} ScanSnoc(l: P.Layer, r: P.Ring, ps: seq<P.Vec>, q: P.Vec)
    requires P.Fits(l, r) && P.ProjRows(l, ps) && |q| == l.p.ProjDim() && P.ProjRows(l, ps + [q])
    ensures var s := P.ScanTokens(l, r, ps);
            var t := P.ScanToken(l, s.0, q);
            P.ScanTokens(l, r, ps + [q]) == (t.0, s.1 + [t.1])
    decreases |ps|
  {
    if ps == [] {
      assert [q][1..] == [] && ps + [q] == [q];
      var t := P.ScanToken(l, r, q);
      assert P.ScanTokens(l, t.0, []) == (t.0, []);
      assert P.ScanTokens(l, r, [q]) == (t.0, [t.1] + []);
      assert P.ScanTokens(l, r, ps) == (r, []) && [t.1] + [] == [] + [t.1];
    } else {
      var h := P.ScanToken(l, r, ps[0]);
      assert (ps + [q])[1..] == ps[1..] + [q];
      ScanSnoc(l, h.0, ps[1..], q);
      var s := P.ScanTokens(l, h.0, ps[1..]);
      var t := P.ScanToken(l, s.0, q);
      assert [h.1] + (s.1 + [t.1]) == [h.1] + s.1 + [t.1];
    }
  }

  /** `k` tokens of sequential stepping, in both formulations. */
  ghost predicate Agrees(l: P.Layer, r: P.Ring, ps: seq<P.Vec>, n: nat, k: nat)
    requires P.Fits(l, r) && P.ProjRows(l, ps) && n >= 1 && k <= |ps| && BatchConfig(l, r, ps, n).Valid()
  {
    var s, t := B.Sequential(BatchConfig(l, r, ps, n), k), P.ScanTokens(l, r, ps[..k]);
    t.0 == P.Ring(s.conv, s.ssm, PosAfter(r.pos, k)) && t.1 == s.y[..k]
  }

  lemma AgreesNext(l: P.Layer, r: P.Ring, ps: seq<P.Vec>, n: nat, k: nat)
    requires P.Fits(l, r) && P.ProjRows(l, ps) && n >= 1 && k < |ps| && BatchConfig(l, r, ps, n).Valid() && Agrees(l, r, ps, n, k)
    ensures Agrees(l, r, ps, n, k + 1)
  {
    var c := BatchConfig(l, r, ps, n);
    var s, pos := B.Sequential(c, k), PosAfter(r.pos, k);
    var d := l.p.dInner;
    assert ps[..k + 1] == ps[..k] + [ps[k]];
    ScanSnoc(l, r, ps[..k], ps[k]);
    OutputOverwritten(l.p, ps[k], SlotsAt(d, pos, 0), Bufs(s.conv, s.ssm, s.y[k]), seq(d, _ => 0.0));
  }

  lemma {:induction false} SequentialIsScanTokens(l: P.Layer, r: P.Ring, ps: seq<P.Vec>, n: nat, k: nat)
    requires P.Fits(l, r) && P.ProjRows(l, ps) && n >= 1 && k <= |ps| && BatchConfig(l, r, ps, n).Valid()
    ensures Agrees(l, r, ps, n, k)
  {
    if k == 0 { assert ps[..0] == []; }
    else {
      SequentialIsScanTokens(l, r, ps, n, k - 1);
      AgreesNext(l, r, ps, n, k - 1);
    }
  }

  /** On every complete schedule the batch scan leaves the ring and the outputs of `Prefill.ScanTokens`. */
  lemma BatchScanIsScanTokens(l: P.Layer, r: P.Ring, ps: seq<P.Vec>, n: nat, sched: seq<nat>)
    requires P.Fits(l, r) && P.ProjRows(l, ps) && n >= 1 && BatchConfig(l, r, ps, n).Valid()
    requires B.Schedule(BatchConfig(l, r, ps, n), sched)
    requires var c := BatchConfig(l, r, ps, n); B.AllDone(c, B.Run(c, B.Init(c), sched))
    ensures var c := BatchConfig(l, r, ps, n);
            var s := B.Run(c, B.Init(c), sched);
            P.ScanTokens(l, r, ps) == (P.Ring(s.conv, s.ssm, (r.pos + |ps|) % TAPS), s.y)
  {
    var c := BatchConfig(l, r, ps, n);
    B.BatchIsSequential(c, sched);
    WholeSequential(l, r, ps, n);
  }

  lemma WholeSequential(l: P.Layer, r: P.Ring, ps: seq<P.Vec>, n: nat)
    requires P.Fits(l, r) && P.ProjRows(l, ps) && n >= 1 && BatchConfig(l, r, ps, n).Valid()
    ensures var q := B.Sequential(BatchConfig(l, r, ps, n), |ps|);
            P.ScanTokens(l, r, ps) == (P.Ring(q.conv, q.ssm, PosAfter(r.pos, |ps|)), q.y)
  {
    SequentialIsScanTokens(l, r, ps, n, |ps|);
    assert ps[..|ps|] == ps;
    var q := B.Sequential(BatchConfig(l, r, ps, n), |ps|);
    assert q.y[..|ps|] == q.y;
  }

  // ---------------------------------------------------------------- the fused step

  /** The quantized scan output, element by element. */
  function Quantized(l: F.Layer, y: P.Vec): seq<int> {
    seq(l.p.dInner, (j: nat) => l.quantAt(y, j))
  }

  /** The plain layer: quantize and multiply, around the block. */
  function Plain(l: F.Layer, quantIn: P.Vec -> seq<int>): P.Layer {
    P.Layer(l.p, (u: P.Vec, x: nat) => l.inRow(quantIn(u), x),
            (y: P.Vec, x: nat) => l.outRow(Quantized(l, y), l.scaleOf(y), x))
  }

  /** What the dispatch starts from: the quantized input in the buffer, ring and states of the block. */
  ghost predicate Starts(c: F.Config, quantIn: P.Vec -> seq<int>, r: P.Ring, u: P.Vec) {
    && c.Valid() && P.Fits(Plain(c.l, quantIn), r) && c.pos == r.pos && c.mem.bufs.conv == r.conv && c.mem.bufs.ssm == r.ssm
    && F.Input(c) == quantIn(u) && c.l.outRows == |u|
  }

  lemma SameProjection(c: F.Config, quantIn: P.Vec -> seq<int>, r: P.Ring, u: P.Vec)
    requires Starts(c, quantIn, r, u)
    ensures F.FinalProj(c) == P.InProj(Plain(c.l, quantIn), u)
  { }

  lemma SameScan(c: F.Config, quantIn: P.Vec -> seq<int>, r: P.Ring, u: P.Vec)
    requires Starts(c, quantIn, r, u)
    ensures var l := Plain(c.l, quantIn);
            var b := F.FinalBufs(c);
            P.ScanToken(l, r, P.InProj(l, u)) == (P.Ring(b.conv, b.ssm, NextPos(r.pos)), b.y)
  {
    SameProjection(c, quantIn, r, u);
    OutputOverwritten(c.l.p, F.FinalProj(c), c.O(), c.mem.bufs, seq(c.l.p.dInner, _ => 0.0));
  }

  lemma SameOutput(c: F.Config, quantIn: P.Vec -> seq<int>, r: P.Ring, u: P.Vec)
    requires Starts(c, quantIn, r, u)
    ensures F.FinalOut(c) == P.OutProj(Plain(c.l, quantIn), F.FinalBufs(c).y, |u|)
  {
    var l, y := Plain(c.l, quantIn), F.FinalBufs(c).y;
    assert F.FinalQuant(c)[..c.l.p.dInner] == Quantized(c.l, y);
    forall x: nat | x < |u| ensures F.FinalOut(c)[x] == P.OutProj(l, y, |u|)[x] {
      assert P.OutProj(l, y, |u|)[x] == l.outRow(y, x) == c.l.outRow(Quantized(c.l, y), c.l.scaleOf(y), x);
      assert F.FinalOut(c)[x] == c.l.outRow(F.FinalQuant(c)[..c.l.p.dInner], F.FinalInv(c), x);
    }
  }

  /** On every complete schedule, on the real barrier, the fused dispatch and the residual are the plain layer step. */
  lemma FusedIsLayerStep(c: F.Config, caps: seq<nat>, quantIn: P.Vec -> seq<int>, r: P.Ring, u: P.Vec, sched: seq<nat>)
    requires Starts(c, quantIn, r, u) && M.OnMachine(c, caps) && M.Provided(caps, c.n)
    requires R.Schedule(c, sched) && R.AllReturned(c, M.Reach(c, caps, sched).work)
    ensures var m := M.Reach(c, caps, sched).work.mem;
            && |m.out| == |u|
            && P.LayerStep(Plain(c.l, quantIn), r, u) == (P.Ring(m.bufs.conv, m.bufs.ssm, NextPos(r.pos)), P.Add(u, m.out))
  {
    M.FusedIsSequential(c, caps, sched);
    SameScan(c, quantIn, r, u);
    SameOutput(c, quantIn, r, u);
  }
}
