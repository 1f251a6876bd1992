/**
 * One fused layer step: in_proj rows, scan, quantization of the scan output by thread 0, out_proj
 * rows, inside a single dispatch with three barriers. A transition is one row, one channel, one
 * quantized element, one claim or one barrier event.
 */
module FusedBlock {
  import opened Scan
  import WorkRange
  import WS = WorkSteal
  import Spec = BarrierSpec

  /**
   * The arithmetic of one layer, as arbitrary deterministic functions: a row of in_proj from the quantized
   * input, element and scale of the quantized scan output, a row of out_proj from both.
   */
  datatype Layer = Layer(p: Kernel, inCols: nat, outRows: nat,
                         inRow: (seq<int>, nat) -> real,
                         quantAt: (seq<real>, nat) -> int,
                         scaleOf: seq<real> -> real,
                         outRow: (seq<int>, real, nat) -> real)

  /** The memory the phases share; `quant` first holds the quantized input, later the quantized scan output. */
  datatype Mem = Mem(quant: seq<int>, proj: seq<real>, bufs: Bufs, inv: real, out: seq<real>)

  datatype Config = Config(l: Layer, n: nat, steal: bool, pos: nat, mem: Mem)
  {
    predicate Valid() { n >= 1 && pos < TAPS && Fits(l, mem) }

    function O(): Slots requires pos < TAPS { SlotsAt(l.p.dInner, pos, 0) }
  }

  predicate Fits(l: Layer, m: Mem) {
    && l.inCols <= |m.quant| && l.p.dInner <= |m.quant| && |m.proj| == l.p.ProjDim() && |m.out| == l.outRows
    && |m.bufs.conv| == TAPS * l.p.dInner && |m.bufs.ssm| == l.p.dInner && |m.bufs.y| == l.p.dInner
  }

  /** Row work of in_proj and out_proj: the counter starts at the number of threads. */
  function InRows(c: Config): (w: WS.Config)
    requires c.n >= 1
    ensures w.Valid() && w.rows == c.l.p.ProjDim() && w.n == c.n && w.ctr0 == c.n
  {
    WS.Config(c.l.p.ProjDim(), c.n, c.steal, WS.ChunkSize(c.l.p.ProjDim(), c.n), c.n)
  }

  function OutRows(c: Config): (w: WS.Config)
    requires c.n >= 1
    ensures w.Valid() && w.rows == c.l.outRows && w.n == c.n && w.ctr0 == c.n
  {
    WS.Config(c.l.outRows, c.n, c.steal, WS.ChunkSize(c.l.outRows, c.n), c.n)
  }

  function Lo(c: Config, t: nat): nat requires c.n >= 1 { WorkRange.Range(t, c.n, c.l.p.dInner).0 }
  function Hi(c: Config, t: nat): nat requires c.n >= 1 { WorkRange.Range(t, c.n, c.l.p.dInner).1 }

  predicate Owns(c: Config, t: nat, i: nat)
    requires c.n >= 1
  {
    WorkRange.InRange(i, t, c.n, c.l.p.dInner)
  }

  // ---------------------------------------------------------------- the plain sequence

  function Input(c: Config): seq<int>
    requires c.Valid()
  {
    c.mem.quant[..c.l.inCols]
  }

  function FinalProj(c: Config): (r: seq<real>)
    requires c.Valid()
    ensures |r| == c.l.p.ProjDim()
  {
    seq(c.l.p.ProjDim(), (x: nat) requires c.Valid() => c.l.inRow(Input(c), x))
  }

  function FinalBufs(c: Config): (b: Bufs)
    requires c.Valid()
    ensures |b.conv| == |c.mem.bufs.conv| && |b.ssm| == |b.y| == c.l.p.dInner
  {
    ScanRange(c.l.p, FinalProj(c), c.O(), c.mem.bufs, 0, c.l.p.dInner)
  }

  /** The first `k` elements of the quantized scan output, over what the buffer held before. */
  function Prepared(c: Config, k: nat): (r: seq<int>)
    requires c.Valid()
    ensures |r| == |c.mem.quant|
  {
    seq(|c.mem.quant|, (j: nat) requires c.Valid() && j < |c.mem.quant| =>
      if j < k && j < c.l.p.dInner then c.l.quantAt(FinalBufs(c).y, j) else c.mem.quant[j])
  }

  function FinalQuant(c: Config): (r: seq<int>)
    requires c.Valid()
    ensures |r| == |c.mem.quant|
  {
    Prepared(c, c.l.p.dInner)
  }

  function FinalInv(c: Config): real
    requires c.Valid()
  {
    c.l.scaleOf(FinalBufs(c).y)
  }

  function FinalOut(c: Config): (r: seq<real>)
    requires c.Valid()
    ensures |r| == c.l.outRows
  {
    seq(c.l.outRows, (x: nat) requires c.Valid() => c.l.outRow(FinalQuant(c)[..c.l.p.dInner], FinalInv(c), x))
  }

  /** in_proj; scan; prepare; out_proj, one after the other. */
  function Sequential(c: Config): Mem
    requires c.Valid()
  {
    Mem(FinalQuant(c), FinalProj(c), FinalBufs(c), FinalInv(c), FinalOut(c))
  }

  // ---------------------------------------------------------------- the fused dispatch

  /**
   * `stage[t]` is 2k in phase k (k = 0..3) and 2k+1 inside the barrier after it; 7 once the worker has
   * returned. `idx[t]` is the next channel of `t`, `prepped` how far thread 0 is with the preparation.
   */
  datatype State = State(stage: seq<nat>, c1: WS.Claims, idx: seq<nat>, prepped: nat, c2: WS.Claims, mem: Mem)

  const IN_PROJ := 0
  const SCAN := 2
  const PREPARE := 4
  const OUT_PROJ := 6
  const RETURNED := 7

  predicate Shape(c: Config, s: State) {
    && c.Valid() && |s.stage| == |s.idx| == c.n && WS.Shape(InRows(c), s.c1) && WS.Shape(OutRows(c), s.c2)
    && Fits(c.l, s.mem) && |s.mem.quant| == |c.mem.quant|
  }

  function Init(c: Config): (s: State)
    requires c.Valid()
    ensures Shape(c, s)
  {
    State(seq(c.n, _ => IN_PROJ), WS.Init(InRows(c)), seq(c.n, (t: nat) requires c.n >= 1 => Lo(c, t)), 0, WS.Init(OutRows(c)), c.mem)
  }

  function Advance(c: Config, s: State, t: nat): (r: State)
    requires Shape(c, s) && t < c.n
    ensures Shape(c, r)
  {
    s.(stage := s.stage[t := s.stage[t] + 1])
  }

  /** The barrier lets `t` through: everybody has reached it. */
  predicate Open(s: State, t: nat)
    requires t < |s.stage|
  {
    forall u :: 0 <= u < |s.stage| ==> s.stage[u] >= s.stage[t]
  }

  function InStep(c: Config, s: State, t: nat): (r: State)
    requires Shape(c, s) && t < c.n
    ensures Shape(c, r)
  {
    var w := WS.Step(InRows(c), s.c1, t);
    if s.c1.pc[t].Done? then Advance(c, s, t)
    else if WS.Computes(InRows(c), s.c1, t) then
      var x := s.c1.pc[t].row;
      s.(c1 := w, mem := s.mem.(proj := s.mem.proj[x := c.l.inRow(s.mem.quant[..c.l.inCols], x)]))
    else s.(c1 := w)
  }

  function ScanStep(c: Config, s: State, t: nat): (r: State)
    requires Shape(c, s) && t < c.n
    ensures Shape(c, r)
  {
    if s.idx[t] < Hi(c, t) && s.idx[t] < c.l.p.dInner then
      s.(idx := s.idx[t := s.idx[t] + 1], mem := s.mem.(bufs := ScanCell(c.l.p, s.mem.proj, c.O(), s.mem.bufs, s.idx[t])))
    else Advance(c, s, t)
  }

  function PrepareStep(c: Config, s: State, t: nat): (r: State)
    requires Shape(c, s) && t < c.n
    ensures Shape(c, r)
  {
    var k, d := s.prepped, c.l.p.dInner;
    if t != 0 || k > d then Advance(c, s, t)
    else if k < d then s.(prepped := k + 1, mem := s.mem.(quant := s.mem.quant[k := c.l.quantAt(s.mem.bufs.y, k)]))
    else s.(prepped := k + 1, mem := s.mem.(inv := c.l.scaleOf(s.mem.bufs.y)))
  }

  function OutStep(c: Config, s: State, t: nat): (r: State)
    requires Shape(c, s) && t < c.n
    ensures Shape(c, r)
  {
    var w := WS.Step(OutRows(c), s.c2, t);
    if s.c2.pc[t].Done? then Advance(c, s, t)
    else if WS.Computes(OutRows(c), s.c2, t) then
      var x := s.c2.pc[t].row;
      s.(c2 := w, mem := s.mem.(out := s.mem.out[x := c.l.outRow(s.mem.quant[..c.l.p.dInner], s.mem.inv, x)]))
    else s.(c2 := w)
  }

  /** A step outside the barriers. */
  function PhaseStep(c: Config, s: State, t: nat): (r: State)
    requires Shape(c, s) && t < c.n
    ensures Shape(c, r)
  {
    var g := s.stage[t];
    if g == IN_PROJ then InStep(c, s, t)
    else if g == SCAN then ScanStep(c, s, t)
    else if g == PREPARE then PrepareStep(c, s, t)
    else if g == OUT_PROJ then OutStep(c, s, t)
    else s
  }

  predicate AtBarrier(s: State, t: nat)
    requires t < |s.stage|
  {
    s.stage[t] % 2 == 1 && s.stage[t] < RETURNED
  }

  /** With barriers that let a thread through once everybody has reached them. */
  function Step(c: Config, s: State, t: nat): (r: State)
    requires Shape(c, s) && t < c.n
    ensures Shape(c, r)
  {
    if !AtBarrier(s, t) then PhaseStep(c, s, t)
    else if Open(s, t) then Advance(c, s, t)
    else s
  }

  // ---------------------------------------------------------------- the barriers

  function Arrivals(g: nat): nat { if g >= RETURNED then 3 else (g + 1) / 2 }

  function Departures(g: nat): nat { g / 2 }

  function AbsSync(stage: seq<nat>): Spec.Sync {
    Spec.Sync(seq(|stage|, i requires 0 <= i < |stage| => Arrivals(stage[i])),
              seq(|stage|, i requires 0 <= i < |stage| => Departures(stage[i])))
  }

  /** Nobody has left a barrier that somebody has not reached. */
  ghost predicate SyncInv(stage: seq<nat>) {
    && (forall t :: 0 <= t < |stage| ==> stage[t] <= RETURNED)
    && (forall t, u :: 0 <= t < |stage| && 0 <= u < |stage| ==> Departures(stage[t]) <= Arrivals(stage[u]))
  }

  lemma StageMove(stage: seq<nat>, t: nat)
    requires t < |stage| && stage[t] < RETURNED && (stage[t] % 2 == 1 ==> forall u :: 0 <= u < |stage| ==> stage[u] >= stage[t])
    ensures var a, b := AbsSync(stage), AbsSync(stage[t := stage[t] + 1]);
            a == b || Spec.Arrive(|stage|, a, b, t) || Spec.Leave(|stage|, a, b, t)
  {
    var a, b, g := AbsSync(stage), AbsSync(stage[t := stage[t] + 1]), stage[t];
    if g % 2 == 0 {
      assert b.departures == a.departures;
      assert b.arrivals == a.arrivals[t := Arrivals(g + 1)];
      if g == OUT_PROJ { assert b.arrivals == a.arrivals; }
    } else {
      assert b.departures == a.departures[t := Departures(g) + 1];
      assert b.arrivals == a.arrivals;
    }
  }

  /** Stages move only as the barrier's specification allows. */
  lemma StagesAreBarrierSteps(c: Config, s: State, t: nat)
    requires Shape(c, s) && SyncInv(s.stage) && t < c.n
    ensures var a, b := AbsSync(s.stage), AbsSync(Step(c, s, t).stage);
            a == b || Spec.Arrive(c.n, a, b, t) || Spec.Leave(c.n, a, b, t)
  {
    if Step(c, s, t).stage != s.stage {
      StepMoves(c, s, t);
      StageMove(s.stage, t);
    }
  }

  /** Whenever the specification lets `t` return, the model does. */
  lemma LeaveIsOpen(c: Config, s: State, t: nat, b: Spec.Sync)
    requires Shape(c, s) && SyncInv(s.stage) && t < c.n && AtBarrier(s, t) && Spec.Leave(c.n, AbsSync(s.stage), b, t)
    ensures Open(s, t)
  {
    forall u | 0 <= u < c.n ensures s.stage[u] >= s.stage[t] {
      assert AbsSync(s.stage).arrivals[u] > AbsSync(s.stage).departures[t];
    }
  }

  lemma StepMoves(c: Config, s: State, t: nat)
    requires Shape(c, s) && t < c.n && Step(c, s, t).stage != s.stage
    ensures Step(c, s, t) == Advance(c, s, t) && s.stage[t] < RETURNED && (s.stage[t] % 2 == 1 ==> Open(s, t))
  { }

  lemma StepSync(c: Config, s: State, t: nat)
    requires Shape(c, s) && SyncInv(s.stage) && t < c.n
    ensures SyncInv(Step(c, s, t).stage)
  {
    var r := Step(c, s, t);
    if r.stage != s.stage { assert r.stage == s.stage[t := s.stage[t] + 1]; }
  }

  // ---------------------------------------------------------------- phase 1

  ghost predicate RowsWritten(runs: seq<nat>, mem: seq<real>, final: seq<real>) {
    |runs| == |mem| == |final| && forall x :: 0 <= x < |runs| && runs[x] >= 1 ==> mem[x] == final[x]
  }

  ghost predicate ClaimsInv(w: WS.Config, stage: seq<nat>, k: WS.Claims, phase: nat, mem: seq<real>, final: seq<real>) {
    && WS.Inv(w, k) && |stage| == w.n && w.ctr0 == w.n
    && (forall t :: 0 <= t < |stage| && stage[t] > phase ==> k.pc[t].Done?)
    && RowsWritten(k.runs, mem, final)
  }

  lemma StepRuns(w: WS.Config, k: WS.Claims, t: nat)
    requires WS.Shape(w, k) && t < w.n
    ensures var r := WS.Step(w, k, t);
            |r.pc| == |k.pc| && r.pc == k.pc[t := r.pc[t]]
            && if WS.Computes(w, k, t) then r.runs == k.runs[k.pc[t].row := k.runs[k.pc[t].row] + 1] else r.runs == k.runs
  { }

  /** A row step writes the final value, so written rows stay final. */
  lemma RowsStep(w: WS.Config, stage: seq<nat>, k: WS.Claims, phase: nat, mem: seq<real>, final: seq<real>, t: nat,
                 mem2: seq<real>)
    requires ClaimsInv(w, stage, k, phase, mem, final) && t < w.n && !k.pc[t].Done? && w.Valid()
    requires mem2 == if WS.Computes(w, k, t) then mem[k.pc[t].row := final[k.pc[t].row]] else mem
    ensures ClaimsInv(w, stage, WS.Step(w, k, t), phase, mem2, final)
  {
    WS.StepInv(w, k, t);
    StepRuns(w, k, t);
  }

  /** Once every thread is through with the row work, every row is final. */
  lemma RowsDone(w: WS.Config, stage: seq<nat>, k: WS.Claims, phase: nat, mem: seq<real>, final: seq<real>)
    requires ClaimsInv(w, stage, k, phase, mem, final) && w.Valid()
    requires forall t :: 0 <= t < |stage| ==> stage[t] > phase
    ensures mem == final
  {
    forall x | 0 <= x < |mem| ensures mem[x] == final[x] {
      WS.FinalRuns(w, k, x);
    }
  }

  lemma StageUp(w: WS.Config, stage: seq<nat>, k: WS.Claims, phase: nat, mem: seq<real>, final: seq<real>, t: nat)
    requires ClaimsInv(w, stage, k, phase, mem, final) && t < |stage| && (stage[t] == phase ==> k.pc[t].Done?)
    ensures ClaimsInv(w, stage[t := stage[t] + 1], k, phase, mem, final)
  { }

  // ---------------------------------------------------------------- phase 2

  ghost predicate SameAt(l: Layer, o: Slots, b: Bufs, r: Bufs, i: nat)
    requires BufsFit(l.p, o, b) && BufsFit(l.p, o, r) && i < l.p.dInner
  {
    WindowAt(l.p, o, b, i) == WindowAt(l.p, o, r, i) && b.ssm[i] == r.ssm[i] && b.y[o.y + i] == r.y[o.y + i]
  }

  /** Channel `i` of thread `t` is through. */
  predicate Through(stage: seq<nat>, idx: seq<nat>, t: nat, i: nat)
    requires t < |stage| == |idx|
  {
    stage[t] > SCAN || (stage[t] == SCAN && i < idx[t])
  }

  ghost predicate ScanInv(c: Config, stage: seq<nat>, idx: seq<nat>, b: Bufs) {
    && c.Valid() && |stage| == |idx| == c.n
    && |b.conv| == TAPS * c.l.p.dInner && |b.ssm| == |b.y| == c.l.p.dInner
    && (forall t :: 0 <= t < c.n && stage[t] <= SCAN ==> Lo(c, t) <= idx[t])
    && (forall t :: 0 <= t < c.n && stage[t] < SCAN ==> Lo(c, t) == idx[t])
    && (forall t: nat, i: nat :: t < c.n && i < c.l.p.dInner && Owns(c, t, i) ==>
          SameAt(c.l, c.O(), b, if Through(stage, idx, t, i) then FinalBufs(c) else c.mem.bufs, i))
  }

  lemma OtherCell(c: Config, b: Bufs, r: Bufs, j: nat, i: nat)
    requires c.Valid() && BufsFit(c.l.p, c.O(), b) && BufsFit(c.l.p, c.O(), r) && j < c.l.p.dInner && i < c.l.p.dInner && i != j
    requires SameAt(c.l, c.O(), b, r, i)
    ensures SameAt(c.l, c.O(), ScanCell(c.l.p, FinalProj(c), c.O(), b, j), r, i)
  { }

  lemma OwnCell(c: Config, b: Bufs, j: nat)
    requires c.Valid() && BufsFit(c.l.p, c.O(), b) && |b.y| == c.l.p.dInner && j < c.l.p.dInner && SameAt(c.l, c.O(), b, c.mem.bufs, j)
    ensures SameAt(c.l, c.O(), ScanCell(c.l.p, FinalProj(c), c.O(), b, j), FinalBufs(c), j)
  {
    var o, f := c.O(), FinalBufs(c);
    ScanRangeMeaning(c.l.p, FinalProj(c), o, c.mem.bufs, 0, c.l.p.dInner);
    assert f.conv[o.c0 + j] == c.l.p.Input(FinalProj(c), j);
    assert (f.ssm[j], f.y[o.y + j]) == c.l.p.Channel(FinalProj(c), j, WindowAt(c.l.p, o, c.mem.bufs, j), c.mem.bufs.ssm[j]);
  }

  lemma ScanMore(c: Config, stage: seq<nat>, idx: seq<nat>, b: Bufs, t: nat)
    requires ScanInv(c, stage, idx, b) && t < c.n && stage[t] == SCAN && idx[t] < Hi(c, t) && idx[t] < c.l.p.dInner
    ensures ScanInv(c, stage, idx[t := idx[t] + 1], ScanCell(c.l.p, FinalProj(c), c.O(), b, idx[t]))
  {
    var j, r := idx[t], ScanCell(c.l.p, FinalProj(c), c.O(), b, idx[t]);
    assert Owns(c, t, j);
    forall u: nat, i: nat | u < c.n && i < c.l.p.dInner && Owns(c, u, i)
      ensures SameAt(c.l, c.O(), r, if Through(stage, idx[t := j + 1], u, i) then FinalBufs(c) else c.mem.bufs, i)
    {
      if i == j { WorkRange.Unique(i, t, u, c.n, c.l.p.dInner); OwnCell(c, b, j); }
      else { CellKept(c, stage, idx, b, t, u, i); }
    }
  }

  lemma CellKept(c: Config, stage: seq<nat>, idx: seq<nat>, b: Bufs, t: nat, u: nat, i: nat)
    requires ScanInv(c, stage, idx, b) && t < c.n && idx[t] < c.l.p.dInner && i != idx[t]
    requires u < c.n && i < c.l.p.dInner && Owns(c, u, i)
    ensures SameAt(c.l, c.O(), ScanCell(c.l.p, FinalProj(c), c.O(), b, idx[t]),
                   if Through(stage, idx[t := idx[t] + 1], u, i) then FinalBufs(c) else c.mem.bufs, i)
  {
    var v := if Through(stage, idx, u, i) then FinalBufs(c) else c.mem.bufs;
    OtherCell(c, b, v, idx[t], i);
  }

  lemma ScanStageUp(c: Config, stage: seq<nat>, idx: seq<nat>, b: Bufs, t: nat)
    requires ScanInv(c, stage, idx, b) && t < c.n && (stage[t] == SCAN ==> idx[t] >= Hi(c, t))
    ensures ScanInv(c, stage[t := stage[t] + 1], idx, b)
  {
    var r := stage[t := stage[t] + 1];
    forall u: nat, i: nat | u < c.n && i < c.l.p.dInner && Owns(c, u, i)
      ensures SameAt(c.l, c.O(), b, if Through(r, idx, u, i) then FinalBufs(c) else c.mem.bufs, i)
    {
      assert Through(stage, idx, u, i) == Through(r, idx, u, i);
    }
  }

  /** Once every thread is through with its slice, the scan is complete. */
  lemma ScanDone(c: Config, stage: seq<nat>, idx: seq<nat>, b: Bufs)
    requires ScanInv(c, stage, idx, b) && forall t :: 0 <= t < |stage| ==> stage[t] > SCAN
    ensures b == FinalBufs(c)
  {
    forall i | 0 <= i < c.l.p.dInner ensures SameAt(c.l, c.O(), b, FinalBufs(c), i) {
      var t := SomeOwner(c, i);
      assert Owns(c, t, i);
    }
    AllSame(c, b, FinalBufs(c));
  }

  lemma SomeOwner(c: Config, i: nat) returns (t: nat)
    requires c.Valid() && i < c.l.p.dInner
    ensures t < c.n && Owns(c, t, i)
  {
    WorkRange.Adjacent(c.n - 1, c.n, c.l.p.dInner);
    t := WorkRange.FindOwner(i, c.n, c.l.p.dInner, c.n - 1);
  }

  lemma AllSame(c: Config, b: Bufs, f: Bufs)
    requires c.Valid() && |b.conv| == |f.conv| == TAPS * c.l.p.dInner && |b.ssm| == |b.y| == |f.ssm| == |f.y| == c.l.p.dInner
    requires forall i :: 0 <= i < c.l.p.dInner ==> SameAt(c.l, c.O(), b, f, i)
    ensures b == f
  {
    var d := c.l.p.dInner;
    forall j | 0 <= j < TAPS * d ensures b.conv[j] == f.conv[j] {
      var i := if j >= 2 * d then j - 2 * d else if j >= d then j - d else j;
      assert SameAt(c.l, c.O(), b, f, i);
    }
    forall i | 0 <= i < d ensures b.ssm[i] == f.ssm[i] && b.y[i] == f.y[i] { assert SameAt(c.l, c.O(), b, f, i); }
  }

  // ---------------------------------------------------------------- phase 3

  ghost predicate PrepareInv(c: Config, stage: seq<nat>, prepped: nat, quant: seq<int>, inv: real) {
    && c.Valid() && |stage| == c.n && prepped <= c.l.p.dInner + 1
    && (stage[0] < PREPARE ==> prepped == 0) && (stage[0] > PREPARE ==> prepped == c.l.p.dInner + 1)
    && quant == Prepared(c, prepped)
    && (prepped == c.l.p.dInner + 1 ==> inv == FinalInv(c))
  }

  lemma PreparedMore(c: Config, k: nat)
    requires c.Valid() && k < c.l.p.dInner
    ensures Prepared(c, k + 1) == Prepared(c, k)[k := c.l.quantAt(FinalBufs(c).y, k)]
  { }

  lemma PreparedAll(c: Config)
    requires c.Valid()
    ensures Prepared(c, c.l.p.dInner + 1) == FinalQuant(c) && Prepared(c, 0) == c.mem.quant
  { }

  // ---------------------------------------------------------------- the whole invariant

  ghost predicate Inv(c: Config, s: State) {
    && Shape(c, s) && SyncInv(s.stage)
    && ClaimsInv(InRows(c), s.stage, s.c1, IN_PROJ, s.mem.proj, FinalProj(c))
    && ScanInv(c, s.stage, s.idx, s.mem.bufs)
    && PrepareInv(c, s.stage, s.prepped, s.mem.quant, s.mem.inv)
    && ClaimsInv(OutRows(c), s.stage, s.c2, OUT_PROJ, s.mem.out, FinalOut(c))
  }

  lemma InitInv(c: Config)
    requires c.Valid()
    ensures Inv(c, Init(c))
  {
    WS.InitInv(InRows(c));
    WS.InitInv(OutRows(c));
    PreparedAll(c);
  }

  /** In its first phase a thread reads the quantized input. */
  lemma InputIntact(c: Config, s: State, t: nat)
    requires Inv(c, s) && t < c.n && s.stage[t] < PREPARE - 1
    ensures s.mem.quant == c.mem.quant
  {
    assert Departures(s.stage[0]) <= Arrivals(s.stage[t]);
    PreparedAll(c);
  }

  lemma ProjReady(c: Config, s: State, t: nat)
    requires Inv(c, s) && t < c.n && s.stage[t] >= SCAN
    ensures s.mem.proj == FinalProj(c)
  {
    forall u | 0 <= u < c.n ensures s.stage[u] > IN_PROJ { assert Departures(s.stage[t]) <= Arrivals(s.stage[u]); }
    RowsDone(InRows(c), s.stage, s.c1, IN_PROJ, s.mem.proj, FinalProj(c));
  }

  lemma ScanReady(c: Config, s: State, t: nat)
    requires Inv(c, s) && t < c.n && s.stage[t] >= PREPARE
    ensures s.mem.bufs == FinalBufs(c)
  {
    forall u | 0 <= u < c.n ensures s.stage[u] > SCAN { assert Departures(s.stage[t]) <= Arrivals(s.stage[u]); }
    ScanDone(c, s.stage, s.idx, s.mem.bufs);
  }

  lemma QuantReady(c: Config, s: State, t: nat)
    requires Inv(c, s) && t < c.n && s.stage[t] >= OUT_PROJ
    ensures s.mem.quant == FinalQuant(c) && s.mem.inv == FinalInv(c)
  {
    assert Departures(s.stage[t]) <= Arrivals(s.stage[0]);
    PreparedAll(c);
  }

  lemma AdvanceInv(c: Config, s: State, t: nat)
    requires Inv(c, s) && t < c.n && SyncInv(s.stage[t := s.stage[t] + 1])
    requires s.stage[t] == IN_PROJ ==> s.c1.pc[t].Done?
    requires s.stage[t] == SCAN ==> s.idx[t] >= Hi(c, t)
    requires s.stage[t] == PREPARE && t == 0 ==> s.prepped > c.l.p.dInner
    requires s.stage[t] == OUT_PROJ ==> s.c2.pc[t].Done?
    ensures Inv(c, Advance(c, s, t))
  {
    var r := Advance(c, s, t);
    assert r == s.(stage := s.stage[t := s.stage[t] + 1]);
    AdvanceRows(c, s, t);
    ScanStageUp(c, s.stage, s.idx, s.mem.bufs, t);
    PrepareStageUp(c, s.stage, s.prepped, s.mem.quant, s.mem.inv, t);
  }

  lemma AdvanceRows(c: Config, s: State, t: nat)
    requires Inv(c, s) && t < c.n
    requires s.stage[t] == IN_PROJ ==> s.c1.pc[t].Done?
    requires s.stage[t] == OUT_PROJ ==> s.c2.pc[t].Done?
    ensures ClaimsInv(InRows(c), Advance(c, s, t).stage, s.c1, IN_PROJ, s.mem.proj, FinalProj(c))
    ensures ClaimsInv(OutRows(c), Advance(c, s, t).stage, s.c2, OUT_PROJ, s.mem.out, FinalOut(c))
  {
    StageUp(InRows(c), s.stage, s.c1, IN_PROJ, s.mem.proj, FinalProj(c), t);
    StageUp(OutRows(c), s.stage, s.c2, OUT_PROJ, s.mem.out, FinalOut(c), t);
  }

  lemma PrepareStageUp(c: Config, stage: seq<nat>, prepped: nat, quant: seq<int>, inv: real, t: nat)
    requires PrepareInv(c, stage, prepped, quant, inv) && t < c.n
    requires stage[t] == PREPARE && t == 0 ==> prepped > c.l.p.dInner
    ensures PrepareInv(c, stage[t := stage[t] + 1], prepped, quant, inv)
  { }

  lemma FinalRow(c: Config, x: nat)
    requires c.Valid() && x < c.l.p.ProjDim()
    ensures FinalProj(c)[x] == c.l.inRow(Input(c), x)
  { }

  lemma InStepEffect(c: Config, s: State, t: nat)
    requires Shape(c, s) && t < c.n && !s.c1.pc[t].Done? && s.mem.quant == c.mem.quant
    ensures var r := InStep(c, s, t);
            r == s.(c1 := WS.Step(InRows(c), s.c1, t), mem := s.mem.(proj := r.mem.proj))
    ensures WS.Computes(InRows(c), s.c1, t) ==>
              InStep(c, s, t).mem.proj == s.mem.proj[s.c1.pc[t].row := FinalProj(c)[s.c1.pc[t].row]]
    ensures !WS.Computes(InRows(c), s.c1, t) ==> InStep(c, s, t).mem.proj == s.mem.proj
  {
    if WS.Computes(InRows(c), s.c1, t) { FinalRow(c, s.c1.pc[t].row); }
  }

  lemma InStepInv(c: Config, s: State, t: nat)
    requires Inv(c, s) && t < c.n && s.stage[t] == IN_PROJ && !s.c1.pc[t].Done?
    ensures Inv(c, InStep(c, s, t))
  {
    InputIntact(c, s, t);
    InStepEffect(c, s, t);
    RowsStep(InRows(c), s.stage, s.c1, IN_PROJ, s.mem.proj, FinalProj(c), t, InStep(c, s, t).mem.proj);
  }

  lemma ScanStepEffect(c: Config, s: State, t: nat)
    requires Shape(c, s) && t < c.n && s.idx[t] < Hi(c, t) && s.idx[t] < c.l.p.dInner
    ensures var b := ScanCell(c.l.p, s.mem.proj, c.O(), s.mem.bufs, s.idx[t]);
            ScanStep(c, s, t) == s.(idx := s.idx[t := s.idx[t] + 1], mem := s.mem.(bufs := b))
  { }

  lemma ScanStepInv(c: Config, s: State, t: nat)
    requires Inv(c, s) && t < c.n && s.stage[t] == SCAN && s.idx[t] < Hi(c, t)
    ensures s.idx[t] < c.l.p.dInner && Inv(c, ScanStep(c, s, t))
  {
    WorkRange.Within(t, c.n, c.l.p.dInner);
    ProjReady(c, s, t);
    ScanStepEffect(c, s, t);
    ScanMore(c, s.stage, s.idx, s.mem.bufs, t);
  }

  lemma PrepareStepInv(c: Config, s: State, t: nat)
    requires Inv(c, s) && t == 0 && s.stage[t] == PREPARE && s.prepped <= c.l.p.dInner
    ensures Inv(c, PrepareStep(c, s, t))
  {
    ScanReady(c, s, t);
    PreparedAll(c);
    if s.prepped < c.l.p.dInner { PreparedMore(c, s.prepped); }
    else { assert s.mem.quant == FinalQuant(c); }
  }

  lemma OutStepInv(c: Config, s: State, t: nat)
    requires Inv(c, s) && t < c.n && s.stage[t] == OUT_PROJ && !s.c2.pc[t].Done?
    ensures Inv(c, OutStep(c, s, t))
  {
    QuantReady(c, s, t);
    RowsStep(OutRows(c), s.stage, s.c2, OUT_PROJ, s.mem.out, FinalOut(c), t, OutStep(c, s, t).mem.out);
  }

  /** Thread `t` is inside one of the four phases. */
  predicate Working(c: Config, s: State, t: nat)
    requires Shape(c, s) && t < c.n
  {
    var g := s.stage[t];
    || (g == IN_PROJ && !s.c1.pc[t].Done?) || (g == SCAN && s.idx[t] < Hi(c, t))
    || (g == PREPARE && t == 0 && s.prepped <= c.l.p.dInner) || (g == OUT_PROJ && !s.c2.pc[t].Done?)
  }

  lemma WorkInv(c: Config, s: State, t: nat)
    requires Inv(c, s) && t < c.n && Working(c, s, t)
    ensures Inv(c, Step(c, s, t))
  {
    var g := s.stage[t];
    if g == IN_PROJ { InStepInv(c, s, t); }
    else if g == SCAN { ScanStepInv(c, s, t); }
    else if g == PREPARE { PrepareStepInv(c, s, t); }
    else { OutStepInv(c, s, t); }
  }

  lemma StepInv(c: Config, s: State, t: nat)
    requires Inv(c, s) && t < c.n
    ensures Inv(c, Step(c, s, t))
  {
    StepSync(c, s, t);
    if Working(c, s, t) { WorkInv(c, s, t); }
    else if Step(c, s, t) != s { AdvanceInv(c, s, t); }
  }
}
