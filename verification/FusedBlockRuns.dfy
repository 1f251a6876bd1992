/** All runs of the fused layer step: the result, freedom from data races, and termination. */
module FusedBlockRuns {
  import opened Scan
  import opened FusedBlock
  import WorkRange
  import WS = WorkSteal

  predicate Schedule(c: Config, sched: seq<nat>) { forall i :: 0 <= i < |sched| ==> sched[i] < c.n }

  function Run(c: Config, s: State, sched: seq<nat>): (r: State)
    requires Shape(c, s) && Schedule(c, sched)
    ensures Shape(c, r)
    decreases |sched|
  {
    if sched == [] then s else Run(c, Step(c, s, sched[0]), sched[1..])
  }

  lemma {:induction false} RunInv(c: Config, s: State, sched: seq<nat>)
    requires Inv(c, s) && Schedule(c, sched)
    ensures Inv(c, Run(c, s, sched))
    decreases |sched|
  {
    if sched != [] {
      StepInv(c, s, sched[0]);
      RunInv(c, Step(c, s, sched[0]), sched[1..]);
    }
  }

  predicate AllReturned(c: Config, s: State) { |s.stage| == c.n && forall t :: 0 <= t < c.n ==> s.stage[t] >= RETURNED }

  lemma OutReady(c: Config, s: State)
    requires Inv(c, s) && AllReturned(c, s)
    ensures s.mem.out == FinalOut(c)
  {
    RowsDone(OutRows(c), s.stage, s.c2, OUT_PROJ, s.mem.out, FinalOut(c));
  }

  /**
   * For every thread count and every interleaving the fused dispatch leaves exactly the memory of
   * in_proj; scan; prepare; out_proj run in order.
   */
  lemma FusedIsSequential(c: Config, sched: seq<nat>)
    requires c.Valid() && Schedule(c, sched) && AllReturned(c, Run(c, Init(c), sched))
    ensures Run(c, Init(c), sched).mem == Sequential(c)
  {
    InitInv(c);
    RunInv(c, Init(c), sched);
    ReturnedIsSequential(c, Run(c, Init(c), sched));
  }

  lemma ReturnedIsSequential(c: Config, s: State)
    requires Inv(c, s) && AllReturned(c, s)
    ensures s.mem == Sequential(c)
  {
    ProjReady(c, s, 0);
    ScanReady(c, s, 0);
    QuantReady(c, s, 0);
    OutReady(c, s);
  }

  // ---------------------------------------------------------------- data races

  datatype Loc = Quant(j: nat) | Proj(x: nat) | Conv(k: nat) | Ssm(i: nat) | Y(i: nat) | InvScale | Out(x: nat)

  datatype Val = Whole(n: int) | Float(r: real) | Nowhere

  function At(m: Mem, l: Loc): Val {
    match l
    case Quant(j) => if j < |m.quant| then Whole(m.quant[j]) else Nowhere
    case Proj(x) => if x < |m.proj| then Float(m.proj[x]) else Nowhere
    case Conv(k) => if k < |m.bufs.conv| then Float(m.bufs.conv[k]) else Nowhere
    case Ssm(i) => if i < |m.bufs.ssm| then Float(m.bufs.ssm[i]) else Nowhere
    case Y(i) => if i < |m.bufs.y| then Float(m.bufs.y[i]) else Nowhere
    case InvScale => Float(m.inv)
    case Out(x) => if x < |m.out| then Float(m.out[x]) else Nowhere
  }

  /** What the next step of `t` touches, by phase. */
  datatype Work = InRow(x: nat) | Channel(i: nat) | Element(k: nat) | Scale | OutRow(x: nat) | Control

  function WorkOf(c: Config, s: State, t: nat): Work
    requires Shape(c, s) && t < c.n
  {
    var g := s.stage[t];
    if g == IN_PROJ && WS.Computes(InRows(c), s.c1, t) then InRow(s.c1.pc[t].row)
    else if g == SCAN && s.idx[t] < Hi(c, t) && s.idx[t] < c.l.p.dInner then Channel(s.idx[t])
    else if g == PREPARE && t == 0 && s.prepped < c.l.p.dInner then Element(s.prepped)
    else if g == PREPARE && t == 0 && s.prepped == c.l.p.dInner then Scale
    else if g == OUT_PROJ && WS.Computes(OutRows(c), s.c2, t) then OutRow(s.c2.pc[t].row)
    else Control
  }

  predicate Reads(c: Config, w: Work, l: Loc)
    requires c.Valid()
  {
    match w
    case InRow(_) => l.Quant? && l.j < c.l.inCols
    case Channel(i) => l.Proj? || (l.Conv? && (l.k == c.O().c0 + i || l.k == c.O().c1 + i || l.k == c.O().c2 + i)) || (l.Ssm? && l.i == i)
    case Element(_) => l.Y?
    case Scale => l.Y?
    case OutRow(_) => (l.Quant? && l.j < c.l.p.dInner) || l.InvScale?
    case Control => false
  }

  predicate Writes(c: Config, w: Work, l: Loc)
    requires c.Valid()
  {
    match w
    case InRow(x) => l == Proj(x)
    case Channel(i) => l == Conv(c.O().c0 + i) || l == Ssm(i) || l == Y(i)
    case Element(k) => l == Quant(k)
    case Scale => l == InvScale
    case OutRow(x) => l == Out(x)
    case Control => false
  }

  /** Two threads at work are in the same phase. */
  lemma SamePhase(c: Config, s: State, t: nat, u: nat)
    requires Inv(c, s) && t < c.n && u < c.n && !WorkOf(c, s, t).Control? && !WorkOf(c, s, u).Control?
    ensures s.stage[t] == s.stage[u]
  {
    assert Departures(s.stage[t]) <= Arrivals(s.stage[u]) && Departures(s.stage[u]) <= Arrivals(s.stage[t]);
  }

  lemma ChannelsApart(c: Config, s: State, t: nat, u: nat)
    requires Inv(c, s) && t < c.n && u < c.n && t != u && WorkOf(c, s, t).Channel? && WorkOf(c, s, u).Channel?
    ensures s.idx[t] != s.idx[u]
  {
    if s.idx[t] == s.idx[u] { WorkRange.Unique(s.idx[t], t, u, c.n, c.l.p.dInner); }
  }

  /** What two threads are about to do never conflicts. */
  ghost predicate Apart(w: Work, v: Work) {
    match w
    case InRow(x) => v.Control? || (v.InRow? && v.x != x)
    case Channel(i) => v.Control? || (v.Channel? && v.i != i)
    case Element(_) => v.Control?
    case Scale => v.Control?
    case OutRow(x) => v.Control? || (v.OutRow? && v.x != x)
    case Control => true
  }

  lemma WorkApart(c: Config, s: State, t: nat, u: nat)
    requires Inv(c, s) && t < c.n && u < c.n && t != u
    ensures Apart(WorkOf(c, s, t), WorkOf(c, s, u))
  {
    var w, v := WorkOf(c, s, t), WorkOf(c, s, u);
    if !w.Control? && !v.Control? {
      SamePhase(c, s, t, u);
      if w.InRow? { WS.NoRowRace(InRows(c), s.c1, t, u); }
      if w.OutRow? { WS.NoRowRace(OutRows(c), s.c2, t, u); }
      if w.Channel? { ChannelsApart(c, s, t, u); }
    }
  }

  lemma ChannelsConflictFree(c: Config, i: nat, j: nat, l: Loc)
    requires c.Valid() && i < c.l.p.dInner && j < c.l.p.dInner && i != j && Writes(c, Channel(i), l)
    ensures !Reads(c, Channel(j), l) && !Writes(c, Channel(j), l)
  { }

  predicate InRange(c: Config, w: Work) { w.Channel? ==> w.i < c.l.p.dInner }

  lemma ConflictFree(c: Config, w: Work, v: Work, l: Loc)
    requires c.Valid() && Apart(w, v) && InRange(c, w) && InRange(c, v) && Writes(c, w, l)
    ensures !Reads(c, v, l) && !Writes(c, v, l)
  {
    if w.Channel? && v.Channel? { ChannelsConflictFree(c, w.i, v.i, l); }
  }

  /** No two threads ever touch one location with a write between barriers. */
  lemma NoRace(c: Config, s: State, t: nat, u: nat, l: Loc)
    requires Inv(c, s) && t < c.n && u < c.n && t != u && Writes(c, WorkOf(c, s, t), l)
    ensures !Reads(c, WorkOf(c, s, u), l) && !Writes(c, WorkOf(c, s, u), l)
  {
    WorkApart(c, s, t, u);
    ConflictFree(c, WorkOf(c, s, t), WorkOf(c, s, u), l);
  }

  /** Thread 0 overwrites the input only when no thread is still reading it. */
  lemma OverwriteIsLate(c: Config, s: State, u: nat)
    requires Inv(c, s) && u < c.n && WorkOf(c, s, 0).Element?
    ensures s.stage[u] >= PREPARE - 1 && s.c1.pc[u].Done?
  {
    assert Departures(s.stage[0]) <= Arrivals(s.stage[u]);
  }

  /** The footprint is right: nothing else changes. */
  lemma WritesOnly(c: Config, s: State, t: nat, l: Loc)
    requires Shape(c, s) && t < c.n && !Writes(c, WorkOf(c, s, t), l)
    ensures At(Step(c, s, t).mem, l) == At(s.mem, l)
  { }

  predicate SameControl(s: State, z: State) { s.(mem := z.mem) == z }

  ghost predicate Agree(c: Config, w: Work, m: Mem, z: Mem)
    requires c.Valid()
  {
    forall r :: Reads(c, w, r) ==> At(m, r) == At(z, r)
  }

  lemma AgreeQuant(c: Config, w: Work, m: Mem, z: Mem, k: nat)
    requires c.Valid() && Agree(c, w, m, z) && k <= |m.quant| && k <= |z.quant|
    requires forall j: nat :: j < k ==> Reads(c, w, Quant(j))
    ensures m.quant[..k] == z.quant[..k]
  {
    forall j: nat | j < k ensures m.quant[j] == z.quant[j] { assert At(m, Quant(j)) == At(z, Quant(j)); }
  }

  lemma AgreeProj(c: Config, i: nat, m: Mem, z: Mem)
    requires c.Valid() && Agree(c, Channel(i), m, z) && |m.proj| == |z.proj|
    ensures m.proj == z.proj
  {
    forall x: nat | x < |m.proj| ensures m.proj[x] == z.proj[x] { assert At(m, Proj(x)) == At(z, Proj(x)); }
  }

  lemma AgreeY(c: Config, w: Work, m: Mem, z: Mem)
    requires c.Valid() && (w.Element? || w.Scale?) && Agree(c, w, m, z) && |m.bufs.y| == |z.bufs.y|
    ensures m.bufs.y == z.bufs.y
  {
    forall i: nat | i < |m.bufs.y| ensures m.bufs.y[i] == z.bufs.y[i] { assert At(m, Y(i)) == At(z, Y(i)); }
  }

  lemma AgreeCell(c: Config, i: nat, m: Mem, z: Mem)
    requires c.Valid() && Fits(c.l, m) && Fits(c.l, z) && Agree(c, Channel(i), m, z) && i < c.l.p.dInner
    ensures WindowAt(c.l.p, c.O(), m.bufs, i) == WindowAt(c.l.p, c.O(), z.bufs, i) && m.bufs.ssm[i] == z.bufs.ssm[i]
  {
    assert At(m, Conv(c.O().c0 + i)) == At(z, Conv(c.O().c0 + i));
    assert At(m, Conv(c.O().c1 + i)) == At(z, Conv(c.O().c1 + i));
    assert At(m, Conv(c.O().c2 + i)) == At(z, Conv(c.O().c2 + i));
    assert At(m, Ssm(i)) == At(z, Ssm(i));
  }

  /** What a step writes, from the control state and the memory it reads. */
  function Written(c: Config, w: Work, m: Mem, l: Loc): Val
    requires c.Valid() && Fits(c.l, m) && (w.Channel? ==> w.i < c.l.p.dInner)
  {
    match w
    case InRow(x) => Float(c.l.inRow(m.quant[..c.l.inCols], x))
    case Channel(i) =>
      var out := c.l.p.Channel(m.proj, i, WindowAt(c.l.p, c.O(), m.bufs, i), m.bufs.ssm[i]);
      if l.Conv? then Float(c.l.p.Input(m.proj, i)) else if l.Ssm? then Float(out.0) else Float(out.1)
    case Element(k) => Whole(c.l.quantAt(m.bufs.y, k))
    case Scale => Float(c.l.scaleOf(m.bufs.y))
    case OutRow(x) => Float(c.l.outRow(m.quant[..c.l.p.dInner], m.inv, x))
    case Control => Nowhere
  }

  lemma StepWrites(c: Config, s: State, t: nat, l: Loc)
    requires Shape(c, s) && t < c.n && Writes(c, WorkOf(c, s, t), l)
    ensures At(Step(c, s, t).mem, l) == Written(c, WorkOf(c, s, t), s.mem, l)
  { }

  lemma WrittenAgrees(c: Config, w: Work, m: Mem, z: Mem, l: Loc)
    requires c.Valid() && Fits(c.l, m) && Fits(c.l, z) && (w.Channel? ==> w.i < c.l.p.dInner) && Agree(c, w, m, z)
    ensures Written(c, w, m, l) == Written(c, w, z, l)
  {
    match w
    case InRow(_) => AgreeQuant(c, w, m, z, c.l.inCols);
    case Channel(i) => AgreeProj(c, i, m, z); AgreeCell(c, i, m, z);
    case Element(_) => AgreeY(c, w, m, z);
    case Scale => AgreeY(c, w, m, z);
    case OutRow(_) => AgreeQuant(c, w, m, z, c.l.p.dInner); assert At(m, InvScale) == At(z, InvScale);
    case Control =>
  }

  /** The footprint is right: what is written, and where control goes, depends on nothing else. */
  lemma ReadsOnly(c: Config, s: State, z: State, t: nat, l: Loc)
    requires Shape(c, s) && Shape(c, z) && t < c.n && SameControl(s, z) && Agree(c, WorkOf(c, s, t), s.mem, z.mem)
    ensures SameControl(Step(c, s, t), Step(c, z, t))
    ensures Writes(c, WorkOf(c, s, t), l) ==> At(Step(c, s, t).mem, l) == At(Step(c, z, t).mem, l)
  {
    ControlOnly(c, s, z, t);
    if Writes(c, WorkOf(c, s, t), l) {
      StepWrites(c, s, t, l);
      StepWrites(c, z, t, l);
      WrittenAgrees(c, WorkOf(c, s, t), s.mem, z.mem, l);
    }
  }

  lemma ControlOnly(c: Config, s: State, z: State, t: nat)
    requires Shape(c, s) && Shape(c, z) && t < c.n && SameControl(s, z)
    ensures WorkOf(c, s, t) == WorkOf(c, z, t) && SameControl(Step(c, s, t), Step(c, z, t))
  { }

  // ---------------------------------------------------------------- termination

  function StageLeft(stage: seq<nat>): nat {
    if stage == [] then 0 else (if stage[0] < RETURNED then RETURNED - stage[0] else 0) + StageLeft(stage[1..])
  }

  lemma {:induction false} StageLeftDrops(stage: seq<nat>, t: nat)
    requires t < |stage| && stage[t] < RETURNED
    ensures StageLeft(stage[t := stage[t] + 1]) < StageLeft(stage)
  {
    if t == 0 { assert stage[t := stage[t] + 1][1..] == stage[1..]; }
    else {
      assert stage[t := stage[t] + 1][1..] == stage[1..][t - 1 := stage[1..][t - 1] + 1];
      StageLeftDrops(stage[1..], t - 1);
    }
  }

  function IdxLeft(d: nat, idx: seq<nat>): nat {
    if idx == [] then 0 else (if idx[0] < d then d - idx[0] else 0) + IdxLeft(d, idx[1..])
  }

  lemma {:induction false} IdxLeftDrops(d: nat, idx: seq<nat>, t: nat)
    requires t < |idx| && idx[t] < d
    ensures IdxLeft(d, idx[t := idx[t] + 1]) < IdxLeft(d, idx)
  {
    if t == 0 { assert idx[t := idx[t] + 1][1..] == idx[1..]; }
    else {
      assert idx[t := idx[t] + 1][1..] == idx[1..][t - 1 := idx[1..][t - 1] + 1];
      IdxLeftDrops(d, idx[1..], t - 1);
    }
  }

  function PrepLeft(c: Config, s: State): nat { if s.prepped <= c.l.p.dInner then c.l.p.dInner + 1 - s.prepped else 0 }

  /** A step that changes nothing: `t` waits at a barrier others have not reached, or has returned. */
  predicate Stalled(c: Config, s: State, t: nat)
    requires Shape(c, s) && t < c.n
  {
    s.stage[t] >= RETURNED || (s.stage[t] % 2 == 1 && !Open(s, t))
  }

  datatype Measure = Measure(stage: nat, claims: nat, steps: nat)

  ghost predicate Below(a: Measure, b: Measure) {
    a.stage < b.stage || (a.stage == b.stage && (a.claims < b.claims || (a.claims == b.claims && a.steps < b.steps)))
  }

  function Left(c: Config, s: State): Measure
    requires Shape(c, s)
  {
    Measure(StageLeft(s.stage),
            WS.Unclaimed(InRows(c), s.c1) + WS.Unclaimed(OutRows(c), s.c2),
            WS.LeftAll(InRows(c), s.c1.pc) + WS.LeftAll(OutRows(c), s.c2.pc) + IdxLeft(c.l.p.dInner, s.idx) + PrepLeft(c, s))
  }

  ghost predicate ClaimsHold(c: Config, s: State) {
    Shape(c, s) && WS.Inv(InRows(c), s.c1) && WS.Inv(OutRows(c), s.c2)
  }

  lemma RowStepLeft(c: Config, s: State, t: nat)
    requires ClaimsHold(c, s) && t < c.n
    ensures s.stage[t] == IN_PROJ && !s.c1.pc[t].Done? ==> Below(Left(c, InStep(c, s, t)), Left(c, s))
    ensures s.stage[t] == OUT_PROJ && !s.c2.pc[t].Done? ==> Below(Left(c, OutStep(c, s, t)), Left(c, s))
  {
    if s.stage[t] == IN_PROJ && !s.c1.pc[t].Done? { WS.StepLeft(InRows(c), s.c1, t); }
    if s.stage[t] == OUT_PROJ && !s.c2.pc[t].Done? { WS.StepLeft(OutRows(c), s.c2, t); }
  }

  lemma StageStepLeft(c: Config, s: State, t: nat)
    requires Shape(c, s) && t < c.n && s.stage[t] < RETURNED
    ensures Below(Left(c, Advance(c, s, t)), Left(c, s))
  {
    StageLeftDrops(s.stage, t);
  }

  lemma ScanStepLeft(c: Config, s: State, t: nat)
    requires Shape(c, s) && t < c.n && s.idx[t] < Hi(c, t) && s.idx[t] < c.l.p.dInner
    ensures Below(Left(c, ScanStep(c, s, t)), Left(c, s))
  {
    IdxLeftDrops(c.l.p.dInner, s.idx, t);
  }

  lemma PrepareStepLeft(c: Config, s: State, t: nat)
    requires Shape(c, s) && t < c.n && t == 0 && s.prepped <= c.l.p.dInner
    ensures Below(Left(c, PrepareStep(c, s, t)), Left(c, s))
  { }

  lemma PhaseStepLeft(c: Config, s: State, t: nat)
    requires ClaimsHold(c, s) && t < c.n && !AtBarrier(s, t) && s.stage[t] < RETURNED
    ensures Below(Left(c, PhaseStep(c, s, t)), Left(c, s))
  {
    var g, r := s.stage[t], PhaseStep(c, s, t);
    if r == Advance(c, s, t) { StageStepLeft(c, s, t); }
    else if g == SCAN { ScanStepLeft(c, s, t); }
    else if g == PREPARE { PrepareStepLeft(c, s, t); }
    else { RowStepLeft(c, s, t); }
  }

  lemma StepLeft(c: Config, s: State, t: nat)
    requires ClaimsHold(c, s) && t < c.n && !Stalled(c, s, t)
    ensures Below(Left(c, Step(c, s, t)), Left(c, s))
  {
    if AtBarrier(s, t) { StageStepLeft(c, s, t); } else { PhaseStepLeft(c, s, t); }
  }

  /** No deadlock: while a worker has not returned, some worker can move. */
  lemma CanAdvance(c: Config, s: State) returns (t: nat)
    requires Inv(c, s) && !AllReturned(c, s)
    ensures t < c.n && !Stalled(c, s, t)
  {
    t :| t < c.n && s.stage[t] < RETURNED;
    var k := 0;
    while k < c.n
      invariant k <= c.n && t < c.n && s.stage[t] < RETURNED
      invariant forall u :: 0 <= u < k ==> s.stage[u] >= s.stage[t]
    {
      if s.stage[k] < s.stage[t] { t := k; }
      k := k + 1;
    }
  }

  /** From every reachable state the dispatch can be run to its end. */
  lemma CanFinish(c: Config, s: State) returns (sched: seq<nat>)
    requires Inv(c, s)
    ensures Schedule(c, sched) && AllReturned(c, Run(c, s, sched))
    decreases Left(c, s).stage, Left(c, s).claims, Left(c, s).steps
  {
    sched := [];
    if !AllReturned(c, s) {
      var t := CanAdvance(c, s);
      StepInv(c, s, t);
      StepLeft(c, s, t);
      var rest := CanFinish(c, Step(c, s, t));
      sched := [t] + rest;
      RunCons(c, s, t, rest);
    }
  }

  lemma RunCons(c: Config, s: State, t: nat, rest: seq<nat>)
    requires Shape(c, s) && t < c.n && Schedule(c, rest)
    ensures Schedule(c, [t] + rest) && Run(c, s, [t] + rest) == Run(c, Step(c, s, t), rest)
  {
    assert ([t] + rest)[1..] == rest;
  }
}
