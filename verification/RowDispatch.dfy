/**
 * The row workers of both matrix products inside their dispatches: rows are claimed and written in any
 * interleaving, and the output is the scaled naive product all the same.
 */
module RowDispatch {
  import opened Ternary
  import Avx2
  import Avx2Rows
  import Tmac
  import WS = WorkSteal

  /** `out[x]` is updated when its row is computed. */
  datatype State = State(k: WS.Claims, out: seq<real>)

  predicate Shape(c: WS.Config, s: State) { WS.Shape(c, s.k) && |s.out| == c.rows }

  /** `upd` gives the new output of a row from the old one. */
  function Step(c: WS.Config, upd: (nat, real) -> real, s: State, t: nat): (r: State)
    requires Shape(c, s) && t < c.n
    ensures Shape(c, r)
  {
    var k := WS.Step(c, s.k, t);
    if WS.Computes(c, s.k, t) then
      var x := s.k.pc[t].row;
      State(k, s.out[x := upd(x, s.out[x])])
    else State(k, s.out)
  }

  function Run(c: WS.Config, upd: (nat, real) -> real, s: State, sched: seq<nat>): (r: State)
    requires Shape(c, s) && WS.Schedule(c, sched)
    ensures Shape(c, r)
    decreases |sched|
  {
    if sched == [] then s else Run(c, upd, Step(c, upd, s, sched[0]), sched[1..])
  }

  function Start(c: WS.Config, out: seq<real>): State { State(WS.Init(c), out) }

  ghost predicate Inv(c: WS.Config, upd: (nat, real) -> real, out: seq<real>, s: State) {
    && Shape(c, s) && WS.Inv(c, s.k) && |out| == c.rows
    && forall x :: 0 <= x < c.rows ==> s.out[x] == if s.k.runs[x] == 0 then out[x] else upd(x, out[x])
  }

  lemma StepInv(c: WS.Config, upd: (nat, real) -> real, out: seq<real>, s: State, t: nat)
    requires Inv(c, upd, out, s) && t < c.n
    ensures Inv(c, upd, out, Step(c, upd, s, t))
  {
    WS.StepInv(c, s.k, t);
    if WS.Computes(c, s.k, t) { WS.NoRowRace(c, s.k, t, t); }
  }

  lemma {:induction false} RunInv(c: WS.Config, upd: (nat, real) -> real, out: seq<real>, s: State, sched: seq<nat>)
    requires Inv(c, upd, out, s) && WS.Schedule(c, sched)
    ensures Inv(c, upd, out, Run(c, upd, s, sched))
    decreases |sched|
  {
    if sched != [] {
      StepInv(c, upd, out, s, sched[0]);
      RunInv(c, upd, out, Step(c, upd, s, sched[0]), sched[1..]);
    }
  }

  /** No chunk falls between the threads that take part and the counter's initial value. */
  predicate NoGap(c: WS.Config) { c.Valid() && (!c.steal || c.ctr0 == c.n || WS.Total(c) <= c.n) }

  predicate Complete(c: WS.Config, upd: (nat, real) -> real, out: seq<real>, sched: seq<nat>) {
    c.Valid() && |out| == c.rows && WS.Schedule(c, sched) && WS.AllDone(c, Run(c, upd, Start(c, out), sched).k)
  }

  /** On every complete schedule each output is updated exactly once, from its old value. */
  lemma UpdatedOnce(c: WS.Config, upd: (nat, real) -> real, out: seq<real>, sched: seq<nat>)
    requires NoGap(c) && Complete(c, upd, out, sched)
    ensures forall x :: 0 <= x < c.rows ==> Run(c, upd, Start(c, out), sched).out[x] == upd(x, out[x])
  {
    WS.InitInv(c);
    RunInv(c, upd, out, Start(c, out), sched);
    var s := Run(c, upd, Start(c, out), sched);
    forall x | 0 <= x < c.rows ensures s.out[x] == upd(x, out[x]) {
      WS.FinalRuns(c, s.k, x);
      WS.NoneSkipped(c, x);
    }
  }

  // ---------------------------------------------------------------- the lane kernel

  /** The dispatch of the AVX2 forward pass, or its single worker when there are few rows or one thread. */
  function LaneDispatch(rows: nat, nThreads: nat, nodes: nat): WS.Config
    requires nThreads >= 1
  {
    if rows >= WS.PAR_THRESHOLD && nThreads > 1 then WS.ForwardDispatch(rows, nThreads, nodes) else WS.Config(rows, 1, false, 1, 1)
  }

  lemma LaneNoGap(rows: nat, nThreads: nat, nodes: nat)
    requires nThreads >= 1
    ensures NoGap(LaneDispatch(rows, nThreads, nodes))
  {
    if rows >= WS.PAR_THRESHOLD && nThreads > 1 {
      WS.ForwardDispatchCovers(rows, nThreads, nodes);
      WS.CoversIff(LaneDispatch(rows, nThreads, nodes));
    }
  }

  /** A row step stores what the lanes, the horizontal sum and the column tail make of the row. */
  ghost function LaneRow(w: Avx2Rows.Work): (nat, real) -> real
    requires w.Valid()
  {
    (r: nat, o: real) => if r < |w.ws| then w.Computed(r) else o
  }

  /**
   * For every thread count, node count and interleaving of claims and rows, the AVX2 product is the
   * scaled naive product of the packed weights, row by row.
   */
  lemma LaneForward(packed: seq<Byte>, rows: nat, cols: nat, x: seq<int>, inv: real, nThreads: nat, nodes: nat,
                    out: seq<real>, sched: seq<nat>)
    requires Tmac.Matrix(packed, (cols + 3) / 4, rows) && cols <= |x| && cols <= Avx2.MAX_DIM && Int8(x) && nThreads >= 1
    requires Complete(LaneDispatch(rows, nThreads, nodes), LaneRow(Avx2Rows.PackedWork(packed, rows, cols, x, inv)), out, sched)
    ensures var c, w := LaneDispatch(rows, nThreads, nodes), Avx2Rows.PackedWork(packed, rows, cols, x, inv);
            var final := Run(c, LaneRow(w), Start(c, out), sched).out;
            |final| == rows
            && forall r :: 0 <= r < rows ==> final[r] == Tmac.Scaled(Dot(Tmac.RowBytes(packed, (cols + 3) / 4, rows, r), x, 0, cols), inv)
  {
    var c, w := LaneDispatch(rows, nThreads, nodes), Avx2Rows.PackedWork(packed, rows, cols, x, inv);
    LaneNoGap(rows, nThreads, nodes);
    UpdatedOnce(c, LaneRow(w), out, sched);
    forall r | 0 <= r < rows
      ensures w.Computed(r) == Tmac.Scaled(Dot(Tmac.RowBytes(packed, (cols + 3) / 4, rows, r), x, 0, cols), inv)
    {
      Avx2Rows.ComputedRow(w, r);
      Avx2Rows.NaiveRow(packed, rows, cols, x, inv, r);
    }
  }

  // ---------------------------------------------------------------- the table kernel

  /** The dispatch of one block: static ranges over as many threads as take part. */
  function TableDispatch(rows: nat, poolThreads: nat): (c: WS.Config)
    requires poolThreads >= 1
    ensures NoGap(c)
  {
    var n := if rows >= Tmac.PAR_THRESHOLD && poolThreads > 1 then if rows < poolThreads then rows else poolThreads else 1;
    WS.Config(rows, n, false, 1, n)
  }

  /** A row worker adds the block's total to the row. */
  ghost function TableRow(w: Tmac.Block): (nat, real) -> real
    requires w.Valid()
  {
    (r: nat, o: real) => if r < |w.ws| then o + w.Total(r) else o
  }

  lemma TableBlock(w: Tmac.Block, poolThreads: nat, out: seq<real>, sched: seq<nat>)
    requires w.Valid() && poolThreads >= 1 && Complete(TableDispatch(|w.ws|, poolThreads), TableRow(w), out, sched)
    ensures var c := TableDispatch(|w.ws|, poolThreads);
            Tmac.Added(w, out, Run(c, TableRow(w), Start(c, out), sched).out, 0, |w.ws|)
  {
    UpdatedOnce(TableDispatch(|w.ws|, poolThreads), TableRow(w), out, sched);
  }

  function Table(x: seq<int>): (lut: seq<int>)
    requires |x| == 4
    ensures |lut| == 16
  {
    seq(16, (m: nat) => Tmac.SubsetSum(x, m))
  }

  /** The first group of block `b`, and of the block after it. */
  function GroupStart(cols: nat, b: nat): (g: nat)
    ensures g <= cols / 4
  {
    if b * Tmac.BLOCK > cols / 4 then cols / 4 else b * Tmac.BLOCK
  }

  function BlockTables(p: Tmac.Product, b: nat): (luts: seq<seq<int>>)
    requires p.cols <= |p.x|
  {
    var g := GroupStart(p.cols, b);
    seq(GroupStart(p.cols, b + 1) - g, (i: nat) requires i < GroupStart(p.cols, b + 1) - g && p.cols <= |p.x| =>
      Table(p.x[4 * (g + i)..4 * (g + i) + 4]))
  }

  lemma TablesFit(p: Tmac.Product, b: nat)
    requires p.Valid()
    ensures var g := GroupStart(p.cols, b);
            |BlockTables(p, b)| == GroupStart(p.cols, b + 1) - g && Tmac.LutsFor(BlockTables(p, b), p.x, g, |BlockTables(p, b)|)
  {
    var g, luts := GroupStart(p.cols, b), BlockTables(p, b);
    forall i | 0 <= i < |luts| ensures Tmac.IsLut(luts[i], p.x[4 * (g + i)..4 * (g + i) + 4]) {
      TableIsLut(p.x[4 * (g + i)..4 * (g + i) + 4]);
    }
  }

  lemma TableIsLut(x: seq<int>)
    requires |x| == 4
    ensures Tmac.IsLut(Table(x), x)
  {
    forall m | 0 <= m < 16 ensures Table(x)[m] == Tmac.SubsetSum(x, m) { }
  }

  ghost function BlockAt(p: Tmac.Product, b: nat): (w: Tmac.Block)
    requires p.Valid()
    ensures w.Valid() && w.ws == p.ws
  {
    var g := GroupStart(p.cols, b);
    var luts := BlockTables(p, b);
    TablesFit(p, b);
    Tmac.BlockFits(p, luts, g, |luts|);
    Tmac.BlockOf(p, luts, g, |luts|)
  }

  /** The dispatch of block `b` runs to its end under `sched` and turns `before` into `after`. */
  ghost predicate BlockRun(p: Tmac.Product, poolThreads: nat, b: nat, before: seq<real>, sched: seq<nat>,
                           after: seq<real>)
    requires p.Valid() && poolThreads >= 1
  {
    var c, upd := TableDispatch(|p.ws|, poolThreads), TableRow(BlockAt(p, b));
    Complete(c, upd, before, sched) && after == Run(c, upd, Start(c, before), sched).out
  }

  /** `out` is what the blocks leave, one dispatch after the other, each under its own schedule. */
  ghost predicate Dispatched(p: Tmac.Product, poolThreads: nat, scheds: seq<seq<nat>>, out: seq<real>)
    requires p.Valid() && poolThreads >= 1
    decreases |scheds|
  {
    if scheds == [] then out == seq(|p.ws|, _ => 0.0)
    else
      var b := |scheds| - 1;
      exists before :: Dispatched(p, poolThreads, scheds[..b], before) && BlockRun(p, poolThreads, b, before, scheds[b], out)
  }

  /** Then every row holds the product over the columns of those blocks. */
  lemma {:induction false} TableBlocks(p: Tmac.Product, poolThreads: nat, scheds: seq<seq<nat>>, out: seq<real>)
    requires p.Valid() && poolThreads >= 1 && Dispatched(p, poolThreads, scheds, out)
    ensures Tmac.PartDone(p, out, 4 * GroupStart(p.cols, |scheds|))
    decreases |scheds|
  {
    if scheds == [] {
      NothingYet(p);
    } else {
      var b := |scheds| - 1;
      var before :| Dispatched(p, poolThreads, scheds[..b], before) && BlockRun(p, poolThreads, b, before, scheds[b], out);
      TableBlocks(p, poolThreads, scheds[..b], before);
      TableBlock(BlockAt(p, b), poolThreads, before, scheds[b]);
      NextBlock(p, b, before, out);
    }
  }

  lemma NothingYet(p: Tmac.Product)
    requires p.Valid()
    ensures Tmac.PartDone(p, seq(|p.ws|, _ => 0.0), 0)
  { }

  lemma NextBlock(p: Tmac.Product, b: nat, before: seq<real>, after: seq<real>)
    requires p.Valid() && Tmac.PartDone(p, before, 4 * GroupStart(p.cols, b)) && Tmac.Added(BlockAt(p, b), before, after, 0, |p.ws|)
    ensures Tmac.PartDone(p, after, 4 * GroupStart(p.cols, b + 1))
  {
    TablesFit(p, b);
    var g, luts := GroupStart(p.cols, b), BlockTables(p, b);
    Tmac.BlockDone(p, luts, g, |luts|, before, after);
  }

  function Blocks(cols: nat): nat { (cols / 4 + Tmac.BLOCK - 1) / Tmac.BLOCK }

  /** The serial tail: the columns that do not fill a group. */
  function AddRemainder(p: Tmac.Product, out: seq<real>): (r: seq<real>)
    requires p.Valid() && |out| == |p.ws|
    ensures |r| == |out|
  {
    seq(|out|, (i: nat) requires p.Valid() && i < |out| == |p.ws| => out[i] + Tmac.Scaled(Dot(p.ws[i], p.x, p.cols / 4 * 4, p.cols), p.inv))
  }

  /**
   * The whole table product: whatever the interleaving inside each block's dispatch, every row ends as
   * the scaled naive product.
   */
  lemma TableForward(p: Tmac.Product, poolThreads: nat, scheds: seq<seq<nat>>, out: seq<real>)
    requires p.Valid() && poolThreads >= 1 && |scheds| == Blocks(p.cols) && Dispatched(p, poolThreads, scheds, out)
    ensures |out| == |p.ws|
    ensures forall r :: 0 <= r < |p.ws| ==> AddRemainder(p, out)[r] == Tmac.Scaled(Dot(p.ws[r], p.x, 0, p.cols), p.inv)
  {
    TableBlocks(p, poolThreads, scheds, out);
    LastBlock(p.cols);
    forall r | 0 <= r < |p.ws| ensures AddRemainder(p, out)[r] == Tmac.Scaled(Dot(p.ws[r], p.x, 0, p.cols), p.inv) {
      RemainderRow(p, out, r);
    }
  }

  lemma LastBlock(cols: nat)
    ensures GroupStart(cols, Blocks(cols)) == cols / 4
  {
    assert Blocks(cols) * Tmac.BLOCK >= cols / 4;
  }

  lemma RemainderRow(p: Tmac.Product, out: seq<real>, r: nat)
    requires p.Valid() && r < |p.ws| && Tmac.PartDone(p, out, 4 * (p.cols / 4))
    ensures AddRemainder(p, out)[r] == Tmac.Scaled(Dot(p.ws[r], p.x, 0, p.cols), p.inv)
  {
    var m := p.cols / 4 * 4;
    DotSplit(p.ws[r], p.x, 0, m, p.cols);
    Tmac.ScaledSum(Dot(p.ws[r], p.x, 0, m), Dot(p.ws[r], p.x, m, p.cols), p.inv);
    assert out[r] == p.Part(r, m);
  }
}
