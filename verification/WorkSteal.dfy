/**
 * Row distribution inside a dispatch: chunks claimed first by tid and then from a shared counter,
 * or a static range per thread. One transition per row, per claim test and per fetch_add.
 */
module WorkSteal {
  import opened Basics
  import WorkRange

  /** `ctr0` is the counter's initial value; `n` threads actually take part. */
  datatype Config = Config(rows: nat, n: nat, steal: bool, chunk: nat, ctr0: nat)
  {
    predicate Valid() { n >= 1 && (steal ==> chunk >= 1 && ctr0 >= n) }
  }

  /** Pieces of work: chunks when stealing, one range per thread otherwise. */
  function Total(c: Config): nat
    requires c.Valid()
  {
    if c.steal then Chunks(c.rows, c.chunk) else c.n
  }

  function Lo(c: Config, p: nat): nat
    requires c.Valid()
  {
    if c.steal then p * c.chunk else WorkRange.Range(p, c.n, c.rows).0
  }

  function Hi(c: Config, p: nat): nat
    requires c.Valid()
  {
    if c.steal then if p * c.chunk + c.chunk > c.rows then c.rows else p * c.chunk + c.chunk
    else WorkRange.Range(p, c.n, c.rows).1
  }

  predicate InPiece(c: Config, p: nat, x: nat)
    requires c.Valid()
  {
    Lo(c, p) <= x < Hi(c, p)
  }

  function Chunks(rows: nat, chunk: nat): nat
    requires chunk >= 1
  {
    (rows + chunk - 1) / chunk
  }

  lemma ChunkStarts(rows: nat, chunk: nat, p: nat)
    requires chunk >= 1
    ensures p < Chunks(rows, chunk) <==> p * chunk < rows
  {
    var total := Chunks(rows, chunk);
    assert total * chunk <= rows + chunk - 1 < total * chunk + chunk;
    if p < total { ChunksDisjoint(chunk, p, total); } else { TimesMonotone(total, p, chunk); }
  }

  lemma ChunksDisjoint(chunk: nat, p: nat, q: nat)
    requires p < q
    ensures p * chunk + chunk <= q * chunk
  {
    assert (q - p - 1) * chunk >= 0;
    assert (q - p - 1) * chunk == q * chunk - p * chunk - chunk;
  }

  lemma PieceBounds(c: Config, p: nat)
    requires c.Valid() && p < Total(c)
    ensures Lo(c, p) <= Hi(c, p) <= c.rows
  {
    if c.steal { ChunkStarts(c.rows, c.chunk, p); } else { WorkRange.Within(p, c.n, c.rows); }
  }

  /** Every row lies in exactly one piece. */
  lemma PieceOf(c: Config, x: nat) returns (p: nat)
    requires c.Valid() && x < c.rows
    ensures p < Total(c) && InPiece(c, p, x)
  {
    if c.steal {
      p := x / c.chunk;
      assert p * c.chunk <= x < p * c.chunk + c.chunk;
      ChunkStarts(c.rows, c.chunk, p);
    } else {
      WorkRange.Adjacent(c.n - 1, c.n, c.rows);
      p := WorkRange.FindOwner(x, c.n, c.rows, c.n - 1);
    }
  }

  lemma PieceUnique(c: Config, p: nat, q: nat, x: nat)
    requires c.Valid() && InPiece(c, p, x) && InPiece(c, q, x)
    ensures p == q
  {
    if c.steal {
      if p < q { ChunksDisjoint(c.chunk, p, q); }
      if q < p { ChunksDisjoint(c.chunk, q, p); }
    } else {
      WorkRange.Unique(x, p, q, c.n, c.rows);
    }
  }

  datatype PC = Test(piece: nat) | Rows(piece: nat, row: nat) | Grab | Done

  /** `runs` counts, per row, how often it has been computed. */
  datatype Claims = Claims(ctr: nat, pc: seq<PC>, runs: seq<nat>)

  predicate Shape(c: Config, w: Claims) { c.Valid() && |w.pc| == c.n && |w.runs| == c.rows }

  function Init(c: Config): Claims {
    Claims(c.ctr0, seq(c.n, t requires 0 <= t => Test(t)), seq(c.rows, _ => 0))
  }

  /** Is thread `t` about to compute a row? */
  predicate Computes(c: Config, w: Claims, t: nat)
    requires Shape(c, w) && t < c.n
  {
    w.pc[t].Rows? && w.pc[t].row < Hi(c, w.pc[t].piece) && w.pc[t].row < c.rows
  }

  function Step(c: Config, w: Claims, t: nat): (r: Claims)
    requires Shape(c, w) && t < c.n
    ensures Shape(c, r)
  {
    match w.pc[t]
    case Test(p) => w.(pc := w.pc[t := if p < Total(c) then Rows(p, Lo(c, p)) else Done])
    case Rows(p, x) =>
      if Computes(c, w, t) then w.(pc := w.pc[t := Rows(p, x + 1)], runs := w.runs[x := w.runs[x] + 1])
      else w.(pc := w.pc[t := if c.steal then Grab else Done])
    case Grab => w.(pc := w.pc[t := Test(w.ctr)], ctr := w.ctr + 1)
    case Done => w
  }

  // ---------------------------------------------------------------- the invariant

  predicate Holds(p: PC, k: nat) { (p.Test? || p.Rows?) && p.piece == k }

  predicate Claimed(c: Config, w: Claims, k: nat) {
    k < c.n || (c.steal && c.ctr0 <= k < w.ctr)
  }

  ghost predicate Held(w: Claims, k: nat) { exists t :: 0 <= t < |w.pc| && Holds(w.pc[t], k) }

  ghost predicate Exclusive(w: Claims) {
    forall t, u :: 0 <= t < |w.pc| && 0 <= u < |w.pc| && t != u && (w.pc[t].Test? || w.pc[t].Rows?) ==>
      !Holds(w.pc[u], w.pc[t].piece)
  }

  ghost predicate ThreadInv(c: Config, w: Claims, t: nat)
    requires Shape(c, w) && t < c.n
  {
    match w.pc[t]
    case Test(p) => Claimed(c, w, p)
    case Rows(p, x) => Claimed(c, w, p) && p < Total(c) && Lo(c, p) <= x <= Hi(c, p)
    case Grab => c.steal
    case Done => !c.steal || t >= Total(c) || w.ctr > Total(c)
  }

  /** What has happened to row `x` of piece `p`, from who holds `p`. */
  ghost predicate RowInv(c: Config, w: Claims, p: nat, x: nat)
    requires Shape(c, w) && x < c.rows
  {
    && (forall t :: 0 <= t < c.n && Holds(w.pc[t], p) ==>
          w.runs[x] == if w.pc[t].Rows? && x < w.pc[t].row then 1 else 0)
    && (!Held(w, p) ==> w.runs[x] == if Claimed(c, w, p) then 1 else 0)
  }

  ghost predicate Inv(c: Config, w: Claims) {
    && Shape(c, w) && (c.steal ==> w.ctr >= c.ctr0)
    && Exclusive(w)
    && (forall t :: 0 <= t < c.n ==> ThreadInv(c, w, t))
    && (forall p: nat, x: nat :: x < c.rows && p < Total(c) && InPiece(c, p, x) ==> RowInv(c, w, p, x))
  }

  lemma InitInv(c: Config)
    requires c.Valid()
    ensures Inv(c, Init(c))
  {
    var w := Init(c);
    forall p: nat, x: nat | x < c.rows && p < Total(c) && InPiece(c, p, x) ensures RowInv(c, w, p, x) {
      if p < c.n { assert Holds(w.pc[p], p); }
    }
  }

  /** A piece changes hands only through the thread that steps. */
  lemma SameHolders(c: Config, w: Claims, r: Claims, t: nat, p: nat)
    requires Shape(c, w) && Shape(c, r) && t < c.n && r.pc == w.pc[t := r.pc[t]]
    requires Holds(w.pc[t], p) == Holds(r.pc[t], p)
    ensures Held(w, p) == Held(r, p)
  {
    if Held(w, p) { var u :| 0 <= u < |w.pc| && Holds(w.pc[u], p); assert Holds(r.pc[u], p); }
    if Held(r, p) { var u :| 0 <= u < |r.pc| && Holds(r.pc[u], p); assert Holds(w.pc[u], p); }
  }

  /** The row a thread computes lies in the piece it holds. */
  lemma OwnRow(c: Config, w: Claims, t: nat, p: nat, x: nat)
    requires Inv(c, w) && t < c.n && Computes(c, w, t) && InPiece(c, p, x) && w.pc[t].row == x
    ensures w.pc[t].piece == p
  {
    assert ThreadInv(c, w, t);
    PieceUnique(c, p, w.pc[t].piece, x);
  }

  lemma StepRow(c: Config, w: Claims, t: nat, p: nat, x: nat)
    requires Inv(c, w) && t < c.n && x < c.rows && p < Total(c) && InPiece(c, p, x)
    ensures RowInv(c, Step(c, w, t), p, x)
  {
    var r := Step(c, w, t);
    assert RowInv(c, w, p, x) && ThreadInv(c, w, t);
    if Computes(c, w, t) && w.pc[t].row == x { OwnRow(c, w, t, p, x); }
    if Holds(w.pc[t], p) == Holds(r.pc[t], p) {
      SameHolders(c, w, r, t, p);
    } else if Holds(r.pc[t], p) {
      assert Held(r, p) && p == w.ctr;
      assert !Held(w, p) by { forall u | 0 <= u < c.n ensures !Holds(w.pc[u], p) { assert ThreadInv(c, w, u); } }
    } else {
      assert !Held(r, p) by { forall u | 0 <= u < c.n ensures !Holds(r.pc[u], p) { assert u == t || r.pc[u] == w.pc[u]; } }
    }
  }

  lemma StepInv(c: Config, w: Claims, t: nat)
    requires Inv(c, w) && t < c.n
    ensures Inv(c, Step(c, w, t))
  {
    var r := Step(c, w, t);
    assert ThreadInv(c, w, t);
    if w.pc[t].Test? && w.pc[t].piece < Total(c) { PieceBounds(c, w.pc[t].piece); }
    forall u | 0 <= u < c.n ensures ThreadInv(c, r, u) { assert ThreadInv(c, w, u); }
    forall p: nat, x: nat | x < c.rows && p < Total(c) && InPiece(c, p, x) ensures RowInv(c, r, p, x) {
      StepRow(c, w, t, p, x);
    }
    if w.pc[t].Grab? {
      forall u | 0 <= u < c.n && u != t ensures !Holds(w.pc[u], w.ctr) { assert ThreadInv(c, w, u); }
    }
  }

  // ---------------------------------------------------------------- all runs

  predicate Schedule(c: Config, sched: seq<nat>) { forall i :: 0 <= i < |sched| ==> sched[i] < c.n }

  function Run(c: Config, w: Claims, sched: seq<nat>): (r: Claims)
    requires Shape(c, w) && Schedule(c, sched)
    ensures Shape(c, r)
    decreases |sched|
  {
    if sched == [] then w else Run(c, Step(c, w, sched[0]), sched[1..])
  }

  lemma {:induction false} RunInv(c: Config, w: Claims, sched: seq<nat>)
    requires Inv(c, w) && Schedule(c, sched)
    ensures Inv(c, Run(c, w, sched))
    decreases |sched|
  {
    if sched != [] {
      StepInv(c, w, sched[0]);
      RunInv(c, Step(c, w, sched[0]), sched[1..]);
    }
  }

  predicate AllDone(c: Config, w: Claims) { |w.pc| == c.n && forall t :: 0 <= t < c.n ==> w.pc[t].Done? }

  lemma ChunkOf(c: Config, p: nat, x: nat)
    requires c.Valid() && c.steal && InPiece(c, p, x)
    ensures p == x / c.chunk
  {
    assert (x / c.chunk) * c.chunk <= x < (x / c.chunk) * c.chunk + c.chunk;
    if p < x / c.chunk { ChunksDisjoint(c.chunk, p, x / c.chunk); }
    if x / c.chunk < p { ChunksDisjoint(c.chunk, x / c.chunk, p); }
  }

  /** The chunk a row belongs to falls between the participating tids and the counter. */
  predicate Skipped(c: Config, x: nat)
    requires c.Valid()
  {
    c.steal && c.n <= x / c.chunk < c.ctr0
  }

  /** At the end a row has been computed once, unless its chunk was skipped. */
  lemma FinalRuns(c: Config, w: Claims, x: nat)
    requires Inv(c, w) && AllDone(c, w) && x < c.rows
    ensures w.runs[x] == if Skipped(c, x) then 0 else 1
  {
    var p := PieceOf(c, x);
    assert RowInv(c, w, p, x) && ThreadInv(c, w, 0);
    assert !Held(w, p);
    if c.steal { ChunkOf(c, p, x); }
  }

  /** No row is ever computed twice, and the rows being computed now are fresh and distinct. */
  lemma NoRowRace(c: Config, w: Claims, t: nat, u: nat)
    requires Inv(c, w) && t < c.n && u < c.n && Computes(c, w, t)
    ensures w.runs[w.pc[t].row] == 0
    ensures t != u && Computes(c, w, u) ==> w.pc[t].row != w.pc[u].row
  {
    var p, x := w.pc[t].piece, w.pc[t].row;
    assert ThreadInv(c, w, t) && InPiece(c, p, x) && Holds(w.pc[t], p);
    assert RowInv(c, w, p, x);
    if t != u && Computes(c, w, u) && w.pc[u].row == x {
      assert ThreadInv(c, w, u);
      PieceUnique(c, p, w.pc[u].piece, x);
    }
  }

  // ---------------------------------------------------------------- termination

  function Unclaimed(c: Config, w: Claims): nat
    requires Shape(c, w)
  {
    if w.ctr < Total(c) then Total(c) - w.ctr else 0
  }

  function Left(c: Config, p: PC): nat
    requires c.Valid()
  {
    match p
    case Test(k) => if k < Total(c) then 4 + c.rows else 1
    case Rows(_, x) => if x <= c.rows then 3 + c.rows - x else 3
    case Grab => 2
    case Done => 0
  }

  function LeftAll(c: Config, pcs: seq<PC>): nat
    requires c.Valid()
  {
    if pcs == [] then 0 else Left(c, pcs[0]) + LeftAll(c, pcs[1..])
  }

  lemma {:induction false} LeftUpdate(c: Config, pcs: seq<PC>, t: nat, p: PC)
    requires c.Valid() && t < |pcs|
    ensures LeftAll(c, pcs[t := p]) == LeftAll(c, pcs) - Left(c, pcs[t]) + Left(c, p)
  {
    if t == 0 { assert pcs[t := p][1..] == pcs[1..]; }
    else {
      assert pcs[t := p][1..] == pcs[1..][t - 1 := p];
      LeftUpdate(c, pcs[1..], t - 1, p);
    }
  }

  /** Every step of a thread that is not done brings the dispatch nearer its end. */
  lemma StepLeft(c: Config, w: Claims, t: nat)
    requires Inv(c, w) && t < c.n && !w.pc[t].Done?
    ensures var r := Step(c, w, t);
      Unclaimed(c, r) < Unclaimed(c, w)
      || (Unclaimed(c, r) == Unclaimed(c, w) && LeftAll(c, r.pc) < LeftAll(c, w.pc))
  {
    assert ThreadInv(c, w, t);
    if w.pc[t].Rows? { PieceBounds(c, w.pc[t].piece); }
    LeftUpdate(c, w.pc, t, Step(c, w, t).pc[t]);
  }

  lemma CanFinish(c: Config, w: Claims) returns (sched: seq<nat>)
    requires Inv(c, w)
    ensures Schedule(c, sched) && AllDone(c, Run(c, w, sched))
    decreases Unclaimed(c, w), LeftAll(c, w.pc)
  {
    sched := [];
    if !AllDone(c, w) {
      var t: nat :| t < c.n && !w.pc[t].Done?;
      StepInv(c, w, t);
      StepLeft(c, w, t);
      var rest := CanFinish(c, Step(c, w, t));
      sched := [t] + rest;
      assert sched[1..] == rest;
    }
  }

  ghost predicate CoversAlways(c: Config)
    requires c.Valid()
  {
    forall sched :: Schedule(c, sched) && AllDone(c, Run(c, Init(c), sched)) ==>
      forall x :: 0 <= x < c.rows ==> Run(c, Init(c), sched).runs[x] == 1
  }

  lemma NoneSkipped(c: Config, x: nat)
    requires c.Valid() && (!c.steal || c.ctr0 == c.n || Total(c) <= c.n) && x < c.rows
    ensures !Skipped(c, x)
  {
    if c.steal { var p := PieceOf(c, x); ChunkOf(c, p, x); }
  }

  lemma SomeSkipped(c: Config) returns (sched: seq<nat>, x: nat)
    requires c.Valid() && c.steal && c.ctr0 != c.n && Total(c) > c.n
    ensures x < c.rows && Schedule(c, sched) && AllDone(c, Run(c, Init(c), sched))
    ensures Run(c, Init(c), sched).runs[x] == 0
  {
    InitInv(c);
    sched := CanFinish(c, Init(c));
    RunInv(c, Init(c), sched);
    x := c.n * c.chunk;
    ChunkStarts(c.rows, c.chunk, c.n);
    ChunkOf(c, c.n, x);
    FinalRuns(c, Run(c, Init(c), sched), x);
  }

  /**
   * Every complete run computes every row exactly once, if and only if no chunk falls between
   * the threads that take part and the counter's initial value.
   */
  lemma CoversIff(c: Config)
    requires c.Valid()
    ensures CoversAlways(c) <==> (!c.steal || c.ctr0 == c.n || Total(c) <= c.n)
  {
    if !c.steal || c.ctr0 == c.n || Total(c) <= c.n {
      forall sched | Schedule(c, sched) && AllDone(c, Run(c, Init(c), sched))
        ensures forall x :: 0 <= x < c.rows ==> Run(c, Init(c), sched).runs[x] == 1
      {
        InitInv(c);
        RunInv(c, Init(c), sched);
        forall x | 0 <= x < c.rows ensures Run(c, Init(c), sched).runs[x] == 1 {
          FinalRuns(c, Run(c, Init(c), sched), x);
          NoneSkipped(c, x);
        }
      }
    } else {
      var sched, x := SomeSkipped(c);
    }
  }

  const PAR_THRESHOLD := 64

  function ChunkSize(rows: nat, nThreads: nat): nat
    requires nThreads >= 1
  {
    var cs := rows / (nThreads * 4);
    if cs < 8 then 8 else cs
  }

  /** What the AVX2 forward pass dispatches: threads capped by the row count, counter at the pool size. */
  function ForwardDispatch(rows: nat, nThreads: nat, nodes: nat): Config
    requires nThreads >= 1
  {
    Config(rows, if rows < nThreads then rows else nThreads, nodes <= 1, ChunkSize(rows, nThreads), nThreads)
  }

  /** The capped dispatch is safe: chunks are large enough that the skipped ones do not exist. */
  lemma ForwardDispatchCovers(rows: nat, nThreads: nat, nodes: nat)
    requires nThreads > 1 && rows >= PAR_THRESHOLD
    ensures ForwardDispatch(rows, nThreads, nodes).Valid() && CoversAlways(ForwardDispatch(rows, nThreads, nodes))
  {
    var c := ForwardDispatch(rows, nThreads, nodes);
    if c.steal && rows < nThreads {
      assert rows * c.chunk >= rows * 8 by { assert rows * (c.chunk - 8) >= 0; }
      ChunkStarts(rows, c.chunk, rows);
    }
    CoversIff(c);
  }
}
