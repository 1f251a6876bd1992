/**
 * The batched scan: each thread owns a slice of channels and loops over all tokens inside one
 * dispatch, without synchronisation. One transition per channel and token.
 */
module ScanBatch {
  import opened Scan
  import WorkRange

  /** `n` threads, the projection rows of the batch, and the block's memory at the start. */
  datatype Config = Config(p: Kernel, projs: seq<seq<real>>, n: nat, conv0: seq<real>, ssm0: seq<real>, pos0: nat)
  {
    predicate Valid() { n >= 1 && Rows(p, projs) && RingFits(p, conv0, ssm0, pos0) }

    function Lo(t: nat): nat requires n >= 1 { WorkRange.Range(t, n, p.dInner).0 }
    function Hi(t: nat): nat requires n >= 1 { WorkRange.Range(t, n, p.dInner).1 }

    predicate Owns(t: nat, i: nat) requires n >= 1 { WorkRange.InRange(i, t, n, p.dInner) }

    function Chan0(i: nat): Chan
      requires Valid() && i < p.dInner
    {
      ChanOf(p, conv0, ssm0, pos0, i)
    }
  }

  /** A thread's place: the token it is at and the next channel of its slice. */
  datatype Cursor = Cursor(tok: nat, idx: nat)

  /** `y[t][i]` is output `i` of token `t`. */
  datatype State = State(conv: seq<real>, ssm: seq<real>, y: seq<seq<real>>, at: seq<Cursor>)

  predicate Shape(c: Config, s: State) {
    && c.Valid() && |s.at| == c.n && |s.y| == |c.projs|
    && RingFits(c.p, s.conv, s.ssm, c.pos0)
    && (forall t :: 0 <= t < |s.y| ==> |s.y[t]| == c.p.dInner)
  }

  /** A thread with an empty slice skips the token loop. */
  function Start(c: Config, t: nat): Cursor
    requires c.n >= 1
  {
    Cursor(if c.Lo(t) < c.Hi(t) then 0 else |c.projs|, c.Lo(t))
  }

  function Init(c: Config): (s: State)
    requires c.Valid()
    ensures Shape(c, s)
  {
    State(c.conv0, c.ssm0, seq(|c.projs|, _ => seq(c.p.dInner, _ => 0.0)), seq(c.n, (t: nat) requires c.n >= 1 => Start(c, t)))
  }

  /** Thread `t` has a channel left in its current token. */
  predicate Computes(c: Config, s: State, t: nat)
    requires Shape(c, s) && t < c.n
  {
    s.at[t].tok < |c.projs| && s.at[t].idx < c.Hi(t) && s.at[t].idx < c.p.dInner
  }

  function Cell(c: Config, s: State, tok: nat, i: nat): (b: Bufs)
    requires Shape(c, s) && tok < |c.projs| && i < c.p.dInner
    ensures |b.conv| == |s.conv| && |b.ssm| == |s.ssm| && |b.y| == c.p.dInner
  {
    ScanCell(c.p, c.projs[tok], SlotsAt(c.p.dInner, PosAfter(c.pos0, tok), 0), Bufs(s.conv, s.ssm, s.y[tok]), i)
  }

  function Step(c: Config, s: State, t: nat): (r: State)
    requires Shape(c, s) && t < c.n
    ensures Shape(c, r)
  {
    var k := s.at[t].tok;
    if k >= |c.projs| then s
    else if Computes(c, s, t) then
      var b := Cell(c, s, k, s.at[t].idx);
      State(b.conv, b.ssm, s.y[k := b.y], s.at[t := Cursor(k, s.at[t].idx + 1)])
    else s.(at := s.at[t := Cursor(k + 1, c.Lo(t))])
  }

  /** Tokens channel `i` has been through, if `t` owns it. */
  function Progress(a: Cursor, i: nat): nat { if i < a.idx then a.tok + 1 else a.tok }

  /** Channel `i` has seen exactly `k` tokens. */
  ghost predicate ChanInv(c: Config, s: State, i: nat, k: nat)
    requires Shape(c, s) && i < c.p.dInner
  {
    && k <= |c.projs|
    && ChanOf(c.p, s.conv, s.ssm, PosAfter(c.pos0, k), i) == ChanAfter(c.p, c.projs, i, c.Chan0(i), k)
    && forall m :: 0 <= m < k ==> s.y[m][i] == ChanOut(c.p, c.projs, i, c.Chan0(i), m)
  }

  ghost predicate CursorInv(c: Config, a: Cursor, t: nat)
    requires c.Valid()
  {
    a.tok <= |c.projs| && c.Lo(t) <= a.idx && (a.tok == |c.projs| ==> a.idx == c.Lo(t))
  }

  ghost predicate Inv(c: Config, s: State) {
    && Shape(c, s)
    && (forall t :: 0 <= t < c.n ==> CursorInv(c, s.at[t], t))
    && (forall t: nat, i: nat :: t < c.n && i < c.p.dInner && c.Owns(t, i) ==> ChanInv(c, s, i, Progress(s.at[t], i)))
  }

  /** The channel computed is shifted by one token; `Untouched` says what holds of the others. */
  ghost predicate Shifted(c: Config, s: State, b: Bufs, tok: nat, i: nat)
    requires Shape(c, s) && tok < |c.projs| && i < c.p.dInner && |b.y| == c.p.dInner && RingFits(c.p, b.conv, b.ssm, c.pos0)
  {
    (ChanOf(c.p, b.conv, b.ssm, PosAfter(c.pos0, tok + 1), i), b.y[i])
    == ChanStep(c.p, c.projs[tok], i, ChanOf(c.p, s.conv, s.ssm, PosAfter(c.pos0, tok), i))
  }

  ghost predicate Untouched(c: Config, s: State, b: Bufs, tok: nat, i: nat)
    requires Shape(c, s) && tok < |c.projs| && i < c.p.dInner && |b.y| == c.p.dInner && RingFits(c.p, b.conv, b.ssm, c.pos0)
  {
    && b.y[i] == s.y[tok][i]
    && forall q :: 0 <= q < TAPS ==> ChanOf(c.p, b.conv, b.ssm, q, i) == ChanOf(c.p, s.conv, s.ssm, q, i)
  }

  lemma CellEffect(c: Config, s: State, tok: nat, j: nat, i: nat)
    requires Shape(c, s) && tok < |c.projs| && j < c.p.dInner && i < c.p.dInner
    ensures i == j ==> Shifted(c, s, Cell(c, s, tok, j), tok, i)
    ensures i != j ==> Untouched(c, s, Cell(c, s, tok, j), tok, i)
  {
    var pos := PosAfter(c.pos0, tok);
    var o, b0 := SlotsAt(c.p.dInner, pos, 0), Bufs(s.conv, s.ssm, s.y[tok]);
    assert Scanned(c.p, c.projs[tok], o, b0, b0, j, j);
    ScannedMore(c.p, c.projs[tok], o, b0, b0, j, j);
    RingIsShift(c.p, c.projs[tok], b0, Cell(c, s, tok, j), pos, 0, j, j + 1, i);
  }

  /** One transition takes one channel one token further and leaves all others alone. */
  lemma CellStep(c: Config, s: State, r: State, tok: nat, j: nat, i: nat, k: nat)
    requires Shape(c, s) && Shape(c, r) && tok < |c.projs| && j < c.p.dInner && i < c.p.dInner && ChanInv(c, s, i, k)
    requires i == j ==> k == tok
    requires var b := Cell(c, s, tok, j); r.conv == b.conv && r.ssm == b.ssm && r.y == s.y[tok := b.y]
    ensures ChanInv(c, r, i, if i == j then k + 1 else k)
  {
    CellEffect(c, s, tok, j, i);
  }

  lemma StepInv(c: Config, s: State, t: nat)
    requires Inv(c, s) && t < c.n
    ensures Inv(c, Step(c, s, t))
  {
    var r := Step(c, s, t);
    var a := s.at[t];
    assert CursorInv(c, a, t);
    forall u: nat, i: nat | u < c.n && i < c.p.dInner && c.Owns(u, i) ensures ChanInv(c, r, i, Progress(r.at[u], i)) {
      assert ChanInv(c, s, i, Progress(s.at[u], i));
      if a.tok < |c.projs| && Computes(c, s, t) {
        if i == a.idx { WorkRange.Unique(i, t, u, c.n, c.p.dInner); }
        CellStep(c, s, r, a.tok, a.idx, i, Progress(s.at[u], i));
      }
    }
    forall u | 0 <= u < c.n ensures CursorInv(c, r.at[u], u) { assert CursorInv(c, s.at[u], u); }
  }

  lemma InitInv(c: Config)
    requires c.Valid()
    ensures Inv(c, Init(c))
  {
    var s := Init(c);
    forall t: nat, i: nat | t < c.n && i < c.p.dInner && c.Owns(t, i) ensures ChanInv(c, s, i, Progress(s.at[t], i)) {
      assert Progress(s.at[t], i) == 0;
    }
  }

  predicate Schedule(c: Config, sched: seq<nat>) { forall i :: 0 <= i < |sched| ==> sched[i] < c.n }

  function Run(c: Config, s: State, sched: seq<nat>): (r: State)
    requires Shape(c, s) && Schedule(c, sched)
    ensures Shape(c, r)
    decreases |sched|
  {
    if sched == [] then s else Run(c, Step(c, s, sched[0]), sched[1..])
  }

  lemma {:induction false} RunInv(c: Config, s: State, sched: seq<nat>)
    requires Inv(c, s) && Schedule(c, sched)
    ensures Inv(c, Run(c, s, sched))
    decreases |sched|
  {
    if sched != [] {
      StepInv(c, s, sched[0]);
      RunInv(c, Step(c, s, sched[0]), sched[1..]);
    }
  }

  /** Threads at work never touch a location of one another: their channels differ. */
  lemma DisjointChannels(c: Config, s: State, t: nat, u: nat)
    requires Inv(c, s) && t < c.n && u < c.n && t != u && Computes(c, s, t) && Computes(c, s, u)
    ensures s.at[t].idx != s.at[u].idx
  {
    assert CursorInv(c, s.at[t], t) && CursorInv(c, s.at[u], u);
    if s.at[t].idx == s.at[u].idx { WorkRange.Unique(s.at[t].idx, t, u, c.n, c.p.dInner); }
  }

  predicate AllDone(c: Config, s: State) {
    |s.at| == c.n && forall t :: 0 <= t < c.n ==> s.at[t].tok >= |c.projs|
  }

  // ---------------------------------------------------------------- against token-by-token stepping

  /** One call of the token step: all channels, in order. */
  function Token(c: Config, s: State, tok: nat): (b: Bufs)
    requires Shape(c, s) && tok < |c.projs|
    ensures |b.conv| == |s.conv| && |b.ssm| == |s.ssm| && |b.y| == c.p.dInner
  {
    ScanRange(c.p, c.projs[tok], SlotsAt(c.p.dInner, PosAfter(c.pos0, tok), 0), Bufs(s.conv, s.ssm, s.y[tok]), 0, c.p.dInner)
  }

  /** Token after token, all channels each. */
  function Sequential(c: Config, k: nat): (s: State)
    requires c.Valid() && k <= |c.projs|
    ensures Shape(c, s)
  {
    if k == 0 then Init(c)
    else
      var s := Sequential(c, k - 1);
      var b := Token(c, s, k - 1);
      State(b.conv, b.ssm, s.y[k - 1 := b.y], s.at)
  }

  lemma TokenEffect(c: Config, s: State, tok: nat, i: nat)
    requires Shape(c, s) && tok < |c.projs| && i < c.p.dInner
    ensures Shifted(c, s, Token(c, s, tok), tok, i)
  {
    var pos, b0 := PosAfter(c.pos0, tok), Bufs(s.conv, s.ssm, s.y[tok]);
    TokenScanned(c, s, tok);
    RingIsShift(c.p, c.projs[tok], b0, Token(c, s, tok), pos, 0, 0, c.p.dInner, i);
  }

  lemma TokenScanned(c: Config, s: State, tok: nat)
    requires Shape(c, s) && tok < |c.projs|
    ensures var d := c.p.dInner;
            Scanned(c.p, c.projs[tok], SlotsAt(d, PosAfter(c.pos0, tok), 0), Bufs(s.conv, s.ssm, s.y[tok]), Token(c, s, tok), 0, d)
  {
    ScanRangeMeaning(c.p, c.projs[tok], SlotsAt(c.p.dInner, PosAfter(c.pos0, tok), 0), Bufs(s.conv, s.ssm, s.y[tok]), 0, c.p.dInner);
  }

  lemma TokenStep(c: Config, s: State, r: State, tok: nat, i: nat)
    requires Shape(c, s) && Shape(c, r) && tok < |c.projs| && i < c.p.dInner && ChanInv(c, s, i, tok)
    requires var b := Token(c, s, tok); r.conv == b.conv && r.ssm == b.ssm && r.y == s.y[tok := b.y]
    ensures ChanInv(c, r, i, tok + 1)
  {
    TokenEffect(c, s, tok, i);
  }

  lemma {:induction false} SequentialChannels(c: Config, k: nat, i: nat)
    requires c.Valid() && k <= |c.projs| && i < c.p.dInner
    ensures ChanInv(c, Sequential(c, k), i, k)
  {
    if k > 0 {
      SequentialChannels(c, k - 1, i);
      ChannelNext(c, k, i);
    }
  }

  lemma ChannelNext(c: Config, k: nat, i: nat)
    requires c.Valid() && 0 < k <= |c.projs| && i < c.p.dInner && ChanInv(c, Sequential(c, k - 1), i, k - 1)
    ensures ChanInv(c, Sequential(c, k), i, k)
  {
    var s := Sequential(c, k - 1);
    var b := Token(c, s, k - 1);
    TokenStep(c, s, State(b.conv, b.ssm, s.y[k - 1 := b.y], s.at), k - 1, i);
  }

  lemma ChannelDetermines(c: Config, s: State, r: State, i: nat)
    requires Shape(c, s) && Shape(c, r) && i < c.p.dInner
    requires ChanInv(c, s, i, |c.projs|) && ChanInv(c, r, i, |c.projs|)
    ensures s.ssm[i] == r.ssm[i] && s.conv[i] == r.conv[i]
    ensures s.conv[c.p.dInner + i] == r.conv[c.p.dInner + i] && s.conv[2 * c.p.dInner + i] == r.conv[2 * c.p.dInner + i]
  {
    var pos := PosAfter(c.pos0, |c.projs|);
    assert ChanOf(c.p, s.conv, s.ssm, pos, i) == ChanOf(c.p, r.conv, r.ssm, pos, i);
  }

  /** The per-channel view determines the memory. */
  lemma ChannelsDetermine(c: Config, s: State, r: State)
    requires Shape(c, s) && Shape(c, r)
    requires forall i :: 0 <= i < c.p.dInner ==> ChanInv(c, s, i, |c.projs|) && ChanInv(c, r, i, |c.projs|)
    ensures s.conv == r.conv && s.ssm == r.ssm && s.y == r.y
  {
    var d := c.p.dInner;
    forall i | 0 <= i < d ensures s.ssm[i] == r.ssm[i] { ChannelDetermines(c, s, r, i); }
    forall j | 0 <= j < TAPS * d ensures s.conv[j] == r.conv[j] {
      ChannelDetermines(c, s, r, if j >= 2 * d then j - 2 * d else if j >= d then j - d else j);
    }
    forall m, i | 0 <= m < |c.projs| && 0 <= i < d ensures s.y[m][i] == r.y[m][i] {
      assert ChanInv(c, s, i, |c.projs|) && ChanInv(c, r, i, |c.projs|);
    }
    forall m | 0 <= m < |c.projs| ensures s.y[m] == r.y[m] { assert |s.y[m]| == d; }
  }

  /** For every thread count and interleaving the batch leaves what token-by-token stepping leaves. */
  lemma BatchIsSequential(c: Config, sched: seq<nat>)
    requires c.Valid() && Schedule(c, sched) && AllDone(c, Run(c, Init(c), sched))
    ensures var s, q := Run(c, Init(c), sched), Sequential(c, |c.projs|);
            s.conv == q.conv && s.ssm == q.ssm && s.y == q.y
    ensures (c.pos0 + |c.projs|) % TAPS == PosAfter(c.pos0, |c.projs|)
  {
    PosAfterIsModulo(c.pos0, |c.projs|);
    InitInv(c);
    RunInv(c, Init(c), sched);
    var s := Run(c, Init(c), sched);
    forall i | 0 <= i < c.p.dInner ensures ChanInv(c, s, i, |c.projs|) && ChanInv(c, Sequential(c, |c.projs|), i, |c.projs|) {
      WorkRange.Adjacent(c.n - 1, c.n, c.p.dInner);
      var t := WorkRange.FindOwner(i, c.n, c.p.dInner, c.n - 1);
      assert c.Owns(t, i) && CursorInv(c, s.at[t], t);
      assert ChanInv(c, s, i, Progress(s.at[t], i));
      SequentialChannels(c, |c.projs|, i);
    }
    ChannelsDetermine(c, s, Sequential(c, |c.projs|));
  }
}
