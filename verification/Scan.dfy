/**
 * The recurrent scan of one block: a depthwise convolution over the last four inputs kept in a
 * three-slot ring, and a per-channel state update. Floats are reals; exp, softplus and silu are
 * arbitrary functions.
 */
module Scan {
  import opened Basics

  const TAPS := 3

  /** The per-head values of one token. */
  datatype Head = Head(decay: real, bdt: real, c: real)

  /** The three taps of a channel, oldest first. */
  datatype Window = Window(w0: real, w1: real, w2: real)

  /**
   * The arithmetic of one token: `headOf` maps a channel to its head, `head` gives the per-head values from a projection row, `cell`
   * the new state and the output of a channel from its head, taps and state. All are arbitrary
   * deterministic functions; `ScalarKernel` below is the one the scalar path computes.
   */
  datatype Kernel = Kernel(dInner: nat, nHeads: nat,
                           headOf: nat -> nat,
                           head: (seq<real>, nat) -> Head,
                           cell: (seq<real>, Head, nat, Window, real) -> (real, real))
  {
    /** Layout of one projection row: z, x, B, C, dt. */
    function ProjDim(): nat { 2 * dInner + 3 * nHeads }

    function Input(proj: seq<real>, i: nat): real
      requires |proj| == ProjDim() && i < dInner
    {
      proj[dInner + i]
    }

    function Channel(proj: seq<real>, i: nat, w: Window, s: real): (real, real)
    {
      cell(proj, head(proj, headOf(i)), i, w, s)
    }
  }

  /** Weights of one block, with the transcendental functions of the C library. */
  datatype Weights = Weights(
    softplus: real -> real, exp: real -> real, silu: real -> real,
    dtBias: seq<real>, aPrecomp: seq<real>, convW: seq<real>, convB: seq<real>, skip: seq<real>)

  function Get(s: seq<real>, i: nat): real { if i < |s| then s[i] else 0.0 }

  function HeadValues(wt: Weights, d: nat, nHeads: nat, proj: seq<real>, h: nat): Head {
    var dt := wt.softplus(Get(proj, 2 * d + 2 * nHeads + h) + Get(wt.dtBias, h));
    Head(wt.exp(RealTimes(Get(wt.aPrecomp, h), dt)), RealTimes(Get(proj, 2 * d + h), dt), Get(proj, 2 * d + nHeads + h))
  }

  function CellValues(wt: Weights, d: nat, proj: seq<real>, hd: Head, i: nat, w: Window, s: real): (real, real) {
    var x := Get(proj, d + i);
    var taps := RealTimes(w.w0, Get(wt.convW, i)) + RealTimes(w.w1, Get(wt.convW, d + i)) + RealTimes(w.w2, Get(wt.convW, 2 * d + i));
    var xAct := wt.silu(Get(wt.convB, i) + taps + RealTimes(x, Get(wt.convW, 3 * d + i)));
    var state := RealTimes(s, hd.decay) + RealTimes(xAct, hd.bdt);
    (state, RealTimes(RealTimes(state, hd.c) + RealTimes(xAct, Get(wt.skip, i)), wt.silu(Get(proj, i))))
  }

  function ScalarKernel(wt: Weights, d: nat, nHeads: nat, headDim: nat): Kernel
    requires headDim > 0
  {
    Kernel(d, nHeads,
           (i: nat) => i / headDim,
           (proj: seq<real>, h: nat) => HeadValues(wt, d, nHeads, proj, h),
           (proj: seq<real>, hd: Head, i: nat, w: Window, s: real) => CellValues(wt, d, proj, hd, i, w, s))
  }

  // ---------------------------------------------------------------- one kernel call

  /** Pointers of one kernel call: the three ring slots, oldest first, and the output row. */
  datatype Slots = Slots(c0: nat, c1: nat, c2: nat, y: nat)

  predicate SlotsFit(d: nat, o: Slots, convLen: nat, yLen: nat) {
    && o.c0 + d <= convLen && o.c1 + d <= convLen && o.c2 + d <= convLen && o.y + d <= yLen
    && (o.c0 + d <= o.c1 || o.c1 + d <= o.c0) && (o.c0 + d <= o.c2 || o.c2 + d <= o.c0)
  }

  /** Buffers of one kernel call. */
  datatype Bufs = Bufs(conv: seq<real>, ssm: seq<real>, y: seq<real>)

  predicate BufsFit(p: Kernel, o: Slots, b: Bufs) {
    |b.ssm| == p.dInner && SlotsFit(p.dInner, o, |b.conv|, |b.y|)
  }

  function WindowAt(p: Kernel, o: Slots, b: Bufs, i: nat): Window
    requires BufsFit(p, o, b) && i < p.dInner
  {
    Window(b.conv[o.c0 + i], b.conv[o.c1 + i], b.conv[o.c2 + i])
  }

  /** One channel: the oldest tap gives way to the input, after being read. */
  function CellUpdate(p: Kernel, proj: seq<real>, hd: Head, o: Slots, b: Bufs, i: nat): (r: Bufs)
    requires |proj| == p.ProjDim() && BufsFit(p, o, b) && i < p.dInner
    ensures BufsFit(p, o, r)
  {
    var out := p.cell(proj, hd, i, WindowAt(p, o, b, i), b.ssm[i]);
    Bufs(b.conv[o.c0 + i := p.Input(proj, i)], b.ssm[i := out.0], b.y[o.y + i := out.1])
  }

  function ScanCell(p: Kernel, proj: seq<real>, o: Slots, b: Bufs, i: nat): (r: Bufs)
    requires |proj| == p.ProjDim() && BufsFit(p, o, b) && i < p.dInner
    ensures BufsFit(p, o, r) && |r.conv| == |b.conv| && |r.y| == |b.y|
  {
    CellUpdate(p, proj, p.head(proj, p.headOf(i)), o, b, i)
  }

  /** Channels [lo, hi) one after the other. */
  function ScanRange(p: Kernel, proj: seq<real>, o: Slots, b: Bufs, lo: nat, hi: nat): (r: Bufs)
    requires |proj| == p.ProjDim() && BufsFit(p, o, b) && lo <= hi <= p.dInner
    ensures BufsFit(p, o, r) && |r.conv| == |b.conv| && |r.y| == |b.y|
  {
    if lo == hi then b
    else ScanCell(p, proj, o, ScanRange(p, proj, o, b, lo, hi - 1), hi - 1)
  }

  /** Channels [lo, hi) of `b` have been taken one token further in `r`; nothing else has changed. */
  ghost predicate Scanned(p: Kernel, proj: seq<real>, o: Slots, b: Bufs, r: Bufs, lo: nat, hi: nat)
    requires |proj| == p.ProjDim() && BufsFit(p, o, b) && lo <= hi <= p.dInner
  {
    && |r.conv| == |b.conv| && |r.ssm| == |b.ssm| && |r.y| == |b.y|
    && (forall i :: lo <= i < hi ==> r.conv[o.c0 + i] == p.Input(proj, i))
    && (forall i :: lo <= i < hi ==> (r.ssm[i], r.y[o.y + i]) == p.Channel(proj, i, WindowAt(p, o, b, i), b.ssm[i]))
    && (forall j :: 0 <= j < |b.conv| && !(o.c0 + lo <= j < o.c0 + hi) ==> r.conv[j] == b.conv[j])
    && (forall j :: 0 <= j < |b.ssm| && !(lo <= j < hi) ==> r.ssm[j] == b.ssm[j])
    && (forall j :: 0 <= j < |b.y| && !(o.y + lo <= j < o.y + hi) ==> r.y[j] == b.y[j])
  }

  lemma ScannedMore(p: Kernel, proj: seq<real>, o: Slots, b: Bufs, r: Bufs, lo: nat, i: nat)
    requires |proj| == p.ProjDim() && BufsFit(p, o, b) && BufsFit(p, o, r) && lo <= i < p.dInner
    requires Scanned(p, proj, o, b, r, lo, i)
    ensures Scanned(p, proj, o, b, ScanCell(p, proj, o, r, i), lo, i + 1)
  {
    assert WindowAt(p, o, r, i) == WindowAt(p, o, b, i);
  }

  lemma {:induction false} ScanRangeMeaning(p: Kernel, proj: seq<real>, o: Slots, b: Bufs, lo: nat, hi: nat)
    requires |proj| == p.ProjDim() && BufsFit(p, o, b) && lo <= hi <= p.dInner
    ensures Scanned(p, proj, o, b, ScanRange(p, proj, o, b, lo, hi), lo, hi)
  {
    if lo < hi {
      ScanRangeMeaning(p, proj, o, b, lo, hi - 1);
      ScannedMore(p, proj, o, b, ScanRange(p, proj, o, b, lo, hi - 1), lo, hi - 1);
    }
  }

  /** A full call overwrites the whole output row, so what it held before does not matter. */
  lemma OutputOverwritten(p: Kernel, proj: seq<real>, o: Slots, b: Bufs, y: seq<real>)
    requires |proj| == p.ProjDim() && BufsFit(p, o, b) && o.y == 0 && |b.y| == |y| == p.dInner
    ensures ScanRange(p, proj, o, b, 0, p.dInner) == ScanRange(p, proj, o, b.(y := y), 0, p.dInner)
  {
    var r, s := ScanRange(p, proj, o, b, 0, p.dInner), ScanRange(p, proj, o, b.(y := y), 0, p.dInner);
    ScanRangeMeaning(p, proj, o, b, 0, p.dInner);
    ScanRangeMeaning(p, proj, o, b.(y := y), 0, p.dInner);
    SameResults(p, proj, o, b, y, r, s);
  }

  /** What a full call must leave determines it. */
  lemma SameResults(p: Kernel, proj: seq<real>, o: Slots, b: Bufs, y: seq<real>, r: Bufs, s: Bufs)
    requires |proj| == p.ProjDim() && BufsFit(p, o, b) && o.y == 0 && |b.y| == |y| == p.dInner
    requires Scanned(p, proj, o, b, r, 0, p.dInner) && Scanned(p, proj, o, b.(y := y), s, 0, p.dInner)
    ensures r == s
  {
    forall j | 0 <= j < |b.conv| ensures r.conv[j] == s.conv[j] {
      if o.c0 <= j < o.c0 + p.dInner { assert r.conv[o.c0 + (j - o.c0)] == p.Input(proj, j - o.c0); }
    }
    forall i | 0 <= i < p.dInner ensures r.ssm[i] == s.ssm[i] && r.y[i] == s.y[i] {
      assert WindowAt(p, o, b, i) == WindowAt(p, o, b.(y := y), i);
      assert (r.ssm[i], r.y[o.y + i]) == p.Channel(proj, i, WindowAt(p, o, b, i), b.ssm[i]);
    }
  }

  method CellStep(p: Kernel, proj: seq<real>, hd: Head, conv: array<real>, ssm: array<real>, y: array<real>, o: Slots,
                  idx: nat)
    requires |proj| == p.ProjDim() && BufsFit(p, o, Bufs(conv[..], ssm[..], y[..])) && idx < p.dInner
    requires conv != ssm && conv != y && ssm != y
    modifies conv, ssm, y
    ensures Bufs(conv[..], ssm[..], y[..]) == CellUpdate(p, proj, hd, o, old(Bufs(conv[..], ssm[..], y[..])), idx)
  {
    var w := Window(conv[o.c0 + idx], conv[o.c1 + idx], conv[o.c2 + idx]);
    var out := p.cell(proj, hd, idx, w, ssm[idx]);
    conv[o.c0 + idx] := p.Input(proj, idx);
    ssm[idx] := out.0;
    y[o.y + idx] := out.1;
  }

  /** The kernel: head values are recomputed only at head boundaries. */
  method SsmInner(p: Kernel, proj: seq<real>, conv: array<real>, ssm: array<real>, y: array<real>, o: Slots, lo: nat,
                  hi: nat)
    requires |proj| == p.ProjDim() && BufsFit(p, o, Bufs(conv[..], ssm[..], y[..])) && lo <= hi <= p.dInner
    requires conv != ssm && conv != y && ssm != y
    modifies conv, ssm, y
    ensures Bufs(conv[..], ssm[..], y[..]) == ScanRange(p, proj, o, old(Bufs(conv[..], ssm[..], y[..])), lo, hi)
  {
    ghost var b := Bufs(conv[..], ssm[..], y[..]);
    var prevH: int := -1;
    var hd := Head(0.0, 0.0, 0.0);
    var idx := lo;
    while idx < hi
      invariant lo <= idx <= hi
      invariant prevH == -1 || (0 <= prevH && hd == p.head(proj, prevH))
      invariant Bufs(conv[..], ssm[..], y[..]) == ScanRange(p, proj, o, b, lo, idx)
    {
      var h := p.headOf(idx);
      if h != prevH {
        hd := p.head(proj, h);
        prevH := h;
      }
      CellStep(p, proj, hd, conv, ssm, y, o, idx);
      idx := idx + 1;
    }
  }

  // ---------------------------------------------------------------- the ring

  /** Ring slot `k` places after `pos`. */
  function Tap(pos: nat, k: nat): (r: nat)
    requires pos < TAPS && k < TAPS
    ensures r < TAPS
  {
    if pos + k < TAPS then pos + k else pos + k - TAPS
  }

  function NextPos(pos: nat): nat { if pos + 1 < TAPS then pos + 1 else 0 }

  /** Offset of a slot in the [tap][channel] layout. */
  function Base(d: nat, tap: nat): nat
    requires tap < TAPS
  {
    if tap == 0 then 0 else if tap == 1 then d else 2 * d
  }

  function SlotsAt(d: nat, pos: nat, y: nat): Slots
    requires pos < TAPS
  {
    Slots(Base(d, Tap(pos, 0)), Base(d, Tap(pos, 1)), Base(d, Tap(pos, 2)), y)
  }

  /** A channel as a shift register: its last three inputs, oldest first, and its state. */
  datatype Chan = Chan(w: Window, s: real)

  /** The reference: shift the input in, then combine. */
  function ChanStep(p: Kernel, proj: seq<real>, i: nat, c: Chan): (Chan, real)
    requires |proj| == p.ProjDim() && i < p.dInner
  {
    var out := p.Channel(proj, i, c.w, c.s);
    (Chan(Window(c.w.w1, c.w.w2, p.Input(proj, i)), out.0), out.1)
  }

  predicate RingFits(p: Kernel, conv: seq<real>, ssm: seq<real>, pos: nat) {
    |conv| == TAPS * p.dInner && |ssm| == p.dInner && pos < TAPS
  }

  function ChanOf(p: Kernel, conv: seq<real>, ssm: seq<real>, pos: nat, i: nat): Chan
    requires RingFits(p, conv, ssm, pos) && i < p.dInner
  {
    var o := SlotsAt(p.dInner, pos, 0);
    Chan(Window(conv[o.c0 + i], conv[o.c1 + i], conv[o.c2 + i]), ssm[i])
  }

  /** Overwriting the oldest slot and moving the position on is a shift, for each scanned channel. */
  lemma RingIsShift(p: Kernel, proj: seq<real>, b: Bufs, r: Bufs, pos: nat, yOff: nat, lo: nat, hi: nat, i: nat)
    requires |proj| == p.ProjDim() && RingFits(p, b.conv, b.ssm, pos) && yOff + p.dInner <= |b.y|
    requires lo <= hi <= p.dInner && i < p.dInner && Scanned(p, proj, SlotsAt(p.dInner, pos, yOff), b, r, lo, hi)
    ensures RingFits(p, r.conv, r.ssm, pos) && |r.y| == |b.y|
    ensures lo <= i < hi ==>
      (ChanOf(p, r.conv, r.ssm, NextPos(pos), i), r.y[yOff + i]) == ChanStep(p, proj, i, ChanOf(p, b.conv, b.ssm, pos, i))
    ensures !(lo <= i < hi) ==>
      r.y[yOff + i] == b.y[yOff + i] && forall q :: 0 <= q < TAPS ==>
        ChanOf(p, r.conv, r.ssm, q, i) == ChanOf(p, b.conv, b.ssm, q, i)
  {
    if lo <= i < hi { ScannedChannel(p, proj, b, r, pos, yOff, lo, hi, i); }
    else { OtherChannel(p, proj, b, r, pos, yOff, lo, hi, i); }
  }

  lemma ScannedChannel(p: Kernel, proj: seq<real>, b: Bufs, r: Bufs, pos: nat, yOff: nat, lo: nat, hi: nat, i: nat)
    requires |proj| == p.ProjDim() && RingFits(p, b.conv, b.ssm, pos) && yOff + p.dInner <= |b.y|
    requires lo <= i < hi <= p.dInner && Scanned(p, proj, SlotsAt(p.dInner, pos, yOff), b, r, lo, hi)
    ensures (ChanOf(p, r.conv, r.ssm, NextPos(pos), i), r.y[yOff + i]) == ChanStep(p, proj, i, ChanOf(p, b.conv, b.ssm, pos, i))
  {
    var o := SlotsAt(p.dInner, pos, yOff);
    assert (r.ssm[i], r.y[o.y + i]) == p.Channel(proj, i, WindowAt(p, o, b, i), b.ssm[i]);
    assert r.conv[o.c1 + i] == b.conv[o.c1 + i] && r.conv[o.c2 + i] == b.conv[o.c2 + i];
  }

  lemma OtherChannel(p: Kernel, proj: seq<real>, b: Bufs, r: Bufs, pos: nat, yOff: nat, lo: nat, hi: nat, i: nat)
    requires |proj| == p.ProjDim() && RingFits(p, b.conv, b.ssm, pos) && yOff + p.dInner <= |b.y|
    requires lo <= hi <= p.dInner && i < p.dInner && !(lo <= i < hi) && Scanned(p, proj, SlotsAt(p.dInner, pos, yOff), b, r, lo, hi)
    ensures r.y[yOff + i] == b.y[yOff + i]
    ensures forall q :: 0 <= q < TAPS ==> ChanOf(p, r.conv, r.ssm, q, i) == ChanOf(p, b.conv, b.ssm, q, i)
  { }

  // ---------------------------------------------------------------- a block and its methods

  /** Every row of a batch has the layout the kernel expects. */
  predicate Rows(p: Kernel, projs: seq<seq<real>>) { forall t :: 0 <= t < |projs| ==> |projs[t]| == p.ProjDim() }

  /** Channel `i` after the first `k` tokens. */
  function ChanAfter(p: Kernel, projs: seq<seq<real>>, i: nat, c: Chan, k: nat): Chan
    requires Rows(p, projs) && i < p.dInner && k <= |projs|
  {
    if k == 0 then c else ChanStep(p, projs[k - 1], i, ChanAfter(p, projs, i, c, k - 1)).0
  }

  /** The output of channel `i` at token `k`. */
  function ChanOut(p: Kernel, projs: seq<seq<real>>, i: nat, c: Chan, k: nat): real
    requires Rows(p, projs) && i < p.dInner && k < |projs|
  {
    ChanStep(p, projs[k], i, ChanAfter(p, projs, i, c, k)).1
  }

  function PosAfter(pos: nat, k: nat): (r: nat)
    requires pos < TAPS
    ensures r < TAPS
  {
    if k == 0 then pos else NextPos(PosAfter(pos, k - 1))
  }

  /** Advancing once per token is the single modulo the batch path uses. */
  lemma {:induction false} PosAfterIsModulo(pos: nat, k: nat)
    requires pos < TAPS
    ensures PosAfter(pos, k) == (pos + k) % TAPS
  {
    if k > 0 { PosAfterIsModulo(pos, k - 1); }
  }

  /**
   * At every step the three taps are the last three inputs in order, zeros standing for inputs
   * before the first.
   */
  lemma {:induction false} TapsAreLastInputs(p: Kernel, projs: seq<seq<real>>, i: nat, s: real, k: nat)
    requires Rows(p, projs) && i < p.dInner && k <= |projs|
    ensures ChanAfter(p, projs, i, Chan(Window(0.0, 0.0, 0.0), s), k).w
         == Window(InputAt(p, projs, i, k - 3), InputAt(p, projs, i, k - 2), InputAt(p, projs, i, k - 1))
  {
    if k > 0 { TapsAreLastInputs(p, projs, i, s, k - 1); }
  }

  function InputAt(p: Kernel, projs: seq<seq<real>>, i: nat, t: int): real
    requires Rows(p, projs) && i < p.dInner && t < |projs|
  {
    if t < 0 then 0.0 else p.Input(projs[t], i)
  }

  /** Entry `i` of output row `t`, where it is inside the buffer. */
  function OutputAt(y: seq<real>, t: nat, d: nat, i: nat): real {
    if IntTimes(t, d) + i < |y| then y[IntTimes(t, d) + i] else 0.0
  }

  lemma RowsApart(t: nat, n: nat, d: nat)
    requires t < n
    ensures IntTimes(t, d) == t * d && t * d + d <= n * d
  {
    assert (n - t - 1) * d >= 0 && (n - t - 1) * d == n * d - t * d - d;
  }

  class Block {
    const p: Kernel
    const conv: array<real>
    const ssm: array<real>
    var pos: nat

    constructor (p: Kernel)
      ensures this.p == p && Valid() && fresh(conv) && fresh(ssm) && pos == 0
      ensures forall i :: 0 <= i < p.dInner ==> Channel(i) == Chan(Window(0.0, 0.0, 0.0), 0.0)
    {
      this.p := p;
      conv := new real[TAPS * p.dInner](_ => 0.0);
      ssm := new real[p.dInner](_ => 0.0);
      pos := 0;
    }

    ghost predicate Valid()
      reads this
    {
      conv != ssm && conv.Length == TAPS * p.dInner && ssm.Length == p.dInner && pos < TAPS
    }

    /** What the block remembers about channel `i`. */
    ghost function Channel(i: nat): Chan
      requires Valid() && i < p.dInner
      reads this, conv, ssm
    {
      ChanOf(p, conv[..], ssm[..], pos, i)
    }

    /** One token: every channel takes one step of the reference. */
    method ScanToken(proj: seq<real>, y: array<real>, yOff: nat)
      requires Valid() && |proj| == p.ProjDim() && y != conv && y != ssm && yOff + p.dInner <= y.Length
      modifies this`pos, conv, ssm, y
      ensures Valid() && pos == NextPos(old(pos))
      ensures forall i :: 0 <= i < p.dInner ==> (Channel(i), y[yOff + i]) == ChanStep(p, proj, i, old(Channel(i)))
      ensures forall j :: 0 <= j < y.Length && !(yOff <= j < yOff + p.dInner) ==> y[j] == old(y[j])
    {
      ghost var b := Bufs(conv[..], ssm[..], y[..]);
      var o := SlotsAt(p.dInner, pos, yOff);
      SsmInner(p, proj, conv, ssm, y, o, 0, p.dInner);
      ghost var r := Bufs(conv[..], ssm[..], y[..]);
      ScanRangeMeaning(p, proj, o, b, 0, p.dInner);
      forall i | 0 <= i < p.dInner
        ensures (ChanOf(p, r.conv, r.ssm, NextPos(pos), i), r.y[yOff + i]) == ChanStep(p, proj, i, ChanOf(p, b.conv, b.ssm, pos, i))
      {
        RingIsShift(p, proj, b, r, pos, yOff, 0, p.dInner, i);
      }
      pos := if pos + 1 < TAPS then pos + 1 else 0;
    }

    /** Row `t` of the output, with the rows before it left alone. */
    method ScanRow(projs: seq<seq<real>>, y: array<real>, t: nat)
      requires Valid() && Rows(p, projs) && t < |projs| && y != conv && y != ssm && y.Length == |projs| * p.dInner
      modifies this`pos, conv, ssm, y
      ensures Valid() && pos == NextPos(old(pos))
      ensures forall i :: 0 <= i < p.dInner ==>
        (Channel(i), OutputAt(y[..], t, p.dInner, i)) == ChanStep(p, projs[t], i, old(Channel(i)))
      ensures forall u, i :: 0 <= u < t && 0 <= i < p.dInner ==>
        OutputAt(y[..], u, p.dInner, i) == old(OutputAt(y[..], u, p.dInner, i))
    {
      RowsApart(t, |projs|, p.dInner);
      forall u | 0 <= u < t ensures IntTimes(u, p.dInner) + p.dInner <= t * p.dInner { RowsApart(u, t, p.dInner); }
      ScanToken(projs[t], y, t * p.dInner);
    }

    /** Token by token, one output row after the other. */
    method ScanPrompt(projs: seq<seq<real>>, y: array<real>)
      requires Valid() && Rows(p, projs) && y != conv && y != ssm && y.Length == |projs| * p.dInner
      modifies this`pos, conv, ssm, y
      ensures Valid() && pos == PosAfter(old(pos), |projs|)
      ensures forall i :: 0 <= i < p.dInner ==> Channel(i) == ChanAfter(p, projs, i, old(Channel(i)), |projs|)
      ensures forall t, i :: 0 <= t < |projs| && 0 <= i < p.dInner ==>
        OutputAt(y[..], t, p.dInner, i) == ChanOut(p, projs, i, old(Channel(i)), t)
    {
      for t := 0 to |projs|
        invariant Valid() && pos == PosAfter(old(pos), t)
        invariant forall i :: 0 <= i < p.dInner ==> Channel(i) == ChanAfter(p, projs, i, old(Channel(i)), t)
        invariant forall u, i :: 0 <= u < t && 0 <= i < p.dInner ==>
          OutputAt(y[..], u, p.dInner, i) == ChanOut(p, projs, i, old(Channel(i)), u)
      {
        ScanRow(projs, y, t);
      }
    }
  }
}
