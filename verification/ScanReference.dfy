/**
 * The scalar kernel against the reference recurrence: convolution over the last four inputs of a channel,
 * state update and gated output, with every entry of the projection rows written out.
 */
module ScanReference {
  import opened Basics
  import opened Scan

  /** A projection row holds z, x, B, C and dt one after the other: `d` channels, `n` heads. */
  predicate Layout(projs: seq<seq<real>>, d: nat, n: nat) {
    forall t :: 0 <= t < |projs| ==> |projs[t]| == 2 * d + 3 * n
  }

  /** The x entry of channel `i` at token `t`, zero before the first token. */
  function Past(projs: seq<seq<real>>, d: nat, i: nat, t: int): real
    requires i < d && t < |projs| && forall j :: 0 <= j < |projs| ==> |projs[j]| >= 2 * d
  {
    if t < 0 then 0.0 else projs[t][d + i]
  }

  /** The first `m` of the four taps that end at token `t`. */
  function Taps(wt: Weights, projs: seq<seq<real>>, d: nat, i: nat, t: nat, m: nat): real
    requires i < d && t < |projs| && m <= 4 && forall j :: 0 <= j < |projs| ==> |projs[j]| >= 2 * d
  {
    if m == 0 then Get(wt.convB, i)
    else Taps(wt, projs, d, i, t, m - 1) + RealTimes(Past(projs, d, i, t - 4 + m), Get(wt.convW, (m - 1) * d + i))
  }

  function Activation(wt: Weights, projs: seq<seq<real>>, d: nat, i: nat, t: nat): real
    requires i < d && t < |projs| && forall j :: 0 <= j < |projs| ==> |projs[j]| >= 2 * d
  {
    wt.silu(Taps(wt, projs, d, i, t, 4))
  }

  /** The time step of head `h` at token `t`. */
  function TimeStep(wt: Weights, projs: seq<seq<real>>, d: nat, n: nat, h: nat, t: nat): real
    requires Layout(projs, d, n) && h < n && t < |projs|
  {
    wt.softplus(projs[t][2 * d + 2 * n + h] + Get(wt.dtBias, h))
  }

  /** The state of channel `i`, of head `h`, after the first `t` tokens. */
  function StateAfter(wt: Weights, projs: seq<seq<real>>, d: nat, n: nat, h: nat, i: nat, t: nat): real
    requires Layout(projs, d, n) && h < n && i < d && t <= |projs|
  {
    if t == 0 then 0.0
    else
      var dt := TimeStep(wt, projs, d, n, h, t - 1);
      RealTimes(StateAfter(wt, projs, d, n, h, i, t - 1), wt.exp(RealTimes(Get(wt.aPrecomp, h), dt)))
      + RealTimes(Activation(wt, projs, d, i, t - 1), RealTimes(projs[t - 1][2 * d + h], dt))
  }

  function Output(wt: Weights, projs: seq<seq<real>>, d: nat, n: nat, h: nat, i: nat, t: nat): real
    requires Layout(projs, d, n) && h < n && i < d && t < |projs|
  {
    var gate := wt.silu(projs[t][i]);
    var kept := RealTimes(StateAfter(wt, projs, d, n, h, i, t + 1), projs[t][2 * d + n + h]);
    RealTimes(kept + RealTimes(Activation(wt, projs, d, i, t), Get(wt.skip, i)), gate)
  }

  // ---------------------------------------------------------------- one token

  lemma ConvIsTaps(wt: Weights, projs: seq<seq<real>>, d: nat, i: nat, t: nat)
    requires i < d && t < |projs| && forall j :: 0 <= j < |projs| ==> |projs[j]| >= 2 * d
    ensures Taps(wt, projs, d, i, t, 4)
         == Get(wt.convB, i) + RealTimes(Past(projs, d, i, t - 3), Get(wt.convW, i))
            + RealTimes(Past(projs, d, i, t - 2), Get(wt.convW, d + i))
            + RealTimes(Past(projs, d, i, t - 1), Get(wt.convW, 2 * d + i))
            + RealTimes(Past(projs, d, i, t), Get(wt.convW, 3 * d + i))
  {
    assert Taps(wt, projs, d, i, t, 1) == Get(wt.convB, i) + RealTimes(Past(projs, d, i, t - 3), Get(wt.convW, 0 * d + i));
    assert Taps(wt, projs, d, i, t, 2)
        == Taps(wt, projs, d, i, t, 1) + RealTimes(Past(projs, d, i, t - 2), Get(wt.convW, 1 * d + i));
    assert Taps(wt, projs, d, i, t, 3)
        == Taps(wt, projs, d, i, t, 2) + RealTimes(Past(projs, d, i, t - 1), Get(wt.convW, 2 * d + i));
  }

  /** The window and the state before token `t`. */
  ghost predicate Before(wt: Weights, projs: seq<seq<real>>, d: nat, n: nat, h: nat, i: nat, t: nat, c: Chan)
    requires Layout(projs, d, n) && h < n && i < d && t <= |projs|
  {
    && c.w == Window(Past(projs, d, i, t - 3), Past(projs, d, i, t - 2), Past(projs, d, i, t - 1))
    && c.s == StateAfter(wt, projs, d, n, h, i, t)
  }

  lemma HeadIs(wt: Weights, projs: seq<seq<real>>, d: nat, n: nat, h: nat, t: nat)
    requires Layout(projs, d, n) && h < n && t < |projs|
    ensures var dt := TimeStep(wt, projs, d, n, h, t);
            HeadValues(wt, d, n, projs[t], h)
            == Head(wt.exp(RealTimes(Get(wt.aPrecomp, h), dt)), RealTimes(projs[t][2 * d + h], dt), projs[t][2 * d + n + h])
  {
    assert |projs[t]| == 2 * d + 3 * n;
    assert Get(projs[t], 2 * d + 2 * n + h) == projs[t][2 * d + 2 * n + h];
  }

  /** State and output of one channel from its head, its window and its state. */
  lemma CellIs(wt: Weights, projs: seq<seq<real>>, d: nat, n: nat, hd: Head, i: nat, t: nat, c: Chan)
    requires Layout(projs, d, n) && i < d && t < |projs|
    requires c.w == Window(Past(projs, d, i, t - 3), Past(projs, d, i, t - 2), Past(projs, d, i, t - 1))
    ensures var x := Activation(wt, projs, d, i, t);
            var s := RealTimes(c.s, hd.decay) + RealTimes(x, hd.bdt);
            CellValues(wt, d, projs[t], hd, i, c.w, c.s)
            == (s, RealTimes(RealTimes(s, hd.c) + RealTimes(x, Get(wt.skip, i)), wt.silu(projs[t][i])))
  {
    ConvIsTaps(wt, projs, d, i, t);
    assert Get(projs[t], d + i) == projs[t][d + i] && Get(projs[t], i) == projs[t][i];
  }

  lemma OneToken(wt: Weights, projs: seq<seq<real>>, d: nat, n: nat, headDim: nat, i: nat, t: nat, c: Chan)
    requires headDim > 0 && Layout(projs, d, n) && i < d && i / headDim < n && t < |projs|
    requires Before(wt, projs, d, n, i / headDim, i, t, c)
    ensures var r := ChanStep(ScalarKernel(wt, d, n, headDim), projs[t], i, c);
            Before(wt, projs, d, n, i / headDim, i, t + 1, r.0) && r.1 == Output(wt, projs, d, n, i / headDim, i, t)
  {
    var h := i / headDim;
    var hd := HeadValues(wt, d, n, projs[t], h);
    HeadIs(wt, projs, d, n, h, t);
    CellIs(wt, projs, d, n, hd, i, t, c);
    assert ScalarKernel(wt, d, n, headDim).Channel(projs[t], i, c.w, c.s) == CellValues(wt, d, projs[t], hd, i, c.w, c.s);
  }

  // ---------------------------------------------------------------- all tokens

  lemma {:induction false} AllTokens(wt: Weights, projs: seq<seq<real>>, d: nat, n: nat, headDim: nat, i: nat, t: nat)
    requires headDim > 0 && Layout(projs, d, n) && i < d && i / headDim < n && t <= |projs|
    ensures Before(wt, projs, d, n, i / headDim, i, t,
                   ChanAfter(ScalarKernel(wt, d, n, headDim), projs, i, Chan(Window(0.0, 0.0, 0.0), 0.0), t))
  {
    if t > 0 {
      AllTokens(wt, projs, d, n, headDim, i, t - 1);
      OneToken(wt, projs, d, n, headDim, i, t - 1,
               ChanAfter(ScalarKernel(wt, d, n, headDim), projs, i, Chan(Window(0.0, 0.0, 0.0), 0.0), t - 1));
    }
  }

  lemma {:induction false} OutputsAre(wt: Weights, projs: seq<seq<real>>, d: nat, n: nat, headDim: nat, i: nat, t: nat)
    requires headDim > 0 && Layout(projs, d, n) && i < d && i / headDim < n && t < |projs|
    ensures ChanOut(ScalarKernel(wt, d, n, headDim), projs, i, Chan(Window(0.0, 0.0, 0.0), 0.0), t)
         == Output(wt, projs, d, n, i / headDim, i, t)
  {
    AllTokens(wt, projs, d, n, headDim, i, t);
    OneToken(wt, projs, d, n, headDim, i, t,
             ChanAfter(ScalarKernel(wt, d, n, headDim), projs, i, Chan(Window(0.0, 0.0, 0.0), 0.0), t));
  }

  lemma LessFactor(a: nat, b: nat, d: nat)
    requires a * d < b * d
    ensures a < b
  {
    assert (b - a) * d == b * d - a * d;
  }

  lemma HeadInRange(i: nat, n: nat, headDim: nat)
    requires headDim > 0 && i < n * headDim
    ensures i / headDim < n
  {
    LessFactor(i / headDim, n, headDim);
  }

  /** All outputs are those of the reference. */
  ghost predicate OutputsAgree(wt: Weights, projs: seq<seq<real>>, n: nat, headDim: nat, y: seq<real>)
    requires headDim > 0 && Layout(projs, n * headDim, n)
  {
    forall t, i :: 0 <= t < |projs| && 0 <= i < n * headDim ==>
      i / headDim < n && OutputAt(y, t, n * headDim, i) == Output(wt, projs, n * headDim, n, i / headDim, i, t)
  }

  /** All states are those of the reference after all tokens. */
  ghost predicate StatesAgree(wt: Weights, projs: seq<seq<real>>, n: nat, headDim: nat, ssm: seq<real>)
    requires headDim > 0 && Layout(projs, n * headDim, n)
  {
    |ssm| == n * headDim && forall i :: 0 <= i < n * headDim ==>
      i / headDim < n && ssm[i] == StateAfter(wt, projs, n * headDim, n, i / headDim, i, |projs|)
  }

  lemma OutputsHold(wt: Weights, projs: seq<seq<real>>, n: nat, headDim: nat, y: seq<real>)
    requires headDim > 0 && Layout(projs, n * headDim, n)
    requires forall t, i :: 0 <= t < |projs| && 0 <= i < n * headDim ==>
      OutputAt(y, t, n * headDim, i)
      == ChanOut(ScalarKernel(wt, n * headDim, n, headDim), projs, i, Chan(Window(0.0, 0.0, 0.0), 0.0), t)
    ensures OutputsAgree(wt, projs, n, headDim, y)
  {
    forall t, i | 0 <= t < |projs| && 0 <= i < n * headDim
      ensures i / headDim < n && OutputAt(y, t, n * headDim, i) == Output(wt, projs, n * headDim, n, i / headDim, i, t)
    {
      HeadInRange(i, n, headDim);
      OutputsAre(wt, projs, n * headDim, n, headDim, i, t);
    }
  }

  lemma StateIs(wt: Weights, projs: seq<seq<real>>, n: nat, headDim: nat, i: nat)
    requires headDim > 0 && Layout(projs, n * headDim, n) && i < n * headDim
    ensures i / headDim < n
    ensures ChanAfter(ScalarKernel(wt, n * headDim, n, headDim), projs, i, Chan(Window(0.0, 0.0, 0.0), 0.0), |projs|).s
         == StateAfter(wt, projs, n * headDim, n, i / headDim, i, |projs|)
  {
    HeadInRange(i, n, headDim);
    AllTokens(wt, projs, n * headDim, n, headDim, i, |projs|);
  }

  lemma StatesHold(wt: Weights, projs: seq<seq<real>>, n: nat, headDim: nat, ssm: seq<real>)
    requires headDim > 0 && Layout(projs, n * headDim, n) && |ssm| == n * headDim
    requires forall i :: 0 <= i < n * headDim ==>
      ssm[i] == ChanAfter(ScalarKernel(wt, n * headDim, n, headDim), projs, i, Chan(Window(0.0, 0.0, 0.0), 0.0), |projs|).s
    ensures StatesAgree(wt, projs, n, headDim, ssm)
  {
    forall i | 0 <= i < n * headDim
      ensures i / headDim < n && ssm[i] == StateAfter(wt, projs, n * headDim, n, i / headDim, i, |projs|)
    {
      StateIs(wt, projs, n, headDim, i);
    }
  }

  /**
   * A fresh block fed a prompt: outputs and states of every channel are those of the reference recurrence,
   * at every token.
   */
  method FirstPrompt(wt: Weights, n: nat, headDim: nat, projs: seq<seq<real>>) returns (b: Block, y: array<real>)
    requires headDim > 0 && Layout(projs, n * headDim, n)
    ensures fresh(b) && b.Valid() && y.Length == |projs| * (n * headDim)
    ensures OutputsAgree(wt, projs, n, headDim, y[..]) && StatesAgree(wt, projs, n, headDim, b.ssm[..])
  {
    var d := n * headDim;
    b := new Block(ScalarKernel(wt, d, n, headDim));
    y := new real[|projs| * d];
    b.ScanPrompt(projs, y);
    OutputsHold(wt, projs, n, headDim, y[..]);
    forall i | 0 <= i < d ensures b.ssm[i] == b.Channel(i).s { }
    StatesHold(wt, projs, n, headDim, b.ssm[..]);
  }
}
