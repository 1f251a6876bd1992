/**
 * Prompt ingestion: running each layer over all tokens leaves what pushing the tokens one at a
 * time through all layers leaves.
 */
module Prefill {
  import opened Basics
  import opened Scan

  type Vec = seq<real>

  /** A layer: the two projections, row by row, around a recurrent block. */
  datatype Layer = Layer(p: Kernel, inRow: (Vec, nat) -> real, outRow: (Vec, nat) -> real)

  /** Recurrent state of one layer: the ring of inputs with its position, and the channel states. */
  datatype Ring = Ring(conv: seq<real>, ssm: seq<real>, pos: nat)

  predicate Fits(l: Layer, r: Ring) { RingFits(l.p, r.conv, r.ssm, r.pos) }

  predicate AllFit(ls: seq<Layer>, rs: seq<Ring>) { |ls| == |rs| && forall i :: 0 <= i < |ls| ==> Fits(ls[i], rs[i]) }

  function InProj(l: Layer, u: Vec): (r: Vec)
    ensures |r| == l.p.ProjDim()
  {
    seq(l.p.ProjDim(), (x: nat) => l.inRow(u, x))
  }

  /** As wide as the activations. */
  function OutProj(l: Layer, y: Vec, width: nat): (r: Vec)
    ensures |r| == width
  {
    seq(width, (x: nat) => l.outRow(y, x))
  }

  function Add(x: Vec, o: Vec): (r: Vec)
    requires |x| == |o|
    ensures |r| == |x|
  {
    seq(|x|, j requires 0 <= j < |x| => x[j] + o[j])
  }

  function ScanToken(l: Layer, r: Ring, proj: Vec): (res: (Ring, Vec))
    requires Fits(l, r) && |proj| == l.p.ProjDim()
    ensures Fits(l, res.0)
  {
    var d := l.p.dInner;
    var b := ScanRange(l.p, proj, SlotsAt(d, r.pos, 0), Bufs(r.conv, r.ssm, seq(d, _ => 0.0)), 0, d);
    (Ring(b.conv, b.ssm, NextPos(r.pos)), b.y)
  }

  // ---------------------------------------------------------------- token by token

  /** One layer on one token, with the residual connection. */
  function LayerStep(l: Layer, r: Ring, x: Vec): (res: (Ring, Vec))
    requires Fits(l, r)
    ensures Fits(l, res.0) && |res.1| == |x|
  {
    var s := ScanToken(l, r, InProj(l, x));
    (s.0, Add(x, OutProj(l, s.1, |x|)))
  }

  /** One token through all layers. */
  function TokenStep(ls: seq<Layer>, rs: seq<Ring>, x: Vec): (res: (seq<Ring>, Vec))
    requires AllFit(ls, rs)
    ensures AllFit(ls, res.0)
    decreases |ls|
  {
    if ls == [] then ([], x)
    else
      var s := LayerStep(ls[0], rs[0], x);
      var rest := TokenStep(ls[1..], rs[1..], s.1);
      ([s.0] + rest.0, rest.1)
  }

  /** The tokens one after the other, with the final activation of each. */
  function TokenMajor(ls: seq<Layer>, rs: seq<Ring>, xs: seq<Vec>): (res: (seq<Ring>, seq<Vec>))
    requires AllFit(ls, rs)
    ensures AllFit(ls, res.0)
    decreases |xs|
  {
    if xs == [] then (rs, [])
    else
      var s := TokenStep(ls, rs, xs[0]);
      var rest := TokenMajor(ls, s.0, xs[1..]);
      (rest.0, [s.1] + rest.1)
  }

  // ---------------------------------------------------------------- layer by layer

  predicate ProjRows(l: Layer, ps: seq<Vec>) { forall t :: 0 <= t < |ps| ==> |ps[t]| == l.p.ProjDim() }

  function ScanTokens(l: Layer, r: Ring, ps: seq<Vec>): (res: (Ring, seq<Vec>))
    requires Fits(l, r) && ProjRows(l, ps)
    ensures Fits(l, res.0) && |res.1| == |ps|
    decreases |ps|
  {
    if ps == [] then (r, [])
    else
      var s := ScanToken(l, r, ps[0]);
      var rest := ScanTokens(l, s.0, ps[1..]);
      (rest.0, [s.1] + rest.1)
  }

  function InProjAll(l: Layer, xs: seq<Vec>): (ps: seq<Vec>)
    ensures |ps| == |xs| && ProjRows(l, ps)
  {
    seq(|xs|, t requires 0 <= t < |xs| => InProj(l, xs[t]))
  }

  function ResidualAll(l: Layer, xs: seq<Vec>, ys: seq<Vec>): (zs: seq<Vec>)
    requires |xs| == |ys|
    ensures |zs| == |xs|
  {
    seq(|xs|, t requires 0 <= t < |xs| => Add(xs[t], OutProj(l, ys[t], |xs[t]|)))
  }

  /** One layer on the whole batch: all projections, then the scan, then all projections. */
  function LayerBatch(l: Layer, r: Ring, xs: seq<Vec>): (res: (Ring, seq<Vec>))
    requires Fits(l, r)
    ensures Fits(l, res.0) && |res.1| == |xs|
  {
    var s := ScanTokens(l, r, InProjAll(l, xs));
    (s.0, ResidualAll(l, xs, s.1))
  }

  function LayerMajor(ls: seq<Layer>, rs: seq<Ring>, xs: seq<Vec>): (res: (seq<Ring>, seq<Vec>))
    requires AllFit(ls, rs)
    ensures AllFit(ls, res.0) && |res.1| == |xs|
    decreases |ls|
  {
    if ls == [] then ([], xs)
    else
      var s := LayerBatch(ls[0], rs[0], xs);
      var rest := LayerMajor(ls[1..], rs[1..], s.1);
      ([s.0] + rest.0, rest.1)
  }

  // ---------------------------------------------------------------- the two orders agree

  /** The three batched phases interleave: the first token can be taken on its own. */
  lemma BatchHead(l: Layer, r: Ring, x: Vec, xs: seq<Vec>)
    requires Fits(l, r)
    ensures var s := LayerStep(l, r, x);
            LayerBatch(l, r, [x] + xs) == (LayerBatch(l, s.0, xs).0, [s.1] + LayerBatch(l, s.0, xs).1)
  {
    var all := [x] + xs;
    var ps := InProjAll(l, all);
    assert ps[0] == InProj(l, x);
    assert ps[1..] == InProjAll(l, xs);
    var s := ScanToken(l, r, ps[0]);
    var rest := ScanTokens(l, s.0, ps[1..]);
    assert ScanTokens(l, r, ps) == (rest.0, [s.1] + rest.1);
    assert ResidualAll(l, all, [s.1] + rest.1) == [Add(x, OutProj(l, s.1, |x|))] + ResidualAll(l, xs, rest.1);
  }

  lemma BatchEmpty(l: Layer, r: Ring)
    requires Fits(l, r)
    ensures LayerBatch(l, r, []) == (r, [])
  { }

  lemma {:induction false} LayersEmpty(ls: seq<Layer>, rs: seq<Ring>)
    requires AllFit(ls, rs)
    ensures LayerMajor(ls, rs, []) == (rs, [])
    decreases |ls|
  {
    if ls != [] {
      BatchEmpty(ls[0], rs[0]);
      LayersEmpty(ls[1..], rs[1..]);
      assert rs == [rs[0]] + rs[1..];
    }
  }

  lemma {:induction false} LayersHead(ls: seq<Layer>, rs: seq<Ring>, x: Vec, xs: seq<Vec>)
    requires AllFit(ls, rs)
    ensures var s := TokenStep(ls, rs, x);
            LayerMajor(ls, rs, [x] + xs) == (LayerMajor(ls, s.0, xs).0, [s.1] + LayerMajor(ls, s.0, xs).1)
    decreases |ls|
  {
    if ls != [] {
      BatchHead(ls[0], rs[0], x, xs);
      var s := LayerStep(ls[0], rs[0], x);
      var b := LayerBatch(ls[0], s.0, xs);
      LayersHead(ls[1..], rs[1..], s.1, b.1);
      var t := TokenStep(ls, rs, x);
      assert t.0[0] == s.0 && t.0[1..] == TokenStep(ls[1..], rs[1..], s.1).0;
    }
  }

  /** For all layers, states and tokens: the same recurrent states and the same final activations. */
  lemma {:induction false} LayerMajorIsTokenMajor(ls: seq<Layer>, rs: seq<Ring>, xs: seq<Vec>)
    requires AllFit(ls, rs)
    ensures LayerMajor(ls, rs, xs) == TokenMajor(ls, rs, xs)
    decreases |xs|
  {
    if xs == [] {
      LayersEmpty(ls, rs);
    } else {
      assert xs == [xs[0]] + xs[1..];
      LayersHead(ls, rs, xs[0], xs[1..]);
      LayerMajorIsTokenMajor(ls, TokenStep(ls, rs, xs[0]).0, xs[1..]);
    }
  }

  lemma {:induction false} TokensSplit(ls: seq<Layer>, rs: seq<Ring>, a: seq<Vec>, b: seq<Vec>)
    requires AllFit(ls, rs)
    ensures var m := TokenMajor(ls, rs, a);
            TokenMajor(ls, rs, a + b) == (TokenMajor(ls, m.0, b).0, m.1 + TokenMajor(ls, m.0, b).1)
    decreases |a|
  {
    if a == [] {
      assert a + b == b;
      assert [] + TokenMajor(ls, rs, b).1 == TokenMajor(ls, rs, b).1;
    } else {
      assert (a + b)[1..] == a[1..] + b;
      var s := TokenStep(ls, rs, a[0]);
      TokensSplit(ls, s.0, a[1..], b);
      var m := TokenMajor(ls, s.0, a[1..]);
      assert [s.1] + (m.1 + TokenMajor(ls, m.0, b).1) == ([s.1] + m.1) + TokenMajor(ls, m.0, b).1;
    }
  }

  /** A prompt may be fed in pieces: prefill(a ++ b) is prefill(a) followed by prefill(b). */
  lemma PrefillSplit(ls: seq<Layer>, rs: seq<Ring>, a: seq<Vec>, b: seq<Vec>)
    requires AllFit(ls, rs)
    ensures var m := LayerMajor(ls, rs, a);
            LayerMajor(ls, rs, a + b) == (LayerMajor(ls, m.0, b).0, m.1 + LayerMajor(ls, m.0, b).1)
  {
    LayerMajorIsTokenMajor(ls, rs, a + b);
    LayerMajorIsTokenMajor(ls, rs, a);
    LayerMajorIsTokenMajor(ls, LayerMajor(ls, rs, a).0, b);
    TokensSplit(ls, rs, a, b);
  }

  // ---------------------------------------------------------------- tokens

  predicate ValidToken(vocab: int, tok: int) { 0 <= tok < vocab }

  /** The embedding the batched path looks up: an invalid id is replaced by 0. */
  function Embed(embed: seq<Vec>, tok: int): Vec
    requires |embed| > 0
  {
    if ValidToken(|embed|, tok) then embed[tok] else embed[0]
  }

  function EmbedAll(embed: seq<Vec>, toks: seq<int>): (xs: seq<Vec>)
    requires |embed| > 0
    ensures |xs| == |toks|
  {
    seq(|toks|, t requires 0 <= t < |toks| => Embed(embed, toks[t]))
  }

  /** States after stepping one token at a time; an invalid id leaves them alone. */
  function Steps(ls: seq<Layer>, embed: seq<Vec>, rs: seq<Ring>, toks: seq<int>): (res: seq<Ring>)
    requires AllFit(ls, rs)
    ensures AllFit(ls, res)
    decreases |toks|
  {
    if toks == [] then rs
    else if ValidToken(|embed|, toks[0]) then Steps(ls, embed, TokenStep(ls, rs, embed[toks[0]]).0, toks[1..])
    else Steps(ls, embed, rs, toks[1..])
  }

  // ---------------------------------------------------------------- what one token does, entry by entry

  /** Activations before, between and after the layers; projection and scan output of each layer. */
  datatype Pass = Pass(acts: seq<Vec>, projs: seq<Vec>, ys: seq<Vec>)

  /** Channel `i` from state `r` to state `s`. */
  ghost predicate ChannelDid(l: Layer, r: Ring, proj: Vec, y: Vec, s: Ring, i: nat) {
    && Fits(l, r) && Fits(l, s) && i < l.p.dInner == |y| && |proj| == 2 * l.p.dInner + 3 * l.p.nHeads
    && var a, b := ChanOf(l.p, r.conv, r.ssm, r.pos, i), ChanOf(l.p, s.conv, s.ssm, s.pos, i);
       && (b.s, y[i]) == l.p.cell(proj, l.p.head(proj, l.p.headOf(i)), i, a.w, a.s)
       && b.w == Window(a.w.w1, a.w.w2, proj[l.p.dInner + i])
  }

  /**
   * One layer: each entry of the projection is its row's value, each channel takes in its x entry and gives
   * its output, and each entry of the activation gains the value of its output row.
   */
  ghost predicate LayerDid(l: Layer, r: Ring, x: Vec, proj: Vec, y: Vec, s: Ring, z: Vec) {
    var d := l.p.dInner;
    && Fits(l, r) && Fits(l, s) && s.pos == (r.pos + 1) % 3
    && |proj| == 2 * d + 3 * l.p.nHeads && (forall j :: 0 <= j < |proj| ==> proj[j] == l.inRow(x, j))
    && |y| == d && (forall i :: 0 <= i < d ==> ChannelDid(l, r, proj, y, s, i))
    && |z| == |x| && (forall j :: 0 <= j < |x| ==> z[j] == x[j] + l.outRow(y, j))
  }

  /** One token through all layers, from states `rs` to states `ss`. */
  ghost predicate TokenDid(ls: seq<Layer>, rs: seq<Ring>, x: Vec, a: Pass, ss: seq<Ring>) {
    && |rs| == |ss| == |a.projs| == |a.ys| == |ls| && |a.acts| == |ls| + 1 && a.acts[0] == x
    && forall k :: 0 <= k < |ls| ==> LayerDid(ls[k], rs[k], a.acts[k], a.projs[k], a.ys[k], ss[k], a.acts[k + 1])
  }

  /** What the first `k` layers add to entry `j`. */
  function OutSum(ls: seq<Layer>, ys: seq<Vec>, j: nat, k: nat): real
    requires k <= |ls| && k <= |ys|
  {
    if k == 0 then 0.0 else OutSum(ls, ys, j, k - 1) + ls[k - 1].outRow(ys[k - 1], j)
  }

  /** `z` is the embedding plus what the layers add. */
  ghost predicate Residual(ls: seq<Layer>, x: Vec, a: Pass, z: Vec) {
    |a.ys| == |ls| && |z| == |x| && forall j :: 0 <= j < |x| ==> z[j] == x[j] + OutSum(ls, a.ys, j, |ls|)
  }

  /** The tokens one after the other. */
  ghost predicate TokensDid(ls: seq<Layer>, rs: seq<Ring>, xs: seq<Vec>, all: seq<Pass>, states: seq<seq<Ring>>,
                            zs: seq<Vec>) {
    && |all| == |zs| == |xs| && |states| == |xs| + 1 && states[0] == rs
    && forall t :: 0 <= t < |xs| ==>
         TokenDid(ls, states[t], xs[t], all[t], states[t + 1]) && Residual(ls, xs[t], all[t], zs[t])
  }

  /** The embeddings of the ids, that of 0 for an invalid one. */
  ghost predicate LookedUp(embed: seq<Vec>, tokens: seq<int>, xs: seq<Vec>)
    requires |embed| > 0
  {
    |xs| == |tokens| && forall t :: 0 <= t < |tokens| ==> xs[t] == embed[if 0 <= tokens[t] < |embed| then tokens[t] else 0]
  }

  lemma ScanTokenDid(l: Layer, r: Ring, proj: Vec, i: nat)
    requires Fits(l, r) && |proj| == l.p.ProjDim() && i < l.p.dInner
    ensures var s := ScanToken(l, r, proj); ChannelDid(l, r, proj, s.1, s.0, i)
  {
    var d := l.p.dInner;
    var o, b := SlotsAt(d, r.pos, 0), Bufs(r.conv, r.ssm, seq(d, _ => 0.0));
    var res := ScanRange(l.p, proj, o, b, 0, d);
    ScanRangeMeaning(l.p, proj, o, b, 0, d);
    RingIsShift(l.p, proj, b, res, r.pos, 0, 0, d, i);
    assert (ChanOf(l.p, res.conv, res.ssm, NextPos(r.pos), i), res.y[0 + i])
        == ChanStep(l.p, proj, i, ChanOf(l.p, r.conv, r.ssm, r.pos, i));
  }

  lemma LayerStepDid(l: Layer, r: Ring, x: Vec) returns (proj: Vec, y: Vec)
    requires Fits(l, r)
    ensures var s := LayerStep(l, r, x); LayerDid(l, r, x, proj, y, s.0, s.1)
  {
    proj := InProj(l, x);
    y := ScanToken(l, r, proj).1;
    forall i | 0 <= i < l.p.dInner ensures ChannelDid(l, r, proj, y, ScanToken(l, r, proj).0, i) {
      ScanTokenDid(l, r, proj, i);
    }
  }

  function PassCons(x: Vec, proj: Vec, y: Vec, rest: Pass): Pass {
    Pass([x] + rest.acts, [proj] + rest.projs, [y] + rest.ys)
  }

  lemma DidCons(ls: seq<Layer>, rs: seq<Ring>, x: Vec, proj: Vec, y: Vec, s: Ring, z: Vec, rest: Pass, ss: seq<Ring>)
    requires ls != [] && |rs| == |ls| && LayerDid(ls[0], rs[0], x, proj, y, s, z)
    requires TokenDid(ls[1..], rs[1..], z, rest, ss)
    ensures TokenDid(ls, rs, x, PassCons(x, proj, y, rest), [s] + ss)
  {
    var a := PassCons(x, proj, y, rest);
    forall k | 0 <= k < |ls| ensures LayerDid(ls[k], rs[k], a.acts[k], a.projs[k], a.ys[k], ([s] + ss)[k], a.acts[k + 1]) {
      if k > 0 {
        assert LayerDid(ls[1..][k - 1], rs[1..][k - 1], rest.acts[k - 1], rest.projs[k - 1], rest.ys[k - 1], ss[k - 1], rest.acts[k]);
      }
    }
  }

  lemma {:induction false} TokenStepDid(ls: seq<Layer>, rs: seq<Ring>, x: Vec) returns (a: Pass)
    requires AllFit(ls, rs)
    ensures var s := TokenStep(ls, rs, x);
            TokenDid(ls, rs, x, a, s.0) && a.acts[|ls|] == s.1
    decreases |ls|
  {
    if ls == [] {
      a := Pass([x], [], []);
    } else {
      var s := LayerStep(ls[0], rs[0], x);
      var proj, y := LayerStepDid(ls[0], rs[0], x);
      var rest := TokenStepDid(ls[1..], rs[1..], s.1);
      a := PassCons(x, proj, y, rest);
      DidCons(ls, rs, x, proj, y, s.0, s.1, rest, TokenStep(ls[1..], rs[1..], s.1).0);
    }
  }

  /** The activation is the embedding plus what the layers so far have added. */
  lemma {:induction false} ActsAdd(ls: seq<Layer>, rs: seq<Ring>, x: Vec, a: Pass, ss: seq<Ring>, k: nat)
    requires TokenDid(ls, rs, x, a, ss) && k <= |ls|
    ensures |a.acts[k]| == |x| && forall j :: 0 <= j < |x| ==> a.acts[k][j] == x[j] + OutSum(ls, a.ys, j, k)
  {
    if k > 0 {
      ActsAdd(ls, rs, x, a, ss, k - 1);
      assert LayerDid(ls[k - 1], rs[k - 1], a.acts[k - 1], a.projs[k - 1], a.ys[k - 1], ss[k - 1], a.acts[k]);
    }
  }

  /**
   * One token: the layers do what they should, and the final activation is the embedding plus the sum of
   * what every layer's output rows give.
   */
  lemma TokenStepAdds(ls: seq<Layer>, rs: seq<Ring>, x: Vec) returns (a: Pass)
    requires AllFit(ls, rs)
    ensures var s := TokenStep(ls, rs, x); TokenDid(ls, rs, x, a, s.0) && Residual(ls, x, a, s.1)
  {
    a := TokenStepDid(ls, rs, x);
    ActsAdd(ls, rs, x, a, TokenStep(ls, rs, x).0, |ls|);
  }

  lemma {:induction false} TokenMajorAdds(ls: seq<Layer>, rs: seq<Ring>, xs: seq<Vec>)
    returns (all: seq<Pass>, states: seq<seq<Ring>>)
    requires AllFit(ls, rs)
    ensures var m := TokenMajor(ls, rs, xs); TokensDid(ls, rs, xs, all, states, m.1) && states[|xs|] == m.0
    decreases |xs|
  {
    if xs == [] {
      all, states := [], [rs];
    } else {
      var s := TokenStep(ls, rs, xs[0]);
      var a := TokenStepAdds(ls, rs, xs[0]);
      var rest, after := TokenMajorAdds(ls, s.0, xs[1..]);
      all, states := [a] + rest, [rs] + after;
      TokensCons(ls, rs, xs, a, s.1, rest, after, TokenMajor(ls, s.0, xs[1..]).1);
    }
  }

  lemma TokensCons(ls: seq<Layer>, rs: seq<Ring>, xs: seq<Vec>, a: Pass, z: Vec, rest: seq<Pass>,
                   after: seq<seq<Ring>>, zs: seq<Vec>)
    requires xs != [] && |after| > 0 && TokenDid(ls, rs, xs[0], a, after[0]) && Residual(ls, xs[0], a, z)
    requires TokensDid(ls, after[0], xs[1..], rest, after, zs)
    ensures TokensDid(ls, rs, xs, [a] + rest, [rs] + after, [z] + zs)
  {
    forall t | 0 <= t < |xs|
      ensures TokenDid(ls, ([rs] + after)[t], xs[t], ([a] + rest)[t], ([rs] + after)[t + 1])
      ensures Residual(ls, xs[t], ([a] + rest)[t], ([z] + zs)[t])
    {
      if t > 0 {
        assert TokenDid(ls, after[t - 1], xs[1..][t - 1], rest[t - 1], after[t]) && Residual(ls, xs[1..][t - 1], rest[t - 1], zs[t - 1]);
      }
    }
  }

  /** The first `i` layers are through with the batch; `x` is what enters the next one. */
  ghost predicate BatchAt(ls: seq<Layer>, rs0: seq<Ring>, x0: seq<Vec>, rs: seq<Ring>, i: nat, x: seq<Vec>)
    requires AllFit(ls, rs0)
  {
    && AllFit(ls, rs) && i <= |ls| && rs[i..] == rs0[i..]
    && LayerMajor(ls, rs0, x0) == (rs[..i] + LayerMajor(ls[i..], rs0[i..], x).0, LayerMajor(ls[i..], rs0[i..], x).1)
  }

  lemma BatchStart(ls: seq<Layer>, rs: seq<Ring>, x: seq<Vec>)
    requires AllFit(ls, rs)
    ensures BatchAt(ls, rs, x, rs, 0, x)
  {
    assert ls[0..] == ls && rs[0..] == rs;
    assert rs[..0] + LayerMajor(ls, rs, x).0 == LayerMajor(ls, rs, x).0;
  }

  lemma BatchNext(ls: seq<Layer>, rs0: seq<Ring>, x0: seq<Vec>, rs: seq<Ring>, i: nat, x: seq<Vec>)
    requires AllFit(ls, rs0) && i < |ls| && BatchAt(ls, rs0, x0, rs, i, x)
    ensures rs[i] == rs0[i]
    ensures var s := LayerBatch(ls[i], rs[i], x); BatchAt(ls, rs0, x0, rs[i := s.0], i + 1, s.1)
  {
    assert rs[i] == rs[i..][0] == rs0[i..][0] == rs0[i];
    var s := LayerBatch(ls[i], rs[i], x);
    assert ls[i..][1..] == ls[i + 1..] && rs0[i..][1..] == rs0[i + 1..];
    var rest := LayerMajor(ls[i + 1..], rs0[i + 1..], s.1);
    assert LayerMajor(ls[i..], rs0[i..], x) == ([s.0] + rest.0, rest.1);
    assert rs[i := s.0][..i + 1] + rest.0 == rs[..i] + ([s.0] + rest.0);
    assert rs[i := s.0][i + 1..] == rs[i..][1..];
  }

  ghost predicate TokenAt(ls: seq<Layer>, rs0: seq<Ring>, x0: Vec, rs: seq<Ring>, i: nat, x: Vec)
    requires AllFit(ls, rs0)
  {
    && AllFit(ls, rs) && i <= |ls| && rs[i..] == rs0[i..]
    && TokenStep(ls, rs0, x0) == (rs[..i] + TokenStep(ls[i..], rs0[i..], x).0, TokenStep(ls[i..], rs0[i..], x).1)
  }

  lemma TokenStart(ls: seq<Layer>, rs: seq<Ring>, x: Vec)
    requires AllFit(ls, rs)
    ensures TokenAt(ls, rs, x, rs, 0, x)
  {
    assert ls[0..] == ls && rs[0..] == rs;
    assert rs[..0] + TokenStep(ls, rs, x).0 == TokenStep(ls, rs, x).0;
  }

  lemma TokenNext(ls: seq<Layer>, rs0: seq<Ring>, x0: Vec, rs: seq<Ring>, i: nat, x: Vec)
    requires AllFit(ls, rs0) && i < |ls| && TokenAt(ls, rs0, x0, rs, i, x)
    ensures rs[i] == rs0[i]
    ensures var s := LayerStep(ls[i], rs[i], x); TokenAt(ls, rs0, x0, rs[i := s.0], i + 1, s.1)
  {
    assert rs[i] == rs[i..][0] == rs0[i..][0] == rs0[i];
    var s := LayerStep(ls[i], rs[i], x);
    assert ls[i..][1..] == ls[i + 1..] && rs0[i..][1..] == rs0[i + 1..];
    var rest := TokenStep(ls[i + 1..], rs0[i + 1..], s.1);
    assert TokenStep(ls[i..], rs0[i..], x) == ([s.0] + rest.0, rest.1);
    assert rs[i := s.0][..i + 1] + rest.0 == rs[..i] + ([s.0] + rest.0);
    assert rs[i := s.0][i + 1..] == rs[i..][1..];
  }

  class Model {
    const layers: seq<Layer>
    const embed: seq<Vec>
    var rings: seq<Ring>

    ghost predicate Valid()
      reads this
    {
      AllFit(layers, rings) && |embed| > 0
    }

    constructor (layers: seq<Layer>, embed: seq<Vec>, rings: seq<Ring>)
      requires AllFit(layers, rings) && |embed| > 0
      ensures Valid() && this.layers == layers && this.embed == embed && this.rings == rings
    {
      this.layers, this.embed, this.rings := layers, embed, rings;
    }

    /** Layer by layer over the whole prompt. */
    method Prefill(tokens: seq<int>) returns (x: seq<Vec>)
      requires Valid()
      modifies this`rings
      ensures Valid()
      ensures (rings, x) == TokenMajor(layers, old(rings), EmbedAll(embed, tokens))
      ensures exists xs, all, states ::
        LookedUp(embed, tokens, xs) && TokensDid(layers, old(rings), xs, all, states, x) && states[|xs|] == rings
    {
      x := [];
      for t := 0 to |tokens|
        invariant x == EmbedAll(embed, tokens[..t])
      {
        x := x + [Embed(embed, tokens[t])];
        assert EmbedAll(embed, tokens[..t + 1]) == EmbedAll(embed, tokens[..t]) + [Embed(embed, tokens[t])];
      }
      assert tokens[..|tokens|] == tokens;
      ghost var x0 := x;
      BatchStart(layers, rings, x);
      for i := 0 to |layers|
        invariant BatchAt(layers, old(rings), x0, rings, i, x)
      {
        BatchNext(layers, old(rings), x0, rings, i, x);
        var s := LayerBatch(layers[i], rings[i], x);
        rings, x := rings[i := s.0], s.1;
      }
      assert layers[|layers|..] == [] && rings[..|layers|] + [] == rings;
      LayerMajorIsTokenMajor(layers, old(rings), x0);
      ghost var all, states := TokenMajorAdds(layers, old(rings), x0);
    }

    /** One token through all layers; an invalid id is refused before any state changes. */
    method ForwardStep(token: int) returns (ok: bool, x: Vec)
      requires Valid()
      modifies this`rings
      ensures Valid() && ok == ValidToken(|embed|, token)
      ensures ok ==> (rings, x) == TokenStep(layers, old(rings), embed[token])
      ensures ok ==> exists a :: TokenDid(layers, old(rings), embed[token], a, rings) && Residual(layers, embed[token], a, x)
      ensures !ok ==> rings == old(rings)
    {
      if token < 0 || token >= |embed| { return false, []; }
      ok, x := true, embed[token];
      TokenStart(layers, rings, x);
      for i := 0 to |layers|
        invariant TokenAt(layers, old(rings), embed[token], rings, i, x)
      {
        TokenNext(layers, old(rings), embed[token], rings, i, x);
        var s := LayerStep(layers[i], rings[i], x);
        rings, x := rings[i := s.0], s.1;
      }
      assert layers[|layers|..] == [] && rings[..|layers|] + [] == rings;
      ghost var a := TokenStepAdds(layers, old(rings), embed[token]);
    }
  }

  predicate AllValid(vocab: int, toks: seq<int>) { forall t :: 0 <= t < |toks| ==> ValidToken(vocab, toks[t]) }

  /** For valid ids the prompt may be ingested either way. */
  lemma {:induction false} PrefillIsStepping(ls: seq<Layer>, embed: seq<Vec>, rs: seq<Ring>, toks: seq<int>)
    requires AllFit(ls, rs) && |embed| > 0 && AllValid(|embed|, toks)
    ensures LayerMajor(ls, rs, EmbedAll(embed, toks)).0 == Steps(ls, embed, rs, toks)
    decreases |toks|
  {
    LayerMajorIsTokenMajor(ls, rs, EmbedAll(embed, toks));
    if toks != [] {
      var next := TokenStep(ls, rs, embed[toks[0]]).0;
      assert EmbedAll(embed, toks)[0] == embed[toks[0]];
      assert EmbedAll(embed, toks)[1..] == EmbedAll(embed, toks[1..]);
      LayerMajorIsTokenMajor(ls, next, EmbedAll(embed, toks[1..]));
      PrefillIsStepping(ls, embed, next, toks[1..]);
    }
  }

  // ---------------------------------------------------------------- invalid ids

  /**
   * Weights of a block of one channel and one head that adds a fixed amount per token: no decay
   * (exp(0) = 1), zero convolution taps, and a bias, an activation and a time step that are positive.
   */
  ghost predicate Counts(wt: Weights) {
    && wt.exp(0.0) == 1.0 && wt.aPrecomp == [0.0] && wt.convW == [0.0, 0.0, 0.0, 0.0]
    && |wt.convB| == 1 && |wt.dtBias| == 1 && wt.softplus(wt.dtBias[0]) > 0.0 && wt.silu(wt.convB[0]) > 0.0
  }

  /** What one token adds to the state. */
  function Gain(wt: Weights): real { RealTimes(wt.silu(Get(wt.convB, 0)), wt.softplus(Get(wt.dtBias, 0))) }

  lemma GainPositive(wt: Weights)
    requires Counts(wt)
    ensures Gain(wt) > 0.0
  { }

  /** The layer with those weights: in_proj gives B = 1 and 0 elsewhere, out_proj is zero. */
  function Counter(wt: Weights): Layer {
    Layer(ScalarKernel(wt, 1, 1, 1), (u: Vec, x: nat) => if x == 2 then 1.0 else 0.0, (y: Vec, x: nat) => 0.0)
  }

  lemma CounterCell(wt: Weights, u: Vec, w: Window, s: real)
    requires Counts(wt)
    ensures Counter(wt).p.Channel(InProj(Counter(wt), u), 0, w, s).0 == s + Gain(wt)
  {
    var proj := InProj(Counter(wt), u);
    assert |proj| == 5 && proj[1] == 0.0 && proj[2] == 1.0 && proj[4] == 0.0;
    var hd := HeadValues(wt, 1, 1, proj, 0);
    assert hd.decay == 1.0 && hd.bdt == wt.softplus(wt.dtBias[0]);
    assert CellValues(wt, 1, proj, hd, 0, w, s).0 == s * 1.0 + wt.silu(wt.convB[0]) * hd.bdt;
  }

  function Count(wt: Weights, rs: seq<Ring>): real
    requires AllFit([Counter(wt)], rs)
  {
    assert Fits([Counter(wt)][0], rs[0]);
    rs[0].ssm[0]
  }

  lemma CounterStep(wt: Weights, rs: seq<Ring>, x: Vec)
    requires Counts(wt) && AllFit([Counter(wt)], rs)
    ensures Count(wt, TokenStep([Counter(wt)], rs, x).0) == Count(wt, rs) + Gain(wt)
  {
    var l := Counter(wt);
    assert [l][0] == l && Fits([l][0], rs[0]);
    var s, o, b := LayerStep(l, rs[0], x), SlotsAt(1, rs[0].pos, 0), Bufs(rs[0].conv, rs[0].ssm, seq(1, _ => 0.0));
    ScanRangeMeaning(l.p, InProj(l, x), o, b, 0, 1);
    CounterCell(wt, x, WindowAt(l.p, o, b, 0), rs[0].ssm[0]);
    assert s.0.ssm[0] == rs[0].ssm[0] + Gain(wt);
    assert TokenStep([l], rs, x).0[0] == s.0;
  }

  lemma {:induction false} CounterMajor(wt: Weights, rs: seq<Ring>, xs: seq<Vec>)
    requires Counts(wt) && AllFit([Counter(wt)], rs)
    ensures Count(wt, TokenMajor([Counter(wt)], rs, xs).0) == Count(wt, rs) + RealTimes(|xs| as real, Gain(wt))
    decreases |xs|
  {
    if xs != [] {
      CounterStep(wt, rs, xs[0]);
      CounterMajor(wt, TokenStep([Counter(wt)], rs, xs[0]).0, xs[1..]);
      OneMore(|xs| - 1, Gain(wt));
    }
  }

  lemma OneMore(n: nat, g: real)
    ensures RealTimes((n + 1) as real, g) == RealTimes(n as real, g) + g
  { }

  function ValidCount(vocab: int, toks: seq<int>): (n: nat)
    ensures n <= |toks| && (n == |toks| <==> AllValid(vocab, toks))
  {
    if toks == [] then 0 else (if ValidToken(vocab, toks[0]) then 1 else 0) + ValidCount(vocab, toks[1..])
  }

  lemma {:induction false} CounterSteps(wt: Weights, embed: seq<Vec>, rs: seq<Ring>, toks: seq<int>)
    requires Counts(wt) && AllFit([Counter(wt)], rs)
    ensures Count(wt, Steps([Counter(wt)], embed, rs, toks)) == Count(wt, rs) + RealTimes(ValidCount(|embed|, toks) as real, Gain(wt))
    decreases |toks|
  {
    if toks != [] {
      if ValidToken(|embed|, toks[0]) {
        CounterStep(wt, rs, embed[toks[0]]);
        CounterSteps(wt, embed, TokenStep([Counter(wt)], rs, embed[toks[0]]).0, toks[1..]);
        OneMore(ValidCount(|embed|, toks[1..]), Gain(wt));
      } else {
        CounterSteps(wt, embed, rs, toks[1..]);
      }
    }
  }

  lemma Fewer(m: nat, n: nat, g: real)
    requires m < n && g > 0.0
    ensures RealTimes(m as real, g) < RealTimes(n as real, g)
  {
    assert (n - m) as real * g > 0.0;
    assert (n - m) as real == n as real - m as real;
  }

  /**
   * With an invalid id in the prompt the two ways differ, from every state of such a block: the batch
   * takes it for id 0 and adds its gain, stepping refuses it.
   */
  lemma InvalidIdsDiffer(wt: Weights, embed: seq<Vec>, rs: seq<Ring>, toks: seq<int>)
    requires Counts(wt) && |embed| > 0 && !AllValid(|embed|, toks) && AllFit([Counter(wt)], rs)
    ensures LayerMajor([Counter(wt)], rs, EmbedAll(embed, toks)).0 != Steps([Counter(wt)], embed, rs, toks)
  {
    LayerMajorIsTokenMajor([Counter(wt)], rs, EmbedAll(embed, toks));
    CounterMajor(wt, rs, EmbedAll(embed, toks));
    CounterSteps(wt, embed, rs, toks);
    GainPositive(wt);
    Fewer(ValidCount(|embed|, toks), |toks|, Gain(wt));
  }

  ghost predicate SameEitherWay(embed: seq<Vec>, toks: seq<int>)
    requires |embed| > 0
  {
    forall ls, rs :: AllFit(ls, rs) ==> LayerMajor(ls, rs, EmbedAll(embed, toks)).0 == Steps(ls, embed, rs, toks)
  }

  /** Batched and stepwise ingestion agree on every model exactly for prompts without an invalid id. */
  lemma EitherWayIff(wt: Weights, embed: seq<Vec>, toks: seq<int>)
    requires Counts(wt) && |embed| > 0
    ensures SameEitherWay(embed, toks) <==> AllValid(|embed|, toks)
  {
    if AllValid(|embed|, toks) {
      forall ls, rs | AllFit(ls, rs) ensures LayerMajor(ls, rs, EmbedAll(embed, toks)).0 == Steps(ls, embed, rs, toks) {
        PrefillIsStepping(ls, embed, rs, toks);
      }
    } else {
      var ls, rs := [Counter(wt)], [Ring([0.0, 0.0, 0.0], [0.0], 0)];
      assert AllFit(ls, rs);
      InvalidIdsDiffer(wt, embed, rs, toks);
    }
  }
}
