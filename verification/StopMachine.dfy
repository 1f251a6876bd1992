/**
 * When generation stops: end tokens, turn markers, newline flood, a token repeated too often, and
 * repeating n-grams found in a 64-slot ring.
 */
module StopMachine {

  const EOS := 50256
  const NL := 198
  const NLNL := 628
  const RING := 64

  /** Tokens that open a new turn, question or answer. */
  const MARKERS: set<nat> := {48, 24361, 32, 33, 34, 35, 2061, 2437, 5195, 2215, 8496, 3792, 8491, 5211, 13921, 6090, 23998, 33706}

  datatype Config = Config(repeatLimit: int, newlineLimit: int, stopTokens: seq<nat>, template: bool)
  {
    function Repeats(): (r: nat) ensures r > 0 { if repeatLimit > 0 then repeatLimit else 6 }
    function Newlines(): (r: nat) ensures r > 0 { if newlineLimit > 0 then newlineLimit else 8 }
  }

  // ---------------------------------------------------------------- the rules, on the full history

  /** How many equal tokens end the text, if `t` is that token. */
  function TailRun(e: seq<nat>, t: nat): (n: nat)
    ensures n <= |e|
  {
    if e == [] || e[|e| - 1] != t then 0 else TailRun(e[..|e| - 1], t) + 1
  }

  function NewlineWeight(e: seq<nat>): nat {
    if e == [] then 0 else NewlineWeight(e[..|e| - 1]) + Weight(e[|e| - 1])
  }

  function Weight(t: nat): nat { if t == NLNL then 2 else if t == NL then 1 else 0 }

  predicate IsNewline(t: nat) { t == NL || t == NLNL }

  predicate EndStop(c: Config, t: nat) { t == EOS || t == 0 || t in c.stopTokens }

  predicate MarkerStop(c: Config, e: seq<nat>, t: nat) {
    c.template && |e| > 0 && IsNewline(e[|e| - 1]) && t in MARKERS
  }

  predicate FloodStop(c: Config, e: seq<nat>, t: nat) { c.template && NewlineWeight(e) + Weight(t) >= c.Newlines() }

  predicate RepeatStop(c: Config, e: seq<nat>, t: nat) { TailRun(e, t) >= 1 && TailRun(e, t) + 1 >= c.Repeats() }

  /** The last `k` tokens repeat the `k` before them. */
  predicate Doubled(h: seq<nat>, k: nat) { 2 * k <= |h| && h[|h| - k..] == h[|h| - 2 * k..|h| - k] }

  predicate LoopStop(h: seq<nat>) { exists k :: 3 <= k <= 16 && Doubled(h, k) }

  predicate Stops(c: Config, e: seq<nat>, t: nat) {
    EndStop(c, t) || MarkerStop(c, e, t) || FloodStop(c, e, t) || RepeatStop(c, e, t) || LoopStop(e + [t])
  }

  /** `e` is what the model's tokens `stream` lead to: everything before the first stop. */
  ghost predicate Emitted(c: Config, stream: seq<nat>, e: seq<nat>) {
    && |e| <= |stream| && e == stream[..|e|]
    && (forall i :: 0 <= i < |e| ==> !Stops(c, e[..i], e[i]))
    && (|e| < |stream| ==> Stops(c, e, stream[|e|]))
  }

  /** The rules determine the text. */
  lemma EmittedUnique(c: Config, stream: seq<nat>, e: seq<nat>, f: seq<nat>)
    requires Emitted(c, stream, e) && Emitted(c, stream, f)
    ensures e == f
  {
    assert |e| <= |f| ==> f[..|e|] == e;
    assert |f| <= |e| ==> e[..|f|] == f;
    if |e| < |f| { assert false; }
    if |f| < |e| { assert false; }
  }

  // ---------------------------------------------------------------- the state kept while generating

  /** Slot of the token `j` places back. */
  function Back(pos: nat, j: nat): (r: nat)
    requires pos < RING && j < RING
    ensures r < RING
  {
    (pos + RING - 1 - j) % RING
  }

  /** The ring holds the last tokens of `h`, newest just before `pos`. */
  ghost predicate RingHolds(buf: seq<nat>, pos: nat, fill: nat, h: seq<nat>) {
    && |buf| == RING && pos < RING && fill == (if |h| < RING then |h| else RING)
    && forall j :: 0 <= j < fill ==> buf[Back(pos, j)] == h[|h| - 1 - j]
  }

  lemma BackNext(pos: nat, j: nat)
    requires pos < RING && j < RING
    ensures var next := (pos + 1) % RING;
            (j == 0 ==> Back(next, j) == pos) && (j > 0 ==> Back(next, j) == Back(pos, j - 1))
            && (j < RING - 1 ==> Back(pos, j) != pos)
  { }

  lemma RingPush(buf: seq<nat>, pos: nat, fill: nat, h: seq<nat>, t: nat)
    requires RingHolds(buf, pos, fill, h)
    ensures RingHolds(buf[pos := t], (pos + 1) % RING, if fill < RING then fill + 1 else fill, h + [t])
  {
    var r, next, more := buf[pos := t], (pos + 1) % RING, h + [t];
    var n := if fill < RING then fill + 1 else fill;
    forall j | 0 <= j < n ensures r[Back(next, j)] == more[|more| - 1 - j] {
      BackNext(pos, j);
      if j > 0 { BackNext(pos, j - 1); }
    }
  }

  function FromEnd(h: seq<nat>, i: nat): nat
    requires i < |h|
  {
    h[|h| - 1 - i]
  }

  /** The last `j` of the last `k` tokens equal those `k` places before. */
  ghost predicate AgreeBack(h: seq<nat>, k: nat, j: nat)
    requires 2 * k <= |h| && j <= k
  {
    forall i :: 0 <= i < j ==> FromEnd(h, i) == FromEnd(h, i + k)
  }

  lemma AgreeIsDoubled(h: seq<nat>, k: nat)
    requires 2 * k <= |h|
    ensures AgreeBack(h, k, k) <==> Doubled(h, k)
  {
    var u, v := h[|h| - k..], h[|h| - 2 * k..|h| - k];
    if AgreeBack(h, k, k) {
      forall i | 0 <= i < k ensures u[i] == v[i] {
        var m := k - 1 - i;
        assert FromEnd(h, m) == FromEnd(h, m + k);
      }
    }
    if Doubled(h, k) {
      forall i | 0 <= i < k ensures FromEnd(h, i) == FromEnd(h, i + k) { assert u[k - 1 - i] == v[k - 1 - i]; }
    }
  }

  /** Comparing in the ring is comparing in the history. */
  method MatchBack(buf: array<nat>, pos: nat, fill: nat, k: nat, ghost h: seq<nat>) returns (b: bool)
    requires RingHolds(buf[..], pos, fill, h) && 2 * k <= fill && k <= 16
    ensures b == Doubled(h, k)
  {
    AgreeIsDoubled(h, k);
    var j := 0;
    while j < k
      invariant j <= k && AgreeBack(h, k, j)
    {
      var same := SameSlots(buf, pos, fill, j, j + k, h);
      if !same { return false; }
      j := j + 1;
    }
    return true;
  }

  method SameSlots(buf: array<nat>, pos: nat, fill: nat, i: nat, j: nat, ghost h: seq<nat>) returns (b: bool)
    requires RingHolds(buf[..], pos, fill, h) && i < fill && j < fill
    ensures b == (FromEnd(h, i) == FromEnd(h, j))
  {
    assert buf[..][Back(pos, i)] == h[|h| - 1 - i] && buf[..][Back(pos, j)] == h[|h| - 1 - j];
    return buf[Back(pos, i)] == buf[Back(pos, j)];
  }

  method FindLoop(buf: array<nat>, pos: nat, fill: nat, ghost h: seq<nat>) returns (b: bool)
    requires RingHolds(buf[..], pos, fill, h)
    ensures b == LoopStop(h)
  {
    var k := 3;
    while k <= fill / 2 && k <= 16
      invariant 3 <= k <= 17 && forall i :: 3 <= i < k ==> !Doubled(h, i)
    {
      var m := MatchBack(buf, pos, fill, k, h);
      if m { return true; }
      k := k + 1;
    }
    return false;
  }

  /** Counters and ring as functions of what has been emitted. */
  ghost predicate Tracks(e: seq<nat>, buf: seq<nat>, pos: nat, fill: nat, prev: int, repToken: int, repCount: nat,
                         para: nat) {
    && RingHolds(buf, pos, fill, e)
    && prev == (if e == [] then -1 else e[|e| - 1]) && repToken == prev
    && repCount == (if e == [] then 0 else TailRun(e, e[|e| - 1]))
    && para == NewlineWeight(e)
  }

  lemma TailRunNext(e: seq<nat>, t: nat)
    ensures TailRun(e + [t], t) == TailRun(e, t) + 1
  {
    assert (e + [t])[..|e|] == e;
  }

  lemma WeightNext(e: seq<nat>, t: nat)
    ensures NewlineWeight(e + [t]) == NewlineWeight(e) + Weight(t)
  {
    assert (e + [t])[..|e|] == e;
  }

  lemma TracksNext(e: seq<nat>, buf: seq<nat>, pos: nat, fill: nat, prev: int, repToken: int, repCount: nat, para: nat,
                   t: nat)
    requires Tracks(e, buf, pos, fill, prev, repToken, repCount, para)
    ensures TailRun(e, t) == if t == repToken then repCount else 0
    ensures Tracks(e + [t], buf[pos := t], (pos + 1) % RING, if fill < RING then fill + 1 else fill,
                   t, t, if t == repToken then repCount + 1 else 1, para + Weight(t))
  {
    RingPush(buf, pos, fill, e, t);
    TailRunNext(e, t);
    WeightNext(e, t);
  }

  method IsStop(c: Config, t: nat) returns (b: bool)
    ensures b == (t in c.stopTokens)
  {
    for j := 0 to |c.stopTokens|
      invariant forall i :: 0 <= i < j ==> c.stopTokens[i] != t
    {
      if t == c.stopTokens[j] { return true; }
    }
    return false;
  }

  /** One decoding run; `stream` is what the model answers, up to the token limit or an interrupt. */
  method Generate(c: Config, stream: seq<nat>) returns (e: seq<nat>)
    ensures Emitted(c, stream, e)
  {
    e := [];
    var buf := new nat[RING](_ => 0);
    var prev: int, repToken: int, repCount: nat := -1, -1, 0;
    var pos: nat, fill: nat, para: nat := 0, 0, 0;
    while |e| < |stream|
      invariant |e| <= |stream| && e == stream[..|e|] && fresh(buf) && buf.Length == RING
      invariant forall i :: 0 <= i < |e| ==> !Stops(c, e[..i], e[i])
      invariant Tracks(e, buf[..], pos, fill, prev, repToken, repCount, para)
    {
      var next := stream[|e|];
      TracksNext(e, buf[..], pos, fill, prev, repToken, repCount, para, next);
      if next == EOS || next == 0 { return; }
      var stop := IsStop(c, next);
      if stop { return; }
      if c.template && (prev == NL || prev == NLNL) && next in MARKERS { return; }
      if next == NL || next == NLNL { para := para + if next == NLNL then 2 else 1; }
      if c.template && para >= c.Newlines() { return; }
      if next == repToken {
        repCount := repCount + 1;
        if repCount >= c.Repeats() { return; }
      } else {
        repToken, repCount := next, 1;
      }
      ghost var before := buf[..];
      buf[pos] := next;
      assert buf[..] == before[pos := next];
      pos := (pos + 1) % RING;
      if fill < RING { fill := fill + 1; }
      if fill >= 6 {
        var loop := FindLoop(buf, pos, fill, e + [next]);
        if loop { return; }
      } else {
        assert |e + [next]| < 6;
      }
      assert !Stops(c, e, next);
      assert (e + [next])[..|e|] == e;
      assert forall i :: 0 <= i < |e| ==> (e + [next])[..i] == e[..i];
      e := e + [next];
      prev := next;
    }
  }

  // ---------------------------------------------------------------- what the text never contains

  /** Positions [p, p + 2k) hold one word twice. */
  predicate Repetition(e: seq<nat>, p: nat, k: nat) { p + 2 * k <= |e| && e[p..p + k] == e[p + k..p + 2 * k] }

  /** `n` equal tokens from position `p` on. */
  predicate EqualRun(e: seq<nat>, p: nat, n: nat) { p + n <= |e| && forall i :: p <= i < p + n ==> e[i] == e[p] }

  /** The limit of equal tokens: 6 unless another one is set, and never less than two. */
  function LongRun(c: Config): (n: nat)
    ensures n >= 2
  {
    var limit := if c.repeatLimit > 0 then c.repeatLimit else 6;
    if limit < 2 then 2 else limit
  }

  /** Line breaks in `e`, double ones counting twice. */
  function LineBreaks(e: seq<nat>): nat { multiset(e)[198] + 2 * multiset(e)[628] }

  function BreakLimit(c: Config): nat { if c.newlineLimit > 0 then c.newlineLimit else 8 }

  /** The last `m` tokens are all `t` exactly if the run at the end is that long. */
  lemma {:induction false} TailRunIs(e: seq<nat>, t: nat, m: nat)
    requires m <= |e|
    ensures TailRun(e, t) >= m <==> forall i :: |e| - m <= i < |e| ==> e[i] == t
  {
    if m > 0 {
      var d := e[..|e| - 1];
      TailRunIs(d, t, m - 1);
      assert forall i :: 0 <= i < |d| ==> d[i] == e[i];
    }
  }

  lemma {:induction false} WeightIsBreaks(e: seq<nat>)
    ensures NewlineWeight(e) == LineBreaks(e)
  {
    if e != [] {
      WeightIsBreaks(e[..|e| - 1]);
      assert e == e[..|e| - 1] + [e[|e| - 1]];
    }
  }

  ghost predicate TurnAt(e: seq<nat>, i: nat) { 0 < i < |e| && e[i - 1] in {198, 628} && e[i] in MARKERS }

  /**
   * Why a text must not go on to `h`: its last token is an end token, opens a turn, is one line break too
   * many, or completes a run of equal tokens or a repetition of 3 to 16 tokens.
   */
  ghost predicate Over(c: Config, h: seq<nat>) {
    && h != []
    && (h[|h| - 1] in [50256, 0] + c.stopTokens
        || (c.template && (TurnAt(h, |h| - 1) || LineBreaks(h) >= BreakLimit(c)))
        || (|h| >= LongRun(c) && EqualRun(h, |h| - LongRun(c), LongRun(c)))
        || exists k :: 3 <= k <= 16 && 2 * k <= |h| && Repetition(h, |h| - 2 * k, k))
  }

  lemma RunIff(c: Config, e: seq<nat>, t: nat)
    ensures var h := e + [t];
            RepeatStop(c, e, t) <==> |h| >= LongRun(c) && EqualRun(h, |h| - LongRun(c), LongRun(c))
  {
    var h, n := e + [t], LongRun(c);
    if n - 1 <= |e| {
      TailRunIs(e, t, n - 1);
      assert forall i :: 0 <= i < |e| ==> h[i] == e[i];
      if EqualRun(h, |h| - n, n) { assert h[|h| - 1] == h[|h| - n] == t; }
    }
  }

  lemma LoopIff(h: seq<nat>)
    ensures LoopStop(h) <==> exists k :: 3 <= k <= 16 && 2 * k <= |h| && Repetition(h, |h| - 2 * k, k)
  {
    forall k | 3 <= k <= 16 && 2 * k <= |h| ensures Doubled(h, k) <==> Repetition(h, |h| - 2 * k, k) {
      assert h[|h| - k..] == h[|h| - k..|h|];
    }
    if LoopStop(h) {
      var k :| 3 <= k <= 16 && Doubled(h, k);
      assert Repetition(h, |h| - 2 * k, k);
    }
    if k :| 3 <= k <= 16 && 2 * k <= |h| && Repetition(h, |h| - 2 * k, k) { assert Doubled(h, k); }
  }

  /** The rules are the reasons, whatever the text so far. */
  lemma StopsIff(c: Config, e: seq<nat>, t: nat)
    ensures Stops(c, e, t) <==> Over(c, e + [t])
  {
    RunIff(c, e, t);
    LoopIff(e + [t]);
    WeightNext(e, t);
    WeightIsBreaks(e + [t]);
  }

  lemma StopsAt(c: Config, s: seq<nat>, i: nat)
    requires i < |s|
    ensures Stops(c, s[..i], s[i]) <==> Over(c, s[..i + 1])
  {
    StopsIff(c, s[..i], s[i]);
    assert s[..i] + [s[i]] == s[..i + 1];
  }

  /**
   * The text ends before the first token that must not be there, and only there: no beginning of it is over,
   * and while tokens remain the next one would make it so.
   */
  ghost predicate EndsBefore(c: Config, stream: seq<nat>, e: seq<nat>) {
    && e <= stream && (forall i :: 0 < i <= |e| ==> !Over(c, e[..i]))
    && (|e| < |stream| ==> Over(c, stream[..|e| + 1]))
  }

  lemma EmittedIff(c: Config, stream: seq<nat>, e: seq<nat>)
    ensures Emitted(c, stream, e) <==> EndsBefore(c, stream, e)
  {
    if Emitted(c, stream, e) {
      forall i | 0 < i <= |e| ensures !Over(c, e[..i]) { StopsAt(c, e, i - 1); }
      if |e| < |stream| { StopsAt(c, stream, |e|); }
    }
    if EndsBefore(c, stream, e) {
      assert e == stream[..|e|];
      forall i | 0 <= i < |e| ensures !Stops(c, e[..i], e[i]) { StopsAt(c, e, i); }
      if |e| < |stream| { StopsAt(c, stream, |e|); }
    }
  }

  /** What is streamed never loops, never floods, and never runs into a new turn, at any place. */
  lemma NeverLoops(c: Config, stream: seq<nat>, e: seq<nat>)
    requires Emitted(c, stream, e)
    ensures forall p: nat, k: nat :: 3 <= k <= 16 ==> !Repetition(e, p, k)
    ensures forall p: nat :: !EqualRun(e, p, LongRun(c))
    ensures c.template ==> LineBreaks(e) < BreakLimit(c) && forall i: nat :: !TurnAt(e, i)
    ensures forall i :: 0 <= i < |e| ==> e[i] !in [50256, 0] + c.stopTokens
  {
    EmittedIff(c, stream, e);
    forall p: nat, k: nat | 3 <= k <= 16 ensures !Repetition(e, p, k) {
      if Repetition(e, p, k) { RepetitionIsOver(c, e, p, k); }
    }
    forall p: nat ensures !EqualRun(e, p, LongRun(c)) {
      if EqualRun(e, p, LongRun(c)) { RunIsOver(c, e, p); }
    }
    if c.template {
      assert BreakLimit(c) > 0 && e[..|e|] == e;
      forall i: nat ensures !TurnAt(e, i) {
        if TurnAt(e, i) { TurnIsOver(c, e, i); }
      }
    }
    forall i | 0 <= i < |e| ensures e[i] !in [50256, 0] + c.stopTokens {
      assert !Over(c, e[..i + 1]) && e[..i + 1][i] == e[i];
    }
  }

  lemma TurnIsOver(c: Config, e: seq<nat>, i: nat)
    requires c.template && TurnAt(e, i)
    ensures Over(c, e[..i + 1])
  {
    assert TurnAt(e[..i + 1], i);
  }

  lemma RepetitionIsOver(c: Config, e: seq<nat>, p: nat, k: nat)
    requires Repetition(e, p, k) && 3 <= k <= 16
    ensures Over(c, e[..p + 2 * k])
  {
    var h := e[..p + 2 * k];
    assert h[p..p + k] == e[p..p + k] && h[p + k..p + 2 * k] == e[p + k..p + 2 * k];
    assert Repetition(h, |h| - 2 * k, k);
  }

  lemma RunIsOver(c: Config, e: seq<nat>, p: nat)
    requires EqualRun(e, p, LongRun(c))
    ensures Over(c, e[..p + LongRun(c)])
  {
    var h := e[..p + LongRun(c)];
    assert EqualRun(h, |h| - LongRun(c), LongRun(c));
  }
}
