/** Word splitting, greedy longest-token encoding, and the round trip through decoding. */
module Tokenizer {
  import opened Ternary
  import opened ByteEncoding
  import opened ProbeIndex

  // ---------------------------------------------------------------- words

  /** The C library's character classes, whatever the locale makes of them. */
  datatype CType = CType(alpha: Byte -> bool, digit: Byte -> bool, space: Byte -> bool)
  {
    predicate Other(b: Byte) { !space(b) && !alpha(b) && !digit(b) }
  }

  datatype Class = Alpha | Digit | Space | Rest

  predicate In(ct: CType, k: Class, b: Byte) {
    match k
    case Alpha => ct.alpha(b)
    case Digit => ct.digit(b)
    case Space => ct.space(b)
    case Rest => ct.Other(b)
  }

  /** End of the run of class `k` that starts at `i`. */
  function RunOf(ct: CType, k: Class, s: seq<Byte>, i: nat): (r: nat)
    requires i <= |s|
    ensures i <= r <= |s|
    decreases |s| - i
  {
    if i < |s| && In(ct, k, s[i]) then RunOf(ct, k, s, i + 1) else i
  }

  /** Length of the contraction at the front, 0 if there is none. */
  function Contraction(s: seq<Byte>): (n: nat)
    ensures n <= |s|
  {
    if |s| >= 2 && s[0] == 39 && s[1] in {115, 116, 109, 100} then 2
    else if |s| >= 3 && s[0] == 39 && (s[1..3] == [114, 101] || s[1..3] == [118, 101] || s[1..3] == [108, 108]) then 3
    else 0
  }

  function WordLength(ct: CType, s: seq<Byte>): (n: nat) {
    if |s| == 0 then 0
    else if Contraction(s) > 0 then Contraction(s)
    else
      var i := if s[0] == 32 then 1 else 0;
      if i < |s| && ct.alpha(s[i]) then RunOf(ct, Alpha, s, i)
      else if i < |s| && ct.digit(s[i]) then RunOf(ct, Digit, s, i)
      else if i < |s| && ct.Other(s[i]) then RunOf(ct, Rest, s, i)
      else if ct.space(s[0]) then RunOf(ct, Space, s, 1)
      else 1
  }

  /** Every word is a non-empty piece of what is left. */
  lemma WordProgress(ct: CType, s: seq<Byte>)
    requires |s| > 0
    ensures 1 <= WordLength(ct, s) <= |s|
  {
    var i := if s[0] == 32 then 1 else 0;
    if i < |s| && ct.alpha(s[i]) { RunStarts(ct, Alpha, s, i); }
    else if i < |s| && ct.digit(s[i]) { RunStarts(ct, Digit, s, i); }
    else if i < |s| && ct.Other(s[i]) { RunStarts(ct, Rest, s, i); }
  }

  lemma RunStarts(ct: CType, k: Class, s: seq<Byte>, i: nat)
    requires i < |s| && In(ct, k, s[i])
    ensures RunOf(ct, k, s, i) > i
  { }

  /** A run holds only its class and cannot be extended. */
  lemma {:induction false} RunIsMaximal(ct: CType, k: Class, s: seq<Byte>, i: nat)
    requires i <= |s|
    ensures var r := RunOf(ct, k, s, i);
            (forall j :: i <= j < r ==> In(ct, k, s[j])) && (r < |s| ==> !In(ct, k, s[r]))
    decreases |s| - i
  {
    if i < |s| && In(ct, k, s[i]) { RunIsMaximal(ct, k, s, i + 1); }
  }

  // ---------------------------------------------------------------- the splitter as alternatives

  /** The classes are disjoint, and a space is white space. */
  ghost predicate Sane(ct: CType) {
    ct.space(32) && forall b: Byte :: !(ct.alpha(b) && ct.digit(b)) && !(ct.space(b) && (ct.alpha(b) || ct.digit(b)))
  }

  /** The first `n` bytes are an optional space and one or more bytes of class `k`. */
  predicate Alternative(ct: CType, k: Class, s: seq<Byte>, n: nat) {
    && n <= |s|
    && var i := if |s| > 0 && s[0] == 32 then 1 else 0;
       i < n && forall j :: i <= j < n ==> In(ct, k, s[j])
  }

  predicate SpaceRun(ct: CType, s: seq<Byte>, n: nat) { 0 < n <= |s| && forall j :: 0 <= j < n ==> ct.space(s[j]) }

  ghost predicate LongestOf(ct: CType, k: Class, s: seq<Byte>, n: nat) {
    Alternative(ct, k, s, n) && forall m: nat :: Alternative(ct, k, s, m) ==> m <= n
  }

  ghost predicate Possible(ct: CType, k: Class, s: seq<Byte>) { exists m: nat :: Alternative(ct, k, s, m) }

  lemma AlternativeStarts(ct: CType, k: Class, s: seq<Byte>)
    requires |s| > 0
    ensures var i := if s[0] == 32 then 1 else 0;
            Possible(ct, k, s) <==> i < |s| && In(ct, k, s[i])
  {
    var i := if s[0] == 32 then 1 else 0;
    if i < |s| && In(ct, k, s[i]) { assert Alternative(ct, k, s, i + 1); }
  }

  lemma InAlternative(ct: CType, k: Class, s: seq<Byte>, m: nat, r: nat)
    requires Alternative(ct, k, s, m) && 1 <= r < m
    ensures In(ct, k, s[r])
  { }

  lemma InSpaceRun(ct: CType, s: seq<Byte>, m: nat, r: nat)
    requires SpaceRun(ct, s, m) && r < m
    ensures In(ct, Space, s[r])
  { }

  lemma RunIsLongest(ct: CType, k: Class, s: seq<Byte>)
    requires |s| > 0 && Possible(ct, k, s)
    ensures LongestOf(ct, k, s, RunOf(ct, k, s, if s[0] == 32 then 1 else 0))
  {
    var i := if s[0] == 32 then 1 else 0;
    AlternativeStarts(ct, k, s);
    RunStarts(ct, k, s, i);
    RunIsMaximal(ct, k, s, i);
    var r := RunOf(ct, k, s, i);
    forall m: nat | Alternative(ct, k, s, m) ensures m <= r {
      if m > r { InAlternative(ct, k, s, m, r); }
    }
  }

  predicate Begins(s: seq<Byte>, w: string) { |w| <= |s| && forall i :: 0 <= i < |w| ==> s[i] == w[i] as int }

  lemma ContractionIs(s: seq<Byte>)
    ensures Contraction(s) == 2 <==> Begins(s, "'s") || Begins(s, "'t") || Begins(s, "'m") || Begins(s, "'d")
    ensures Contraction(s) == 3 <==> Begins(s, "'re") || Begins(s, "'ve") || Begins(s, "'ll")
    ensures Contraction(s) in {0, 2, 3}
  {
    assert 's' as int == 115 && 't' as int == 116 && 'm' as int == 109 && 'd' as int == 100 && '\'' as int == 39;
    assert 'r' as int == 114 && 'e' as int == 101 && 'v' as int == 118 && 'l' as int == 108;
    if |s| >= 3 { assert s[1..3] == [s[1], s[2]]; }
  }

  /**
   * The first `n` bytes are the first of these that matches, as long as it can be: a contraction; a run of
   * letters, of digits, of other characters, each after an optional space; a run of white space.
   */
  ghost predicate IsWord(ct: CType, s: seq<Byte>, n: nat) {
    if Begins(s, "'s") || Begins(s, "'t") || Begins(s, "'m") || Begins(s, "'d") then n == 2
    else if Begins(s, "'re") || Begins(s, "'ve") || Begins(s, "'ll") then n == 3
    else if Possible(ct, Alpha, s) then LongestOf(ct, Alpha, s, n)
    else if Possible(ct, Digit, s) then LongestOf(ct, Digit, s, n)
    else if Possible(ct, Rest, s) then LongestOf(ct, Rest, s, n)
    else SpaceRun(ct, s, n) && forall m: nat :: SpaceRun(ct, s, m) ==> m <= n
  }

  /** One of the alternatives always matches, and the splitter takes the first. */
  lemma WordIsFirstAlternative(ct: CType, s: seq<Byte>)
    requires Sane(ct) && |s| > 0
    ensures IsWord(ct, s, WordLength(ct, s))
  {
    ContractionIs(s);
    AlternativeStarts(ct, Alpha, s);
    AlternativeStarts(ct, Digit, s);
    AlternativeStarts(ct, Rest, s);
    if Possible(ct, Alpha, s) { RunIsLongest(ct, Alpha, s); }
    else if Possible(ct, Digit, s) { RunIsLongest(ct, Digit, s); }
    else if Possible(ct, Rest, s) { RunIsLongest(ct, Rest, s); }
    else if Contraction(s) == 0 { SpaceWord(ct, s); }
  }

  lemma SpaceWord(ct: CType, s: seq<Byte>)
    requires Sane(ct) && |s| > 0 && ct.space(s[0])
    ensures var n := RunOf(ct, Space, s, 1); SpaceRun(ct, s, n) && forall m: nat :: SpaceRun(ct, s, m) ==> m <= n
  {
    RunIsMaximal(ct, Space, s, 1);
    var n := RunOf(ct, Space, s, 1);
    forall j | 0 <= j < n ensures ct.space(s[j]) { if j > 0 { assert In(ct, Space, s[j]); } }
    forall m: nat | SpaceRun(ct, s, m) ensures m <= n {
      if m > n { InSpaceRun(ct, s, m, n); }
    }
  }

  method Run(ct: CType, k: Class, s: seq<Byte>, start: nat) returns (i: nat)
    requires start <= |s|
    ensures i == RunOf(ct, k, s, start)
  {
    i := start;
    while i < |s| && In(ct, k, s[i])
      invariant i <= |s| && RunOf(ct, k, s, i) == RunOf(ct, k, s, start)
    {
      i := i + 1;
    }
  }

  method MatchWord(ct: CType, s: seq<Byte>) returns (n: nat)
    ensures n == WordLength(ct, s) && (|s| > 0 ==> 1 <= n <= |s|)
  {
    if |s| == 0 { return 0; }
    WordProgress(ct, s);
    if s[0] == 39 {
      if |s| >= 2 && (s[1] == 115 || s[1] == 116 || s[1] == 109 || s[1] == 100) { return 2; }
      if |s| >= 3 {
        assert s[1..3] == [s[1], s[2]];
        if s[1] == 114 && s[2] == 101 { return 3; }
        if s[1] == 118 && s[2] == 101 { return 3; }
        if s[1] == 108 && s[2] == 108 { return 3; }
      }
    }
    var i := if s[0] == 32 then 1 else 0;
    if i < |s| && ct.alpha(s[i]) { n := Run(ct, Alpha, s, i); return; }
    if i < |s| && ct.digit(s[i]) { n := Run(ct, Digit, s, i); return; }
    if i < |s| && ct.Other(s[i]) { n := Run(ct, Rest, s, i); return; }
    if ct.space(s[0]) { n := Run(ct, Space, s, 1); return; }
    return 1;
  }

  // ---------------------------------------------------------------- greedy encoding

  /** How the vocabulary file writes a byte string. */
  function Repr(enc: bool, bs: seq<Byte>): seq<Byte> { if enc then Encode(bs) else bs }

  /** The furthest end `j` such that s[i..j] is a token, `i` if none is. */
  function Longest(toks: seq<Token>, s: seq<Byte>, i: nat, j: nat): (r: nat)
    requires i <= j <= |s|
    ensures i <= r <= j && (r > i ==> Find(toks, s[i..r]) >= 0)
    decreases j
  {
    if j == i then i else if Find(toks, s[i..j]) >= 0 then j else Longest(toks, s, i, j - 1)
  }

  function EncodeWord(toks: seq<Token>, s: seq<Byte>, i: nat, budget: nat): (r: seq<nat>)
    requires i <= |s|
    ensures |r| <= budget
    decreases |s| - i
  {
    if i == |s| || budget == 0 then []
    else
      var j := Longest(toks, s, i, |s|);
      if j > i then [Find(toks, s[i..j])] + EncodeWord(toks, s, j, budget - 1)
      else EncodeWord(toks, s, i + 1, budget)
  }

  function EncodeFrom(toks: seq<Token>, enc: bool, ct: CType, text: seq<Byte>, budget: nat): (r: seq<nat>)
    ensures |r| <= budget
    decreases |text|
  {
    if text == [] || budget == 0 then []
    else
      var n := WordLength(ct, text);
      WordProgress(ct, text);
      var w := EncodeWord(toks, Repr(enc, text[..n]), 0, budget);
      w + EncodeFrom(toks, enc, ct, text[n..], budget - |w|)
  }

  /** `r` covers the word up to `i`. */
  ghost predicate WordTo(toks: seq<Token>, s: seq<Byte>, budget: nat, i: nat, r: seq<nat>) {
    i <= |s| && |r| <= budget && r + EncodeWord(toks, s, i, budget - |r|) == EncodeWord(toks, s, 0, budget)
  }

  lemma WordMore(toks: seq<Token>, s: seq<Byte>, budget: nat, i: nat, r: seq<nat>)
    requires WordTo(toks, s, budget, i, r) && i < |s| && |r| < budget
    ensures var j := Longest(toks, s, i, |s|);
            if j > i then WordTo(toks, s, budget, j, r + [Find(toks, s[i..j])]) else WordTo(toks, s, budget, i + 1, r)
  {
    var j := Longest(toks, s, i, |s|);
    if j > i { Assoc(r, [Find(toks, s[i..j])], EncodeWord(toks, s, j, budget - |r| - 1)); }
  }

  /** `tokens` covers the text up to `pos`; the rest is still to be encoded. */
  ghost predicate EncodedTo(toks: seq<Token>, enc: bool, ct: CType, text: seq<Byte>, max: nat, pos: nat,
                            tokens: seq<nat>) {
    && pos <= |text| && |tokens| <= max
    && tokens + EncodeFrom(toks, enc, ct, text[pos..], max - |tokens|) == EncodeFrom(toks, enc, ct, text, max)
  }

  lemma EncodedStart(toks: seq<Token>, enc: bool, ct: CType, text: seq<Byte>, max: nat)
    ensures EncodedTo(toks, enc, ct, text, max, 0, [])
  {
    assert text[0..] == text;
    assert [] + EncodeFrom(toks, enc, ct, text, max) == EncodeFrom(toks, enc, ct, text, max);
  }

  lemma EncodedEnd(toks: seq<Token>, enc: bool, ct: CType, text: seq<Byte>, max: nat, pos: nat, tokens: seq<nat>)
    requires EncodedTo(toks, enc, ct, text, max, pos, tokens) && (pos == |text| || |tokens| == max)
    ensures tokens == EncodeFrom(toks, enc, ct, text, max)
  {
    assert pos == |text| ==> text[pos..] == [];
    assert EncodeFrom(toks, enc, ct, text[pos..], max - |tokens|) == [];
    assert tokens + [] == tokens;
  }

  /** The next word of `t` has `n` bytes and the tokens `w`. */
  ghost predicate NextWord(toks: seq<Token>, enc: bool, ct: CType, t: seq<Byte>, budget: nat, n: nat, w: seq<nat>) {
    1 <= n <= |t| && n == WordLength(ct, t) && w == EncodeWord(toks, Repr(enc, t[..n]), 0, budget)
  }

  lemma EncodeFromStep(toks: seq<Token>, enc: bool, ct: CType, t: seq<Byte>, budget: nat, n: nat, w: seq<nat>)
    requires budget > 0 && NextWord(toks, enc, ct, t, budget, n, w)
    ensures EncodeFrom(toks, enc, ct, t, budget) == w + EncodeFrom(toks, enc, ct, t[n..], budget - |w|)
  { }

  lemma DropTwice(t: seq<Byte>, a: nat, b: nat)
    requires a + b <= |t|
    ensures t[a..][b..] == t[a + b..]
  { }

  lemma Assoc(a: seq<nat>, b: seq<nat>, c: seq<nat>)
    ensures a + (b + c) == a + b + c
  { }

  lemma EncodedMore(toks: seq<Token>, enc: bool, ct: CType, text: seq<Byte>, max: nat, pos: nat, tokens: seq<nat>,
                    n: nat, w: seq<nat>)
    requires EncodedTo(toks, enc, ct, text, max, pos, tokens) && pos < |text| && |tokens| < max
    requires NextWord(toks, enc, ct, text[pos..], max - |tokens|, n, w)
    ensures EncodedTo(toks, enc, ct, text, max, pos + n, tokens + w)
  {
    EncodeFromStep(toks, enc, ct, text[pos..], max - |tokens|, n, w);
    DropTwice(text, pos, n);
    Assoc(tokens, w, EncodeFrom(toks, enc, ct, text[pos + n..], max - |tokens| - |w|));
  }

  class Encoder {
    const index: Index
    const maps: Maps
    const ct: CType
    const byteEncoded: bool

    ghost predicate Valid()
      reads this, index, index.ht, maps.toUnicode, maps.toByte
    {
      index.Valid() && maps.Ready()
    }

    constructor (index: Index, maps: Maps, ct: CType, byteEncoded: bool)
      requires index.Valid() && maps.Ready()
      ensures Valid() && this.index == index && this.maps == maps && this.ct == ct && this.byteEncoded == byteEncoded
    {
      this.index, this.maps, this.ct, this.byteEncoded := index, maps, ct, byteEncoded;
    }

    /** Longest match first, from the end of the word down. */
    method Match(s: seq<Byte>, i: nat) returns (id: int, len: nat)
      requires Valid() && i <= |s|
      ensures len == Longest(index.toks, s, i, |s|) - i
      ensures id == if len > 0 then Find(index.toks, s[i..i + len]) else -1
    {
      var j := |s|;
      while j > i
        invariant i <= j <= |s| && Longest(index.toks, s, i, j) == Longest(index.toks, s, i, |s|)
      {
        id := index.Lookup(s[i..j]);
        if id >= 0 { return id, j - i; }
        j := j - 1;
      }
      return -1, 0;
    }

    method EncodeOne(s: seq<Byte>, budget: nat) returns (r: seq<nat>)
      requires Valid()
      ensures r == EncodeWord(index.toks, s, 0, budget)
    {
      r := [];
      var i := 0;
      ghost var toks := index.toks;
      assert r + EncodeWord(toks, s, 0, budget) == EncodeWord(toks, s, 0, budget);
      while i < |s| && |r| < budget
        invariant WordTo(toks, s, budget, i, r)
      {
        var id, len := Match(s, i);
        WordMore(toks, s, budget, i, r);
        if id >= 0 {
          r := r + [id];
          i := i + len;
        } else {
          i := i + 1;
        }
      }
      assert r + [] == r;
    }

    /** The tokens of the next word. */
    method EncodeNext(text: seq<Byte>, budget: nat) returns (n: nat, w: seq<nat>)
      requires Valid() && |text| > 0
      ensures NextWord(index.toks, byteEncoded, ct, text, budget, n, w)
    {
      n := MatchWord(ct, text);
      var s := text[..n];
      if byteEncoded { s := EncodeText(maps, s); }
      w := EncodeOne(s, budget);
    }

    /** At most `max` tokens of the text. */
    method Encode(text: seq<Byte>, max: nat) returns (tokens: seq<nat>)
      requires Valid()
      ensures tokens == EncodeFrom(index.toks, byteEncoded, ct, text, max)
    {
      ghost var toks := index.toks;
      tokens := [];
      var pos := 0;
      EncodedStart(toks, byteEncoded, ct, text, max);
      while pos < |text| && |tokens| < max
        invariant EncodedTo(toks, byteEncoded, ct, text, max, pos, tokens)
      {
        var n, w := EncodeNext(text[pos..], max - |tokens|);
        EncodedMore(toks, byteEncoded, ct, text, max, pos, tokens, n, w);
        tokens, pos := tokens + w, pos + n;
      }
      EncodedEnd(toks, byteEncoded, ct, text, max, pos, tokens);
    }
  }

  // ---------------------------------------------------------------- the round trip

  /** Up to the terminator. */
  function CString(s: seq<Byte>): seq<Byte> { if s == [] || s[0] == 0 then [] else [s[0]] + CString(s[1..]) }

  lemma {:induction false} CStringIs(s: seq<Byte>)
    ensures CString(s) <= s && NulFree(CString(s)) && (|CString(s)| < |s| ==> s[|CString(s)|] == 0)
  {
    if s != [] && s[0] != 0 {
      CStringIs(s[1..]);
      assert CString(s)[1..] == CString(s[1..]);
    }
  }

  function DecodeBytes(enc: bool, tok: Token): seq<Byte> { if enc then Decode(CString(tok)) else CString(tok) }

  predicate Ids(toks: seq<Token>, ids: seq<nat>) { forall i :: 0 <= i < |ids| ==> ids[i] < |toks| }

  function DecodeAll(toks: seq<Token>, enc: bool, ids: seq<nat>): seq<Byte>
    requires Ids(toks, ids)
  {
    if ids == [] then [] else DecodeBytes(enc, toks[ids[0]]) + DecodeAll(toks, enc, ids[1..])
  }

  predicate NulFree(s: seq<Byte>) { forall i :: 0 <= i < |s| ==> s[i] != 0 }

  ghost predicate IsRepr(enc: bool, tok: Token) { exists bs: seq<Byte> :: bs != [] && tok == Repr(enc, bs) }

  /** Every entry stands for a non-empty byte string, and every byte has an entry. */
  ghost predicate Complete(toks: seq<Token>, enc: bool) {
    && (forall id :: 0 <= id < |toks| ==> IsRepr(enc, toks[id]))
    && (forall b: Byte :: Find(toks, Repr(enc, [b])) >= 0)
  }

  lemma {:induction false} CStringWhole(s: seq<Byte>)
    requires NulFree(s)
    ensures CString(s) == s
  {
    if s != [] { CStringWhole(s[1..]); }
  }

  lemma {:induction false} EncodeNulFree(bs: seq<Byte>)
    ensures NulFree(Encode(bs))
  {
    if bs != [] {
      EncodeNulFree(bs[1..]);
      CodePointBound(bs[0]);
      assert NulFree(EncodeByte(bs[0]));
    }
  }

  lemma DecodeRepr(enc: bool, bs: seq<Byte>)
    requires !enc ==> NulFree(bs)
    ensures DecodeBytes(enc, Repr(enc, bs)) == bs
  {
    if enc {
      EncodeNulFree(bs);
      CStringWhole(Encode(bs));
      DecodeEncode(bs);
    } else {
      CStringWhole(bs);
    }
  }

  lemma ReprConcat(enc: bool, a: seq<Byte>, b: seq<Byte>)
    ensures Repr(enc, a + b) == Repr(enc, a) + Repr(enc, b)
  {
    if enc { EncodeConcat(a, b); }
  }

  lemma {:induction false} LongestAtLeast(toks: seq<Token>, s: seq<Byte>, i: nat, j: nat, k: nat)
    requires i < k <= j <= |s| && Find(toks, s[i..k]) >= 0
    ensures Longest(toks, s, i, j) >= k
    decreases j
  {
    if !(Find(toks, s[i..j]) >= 0) { LongestAtLeast(toks, s, i, j - 1, k); }
  }

  lemma ReprOne(enc: bool, b: Byte)
    ensures |Repr(enc, [b])| > 0
  {
    if enc { assert Encode([b]) == EncodeByte(b) + Encode([]); }
  }

  lemma ReprPrefix(enc: bool, a: seq<Byte>, b: seq<Byte>)
    requires Repr(enc, a) <= Repr(enc, b)
    ensures a <= b
  {
    if enc { PrefixCode(a, b); }
  }

  lemma ReprRest(enc: bool, bs: seq<Byte>, rest: seq<Byte>)
    requires bs <= rest
    ensures |Repr(enc, bs)| <= |Repr(enc, rest)| && Repr(enc, rest)[..|Repr(enc, bs)|] == Repr(enc, bs)
    ensures Repr(enc, rest)[|Repr(enc, bs)|..] == Repr(enc, rest[|bs|..])
  {
    ReprConcat(enc, bs, rest[|bs|..]);
    assert rest == bs + rest[|bs|..];
  }

  lemma Slice(s: seq<Byte>, i: nat, n: nat)
    requires i + n <= |s|
    ensures s[i..i + n] == s[i..][..n] && s[i + n..] == s[i..][n..]
  { }

  /** From a byte boundary some token always matches. */
  lemma SomeMatch(toks: seq<Token>, enc: bool, s: seq<Byte>, i: nat, rest: seq<Byte>)
    requires Complete(toks, enc) && i <= |s| && s[i..] == Repr(enc, rest) && rest != []
    ensures Longest(toks, s, i, |s|) > i
  {
    var k := FirstByteSlice(enc, s, i, rest);
    OneFound(toks, enc, rest[0]);
    LongestAtLeast(toks, s, i, |s|, k);
  }

  lemma OneFound(toks: seq<Token>, enc: bool, b: Byte)
    requires Complete(toks, enc)
    ensures Find(toks, Repr(enc, [b])) >= 0
  { }

  lemma FirstByteSlice(enc: bool, s: seq<Byte>, i: nat, rest: seq<Byte>) returns (k: nat)
    requires i <= |s| && s[i..] == Repr(enc, rest) && rest != []
    ensures i < k <= |s| && s[i..k] == Repr(enc, [rest[0]])
  {
    ReprOne(enc, rest[0]);
    ReprRest(enc, [rest[0]], rest);
    k := i + |Repr(enc, [rest[0]])|;
    Slice(s, i, k - i);
  }

  lemma FoundRepr(toks: seq<Token>, enc: bool, t: Token) returns (bs: seq<Byte>)
    requires Complete(toks, enc) && Find(toks, t) >= 0
    ensures bs != [] && t == Repr(enc, bs)
  {
    FindFromIs(toks, t, 0);
    assert IsRepr(enc, toks[Find(toks, t)]);
    bs :| bs != [] && t == Repr(enc, bs);
  }

  /** The greedy match ends at a byte boundary again. */
  lemma GreedyStep(toks: seq<Token>, enc: bool, s: seq<Byte>, i: nat, rest: seq<Byte>) returns (bs: seq<Byte>)
    requires Complete(toks, enc) && i <= |s| && s[i..] == Repr(enc, rest) && rest != []
    ensures bs != [] && bs <= rest
    ensures var j := Longest(toks, s, i, |s|);
            i < j && s[i..j] == Repr(enc, bs) && s[j..] == Repr(enc, rest[|bs|..])
  {
    SomeMatch(toks, enc, s, i, rest);
    var j := Longest(toks, s, i, |s|);
    bs := FoundRepr(toks, enc, s[i..j]);
    Slice(s, i, j - i);
    ReprPrefix(enc, bs, rest);
    ReprRest(enc, bs, rest);
  }

  ghost predicate Restores(toks: seq<Token>, enc: bool, r: seq<nat>, budget: nat, w: seq<Byte>) {
    Ids(toks, r) && DecodeAll(toks, enc, r) <= w && (|r| < budget ==> DecodeAll(toks, enc, r) == w)
  }

  lemma RestoresCons(toks: seq<Token>, enc: bool, id: nat, r: seq<nat>, budget: nat, bs: seq<Byte>, w: seq<Byte>)
    requires id < |toks| && DecodeBytes(enc, toks[id]) == bs && bs <= w && budget > 0
    requires Restores(toks, enc, r, budget - 1, w[|bs|..])
    ensures Restores(toks, enc, [id] + r, budget, w)
  {
    assert ([id] + r)[1..] == r;
    assert w == bs + w[|bs|..];
  }

  lemma {:induction false} WordRoundTrip(toks: seq<Token>, enc: bool, s: seq<Byte>, i: nat, w: seq<Byte>, budget: nat)
    requires Complete(toks, enc) && i <= |s| && s[i..] == Repr(enc, w) && (!enc ==> NulFree(w))
    ensures Restores(toks, enc, EncodeWord(toks, s, i, budget), budget, w)
    decreases |w|
  {
    if w != [] && budget > 0 {
      var bs := GreedyStep(toks, enc, s, i, w);
      var j := Longest(toks, s, i, |s|);
      WordRoundTrip(toks, enc, s, j, w[|bs|..], budget - 1);
      FindFromIs(toks, s[i..j], 0);
      DecodeRepr(enc, bs);
      RestoresCons(toks, enc, Find(toks, s[i..j]), EncodeWord(toks, s, j, budget - 1), budget, bs, w);
    } else if w == [] {
      assert Repr(enc, []) == [];
    }
  }

  lemma {:induction false} DecodeAllConcat(toks: seq<Token>, enc: bool, a: seq<nat>, b: seq<nat>)
    requires Ids(toks, a) && Ids(toks, b)
    ensures Ids(toks, a + b) && DecodeAll(toks, enc, a + b) == DecodeAll(toks, enc, a) + DecodeAll(toks, enc, b)
  {
    if a == [] {
      assert a + b == b;
    } else {
      assert (a + b)[1..] == a[1..] + b;
      DecodeAllConcat(toks, enc, a[1..], b);
    }
  }

  lemma RestoresConcat(toks: seq<Token>, enc: bool, a: seq<nat>, b: seq<nat>, budget: nat, v: seq<Byte>, w: seq<Byte>)
    requires |a| <= budget && |b| <= budget - |a|
    requires Restores(toks, enc, a, budget, v) && Restores(toks, enc, b, budget - |a|, w)
    ensures Restores(toks, enc, a + b, budget, v + w)
  {
    DecodeAllConcat(toks, enc, a, b);
    if |a| == budget { assert b == []; }
  }

  /**
   * The round trip, for every NUL-free text: decoding the tokens gives a prefix of the text, and all of it
   * unless the output limit is reached.
   */
  lemma {:induction false} RoundTrip(toks: seq<Token>, enc: bool, ct: CType, text: seq<Byte>, max: nat)
    requires Complete(toks, enc) && NulFree(text)
    ensures Restores(toks, enc, EncodeFrom(toks, enc, ct, text, max), max, text)
    decreases |text|
  {
    if text != [] && max > 0 {
      var n, w := FirstWord(toks, enc, ct, text, max);
      RoundTrip(toks, enc, ct, text[n..], max - |w|);
      RestoresWhole(toks, enc, w, EncodeFrom(toks, enc, ct, text[n..], max - |w|), max, text, n);
    }
  }

  lemma FirstWord(toks: seq<Token>, enc: bool, ct: CType, text: seq<Byte>, max: nat) returns (n: nat, w: seq<nat>)
    requires Complete(toks, enc) && NulFree(text) && text != [] && max > 0
    ensures 1 <= n <= |text| && |w| <= max && Restores(toks, enc, w, max, text[..n])
    ensures EncodeFrom(toks, enc, ct, text, max) == w + EncodeFrom(toks, enc, ct, text[n..], max - |w|)
  {
    n := WordLength(ct, text);
    WordProgress(ct, text);
    w := EncodeWord(toks, Repr(enc, text[..n]), 0, max);
    WordRoundTrip(toks, enc, Repr(enc, text[..n]), 0, text[..n], max);
    EncodeFromStep(toks, enc, ct, text, max, n, w);
  }

  lemma RestoresWhole(toks: seq<Token>, enc: bool, a: seq<nat>, b: seq<nat>, budget: nat, text: seq<Byte>, n: nat)
    requires n <= |text| && |a| <= budget && |b| <= budget - |a|
    requires Restores(toks, enc, a, budget, text[..n]) && Restores(toks, enc, b, budget - |a|, text[n..])
    ensures Restores(toks, enc, a + b, budget, text)
  {
    RestoresConcat(toks, enc, a, b, budget, text[..n], text[n..]);
    assert text == text[..n] + text[n..];
  }
}
