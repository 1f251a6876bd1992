/** Greedy encoding, said without the functions that compute it. */
module TokenizerLaws {
  import opened Ternary
  import opened ProbeIndex
  import opened Tokenizer


  /** Token `id` is the first one equal to `w`. */
  ghost predicate IsToken(toks: seq<Token>, w: seq<Byte>, id: nat) {
    id < |toks| && toks[id] == w && w !in toks[..id]
  }

  ghost predicate NoToken(toks: seq<Token>, s: seq<Byte>, i: nat, from: nat)
    requires i <= from
  {
    forall m :: from < m <= |s| ==> s[i..m] !in toks
  }

  /**
   * The tokens of `s` from `i` on: the longest one that starts there and so on, bytes no token starts with
   * left out, and no more than `budget` of them.
   */
  ghost predicate Greedy(toks: seq<Token>, s: seq<Byte>, i: nat, budget: nat, r: seq<nat>)
    requires i <= |s|
    decreases |s| - i
  {
    if i == |s| || budget == 0 then r == []
    else if NoToken(toks, s, i, i) then Greedy(toks, s, i + 1, budget, r)
    else
      exists j :: i < j <= |s| && NoToken(toks, s, i, j) && r != [] && IsToken(toks, s[i..j], r[0])
                  && Greedy(toks, s, j, budget - 1, r[1..])
  }

  lemma FindIsToken(toks: seq<Token>, w: seq<Byte>)
    ensures Find(toks, w) >= 0 ==> IsToken(toks, w, Find(toks, w))
    ensures Find(toks, w) < 0 <==> w !in toks
  {
    FindFromIs(toks, w, 0);
  }

  lemma {:induction false} LongestIs(toks: seq<Token>, s: seq<Byte>, i: nat, j: nat)
    requires i <= j <= |s| && NoToken(toks, s, i, j)
    ensures NoToken(toks, s, i, Longest(toks, s, i, j))
    decreases j
  {
    if j > i {
      FindIsToken(toks, s[i..j]);
      if Find(toks, s[i..j]) < 0 { LongestIs(toks, s, i, j - 1); }
    }
  }

  lemma {:induction false} EncodeWordIsGreedy(toks: seq<Token>, s: seq<Byte>, i: nat, budget: nat)
    requires i <= |s|
    ensures Greedy(toks, s, i, budget, EncodeWord(toks, s, i, budget))
    decreases |s| - i
  {
    if i < |s| && budget > 0 {
      var j := Longest(toks, s, i, |s|);
      LongestIs(toks, s, i, |s|);
      if j > i {
        EncodeWordIsGreedy(toks, s, j, budget - 1);
        FindIsToken(toks, s[i..j]);
        var r := EncodeWord(toks, s, i, budget);
        assert s[i..j] in toks && r[1..] == EncodeWord(toks, s, j, budget - 1);
      } else {
        EncodeWordIsGreedy(toks, s, i + 1, budget);
      }
    }
  }

  /** The first word has `n` bytes, and the first `k` tokens of `r` are its tokens. */
  ghost predicate StartsWith(toks: seq<Token>, enc: bool, ct: CType, text: seq<Byte>, budget: nat, r: seq<nat>,
                             n: nat, k: nat) {
    && 0 < n <= |text| && IsWord(ct, text, n) && k <= |r| && k <= budget
    && Greedy(toks, Repr(enc, text[..n]), 0, budget, r[..k])
  }

  /** The tokens of the text, word by word. */
  ghost predicate EncodesAs(toks: seq<Token>, enc: bool, ct: CType, text: seq<Byte>, budget: nat, r: seq<nat>)
    decreases |text|
  {
    if text == [] || budget == 0 then r == []
    else
      exists n: nat, k: nat :: StartsWith(toks, enc, ct, text, budget, r, n, k)
                     && EncodesAs(toks, enc, ct, text[n..], budget - k, r[k..])
  }

  lemma {:induction false} EncodeFromEncodes(toks: seq<Token>, enc: bool, ct: CType, text: seq<Byte>, budget: nat)
    requires Sane(ct)
    ensures EncodesAs(toks, enc, ct, text, budget, EncodeFrom(toks, enc, ct, text, budget))
    decreases |text|
  {
    if text != [] && budget > 0 {
      var n, w, rest := SplitFirst(toks, enc, ct, text, budget);
      EncodeFromEncodes(toks, enc, ct, text[n..], budget - |w|);
      EncodesCons(toks, enc, ct, text, budget, w, rest, n);
    }
  }

  lemma EncodesCons(toks: seq<Token>, enc: bool, ct: CType, text: seq<Byte>, budget: nat, w: seq<nat>, rest: seq<nat>,
                    n: nat)
    requires budget > 0 && |w| <= budget && StartsWith(toks, enc, ct, text, budget, w + rest, n, |w|)
    requires EncodesAs(toks, enc, ct, text[n..], budget - |w|, rest)
    ensures EncodesAs(toks, enc, ct, text, budget, w + rest)
  {
    assert (w + rest)[|w|..] == rest;
  }

  lemma SplitFirst(toks: seq<Token>, enc: bool, ct: CType, text: seq<Byte>, budget: nat)
    returns (n: nat, w: seq<nat>, rest: seq<nat>)
    requires Sane(ct) && text != [] && budget > 0
    ensures 0 < n <= |text| && |w| <= budget && StartsWith(toks, enc, ct, text, budget, w + rest, n, |w|)
    ensures EncodeFrom(toks, enc, ct, text, budget) == w + rest
    ensures rest == EncodeFrom(toks, enc, ct, text[n..], budget - |w|)
  {
    n := WordLength(ct, text);
    WordProgress(ct, text);
    WordIsFirstAlternative(ct, text);
    w := EncodeWord(toks, Repr(enc, text[..n]), 0, budget);
    rest := EncodeFrom(toks, enc, ct, text[n..], budget - |w|);
    EncodeWordIsGreedy(toks, Repr(enc, text[..n]), 0, budget);
    assert (w + rest)[..|w|] == w;
  }
}
