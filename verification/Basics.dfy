/** Small definitions shared by several modules. */
module Basics {

  datatype Option<T> = None | Some(value: T)

  /** Products behind a name keep non-linear terms out of larger proofs. */
  function RealTimes(x: real, y: real): real { x * y }

  function IntTimes(x: int, y: int): int { x * y }

  lemma TimesMonotone(a: nat, b: nat, d: nat)
    requires a <= b
    ensures a * d <= b * d
  {
    assert (b - a) * d >= 0 && (b - a) * d == b * d - a * d;
  }

  /** The piece `w` stands at position `i` of `s`. */
  ghost predicate Occurs<T>(s: seq<T>, i: nat, w: seq<T>) { i + |w| <= |s| && s[i..i + |w|] == w }

  lemma Pieces<T>(s: seq<T>, i: nat, a: seq<T>, b: seq<T>)
    requires Occurs(s, i, a + b)
    ensures Occurs(s, i, a) && Occurs(s, i + |a|, b)
  {
    assert s[i..i + |a|] == (a + b)[..|a|];
    assert s[i + |a|..i + |a| + |b|] == (a + b)[|a|..];
  }
}
