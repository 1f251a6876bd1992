/** The token index: linear probing over a fixed table, for any hash function. */
module ProbeIndex {
  import opened Ternary

  type Token = seq<Byte>

  const EMPTY := -1
  const MAX_TOKEN_LENGTH := 1024

  /** The smallest id whose token is `s`, -1 if none is. */
  function FindFrom(toks: seq<Token>, s: Token, i: nat): (id: int)
    requires i <= |toks|
    decreases |toks| - i
  {
    if i == |toks| then -1 else if toks[i] == s then i else FindFrom(toks, s, i + 1)
  }

  function Find(toks: seq<Token>, s: Token): int { FindFrom(toks, s, 0) }

  lemma {:induction false} FindFromIs(toks: seq<Token>, s: Token, i: nat)
    requires i <= |toks|
    ensures var id := FindFrom(toks, s, i);
            if id == -1 then forall j :: i <= j < |toks| ==> toks[j] != s
            else i <= id < |toks| && toks[id] == s && forall j :: i <= j < id ==> toks[j] != s
    decreases |toks| - i
  {
    if i < |toks| && toks[i] != s { FindFromIs(toks, s, i + 1); }
  }

  /** The slot `d` places after `h`, around the end of the table. */
  function Slot(size: nat, h: nat, d: nat): (r: nat)
    requires h < size && d < size
    ensures r < size
  {
    if h + d < size then h + d else h + d - size
  }

  function Occupied(ht: seq<int>): nat {
    if ht == [] then 0 else Occupied(ht[..|ht| - 1]) + if ht[|ht| - 1] >= 0 then 1 else 0
  }

  lemma {:induction false} OccupiedUpdate(ht: seq<int>, k: nat, v: nat)
    requires k < |ht| && ht[k] < 0
    ensures Occupied(ht[k := v]) == Occupied(ht) + 1
  {
    var n := |ht| - 1;
    if k < n {
      OccupiedUpdate(ht[..n], k, v);
      assert ht[k := v][..n] == ht[..n][k := v];
    } else {
      assert ht[k := v][..n] == ht[..n];
    }
  }

  lemma {:induction false} AllOccupied(ht: seq<int>)
    requires forall k :: 0 <= k < |ht| ==> ht[k] >= 0
    ensures Occupied(ht) == |ht|
  {
    if ht != [] { AllOccupied(ht[..|ht| - 1]); }
  }

  lemma {:induction false} NoneOccupied(ht: seq<int>)
    requires forall k :: 0 <= k < |ht| ==> ht[k] < 0
    ensures Occupied(ht) == 0
  {
    if ht != [] { NoneOccupied(ht[..|ht| - 1]); }
  }

  /** The first `d` slots of the probe from `h` hold ids below `bound`. */
  ghost predicate Filled(ht: seq<int>, h: nat, d: nat, bound: int)
    requires h < |ht| && d <= |ht|
  {
    forall e :: 0 <= e < d ==> 0 <= ht[Slot(|ht|, h, e)] < bound
  }

  /** Id `id` sits at probe distance `d`, behind smaller ids only. */
  ghost predicate Placed(ht: seq<int>, h: nat, id: nat, d: nat) {
    h < |ht| && d < |ht| && ht[Slot(|ht|, h, d)] == id && Filled(ht, h, d, id)
  }

  ghost predicate Found(ht: seq<int>, h: nat, id: nat) { exists d: nat :: Placed(ht, h, id, d) }

  /** Every token has been put where the probe from its hash finds it. */
  ghost predicate Indexed(ht: seq<int>, toks: seq<Token>, hash: Token -> nat) {
    && (forall k :: 0 <= k < |ht| ==> ht[k] < |toks|)
    && Occupied(ht) == |toks| < |ht|
    && (forall id :: 0 <= id < |toks| ==> Found(ht, hash(toks[id]), id))
  }

  /** Around a full turn of occupied slots the table is full. */
  lemma FullTurn(ht: seq<int>, h: nat)
    requires h < |ht| && forall e :: 0 <= e < |ht| ==> ht[Slot(|ht|, h, e)] >= 0
    ensures Occupied(ht) == |ht|
  {
    forall k | 0 <= k < |ht| ensures ht[k] >= 0 {
      var e := if k >= h then k - h else k + |ht| - h;
      assert Slot(|ht|, h, e) == k;
    }
    AllOccupied(ht);
  }

  lemma StillPlaced(ht: seq<int>, h: nat, id: nat, d: nat, k: nat, v: nat)
    requires Placed(ht, h, id, d) && k < |ht| && ht[k] < 0
    ensures Placed(ht[k := v], h, id, d)
  {
    var r := ht[k := v];
    forall e | 0 <= e < d ensures 0 <= r[Slot(|r|, h, e)] < id { assert 0 <= ht[Slot(|ht|, h, e)] < id; }
  }

  /** Putting the next token in the first empty slot of its probe keeps the index. */
  lemma InsertKeeps(ht: seq<int>, toks: seq<Token>, hash: Token -> nat, s: Token, d: nat)
    requires Indexed(ht, toks, hash) && hash(s) < |ht| && d < |ht| && |toks| + 1 < |ht|
    requires ht[Slot(|ht|, hash(s), d)] < 0 && Filled(ht, hash(s), d, |toks|)
    ensures Indexed(ht[Slot(|ht|, hash(s), d) := |toks|], toks + [s], hash)
  {
    var k, n := Slot(|ht|, hash(s), d), |toks|;
    var r, more := ht[k := n], toks + [s];
    OccupiedUpdate(ht, k, n);
    forall id | 0 <= id < |more| ensures Found(r, hash(more[id]), id) {
      if id < n {
        assert Found(ht, hash(toks[id]), id);
        var e: nat :| Placed(ht, hash(toks[id]), id, e);
        StillPlaced(ht, hash(toks[id]), id, e, k, n);
        assert Placed(r, hash(more[id]), id, e);
      } else {
        InsertedPlaced(ht, hash(s), n, d);
        assert Placed(r, hash(more[id]), id, d);
      }
    }
    forall j | 0 <= j < |r| ensures r[j] < |more| { assert ht[j] < |toks|; }
  }

  lemma InsertedPlaced(ht: seq<int>, h: nat, id: nat, d: nat)
    requires h < |ht| && d < |ht| && Filled(ht, h, d, id)
    ensures Placed(ht[Slot(|ht|, h, d) := id], h, id, d)
  {
    var r := ht[Slot(|ht|, h, d) := id];
    forall e | 0 <= e < d ensures 0 <= r[Slot(|r|, h, e)] < id { assert 0 <= ht[Slot(|ht|, h, e)] < id; }
  }

  class Index {
    const hash: Token -> nat
    const ht: array<int>
    var toks: seq<Token>

    ghost predicate Hashes()
      reads ht
    {
      ht.Length > 0 && forall s :: hash(s) < ht.Length
    }

    ghost predicate Valid()
      reads this, ht
    {
      Hashes() && Indexed(ht[..], toks, hash)
    }

    /** An empty table. */
    constructor (size: nat, hash: Token -> nat)
      requires size > 0 && forall s :: hash(s) < size
      ensures Valid() && toks == [] && this.hash == hash && fresh(ht) && ht.Length == size
    {
      this.hash := hash;
      ht := new int[size](_ => EMPTY);
      toks := [];
      new;
      NoneOccupied(ht[..]);
    }

    /** The first empty slot from the token's hash on takes the next id. */
    method Insert(s: Token)
      requires Valid() && |toks| + 1 < ht.Length
      modifies this`toks, ht
      ensures Valid() && toks == old(toks) + [s]
    {
      ghost var t := ht[..];
      var h := hash(s);
      ghost var d := 0;
      while ht[h] >= 0
        invariant d < ht.Length && ht[..] == t && toks == old(toks) && h == Slot(ht.Length, hash(s), d)
        invariant Filled(t, hash(s), d, |toks|)
        decreases ht.Length - d
      {
        assert 0 <= t[h] < |toks|;
        if d + 1 == ht.Length {
          forall e | 0 <= e < |t| ensures t[Slot(|t|, hash(s), e)] >= 0 { }
          FullTurn(t, hash(s));
          assert false;
        }
        h := if h + 1 < ht.Length then h + 1 else 0;
        d := d + 1;
      }
      InsertKeeps(t, toks, hash, s, d);
      ht[h] := |toks|;
      assert ht[..] == t[h := |toks|];
      toks := toks + [s];
    }

    /** The smallest id with that token, or -1; the probe ends on every string. */
    method Lookup(s: Token) returns (id: int)
      requires Valid()
      ensures id == Find(toks, s)
    {
      ghost var t := ht[..];
      var h := hash(s);
      ghost var d := 0;
      while true
        invariant d < ht.Length && ht[..] == t && h == Slot(ht.Length, hash(s), d)
        invariant forall e :: 0 <= e < d ==> 0 <= t[Slot(|t|, hash(s), e)] < |toks| && toks[t[Slot(|t|, hash(s), e)]] != s
        decreases ht.Length - d
      {
        id := ht[h];
        assert t[h] == id < |toks|;
        if id < 0 {
          EmptyMeansAbsent(t, toks, hash, s, d);
          return -1;
        }
        if toks[id] == s {
          FoundIsFirst(t, toks, hash, s, d);
          return;
        }
        if d + 1 == ht.Length {
          forall e | 0 <= e < |t| ensures t[Slot(|t|, hash(s), e)] >= 0 { }
          FullTurn(t, hash(s));
          assert false;
        }
        h := if h + 1 < ht.Length then h + 1 else 0;
        d := d + 1;
      }
    }

    /** Fails on a short file and on an overlong token; otherwise all `n` tokens are indexed. */
    method Load(entries: seq<Token>, n: nat) returns (ok: bool)
      requires Valid() && toks == [] && n < ht.Length
      modifies this`toks, ht
      ensures Valid()
      ensures ok <==> n <= |entries| && forall i :: 0 <= i < n ==> |entries[i]| <= MAX_TOKEN_LENGTH
      ensures ok ==> toks == entries[..n]
    {
      var i := 0;
      while i < n
        invariant i <= n && i <= |entries| && Valid() && toks == entries[..i]
        invariant forall j :: 0 <= j < i ==> |entries[j]| <= MAX_TOKEN_LENGTH
      {
        if i >= |entries| { return false; }
        if |entries[i]| > MAX_TOKEN_LENGTH { return false; }
        Insert(entries[i]);
        i := i + 1;
      }
      return true;
    }
  }

  /** An equal token further along would have found this slot first. */
  lemma OnTheWay(ht: seq<int>, toks: seq<Token>, hash: Token -> nat, s: Token, d: nat, id: nat)
    requires Indexed(ht, toks, hash) && hash(s) < |ht| && d < |ht| && id < |toks| && toks[id] == s
    requires forall e :: 0 <= e < d ==> 0 <= ht[Slot(|ht|, hash(s), e)] < |toks| && toks[ht[Slot(|ht|, hash(s), e)]] != s
    ensures ht[Slot(|ht|, hash(s), d)] == id || 0 <= ht[Slot(|ht|, hash(s), d)] < id
  {
    assert Found(ht, hash(toks[id]), id);
    var f: nat :| Placed(ht, hash(toks[id]), id, f);
    var k := Slot(|ht|, hash(s), f);
    if f < d { assert false; }
  }

  lemma EmptyMeansAbsent(ht: seq<int>, toks: seq<Token>, hash: Token -> nat, s: Token, d: nat)
    requires Indexed(ht, toks, hash) && hash(s) < |ht| && d < |ht| && ht[Slot(|ht|, hash(s), d)] < 0
    requires forall e :: 0 <= e < d ==> 0 <= ht[Slot(|ht|, hash(s), e)] < |toks| && toks[ht[Slot(|ht|, hash(s), e)]] != s
    ensures Find(toks, s) == -1
  {
    FindFromIs(toks, s, 0);
    if Find(toks, s) != -1 { OnTheWay(ht, toks, hash, s, d, Find(toks, s)); }
  }

  lemma FoundIsFirst(ht: seq<int>, toks: seq<Token>, hash: Token -> nat, s: Token, d: nat)
    requires Indexed(ht, toks, hash) && hash(s) < |ht| && d < |ht|
    requires 0 <= ht[Slot(|ht|, hash(s), d)] < |toks| && toks[ht[Slot(|ht|, hash(s), d)]] == s
    requires forall e :: 0 <= e < d ==> 0 <= ht[Slot(|ht|, hash(s), e)] < |toks| && toks[ht[Slot(|ht|, hash(s), e)]] != s
    ensures Find(toks, s) == ht[Slot(|ht|, hash(s), d)]
  {
    FindFromIs(toks, s, 0);
    OnTheWay(ht, toks, hash, s, d, Find(toks, s));
  }
}
