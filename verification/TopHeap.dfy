/** Selection of the largest items of a list with a min-heap kept in an array. */
module TopHeap {

  datatype Item = Item(id: nat, val: real)

  function Parent(c: nat): (p: nat)
    requires c > 0
    ensures p < c
  {
    (c - 1) / 2
  }

  /** Parents from `lo` on are no larger than their children. */
  ghost predicate Heap(h: seq<Item>, lo: nat) {
    forall c: nat :: 0 < c < |h| && Parent(c) >= lo ==> h[Parent(c)].val <= h[c].val
  }

  /** As `Heap`, except that the item at `i` may be too large. */
  ghost predicate HeapBut(h: seq<Item>, lo: nat, i: nat) {
    && (forall c: nat :: 0 < c < |h| && Parent(c) >= lo && Parent(c) != i ==> h[Parent(c)].val <= h[c].val)
    && (forall c: nat :: 0 < c < |h| && Parent(c) == i && i > 0 && Parent(i) >= lo ==> h[Parent(i)].val <= h[c].val)
  }

  /** The smallest of `i` and its children, the earliest on ties. */
  function Smallest(h: seq<Item>, i: nat): (m: nat)
    requires i < |h|
    ensures i <= m < |h| && (m != i ==> m == 2 * i + 1 || m == 2 * i + 2)
  {
    var l, r := 2 * i + 1, 2 * i + 2;
    var s := if l < |h| && h[l].val < h[i].val then l else i;
    if r < |h| && h[r].val < h[s].val then r else s
  }

  function Swap(h: seq<Item>, i: nat, j: nat): (r: seq<Item>)
    requires i < |h| && j < |h|
    ensures |r| == |h|
  {
    h[i := h[j]][j := h[i]]
  }

  lemma SwapKeeps(h: seq<Item>, i: nat, j: nat)
    requires i < |h| && j < |h|
    ensures multiset(Swap(h, i, j)) == multiset(h)
  { }

  /** What sifting down computes. */
  function Sift(h: seq<Item>, i: nat): (r: seq<Item>)
    requires i < |h|
    ensures |r| == |h|
    decreases |h| - i
  {
    var m := Smallest(h, i);
    if m == i then h else Sift(Swap(h, i, m), m)
  }

  lemma {:induction false} SiftKeeps(h: seq<Item>, i: nat)
    requires i < |h|
    ensures multiset(Sift(h, i)) == multiset(h)
    decreases |h| - i
  {
    var m := Smallest(h, i);
    if m != i {
      SwapKeeps(h, i, m);
      SiftKeeps(Swap(h, i, m), m);
    }
  }

  lemma SmallestIs(h: seq<Item>, i: nat, c: nat)
    requires i < |h| && 0 < c < |h| && Parent(c) == i
    ensures h[Smallest(h, i)].val <= h[c].val && h[Smallest(h, i)].val <= h[i].val
  {
    assert c == 2 * i + 1 || c == 2 * i + 2;
  }

  /** Swapping with the smallest child moves the only fault down. */
  lemma SwapDown(h: seq<Item>, lo: nat, i: nat)
    requires i < |h| && lo <= i && HeapBut(h, lo, i) && Smallest(h, i) != i
    ensures HeapBut(Swap(h, i, Smallest(h, i)), lo, Smallest(h, i))
  {
    var m := Smallest(h, i);
    var r := Swap(h, i, m);
    assert Parent(m) == i;
    forall c: nat | 0 < c < |r| && Parent(c) >= lo && Parent(c) != m ensures r[Parent(c)].val <= r[c].val {
      if Parent(c) == i { SmallestIs(h, i, c); }
      else if c == i { assert h[Parent(i)].val <= h[m].val; }
    }
    forall c: nat | 0 < c < |r| && Parent(c) == m ensures r[Parent(m)].val <= r[c].val { }
  }

  lemma NoFault(h: seq<Item>, lo: nat, i: nat)
    requires i < |h| && HeapBut(h, lo, i) && Smallest(h, i) == i
    ensures Heap(h, lo)
  {
    forall c: nat | 0 < c < |h| && Parent(c) >= lo ensures h[Parent(c)].val <= h[c].val {
      if Parent(c) == i { SmallestIs(h, i, c); }
    }
  }

  /** Sifting restores the heap. */
  lemma {:induction false} SiftHeap(h: seq<Item>, lo: nat, i: nat)
    requires lo <= i < |h| && HeapBut(h, lo, i)
    ensures Heap(Sift(h, i), lo)
    decreases |h| - i
  {
    var m := Smallest(h, i);
    if m == i {
      NoFault(h, lo, i);
    } else {
      SwapDown(h, lo, i);
      SiftHeap(Swap(h, i, m), lo, m);
    }
  }

  lemma {:induction false} RootIsLeast(h: seq<Item>, c: nat)
    requires c < |h| && Heap(h, 0)
    ensures h[0].val <= h[c].val
    decreases c
  {
    if c > 0 { RootIsLeast(h, Parent(c)); }
  }

  /** Sifting from position `i - 1` down to the root. */
  function Build(h: seq<Item>, i: nat): (r: seq<Item>)
    requires i <= |h|
    ensures |r| == |h|
    decreases i
  {
    if i == 0 then h else Build(Sift(h, i - 1), i - 1)
  }

  lemma {:induction false} BuildHeap(h: seq<Item>, i: nat)
    requires i <= |h| && Heap(h, i)
    ensures Heap(Build(h, i), 0) && multiset(Build(h, i)) == multiset(h)
    decreases i
  {
    if i > 0 {
      SiftHeap(h, i - 1, i - 1);
      SiftKeeps(h, i - 1);
      BuildHeap(Sift(h, i - 1), i - 1);
    }
  }

  // ---------------------------------------------------------------- selection

  /** Every item kept is at least as large as every item left out. */
  ghost predicate IsTop(sel: multiset<Item>, all: multiset<Item>) {
    sel <= all && forall x, y :: x in sel && y in all - sel ==> y.val <= x.val
  }

  /** One candidate against the heap: it replaces the root if it is larger. */
  function Offer(h: seq<Item>, z: Item): (r: seq<Item>)
    requires |h| > 0
    ensures |r| == |h|
  {
    if z.val > h[0].val then Sift(h[0 := z], 0) else h
  }

  lemma OfferHeap(h: seq<Item>, z: Item)
    requires |h| > 0 && Heap(h, 0)
    ensures Heap(Offer(h, z), 0)
    ensures multiset(Offer(h, z)) == if z.val > h[0].val then multiset(h) - multiset{h[0]} + multiset{z} else multiset(h)
  {
    if z.val > h[0].val {
      SiftHeap(h[0 := z], 0, 0);
      SiftKeeps(h[0 := z], 0);
    }
  }

  lemma LeastOf(h: seq<Item>, x: Item)
    requires |h| > 0 && Heap(h, 0) && x in multiset(h)
    ensures h[0].val <= x.val
  {
    var c: nat :| c < |h| && h[c] == x;
    RootIsLeast(h, c);
  }

  lemma OfferTop(h: seq<Item>, z: Item, all: multiset<Item>)
    requires |h| > 0 && Heap(h, 0) && IsTop(multiset(h), all)
    ensures IsTop(multiset(Offer(h, z)), all + multiset{z})
  {
    OfferHeap(h, z);
    var sel, r := multiset(h), multiset(Offer(h, z));
    if z.val > h[0].val {
      assert (all + multiset{z}) - r == (all - sel) + multiset{h[0]};
      forall x, y | x in r && y in (all - sel) + multiset{h[0]} ensures y.val <= x.val {
        if x in sel { LeastOf(h, x); }
        assert h[0] in sel;
      }
    } else {
      assert (all + multiset{z}) - sel == (all - sel) + multiset{z};
      forall x, y | x in sel && y in (all - sel) + multiset{z} ensures y.val <= x.val { LeastOf(h, x); }
    }
  }

  function Scan(h: seq<Item>, rest: seq<Item>): (r: seq<Item>)
    requires |h| > 0
    ensures |r| == |h|
    decreases |rest|
  {
    if rest == [] then h else Offer(Scan(h, rest[..|rest| - 1]), rest[|rest| - 1])
  }

  lemma OneMore(h: seq<Item>, rest: seq<Item>)
    requires |rest| > 0
    ensures var n := |rest| - 1;
            multiset(h) + multiset(rest[..n]) + multiset{rest[n]} == multiset(h) + multiset(rest)
  {
    var n := |rest| - 1;
    assert rest == rest[..n] + [rest[n]];
  }

  lemma {:induction false} ScanTop(h: seq<Item>, rest: seq<Item>)
    requires |h| > 0 && Heap(h, 0)
    ensures Heap(Scan(h, rest), 0) && IsTop(multiset(Scan(h, rest)), multiset(h) + multiset(rest))
    decreases |rest|
  {
    if rest != [] {
      var n := |rest| - 1;
      ScanTop(h, rest[..n]);
      OfferHeap(Scan(h, rest[..n]), rest[n]);
      OfferTop(Scan(h, rest[..n]), rest[n], multiset(h) + multiset(rest[..n]));
      OneMore(h, rest);
    }
  }

  /** Heap of the first `k`, then the others offered in order. */
  function Select(s: seq<Item>, k: nat): (r: seq<Item>)
    requires 0 < k <= |s|
    ensures |r| == k
  {
    Scan(Build(s[..k], k / 2), s[k..])
  }

  /** Exactly the `k` largest, as a multiset. */
  lemma SelectTop(s: seq<Item>, k: nat)
    requires 0 < k <= |s|
    ensures IsTop(multiset(Select(s, k)), multiset(s)) && |multiset(Select(s, k))| == k
  {
    BuildHeap(s[..k], k / 2);
    ScanTop(Build(s[..k], k / 2), s[k..]);
    assert s == s[..k] + s[k..];
  }

  // ---------------------------------------------------------------- in place

  method SiftDown(a: array<Item>, n: nat, start: nat)
    requires start < n <= a.Length
    modifies a
    ensures a[..n] == Sift(old(a[..n]), start) && a[n..] == old(a[n..])
  {
    var i := start;
    while true
      invariant i < n && Sift(a[..n], i) == Sift(old(a[..n]), start) && a[n..] == old(a[n..])
      decreases n - i
    {
      var smallest := i;
      var l, r := 2 * i + 1, 2 * i + 2;
      if l < n && a[l].val < a[smallest].val { smallest := l; }
      if r < n && a[r].val < a[smallest].val { smallest := r; }
      assert smallest == Smallest(a[..n], i);
      if smallest == i { break; }
      ghost var before := a[..n];
      SwapAt(a, n, i, smallest);
      i := smallest;
    }
  }

  method SwapAt(a: array<Item>, n: nat, i: nat, j: nat)
    requires i < n <= a.Length && j < n
    modifies a
    ensures a[..n] == Swap(old(a[..n]), i, j) && a[n..] == old(a[n..])
  {
    var tmp := a[i];
    a[i] := a[j];
    a[j] := tmp;
  }

  method BuildMinHeap(a: array<Item>, k: nat)
    requires 0 < k <= a.Length
    modifies a
    ensures a[..k] == Build(old(a[..k]), k / 2) && a[k..] == old(a[k..])
  {
    var i: nat := k / 2;
    while i > 0
      invariant i <= k / 2 && Build(a[..k], i) == Build(old(a[..k]), k / 2) && a[k..] == old(a[k..])
    {
      i := i - 1;
      SiftDown(a, k, i);
    }
  }

  lemma ScanNext(h: seq<Item>, rest: seq<Item>, i: nat)
    requires |h| > 0 && i < |rest|
    ensures Scan(h, rest[..i + 1]) == Offer(Scan(h, rest[..i]), rest[i])
  {
    assert rest[..i + 1][..i] == rest[..i];
  }

  method ScanRest(a: array<Item>, k: nat, n: nat)
    requires 0 < k <= n <= a.Length
    modifies a
    ensures a[..k] == Scan(old(a[..k]), old(a[k..n])) && a[k..] == old(a[k..])
  {
    ghost var h, rest, tail := a[..k], a[k..n], a[k..];
    var i := k;
    while i < n
      invariant k <= i <= n && a[k..] == tail && a[..k] == Scan(h, rest[..i - k])
    {
      assert a[i] == tail[i - k] == rest[i - k];
      ghost var before := a[..k];
      OfferAt(a, k, i);
      ScanNext(h, rest, i - k);
      assert a[..k] == Offer(before, rest[i - k]);
      i := i + 1;
    }
    assert rest[..n - k] == rest;
  }

  /** The top `k` of the first `n` items end up in the first `k` places. */
  method SelectInPlace(a: array<Item>, k: nat, n: nat)
    requires 0 < k <= n <= a.Length
    modifies a
    ensures a[..k] == Select(old(a[..n]), k) && a[k..] == old(a[k..])
    ensures IsTop(multiset(a[..k]), multiset(old(a[..n])))
  {
    ghost var s, tail := a[..n], a[k..];
    assert s[..k] == a[..k] && s[k..] == a[k..n];
    BuildMinHeap(a, k);
    assert a[k..n] == tail[..n - k] == s[k..];
    ScanRest(a, k, n);
    SelectTop(s, k);
  }

  method OfferAt(a: array<Item>, k: nat, i: nat)
    requires 0 < k <= i < a.Length
    modifies a
    ensures a[..k] == Offer(old(a[..k]), old(a[i])) && a[k..] == old(a[k..])
  {
    if a[i].val > a[0].val {
      ghost var h := a[..k];
      ghost var tail := a[k..];
      a[0] := a[i];
      assert a[..k] == h[0 := a[i]] && a[k..] == tail;
      SiftDown(a, k, 0);
    }
  }
}
