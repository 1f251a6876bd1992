/** The packed ternary format: four 2-bit weights per byte, decoded through tables. */
module Ternary {

  type Byte = b: int | 0 <= b < 256

  /** Field `j` of a byte: bits 2j and 2j+1. */
  function Field(b: Byte, j: nat): (f: nat)
    requires j < 4
    ensures f < 4
  {
    (if j == 0 then b else if j == 1 then b / 4 else if j == 2 then b / 16 else b / 64) % 4
  }

  /** 0 is -1, 1 is 0, 2 and 3 are +1. */
  function DecodeWeight(bits: nat): (w: int)
    ensures -1 <= w <= 1
  {
    if bits == 0 then -1 else if bits == 1 then 0 else 1
  }

  function Unpack(b: Byte, j: nat): (w: int)
    requires j < 4
    ensures -1 <= w <= 1
  {
    DecodeWeight(Field(b, j))
  }

  function Pow2(j: nat): (p: nat)
    requires j < 4
    ensures p > 0
  {
    if j == 0 then 1 else if j == 1 then 2 else if j == 2 then 4 else 8
  }

  /** Bits of the first `k` positions whose weight is `w`. */
  function MaskUpTo(b: Byte, w: int, k: nat): (m: nat)
    requires k <= 4
    ensures m < if k < 4 then Pow2(k) else 16
  {
    if k == 0 then 0 else MaskUpTo(b, w, k - 1) + if Unpack(b, k - 1) == w then Pow2(k - 1) else 0
  }

  function PMask(b: Byte): (m: nat) ensures m < 16 { MaskUpTo(b, 1, 4) }
  function NMask(b: Byte): (m: nat) ensures m < 16 { MaskUpTo(b, -1, 4) }

  function Bit(m: nat, j: nat): bool
    requires j < 4
  {
    (m / Pow2(j)) % 2 == 1
  }

  lemma MaskBits(b: Byte, w: int, j: nat)
    requires j < 4
    ensures Bit(MaskUpTo(b, w, 4), j) <==> Unpack(b, j) == w
  {
    var m1, m2, m3, m4 := MaskUpTo(b, w, 1), MaskUpTo(b, w, 2), MaskUpTo(b, w, 3), MaskUpTo(b, w, 4);
    assert m2 == m1 + if Unpack(b, 1) == w then 2 else 0;
    assert m3 == m2 + if Unpack(b, 2) == w then 4 else 0;
    assert m4 == m3 + if Unpack(b, 3) == w then 8 else 0;
  }

  /** The global tables. */
  class Tables {
    const unpack: array2<int>
    const pMask: array<nat>
    const nMask: array<nat>

    ghost predicate Ready()
      reads unpack, pMask, nMask
    {
      && unpack.Length0 == 256 && unpack.Length1 == 4 && pMask.Length == nMask.Length == 256 && pMask != nMask
      && forall b: Byte :: Filled(b)
    }

    ghost predicate Filled(b: Byte)
      requires unpack.Length0 == 256 && unpack.Length1 == 4 && pMask.Length == nMask.Length == 256
      reads unpack, pMask, nMask
    {
      && (forall j :: 0 <= j < 4 ==> unpack[b, j] == Unpack(b, j))
      && pMask[b] == PMask(b) && nMask[b] == NMask(b)
    }

    constructor ()
      ensures Ready() && fresh(unpack) && fresh(pMask) && fresh(nMask)
    {
      unpack := new int[256, 4];
      pMask, nMask := new nat[256], new nat[256];
      new;
      for i := 0 to 256
        invariant fresh(unpack) && fresh(pMask) && fresh(nMask)
        invariant unpack.Length0 == 256 && unpack.Length1 == 4 && pMask.Length == nMask.Length == 256 && pMask != nMask
        invariant forall b: Byte :: b < i ==> Filled(b)
      {
        Fill(i);
      }
    }

    method Fill(b: Byte)
      requires unpack.Length0 == 256 && unpack.Length1 == 4 && pMask.Length == nMask.Length == 256 && pMask != nMask
      modifies unpack, pMask, nMask
      ensures Filled(b) && forall c: Byte :: c != b && old(Filled(c)) ==> Filled(c)
    {
      unpack[b, 0], unpack[b, 1] := DecodeWeight(Field(b, 0)), DecodeWeight(Field(b, 1));
      unpack[b, 2], unpack[b, 3] := DecodeWeight(Field(b, 2)), DecodeWeight(Field(b, 3));
      var p, n := Masks(b);
      pMask[b] := p;
      nMask[b] := n;
    }

    /** Bit `j` is not yet set when it is or-ed in, so or is addition. */
    static method Masks(b: Byte) returns (p: nat, n: nat)
      ensures p == PMask(b) && n == NMask(b)
    {
      p, n := 0, 0;
      for j := 0 to 4
        invariant p == MaskUpTo(b, 1, j) && n == MaskUpTo(b, -1, j)
      {
        var w := DecodeWeight(Field(b, j));
        if w == 1 { p := p + Pow2(j); }
        if w == -1 { n := n + Pow2(j); }
      }
    }
  }

  // ---------------------------------------------------------------- the naive product

  predicate RowFits(row: seq<Byte>, cols: nat) { cols <= 4 * |row| }

  function Weight(row: seq<Byte>, c: nat): (w: int)
    requires c / 4 < |row|
    ensures -1 <= w <= 1
  {
    Unpack(row[c / 4], c % 4)
  }

  /** Sum of weight times activation over the columns [lo, hi). */
  function Dot(row: seq<Byte>, x: seq<int>, lo: nat, hi: nat): int
    requires lo <= hi <= |x| && RowFits(row, hi)
  {
    if lo == hi then 0 else Dot(row, x, lo, hi - 1) + Weight(row, hi - 1) * x[hi - 1]
  }

  predicate Int8(x: seq<int>) { forall c :: 0 <= c < |x| ==> -128 <= x[c] <= 127 }

  lemma {:induction false} DotSplit(row: seq<Byte>, x: seq<int>, lo: nat, mid: nat, hi: nat)
    requires lo <= mid <= hi <= |x| && RowFits(row, hi)
    ensures Dot(row, x, lo, hi) == Dot(row, x, lo, mid) + Dot(row, x, mid, hi)
  {
    if mid < hi { DotSplit(row, x, lo, mid, hi - 1); }
  }

  lemma {:induction false} DotBound(row: seq<Byte>, x: seq<int>, lo: nat, hi: nat)
    requires lo <= hi <= |x| && RowFits(row, hi) && Int8(x)
    ensures -128 * (hi - lo) <= Dot(row, x, lo, hi) <= 128 * (hi - lo)
  {
    if lo < hi {
      DotBound(row, x, lo, hi - 1);
      var w := Weight(row, hi - 1);
      assert w == -1 || w == 0 || w == 1;
    }
  }

  // ---------------------------------------------------------------- the exporter

  predicate TernaryRow(ws: seq<int>) { forall c :: 0 <= c < |ws| ==> -1 <= ws[c] <= 1 }

  function Pack4(w0: int, w1: int, w2: int, w3: int): (b: Byte)
    requires -1 <= w0 <= 1 && -1 <= w1 <= 1 && -1 <= w2 <= 1 && -1 <= w3 <= 1
  {
    (w0 + 1) + (w1 + 1) * 4 + (w2 + 1) * 16 + (w3 + 1) * 64
  }

  /** Four weights a byte; the exporter refuses rows whose length is not a multiple of four. */
  function Pack(ws: seq<int>): (row: seq<Byte>)
    requires TernaryRow(ws) && |ws| % 4 == 0
    ensures |row| == |ws| / 4
  {
    if |ws| == 0 then [] else [Pack4(ws[0], ws[1], ws[2], ws[3])] + Pack(ws[4..])
  }

  lemma Fields(a: nat, b: nat, c: nat, d: nat)
    requires a < 4 && b < 4 && c < 4 && d < 4
    ensures var v := a + b * 4 + c * 16 + d * 64; v < 256 && Field(v, 0) == a && Field(v, 1) == b && Field(v, 2) == c && Field(v, 3) == d
  {
    var v := a + b * 4 + c * 16 + d * 64;
    assert v / 4 == b + c * 4 + d * 16;
    assert v / 16 == c + d * 4;
    assert v / 64 == d;
  }

  lemma Unpack4(w0: int, w1: int, w2: int, w3: int)
    requires -1 <= w0 <= 1 && -1 <= w1 <= 1 && -1 <= w2 <= 1 && -1 <= w3 <= 1
    ensures var b := Pack4(w0, w1, w2, w3); Unpack(b, 0) == w0 && Unpack(b, 1) == w1 && Unpack(b, 2) == w2 && Unpack(b, 3) == w3
  {
    Fields(w0 + 1, w1 + 1, w2 + 1, w3 + 1);
  }

  lemma PackHead(ws: seq<int>, c: nat)
    requires TernaryRow(ws) && |ws| % 4 == 0 && c < 4 <= |ws|
    ensures Weight(Pack(ws), c) == ws[c]
  {
    var w0, w1, w2, w3 := ws[0], ws[1], ws[2], ws[3];
    Unpack4(w0, w1, w2, w3);
    FirstByte(ws, c);
    assert c == 0 || c == 1 || c == 2 || c == 3;
  }

  lemma FirstByte(ws: seq<int>, c: nat)
    requires TernaryRow(ws) && |ws| % 4 == 0 && c < 4 <= |ws|
    ensures Weight(Pack(ws), c) == Unpack(Pack4(ws[0], ws[1], ws[2], ws[3]), c)
  {
    assert Pack(ws)[0] == Pack4(ws[0], ws[1], ws[2], ws[3]) && c / 4 == 0 && c % 4 == c;
  }

  lemma FourLess(c: nat)
    requires c >= 4
    ensures c / 4 == (c - 4) / 4 + 1 && c % 4 == (c - 4) % 4
  { }

  lemma PackTail(ws: seq<int>, c: nat)
    requires TernaryRow(ws) && |ws| % 4 == 0 && 4 <= c < |ws|
    ensures Weight(Pack(ws), c) == Weight(Pack(ws[4..]), c - 4)
  {
    var b, rest := Pack4(ws[0], ws[1], ws[2], ws[3]), Pack(ws[4..]);
    assert Pack(ws) == [b] + rest;
    var k := (c - 4) / 4;
    FourLess(c);
    assert ([b] + rest)[k + 1] == rest[k];
  }

  /** What the exporter packs, the table unpacks. */
  lemma {:induction false} PackUnpack(ws: seq<int>, c: nat)
    requires TernaryRow(ws) && |ws| % 4 == 0 && c < |ws|
    ensures Weight(Pack(ws), c) == ws[c]
  {
    if c < 4 {
      PackHead(ws, c);
    } else {
      PackTail(ws, c);
      PackUnpack(ws[4..], c - 4);
    }
  }
}
