/** The exported tensors byte by byte: little-endian header words, then two bits a weight, four to a byte. */
module WeightLayout {
  import opened Basics
  import opened Ternary
  import opened WeightFile

  /** The word at `p`, low byte first. */
  function Le(f: Bytes, p: nat): int
    requires p + 4 <= |f|
  {
    var b0: int, b1: int, b2: int, b3: int := f[p], f[p + 1], f[p + 2], f[p + 3];
    b0 + 0x100 * b1 + 0x1_0000 * b2 + 0x100_0000 * b3
  }

  /** Bits 2k and 2k + 1 of a byte. */
  function Pair(b: Byte, k: nat): (v: nat)
    requires k < 4
  {
    if k == 0 then b % 4 else if k == 1 then b / 4 % 4 else if k == 2 then b / 16 % 4 else b / 64
  }

  lemma WordIs(v: nat, f: Bytes, p: nat)
    requires v < 0x8000_0000 && Occurs(f, p, Int32(v))
    ensures Le(f, p) == v
  {
    var w := f[p..p + 4];
    assert f[p] == w[0] && f[p + 1] == w[1] && f[p + 2] == w[2] && f[p + 3] == w[3];
    Digits(v);
  }

  lemma PairsOfFour(w0: int, w1: int, w2: int, w3: int)
    requires -1 <= w0 <= 1 && -1 <= w1 <= 1 && -1 <= w2 <= 1 && -1 <= w3 <= 1
    ensures var b := Pack4(w0, w1, w2, w3);
            Pair(b, 0) == w0 + 1 && Pair(b, 1) == w1 + 1 && Pair(b, 2) == w2 + 1 && Pair(b, 3) == w3 + 1
  { }

  lemma {:induction false} PackedPairs(ws: seq<int>, i: nat)
    requires TernaryRow(ws) && |ws| % 4 == 0 && i < |ws|
    ensures Pair(Pack(ws)[i / 4], i % 4) == ws[i] + 1
  {
    if i < 4 {
      PairsOfFour(ws[0], ws[1], ws[2], ws[3]);
      assert i == 0 || i == 1 || i == 2 || i == 3;
    } else {
      PackedPairs(ws[4..], i - 4);
      assert i / 4 == (i - 4) / 4 + 1 && i % 4 == (i - 4) % 4;
      assert Pack(ws)[i / 4] == Pack(ws[4..])[(i - 4) / 4];
    }
  }

  /** Three header words, the scale and the rest. */
  lemma HeaderWords(rows: nat, cols: nat, scale: Bytes, rest: Bytes)
    requires rows < 0x8000_0000 && cols < 0x8000_0000 && |scale| == 4
    ensures var f := Int32(2) + Int32(rows) + Int32(cols) + scale + rest;
      Le(f, 0) == 2 && Le(f, 4) == rows && Le(f, 8) == cols && f[12..16] == scale && f[16..] == rest
  {
    var f := Int32(2) + Int32(rows) + Int32(cols) + scale + rest;
    assert f[0..4] == Int32(2) && f[4..8] == Int32(rows) && f[8..12] == Int32(cols);
    WordIs(2, f, 0);
    WordIs(rows, f, 4);
    WordIs(cols, f, 8);
  }

  /** Weight `i`, plus one, stands in pair i mod 4 of byte i / 4. */
  ghost predicate PairsAre(bytes: Bytes, ws: seq<int>) {
    |ws| == 4 * |bytes| && forall i :: 0 <= i < |ws| ==> Pair(bytes[i / 4], i % 4) == ws[i] + 1
  }

  lemma PackIsPairs(ws: seq<int>)
    requires TernaryRow(ws) && |ws| % 4 == 0
    ensures PairsAre(Pack(ws), ws)
  {
    forall i | 0 <= i < |ws| ensures Pair(Pack(ws)[i / 4], i % 4) == ws[i] + 1 { PackedPairs(ws, i); }
  }

  /** Type 2, rows, columns, scale, weights. */
  lemma PackedLayout(goodScale: Bytes -> bool, t: Tensor)
    requires t.Packed? && Legal(goodScale, t)
    ensures var f := Export(goodScale, t);
      && |f| >= 16 && Le(f, 0) == 2 && Le(f, 4) == t.rows && Le(f, 8) == t.cols && f[12..16] == t.scale
      && PairsAre(f[16..], t.ws)
  {
    PackedSize(t.rows, t.cols);
    HeaderWords(t.rows, t.cols, t.scale, Pack(t.ws));
    PackIsPairs(t.ws);
  }

  lemma {:induction false} DimsLayout(ds: seq<int>, k: nat)
    requires LegalDims(ds) && k < |ds|
    ensures Le(ExportDims(ds), 4 * k) == ds[k]
  {
    var n := |ds| - 1;
    var f, g := ExportDims(ds), ExportDims(ds[..n]);
    assert f == g + Int32(ds[n]);
    if k == n {
      assert f[4 * n..4 * n + 4] == Int32(ds[n]);
      WordIs(ds[n], f, 4 * n);
    } else {
      DimsLayout(ds[..n], k);
      assert f[4 * k] == g[4 * k] && f[4 * k + 1] == g[4 * k + 1] && f[4 * k + 2] == g[4 * k + 2] && f[4 * k + 3] == g[4 * k + 3];
    }
  }

  /** Type 0, number of dimensions, dimensions, data. */
  lemma FloatsLayout(goodScale: Bytes -> bool, t: Tensor)
    requires t.Floats? && Legal(goodScale, t)
    ensures var f, n := Export(goodScale, t), |t.dims|;
      && |f| == 8 + 4 * n + |t.data| && Le(f, 0) == 0 && Le(f, 4) == n && f[8 + 4 * n..] == t.data
      && forall k :: 0 <= k < n ==> Le(f, 8 + 4 * k) == t.dims[k]
  {
    var f, n, ds := Export(goodScale, t), |t.dims|, ExportDims(t.dims);
    assert f == Int32(0) + Int32(n) + ds + t.data;
    assert f[0..4] == Int32(0) && f[4..8] == Int32(n);
    WordIs(0, f, 0);
    WordIs(n, f, 4);
    forall k | 0 <= k < n ensures Le(f, 8 + 4 * k) == t.dims[k] {
      DimsLayout(t.dims, k);
      assert f[8 + 4 * k] == ds[4 * k] && f[8 + 4 * k + 1] == ds[4 * k + 1];
      assert f[8 + 4 * k + 2] == ds[4 * k + 2] && f[8 + 4 * k + 3] == ds[4 * k + 3];
    }
  }
}
