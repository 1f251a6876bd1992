/**
 * The weight file: the exporter's byte stream and the loader's tensor reader, which walks a mapped
 * file with address arithmetic modulo 2^64.
 */
module WeightFile {
  import opened Basics
  import opened Ternary
  import Tmac

  type Bytes = seq<Byte>

  const MAX_DIM := 0x10_0000
  const WORD := 0x1_0000_0000_0000_0000
  const SIZE_MAX := WORD - 1

  // ---------------------------------------------------------------- 32-bit little-endian integers

  function Int32At(f: Bytes, p: nat): (v: int)
    requires p + 4 <= |f|
    ensures -0x8000_0000 <= v < 0x8000_0000
  {
    var b0: int, b1: int, b2: int, b3: int := f[p], f[p + 1], f[p + 2], f[p + 3];
    var u := b0 + 256 * b1 + 0x1_0000 * b2 + 0x100_0000 * b3;
    if u >= 0x8000_0000 then u - 0x1_0000_0000 else u
  }

  function Int32(v: nat): (r: Bytes)
    requires v < 0x8000_0000
    ensures |r| == 4
  {
    [v % 256, v / 256 % 256, v / 0x1_0000 % 256, v / 0x100_0000]
  }

  lemma Int32RoundTrip(f: Bytes, p: nat, v: nat)
    requires p + 4 <= |f| && v < 0x8000_0000 && f[p..p + 4] == Int32(v)
    ensures Int32At(f, p) == v
  {
    var w := f[p..p + 4];
    assert f[p] == w[0] && f[p + 1] == w[1] && f[p + 2] == w[2] && f[p + 3] == w[3];
    Digits(v);
  }

  lemma Digits(v: nat)
    ensures v == v % 256 + 256 * (v / 256 % 256) + 0x1_0000 * (v / 0x1_0000 % 256) + 0x100_0000 * (v / 0x100_0000)
  {
    var a := v / 256;
    assert v == v % 256 + 256 * a;
    var b := a / 256;
    assert a == a % 256 + 256 * b && b == v / 0x1_0000;
    assert b == b % 256 + 256 * (b / 256) && b / 256 == v / 0x100_0000;
  }

  // ---------------------------------------------------------------- tensors

  function Product(ds: seq<int>): int { if ds == [] then 1 else IntTimes(Product(ds[..|ds| - 1]), ds[|ds| - 1]) }

  predicate LegalDim(d: int) { 1 <= d <= MAX_DIM }

  predicate LegalDims(ds: seq<int>) { forall i :: 0 <= i < |ds| ==> LegalDim(ds[i]) }

  /** What is exported: packed ternary weights with a scale, or floats given by their bytes. */
  datatype Tensor = Packed(rows: nat, cols: nat, scale: Bytes, ws: seq<int>) | Floats(dims: seq<int>, data: Bytes)

  /** `goodScale` says that four bytes are a finite positive float. */
  ghost predicate Legal(goodScale: Bytes -> bool, t: Tensor) {
    match t
    case Packed(rows, cols, scale, ws) =>
      LegalDim(rows) && LegalDim(cols) && cols % 4 == 0 && |scale| == 4 && goodScale(scale) && |ws| == rows * cols && TernaryRow(ws)
    case Floats(dims, data) => |dims| <= 4 && LegalDims(dims) && |data| == 4 * Product(dims)
  }

  function ExportDims(ds: seq<int>): (r: Bytes)
    requires LegalDims(ds)
    ensures |r| == 4 * |ds|
  {
    if ds == [] then [] else ExportDims(ds[..|ds| - 1]) + Int32(ds[|ds| - 1])
  }

  lemma PackedSize(rows: nat, cols: nat)
    requires cols % 4 == 0
    ensures (rows * cols) % 4 == 0 && rows * cols / 4 == rows * (cols / 4) && (cols + 3) / 4 == cols / 4
  {
    var q := cols / 4;
    assert rows * cols == 4 * (rows * q) by { assert cols == 4 * q; assert rows * (4 * q) == 4 * (rows * q); }
  }

  function Export(goodScale: Bytes -> bool, t: Tensor): (r: Bytes)
    requires Legal(goodScale, t)
  {
    match t
    case Packed(rows, cols, scale, ws) =>
      PackedSize(rows, cols);
      Int32(2) + Int32(rows) + Int32(cols) + scale + Pack(ws)
    case Floats(dims, data) => Int32(0) + Int32(|dims|) + ExportDims(dims) + data
  }

  // ---------------------------------------------------------------- the reader

  /** A tensor as the loader sees it: `data` is where its bytes start, `next` where the next tensor does. */
  datatype View = View(bitnet: bool, rows: int, cols: int, scale: Bytes, elements: int, data: nat, next: nat)

  /** A mapped file lies in the lower half of the address space. */
  predicate Mapped(base: nat, f: Bytes) { base + |f| < 0x8000_0000_0000_0000 }

  /** The comparison `ptr + n > end`. */
  predicate Beyond(base: nat, f: Bytes, p: nat, n: nat) { (base + p + n) % WORD > base + |f| }

  lemma SmallStep(base: nat, f: Bytes, p: nat, n: nat)
    requires Mapped(base, f) && p <= |f| && n < 0x8000_0000_0000_0000
    ensures Beyond(base, f, p, n) <==> p + n > |f|
  { }

  function DimsAt(f: Bytes, p: nat, n: nat): (ds: seq<int>)
    requires p + 4 * n <= |f|
    ensures |ds| == n
  {
    seq(n, i requires 0 <= i < n && p + 4 * n <= |f| => Int32At(f, p + 4 * i))
  }

  /** Bytes of a packed matrix: every row starts a new byte. */
  function PackedBytes(rows: int, cols: int): (n: nat)
    requires rows >= 0 && cols >= 0
  {
    assert rows * ((cols + 3) / 4) >= 0;
    IntTimes(rows, (cols + 3) / 4)
  }

  function ReadPacked(goodScale: Bytes -> bool, f: Bytes, p: nat): Option<View> {
    if p + 16 > |f| then None
    else
      var rows, cols, scale := Int32At(f, p + 4), Int32At(f, p + 8), f[p + 12..p + 16];
      if !goodScale(scale) || !LegalDim(rows) || !LegalDim(cols) then None
      else
        var total := PackedBytes(rows, cols);
        if total > |f| - (p + 16) then None
        else Some(View(true, rows, cols, scale, IntTimes(rows, cols), p + 16, p + 16 + total))
  }

  function ReadFloats(base: nat, f: Bytes, p: nat): Option<View> {
    if p + 8 > |f| then None
    else
      var ndim := Int32At(f, p + 4);
      if ndim < 0 || ndim > 4 || p + 8 + 4 * ndim > |f| then None
      else
        var ds := DimsAt(f, p + 8, ndim);
        if !LegalDims(ds) then None
        else
          ProductPositive(ds);
          var n, at := Product(ds), p + 8 + 4 * ndim;
          FloatsView(base, f, at, n, First(ds), Second(ds))
  }

  function First(ds: seq<int>): int { if |ds| > 0 then ds[0] else 0 }

  function Second(ds: seq<int>): int { if |ds| > 1 then ds[1] else 0 }

  /** The last tests, once the number of elements is known. */
  function FloatsView(base: nat, f: Bytes, at: nat, n: nat, rows: int, cols: int): Option<View> {
    if n > SIZE_MAX / 4 || Beyond(base, f, at, 4 * n) then None
    else Some(View(false, rows, cols, [], n, at, at + 4 * n))
  }

  /** One tensor at `p`, or nothing. */
  function Read(goodScale: Bytes -> bool, base: nat, f: Bytes, p: nat): Option<View> {
    if p + 4 > |f| then None
    else if Int32At(f, p) == 2 then ReadPacked(goodScale, f, p)
    else ReadFloats(base, f, p)
  }

  lemma {:induction false} ProductPositive(ds: seq<int>)
    requires LegalDims(ds)
    ensures Product(ds) >= 1
  {
    if ds != [] {
      ProductPositive(ds[..|ds| - 1]);
      var a, d := Product(ds[..|ds| - 1]), ds[|ds| - 1];
      assert (a - 1) * d >= 0 && (a - 1) * d == a * d - d;
    }
  }

  lemma WrapOrInside(base: nat, f: Bytes, p: nat, n: nat)
    requires Mapped(base, f) && p <= |f| && n < WORD && !Beyond(base, f, p, n)
    ensures p + n <= |f| <==> base + p + n < WORD
  {
    var x := base + p + n;
    if x < WORD { assert x % WORD == x; }
  }

  /** A float tensor's header that passes the loader's tests. */
  predicate FloatHeader(f: Bytes, p: nat) {
    && p + 8 <= |f| && 0 <= Int32At(f, p + 4) <= 4
    && p + 8 + 4 * Int32At(f, p + 4) <= |f| && LegalDims(DimsAt(f, p + 8, Int32At(f, p + 4)))
  }

  /** The address behind the last float the header announces, before any wrap-around. */
  function FloatEnd(base: nat, f: Bytes, p: nat): int
    requires FloatHeader(f, p)
  {
    base + p + 8 + 4 * Int32At(f, p + 4) + 4 * Product(DimsAt(f, p + 8, Int32At(f, p + 4)))
  }

  lemma FloatsInside(base: nat, f: Bytes, p: nat)
    requires Mapped(base, f) && p <= |f| && ReadFloats(base, f, p).Some?
    ensures FloatHeader(f, p)
    ensures var v := ReadFloats(base, f, p).value;
            p < v.data <= v.next && v.data <= |f| && (v.next <= |f| <==> FloatEnd(base, f, p) < WORD)
  {
    var ds := DimsAt(f, p + 8, Int32At(f, p + 4));
    ProductPositive(ds);
    WrapOrInside(base, f, p + 8 + 4 * Int32At(f, p + 4), 4 * Product(ds));
  }

  lemma PackedInside(goodScale: Bytes -> bool, f: Bytes, p: nat)
    requires p <= |f| && ReadPacked(goodScale, f, p).Some?
    ensures var v := ReadPacked(goodScale, f, p).value; p < v.data <= v.next <= |f|
  { }

  /**
   * A successful read of packed weights stays inside the file. One of floats does if and only if the
   * extent its header announces does not run past the address space.
   */
  lemma ReadInside(goodScale: Bytes -> bool, base: nat, f: Bytes, p: nat)
    requires Mapped(base, f) && p <= |f| && Read(goodScale, base, f, p).Some?
    ensures Int32At(f, p) == 2 || FloatHeader(f, p)
    ensures var v := Read(goodScale, base, f, p).value;
            p < v.data <= v.next && v.data <= |f| && (v.next <= |f| <==> Int32At(f, p) == 2 || FloatEnd(base, f, p) < WORD)
  {
    if Int32At(f, p) == 2 { PackedInside(goodScale, f, p); } else { FloatsInside(base, f, p); }
  }

  /** Legal dimensions whose floats take 2^64 - 2^44 bytes. */
  const HUGE: seq<int> := [0x10_0000, 0x10_0000, 0xF_FFFF, 4]

  const SHORTFALL := 0x1000_0000_0000

  lemma HugeProduct()
    ensures LegalDims(HUGE) && 4 * Product(HUGE) == WORD - SHORTFALL
  {
    assert HUGE[..3] == [0x10_0000, 0x10_0000, 0xF_FFFF];
    assert HUGE[..3][..2] == [0x10_0000, 0x10_0000];
    assert HUGE[..3][..2][..1] == [0x10_0000];
    assert HUGE[..3][..2][..1][..0] == [];
    assert Product([0x10_0000]) == 0x10_0000;
    assert Product([0x10_0000, 0x10_0000]) == 0x100_0000_0000;
    assert Product(HUGE[..3]) == 0x100_0000_0000 * 0xF_FFFF;
  }

  /** The bytes of that header. */
  function HugeHeader(): (h: Bytes)
    ensures |h| == 24
  {
    HugeProduct();
    Int32(0) + Int32(4) + ExportDims(HUGE)
  }

  /** With the file mapped at 2^44 or above, such a header is accepted wherever it stands, and the tensor leaves the file. */
  lemma ReadEscapes(goodScale: Bytes -> bool, base: nat, f: Bytes, p: nat)
    requires Mapped(base, f) && Occurs(f, p, HugeHeader()) && base >= SHORTFALL
    ensures Read(goodScale, base, f, p).Some? && Read(goodScale, base, f, p).value.next > |f|
  {
    HugeProduct();
    Pieces(f, p, Int32(0) + Int32(4), ExportDims(HUGE));
    Pieces(f, p, Int32(0), Int32(4));
    Int32RoundTrip(f, p, 0);
    Int32RoundTrip(f, p + 4, 4);
    DimsRoundTrip(f, p + 8, HUGE);
    var x := base + p + 24 + (WORD - SHORTFALL);
    assert x % WORD == base + p + 24 - SHORTFALL;
  }

  // ---------------------------------------------------------------- the round trip

  lemma {:induction false} DimsRoundTrip(f: Bytes, p: nat, ds: seq<int>)
    requires LegalDims(ds) && Occurs(f, p, ExportDims(ds))
    ensures DimsAt(f, p, |ds|) == ds
  {
    if ds != [] {
      var n := |ds| - 1;
      Pieces(f, p, ExportDims(ds[..n]), Int32(ds[n]));
      DimsRoundTrip(f, p, ds[..n]);
      Int32RoundTrip(f, p + 4 * n, ds[n]);
      forall i | 0 <= i < |ds| ensures DimsAt(f, p, |ds|)[i] == ds[i] {
        if i < n { assert DimsAt(f, p, n)[i] == ds[..n][i]; }
      }
    }
  }

  /** What a view must say about the exported tensor, weight by weight. */
  ghost predicate Recovers(goodScale: Bytes -> bool, f: Bytes, t: Tensor, v: View)
    requires Legal(goodScale, t)
  {
    match t
    case Packed(rows, cols, scale, ws) =>
      && v.bitnet && v.rows == rows && v.cols == cols && v.scale == scale && v.elements == rows * cols
      && v.next <= |f| && v.data <= v.next && v.next - v.data == rows * ((cols + 3) / 4)
      && forall r: nat, c: nat :: r < rows && c < cols ==> WeightIs(f[v.data..v.next], rows, cols, ws, r, c)
    case Floats(dims, data) =>
      && !v.bitnet && v.elements == Product(dims) && v.rows == First(dims) && v.cols == Second(dims)
      && v.data <= v.next <= |f| && f[v.data..v.next] == data
  }

  /** Row `r`, column `c` of the packed bytes, through the unpack table, is the exported weight. */
  ghost predicate WeightIs(packed: Bytes, rows: nat, cols: nat, ws: seq<int>, r: nat, c: nat) {
    && r < rows && c < cols && |ws| == rows * cols && Tmac.Matrix(packed, (cols + 3) / 4, rows)
    && 0 <= r * cols + c < |ws|
    && Weight(Tmac.RowBytes(packed, (cols + 3) / 4, rows, r), c) == ws[r * cols + c]
  }

  lemma FlatIndex(rows: nat, cols: nat, r: nat, c: nat)
    requires r < rows && c < cols && cols % 4 == 0
    ensures 0 <= r * cols + c < rows * cols
    ensures (r * cols + c) / 4 == r * (cols / 4) + c / 4 && (r * cols + c) % 4 == c % 4
  {
    var q := cols / 4;
    Tmac.RowInside(seq(rows * cols, _ => 0), cols, rows, r);
    FourTimes(r, q);
    assert cols == 4 * q && r * cols == 4 * (r * q);
    SplitFour(r * q, c);
  }

  lemma FourTimes(r: nat, q: nat)
    ensures r * (4 * q) == 4 * (r * q)
  { }

  lemma SplitFour(k: nat, c: nat)
    ensures (4 * k + c) / 4 == k + c / 4 && (4 * k + c) % 4 == c % 4
  { }

  lemma WeightRoundTrip(rows: nat, cols: nat, ws: seq<int>, r: nat, c: nat)
    requires cols % 4 == 0 && |ws| == rows * cols && TernaryRow(ws) && r < rows && c < cols && (rows * cols) % 4 == 0
    ensures WeightIs(Pack(ws), rows, cols, ws, r, c)
  {
    PackedSize(rows, cols);
    FlatIndex(rows, cols, r, c);
    PackUnpack(ws, r * cols + c);
    Tmac.RowInside(Pack(ws), cols / 4, rows, r);
  }

  lemma PackedRoundTrip(goodScale: Bytes -> bool, base: nat, f: Bytes, p: nat, t: Tensor)
    requires t.Packed? && Legal(goodScale, t) && Mapped(base, f) && Occurs(f, p, Export(goodScale, t))
    ensures Read(goodScale, base, f, p).Some?
    ensures var v := Read(goodScale, base, f, p).value;
            v.next == p + |Export(goodScale, t)| && Recovers(goodScale, f, t, v)
  {
    var rows, cols, scale, ws := t.rows, t.cols, t.scale, t.ws;
    PackedSize(rows, cols);
    Pieces(f, p, Int32(2) + Int32(rows) + Int32(cols) + scale, Pack(ws));
    Pieces(f, p, Int32(2) + Int32(rows) + Int32(cols), scale);
    Pieces(f, p, Int32(2) + Int32(rows), Int32(cols));
    Pieces(f, p, Int32(2), Int32(rows));
    Int32RoundTrip(f, p, 2);
    Int32RoundTrip(f, p + 4, rows);
    Int32RoundTrip(f, p + 8, cols);
    var v := Read(goodScale, base, f, p).value;
    assert f[v.data..v.next] == Pack(ws);
    forall r: nat, c: nat | r < rows && c < cols ensures WeightIs(f[v.data..v.next], rows, cols, ws, r, c) {
      WeightRoundTrip(rows, cols, ws, r, c);
    }
  }

  lemma FloatsRoundTrip(goodScale: Bytes -> bool, base: nat, f: Bytes, p: nat, t: Tensor)
    requires t.Floats? && Legal(goodScale, t) && Mapped(base, f) && Occurs(f, p, Export(goodScale, t))
    ensures Read(goodScale, base, f, p).Some?
    ensures var v := Read(goodScale, base, f, p).value;
            v.next == p + |Export(goodScale, t)| && Recovers(goodScale, f, t, v)
  {
    var dims, data := t.dims, t.data;
    Pieces(f, p, Int32(0) + Int32(|dims|) + ExportDims(dims), data);
    Pieces(f, p, Int32(0) + Int32(|dims|), ExportDims(dims));
    Pieces(f, p, Int32(0), Int32(|dims|));
    Int32RoundTrip(f, p, 0);
    Int32RoundTrip(f, p + 4, |dims|);
    DimsRoundTrip(f, p + 8, dims);
    ProductPositive(dims);
    SmallStep(base, f, p + 8 + 4 * |dims|, 4 * Product(dims));
  }

  function ExportAll(goodScale: Bytes -> bool, ts: seq<Tensor>): (r: Bytes)
    requires AllLegal(goodScale, ts)
  {
    if ts == [] then [] else Export(goodScale, ts[0]) + ExportAll(goodScale, ts[1..])
  }

  /** Tensor after tensor, each starting where the previous one ended. */
  function ReadAll(goodScale: Bytes -> bool, base: nat, f: Bytes, p: nat, n: nat): (r: Option<seq<View>>)
    decreases n
  {
    if n == 0 then Some([])
    else
      var v := Read(goodScale, base, f, p);
      if v.None? then None
      else
        var rest := ReadAll(goodScale, base, f, v.value.next, n - 1);
        if rest.None? then None else Some([v.value] + rest.value)
  }

  function EndOf(p: nat, vs: seq<View>): nat { if vs == [] then p else vs[|vs| - 1].next }

  lemma TensorRoundTrip(goodScale: Bytes -> bool, base: nat, f: Bytes, p: nat, t: Tensor)
    requires Legal(goodScale, t) && Mapped(base, f) && Occurs(f, p, Export(goodScale, t))
    ensures Read(goodScale, base, f, p).Some?
    ensures var v := Read(goodScale, base, f, p).value;
            v.next == p + |Export(goodScale, t)| && Recovers(goodScale, f, t, v)
  {
    if t.Packed? { PackedRoundTrip(goodScale, base, f, p, t); } else { FloatsRoundTrip(goodScale, base, f, p, t); }
  }

  ghost predicate AllLegal(goodScale: Bytes -> bool, ts: seq<Tensor>) {
    forall i :: 0 <= i < |ts| ==> Legal(goodScale, ts[i])
  }

  ghost predicate AllRecovered(goodScale: Bytes -> bool, f: Bytes, ts: seq<Tensor>, vs: seq<View>)
    requires AllLegal(goodScale, ts)
  {
    |vs| == |ts| && forall i :: 0 <= i < |ts| ==> Recovers(goodScale, f, ts[i], vs[i])
  }

  /** Reading `ts` back from `p` on gives all of it and stops where it was written to. */
  ghost predicate RoundTripped(goodScale: Bytes -> bool, base: nat, f: Bytes, p: nat, ts: seq<Tensor>)
    requires AllLegal(goodScale, ts)
  {
    var r := ReadAll(goodScale, base, f, p, |ts|);
    r.Some? && EndOf(p, r.value) == p + |ExportAll(goodScale, ts)| && AllRecovered(goodScale, f, ts, r.value)
  }

  lemma RoundTrippedCons(goodScale: Bytes -> bool, base: nat, f: Bytes, p: nat, ts: seq<Tensor>, v: View)
    requires AllLegal(goodScale, ts) && ts != [] && AllLegal(goodScale, ts[1..])
    requires Read(goodScale, base, f, p) == Some(v) && Recovers(goodScale, f, ts[0], v)
    requires v.next == p + |Export(goodScale, ts[0])| && RoundTripped(goodScale, base, f, v.next, ts[1..])
    ensures RoundTripped(goodScale, base, f, p, ts)
  {
    var vs := ReadAll(goodScale, base, f, v.next, |ts| - 1).value;
    ReadAllCons(goodScale, base, f, p, |ts|, v, vs);
    assert ExportAll(goodScale, ts) == Export(goodScale, ts[0]) + ExportAll(goodScale, ts[1..]);
    RecoveredCons(goodScale, f, ts, v, vs);
  }

  lemma ReadAllCons(goodScale: Bytes -> bool, base: nat, f: Bytes, p: nat, n: nat, v: View, vs: seq<View>)
    requires n > 0 && Read(goodScale, base, f, p) == Some(v) && ReadAll(goodScale, base, f, v.next, n - 1) == Some(vs)
    ensures ReadAll(goodScale, base, f, p, n) == Some([v] + vs)
    ensures EndOf(p, [v] + vs) == EndOf(v.next, vs)
  { }

  lemma RecoveredCons(goodScale: Bytes -> bool, f: Bytes, ts: seq<Tensor>, v: View, vs: seq<View>)
    requires AllLegal(goodScale, ts) && ts != [] && AllLegal(goodScale, ts[1..])
    requires Recovers(goodScale, f, ts[0], v) && AllRecovered(goodScale, f, ts[1..], vs)
    ensures AllRecovered(goodScale, f, ts, [v] + vs)
  {
    forall i | 0 <= i < |ts| ensures Recovers(goodScale, f, ts[i], ([v] + vs)[i]) {
      if i > 0 { assert ts[i] == ts[1..][i - 1]; }
    }
  }

  /** Every tensor of an exported file is recovered, and exactly the bytes written are consumed. */
  lemma {:induction false} FileRoundTrip(goodScale: Bytes -> bool, base: nat, f: Bytes, p: nat, ts: seq<Tensor>)
    requires AllLegal(goodScale, ts) && Mapped(base, f) && Occurs(f, p, ExportAll(goodScale, ts))
    ensures RoundTripped(goodScale, base, f, p, ts)
    decreases |ts|
  {
    if ts == [] {
      NothingWritten(goodScale, base, f, p);
    } else {
      FirstPiece(goodScale, f, p, ts);
      TensorRoundTrip(goodScale, base, f, p, ts[0]);
      var v := Read(goodScale, base, f, p).value;
      FileRoundTrip(goodScale, base, f, v.next, ts[1..]);
      RoundTrippedCons(goodScale, base, f, p, ts, v);
    }
  }

  lemma NothingWritten(goodScale: Bytes -> bool, base: nat, f: Bytes, p: nat)
    ensures RoundTripped(goodScale, base, f, p, [])
  { }

  lemma FirstPiece(goodScale: Bytes -> bool, f: Bytes, p: nat, ts: seq<Tensor>)
    requires AllLegal(goodScale, ts) && ts != [] && Occurs(f, p, ExportAll(goodScale, ts))
    ensures AllLegal(goodScale, ts[1..]) && Occurs(f, p, Export(goodScale, ts[0]))
    ensures Occurs(f, p + |Export(goodScale, ts[0])|, ExportAll(goodScale, ts[1..]))
  {
    Pieces(f, p, Export(goodScale, ts[0]), ExportAll(goodScale, ts[1..]));
  }

  // ---------------------------------------------------------------- the reader, step by step

  /** The overflow test before each multiplication. */
  lemma DivisionTest(total: nat, d: nat, max: nat)
    requires d >= 1
    ensures total > max / d <==> total * d > max
  {
    var q := max / d;
    assert q * d <= max < q * d + d;
    if total > q {
      TimesMonotone(q + 1, total, d);
      assert (q + 1) * d == q * d + d;
    } else {
      TimesMonotone(total, q, d);
    }
  }

  /** A product that has overflowed stays too large. */
  lemma {:induction false} ProductPrefix(ds: seq<int>, k: nat)
    requires LegalDims(ds) && k <= |ds|
    ensures Product(ds[..k]) <= Product(ds)
  {
    if k < |ds| {
      var n := |ds| - 1;
      ProductPrefix(ds[..n], k);
      assert ds[..n][..k] == ds[..k];
      ProductPositive(ds[..n]);
      var a, d := Product(ds[..n]), ds[n];
      assert a * (d - 1) >= 0 && a * (d - 1) == a * d - a;
    } else {
      assert ds[..k] == ds;
    }
  }

  /** After `i` dimensions: all legal so far, and their product has not overflowed. */
  ghost predicate DimsRead(ds: seq<int>, i: nat, total: nat, rows: int, cols: int) {
    i <= |ds| && LegalDims(ds[..i]) && total == Product(ds[..i]) <= SIZE_MAX && rows == First(ds[..i]) && cols == Second(ds[..i])
  }

  lemma DimsNext(ds: seq<int>, i: nat, total: nat, rows: int, cols: int)
    requires DimsRead(ds, i, total, rows, cols) && i < |ds|
    ensures !LegalDim(ds[i]) ==> !LegalDims(ds)
    ensures LegalDim(ds[i]) && total > SIZE_MAX / ds[i] ==> !(LegalDims(ds) && Product(ds) <= SIZE_MAX)
    ensures LegalDim(ds[i]) && total <= SIZE_MAX / ds[i] ==>
              DimsRead(ds, i + 1, IntTimes(total, ds[i]), if i == 0 then ds[i] else rows, if i == 1 then ds[i] else cols)
  {
    assert ds[..i + 1][..i] == ds[..i];
    if LegalDim(ds[i]) {
      DivisionTest(total, ds[i], SIZE_MAX);
      assert Product(ds[..i + 1]) == total * ds[i];
      if LegalDims(ds) { ProductPrefix(ds, i + 1); }
    }
  }

  /** The dimensions one by one: legal and without overflow, or failure. */
  method ReadDims(f: Bytes, p: nat, ndim: nat) returns (ok: bool, total: nat, rows: int, cols: int)
    requires p + 4 * ndim <= |f|
    ensures var ds := DimsAt(f, p, ndim);
            && (ok <==> LegalDims(ds) && Product(ds) <= SIZE_MAX)
            && (ok ==> total == Product(ds) && rows == First(ds) && cols == Second(ds))
  {
    ghost var ds := DimsAt(f, p, ndim);
    ok, total, rows, cols := true, 1, 0, 0;
    var i := 0;
    while i < ndim
      invariant ok && DimsRead(ds, i, total, rows, cols)
    {
      var d := Int32At(f, p + 4 * i);
      assert d == ds[i];
      DimsNext(ds, i, total, rows, cols);
      if d <= 0 || d > MAX_DIM { return false, 0, 0, 0; }
      if total > SIZE_MAX / d { return false, 0, 0, 0; }
      total := IntTimes(total, d);
      if i == 0 { rows := d; }
      if i == 1 { cols := d; }
      i := i + 1;
    }
    assert ds[..ndim] == ds;
  }

  method ReadPackedBody(goodScale: Bytes -> bool, f: Bytes, start: nat) returns (r: Option<View>)
    requires start + 4 <= |f|
    ensures r == ReadPacked(goodScale, f, start)
  {
    var ptr := start + 4;
    if ptr + 12 > |f| { return None; }
    var rows := Int32At(f, ptr);
    ptr := ptr + 4;
    var cols := Int32At(f, ptr);
    ptr := ptr + 4;
    var scale := f[ptr..ptr + 4];
    ptr := ptr + 4;
    if !goodScale(scale) { return None; }
    if rows <= 0 || rows > MAX_DIM || cols <= 0 || cols > MAX_DIM { return None; }
    var total := PackedBytes(rows, cols);
    if total > |f| - ptr { return None; }
    return Some(View(true, rows, cols, scale, IntTimes(rows, cols), ptr, ptr + total));
  }

  method ReadFloatsBody(base: nat, f: Bytes, start: nat) returns (r: Option<View>)
    requires start + 4 <= |f|
    ensures r == ReadFloats(base, f, start)
  {
    var ptr := start + 4;
    if ptr + 4 > |f| { return None; }
    var ndim := Int32At(f, ptr);
    ptr := ptr + 4;
    if ndim < 0 || ndim > 4 { return None; }
    if ptr + 4 * ndim > |f| { return None; }
    var ok, total, rows, cols := ReadDims(f, ptr, ndim);
    if !ok { return None; }
    ptr := ptr + 4 * ndim;
    return FloatsView(base, f, ptr, total, rows, cols);
  }

  /** The reader with its moving pointer. */
  method ReadTensor(goodScale: Bytes -> bool, base: nat, f: Bytes, start: nat) returns (r: Option<View>)
    requires start <= |f|
    ensures r == Read(goodScale, base, f, start)
  {
    if start + 4 > |f| { return None; }
    var kind := Int32At(f, start);
    if kind == 2 {
      r := ReadPackedBody(goodScale, f, start);
    } else {
      r := ReadFloatsBody(base, f, start);
    }
  }
}
