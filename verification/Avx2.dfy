/**
 * The AVX2 row kernel, lane by lane: decode of 32 weights by broadcast, shift and mask, the
 * activation deinterleave, the unsigned offset, saturating and wrapping arithmetic.
 */
module Avx2 {
  import opened Ternary
  import Tmac

  const MAX_DIM := 0x10_0000

  // ---------------------------------------------------------------- intrinsics

  function Sat16(v: int): int { if v > 32767 then 32767 else if v < -32768 then -32768 else v }

  function Wrap16(v: int): int { (v + 32768) % 0x1_0000 - 32768 }

  function Wrap32(v: int): int { (v + 0x8000_0000) % 0x1_0000_0000 - 0x8000_0000 }

  /** What the instructions do to a sum that does not fit: the nearest value, or the value modulo the width. */
  lemma MachineArithmetic(v: int)
    ensures Sat16(v) == if v < -0x8000 then -0x8000 else if v > 0x7FFF then 0x7FFF else v
    ensures -0x8000 <= Wrap16(v) <= 0x7FFF && (v - Wrap16(v)) % 0x1_0000 == 0
    ensures -0x8000_0000 <= Wrap32(v) <= 0x7FFF_FFFF && (v - Wrap32(v)) % 0x1_0000_0000 == 0
  { }

  /** Little-endian value of a byte string. */
  function Little(bs: seq<Byte>): nat { if |bs| == 0 then 0 else bs[0] + 256 * Little(bs[1..]) }

  function ByteAt(v: nat, j: nat): Byte { if j == 0 then v % 256 else ByteAt(v / 256, j - 1) }

  /** Shift right by 2k bits. */
  function ShiftRight(v: nat, k: nat): nat
    requires k < 4
  {
    if k == 0 then v else if k == 1 then v / 4 else if k == 2 then v / 16 else v / 64
  }

  /** One 64-bit value in four lanes, lane `k` shifted right by 2k bits, as 32 bytes. */
  function BroadcastShift(v: nat): (r: seq<Byte>)
    ensures |r| == 32
  {
    seq(32, i requires 0 <= i < 32 => ByteAt(ShiftRight(v, i / 8), i % 8))
  }

  /** Mask to two bits, unsigned minimum with two, minus one. */
  function MaskMinSubByte(b: Byte): int {
    var f: int := b % 4;
    (if f > 2 then 2 else f) - 1
  }

  function MaskMinSub(bytes: seq<Byte>): (w: seq<int>)
    ensures |w| == |bytes|
  {
    seq(|bytes|, i requires 0 <= i < |bytes| => MaskMinSubByte(bytes[i]))
  }

  const DEINT_SHUF: seq<nat> := [0, 4, 8, 12, 1, 5, 9, 13, 2, 6, 10, 14, 3, 7, 11, 15]
  const DEINT_PERM: seq<nat> := [0, 4, 1, 5, 2, 6, 3, 7]

  /** Byte shuffle inside each 128-bit half. */
  function ShuffleHalves(x: seq<int>): (r: seq<int>)
    requires |x| == 32
    ensures |r| == 32
  {
    seq(32, i requires 0 <= i < 32 => x[i / 16 * 16 + DEINT_SHUF[i % 16]])
  }

  /** Permutation of eight 32-bit lanes. */
  function PermuteWords(x: seq<int>): (r: seq<int>)
    requires |x| == 32
    ensures |r| == 32
  {
    seq(32, i requires 0 <= i < 32 => x[DEINT_PERM[i / 4] * 4 + i % 4])
  }

  /** A signed byte with its top bit flipped, read as unsigned. */
  function FlipTop(x: int): int
    requires -128 <= x <= 127
  {
    var b := if x < 0 then x + 256 else x;
    if b < 128 then b + 128 else b - 128
  }

  function FlipAll(x: seq<int>): (r: seq<int>)
    requires Int8(x)
    ensures |r| == |x|
  {
    seq(|x|, i requires 0 <= i < |x| => FlipTop(x[i]))
  }

  /** Unsigned times signed, adjacent pairs added with saturation. */
  function Maddubs(u: seq<int>, w: seq<int>): (r: seq<int>)
    requires |u| == |w| == 32
    ensures |r| == 16
  {
    seq(16, i requires 0 <= i < 16 => Sat16(u[2 * i] * w[2 * i] + u[2 * i + 1] * w[2 * i + 1]))
  }

  function Sub16(a: seq<int>, b: seq<int>): (r: seq<int>)
    requires |a| == |b|
    ensures |r| == |a|
  {
    seq(|a|, i requires 0 <= i < |a| => Wrap16(a[i] - b[i]))
  }

  /** Adjacent 16-bit pairs added into 32 bits. */
  function PairSums(a: seq<int>): (r: seq<int>)
    requires |a| == 16
    ensures |r| == 8
  {
    seq(8, i requires 0 <= i < 8 => a[2 * i] + a[2 * i + 1])
  }

  function Add32(a: seq<int>, b: seq<int>): (r: seq<int>)
    requires |a| == |b|
    ensures |r| == |a|
  {
    seq(|a|, i requires 0 <= i < |a| => Wrap32(a[i] + b[i]))
  }

  /** Both halves added, then two rounds of adjacent adds. */
  function HorizontalSum(v: seq<int>): int
    requires |v| == 8
  {
    var s0, s1, s2, s3 := Wrap32(v[0] + v[4]), Wrap32(v[1] + v[5]), Wrap32(v[2] + v[6]), Wrap32(v[3] + v[7]);
    Wrap32(Wrap32(s0 + s1) + Wrap32(s2 + s3))
  }

  // ---------------------------------------------------------------- weights

  lemma ShiftThenDrop(v: nat, k: nat)
    requires k < 4
    ensures ShiftRight(v, k) / 256 == ShiftRight(v / 256, k)
  { }

  lemma LowBits(q: nat, t: nat)
    ensures (q + 4 * t) % 256 % 4 == q % 4
  { }

  lemma FirstField(b: Byte, rest: nat, k: nat)
    requires k < 4
    ensures ShiftRight(b + 256 * rest, k) % 256 % 4 == Field(b, k)
  {
    if k == 0 { LowBits(b, 64 * rest); }
    if k == 1 { assert (b + 256 * rest) / 4 == b / 4 + 64 * rest; LowBits(b / 4, 16 * rest); }
    if k == 2 { assert (b + 256 * rest) / 16 == b / 16 + 16 * rest; LowBits(b / 16, 4 * rest); }
    if k == 3 { assert (b + 256 * rest) / 64 == b / 64 + 4 * rest; LowBits(b / 64, rest); }
  }

  /** Whatever the bytes above shift in, the mask takes field `k` of byte `j`. */
  lemma {:induction false} ShiftedField(bs: seq<Byte>, k: nat, j: nat)
    requires k < 4 && j < |bs|
    ensures ByteAt(ShiftRight(Little(bs), k), j) % 4 == Field(bs[j], k)
  {
    if j == 0 {
      FirstField(bs[0], Little(bs[1..]), k);
    } else {
      ShiftThenDrop(Little(bs), k);
      assert Little(bs) / 256 == Little(bs[1..]);
      ShiftedField(bs[1..], k, j - 1);
    }
  }

  function Weights32(raw: seq<Byte>): (w: seq<int>)
    requires |raw| == 8
    ensures |w| == 32
  {
    MaskMinSub(BroadcastShift(Little(raw)))
  }

  /** Position 8k + j holds field `k` of byte `j`, decoded as the table does. */
  lemma WeightAt(raw: seq<Byte>, k: nat, j: nat)
    requires |raw| == 8 && k < 4 && j < 8
    ensures Weights32(raw)[8 * k + j] == Unpack(raw[j], k)
  {
    ShiftedField(raw, k, j);
    assert (8 * k + j) / 8 == k && (8 * k + j) % 8 == j;
  }

  // ---------------------------------------------------------------- activations

  function Deinterleave(x: seq<int>): (r: seq<int>)
    requires |x| == 32
    ensures |r| == 32
  {
    PermuteWords(ShuffleHalves(x))
  }

  lemma ShufAt(a: nat, b: nat)
    requires a < 4 && b < 4
    ensures DEINT_SHUF[4 * a + b] == 4 * b + a
  {
    assert a == 0 || a == 1 || a == 2 || a == 3;
    assert b == 0 || b == 1 || b == 2 || b == 3;
  }

  lemma PermAt(k: nat, h: nat)
    requires k < 4 && h < 2
    ensures DEINT_PERM[2 * k + h] == k + 4 * h
  {
    assert k == 0 || k == 1 || k == 2 || k == 3;
    assert h == 0 || h == 1;
  }

  /** Byte `b` of word `k` in half `h`, before and after. */
  lemma DeinterleaveIn(x: seq<int>, k: nat, h: nat, b: nat)
    requires |x| == 32 && k < 4 && h < 2 && b < 4
    ensures Deinterleave(x)[8 * k + 4 * h + b] == x[16 * h + 4 * b + k]
  {
    PermuteAt(ShuffleHalves(x), k, h, b);
    ShuffleAt(x, k, h, b);
  }

  lemma PermuteAt(x: seq<int>, k: nat, h: nat, b: nat)
    requires |x| == 32 && k < 4 && h < 2 && b < 4
    ensures PermuteWords(x)[8 * k + 4 * h + b] == x[16 * h + 4 * k + b]
  {
    WordParts(k, h, b);
    PermAt(k, h);
  }

  lemma ShuffleAt(x: seq<int>, k: nat, h: nat, b: nat)
    requires |x| == 32 && k < 4 && h < 2 && b < 4
    ensures ShuffleHalves(x)[16 * h + 4 * k + b] == x[16 * h + 4 * b + k]
  {
    WordParts(k, h, b);
    ShufAt(k, b);
  }

  lemma WordParts(k: nat, h: nat, b: nat)
    requires k < 4 && h < 2 && b < 4
    ensures var i, m := 8 * k + 4 * h + b, 16 * h + 4 * k + b;
            i / 4 == 2 * k + h && i % 4 == b && m / 16 == h && m % 16 == 4 * k + b
  { }

  /** Position 8k + j holds the activation of the weight decoded there. */
  lemma DeinterleaveAt(x: seq<int>, k: nat, j: nat)
    requires |x| == 32 && k < 4 && j < 8
    ensures Deinterleave(x)[8 * k + j] == x[4 * j + k]
  {
    DeinterleaveIn(x, k, j / 4, j % 4);
  }

  lemma FlipIsOffset(x: int)
    requires -128 <= x <= 127
    ensures FlipTop(x) == x + 128 && 0 <= FlipTop(x) < 256
  { }

  lemma DeinterleaveInt8(x: seq<int>)
    requires |x| == 32 && Int8(x)
    ensures Int8(Deinterleave(x))
  { }

  // ---------------------------------------------------------------- one step

  /** Offset product minus offset correction, summed in pairs. */
  function Products(x: seq<int>, raw: seq<Byte>): (r: seq<int>)
    requires |x| == 32 && Int8(x) && |raw| == 8
    ensures |r| == 8
  {
    DeinterleaveInt8(x);
    PairSums(Halves(Deinterleave(x), Weights32(raw)))
  }

  /** Neither pair sum saturates and the difference does not wrap: the offset cancels exactly. */
  lemma OffsetCancels(x0: int, x1: int, w0: int, w1: int)
    requires -128 <= x0 <= 127 && -128 <= x1 <= 127 && -1 <= w0 <= 1 && -1 <= w1 <= 1
    ensures Sat16(FlipTop(x0) * w0 + FlipTop(x1) * w1) == FlipTop(x0) * w0 + FlipTop(x1) * w1
    ensures Sat16(128 * w0 + 128 * w1) == 128 * w0 + 128 * w1
    ensures Wrap16(Sat16(FlipTop(x0) * w0 + FlipTop(x1) * w1) - Sat16(128 * w0 + 128 * w1)) == x0 * w0 + x1 * w1
  {
    FlipIsOffset(x0);
    FlipIsOffset(x1);
    assert (w0 == -1 || w0 == 0 || w0 == 1) && (w1 == -1 || w1 == 0 || w1 == 1);
  }

  /** Product of the weight in field `k` of byte `j` with its activation. */
  function Prod(x: seq<int>, raw: seq<Byte>, j: nat, k: nat): int
    requires |x| == 32 && |raw| == 8 && j < 8 && k < 4
  {
    Unpack(raw[j], k) * x[4 * j + k]
  }

  function LaneProduct(x: seq<int>, raw: seq<Byte>, m: nat): int
    requires |x| == 32 && |raw| == 8 && m < 8
  {
    var k, j := m / 2, m % 2 * 4;
    Prod(x, raw, j, k) + Prod(x, raw, j + 1, k) + Prod(x, raw, j + 2, k) + Prod(x, raw, j + 3, k)
  }

  /** The 16-bit lanes before the pairwise add. */
  function Halves(xd: seq<int>, w: seq<int>): (r: seq<int>)
    requires |xd| == |w| == 32 && Int8(xd)
    ensures |r| == 16
  {
    Sub16(Maddubs(FlipAll(xd), w), Maddubs(seq(32, _ => 128), w))
  }

  lemma HalfAt(xd: seq<int>, w: seq<int>, i: nat)
    requires |xd| == |w| == 32 && Int8(xd) && i < 16 && -1 <= w[2 * i] <= 1 && -1 <= w[2 * i + 1] <= 1
    ensures Halves(xd, w)[i] == xd[2 * i] * w[2 * i] + xd[2 * i + 1] * w[2 * i + 1]
  {
    OffsetCancels(xd[2 * i], xd[2 * i + 1], w[2 * i], w[2 * i + 1]);
    var xu := FlipAll(xd);
    assert Maddubs(xu, w)[i] == Sat16(FlipTop(xd[2 * i]) * w[2 * i] + FlipTop(xd[2 * i + 1]) * w[2 * i + 1]);
    assert Maddubs(seq(32, _ => 128), w)[i] == Sat16(128 * w[2 * i] + 128 * w[2 * i + 1]);
  }

  lemma ProdAt(x: seq<int>, raw: seq<Byte>, k: nat, j: nat)
    requires |x| == 32 && |raw| == 8 && k < 4 && j < 8
    ensures Deinterleave(x)[8 * k + j] * Weights32(raw)[8 * k + j] == Prod(x, raw, j, k)
    ensures -1 <= Weights32(raw)[8 * k + j] <= 1
  {
    DeinterleaveAt(x, k, j);
    WeightAt(raw, k, j);
  }

  lemma PairAt(x: seq<int>, raw: seq<Byte>, k: nat, h: nat)
    requires |x| == 32 && Int8(x) && |raw| == 8 && k < 4 && h < 4 && Int8(Deinterleave(x))
    ensures Halves(Deinterleave(x), Weights32(raw))[4 * k + h] == Prod(x, raw, 2 * h, k) + Prod(x, raw, 2 * h + 1, k)
  {
    var i := 4 * k + h;
    ProdAt(x, raw, k, 2 * h);
    ProdAt(x, raw, k, 2 * h + 1);
    assert 2 * i == 8 * k + 2 * h;
    HalfAt(Deinterleave(x), Weights32(raw), i);
  }

  lemma LaneAt(x: seq<int>, raw: seq<Byte>, m: nat)
    requires |x| == 32 && Int8(x) && |raw| == 8 && m < 8
    ensures Products(x, raw)[m] == LaneProduct(x, raw, m)
  {
    var k, j := m / 2, m % 2 * 4;
    DeinterleaveInt8(x);
    PairAt(x, raw, k, m % 2 * 2);
    PairAt(x, raw, k, m % 2 * 2 + 1);
    assert 2 * m == 4 * k + m % 2 * 2;
  }

  lemma ProdBound(x: seq<int>, raw: seq<Byte>, j: nat, k: nat)
    requires |x| == 32 && Int8(x) && |raw| == 8 && j < 8 && k < 4
    ensures -128 <= Prod(x, raw, j, k) <= 128
  {
    var w := Unpack(raw[j], k);
    assert w == -1 || w == 0 || w == 1;
  }

  lemma LaneBound(x: seq<int>, raw: seq<Byte>, m: nat)
    requires |x| == 32 && Int8(x) && |raw| == 8 && m < 8
    ensures -512 <= LaneProduct(x, raw, m) <= 512
  {
    var k, j := m / 2, m % 2 * 4;
    ProdBound(x, raw, j, k);
    ProdBound(x, raw, j + 1, k);
    ProdBound(x, raw, j + 2, k);
    ProdBound(x, raw, j + 3, k);
  }

  function LaneTotal(v: seq<int>): int
    requires |v| == 8
  {
    v[0] + v[1] + v[2] + v[3] + v[4] + v[5] + v[6] + v[7]
  }

  function ByteDot(x: seq<int>, raw: seq<Byte>, j: nat): int
    requires |x| == 32 && |raw| == 8 && j < 8
  {
    Prod(x, raw, j, 0) + Prod(x, raw, j, 1) + Prod(x, raw, j, 2) + Prod(x, raw, j, 3)
  }

  /** The eight lanes together are the eight bytes together. */
  lemma LanesAreBytes(x: seq<int>, raw: seq<Byte>, v: seq<int>)
    requires |x| == 32 && |raw| == 8 && |v| == 8 && forall m :: 0 <= m < 8 ==> v[m] == LaneProduct(x, raw, m)
    ensures LaneTotal(v) == ByteDot(x, raw, 0) + ByteDot(x, raw, 1) + ByteDot(x, raw, 2) + ByteDot(x, raw, 3)
                            + ByteDot(x, raw, 4) + ByteDot(x, raw, 5) + ByteDot(x, raw, 6) + ByteDot(x, raw, 7)
  { }
}
