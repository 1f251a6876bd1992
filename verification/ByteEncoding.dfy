/**
 * The byte encoding of token strings: every byte has a printable code point, written in UTF-8
 * (section 3 of RFC 3629), and the way back.
 */
module ByteEncoding {
  import opened Ternary

  predicate Printable(b: int) { 33 <= b <= 126 || 161 <= b <= 172 || 174 <= b <= 255 }

  /** Unprintable bytes below `b`. */
  function Rank(b: nat): (r: nat)
    ensures r <= b
    decreases b
  {
    if b == 0 then 0 else Rank(b - 1) + if Printable(b - 1) then 0 else 1
  }

  /** The code point of a byte. */
  function CodePoint(b: Byte): (cp: nat) { if Printable(b) then b else 256 + Rank(b) }

  lemma {:induction false} RankUpTo(b: nat)
    requires b <= 256
    ensures b <= 33 ==> Rank(b) == b
    ensures 33 <= b <= 127 ==> Rank(b) == 33
    ensures 127 <= b <= 161 ==> Rank(b) == b - 94
    ensures 161 <= b <= 173 ==> Rank(b) == 67
    ensures b >= 174 ==> Rank(b) == 68
  {
    if b > 0 { RankUpTo(b - 1); }
  }

  /** The byte of a code point, -1 where there is none. */
  function ByteOf(cp: int): (b: int)
    ensures b == -1 || 0 <= b < 256
  {
    if Printable(cp) then cp
    else if 256 <= cp < 289 then cp - 256
    else if 289 <= cp < 323 then cp - 162
    else if cp == 323 then 173
    else -1
  }

  lemma CodePointBound(b: Byte)
    ensures CodePoint(b) <= 323 && CodePoint(b) > 0
  {
    RankUpTo(b);
  }

  /** The byte map is injective: `ByteOf` is its inverse, defined exactly on its values. */
  lemma ByteMap(b: Byte, cp: nat)
    ensures CodePoint(b) == cp <==> ByteOf(cp) == b
  {
    RankUpTo(b);
  }

  ghost predicate UnicodeUpTo(u: seq<int>, i: nat) {
    |u| == 256 && forall b: Byte :: u[b] == if b < i || Printable(b) then CodePoint(b) else -1
  }

  ghost predicate BytesUpTo(d: seq<int>, i: nat) {
    |d| == 512 && forall cp :: 0 <= cp < 512 ==> d[cp] == if ByteOf(cp) < i || Printable(cp) then ByteOf(cp) else -1
  }

  /** The maps are complete for the printable bytes and for all bytes below `i`. */
  ghost predicate AssignedUpTo(u: seq<int>, d: seq<int>, i: nat) { UnicodeUpTo(u, i) && BytesUpTo(d, i) }

  lemma AssignNext(u: seq<int>, d: seq<int>, i: nat)
    requires i < 256 && AssignedUpTo(u, d, i)
    ensures u[i] < 0 <==> !Printable(i)
    ensures !Printable(i) ==> 256 + Rank(i) < 512 && AssignedUpTo(u[i := 256 + Rank(i)], d[256 + Rank(i) := i], i + 1)
    ensures Printable(i) ==> AssignedUpTo(u, d, i + 1)
  {
    RankUpTo(i);
    ByteMap(i, CodePoint(i));
    forall cp: nat | cp < 512 && ByteOf(cp) == i ensures cp == CodePoint(i) { ByteMap(i, cp); }
  }

  /** The two global maps. */
  class Maps {
    const toUnicode: array<int>
    const toByte: array<int>

    ghost predicate Ready()
      reads toUnicode, toByte
    {
      && toUnicode.Length == 256 && toByte.Length == 512 && toUnicode != toByte
      && (forall b: Byte :: toUnicode[b] == CodePoint(b))
      && (forall cp :: 0 <= cp < 512 ==> toByte[cp] == ByteOf(cp))
    }

    constructor ()
      ensures Ready() && fresh(toUnicode) && fresh(toByte)
    {
      toUnicode := new int[256](_ => -1);
      toByte := new int[512](_ => -1);
      new;
      Printables(33, 127);
      Printables(161, 173);
      Printables(174, 256);
      Others();
      forall b: Byte ensures toUnicode[b] == CodePoint(b) { assert toUnicode[..][b] == CodePoint(b); }
      forall cp | 0 <= cp < 512 ensures toByte[cp] == ByteOf(cp) { assert toByte[..][cp] == ByteOf(cp); }
    }

    /** A range of bytes that stand for themselves. */
    method Printables(lo: nat, hi: nat)
      requires lo <= hi <= 256 && toUnicode.Length == 256 && toByte.Length == 512 && toUnicode != toByte
      modifies toUnicode, toByte
      ensures forall b :: 0 <= b < 256 ==> toUnicode[b] == if lo <= b < hi then b else old(toUnicode[b])
      ensures forall cp :: 0 <= cp < 512 ==> toByte[cp] == if lo <= cp < hi then cp else old(toByte[cp])
    {
      var i := lo;
      while i < hi
        invariant lo <= i <= hi
        invariant forall b :: 0 <= b < 256 ==> toUnicode[b] == if lo <= b < i then b else old(toUnicode[b])
        invariant forall cp :: 0 <= cp < 512 ==> toByte[cp] == if lo <= cp < i then cp else old(toByte[cp])
      {
        toUnicode[i] := i;
        toByte[i] := i;
        i := i + 1;
      }
    }

    /** The others take the code points from 256 on, in order. */
    method Others()
      requires toUnicode.Length == 256 && toByte.Length == 512 && toUnicode != toByte && AssignedUpTo(toUnicode[..], toByte[..], 0)
      modifies toUnicode, toByte
      ensures AssignedUpTo(toUnicode[..], toByte[..], 256)
    {
      var offset: nat := 256;
      var i: nat := 0;
      while i < 256
        invariant i <= 256 && offset == 256 + Rank(i) && AssignedUpTo(toUnicode[..], toByte[..], i)
      {
        RankUpTo(i);
        AssignNext(toUnicode[..], toByte[..], i);
        if toUnicode[i] < 0 {
          Assign(i, offset);
          offset := offset + 1;
        }
        i := i + 1;
      }
    }

    method Assign(i: nat, offset: nat)
      requires i < 256 <= offset < 512 && toUnicode.Length == 256 && toByte.Length == 512 && toUnicode != toByte
      modifies toUnicode, toByte
      ensures toUnicode[..] == old(toUnicode[..])[i := offset] && toByte[..] == old(toByte[..])[offset := i]
    {
      toUnicode[i] := offset;
      toByte[offset] := i;
    }
  }

  // ---------------------------------------------------------------- encoding

  /** One byte in one or two UTF-8 bytes. */
  function EncodeByte(b: Byte): (r: seq<Byte>)
    ensures 1 <= |r| <= 2
  {
    CodePointBound(b);
    var cp := CodePoint(b);
    if cp < 128 then [cp] else [192 + cp / 64, 128 + cp % 64]
  }

  function Encode(bs: seq<Byte>): (r: seq<Byte>)
    ensures |r| >= |bs|
  {
    if bs == [] then [] else EncodeByte(bs[0]) + Encode(bs[1..])
  }

  /** A code point and the bytes it takes; a stray byte stands for itself. */
  function DecodeUtf8(s: seq<Byte>): (r: (nat, nat))
    requires |s| > 0
    ensures 1 <= r.1 <= |s|
  {
    var c: int := s[0];
    var low1: int := if |s| >= 2 then s[1] % 64 else 0;
    var low2: int := if |s| >= 3 then s[2] % 64 else 0;
    if c < 128 then (c, 1)
    else if 192 <= c < 224 && |s| >= 2 then (c % 32 * 64 + low1, 2)
    else if 224 <= c < 240 && |s| >= 3 then (c % 16 * 4096 + low1 * 64 + low2, 3)
    else (c, 1)
  }

  /** A code point outside the map is cut to one byte. */
  function RawByte(cp: nat): Byte { if cp < 512 && ByteOf(cp) >= 0 then ByteOf(cp) else cp % 256 }

  function Decode(s: seq<Byte>): seq<Byte> {
    if s == [] then [] else [RawByte(DecodeUtf8(s).0)] + Decode(s[DecodeUtf8(s).1..])
  }

  // ---------------------------------------------------------------- the encoding is UTF-8

  /** `s` spells the code points `cps` in UTF-8, one byte below 128 and two bytes from 128 on. */
  ghost predicate Spells(s: seq<Byte>, cps: seq<int>)
    decreases |cps|
  {
    if cps == [] then s == []
    else if cps[0] < 128 then |s| >= 1 && s[0] == cps[0] && Spells(s[1..], cps[1..])
    else
      && |s| >= 2 && 194 <= s[0] <= 223 && 128 <= s[1] <= 191 && Spells(s[2..], cps[1..])
      && var lead: int, tail: int := s[0], s[1]; cps[0] == (lead - 192) * 64 + (tail - 128)
  }

  function CodePoints(bs: seq<Byte>): (cps: seq<int>)
    ensures |cps| == |bs| && forall i :: 0 <= i < |bs| ==> cps[i] == CodePoint(bs[i])
  {
    if bs == [] then [] else [CodePoint(bs[0])] + CodePoints(bs[1..])
  }

  lemma SpellsPrepend(b: Byte, rest: seq<Byte>, cps: seq<int>)
    requires Spells(rest, cps)
    ensures Spells(EncodeByte(b) + rest, [CodePoint(b)] + cps)
  {
    CodePointBound(b);
    var e, all := EncodeByte(b), [CodePoint(b)] + cps;
    assert (e + rest)[|e|..] == rest && all[1..] == cps && all[0] == CodePoint(b);
  }

  lemma {:induction false} EncodeSpells(bs: seq<Byte>)
    ensures Spells(Encode(bs), CodePoints(bs))
  {
    if bs != [] {
      EncodeSpells(bs[1..]);
      SpellsPrepend(bs[0], Encode(bs[1..]), CodePoints(bs[1..]));
    }
  }

  /** The whole table: unprintable bytes move to 256 and above, the others stand for themselves. */
  lemma CodePointTable(b: Byte)
    ensures CodePoint(b) == if b <= 32 then b + 256 else if 127 <= b <= 160 then b + 162 else if b == 173 then 323 else b
  {
    RankUpTo(b);
  }

  // ---------------------------------------------------------------- decoding inverts encoding

  /** Two- and three-byte sequences as UTF-8 writes them are read as their code points. */
  lemma DecodesUtf8(cp: nat, rest: seq<Byte>)
    requires 128 <= cp < 0x10000
    ensures cp < 0x800 ==> DecodeUtf8([192 + cp / 64, 128 + cp % 64] + rest) == (cp, 2)
    ensures cp >= 0x800 ==> DecodeUtf8([224 + cp / 4096, 128 + cp / 64 % 64, 128 + cp % 64] + rest) == (cp, 3)
  {
    if cp < 0x800 {
      var s := [192 + cp / 64, 128 + cp % 64] + rest;
      assert s[0] == 192 + cp / 64 && s[1] == 128 + cp % 64;
    } else {
      var s := [224 + cp / 4096, 128 + cp / 64 % 64, 128 + cp % 64] + rest;
      assert s[0] == 224 + cp / 4096 && s[1] == 128 + cp / 64 % 64 && s[2] == 128 + cp % 64;
      assert cp / 4096 * 4096 + cp / 64 % 64 * 64 + cp % 64 == cp;
    }
  }

  /** A code point the map knows is its byte, any other one is cut. */
  lemma RawByteIs(cp: nat)
    ensures (forall b: Byte :: CodePoint(b) == cp ==> RawByte(cp) == b)
    ensures (forall b: Byte :: CodePoint(b) != cp) ==> RawByte(cp) == cp % 256
  {
    forall b: Byte | CodePoint(b) == cp ensures RawByte(cp) == b {
      ByteMap(b, cp);
      CodePointBound(b);
    }
    if ByteOf(cp) >= 0 { ByteMap(ByteOf(cp), cp); }
  }

  /** A continuation byte, a lead without room and a byte from 240 on stand for themselves. */
  lemma DecodesStray(s: seq<Byte>)
    requires |s| > 0
    requires 128 <= s[0] < 192 || s[0] >= 240 || (s[0] >= 192 && |s| == 1) || (s[0] >= 224 && |s| == 2)
    ensures DecodeUtf8(s) == (s[0], 1)
  { }

  /** One encoded byte at the front is read back whole. */
  lemma DecodeFirst(b: Byte, rest: seq<Byte>)
    ensures DecodeUtf8(EncodeByte(b) + rest) == (CodePoint(b), |EncodeByte(b)|) && RawByte(CodePoint(b)) == b
  {
    var cp, s := CodePoint(b), EncodeByte(b) + rest;
    CodePointBound(b);
    RawByteIs(cp);
    if cp < 128 { assert s[0] == cp; } else { DecodesUtf8(cp, rest); }
  }

  lemma DecodePrepend(b: Byte, rest: seq<Byte>)
    ensures Decode(EncodeByte(b) + rest) == [b] + Decode(rest)
  {
    var s := EncodeByte(b) + rest;
    DecodeFirst(b, rest);
    assert s[|EncodeByte(b)|..] == rest;
  }

  /** Decoding inverts encoding, for every byte string. */
  lemma {:induction false} DecodeEncode(bs: seq<Byte>)
    ensures Decode(Encode(bs)) == bs
  {
    if bs != [] {
      DecodePrepend(bs[0], Encode(bs[1..]));
      DecodeEncode(bs[1..]);
    }
  }

  lemma {:induction false} EncodeConcat(a: seq<Byte>, b: seq<Byte>)
    ensures Encode(a + b) == Encode(a) + Encode(b)
  {
    if a == [] {
      assert a + b == b;
    } else {
      EncodeConcat(a[1..], b);
      assert (a + b)[0] == a[0] && (a + b)[1..] == a[1..] + b;
      Assoc(EncodeByte(a[0]), Encode(a[1..]), Encode(b));
    }
  }

  lemma Assoc(x: seq<Byte>, y: seq<Byte>, z: seq<Byte>)
    ensures (x + y) + z == x + (y + z)
  { }

  lemma FirstByte(a: Byte, x: seq<Byte>, b: Byte, y: seq<Byte>)
    requires EncodeByte(a) + x <= EncodeByte(b) + y
    ensures a == b && x <= y
  {
    DecodeFirst(a, x);
    DecodeFirst(b, y);
    var s, t := EncodeByte(a) + x, EncodeByte(b) + y;
    assert s[0] == t[0];
    assert |EncodeByte(a)| == 2 ==> s[1] == t[1];
    assert CodePoint(a) == CodePoint(b);
    ByteMap(a, CodePoint(a));
    ByteMap(b, CodePoint(a));
    assert s[|EncodeByte(a)|..] == x && t[|EncodeByte(a)|..] == y;
    assert t[..|s|] == s;
    assert y[..|x|] == x;
  }

  /** A prefix code: an encoding is a prefix of another only if the bytes are. */
  lemma {:induction false} PrefixCode(a: seq<Byte>, b: seq<Byte>)
    requires Encode(a) <= Encode(b)
    ensures a <= b
  {
    if a != [] {
      FirstByte(a[0], Encode(a[1..]), b[0], Encode(b[1..]));
      PrefixCode(a[1..], b[1..]);
    }
  }

  // ---------------------------------------------------------------- the loops

  lemma EncodeSnoc(text: seq<Byte>, i: nat)
    requires i < |text|
    ensures Encode(text[..i + 1]) == Encode(text[..i]) + EncodeByte(text[i])
  {
    EncodeConcat(text[..i], [text[i]]);
    assert Encode([text[i]]) == EncodeByte(text[i]) + Encode([]) == EncodeByte(text[i]);
    assert text[..i + 1] == text[..i] + [text[i]];
  }

  method EncodeText(m: Maps, text: seq<Byte>) returns (r: seq<Byte>)
    requires m.Ready()
    ensures r == Encode(text)
    ensures exists cps :: Spells(r, cps) && |cps| == |text| && forall i :: 0 <= i < |text| ==> cps[i] == m.toUnicode[text[i]]
  {
    r := [];
    for i := 0 to |text|
      invariant r == Encode(text[..i])
    {
      CodePointBound(text[i]);
      var cp := m.toUnicode[text[i]];
      r := r + if cp < 128 then [cp] else [192 + cp / 64, 128 + cp % 64];
      EncodeSnoc(text, i);
    }
    assert text[..|text|] == text;
    EncodeSpells(text);
  }

  method DecodeToken(m: Maps, token: seq<Byte>) returns (r: seq<Byte>)
    requires m.Ready()
    ensures r == Decode(token)
  {
    r := [];
    var i := 0;
    while i < |token|
      invariant i <= |token| && r + Decode(token[i..]) == Decode(token)
    {
      var res := DecodeUtf8(token[i..]);
      var b := LookUp(m, res.0);
      DecodeNext(token, i, r);
      r := r + [b];
      i := i + res.1;
    }
  }

  /** The byte of a code point, its low byte when the map has none. */
  method LookUp(m: Maps, cp: nat) returns (b: Byte)
    requires m.Ready()
    ensures b == RawByte(cp)
  {
    b := if cp < 512 && m.toByte[cp] >= 0 then m.toByte[cp] else cp % 256;
  }

  lemma DecodeNext(token: seq<Byte>, i: nat, r: seq<Byte>)
    requires i < |token|
    ensures var res := DecodeUtf8(token[i..]);
            i + res.1 <= |token| && r + Decode(token[i..]) == (r + [RawByte(res.0)]) + Decode(token[i + res.1..])
  {
    var res := DecodeUtf8(token[i..]);
    assert token[i..][res.1..] == token[i + res.1..];
  }
}
