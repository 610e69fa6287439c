/**
 Characters of go-yaml.

 The scanner and the emitter test characters on raw UTF-8 bytes at an offset
 (go-yaml/yamlprivateh.go).  The rest of this project reasons about code points.
 This module defines both views and proves that they agree on every valid UTF-8
 text, so that nothing is lost by working on code points.
 */
module Utf8 {

  type Byte = b: int | 0 <= b < 256
  type Rune = r: int | 0 <= r <= 0x10FFFF && !(0xD800 <= r <= 0xDFFF)

  const LF: Rune := 0x0A
  const CR: Rune := 0x0D
  const TAB: Rune := 0x09
  const SPACE: Rune := 0x20
  const BOM: Rune := 0xFEFF

  // ----- The code point view -------------------------------------------------

  predicate IsPrintable(r: Rune) {
    || r == LF
    || 0x20 <= r <= 0x7E
    || 0xA0 <= r <= 0xD7FF
    || (0xE000 <= r <= 0xFFFD && r != BOM)
  }

  predicate IsAscii(r: Rune) {
    r <= 0x7F
  }

  predicate IsBreak(r: Rune) {
    r == CR || r == LF || r == 0x85 || r == 0x2028 || r == 0x2029
  }

  predicate IsBlank(r: Rune) {
    r == SPACE || r == TAB
  }

  predicate IsBlankZ(r: Rune) {
    IsBlank(r) || IsBreak(r) || r == 0
  }

  // ----- UTF-8 ---------------------------------------------------------------

  function EncodeRune(r: Rune): (b: seq<Byte>)
    ensures 1 <= |b| <= 4
  {
    if r <= 0x7F then [r]
    else if r <= 0x7FF then [0xC0 + r / 0x40, 0x80 + r % 0x40]
    else if r <= 0xFFFF then [0xE0 + r / 0x1000, 0x80 + r / 0x40 % 0x40, 0x80 + r % 0x40]
    else [0xF0 + r / 0x40000, 0x80 + r / 0x1000 % 0x40, 0x80 + r / 0x40 % 0x40, 0x80 + r % 0x40]
  }

  function Encode(s: seq<Rune>): seq<Byte> {
    if s == [] then [] else EncodeRune(s[0]) + Encode(s[1..])
  }

  lemma {:induction false} EncodeConcat(s: seq<Rune>, t: seq<Rune>)
    ensures Encode(s + t) == Encode(s) + Encode(t)
  {
    if s == [] {
      assert s + t == t;
    } else {
      assert (s + t)[0] == s[0] && (s + t)[1..] == s[1..] + t;
      EncodeConcat(s[1..], t);
    }
  }

  // ----- The byte view: the predicates of yamlprivateh.go ----------------------

  function Width(b: Byte): nat {
    if b / 0x80 == 0 then 1
    else if b / 0x20 == 6 then 2
    else if b / 0x10 == 14 then 3
    else if b / 0x08 == 30 then 4
    else 0
  }

  predicate PrintableAt(b: seq<Byte>, i: nat)
    requires i < |b| && i + Width(b[i]) <= |b| && Width(b[i]) > 0
  {
    || b[i] == 0x0A
    || 0x20 <= b[i] <= 0x7E
    || (b[i] == 0xC2 && b[i + 1] >= 0xA0)
    || 0xC2 < b[i] < 0xED
    || (b[i] == 0xED && b[i + 1] < 0xA0)
    || b[i] == 0xEE
    || (b[i] == 0xEF
        && !(b[i + 1] == 0xBB && b[i + 2] == 0xBF)
        && !(b[i + 1] == 0xBF && (b[i + 2] == 0xBE || b[i + 2] == 0xBF)))
  }

  predicate BreakAt(b: seq<Byte>, i: nat)
    requires i < |b| && i + Width(b[i]) <= |b|
  {
    || b[i] == 0x0D
    || b[i] == 0x0A
    || (b[i] == 0xC2 && b[i + 1] == 0x85)
    || (b[i] == 0xE2 && b[i + 1] == 0x80 && (b[i + 2] == 0xA8 || b[i + 2] == 0xA9))
  }

  /** The accumulation loop of the double-quoted writer (emitterc.go:1777-1794). */
  function DecodeAt(b: seq<Byte>, i: nat): (v: int)
    requires i < |b| && i + Width(b[i]) <= |b|
  {
    var w := Width(b[i]);
    var lead: int :=
      if w == 1 then b[i] else if w == 2 then b[i] % 0x20
      else if w == 3 then b[i] % 0x10 else b[i] % 0x08;
    if w <= 1 then lead
    else
      var v1: int := lead * 0x40 + b[i + 1] % 0x40;
      if w == 2 then v1
      else
        var v2: int := v1 * 0x40 + b[i + 2] % 0x40;
        if w == 3 then v2 else v2 * 0x40 + b[i + 3] % 0x40
  }

  /** What the byte tests answer about the code point r stored at offset i. */
  predicate SeesRune(b: seq<Byte>, i: nat, r: Rune) {
    && i < |b|
    && Width(b[i]) == |EncodeRune(r)|
    && i + Width(b[i]) <= |b|
    && DecodeAt(b, i) == r
    && PrintableAt(b, i) == IsPrintable(r)
    && BreakAt(b, i) == IsBreak(r)
    && (b[i] <= 0x7F) == IsAscii(r)
    && (b[i] == 0x20 || b[i] == 0x09) == IsBlank(r)
  }

  lemma OneByte(r: Rune)
    requires r <= 0x7F
    ensures SeesRune(EncodeRune(r), 0, r)
  {}

  lemma TwoBytes(r: Rune)
    requires 0x7F < r <= 0x7FF
    ensures SeesRune(EncodeRune(r), 0, r)
  {
    var e := EncodeRune(r);
    var hi, lo := r / 0x40, r % 0x40;
    assert r == hi * 0x40 + lo && 2 <= hi < 0x20;
    assert e[0] == 0xC0 + hi && e[1] == 0x80 + lo;
  }

  lemma ThreeFrom(r: Rune, hi: int, mid: int, lo: int, e: seq<Byte>)
    requires 0 <= hi < 0x10 && 0 <= mid < 0x40 && 0 <= lo < 0x40 && r == hi * 0x1000 + mid * 0x40 + lo > 0x7FF
    requires e == [0xE0 + hi, 0x80 + mid, 0x80 + lo]
    ensures Width(e[0]) == 3 && DecodeAt(e, 0) == r && PrintableAt(e, 0) == IsPrintable(r)
              && BreakAt(e, 0) == IsBreak(r)
  {}

  lemma ThreeBytes(r: Rune)
    requires 0x7FF < r <= 0xFFFF
    ensures SeesRune(EncodeRune(r), 0, r)
  {
    var e := EncodeRune(r);
    var hi, mid, lo := r / 0x1000, r / 0x40 % 0x40, r % 0x40;
    assert r == hi * 0x1000 + mid * 0x40 + lo && 0 <= hi < 0x10;
    assert e == [0xE0 + hi, 0x80 + mid, 0x80 + lo];
    ThreeFrom(r, hi, mid, lo, e);
    hide DecodeAt, PrintableAt, BreakAt, EncodeRune, Width, IsPrintable, IsBreak;
  }

  lemma FourDigits(r: int) returns (a: int, b: int, c: int, d: int)
    requires 0 <= r < 0x200000
    ensures a == r / 0x40000 && b == r / 0x1000 % 0x40 && c == r / 0x40 % 0x40 && d == r % 0x40
    ensures r == ((a * 0x40 + b) * 0x40 + c) * 0x40 + d
    ensures 0 <= a < 8
  {
    var q := r / 0x40;
    d, c := r % 0x40, q % 0x40;
    var p := q / 0x40;
    assert p == r / 0x1000;
    b, a := p % 0x40, p / 0x40;
    assert a == r / 0x40000;
  }

  lemma FourFrom(a: int, b: int, c: int, d: int, e: seq<Byte>)
    requires 0 <= a < 8 && 0 <= b < 0x40 && 0 <= c < 0x40 && 0 <= d < 0x40
    requires e == [0xF0 + a, 0x80 + b, 0x80 + c, 0x80 + d]
    ensures Width(e[0]) == 4
    ensures DecodeAt(e, 0) == ((a * 0x40 + b) * 0x40 + c) * 0x40 + d
    ensures !PrintableAt(e, 0) && !BreakAt(e, 0)
  {
  }

  lemma FourBytes(r: Rune)
    requires 0xFFFF < r
    ensures SeesRune(EncodeRune(r), 0, r)
  {
    var a, b, c, d := FourDigits(r);
    var e := EncodeRune(r);
    assert e == [0xF0 + a, 0x80 + b, 0x80 + c, 0x80 + d];
    FourFrom(a, b, c, d, e);
    assert !IsPrintable(r) && !IsBreak(r);
  }

  /** The byte tests look only at the bytes of the code point they are asked about. */
  lemma Embedded(pre: seq<Byte>, e: seq<Byte>, post: seq<Byte>, r: Rune)
    requires e == EncodeRune(r) && SeesRune(e, 0, r)
    ensures SeesRune(pre + e + post, |pre|, r)
  {
    var b, i := pre + e + post, |pre|;
    assert b[i] == e[0];
    assert |e| > 1 ==> b[i + 1] == e[1];
    assert |e| > 2 ==> b[i + 2] == e[2];
    assert |e| > 3 ==> b[i + 3] == e[3];
  }

  /**
   At the offset where a code point of a valid text starts, the byte tests see
   exactly that code point: its width, its value and its classes.
   */
  lemma BytesSeeRunes(before: seq<Rune>, r: Rune, after: seq<Rune>)
    ensures SeesRune(Encode(before + [r] + after), |Encode(before)|, r)
  {
    var e := EncodeRune(r);
    EncodeConcat(before + [r], after);
    EncodeConcat(before, [r]);
    assert Encode([r]) == e + Encode([]) == e;
    if r <= 0x7F {
      OneByte(r);
    } else if r <= 0x7FF {
      TwoBytes(r);
    } else if r <= 0xFFFF {
      ThreeBytes(r);
    } else {
      FourBytes(r);
    }
    Embedded(Encode(before), e, Encode(after), r);
  }

  /** The bytes determine the code points: nothing written can be read two ways. */
  lemma {:induction false} EncodeInjective(s: seq<Rune>, t: seq<Rune>)
    requires Encode(s) == Encode(t)
    ensures s == t
  {
    if s != [] && t != [] {
      assert [] + [s[0]] + s[1..] == s && [] + [t[0]] + t[1..] == t;
      BytesSeeRunes([], s[0], s[1..]);
      BytesSeeRunes([], t[0], t[1..]);
      assert Encode(s)[|EncodeRune(s[0])|..] == Encode(s[1..]);
      assert Encode(t)[|EncodeRune(t[0])|..] == Encode(t[1..]);
      EncodeInjective(s[1..], t[1..]);
    }
  }
}
