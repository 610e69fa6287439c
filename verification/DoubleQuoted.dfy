/**
 The double-quoted writer (go-yaml/emitterc.go:1761-1880): every text, whatever its
 characters, is read back unchanged, for every width and every indentation.
 */
module DoubleQuoted {
  import opened Utf8
  import opened Wrappers
  import opened ScalarScanner
  import opened TextWriter
  import opened ScalarWriter

  // ----- Escapes -------------------------------------------------------------------

  /** The one-letter escapes. */
  function ShortEscape(r: Rune): Option<Rune> {
    match r
    case 0x00 => Some(0x30)
    case 0x07 => Some(0x61)
    case 0x08 => Some(0x62)
    case 0x09 => Some(0x74)
    case 0x0A => Some(0x6E)
    case 0x0B => Some(0x76)
    case 0x0C => Some(0x66)
    case 0x0D => Some(0x72)
    case 0x1B => Some(0x65)
    case 0x22 => Some(0x22)
    case 0x5C => Some(0x5C)
    case 0x85 => Some(0x4E)
    case 0xA0 => Some(0x5F)
    case 0x2028 => Some(0x4C)
    case 0x2029 => Some(0x50)
    case _ => None
  }

  function HexLetter(r: Rune): Rune {
    if r <= 0xFF then 0x78 else if r <= 0xFFFF then 0x75 else 0x55
  }

  function HexDigit(d: nat): Rune
    requires d < 16
  {
    if d < 10 then d + 0x30 else d + 0x41 - 10
  }

  /** The n hexadecimal digits of v, most significant first. */
  function HexText(v: nat, n: nat): (t: seq<Rune>)
    ensures |t| == n
  {
    if n == 0 then [] else HexText(v / 16, n - 1) + [HexDigit(v % 16)]
  }

  function EscapeText(r: Rune): seq<Rune> {
    match ShortEscape(r)
    case Some(c) => [0x5C, c]
    case None => [0x5C, HexLetter(r)] + HexText(r, CodeLength(HexLetter(r)))
  }

  function Pow16(n: nat): (p: nat)
    ensures p > 0
  {
    if n == 0 then 1 else 16 * Pow16(n - 1)
  }

  lemma StepDigit(s: seq<Rune>, left: nat, v: nat)
    requires left > 0
    ensures Step(Double, Hex(s, left, v / 16), HexDigit(v % 16)) ==
            if left > 1 then Hex(s, left - 1, v) else if IsScalarValue(v) then Text(s + [v]) else Bad
  {
    assert HexValue(HexDigit(v % 16)) == Some(v % 16);
  }

  lemma {:induction false} ScannedDigits(s: seq<Rune>, left: nat, u: nat, m: nat)
    requires m < left && u < Pow16(m)
    ensures Scanned(Double, Hex(s, left, 0), HexText(u, m)) == Hex(s, left - m, u)
  {
    hide Step;
    if m > 0 {
      assert u / 16 < Pow16(m - 1);
      ScannedDigits(s, left, u / 16, m - 1);
      assert HexText(u, m)[..m - 1] == HexText(u / 16, m - 1);
      StepDigit(s, left - (m - 1), u);
    }
  }

  lemma ScannedCode(s: seq<Rune>, r: Rune, n: nat)
    requires n > 0 && r < Pow16(n)
    ensures Scanned(Double, Hex(s, n, 0), HexText(r, n)) == Text(s + [r])
  {
    hide Step, Scanned;
    assert r / 16 < Pow16(n - 1);
    ScannedDigits(s, n, r / 16, n - 1);
    assert HexText(r, n) == HexText(r / 16, n - 1) + [HexDigit(r % 16)];
    ScannedConcat(Double, Hex(s, n, 0), HexText(r / 16, n - 1), [HexDigit(r % 16)]);
    Scanned1(Double, Hex(s, 1, r / 16), HexDigit(r % 16));
    StepDigit(s, 1, r);
  }

  lemma FitsCode(r: Rune)
    ensures r < Pow16(CodeLength(HexLetter(r)))
  {
    assert Pow16(2) == 0x100;
    assert Pow16(4) == 16 * Pow16(3) == 256 * Pow16(2);
    assert Pow16(6) == 16 * Pow16(5) == 256 * Pow16(4);
    assert Pow16(8) == 16 * Pow16(7) == 256 * Pow16(6);
  }

  lemma CodeReads(sc: Scan, r: Rune)
    requires sc.Text? || sc.Blanks? || (sc.Breaks? && sc.col > 0)
    requires ShortEscape(r).None?
    ensures Scanned(Double, sc, EscapeText(r)) == Text(Join(sc) + [r])
  {
    var s, x := Join(sc), HexLetter(r);
    var n := CodeLength(x);
    FitsCode(r);
    ScannedConcat(Double, sc, [0x5C, x], HexText(r, n));
    Scanned2(Double, sc, 0x5C, x);
    assert Scanned(Double, sc, [0x5C, x]) == Hex(s, n, 0);
    ScannedCode(s, r, n);
  }

  lemma ShortReads(sc: Scan, r: Rune, c: Rune)
    requires sc.Text? || sc.Blanks? || (sc.Breaks? && sc.col > 0)
    requires ShortEscape(r) == Some(c)
    ensures Scanned(Double, sc, [0x5C, c]) == Text(Join(sc) + [r])
  {
    hide Scanned;
    Scanned2(Double, sc, 0x5C, c);
    assert Unescape(c) == Some(r) && CodeLength(c) == 0 && !IsBreak(c);
  }

  /** Every escape reads back as the character it stands for. */
  lemma EscapeReads(sc: Scan, r: Rune)
    requires sc.Text? || sc.Blanks? || (sc.Breaks? && sc.col > 0)
    ensures Scanned(Double, sc, EscapeText(r)) == Text(Join(sc) + [r])
  {
    match ShortEscape(r) {
      case Some(c) => ShortReads(sc, r, c);
      case None => CodeReads(sc, r);
    }
  }

  predicate AllAscii(v: seq<Rune>) {
    forall i :: 0 <= i < |v| ==> IsAscii(v[i])
  }

  lemma {:induction false} HexOnOneLine(v: nat, n: nat)
    ensures forall i :: 0 <= i < n ==> 0x30 <= HexText(v, n)[i] <= 0x39 || 0x41 <= HexText(v, n)[i] <= 0x46
  {
    if n > 0 {
      HexOnOneLine(v / 16, n - 1);
    }
  }

  /** An escape is ASCII on one line, whatever it stands for. */
  lemma EscapeOnOneLine(r: Rune)
    ensures NoBreak(EscapeText(r)) && AllAscii(EscapeText(r))
  {
    HexOnOneLine(r, CodeLength(HexLetter(r)));
  }

  /**
   An escape is as short as the scanner allows: one letter if it knows one for the character (the
   space and the apostrophe, which have one too, are never escaped for themselves), and otherwise the
   fewest digits that hold it.
   */
  lemma EscapeIsShortest(r: Rune, c: Rune)
    ensures r != SPACE && r != 0x27 && Unescape(c) == Some(r) ==> |EscapeText(r)| == 2
    ensures ShortEscape(r).None? ==>
              var n := CodeLength(HexLetter(r)); |EscapeText(r)| == 2 + n && (n == 2 || n == 4 || n == 8)
    ensures ShortEscape(r).None? && CodeLength(c) > 0 && r < Pow16(CodeLength(c)) ==>
              |EscapeText(r)| <= 2 + CodeLength(c)
  {
    assert Pow16(2) == 0x100;
    assert Pow16(4) == 16 * Pow16(3) == 256 * Pow16(2);
  }

  /** v shifted right by k hexadecimal digits. */
  function Shifted(v: nat, k: nat): nat {
    if k == 0 then v else Shifted(v, k - 1) / 16
  }

  method WriteHex(w: Writer, v: nat, n: nat) returns (ok: bool)
    requires w.Valid()
    modifies w`bufferPos, w`delivered, w`failed, w`text, w`column, w.buffer
    ensures w.Valid()
    ensures ok ==> w.text == old(w.text) + HexText(v, n) && w.column == old(w.column) + n
    ensures !ok ==> w.failed
  {
    var k := n;
    ok := true;
    assert HexText(Shifted(v, n), 0) == [];
    while k > 0
      invariant 0 <= k <= n && ok && w.Valid()
      invariant w.text == old(w.text) + HexText(Shifted(v, k), n - k)
      invariant w.column == old(w.column) + n - k
    {
      k := k - 1;
      ok := w.Put(HexDigit(Shifted(v, k) % 16));
      if !ok { return; }
    }
  }

  method WriteCode(w: Writer, r: Rune) returns (ok: bool)
    requires w.Valid()
    modifies w`bufferPos, w`delivered, w`failed, w`text, w`column, w.buffer
    ensures w.Valid()
    ensures ok ==> w.text == old(w.text) + ([HexLetter(r)] + HexText(r, CodeLength(HexLetter(r))))
    ensures ok ==> w.column > old(w.column)
    ensures !ok ==> w.failed
  {
    hide Encode, HexText;
    var x := HexLetter(r);
    ok := w.Put(x);
    if !ok { return; }
    ok := WriteHex(w, r, CodeLength(x));
  }

  method WriteEscape(w: Writer, r: Rune) returns (ok: bool)
    requires w.Valid()
    modifies w`bufferPos, w`delivered, w`failed, w`text, w`column, w.buffer
    ensures w.Valid()
    ensures ok ==> w.text == old(w.text) + EscapeText(r) && w.column > old(w.column)
    ensures !ok ==> w.failed
  {
    hide Encode, HexText, ShortEscape;
    ok := w.Put(0x5C);
    if !ok { return; }
    match ShortEscape(r) {
      case Some(c) => ok := w.Put(c);
      case None => ok := WriteCode(w, r);
    }
  }

  // ----- The writer ------------------------------------------------------------------

  /**
   Characters written as escapes.  The byte-order-mark test of the source looks at the
   start of the value, not at the current character, so a leading mark escapes everything.
   */
  predicate MustEscape(unicode: bool, v: seq<Rune>, i: nat)
    requires i < |v|
  {
    || !IsPrintable(v[i]) || (!unicode && !IsAscii(v[i])) || v[0] == BOM || IsBreak(v[i])
    || v[i] == 0x22 || v[i] == 0x5C
  }

  /** The first i characters between double quotes, as far as no line is folded. */
  function Escaped(unicode: bool, v: seq<Rune>, i: nat): seq<Rune>
    requires i <= |v|
  {
    if i == 0 then []
    else Escaped(unicode, v, i - 1) + if MustEscape(unicode, v, i - 1) then EscapeText(v[i - 1]) else [v[i - 1]]
  }

  lemma EscapedMore(head: seq<Rune>, unicode: bool, v: seq<Rune>, i: nat)
    requires i < |v|
    ensures head + Escaped(unicode, v, i + 1) ==
              head + Escaped(unicode, v, i) + if MustEscape(unicode, v, i) then EscapeText(v[i]) else [v[i]]
  {}

  lemma NoneEscaped(unicode: bool, v: seq<Rune>)
    ensures Escaped(unicode, v, 0) == []
  {}

  /** Printable text without quotes, backslashes and breaks is written as it stands, unless it must be made ASCII. */
  lemma {:induction false} EscapedAsItStands(unicode: bool, v: seq<Rune>, i: nat)
    requires i <= |v| && AllPrintable(v) && NoBreak(v) && (unicode || AllAscii(v))
    requires forall j :: 0 <= j < |v| ==> v[j] != 0x22 && v[j] != 0x5C
    ensures Escaped(unicode, v, i) == v[..i]
  {
    if i > 0 {
      EscapedAsItStands(unicode, v, i - 1);
      assert IsPrintable(v[0]) && IsPrintable(v[i - 1]);
      assert v[..i] == v[..i - 1] + [v[i - 1]];
    }
  }

  /** Where only ASCII is allowed, only ASCII is written. */
  lemma {:induction false} EscapedIsAscii(v: seq<Rune>, i: nat)
    requires i <= |v|
    ensures AllAscii(Escaped(false, v, i))
  {
    if i > 0 {
      EscapedIsAscii(v, i - 1);
      EscapeOnOneLine(v[i - 1]);
      hide EscapeText;
    }
  }

  ghost predicate DoubleInv(sc: Scan, v: seq<Rune>, i: nat, spaces: bool)
    requires i <= |v|
  {
    && Join(sc) == v[..i]
    && (sc.Text? || sc.Blanks? || sc.Breaks? || sc.Escape?)
    && (!spaces ==> sc.Text?)
    && (sc.Breaks? ==> sc.col > 0 && i < |v| && v[i] != SPACE)
    && (sc.Escape? ==> i < |v| && v[i] == SPACE && v[0] != BOM)
  }

  lemma DoubleSpace(sc: Scan, v: seq<Rune>, i: nat, spaces: bool)
    requires i < |v| && DoubleInv(sc, v, i, spaces) && v[i] == SPACE
    ensures DoubleInv(Step(Double, sc, SPACE), v, i + 1, true)
  {
    assert v[..i + 1] == v[..i] + [SPACE];
  }

  /** What replaces the first of a run of spaces when the line is too long. */
  function FoldText(lb: LineBreak, indent: nat, guard: bool): seq<Rune> {
    BreakRunes(lb) + Spaces(indent) + (if guard then [0x5C] else [])
  }

  lemma DoubleFold(sc: Scan, lb: LineBreak, v: seq<Rune>, i: nat, indent: nat)
    requires i + 1 < |v| && DoubleInv(sc, v, i, false) && v[i] == SPACE && v[0] != BOM && indent > 0
    ensures DoubleInv(Scanned(Double, sc, FoldText(lb, indent, v[i + 1] == SPACE)), v, i + 1, true)
  {
    ScannedFold(Double, sc, lb, indent);
    assert v[..i + 1] == v[..i] + [SPACE];
    if v[i + 1] == SPACE {
      ScannedConcat(Double, sc, BreakRunes(lb) + Spaces(indent), [0x5C]);
      Scanned1(Double, Scanned(Double, sc, BreakRunes(lb) + Spaces(indent)), 0x5C);
    } else {
      assert FoldText(lb, indent, false) == BreakRunes(lb) + Spaces(indent);
    }
  }

  lemma DoubleChar(sc: Scan, unicode: bool, v: seq<Rune>, i: nat, spaces: bool)
    requires i < |v| && DoubleInv(sc, v, i, spaces)
    requires !MustEscape(unicode, v, i) && v[i] != SPACE
    ensures Step(Double, sc, v[i]) == Text(v[..i + 1])
  {
    assert v[..i + 1] == v[..i] + [v[i]];
  }

  lemma DoubleStart(v: seq<Rune>)
    ensures DoubleInv(Scanned(Double, Text([]), []), v, 0, false)
  {}

  lemma DoubleText(v: seq<Rune>, i: nat)
    requires i <= |v|
    ensures DoubleInv(Text(v[..i]), v, i, false)
  {}

  lemma DoubleEnd(sc: Scan, v: seq<Rune>, spaces: bool)
    requires DoubleInv(sc, v, |v|, spaces)
    ensures (sc.Text? || sc.Blanks? || sc.Breaks?) && Join(sc) == v
  {
    assert v[..|v|] == v;
  }

  ghost predicate DoubleLoop(w: Writer, indent: int, head: seq<Rune>, v: seq<Rune>, i: nat, spaces: bool)
    reads w, w.buffer
  {
    && w.Valid() && w.footIndent == -1
    && i <= |v|
    && head <= w.text
    && DoubleInv(Seen(w, Double, |head|), v, i, spaces)
    && (w.indention ==> w.column > indent || (spaces && w.column == indent))
  }

  method PutFold(w: Writer, indent: int, guard: bool) returns (ok: bool)
    requires w.Valid() && w.footIndent == -1 && indent > 0 && w.MustBreak(indent)
    modifies w`bufferPos, w`delivered, w`failed, w`text, w`column, w`indention, w`whitespace, w`footIndent, w.buffer
    ensures ok ==> w.footIndent == -1
    ensures w.Valid()
    ensures ok ==> w.text == old(w.text) + FoldText(w.lineBreak, indent, guard) && w.column >= indent
    ensures !ok ==> w.failed
  {
    ok := w.WriteIndent(indent);
    if !ok { return; }
    if guard {
      ok := w.Put(0x5C);
    }
  }

  method DoubleQuotedSpace(w: Writer, indent: int, v: seq<Rune>, i: nat, allowBreaks: bool, spaces: bool,
    ghost head: seq<Rune>)
    returns (ok: bool)
    requires DoubleLoop(w, indent, head, v, i, spaces) && indent > 0
    requires i < |v| && v[i] == SPACE && v[0] != BOM
    modifies w`bufferPos, w`delivered, w`failed, w`text, w`column, w`indention, w`whitespace, w`footIndent, w.buffer
    ensures ok ==> w.footIndent == -1
    ensures w.Valid()
    ensures ok ==> head <= w.text && DoubleInv(Seen(w, Double, |head|), v, i + 1, true)
    ensures ok ==> (w.indention ==> w.column >= indent)
    ensures ok ==>
              var fold := allowBreaks && !spaces && old(w.column) > w.bestWidth && 0 < i < |v| - 1;
              w.text == old(w.text) + if fold then FoldText(w.lineBreak, indent, v[i + 1] == SPACE) else [SPACE]
    ensures ok && !allowBreaks && OneLine(old(w.text), |head|) ==> OneLine(w.text, |head|)
    ensures !ok ==> w.failed
  {
    hide Scanned, Encode, Join, EscapeText;
    ghost var sc, was := Seen(w, Double, |head|), w.text;
    if allowBreaks && !spaces && w.column > w.bestWidth && 0 < i < |v| - 1 {
      ok := PutFold(w, indent, v[i + 1] == SPACE);
      if !ok { return; }
      DoubleFold(sc, w.lineBreak, v, i, indent);
      SeenMore(Double, |head|, was, FoldText(w.lineBreak, indent, v[i + 1] == SPACE));
    } else {
      ok := w.Put(v[i]);
      if !ok { return; }
      DoubleSpace(sc, v, i, spaces);
      SeenMore(Double, |head|, was, [SPACE]);
      if OneLine(was, |head|) { OneLineMore(was, |head|, [SPACE]); }
      Scanned1(Double, sc, SPACE);
    }
  }

  method DoubleQuotedContent(w: Writer, v: seq<Rune>, i: nat, spaces: bool, ghost head: seq<Rune>, ghost indent: int)
    returns (ok: bool)
    requires DoubleLoop(w, indent, head, v, i, spaces)
    requires i < |v| && (v[i] != SPACE || v[0] == BOM)
    modifies w`bufferPos, w`delivered, w`failed, w`text, w`column, w.buffer
    ensures w.Valid()
    ensures ok ==> head <= w.text && Seen(w, Double, |head|) == Text(v[..i + 1]) && w.column > old(w.column)
    ensures ok ==> w.text == old(w.text) + if MustEscape(w.unicode, v, i) then EscapeText(v[i]) else [v[i]]
    ensures ok && OneLine(old(w.text), |head|) ==> OneLine(w.text, |head|)
    ensures !ok ==> w.failed
  {
    hide Scanned, Encode, Join, EscapeText;
    ghost var sc, was := Seen(w, Double, |head|), w.text;
    assert v[..i + 1] == v[..i] + [v[i]];
    if MustEscape(w.unicode, v, i) {
      ok := WriteEscape(w, v[i]);
      EscapeReads(sc, v[i]);
      SeenMore(Double, |head|, was, EscapeText(v[i]));
      EscapeOnOneLine(v[i]);
      if OneLine(was, |head|) { OneLineMore(was, |head|, EscapeText(v[i])); }
    } else {
      ok := w.Put(v[i]);
      DoubleChar(sc, w.unicode, v, i, spaces);
      SeenMore(Double, |head|, was, [v[i]]);
      if OneLine(was, |head|) { OneLineMore(was, |head|, [v[i]]); }
      Scanned1(Double, sc, v[i]);
    }
  }

  method WriteDoubleQuoted(w: Writer, indent: int, v: seq<Rune>, allowBreaks: bool) returns (ok: bool)
    requires w.Valid() && w.footIndent == -1
    requires indent > 0
    modifies w`bufferPos, w`delivered, w`failed, w`text, w`column, w`indention, w`whitespace, w`footIndent
    modifies w`openEnded, w.buffer
    ensures ok ==> w.footIndent == -1
    ensures w.Valid()
    ensures ok ==> old(w.text) <= w.text && ReadQuoted(Double, Unpad(w.text[|old(w.text)|..])) == Some(v)
    ensures ok && !allowBreaks ==>
              && OneLine(w.text, |old(w.text)|)
              && Unpad(w.text[|old(w.text)|..]) == [0x22] + Escaped(w.unicode, v, |v|) + [0x22]
    ensures !ok ==> w.failed
  {
    hide Scanned, DoubleInv, Encode, ReadQuoted, Unpad, Step, Join, EscapeText, OneLine, Escaped;
    NoneEscaped(w.unicode, v);
    ghost var before, pad := w.text, if w.whitespace then [] else [SPACE];
    ok := w.WriteIndicator([0x22], true, false, false);
    if !ok { return; }
    ghost var head := w.text;
    assert head == before + pad + [0x22];
    assert w.text[|head|..] == [];
    OneLineStarts(head);
    DoubleStart(v);
    var spaces, i := false, 0;
    while i < |v|
      invariant DoubleLoop(w, indent, head, v, i, spaces)
      invariant !allowBreaks ==> OneLine(w.text, |head|) && w.text == head + Escaped(w.unicode, v, i)
    {
      EscapedMore(head, w.unicode, v, i);
      if !MustEscape(w.unicode, v, i) && v[i] == SPACE {
        ok := DoubleQuotedSpace(w, indent, v, i, allowBreaks, spaces, head);
        if !ok { return; }
        spaces := true;
      } else {
        ok := DoubleQuotedContent(w, v, i, spaces, head, indent);
        if !ok { return; }
        spaces := false;
        DoubleText(v, i + 1);
      }
      i := i + 1;
    }
    ghost var body := w.text[|head|..];
    assert w.text == head + body;
    if !allowBreaks {
      assert before + (pad + [0x22]) == head;
      OneLineAll(w.text, before, pad + [0x22], [0x22]);
      OnOneLine(Double, v, before, pad, Escaped(w.unicode, v, |v|));
    }
    ok := w.WriteIndicator([0x22], false, false, false);
    if !ok { return; }
    DoubleEnd(Scanned(Double, Text([]), body), v, spaces);
    ClosingQuote(Double, v, before, pad, body);
  }
}
