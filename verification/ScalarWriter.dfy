/**
 The scalar writers of go-yaml/emitterc.go and what their output means to the
 scanner: whatever text a writer puts out, go-yaml's scanner reads back as exactly
 the value that was written.

 Each writer loop keeps one invariant: the scanner's automaton, run over the text
 written so far, holds the part of the value already consumed.
 */
module ScalarWriter {
  import opened Utf8
  import opened Wrappers
  import opened ScalarScanner
  import opened TextWriter

  // ----- Which values each style can carry -------------------------------------

  predicate AllPrintable(v: seq<Rune>) {
    forall i :: 0 <= i < |v| ==> IsPrintable(v[i])
  }

  /** No line break touches a space. */
  predicate BreaksApartFromSpaces(v: seq<Rune>) {
    forall i :: 0 < i < |v| ==> !(v[i - 1] == SPACE && IsBreak(v[i])) && !(IsBreak(v[i - 1]) && v[i] == SPACE)
  }

  predicate NoBreak(v: seq<Rune>) {
    forall i :: 0 <= i < |v| ==> !IsBreak(v[i])
  }

  /** Nothing after position start breaks the line. */
  predicate OneLine(text: seq<Rune>, start: nat) {
    start <= |text| && NoBreak(text[start..])
  }

  lemma OneLineMore(text: seq<Rune>, start: nat, piece: seq<Rune>)
    requires OneLine(text, start) && NoBreak(piece)
    ensures OneLine(text + piece, start)
  {
    assert (text + piece)[start..] == text[start..] + piece;
  }

  lemma OneLineStarts(text: seq<Rune>)
    ensures OneLine(text, |text|)
  {}

  /** From before the opening mark to after the closing one. */
  lemma OneLineAll(text: seq<Rune>, before: seq<Rune>, open: seq<Rune>, close: seq<Rune>)
    requires before + open <= text && OneLine(text, |before + open|) && NoBreak(open) && NoBreak(close)
    ensures OneLine(text + close, |before|)
  {
    var body := text[|before + open|..];
    assert (text + close)[|before|..] == open + body + close;
  }

  predicate SingleSafe(v: seq<Rune>) {
    AllPrintable(v) && BreaksApartFromSpaces(v)
  }

  // ----- Pieces of written text, as the scanner sees them ------------------------

  /** The scanner state after a fold or a run of breaks: any line break it holds back is the writer's own. */
  predicate Resting(sc: Scan, lb: LineBreak) {
    sc.Text? || sc.Blanks? || (sc.Breaks? && (sc.cr ==> lb == CrBreak))
  }

  /** A state between lines after n more spaces. */
  function Indented(sc: Scan, n: nat): Scan
    requires sc.Breaks?
  {
    if n == 0 then sc else Breaks(sc.s, sc.lead, sc.trail, false, sc.col + n)
  }

  lemma IndentedMore(q: Quote, sc: Scan, n: nat)
    requires sc.Breaks?
    ensures Step(q, Indented(sc, n), SPACE) == Indented(sc, n + 1)
  {}

  lemma NotIndented(q: Quote, sc: Scan)
    requires sc.Breaks?
    ensures Scanned(q, sc, Spaces(0)) == sc == Indented(sc, 0)
  {}

  lemma {:induction false} ScannedSpaces(q: Quote, sc: Scan, n: nat)
    requires sc.Breaks?
    ensures Scanned(q, sc, Spaces(n)) == Indented(sc, n)
  {
    hide *;
    if n == 0 {
      NotIndented(q, sc);
    } else {
      ScannedSpaces(q, sc, n - 1);
      SpacesMore(n - 1);
      ScannedConcat(q, sc, Spaces(n - 1), [SPACE]);
      Scanned1(q, Indented(sc, n - 1), SPACE);
      IndentedMore(q, sc, n - 1);
    }
  }

  /** A line break of the writer is one LF to the scanner. */
  lemma ScannedBreak(q: Quote, sc: Scan, lb: LineBreak)
    requires Resting(sc, lb)
    ensures Scanned(q, sc, BreakRunes(lb)) ==
            if sc.Breaks? then Breaks(sc.s, sc.lead, sc.trail + [LF], lb == CrBreak, 0)
            else Breaks(sc.s, [LF], [], lb == CrBreak, 0)
  {
    match lb {
      case CrBreak => Scanned1(q, sc, CR);
      case LnBreak => Scanned1(q, sc, LF);
      case CrLnBreak => Scanned2(q, sc, CR, LF);
    }
  }

  /** A fold: line break and indentation, read as one space. */
  lemma ScannedFold(q: Quote, sc: Scan, lb: LineBreak, indent: nat)
    requires sc.Text? && indent > 0
    ensures Scanned(q, sc, BreakRunes(lb) + Spaces(indent)) == Breaks(sc.s, [LF], [], false, indent)
  {
    ScannedConcat(q, sc, BreakRunes(lb), Spaces(indent));
    ScannedBreak(q, sc, lb);
    ScannedSpaces(q, Scanned(q, sc, BreakRunes(lb)), indent);
  }

  /** The part of the output after position start, as the scanner reads it. */
  ghost function Seen(w: Writer, q: Quote, start: nat): Scan
    requires start <= |w.text|
    reads w
  {
    Scanned(q, Text([]), w.text[start..])
  }

  lemma SeenMore(q: Quote, start: nat, before: seq<Rune>, piece: seq<Rune>)
    requires start <= |before|
    ensures Scanned(q, Text([]), (before + piece)[start..])
            == Scanned(q, Scanned(q, Text([]), before[start..]), piece)
  {
    assert (before + piece)[start..] == before[start..] + piece;
    ScannedConcat(q, Text([]), before[start..], piece);
  }

  // ----- Single-quoted -----------------------------------------------------------

  /** What the single-quoted loop keeps after consuming v[..i]. */
  ghost predicate SingleInv(sc: Scan, lb: LineBreak, v: seq<Rune>, i: nat, spaces: bool, breaks: bool)
    requires i <= |v|
  {
    && Resting(sc, lb)
    && Join(sc) == v[..i]
    && (breaks ==> !spaces && sc.Breaks? && (sc.lead == [LF] ==> sc.trail != []) && i > 0 && IsBreak(v[i - 1]))
    && (spaces && !sc.Blanks? ==> sc.Breaks? && sc.col > 0 && i < |v| && v[i] != SPACE)
    && (spaces ==> i > 0 && v[i - 1] == SPACE)
    && (!spaces && !breaks ==> sc.Text? && (i > 0 ==> v[i - 1] != SPACE && !IsBreak(v[i - 1])))
  }

  lemma SingleSpace(sc: Scan, lb: LineBreak, v: seq<Rune>, i: nat, spaces: bool, breaks: bool)
    requires i < |v| && SingleInv(sc, lb, v, i, spaces, breaks) && SingleSafe(v) && v[i] == SPACE
    ensures SingleInv(Step(Single, sc, SPACE), lb, v, i + 1, true, false)
  {
    assert v[..i + 1] == v[..i] + [SPACE];
  }

  lemma SingleFold(sc: Scan, lb: LineBreak, v: seq<Rune>, i: nat, indent: nat)
    requires i + 1 < |v| && SingleInv(sc, lb, v, i, false, false) && v[i] == SPACE && v[i + 1] != SPACE
    requires indent > 0
    ensures SingleInv(Scanned(Single, sc, BreakRunes(lb) + Spaces(indent)), lb, v, i + 1, true, false)
  {
    ScannedFold(Single, sc, lb, indent);
    assert v[..i + 1] == v[..i] + [SPACE];
  }

  /** What the writer puts for a line break of the value: an LF that opens a run is doubled. */
  function BreakText(lb: LineBreak, r: Rune, breaks: bool): seq<Rune> {
    (if !breaks && r == LF then BreakRunes(lb) else []) + (if r == LF then BreakRunes(lb) else [r])
  }

  /** The breaks a state is holding grow by r. */
  lemma BreakJoins(sc: Scan, lb: LineBreak, r: Rune)
    requires sc.Breaks? && (sc.cr ==> lb == CrBreak) && (sc.lead == [LF] ==> sc.trail != [])
    requires IsBreak(r) && IsPrintable(r)
    ensures var sc' := Scanned(Single, sc, if r == LF then BreakRunes(lb) else [r]);
            && sc'.Breaks? && (sc'.cr ==> lb == CrBreak)
            && sc'.lead == sc.lead && sc'.trail == sc.trail + [r] && sc'.s == sc.s
            && Join(sc') == Join(sc) + [r]
  {
    hide Scanned;
    if r == LF { ScannedBreak(Single, sc, lb); } else { Scanned1(Single, sc, r); }
  }

  /** The first break of a run: an LF is written twice, so that the fold keeps one. */
  lemma BreakOpens(sc: Scan, lb: LineBreak, r: Rune)
    requires sc.Text? && IsBreak(r) && IsPrintable(r)
    ensures var sc' := Scanned(Single, sc, BreakText(lb, r, false));
            && sc'.Breaks? && (sc'.cr ==> lb == CrBreak)
            && (sc'.lead == [LF] ==> sc'.trail != [])
            && Join(sc') == Join(sc) + [r]
  {
    hide Scanned;
    if r == LF {
      ScannedConcat(Single, sc, BreakRunes(lb), BreakRunes(lb));
      ScannedBreak(Single, sc, lb);
      ScannedBreak(Single, Scanned(Single, sc, BreakRunes(lb)), lb);
    } else {
      assert BreakText(lb, r, false) == [r];
      Scanned1(Single, sc, r);
    }
  }

  lemma SingleBreak(sc: Scan, lb: LineBreak, v: seq<Rune>, i: nat, spaces: bool, breaks: bool)
    requires i < |v| && SingleInv(sc, lb, v, i, spaces, breaks) && SingleSafe(v) && IsBreak(v[i])
    ensures !spaces && SingleInv(Scanned(Single, sc, BreakText(lb, v[i], breaks)), lb, v, i + 1, false, true)
  {
    hide Scanned, Join, Fold;
    assert v[..i + 1] == v[..i] + [v[i]];
    assert IsPrintable(v[i]);
    if breaks {
      assert BreakText(lb, v[i], true) == if v[i] == LF then BreakRunes(lb) else [v[i]];
      BreakJoins(sc, lb, v[i]);
    } else {
      BreakOpens(sc, lb, v[i]);
    }
  }

  /** What the writer puts for any other character: indentation after breaks, and quotes doubled. */
  function ContentText(r: Rune, breaks: bool, indent: nat): seq<Rune> {
    (if breaks then Spaces(indent) else []) + (if r == 0x27 then [r, r] else [r])
  }

  /** One content character, quote doubled, joins whatever was pending. */
  lemma SingleChar(sc: Scan, r: Rune)
    requires sc.Text? || sc.Blanks? || (sc.Breaks? && sc.col > 0)
    requires !IsBlankZ(r)
    ensures Scanned(Single, sc, if r == 0x27 then [r, r] else [r]) == Text(Join(sc) + [r])
  {
    if r == 0x27 { Scanned2(Single, sc, r, r); } else { Scanned1(Single, sc, r); }
  }

  lemma SingleContent(sc: Scan, lb: LineBreak, v: seq<Rune>, i: nat, spaces: bool, breaks: bool, indent: nat)
    requires i < |v| && SingleInv(sc, lb, v, i, spaces, breaks) && SingleSafe(v)
    requires v[i] != SPACE && !IsBreak(v[i]) && indent > 0
    ensures Scanned(Single, sc, ContentText(v[i], breaks, indent)) == Text(v[..i + 1])
  {
    assert IsPrintable(v[i]);
    var dent := if breaks then Spaces(indent) else [];
    if breaks { ScannedSpaces(Single, sc, indent); }
    var sc' := Scanned(Single, sc, dent);
    assert Join(sc') == v[..i];
    ScannedConcat(Single, sc, dent, if v[i] == 0x27 then [v[i], v[i]] else [v[i]]);
    SingleChar(sc', v[i]);
    assert v[..i + 1] == v[..i] + [v[i]];
  }

  /** The text a writer added, without the space that may separate it from what precedes. */
  function Unpad(t: seq<Rune>): seq<Rune> {
    if t != [] && t[0] == SPACE then t[1..] else t
  }

  lemma Closes(q: Quote, sc: Scan)
    requires sc.Text? || sc.Blanks? || sc.Breaks?
    ensures Scanned(q, sc, [QuoteMark(q)]) == if q == Single then Apostrophe(Join(sc)) else Closed(Join(sc))
  {
    Scanned1(q, sc, QuoteMark(q));
  }

  lemma ClosingQuote(q: Quote, v: seq<Rune>, before: seq<Rune>, pad: seq<Rune>, body: seq<Rune>)
    requires pad == [] || pad == [SPACE]
    requires var sc := Scanned(q, Text([]), body); (sc.Text? || sc.Blanks? || sc.Breaks?) && Join(sc) == v
    ensures var added := (before + pad + [QuoteMark(q)] + body + [QuoteMark(q)])[|before|..];
            ReadQuoted(q, Unpad(added)) == Some(v)
  {
    hide Scanned, Join;
    var mark := [QuoteMark(q)];
    assert (before + pad + mark + body + mark)[|before|..] == pad + (mark + body + mark);
    assert Unpad(pad + (mark + body + mark)) == mark + body + mark;
    Closes(q, Scanned(q, Text([]), body));
    ScannedConcat(q, Text([]), body, mark);
    assert (mark + body + mark)[1..] == body + mark;
  }

  lemma OnOneLine(q: Quote, v: seq<Rune>, before: seq<Rune>, pad: seq<Rune>, body: seq<Rune>)
    requires pad == [] || pad == [SPACE]
    ensures var mark := [QuoteMark(q)];
            Unpad((before + pad + mark + body + mark)[|before|..]) == mark + body + mark && v[..|v|] == v
  {
    var mark := [QuoteMark(q)];
    assert (before + pad + mark + body + mark)[|before|..] == pad + (mark + body + mark);
  }

  lemma SingleStart(lb: LineBreak, v: seq<Rune>)
    ensures SingleInv(Scanned(Single, Text([]), []), lb, v, 0, false, false)
  {}

  lemma SingleText(lb: LineBreak, v: seq<Rune>, i: nat)
    requires 0 < i <= |v| && v[i - 1] != SPACE && !IsBreak(v[i - 1])
    ensures SingleInv(Text(v[..i]), lb, v, i, false, false)
  {}

  lemma SingleEnd(sc: Scan, lb: LineBreak, v: seq<Rune>, spaces: bool, breaks: bool)
    requires SingleInv(sc, lb, v, |v|, spaces, breaks)
    ensures (sc.Text? || sc.Blanks? || sc.Breaks?) && Join(sc) == v
  {
    assert v[..|v|] == v;
  }

  /** The value with its apostrophes doubled. */
  function Doubled(v: seq<Rune>): seq<Rune> {
    if v == [] then [] else Doubled(v[..|v| - 1]) + (if v[|v| - 1] == 0x27 then [0x27, 0x27] else [v[|v| - 1]])
  }

  lemma NoneDoubled(v: seq<Rune>)
    ensures Doubled(v[..0]) == []
  {}

  lemma DoubledMore(head: seq<Rune>, v: seq<Rune>, i: nat)
    requires i < |v| && !IsBreak(v[i])
    ensures head + Doubled(v[..i + 1]) == head + Doubled(v[..i]) + ContentText(v[i], false, 1)
    ensures v[i] == SPACE ==> ContentText(v[i], false, 1) == [SPACE]
  {
    assert v[..i + 1][..i] == v[..i];
    var c := ContentText(v[i], false, 1);
    assert Doubled(v[..i + 1]) == Doubled(v[..i]) + c;
    assert head + (Doubled(v[..i]) + c) == head + Doubled(v[..i]) + c;
  }

  /** What the single-quoted loop knows of the writer: head is the text up to the opening quote. */
  ghost predicate SingleLoop(w: Writer, head: seq<Rune>, v: seq<Rune>, i: nat, spaces: bool, breaks: bool)
    reads w, w.buffer
  {
    && w.Valid() && w.footIndent == -1
    && i <= |v|
    && head <= w.text
    && SingleInv(Seen(w, Single, |head|), w.lineBreak, v, i, spaces, breaks)
    && (breaks ==> w.column == 0 && w.indention)
    && (i > 0 && !spaces && !breaks ==> !w.indention)
  }

  method SingleQuotedSpace(w: Writer, indent: int, v: seq<Rune>, i: nat, allowBreaks: bool, spaces: bool, breaks: bool,
    ghost head: seq<Rune>)
    returns (ok: bool)
    requires SingleLoop(w, head, v, i, spaces, breaks) && SingleSafe(v) && indent > 0
    requires i < |v| && v[i] == SPACE
    modifies w`bufferPos, w`delivered, w`failed, w`text, w`column, w`indention, w`whitespace, w`footIndent, w.buffer
    ensures ok ==> w.footIndent == -1
    ensures w.Valid()
    ensures ok ==> !breaks && SingleLoop(w, head, v, i + 1, true, breaks)
    ensures ok ==>
              var fold := allowBreaks && !spaces && old(w.column) > w.bestWidth && 0 < i < |v| - 1 && v[i + 1] != SPACE;
              w.text == old(w.text) + if fold then BreakRunes(w.lineBreak) + Spaces(indent) else [SPACE]
    ensures ok && !allowBreaks && OneLine(old(w.text), |head|) ==> OneLine(w.text, |head|)
    ensures !ok ==> w.failed
  {
    hide Scanned, Encode, Join;
    ghost var sc, was := Seen(w, Single, |head|), w.text;
    SingleSpace(sc, w.lineBreak, v, i, spaces, breaks);
    if allowBreaks && !spaces && w.column > w.bestWidth && 0 < i < |v| - 1 && v[i + 1] != SPACE {
      ok := w.WriteIndent(indent);
      if ok {
        SingleFold(sc, w.lineBreak, v, i, indent);
        SeenMore(Single, |head|, was, BreakRunes(w.lineBreak) + Spaces(indent));
        assert w.text == was + (BreakRunes(w.lineBreak) + Spaces(indent));
      }
    } else {
      ok := w.Put(v[i]);
      if OneLine(was, |head|) { OneLineMore(was, |head|, [SPACE]); }
      SeenMore(Single, |head|, was, [SPACE]);
      Scanned1(Single, sc, SPACE);
    }
  }

  method SingleQuotedBreak(w: Writer, v: seq<Rune>, i: nat, spaces: bool, breaks: bool, ghost head: seq<Rune>)
    returns (ok: bool)
    requires SingleLoop(w, head, v, i, spaces, breaks) && SingleSafe(v)
    requires i < |v| && IsBreak(v[i])
    modifies w`bufferPos, w`delivered, w`failed, w`text, w`column, w`indention, w.buffer
    ensures w.Valid()
    ensures ok ==> !spaces && head <= w.text && SingleInv(Seen(w, Single, |head|), w.lineBreak, v, i + 1, spaces, true)
    ensures ok ==> w.column == 0 && w.indention && w.text == old(w.text) + BreakText(w.lineBreak, v[i], breaks)
    ensures !ok ==> w.failed
  {
    hide Scanned, Encode, Join;
    ghost var sc, was := Seen(w, Single, |head|), w.text;
    if !breaks && v[i] == LF {
      ok := w.PutBreak();
      if !ok { return; }
    }
    ok := w.WriteBreak(v[i]);
    if !ok { return; }
    assert w.text == was + BreakText(w.lineBreak, v[i], breaks);
    SingleBreak(sc, w.lineBreak, v, i, spaces, breaks);
    SeenMore(Single, |head|, was, BreakText(w.lineBreak, v[i], breaks));
  }

  method PutDoubled(w: Writer, r: Rune) returns (ok: bool)
    requires w.Valid()
    modifies w`bufferPos, w`delivered, w`failed, w`text, w`column, w.buffer
    ensures w.Valid()
    ensures ok ==> w.text == old(w.text) + (if r == 0x27 then [r, r] else [r])
    ensures !ok ==> w.failed
  {
    if r == 0x27 {
      ok := w.Put(0x27);
      if !ok { return; }
    }
    ok := w.Put(r);
  }

  method SingleQuotedContent(w: Writer, indent: int, v: seq<Rune>, i: nat, spaces: bool, breaks: bool,
    ghost head: seq<Rune>)
    returns (ok: bool)
    requires SingleLoop(w, head, v, i, spaces, breaks) && SingleSafe(v) && indent > 0
    requires i < |v| && v[i] != SPACE && !IsBreak(v[i])
    modifies w`bufferPos, w`delivered, w`failed, w`text, w`column, w`indention, w`whitespace, w`footIndent, w.buffer
    ensures ok ==> w.footIndent == -1
    ensures w.Valid()
    ensures ok ==> head <= w.text && Seen(w, Single, |head|) == Text(v[..i + 1]) && !w.indention
    ensures ok ==> w.text == old(w.text) + ContentText(v[i], breaks, indent)
    ensures ok && OneLine(old(w.text), |head|) ==> OneLine(w.text, |head|)
    ensures !ok ==> w.failed
  {
    hide Scanned, Encode, Join;
    ghost var sc, was := Seen(w, Single, |head|), w.text;
    SingleContent(sc, w.lineBreak, v, i, spaces, breaks, indent);
    ghost var dent := if breaks then Spaces(indent) else [];
    if breaks {
      ok := w.WriteIndent(indent);
      if !ok { return; }
    }
    assert w.text == was + dent;
    ok := PutDoubled(w, v[i]);
    if !ok { return; }
    w.indention := false;
    assert w.text == was + ContentText(v[i], breaks, indent);
    SeenMore(Single, |head|, was, ContentText(v[i], breaks, indent));
    if OneLine(was, |head|) { OneLineMore(was, |head|, ContentText(v[i], breaks, indent)); }
  }

  method WriteSingleQuoted(w: Writer, indent: int, v: seq<Rune>, allowBreaks: bool) returns (ok: bool)
    requires w.Valid() && w.footIndent == -1
    requires indent > 0 && SingleSafe(v)
    modifies w`bufferPos, w`delivered, w`failed, w`text, w`column, w`indention, w`whitespace, w`footIndent
    modifies w`openEnded, w.buffer
    ensures ok ==> w.footIndent == -1
    ensures w.Valid()
    ensures ok ==> old(w.text) <= w.text && ReadQuoted(Single, Unpad(w.text[|old(w.text)|..])) == Some(v)
    ensures ok && !allowBreaks && NoBreak(v) ==>
              OneLine(w.text, |old(w.text)|) && Unpad(w.text[|old(w.text)|..]) == [0x27] + Doubled(v) + [0x27]
    ensures !ok ==> w.failed
  {
    hide Scanned, SingleInv, Encode, ReadQuoted, Unpad, Step, Join, OneLine, Doubled;
    NoneDoubled(v);
    ghost var before, pad := w.text, if w.whitespace then [] else [SPACE];
    ok := w.WriteIndicator([0x27], true, false, false);
    if !ok { return; }
    ghost var head := w.text;
    assert head == before + pad + [0x27];
    assert w.text[|head|..] == [];
    OneLineStarts(head);
    SingleStart(w.lineBreak, v);
    var spaces, breaks, i := false, false, 0;
    while i < |v|
      invariant SingleLoop(w, head, v, i, spaces, breaks)
      invariant NoBreak(v) && !allowBreaks ==> OneLine(w.text, |head|) && w.text == head + Doubled(v[..i]) && !breaks
    {
      if NoBreak(v) { DoubledMore(head, v, i); }
      if v[i] == SPACE {
        ok := SingleQuotedSpace(w, indent, v, i, allowBreaks, spaces, breaks, head);
        if !ok { return; }
        spaces := true;
      } else if IsBreak(v[i]) {
        ok := SingleQuotedBreak(w, v, i, spaces, breaks, head);
        if !ok { return; }
        breaks := true;
      } else {
        ok := SingleQuotedContent(w, indent, v, i, spaces, breaks, head);
        if !ok { return; }
        spaces, breaks := false, false;
        SingleText(w.lineBreak, v, i + 1);
      }
      i := i + 1;
    }
    ghost var body := w.text[|head|..];
    assert w.text == head + body;
    if NoBreak(v) && !allowBreaks {
      assert before + (pad + [0x27]) == head;
      OneLineAll(w.text, before, pad + [0x27], [0x27]);
      OnOneLine(Single, v, before, pad, Doubled(v));
    }
    ok := w.WriteIndicator([0x27], false, false, false);
    if !ok { return; }
    SingleEnd(Scanned(Single, Text([]), body), w.lineBreak, v, spaces, breaks);
    ClosingQuote(Single, v, before, pad, body);
  }
}
