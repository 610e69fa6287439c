/**
 The plain writer (go-yaml/emitterc.go:1643-1698): a value the analyser lets through
 as plain text is read back unchanged, folds included.
 */
module PlainScalar {
  import opened Utf8
  import opened Wrappers
  import opened ScalarScanner
  import opened TextWriter
  import opened ScalarWriter

  predicate FollowedByBlank(v: seq<Rune>, i: nat)
    requires i < |v|
  {
    i + 1 >= |v| || IsBlank(v[i + 1])
  }

  /** Position i makes v unusable as plain text, in flow or in block context. */
  predicate IndicatesAt(v: seq<Rune>, i: nat, flow: bool)
    requires i < |v|
  {
    if i == 0 then
      || IsStartIndicator(v[0])
      || ((v[0] == 0x3F || v[0] == 0x3A) && (flow || FollowedByBlank(v, 0)))
      || (v[0] == 0x2D && FollowedByBlank(v, 0))
    else
      || (flow && (IsFlowIndicator(v[i]) || v[i] == 0x3A))
      || (v[i] == 0x3A && FollowedByBlank(v, i))
      || (v[i] == 0x23 && IsBlankZ(v[i - 1]))
  }

  predicate NoIndicator(v: seq<Rune>, flow: bool) {
    !BeginsLikeMarker(v) && forall i :: 0 <= i < |v| ==> !IndicatesAt(v, i, flow)
  }

  predicate PlainSafe(v: seq<Rune>, flow: bool) {
    && v != []
    && AllPrintable(v) && NoBreak(v) && NoIndicator(v, flow)
    && v[0] != SPACE && v[|v| - 1] != SPACE
  }

  // ----- Pieces of plain text, as the scanner sees them ----------------------------

  /** A state between lines after n more spaces. */
  function Moved(p: Plain, n: nat): Plain
    requires p.PBreaks?
  {
    if n == 0 then p else PBreaks(p.s, p.lead, p.trail, false, p.col + n)
  }

  lemma MovedMore(at: Place, p: Plain, n: nat)
    requires p.PBreaks?
    ensures PStep(at, Moved(p, n), SPACE) == Moved(p, n + 1)
  {}

  lemma NoSpaces(at: Place, p: Plain)
    requires p.PBreaks?
    ensures PScanned(at, p, Spaces(0)) == p == Moved(p, 0)
  {}

  lemma {:induction false} PScannedSpaces(at: Place, p: Plain, n: nat)
    requires p.PBreaks?
    ensures PScanned(at, p, Spaces(n)) == Moved(p, n)
  {
    hide *;
    if n == 0 {
      NoSpaces(at, p);
    } else {
      PScannedSpaces(at, p, n - 1);
      SpacesMore(n - 1);
      PScannedConcat(at, p, Spaces(n - 1), [SPACE]);
      PScanned1(at, Moved(p, n - 1), SPACE);
      MovedMore(at, p, n - 1);
    }
  }

  lemma PScannedFold(at: Place, s: seq<Rune>, lb: LineBreak, indent: nat)
    requires indent > 0
    ensures PScanned(at, PText(s, false), BreakRunes(lb) + Spaces(indent)) == PBreaks(s, [LF], [], false, indent)
  {
    hide PScanned;
    var p := PText(s, false);
    var broken := PBreaks(s, [LF], [], lb == CrBreak, 0);
    match lb {
      case CrBreak => PScanned1(at, p, CR);
      case LnBreak => PScanned1(at, p, LF);
      case CrLnBreak =>
        assert BreakRunes(lb) == [CR] + [LF];
        PScannedConcat(at, p, [CR], [LF]);
        PScanned1(at, p, CR);
        PScanned1(at, PBreaks(s, [LF], [], true, 0), LF);
    }
    assert PScanned(at, p, BreakRunes(lb)) == broken;
    PScannedConcat(at, p, BreakRunes(lb), Spaces(indent));
    PScannedSpaces(at, broken, indent);
  }

  /** What the plain loop keeps after consuming v[..i]. */
  ghost predicate PlainInv(at: Place, p: Plain, v: seq<Rune>, i: nat, spaces: bool)
    requires i <= |v|
  {
    && (i == 0 ==> p.PStart? && !spaces)
    && (i > 0 ==> PJoin(p) == v[..i])
    && (i > 0 && !spaces ==> p.PText? && v[i - 1] != SPACE && (p.mark ==> i < |v| && v[i] != SPACE))
    && (spaces ==>
          && v[i - 1] == SPACE && i < |v|
          && (p.PBlanks? || (p.PBreaks? && p.col > 0 && p.col >= at.indent && v[i] != SPACE)))
  }

  lemma PlainSpace(at: Place, p: Plain, v: seq<Rune>, i: nat, spaces: bool)
    requires i < |v| && PlainInv(at, p, v, i, spaces) && PlainSafe(v, at.flow) && v[i] == SPACE
    ensures PlainInv(at, PStep(at, p, SPACE), v, i + 1, true)
  {
    assert v[..i + 1] == v[..i] + [SPACE];
  }

  lemma PlainFold(at: Place, p: Plain, lb: LineBreak, v: seq<Rune>, i: nat, indent: nat)
    requires i + 1 < |v| && PlainInv(at, p, v, i, false) && PlainSafe(v, at.flow)
    requires v[i] == SPACE && v[i + 1] != SPACE && indent > 0 && at.indent <= indent
    ensures PlainInv(at, PScanned(at, p, BreakRunes(lb) + Spaces(indent)), v, i + 1, true)
  {
    hide PScanned;
    PScannedFold(at, p.s, lb, indent);
    assert v[..i + 1] == v[..i] + [SPACE];
  }

  lemma PlainFirst(at: Place, v: seq<Rune>)
    requires PlainSafe(v, at.flow)
    ensures PlainInv(at, PFirst(at, v[0]), v, 1, false)
  {
    assert !IndicatesAt(v, 0, at.flow) && IsPrintable(v[0]) && !IsBreak(v[0]);
    assert v[..1] == [v[0]];
  }

  lemma PlainChar(at: Place, p: Plain, v: seq<Rune>, i: nat, spaces: bool)
    requires 0 < i < |v| && PlainInv(at, p, v, i, spaces) && PlainSafe(v, at.flow) && v[i] != SPACE
    ensures PlainInv(at, PStep(at, p, v[i]), v, i + 1, false)
  {
    assert !IndicatesAt(v, i, at.flow) && IsPrintable(v[i]) && !IsBreak(v[i]);
    assert v[..i + 1] == v[..i] + [v[i]];
    assert i + 1 < |v| ==> IsPrintable(v[i + 1]);
  }

  lemma PlainEnd(at: Place, t: seq<Rune>, v: seq<Rune>, spaces: bool)
    requires PlainSafe(v, at.flow) && PlainInv(at, PScanned(at, PStart, t), v, |v|, spaces)
    ensures ReadPlain(at, t) == Some(v)
  {
    assert v[..|v|] == v;
  }

  // ----- The writer ----------------------------------------------------------------

  /** What the scanner has read of the output after head. */
  ghost function PSeen(w: Writer, at: Place, head: seq<Rune>): Plain
    requires head <= w.text
    reads w
  {
    PScanned(at, PStart, w.text[|head|..])
  }

  lemma PSeenMore(at: Place, head: seq<Rune>, before: seq<Rune>, piece: seq<Rune>)
    requires head <= before
    ensures PScanned(at, PStart, (before + piece)[|head|..])
            == PScanned(at, PScanned(at, PStart, before[|head|..]), piece)
  {
    assert (before + piece)[|head|..] == before[|head|..] + piece;
    PScannedConcat(at, PStart, before[|head|..], piece);
  }

  ghost predicate PlainLoop(w: Writer, at: Place, head: seq<Rune>, v: seq<Rune>, i: nat, spaces: bool)
    reads w, w.buffer
  {
    && w.Valid() && w.footIndent == -1
    && i <= |v|
    && head <= w.text
    && PlainInv(at, PSeen(w, at, head), v, i, spaces)
    && (i > 0 && !spaces ==> !w.indention)
  }

  method PlainSpaceOut(w: Writer, indent: int, at: Place, v: seq<Rune>, i: nat, allowBreaks: bool, spaces: bool,
    ghost head: seq<Rune>)
    returns (ok: bool)
    requires PlainLoop(w, at, head, v, i, spaces) && PlainSafe(v, at.flow)
    requires i < |v| && v[i] == SPACE && indent > 0 && at.indent <= indent
    modifies w`bufferPos, w`delivered, w`failed, w`text, w`column, w`indention, w`whitespace, w`footIndent, w.buffer
    ensures ok ==> w.footIndent == -1
    ensures w.Valid()
    ensures ok ==> head <= w.text && PlainInv(at, PSeen(w, at, head), v, i + 1, true)
    ensures ok ==>
              var fold := allowBreaks && !spaces && old(w.column) > w.bestWidth && i + 1 < |v| && v[i + 1] != SPACE;
              w.text == old(w.text) + if fold then BreakRunes(w.lineBreak) + Spaces(indent) else [SPACE]
    ensures ok && !allowBreaks && OneLine(old(w.text), |head|) ==> OneLine(w.text, |head|)
    ensures !ok ==> w.failed
  {
    hide PScanned, Encode, PJoin;
    ghost var p, was := PSeen(w, at, head), w.text;
    if allowBreaks && !spaces && w.column > w.bestWidth && v[i + 1] != SPACE {
      ok := w.WriteIndent(indent);
      if !ok { return; }
      PlainFold(at, p, w.lineBreak, v, i, indent);
      PSeenMore(at, head, was, BreakRunes(w.lineBreak) + Spaces(indent));
      assert w.text == was + (BreakRunes(w.lineBreak) + Spaces(indent));
    } else {
      ok := w.Put(v[i]);
      PlainSpace(at, p, v, i, spaces);
      PSeenMore(at, head, was, [SPACE]);
      if OneLine(was, |head|) { OneLineMore(was, |head|, [SPACE]); }
      PScanned1(at, p, SPACE);
    }
  }

  method PlainContentOut(w: Writer, at: Place, v: seq<Rune>, i: nat, spaces: bool, ghost head: seq<Rune>)
    returns (ok: bool)
    requires PlainLoop(w, at, head, v, i, spaces) && PlainSafe(v, at.flow)
    requires i < |v| && v[i] != SPACE
    modifies w`bufferPos, w`delivered, w`failed, w`text, w`column, w`indention, w.buffer
    ensures w.Valid()
    ensures ok ==> head <= w.text && PlainInv(at, PSeen(w, at, head), v, i + 1, false) && !w.indention
    ensures ok ==> w.text == old(w.text) + [v[i]]
    ensures ok && OneLine(old(w.text), |head|) ==> OneLine(w.text, |head|)
    ensures !ok ==> w.failed
  {
    hide PScanned, Encode, PJoin;
    ghost var p, was := PSeen(w, at, head), w.text;
    ok := w.Put(v[i]);
    if !ok { return; }
    w.indention := false;
    if i == 0 { PlainFirst(at, v); } else { PlainChar(at, p, v, i, spaces); }
    PSeenMore(at, head, was, [v[i]]);
    if OneLine(was, |head|) { OneLineMore(was, |head|, [v[i]]); }
    PScanned1(at, p, v[i]);
  }

  lemma PlainStart(at: Place, v: seq<Rune>)
    ensures PlainInv(at, PScanned(at, PStart, []), v, 0, false)
  {}

  /** Text that begins with a space is no plain scalar. */
  lemma {:induction false} LeadingSpace(at: Place, t: seq<Rune>)
    requires t != [] && t[0] == SPACE
    ensures PScanned(at, PStart, t) == PEnd
  {
    if |t| == 1 {
      assert t[..0] == [];
    } else {
      LeadingSpace(at, t[..|t| - 1]);
    }
  }

  lemma PlainAdded(text: seq<Rune>, before: seq<Rune>, pad: seq<Rune>, head: seq<Rune>, at: Place, v: seq<Rune>,
    spaces: bool)
    requires head == before + pad && head <= text && (pad == [] || pad == [SPACE])
    requires PlainSafe(v, at.flow) && PlainInv(at, PScanned(at, PStart, text[|head|..]), v, |v|, spaces)
    ensures before <= text && ReadPlain(at, Unpad(text[|before|..])) == Some(v)
  {
    var t := text[|head|..];
    assert text[|before|..] == pad + t;
    if pad == [] && t != [] && t[0] == SPACE {
      LeadingSpace(at, t);
      assert false;
    }
    assert Unpad(text[|before|..]) == t;
    PlainEnd(at, t, v, spaces);
  }

  /**
   The source's branch for line breaks is left out: no value with a break is ever
   written plain (ScalarStyle.SelectStyle).
   */
  method WritePlain(w: Writer, indent: int, at: Place, v: seq<Rune>, allowBreaks: bool, rootContext: bool)
    returns (ok: bool)
    requires w.Valid() && w.footIndent == -1
    requires indent > 0 && at.indent <= indent
    requires v == [] || PlainSafe(v, at.flow)
    modifies w`bufferPos, w`delivered, w`failed, w`text, w`column, w`indention, w`whitespace, w`footIndent
    modifies w`openEnded, w.buffer
    ensures ok ==> w.footIndent == -1
    ensures w.Valid()
    ensures ok ==> old(w.text) <= w.text
    ensures ok && v != [] ==> ReadPlain(at, Unpad(w.text[|old(w.text)|..])) == Some(v)
    ensures ok && v == [] ==> w.text == old(w.text)
    ensures ok && !allowBreaks ==> OneLine(w.text, |old(w.text)|)
    ensures ok && !allowBreaks ==>
              w.text == old(w.text) + (if v == [] || old(w.whitespace) then [] else [SPACE]) + v
    ensures ok && rootContext ==> w.openEnded
    ensures !ok ==> w.failed
  {
    hide PScanned, PlainInv, Encode, PStep, PJoin, ReadPlain, PlainSafe, OneLine;
    ghost var before, pad := w.text, if v == [] || w.whitespace then [] else [SPACE];
    ok := true;
    if v != [] && !w.whitespace {
      ok := w.Put(SPACE);
      if !ok { return; }
    }
    ghost var head := w.text;
    assert head == before + pad;
    assert w.text[|head|..] == [];
    OneLineStarts(head);
    PlainStart(at, v);
    var spaces, i := false, 0;
    while i < |v|
      invariant ok && PlainLoop(w, at, head, v, i, spaces)
      invariant i == 0 ==> w.text == head
      invariant !allowBreaks ==> OneLine(w.text, |head|) && w.text == head + v[..i]
    {
      assert head + v[..i + 1] == head + v[..i] + [v[i]];
      if v[i] == SPACE {
        ok := PlainSpaceOut(w, indent, at, v, i, allowBreaks, spaces, head);
        if !ok { return; }
        spaces := true;
      } else {
        ok := PlainContentOut(w, at, v, i, spaces, head);
        if !ok { return; }
        spaces := false;
      }
      i := i + 1;
    }
    assert v[..i] == v;
    if !allowBreaks {
      OneLineAll(w.text, before, pad, []);
      assert w.text + [] == w.text;
    }
    if v != [] {
      w.whitespace := false;
      PlainAdded(w.text, before, pad, head, at, v, spaces);
    }
    w.indention := false;
    if rootContext {
      w.openEnded := true;
    }
  }
}
