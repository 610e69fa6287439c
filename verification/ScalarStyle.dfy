/**
 Scalar analysis and style choice (go-yaml/emitterc.go:1031-1077, 1289-1440), and the
 result they exist for: whatever style is chosen, the scanner reads the value back.
 */
module ScalarStyle {
  import opened Utf8
  import opened Wrappers
  import opened ScalarScanner
  import opened TextWriter
  import opened ScalarWriter
  import opened DoubleQuoted
  import opened PlainScalar

  /** scalar_data, without the value. */
  datatype ScalarData = ScalarData(multiline: bool, flowPlain: bool, blockPlain: bool, singleQuoted: bool,
    blockAllowed: bool)

  predicate AsciiUnless(unicode: bool, v: seq<Rune>) {
    unicode || forall i :: 0 <= i < |v| ==> IsAscii(v[i])
  }

  /** Characters that rule out every style but double-quoted. */
  predicate IsSpecial(unicode: bool, r: Rune) {
    r != TAB && (!IsPrintable(r) || (!IsAscii(r) && !unicode))
  }

  predicate NoSpaceBeforeBreak(v: seq<Rune>) {
    forall i :: 0 < i < |v| ==> !(v[i - 1] == SPACE && IsBreak(v[i]))
  }

  predicate NoSpecial(unicode: bool, v: seq<Rune>) {
    forall i :: 0 <= i < |v| ==> !IsSpecial(unicode, v[i])
  }

  predicate NoTab(v: seq<Rune>) {
    forall i :: 0 <= i < |v| ==> v[i] != TAB
  }

  /** What each flag of the analyser means. */
  ghost predicate Describes(d: ScalarData, unicode: bool, v: seq<Rune>) {
    if v == [] then d == ScalarData(false, false, true, true, false)
    else
      && d.multiline == !NoBreak(v)
      && d.flowPlain == (PlainSafe(v, true) && AsciiUnless(unicode, v))
      && d.blockPlain == (PlainSafe(v, false) && AsciiUnless(unicode, v))
      && d.singleQuoted == (SingleSafe(v) && AsciiUnless(unicode, v))
      && d.blockAllowed == (v[|v| - 1] != SPACE && NoSpaceBeforeBreak(v) && NoSpecial(unicode, v))
  }

  // What the analyser's loop variables mean after it has looked at v[..i].

  ghost predicate SeesIndicators(block: bool, flow: bool, v: seq<Rune>, i: nat)
    requires i <= |v|
  {
    && block == (BeginsLikeMarker(v) || exists j :: 0 <= j < i && IndicatesAt(v, j, false))
    && flow == (BeginsLikeMarker(v) || exists j :: 0 <= j < i && IndicatesAt(v, j, true))
  }

  ghost predicate SeesCharacters(lineBreaks: bool, special: bool, tabs: bool, unicode: bool, v: seq<Rune>, i: nat)
    requires i <= |v|
  {
    && lineBreaks == (exists j :: 0 <= j < i && IsBreak(v[j]))
    && special == (exists j :: 0 <= j < i && IsSpecial(unicode, v[j]))
    && tabs == (exists j :: 0 <= j < i && v[j] == TAB)
  }

  ghost predicate SeesEdges(leading: bool, trailingSpace: bool, trailingBreak: bool, v: seq<Rune>, i: nat)
    requires i <= |v|
  {
    && leading == (i > 0 && (v[0] == SPACE || IsBreak(v[0])))
    && trailingSpace == (i == |v| > 0 && v[i - 1] == SPACE)
    && trailingBreak == (i == |v| > 0 && IsBreak(v[i - 1]))
  }

  ghost predicate SeesPairs(breakSpace: bool, spaceBreak: bool, v: seq<Rune>, i: nat)
    requires i <= |v|
  {
    && breakSpace == (exists j :: 0 < j < i && IsBreak(v[j - 1]) && v[j] == SPACE)
    && spaceBreak == (exists j :: 0 < j < i && v[j - 1] == SPACE && IsBreak(v[j]))
  }

  /** The two switches of the loop: which positions forbid plain text. */
  method IndicatorsAt(v: seq<Rune>, i: nat, precededByBlank: bool) returns (block: bool, flow: bool)
    requires i < |v| && (i > 0 ==> precededByBlank == IsBlankZ(v[i - 1]))
    ensures block == IndicatesAt(v, i, false) && flow == IndicatesAt(v, i, true)
  {
    var followed := i + 1 >= |v| || IsBlank(v[i + 1]);
    block, flow := false, false;
    if i == 0 {
      if IsStartIndicator(v[i]) {
        flow, block := true, true;
      } else if v[i] == 0x3F || v[i] == 0x3A {
        flow, block := true, followed;
      } else if v[i] == 0x2D {
        flow, block := followed, followed;
      }
    } else {
      if IsFlowIndicator(v[i]) {
        flow := true;
      } else if v[i] == 0x3A {
        flow, block := true, followed;
      } else if v[i] == 0x23 {
        flow, block := precededByBlank, precededByBlank;
      }
    }
  }

  lemma MoreIndicators(block: bool, flow: bool, v: seq<Rune>, i: nat)
    requires i < |v| && SeesIndicators(block, flow, v, i)
    ensures SeesIndicators(block || IndicatesAt(v, i, false), flow || IndicatesAt(v, i, true), v, i + 1)
  {
    hide IndicatesAt, BeginsLikeMarker;
  }

  lemma MoreCharacters(lineBreaks: bool, special: bool, tabs: bool, unicode: bool, v: seq<Rune>, i: nat)
    requires i < |v| && SeesCharacters(lineBreaks, special, tabs, unicode, v, i)
    ensures SeesCharacters(
              lineBreaks || IsBreak(v[i]), special || IsSpecial(unicode, v[i]), tabs || v[i] == TAB, unicode, v, i + 1)
  {
    hide IsBreak, IsSpecial;
  }

  lemma MorePairs(breakSpace: bool, spaceBreak: bool, v: seq<Rune>, i: nat)
    requires i < |v| && SeesPairs(breakSpace, spaceBreak, v, i)
    ensures SeesPairs(
              breakSpace || (i > 0 && IsBreak(v[i - 1]) && v[i] == SPACE),
              spaceBreak || (i > 0 && v[i - 1] == SPACE && IsBreak(v[i])), v, i + 1)
  {
    hide IsBreak;
  }

  lemma NothingSeen(unicode: bool, v: seq<Rune>)
    ensures SeesIndicators(BeginsLikeMarker(v), BeginsLikeMarker(v), v, 0)
    ensures SeesCharacters(false, false, false, unicode, v, 0) && SeesPairs(false, false, v, 0)
  {}

  lemma EmptyDescribed(unicode: bool)
    ensures Describes(ScalarData(false, false, true, true, false), unicode, [])
  {}

  lemma IndicatorsMean(block: bool, flow: bool, v: seq<Rune>)
    requires SeesIndicators(block, flow, v, |v|)
    ensures !block == NoIndicator(v, false) && !flow == NoIndicator(v, true)
  {
    hide IndicatesAt, BeginsLikeMarker;
  }

  lemma CleanCharacters(unicode: bool, v: seq<Rune>)
    ensures (NoSpecial(unicode, v) && NoTab(v)) == (AllPrintable(v) && AsciiUnless(unicode, v))
  {
    if NoSpecial(unicode, v) && NoTab(v) {
      assert forall j :: 0 <= j < |v| ==> !IsSpecial(unicode, v[j]) && v[j] != TAB;
    }
  }

  lemma CharactersMean(lineBreaks: bool, special: bool, tabs: bool, unicode: bool, v: seq<Rune>)
    requires SeesCharacters(lineBreaks, special, tabs, unicode, v, |v|)
    ensures !lineBreaks == NoBreak(v) && !special == NoSpecial(unicode, v)
    ensures (!special && !tabs) == (AllPrintable(v) && AsciiUnless(unicode, v))
  {
    CleanCharacters(unicode, v);
    hide IsBreak, IsSpecial;
    assert !tabs == NoTab(v);
  }

  lemma PairsMean(breakSpace: bool, spaceBreak: bool, v: seq<Rune>)
    requires SeesPairs(breakSpace, spaceBreak, v, |v|)
    ensures (!breakSpace && !spaceBreak) == BreaksApartFromSpaces(v) && !spaceBreak == NoSpaceBeforeBreak(v)
    ensures NoBreak(v) ==> BreaksApartFromSpaces(v)
  {
    hide IsBreak;
  }

  lemma AllDescribed(d: ScalarData, edge: bool, unicode: bool, v: seq<Rune>)
    requires v != []
    requires edge == (v[0] == SPACE || IsBreak(v[0]) || v[|v| - 1] == SPACE || IsBreak(v[|v| - 1]))
    requires d.multiline == !NoBreak(v)
    requires var plain := !edge && BreaksApartFromSpaces(v) && AllPrintable(v) && AsciiUnless(unicode, v) && NoBreak(v);
             d.flowPlain == (plain && NoIndicator(v, true)) && d.blockPlain == (plain && NoIndicator(v, false))
    requires d.singleQuoted == (BreaksApartFromSpaces(v) && AllPrintable(v) && AsciiUnless(unicode, v))
    requires d.blockAllowed == (v[|v| - 1] != SPACE && NoSpaceBeforeBreak(v) && NoSpecial(unicode, v))
    ensures Describes(d, unicode, v)
  {
    assert NoBreak(v) ==> !IsBreak(v[0]) && !IsBreak(v[|v| - 1]) && BreaksApartFromSpaces(v);
    hide AllPrintable, AsciiUnless, NoBreak, NoIndicator, NoSpecial, BreaksApartFromSpaces, NoSpaceBeforeBreak, IsBreak;
  }

  method Analyze(unicode: bool, v: seq<Rune>) returns (d: ScalarData)
    ensures Describes(d, unicode, v)
  {
    hide SeesIndicators, SeesCharacters, SeesPairs, IndicatesAt, Describes;
    if v == [] {
      EmptyDescribed(unicode);
      return ScalarData(false, false, true, true, false);
    }
    var blockIndicators, flowIndicators := BeginsLikeMarker(v), BeginsLikeMarker(v);
    var lineBreaks, special, tabs := false, false, false;
    var leading, trailingSpace, trailingBreak, breakSpace, spaceBreak := false, false, false, false, false;
    var precededByBlank, previousSpace, previousBreak := true, false, false;
    NothingSeen(unicode, v);
    var i := 0;
    while i < |v|
      invariant i <= |v|
      invariant SeesIndicators(blockIndicators, flowIndicators, v, i)
      invariant SeesCharacters(lineBreaks, special, tabs, unicode, v, i)
      invariant SeesEdges(leading, trailingSpace, trailingBreak, v, i)
      invariant SeesPairs(breakSpace, spaceBreak, v, i)
      invariant i > 0 ==> precededByBlank == IsBlankZ(v[i - 1])
      invariant previousSpace == (i > 0 && v[i - 1] == SPACE) && previousBreak == (i > 0 && IsBreak(v[i - 1]))
    {
      MoreIndicators(blockIndicators, flowIndicators, v, i);
      MoreCharacters(lineBreaks, special, tabs, unicode, v, i);
      MorePairs(breakSpace, spaceBreak, v, i);
      var block, flow := IndicatorsAt(v, i, precededByBlank);
      blockIndicators, flowIndicators := blockIndicators || block, flowIndicators || flow;
      tabs, special := tabs || v[i] == TAB, special || IsSpecial(unicode, v[i]);
      if v[i] == SPACE {
        leading, trailingSpace := leading || i == 0, trailingSpace || i + 1 == |v|;
        breakSpace := breakSpace || previousBreak;
      } else if IsBreak(v[i]) {
        lineBreaks := true;
        leading, trailingBreak := leading || i == 0, trailingBreak || i + 1 == |v|;
        spaceBreak := spaceBreak || previousSpace;
      }
      previousSpace, previousBreak, precededByBlank := v[i] == SPACE, IsBreak(v[i]), IsBlankZ(v[i]);
      i := i + 1;
    }
    var edge := leading || trailingSpace || trailingBreak;
    var plain := !(edge || breakSpace || spaceBreak || tabs || special || lineBreaks);
    d := ScalarData(
      lineBreaks,
      plain && !flowIndicators,
      plain && !blockIndicators,
      !breakSpace && !spaceBreak && !tabs && !special,
      !trailingSpace && !spaceBreak && !special);
    IndicatorsMean(blockIndicators, flowIndicators, v);
    CharactersMean(lineBreaks, special, tabs, unicode, v);
    PairsMean(breakSpace, spaceBreak, v);
    AllDescribed(d, edge, unicode, v);
  }

  // ----- Style choice ----------------------------------------------------------------

  datatype Style = Any | Plain | SingleQuoted | DoubleQuoted | Literal | Folded

  /** What the style choice depends on besides the analysis. */
  datatype Context = Context(
    style: Style, implicit: bool, quotedImplicit: bool, noTag: bool,
    canonical: bool, flow: bool, simpleKey: bool)

  /** None: neither a tag nor an implicit flag is given. */
  function SelectStyle(c: Context, d: ScalarData, empty: bool): Option<Style> {
    if c.noTag && !c.implicit && !c.quotedImplicit then None
    else
      var s0 := if c.style == Any then Plain else c.style;
      var s1 := if c.canonical || (c.simpleKey && d.multiline) then DoubleQuoted else s0;
      var s2 :=
        if s1 == Plain && ((c.flow && !d.flowPlain) || (!c.flow && !d.blockPlain)
                           || (empty && (c.flow || c.simpleKey))
                           || (c.noTag && !c.implicit))
        then SingleQuoted else s1;
      var s3 := if s2 == SingleQuoted && !d.singleQuoted then DoubleQuoted else s2;
      Some(if (s3 == Literal || s3 == Folded) && (!d.blockAllowed || c.flow || c.simpleKey) then DoubleQuoted else s3)
  }

  /** The reader's side, for the styles written on the value's own line. */
  function ReadStyled(style: Style, at: Place, t: seq<Rune>): Option<seq<Rune>> {
    match style
    case Plain => ReadPlain(at, t)
    case SingleQuoted => ReadQuoted(Single, t)
    case DoubleQuoted => ReadQuoted(Double, t)
    case _ => None
  }

  /** The styles whose text starts on the next line. */
  predicate InBlock(s: Style) {
    s == Literal || s == Folded
  }

  /** No trailing space, no space before a break, nothing that needs an escape. */
  predicate BlockSafe(unicode: bool, v: seq<Rune>) {
    (v != [] ==> v[|v| - 1] != SPACE) && NoSpaceBeforeBreak(v) && NoSpecial(unicode, v)
  }

  function Requested(c: Context): Style {
    if c.style == Any then Plain else c.style
  }

  /** A canonical emitter and a key of several lines leave no choice. */
  predicate Forced(c: Context, v: seq<Rune>) {
    c.canonical || (c.simpleKey && !NoBreak(v))
  }

  /** Can v be written in this style here? */
  predicate Carries(s: Style, c: Context, unicode: bool, v: seq<Rune>) {
    match s
    case Plain =>
      && (c.implicit || !c.noTag)
      && if v == [] then !c.flow && !c.simpleKey else PlainSafe(v, c.flow) && AsciiUnless(unicode, v)
    case SingleQuoted => SingleSafe(v) && AsciiUnless(unicode, v)
    case DoubleQuoted => true
    case Any => false
    case _ => v != [] && BlockSafe(unicode, v) && !c.flow && !c.simpleKey
  }

  /**
   The style a value gets: the one asked for wherever it can carry the value; in its place single
   quotes for plain text, where these can, and double quotes otherwise.
   */
  predicate Chosen(c: Context, unicode: bool, v: seq<Rune>, s: Style) {
    s == if Forced(c, v) then DoubleQuoted
         else if Carries(Requested(c), c, unicode, v) then Requested(c)
         else if Requested(c) == Plain && Carries(SingleQuoted, c, unicode, v) then SingleQuoted
         else DoubleQuoted
  }

  lemma EmptyIsSafe(unicode: bool)
    ensures SingleSafe([]) && AsciiUnless(unicode, []) && NoBreak([])
  {}

  /** The flags of the analyser, for any value. */
  lemma FlagsMean(d: ScalarData, unicode: bool, v: seq<Rune>)
    requires Describes(d, unicode, v)
    ensures d.multiline == !NoBreak(v) && d.singleQuoted == (SingleSafe(v) && AsciiUnless(unicode, v))
    ensures d.blockAllowed == (v != [] && BlockSafe(unicode, v))
    ensures d.flowPlain == (v != [] && PlainSafe(v, true) && AsciiUnless(unicode, v))
    ensures d.blockPlain == (v == [] || (PlainSafe(v, false) && AsciiUnless(unicode, v)))
  {
    EmptyIsSafe(unicode);
    hide SingleSafe, AsciiUnless, PlainSafe, NoBreak, NoSpaceBeforeBreak, NoSpecial;
  }

  /** The source's cascade of downgrades chooses that style; without tag and implicit flags it chooses none. */
  lemma StyleExactly(c: Context, d: ScalarData, unicode: bool, v: seq<Rune>)
    requires Describes(d, unicode, v)
    ensures SelectStyle(c, d, v == []).None? <==> c.noTag && !c.implicit && !c.quotedImplicit
    ensures SelectStyle(c, d, v == []).Some? ==> Chosen(c, unicode, v, SelectStyle(c, d, v == []).value)
  {
    FlagsMean(d, unicode, v);
    hide SingleSafe, AsciiUnless, PlainSafe, NoBreak, BlockSafe, Describes;
  }

  /** The chosen style can carry the value, and a key never gets a style of several lines. */
  lemma StyleFits(c: Context, unicode: bool, v: seq<Rune>, s: Style)
    requires Chosen(c, unicode, v, s)
    ensures Carries(s, c, unicode, v)
    ensures InBlock(s) ==> s == c.style && !c.flow && !c.simpleKey && !c.canonical
    ensures c.simpleKey && s != DoubleQuoted ==> NoBreak(v)
    ensures c.style == DoubleQuoted ==> s == DoubleQuoted
  {}

  /**
   Analyse, choose, write: in every context, what is written is read back as the value.  A
   literal or folded style that survives the choice is left to the block writers, which are not
   part of this model; everywhere else a request for one ends in quotes.  A key stays on its
   line, whatever the value.  The indentation is the
   one increase_indent has just computed, beyond the parent's.
   */
  method EmitScalar(w: Writer, c: Context, indent: int, at: Place, v: seq<Rune>, rootContext: bool)
    returns (ok: bool, style: Option<Style>)
    requires w.Valid() && w.footIndent == -1
    requires indent > 0 && at.indent <= indent && at.flow == c.flow
    modifies w`bufferPos, w`delivered, w`failed, w`text, w`column, w`indention, w`whitespace, w`footIndent
    modifies w`openEnded, w.buffer
    ensures ok ==> w.footIndent == -1
    ensures w.Valid()
    ensures style.None? <==> c.noTag && !c.implicit && !c.quotedImplicit
    ensures style.Some? ==> Chosen(c, w.unicode, v, style.value)
    ensures ok ==> style.Some? && old(w.text) <= w.text
    ensures ok && v != [] && !InBlock(style.value) ==>
              ReadStyled(style.value, at, Unpad(w.text[|old(w.text)|..])) == Some(v)
    ensures ok && c.simpleKey ==> OneLine(w.text, |old(w.text)|)
    ensures ok && InBlock(style.value) ==>
              w.text == old(w.text) && style.value == c.style && BlockSafe(w.unicode, v) && !c.flow && !c.simpleKey
    ensures !ok ==> w.failed || (c.noTag && !c.implicit && !c.quotedImplicit)
  {
    hide Encode, PlainSafe, SingleSafe, ReadPlain, ReadQuoted, Chosen, NoBreak, AsciiUnless, SelectStyle, OneLine;
    var d := Analyze(w.unicode, v);
    style := SelectStyle(c, d, v == []);
    StyleExactly(c, d, w.unicode, v);
    if style.None? {
      return false, style;
    }
    StyleFits(c, w.unicode, v, style.value);
    OneLineStarts(w.text);
    if InBlock(style.value) {
      ok := true;
    } else if style.value == Plain {
      ok := WritePlain(w, indent, at, v, !c.simpleKey, rootContext);
    } else if style.value == SingleQuoted {
      ok := WriteSingleQuoted(w, indent, v, !c.simpleKey);
    } else {
      ok := WriteDoubleQuoted(w, indent, v, !c.simpleKey);
    }
  }
}
