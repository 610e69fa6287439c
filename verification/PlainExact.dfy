/**
 The plain texts the analyser lets through are those the scanner reads back as they stand:
 all of them in block context, and in flow context all without a colon.
 */
module PlainExact {
  import opened Utf8
  import opened Wrappers
  import opened ScalarScanner
  import opened ScalarWriter
  import opened PlainScalar

  /** After this character the scanner will not take a blank or the end. */
  predicate Marks(v: seq<Rune>, j: nat)
    requires j < |v|
  {
    v[j] == 0x3A || (j == 0 && (v[j] == 0x2D || v[j] == 0x3F))
  }

  /** The scanner has read all of v[..i] as it stands. */
  predicate Literally(p: Plain, v: seq<Rune>, i: nat)
    requires 0 < i <= |v|
  {
    && (p.PText? || p.PBlanks?) && PJoin(p) == v[..i]
    && (p.PBlanks? <==> v[i - 1] == SPACE)
    && (p.PText? ==> p.mark == Marks(v, i - 1))
  }

  /** The scanner can go on over character j. */
  predicate GoesOn(v: seq<Rune>, j: nat, flow: bool)
    requires j < |v|
  {
    if j == 0 then v[0] != SPACE && !IsStartIndicator(v[0]) && !(flow && (v[0] == 0x3F || v[0] == 0x3A))
    else if v[j] == SPACE then !Marks(v, j - 1)
    else !(flow && IsFlowIndicator(v[j])) && !(v[j] == 0x23 && v[j - 1] == SPACE)
  }

  lemma OneMore(at: Place, p: Plain, v: seq<Rune>, i: nat)
    requires 0 < i < |v| && Literally(p, v, i) && AllPrintable(v) && NoBreak(v)
    ensures if GoesOn(v, i, at.flow) then Literally(PStep(at, p, v[i]), v, i + 1) else PStep(at, p, v[i]) == PEnd
  {
    hide IsStartIndicator, IsFlowIndicator;
    assert v[..i + 1] == v[..i] + [v[i]];
    assert IsPrintable(v[i]) && !IsBreak(v[i]);
  }

  lemma FirstOne(at: Place, v: seq<Rune>)
    requires v != [] && AllPrintable(v) && NoBreak(v)
    ensures if GoesOn(v, 0, at.flow) then Literally(PFirst(at, v[0]), v, 1) else PFirst(at, v[0]) == PEnd
  {
    hide IsStartIndicator;
    assert v[..1] == [v[0]];
    assert IsPrintable(v[0]) && !IsBreak(v[0]);
  }

  lemma FirstStep(at: Place, r: Rune)
    ensures PScanned(at, PStart, []) == PStart && PStep(at, PStart, r) == PFirst(at, r)
  {}

  lemma EndStays(at: Place, r: Rune)
    ensures PStep(at, PEnd, r) == PEnd
  {}

  lemma {:induction false} ReadsLiterally(at: Place, v: seq<Rune>, i: nat)
    requires 0 < i <= |v| && AllPrintable(v) && NoBreak(v)
    ensures var p := PScanned(at, PStart, v[..i]);
            if forall j :: 0 <= j < i ==> GoesOn(v, j, at.flow) then Literally(p, v, i) else p == PEnd
  {
    hide PStep, GoesOn, Literally, AllPrintable, NoBreak;
    var n := i - 1;
    assert v[..i] == v[..n] + [v[n]];
    PScannedConcat(at, PStart, v[..n], [v[n]]);
    PScanned1(at, PScanned(at, PStart, v[..n]), v[n]);
    if n == 0 {
      FirstOne(at, v);
      FirstStep(at, v[0]);
    } else {
      ReadsLiterally(at, v, n);
      EndStays(at, v[n]);
      if forall j :: 0 <= j < n ==> GoesOn(v, j, at.flow) {
        OneMore(at, PScanned(at, PStart, v[..n]), v, n);
      }
    }
  }

  predicate NoColon(v: seq<Rune>) {
    forall i :: 0 <= i < |v| ==> v[i] != 0x3A
  }

  /** No character stops the scanner, and neither does the end. */
  predicate AllGo(v: seq<Rune>, flow: bool) {
    && v != [] && !BeginsLikeMarker(v)
    && (forall j :: 0 <= j < |v| ==> GoesOn(v, j, flow))
    && v[|v| - 1] != SPACE && !Marks(v, |v| - 1)
  }

  lemma ReadPlainExactly(at: Place, v: seq<Rune>)
    requires v != [] && AllPrintable(v) && NoBreak(v)
    ensures ReadPlain(at, v) == Some(v) <==> AllGo(v, at.flow)
  {
    ReadsLiterally(at, v, |v|);
    assert v[..|v|] == v;
    hide PScanned, AllPrintable, NoBreak, GoesOn, BeginsLikeMarker;
  }

  lemma IndicatorCodes()
    ensures !IsStartIndicator(0x2D) && !IsStartIndicator(0x3F) && !IsStartIndicator(0x3A) && !IsStartIndicator(SPACE)
    ensures !IsFlowIndicator(0x3A) && !IsFlowIndicator(0x2D) && !IsFlowIndicator(SPACE)
  {}

  /** An indicator is where the scanner stops, there or right after it, or a colon in flow context. */
  lemma IndicatesExactly(v: seq<Rune>, i: nat, flow: bool)
    requires i < |v| && AllPrintable(v) && NoBreak(v) && v[0] != SPACE
    ensures IndicatesAt(v, i, flow) <==>
              || (!GoesOn(v, i, flow) && v[i] != SPACE)
              || (Marks(v, i) && (i + 1 == |v| || v[i + 1] == SPACE) && !(flow && v[i] == 0x3F))
              || (flow && v[i] == 0x3A)
  {
    hide IsStartIndicator;
    assert i + 1 < |v| ==> IsPrintable(v[i + 1]);
    assert i > 0 ==> IsPrintable(v[i - 1]) && !IsBreak(v[i - 1]);
    assert !IsStartIndicator(0x2D) && !IsStartIndicator(0x3F) && !IsStartIndicator(0x3A) by { IndicatorCodes(); }
  }

  lemma SafeGoesOn(v: seq<Rune>, flow: bool)
    requires PlainSafe(v, flow)
    ensures AllGo(v, flow) && (flow ==> NoColon(v))
  {
    forall j | 0 <= j < |v|
      ensures GoesOn(v, j, flow) && (flow ==> v[j] != 0x3A)
    {
      IndicatesExactly(v, j, flow);
      if j > 0 { IndicatesExactly(v, j - 1, flow); }
      hide IndicatesAt, IsStartIndicator, IsFlowIndicator;
      IndicatorCodes();
    }
    IndicatesExactly(v, |v| - 1, flow);
    hide IndicatesAt, GoesOn;
  }

  lemma GoingOnIsSafe(v: seq<Rune>, flow: bool)
    requires AllPrintable(v) && NoBreak(v) && AllGo(v, flow) && (flow ==> NoColon(v))
    ensures PlainSafe(v, flow)
  {
    assert GoesOn(v, 0, flow);
    forall i | 0 <= i < |v|
      ensures !IndicatesAt(v, i, flow)
    {
      IndicatesExactly(v, i, flow);
      hide IndicatesAt, IsStartIndicator, IsFlowIndicator;
      assert i + 1 < |v| ==> GoesOn(v, i + 1, flow);
    }
  }

  /**
   Text may be written plain exactly if it is printable, on one line, and the scanner reads it back as it
   stands; in flow context it also has no colon, though the scanner would take one inside a word.
   */
  lemma PlainExactly(at: Place, v: seq<Rune>)
    ensures PlainSafe(v, at.flow) <==>
              && v != [] && AllPrintable(v) && NoBreak(v) && ReadPlain(at, v) == Some(v)
              && (at.flow ==> NoColon(v))
  {
    if v != [] && AllPrintable(v) && NoBreak(v) {
      ReadPlainExactly(at, v);
      if PlainSafe(v, at.flow) {
        SafeGoesOn(v, at.flow);
      } else if AllGo(v, at.flow) && (at.flow ==> NoColon(v)) {
        GoingOnIsSafe(v, at.flow);
      }
    }
  }

  function CodeOf(c: char): int {
    c as int
  }

  /** The indicators, by their characters. */
  lemma IndicatorCharacters(r: Rune)
    ensures IsStartIndicator(r) <==> exists i :: 0 <= i < 16 && r == CodeOf("#,[]{}&*!|>'\"%@`"[i])
    ensures IsFlowIndicator(r) <==> exists i :: 0 <= i < 6 && r == CodeOf(",?[]{}"[i])
  {
    var starts, flows := "#,[]{}&*!|>'\"%@`", ",?[]{}";
    assert |starts| == 16 && |flows| == 6;
    var s := [0x23, 0x2C, 0x5B, 0x5D, 0x7B, 0x7D, 0x26, 0x2A, 0x21, 0x7C, 0x3E, 0x27, 0x22, 0x25, 0x40, 0x60];
    var f := [0x2C, 0x3F, 0x5B, 0x5D, 0x7B, 0x7D];
    assert forall i :: 0 <= i < 16 ==> s[i] == CodeOf(starts[i]);
    assert forall i :: 0 <= i < 6 ==> f[i] == CodeOf(flows[i]);
  }
}
