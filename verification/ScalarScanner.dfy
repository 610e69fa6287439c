/**
 The reading side of scalars: go-yaml's own scanner (go-yaml/scannerc.go) for
 quoted and plain scalars, as automata that consume one code point at a time.

 Folding follows the scanner: CR, LF, CR LF and NEL all count as one LF, a lone
 LF between two lines is a space, LS and PS are kept.  Two points are stricter than
 the scanner, so that what these automata accept the scanner accepts too: any
 content at column 0 of a continuation line is refused (the scanner refuses only
 document markers there), and a plain scalar may not begin like a document marker.
 */
module ScalarScanner {
  import opened Utf8
  import opened Wrappers

  datatype Quote = Single | Double

  datatype Scan =
    | Text(s: seq<Rune>)
    | Blanks(s: seq<Rune>, ws: seq<Rune>)
    | Breaks(s: seq<Rune>, lead: seq<Rune>, trail: seq<Rune>, cr: bool, col: nat)
    | Apostrophe(s: seq<Rune>)
    | Escape(s: seq<Rune>)
    | Hex(s: seq<Rune>, left: nat, acc: nat)
    | Closed(s: seq<Rune>)
    | Bad

  /** read_line: what one line break contributes. */
  function ReadBreak(r: Rune): Rune {
    if r == CR || r == 0x85 then LF else r
  }

  /** What a run of line breaks contributes to the value. */
  function Fold(lead: seq<Rune>, trail: seq<Rune>): seq<Rune> {
    if lead == [LF] then (if trail == [] then [SPACE] else trail) else lead + trail
  }

  /** The value read so far, once pending blanks or breaks are joined to it. */
  function Join(sc: Scan): seq<Rune> {
    match sc
    case Blanks(s, ws) => s + ws
    case Breaks(s, lead, trail, _, _) => s + Fold(lead, trail)
    case Bad => []
    case _ => sc.s
  }

  function Unescape(r: Rune): Option<Rune> {
    match r
    case 0x30 => Some(0x00)  // 0
    case 0x61 => Some(0x07)  // a
    case 0x62 => Some(0x08)  // b
    case 0x74 => Some(0x09)  // t
    case 0x09 => Some(0x09)
    case 0x6E => Some(0x0A)  // n
    case 0x76 => Some(0x0B)  // v
    case 0x66 => Some(0x0C)  // f
    case 0x72 => Some(0x0D)  // r
    case 0x65 => Some(0x1B)  // e
    case 0x20 => Some(0x20)
    case 0x22 => Some(0x22)  // "
    case 0x27 => Some(0x27)  // '
    case 0x5C => Some(0x5C)  // \
    case 0x4E => Some(0x85)  // N
    case 0x5F => Some(0xA0)  // _
    case 0x4C => Some(0x2028)  // L
    case 0x50 => Some(0x2029)  // P
    case _ => None
  }

  function CodeLength(r: Rune): nat {
    if r == 0x78 then 2 else if r == 0x75 then 4 else if r == 0x55 then 8 else 0
  }

  function HexValue(r: Rune): Option<nat> {
    if 0x30 <= r <= 0x39 then Some(r - 0x30)
    else if 0x41 <= r <= 0x46 then Some(r - 0x41 + 10)
    else if 0x61 <= r <= 0x66 then Some(r - 0x61 + 10)
    else None
  }

  predicate IsScalarValue(v: int) {
    0 <= v <= 0x10FFFF && !(0xD800 <= v <= 0xDFFF)
  }

  function StepBreak(sc: Scan, r: Rune): Scan
    requires IsBreak(r) && (sc.Text? || sc.Blanks? || sc.Breaks?)
  {
    match sc
    case Breaks(s, lead, trail, cr, _) =>
      if cr && r == LF then sc.(cr := false)
      else Breaks(s, lead, trail + [ReadBreak(r)], r == CR, 0)
    case _ => Breaks(sc.s, [ReadBreak(r)], [], r == CR, 0)
  }

  function StepBlank(sc: Scan, r: Rune): Scan
    requires IsBlank(r) && (sc.Text? || sc.Blanks? || sc.Breaks?)
  {
    match sc
    case Breaks(_, _, _, _, col) => sc.(cr := false, col := col + 1)
    case Blanks(s, ws) => Blanks(s, ws + [r])
    case _ => Blanks(sc.s, [r])
  }

  function StepContent(q: Quote, sc: Scan, r: Rune): Scan
    requires !IsBlankZ(r) && (sc.Text? || sc.Blanks? || sc.Breaks?)
  {
    if q == Single && r == 0x27 then Apostrophe(Join(sc))
    else if q == Double && r == 0x22 then Closed(Join(sc))
    else if sc.Breaks? && sc.col == 0 then Bad
    else if q == Double && r == 0x5C then Escape(Join(sc))
    else Text(Join(sc) + [r])
  }

  function StepEscape(s: seq<Rune>, r: Rune): Scan {
    if IsBreak(r) then Breaks(s, [], [], r == CR, 0)
    else if CodeLength(r) > 0 then Hex(s, CodeLength(r), 0)
    else match Unescape(r) case None => Bad case Some(v) => Text(s + [v])
  }

  function StepHex(s: seq<Rune>, left: nat, acc: nat, r: Rune): Scan {
    match HexValue(r)
    case None => Bad
    case Some(d) =>
      var v := acc * 16 + d;
      if left > 1 then Hex(s, left - 1, v)
      else if IsScalarValue(v) then Text(s + [v]) else Bad
  }

  function Step(q: Quote, sc: Scan, r: Rune): Scan {
    match sc
    case Closed(_) => Bad
    case Bad => Bad
    case Apostrophe(s) => if r == 0x27 then Text(s + [r]) else Bad
    case Escape(s) => StepEscape(s, r)
    case Hex(s, left, acc) => StepHex(s, left, acc, r)
    case _ =>
      if r == 0 then Bad
      else if IsBreak(r) then StepBreak(sc, r)
      else if IsBlank(r) then StepBlank(sc, r)
      else StepContent(q, sc, r)
  }

  /** The automaton run over t. */
  function Scanned(q: Quote, sc: Scan, t: seq<Rune>): Scan {
    if t == [] then sc else Step(q, Scanned(q, sc, t[..|t| - 1]), t[|t| - 1])
  }

  lemma {:induction false} ScannedConcat(q: Quote, sc: Scan, t: seq<Rune>, u: seq<Rune>)
    ensures Scanned(q, sc, t + u) == Scanned(q, Scanned(q, sc, t), u)
  {
    if u == [] {
      assert t + u == t;
    } else {
      assert (t + u)[..|t + u| - 1] == t + u[..|u| - 1];
      ScannedConcat(q, sc, t, u[..|u| - 1]);
    }
  }

  lemma Scanned1(q: Quote, sc: Scan, a: Rune)
    ensures Scanned(q, sc, [a]) == Step(q, sc, a)
  {
    assert [a][..0] == [];
  }

  lemma Scanned2(q: Quote, sc: Scan, a: Rune, b: Rune)
    ensures Scanned(q, sc, [a, b]) == Step(q, Step(q, sc, a), b)
  {
    assert [a, b] == [a] + [b];
    ScannedConcat(q, sc, [a], [b]);
    Scanned1(q, sc, a);
    Scanned1(q, Step(q, sc, a), b);
  }

  function QuoteMark(q: Quote): Rune {
    if q == Single then 0x27 else 0x22
  }

  /** The value of a complete quoted scalar, both quotes included. */
  function ReadQuoted(q: Quote, t: seq<Rune>): Option<seq<Rune>> {
    if t == [] || t[0] != QuoteMark(q) then None
    else match Scanned(q, Text([]), t[1..])
      case Apostrophe(s) => if q == Single then Some(s) else None
      case Closed(s) => Some(s)
      case _ => None
  }

  // ----- Plain scalars ---------------------------------------------------------

  datatype Plain =
    | PStart
    | PText(s: seq<Rune>, mark: bool)  // mark: what follows may not be a blank or the end
    | PBlanks(s: seq<Rune>, ws: seq<Rune>)
    | PBreaks(s: seq<Rune>, lead: seq<Rune>, trail: seq<Rune>, cr: bool, col: nat)
    | PEnd

  /** Where the reader stands: inside flow brackets or not, and the least column of a continuation line. */
  datatype Place = Place(flow: bool, indent: int)

  function PJoin(p: Plain): seq<Rune> {
    match p
    case PText(s, _) => s
    case PBlanks(s, ws) => s + ws
    case PBreaks(s, lead, trail, _, _) => s + Fold(lead, trail)
    case _ => []
  }

  /** Characters that begin some other token. */
  predicate IsStartIndicator(r: Rune) {
    r in [0x23, 0x2C, 0x5B, 0x5D, 0x7B, 0x7D, 0x26, 0x2A, 0x21, 0x7C, 0x3E, 0x27, 0x22, 0x25, 0x40, 0x60]
  }

  predicate IsFlowIndicator(r: Rune) {
    r in [0x2C, 0x3F, 0x5B, 0x5D, 0x7B, 0x7D]
  }

  function PFirst(at: Place, r: Rune): Plain {
    if IsBlankZ(r) || IsStartIndicator(r) then PEnd
    else if r == 0x2D then PText([r], true)
    else if r == 0x3F || r == 0x3A then (if at.flow then PEnd else PText([r], true))
    else PText([r], false)
  }

  function PBreakStep(p: Plain, r: Rune): Plain
    requires IsBreak(r)
  {
    match p
    case PText(s, mark) => if mark then PEnd else PBreaks(s, [ReadBreak(r)], [], r == CR, 0)
    case PBlanks(s, _) => PBreaks(s, [ReadBreak(r)], [], r == CR, 0)
    case PBreaks(s, lead, trail, cr, _) =>
      if cr && r == LF then p.(cr := false)
      else PBreaks(s, lead, trail + [ReadBreak(r)], r == CR, 0)
    case _ => PEnd
  }

  function PBlankStep(at: Place, p: Plain, r: Rune): Plain
    requires IsBlank(r)
  {
    match p
    case PText(s, mark) => if mark then PEnd else PBlanks(s, [r])
    case PBlanks(s, ws) => PBlanks(s, ws + [r])
    case PBreaks(_, _, _, _, col) =>
      if r == TAB && col < at.indent then PEnd else p.(cr := false, col := col + 1)
    case _ => PEnd
  }

  function PContentStep(at: Place, p: Plain, r: Rune): Plain
    requires !IsBlankZ(r)
  {
    if at.flow && IsFlowIndicator(r) then PEnd
    else if r == 0x23 && !p.PText? then PEnd
    else if p.PBreaks? && (p.col == 0 || (!at.flow && p.col < at.indent)) then PEnd
    else PText(PJoin(p) + [r], r == 0x3A)
  }

  /** PEnd: the scanner would end the scalar here, or refuse it. */
  function PStep(at: Place, p: Plain, r: Rune): Plain {
    match p
    case PStart => PFirst(at, r)
    case PEnd => PEnd
    case _ =>
      if r == 0 then PEnd
      else if IsBreak(r) then PBreakStep(p, r)
      else if IsBlank(r) then PBlankStep(at, p, r)
      else PContentStep(at, p, r)
  }

  function PScanned(at: Place, p: Plain, t: seq<Rune>): Plain {
    if t == [] then p else PStep(at, PScanned(at, p, t[..|t| - 1]), t[|t| - 1])
  }

  lemma {:induction false} PScannedConcat(at: Place, p: Plain, t: seq<Rune>, u: seq<Rune>)
    ensures PScanned(at, p, t + u) == PScanned(at, PScanned(at, p, t), u)
  {
    if u == [] {
      assert t + u == t;
    } else {
      assert (t + u)[..|t + u| - 1] == t + u[..|u| - 1];
      PScannedConcat(at, p, t, u[..|u| - 1]);
    }
  }

  lemma PScanned1(at: Place, p: Plain, a: Rune)
    ensures PScanned(at, p, [a]) == PStep(at, p, a)
  {
    assert [a][..0] == [];
  }

  predicate BeginsLikeMarker(t: seq<Rune>) {
    t[..if |t| < 3 then 0 else 3] in [[0x2D, 0x2D, 0x2D], [0x2E, 0x2E, 0x2E]]
  }

  /** The value of t when all of t is one plain scalar. */
  function ReadPlain(at: Place, t: seq<Rune>): Option<seq<Rune>> {
    match PScanned(at, PStart, t)
    case PText(s, mark) => if mark || BeginsLikeMarker(s) then None else Some(s)
    case _ => None
  }
}
