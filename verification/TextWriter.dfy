/**
 The writing primitives of the emitter: the bounded output buffer
 (go-yaml/emitterc.go:31-120, go-yaml/writerc.go:33-48) and the indentation and
 indicator writers built on it (emitterc.go:1524-1565).
 */
module TextWriter {
  import opened Utf8
  import opened Wrappers

  datatype LineBreak = CrBreak | LnBreak | CrLnBreak

  function BreakRunes(lb: LineBreak): seq<Rune> {
    match lb case CrBreak => [CR] case LnBreak => [LF] case CrLnBreak => [CR, LF]
  }

  function Spaces(n: nat): (s: seq<Rune>)
    ensures |s| == n && forall i :: 0 <= i < n ==> s[i] == SPACE
  {
    seq(n, _ => SPACE)
  }

  lemma SpacesMore(n: nat)
    ensures Spaces(n) + [SPACE] == Spaces(n + 1)
  {}

  function UsedIndent(bestIndent: int): int {
    if 2 <= bestIndent <= 9 then bestIndent else 2
  }

  /** A width too small for two indents is 80, a negative one is no limit. */
  function UsedWidth(bestIndent: int, bestWidth: int): int {
    if bestWidth < 0 then 0x7FFF_FFFF else if bestWidth <= 2 * UsedIndent(bestIndent) then 80 else bestWidth
  }

  class Writer {
    const lineBreak: LineBreak
    const bestWidth: int
    const unicode: bool
    const buffer: array<Byte>

    var bufferPos: nat
    var delivered: seq<Byte>  // what the write handler has been given
    var failed: bool          // yaml_WRITER_ERROR was set
    var column: nat
    var whitespace: bool
    var indention: bool
    var openEnded: bool
    var footIndent: int
    ghost var text: seq<Rune> // every character put so far

    /** Bytes delivered plus bytes buffered are all bytes put. */
    ghost predicate Valid()
      reads this, buffer
    {
      && buffer.Length >= 6
      && bufferPos <= buffer.Length
      && delivered + buffer[..bufferPos] == Encode(text)
    }

    /** yaml_emitter_initialize and the width and break defaults of STREAM-START; None asks for any break. */
    constructor (lineBreak: Option<LineBreak>, bestIndent: int, bestWidth: int, unicode: bool)
      ensures Valid() && fresh(buffer) && text == [] && delivered == []
      ensures this.lineBreak == (if lineBreak.None? then LnBreak else lineBreak.value) && this.unicode == unicode
      ensures this.bestWidth > 4 && (bestWidth < 0 ==> this.bestWidth == 0x7FFF_FFFF)
      ensures bestWidth >= 0 ==>
                var twoIndents := if 2 <= bestIndent <= 9 then 2 * bestIndent else 4;
                this.bestWidth == if bestWidth > twoIndents then bestWidth else 80
      ensures column == 0 && whitespace && indention && footIndent == -1 && !failed
    {
      this.lineBreak := if lineBreak.None? then LnBreak else lineBreak.value;
      this.bestWidth, this.unicode := UsedWidth(bestIndent, bestWidth), unicode;
      buffer := new Byte[128];
      bufferPos, delivered, failed := 0, [], false;
      column, whitespace, indention, openEnded, footIndent := 0, true, true, false, -1;
      text := [];
    }

    /** The write handler may refuse at any call; then nothing is lost from the buffer. */
    method Flush() returns (ok: bool)
      requires Valid()
      modifies this`bufferPos, this`delivered, this`failed
      ensures Valid()
      ensures ok ==> bufferPos == 0 && failed == old(failed)
      ensures !ok ==> failed && bufferPos == old(bufferPos) && delivered == old(delivered)
    {
      if bufferPos == 0 {
        return true;
      }
      var refused: bool := *;
      if refused {
        failed := true;
        return false;
      }
      delivered := delivered + buffer[..bufferPos];
      bufferPos := 0;
      assert buffer[..0] == [];
      return true;
    }

    /** Room for one more character: at most four bytes. */
    method Room() returns (ok: bool)
      requires Valid()
      modifies this`bufferPos, this`delivered, this`failed
      ensures Valid()
      ensures ok ==> bufferPos + 5 < buffer.Length || bufferPos == 0
      ensures ok ==> failed == old(failed)
      ensures !ok ==> failed
    {
      ok := true;
      if bufferPos + 5 >= buffer.Length {
        ok := Flush();
      }
    }

    /** Store the bytes of one character at the end of the buffer. */
    method Store(r: Rune)
      requires Valid()
      requires bufferPos + |EncodeRune(r)| <= buffer.Length
      modifies this`bufferPos, this`text, buffer
      ensures Valid()
      ensures text == old(text) + [r]
      ensures bufferPos == old(bufferPos) + |EncodeRune(r)|
    {
      hide EncodeRune;
      var e := EncodeRune(r);
      ghost var kept := buffer[..bufferPos];
      forall k | 0 <= k < |e| {
        buffer[bufferPos + k] := e[k];
      }
      assert buffer[..bufferPos + |e|] == kept + e;
      bufferPos := bufferPos + |e|;
      text := text + [r];
      EncodeConcat(old(text), [r]);
      assert Encode([r]) == e + Encode([]) == e;
      assert delivered + (kept + e) == (delivered + kept) + e;
    }

    /** put, and write for a character of any width. */
    method Put(r: Rune) returns (ok: bool)
      requires Valid()
      modifies this`bufferPos, this`delivered, this`failed, this`text, this`column, buffer
      ensures Valid()
      ensures ok ==> text == old(text) + [r] && column == old(column) + 1 && failed == old(failed)
      ensures !ok ==> failed
    {
      ok := Room();
      if ok {
        Store(r);
        column := column + 1;
      }
    }

    method PutBreak() returns (ok: bool)
      requires Valid()
      modifies this`bufferPos, this`delivered, this`failed, this`text, this`column, this`indention, buffer
      ensures Valid()
      ensures ok ==> text == old(text) + BreakRunes(lineBreak)
      ensures ok ==> column == 0 && indention && failed == old(failed)
      ensures !ok ==> failed
    {
      ok := Room();
      if ok {
        match lineBreak {
          case CrBreak => Store(CR);
          case LnBreak => Store(LF);
          case CrLnBreak => Store(CR); Store(LF);
        }
        column := 0;
        indention := true;
      }
    }

    /** write_break: an LF becomes the chosen line break, any other break is copied. */
    method WriteBreak(r: Rune) returns (ok: bool)
      requires Valid()
      modifies this`bufferPos, this`delivered, this`failed, this`text, this`column, this`indention, buffer
      ensures Valid()
      ensures ok ==> text == old(text) + (if r == LF then BreakRunes(lineBreak) else [r])
      ensures ok ==> column == 0 && indention && failed == old(failed)
      ensures !ok ==> failed
    {
      if r == LF {
        ok := PutBreak();
      } else {
        ok := Put(r);
        if ok {
          column := 0;
          indention := true;
        }
      }
    }

    static function Clamp(indent: int): nat {
      if indent < 0 then 0 else indent
    }

    /** Does write_indent start a new line? */
    predicate MustBreak(indent: int)
      reads this
    {
      !indention || column > Clamp(indent) || (column == Clamp(indent) && !whitespace)
    }

    /** The line breaks write_indent puts: one for a new line, one more below a foot comment of this indent. */
    function IndentBreaks(indent: int): seq<Rune>
      reads this
    {
      var newLine := !indention || column > Clamp(indent) || (column == Clamp(indent) && !whitespace);
      (if newLine then BreakRunes(lineBreak) else [])
      + (if footIndent == Clamp(indent) then BreakRunes(lineBreak) else [])
    }

    method WriteIndent(indent: int) returns (ok: bool)
      requires Valid()
      modifies this`bufferPos, this`delivered, this`failed, this`text, this`column
      modifies this`indention, this`whitespace, this`footIndent, buffer
      ensures Valid()
      ensures ok ==> text == old(text) + old(IndentBreaks(indent))
                             + Spaces(Clamp(indent) - if old(IndentBreaks(indent)) == [] then old(column) else 0)
      ensures ok ==> indention == (old(indention) || old(IndentBreaks(indent)) != []) && column == Clamp(indent)
      ensures ok ==> whitespace && footIndent == -1 && failed == old(failed)
      ensures !ok ==> failed
    {
      hide Encode, EncodeRune;
      var target := Clamp(indent);
      ok := true;
      ghost var breaks := IndentBreaks(indent);
      if MustBreak(indent) {
        ok := PutBreak();
        if !ok { return; }
      }
      if footIndent == target {
        ok := PutBreak();
        if !ok { return; }
      }
      assert text == old(text) + breaks;
      ok := PadTo(target);
      if !ok { return; }
      whitespace, footIndent := true, -1;
    }

    /** Spaces up to a column. */
    method PadTo(target: nat) returns (ok: bool)
      requires Valid() && column <= target
      modifies this`bufferPos, this`delivered, this`failed, this`text, this`column, buffer
      ensures Valid()
      ensures ok ==> text == old(text) + Spaces(target - old(column)) && column == target && failed == old(failed)
      ensures !ok ==> failed
    {
      ok := true;
      assert text + Spaces(0) == text;
      while column < target
        invariant Valid() && old(column) <= column <= target
        invariant text == old(text) + Spaces(column - old(column)) && failed == old(failed)
      {
        ghost var n := column - old(column);
        SpacesMore(n);
        assert old(text) + (Spaces(n) + [SPACE]) == old(text) + Spaces(n) + [SPACE];
        ok := Put(SPACE);
        if !ok { return; }
      }
    }

    /** The column test of a compact sequence: at a line start, or past the indentation. */
    predicate AtStart()
      reads this`column, this`indention
    {
      column == 0 || !indention
    }

    method WriteIndicator(indicator: seq<Rune>, needWhitespace: bool, isWhitespace: bool, isIndention: bool)
      returns (ok: bool)
      requires Valid()
      modifies this`bufferPos, this`delivered, this`failed, this`text, this`column
      modifies this`indention, this`whitespace, this`openEnded, buffer
      ensures Valid()
      ensures ok ==> text == old(text) + (if needWhitespace && !old(whitespace) then [SPACE] + indicator else indicator)
      ensures ok ==> whitespace == isWhitespace && indention == (old(indention) && isIndention) && !openEnded
      ensures ok ==> column == old(column) + |text| - |old(text)|
      ensures ok ==> failed == old(failed)
      ensures !ok ==> failed
    {
      hide Encode, EncodeRune;
      ok := true;
      if needWhitespace && !whitespace {
        ok := Put(SPACE);
        if !ok { return; }
      }
      ghost var base := text;
      for i := 0 to |indicator|
        invariant Valid() && text == base + indicator[..i] && column == old(column) + |text| - |old(text)|
        invariant failed == old(failed) && indention == old(indention)
      {
        assert indicator[..i + 1] == indicator[..i] + [indicator[i]];
        ok := Put(indicator[i]);
        if !ok { return; }
      }
      assert indicator[..|indicator|] == indicator;
      whitespace, indention, openEnded := isWhitespace, indention && isIndention, false;
      ok := true;
    }

    /** The colon before the value of a block mapping: on the line of a simple key, on its own line otherwise. */
    method WriteColon(indent: int, simple: bool) returns (ok: bool)
      requires Valid()
      modifies this`bufferPos, this`delivered, this`failed, this`text, this`column
      modifies this`indention, this`whitespace, this`footIndent, this`openEnded, buffer
      ensures Valid()
      ensures ok ==> AtStart() == simple && column > 0 && failed == old(failed)
      ensures !ok ==> failed
    {
      if simple {
        ok := WriteIndicator([0x3A], false, false, false);
      } else {
        ok := WriteIndent(indent);
        if !ok { return; }
        ok := WriteIndicator([0x3A], true, false, true);
      }
    }
  }
}
