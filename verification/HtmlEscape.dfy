/**
 The entity-aware escaper of blackfriday/esc.go:8-65.

 Known entities are a set of strings.  What the escaper needs of them holds of the table in
 blackfriday/entities.go: those that end in a semicolon are an ampersand, letters and digits,
 and the semicolon; and the four escapes are among them.
 */
module HtmlEscape {

  predicate IsAlnum(c: char) {
    '0' <= c <= '9' || 'a' <= c <= 'z' || 'A' <= c <= 'Z'
  }

  /** What nodeIsEntity walks over. */
  predicate InName(c: char) {
    IsAlnum(c) || c == '&' || c == '#'
  }

  predicate Special(c: char) {
    c == '&' || c == '<' || c == '>' || c == '"'
  }

  function EscapeOf(c: char): string
    requires Special(c)
  {
    if c == '&' then "&amp;" else if c == '<' then "&lt;" else if c == '>' then "&gt;" else "&quot;"
  }

  /** The first place from p on that is not part of a name. */
  function NameEnd(s: string, p: nat): (e: nat)
    requires p <= |s|
    ensures p <= e <= |s| && (forall i :: p <= i < e ==> InName(s[i])) && (e < |s| ==> !InName(s[e]))
    decreases |s| - p
  {
    if p < |s| && InName(s[p]) then NameEnd(s, p + 1) else p
  }

  /** The length of the entity at the front of s; zero if there is none. */
  function EntityLength(table: set<string>, s: string): (n: nat)
    ensures n <= |s| && (n > 0 ==> s[0] == '&' && s[n - 1] == ';' && s[..n] in table)
  {
    if s == "" || s[0] != '&' then 0
    else
      var e := NameEnd(s, 1);
      if e < |s| && s[e] == ';' && s[..e + 1] in table then e + 1 else 0
  }

  ghost predicate TableFits(table: set<string>) {
    && (forall e :: e in table && e != "" && e[|e| - 1] == ';' ==>
          |e| > 1 && forall i :: 1 <= i < |e| - 1 ==> IsAlnum(e[i]))
    && {"&amp;", "&lt;", "&gt;", "&quot;"} <= table
  }

  /** The front of a text is an entity exactly if it is an entry of the table from an ampersand to a semicolon. */
  lemma EntityExactly(table: set<string>, s: string, n: nat)
    requires TableFits(table) && 0 < n <= |s|
    ensures EntityLength(table, s) == n <==> s[0] == '&' && s[n - 1] == ';' && s[..n] in table
  {
    if s[0] == '&' && s[n - 1] == ';' && s[..n] in table {
      var e, end := s[..n], NameEnd(s, 1);
      assert e[|e| - 1] == ';' && |e| > 1;
      assert forall i :: 1 <= i < n - 1 ==> s[i] == e[i] && IsAlnum(s[i]);
      assert !InName(s[n - 1]);
      assert end == n - 1;
    }
  }

  /** The escaped text; with all, known entities are escaped too. */
  function Escape(table: set<string>, s: string, all: bool): string
    decreases |s|
  {
    if s == "" then ""
    else if !Special(s[0]) then [s[0]] + Escape(table, s[1..], all)
    else
      var n := EntityLength(table, s);
      if n > 0 && !all then s[..n] + Escape(table, s[n..], all)
      else EscapeOf(s[0]) + Escape(table, s[1..], all)
  }

  // ----- The scanner ------------------------------------------------------------------------------

  method NodeIsEntity(table: set<string>, s: string, end: nat) returns (isEntity: bool, endEntityPos: nat)
    requires end < |s|
    ensures isEntity <==> EntityLength(table, s[end..]) > 0
    ensures isEntity ==> endEntityPos + 1 == end + EntityLength(table, s[end..])
  {
    isEntity, endEntityPos := false, end + 1;
    if s[end] == '&' {
      ghost var t := s[end..];
      while endEntityPos < |s|
        invariant end < endEntityPos <= |s| && !isEntity
        invariant NameEnd(t, 1) == NameEnd(t, endEntityPos - end)
        decreases |s| - endEntityPos
      {
        assert t[endEntityPos - end] == s[endEntityPos];
        assert t[..endEntityPos + 1 - end] == s[end..endEntityPos + 1];
        if s[endEntityPos] == ';' {
          if s[end..endEntityPos + 1] in table {
            isEntity := true;
            break;
          }
        }
        if !IsAlnum(s[endEntityPos]) && s[endEntityPos] != '&' && s[endEntityPos] != '#' {
          break;
        }
        endEntityPos := endEntityPos + 1;
      }
    }
  }

  /** Inside an entity, after its ampersand, nothing is special. */
  lemma EntityIsPlain(table: set<string>, s: string, i: nat)
    requires TableFits(table) && 0 < i < EntityLength(table, s)
    ensures !Special(s[i])
  {
    var n := EntityLength(table, s);
    assert s[..n][i] == s[i] && s[..n][n - 1] == ';';
  }

  lemma EntityAllPlain(table: set<string>, s: string, end: nat)
    requires TableFits(table) && end < |s|
    ensures forall i :: end < i < end + EntityLength(table, s[end..]) ==> !Special(s[i])
  {
    hide TableFits, EntityLength;
    forall i | end < i < end + EntityLength(table, s[end..]) ensures !Special(s[i]) {
      EntityIsPlain(table, s[end..], i - end);
    }
  }

  /** What the loop has still to write when it stands at end, everything before start being written. */
  function Pending(table: set<string>, s: string, all: bool, start: nat, end: nat): string
    requires start <= |s| && end <= |s|
  {
    if start <= end then s[start..end] + Escape(table, s[end..], all) else Escape(table, s[start..], all)
  }

  lemma EscapeStep(table: set<string>, s: string, all: bool, end: nat)
    requires end < |s|
    ensures var n := EntityLength(table, s[end..]);
            Escape(table, s[end..], all) ==
              if !Special(s[end]) then [s[end]] + Escape(table, s[end + 1..], all)
              else if n > 0 && !all then s[end..end + n] + Escape(table, s[end + n..], all)
              else EscapeOf(s[end]) + Escape(table, s[end + 1..], all)
  {
    hide EntityLength, NameEnd;
    var t, n := s[end..], EntityLength(table, s[end..]);
    assert t[0] == s[end] && t[1..] == s[end + 1..] && t[..n] == s[end..end + n] && t[n..] == s[end + n..];
  }

  /** A plain character is left for later. */
  lemma PendingPlain(table: set<string>, s: string, all: bool, start: nat, end: nat)
    requires start <= |s| && end < |s| && !Special(s[end])
    ensures Pending(table, s, all, start, end) == Pending(table, s, all, start, end + 1)
  {
    hide Escape, EntityLength;
    EscapeStep(table, s, all, end);
    var more := Escape(table, s[end + 1..], all);
    if start <= end {
      assert s[start..end + 1] == s[start..end] + [s[end]];
    } else if start == end + 1 {
      assert s[start..end + 1] == "";
    }
  }

  lemma PendingIs(table: set<string>, s: string, all: bool, start: nat, end: nat)
    requires start <= |s| && end <= |s|
    ensures start <= end ==> Pending(table, s, all, start, end) == s[start..end] + Escape(table, s[end..], all)
    ensures start >= end ==> Pending(table, s, all, start, end) == Escape(table, s[start..], all)
  {
    hide Escape;
    if start == end {
      assert s[start..end] == "";
    }
  }

  lemma EntityIsLong(table: set<string>, s: string)
    requires EntityLength(table, s) > 0
    ensures EntityLength(table, s) > 1
  {
    var n := EntityLength(table, s);
    assert s[0] == '&' && s[n - 1] == ';';
  }

  lemma Cut(s: string, a: nat, b: nat, c: nat, rest: string)
    requires a <= b <= c <= |s|
    ensures s[a..b] + (s[b..c] + rest) == s[a..c] + rest
  {}

  lemma Join(a: string, b: string, c: string)
    ensures a + (b + c) == a + b + c && "" + c == c
  {}

  /** A special one is settled, with what was left. */
  lemma PendingSpecial(table: set<string>, s: string, all: bool, start: nat, end: nat)
    requires start <= end < |s| && Special(s[end])
    ensures var n := EntityLength(table, s[end..]);
            Pending(table, s, all, start, end) ==
              if n > 0 && !all then s[start..end + n] + Pending(table, s, all, end + n, end + 1)
              else s[start..end] + EscapeOf(s[end]) + Pending(table, s, all, end + 1, end + 1)
  {
    hide *;
    var n := EntityLength(table, s[end..]);
    EscapeStep(table, s, all, end);
    PendingIs(table, s, all, start, end);
    if n > 0 && !all {
      EntityIsLong(table, s[end..]);
      PendingIs(table, s, all, end + n, end + 1);
      Cut(s, start, end, end + n, Escape(table, s[end + n..], all));
    } else {
      PendingIs(table, s, all, end + 1, end + 1);
      Join(s[start..end], EscapeOf(s[end]), Escape(table, s[end + 1..], all));
    }
  }

  lemma Regroup(a: string, b: string, c: string, d: string)
    ensures a + (b + c + d) == (a + b) + c + d && b + "" == b && a + b + "" == a + b
  {}

  lemma PendingEnds(table: set<string>, s: string, all: bool)
    ensures Pending(table, s, all, 0, 0) == Escape(table, s, all)
    ensures forall start: nat :: start <= |s| ==> Pending(table, s, all, start, |s|) == s[start..]
  {
    assert s[0..0] == "" && s[0..] == s && s[|s|..] == "";
    forall start: nat | start <= |s| ensures Pending(table, s, all, start, |s|) == s[start..] {
      assert s[start..|s|] + "" == s[start..];
    }
  }

  method EscapeEntities(table: set<string>, s: string, escapeValidEntities: bool) returns (out: string)
    requires TableFits(table)
    ensures out == Escape(table, s, escapeValidEntities)
  {
    hide Escape, EntityLength, TableFits, Pending, Special, EscapeOf;
    PendingEnds(table, s, escapeValidEntities);
    out := "";
    var start: nat, end: nat := 0, 0;
    assert s[0..] == s;
    while end < |s|
      invariant end <= |s| && start <= |s|
      invariant forall i :: end <= i < start ==> !Special(s[i])
      invariant out + Pending(table, s, escapeValidEntities, start, end) == Escape(table, s, escapeValidEntities)
      decreases |s| - end
    {
      if Special(s[end]) {
        PendingSpecial(table, s, escapeValidEntities, start, end);
        var isEntity, entityEnd := NodeIsEntity(table, s, end);
        if isEntity && !escapeValidEntities {
          EntityAllPlain(table, s, end);
          Regroup(out, s[start..entityEnd + 1], "", Pending(table, s, escapeValidEntities, entityEnd + 1, end + 1));
          out := out + s[start..entityEnd + 1];
          start := entityEnd + 1;
        } else {
          Regroup(out, s[start..end], EscapeOf(s[end]), Pending(table, s, escapeValidEntities, end + 1, end + 1));
          out := out + s[start..end];
          out := out + EscapeOf(s[end]);
          start := end + 1;
        }
      } else {
        PendingPlain(table, s, escapeValidEntities, start, end);
      }
      end := end + 1;
    }
    if start < |s| && end <= |s| {
      out := out + s[start..end];
    } else {
      assert s[start..] == "" && out + "" == out;
    }
  }

  // ----- What escaping promises ---------------------------------------------------------------------

  /** No raw angle bracket or quote, and every ampersand starts an entity of the table. */
  predicate Clean(table: set<string>, s: string)
    decreases |s|
  {
    s == "" || (Clean(table, s[1..]) && (Special(s[0]) ==> EntityLength(table, s) > 0))
  }

  lemma SpecialEntity(table: set<string>, s: string)
    requires s != ""
    ensures EntityLength(table, s) > 0 ==> s[0] == '&'
  {}

  /** Being clean, place by place. */
  lemma {:induction false} CleanEverywhere(table: set<string>, s: string)
    ensures Clean(table, s) <==> forall i :: 0 <= i < |s| ==>
              (Special(s[i]) ==> s[i] == '&' && EntityLength(table, s[i..]) > 0)
    decreases |s|
  {
    if s != "" {
      hide EntityLength;
      var t := s[1..];
      CleanEverywhere(table, t);
      assert forall i :: 0 <= i < |t| ==> t[i] == s[i + 1] && t[i..] == s[i + 1..];
      assert s[0..] == s;
      SpecialEntity(table, s);
    }
  }

  lemma {:induction false} NameEndExtends(a: string, t: string, p: nat)
    requires p <= |a| && NameEnd(a, p) < |a|
    ensures NameEnd(a + t, p) == NameEnd(a, p)
    decreases |a| - p
  {
    if InName(a[p]) {
      NameEndExtends(a, t, p + 1);
    }
  }

  /** An entity is one whatever follows it. */
  lemma EntityExtends(table: set<string>, a: string, t: string)
    requires EntityLength(table, a) > 0
    ensures EntityLength(table, a + t) == EntityLength(table, a)
  {
    var n := EntityLength(table, a);
    NameEndExtends(a, t, 1);
    assert (a + t)[..n] == a[..n];
  }

  /** A whole entity in front of a clean text. */
  lemma {:induction false} CleanAfterEntity(table: set<string>, a: string, t: string, i: nat)
    requires Clean(table, t) && i <= |a| && (forall k :: i <= k < |a| ==> !Special(a[k]))
    ensures Clean(table, a[i..] + t)
    decreases |a| - i
  {
    if i < |a| {
      CleanAfterEntity(table, a, t, i + 1);
      assert (a[i..] + t)[1..] == a[i + 1..] + t;
    } else {
      assert a[i..] + t == t;
    }
  }

  lemma CleanEntity(table: set<string>, a: string, t: string)
    requires TableFits(table) && EntityLength(table, a) == |a| > 0 && Clean(table, t)
    ensures Clean(table, a + t)
  {
    forall k | 1 <= k < |a| ensures !Special(a[k]) {
      EntityIsPlain(table, a, k);
    }
    CleanAfterEntity(table, a, t, 1);
    assert (a + t)[1..] == a[1..] + t;
    EntityExtends(table, a, t);
  }

  lemma {:induction false} NameEndFront(s: string, n: nat, p: nat)
    requires p <= n <= |s| && NameEnd(s, p) < n
    ensures NameEnd(s[..n], p) == NameEnd(s, p)
    decreases n - p
  {
    if InName(s[p]) {
      NameEndFront(s, n, p + 1);
    }
  }

  /** The front of a text that starts with an entity is that entity. */
  lemma FrontIsEntity(table: set<string>, s: string)
    requires EntityLength(table, s) > 0
    ensures var n := EntityLength(table, s); EntityLength(table, s[..n]) == n
  {
    var n := EntityLength(table, s);
    NameEndFront(s, n, 1);
    assert s[..n][..n] == s[..n];
  }

  lemma {:induction false} NameEndAt(e: string, p: nat)
    requires p < |e| && (forall i :: p <= i < |e| - 1 ==> InName(e[i])) && !InName(e[|e| - 1])
    ensures NameEnd(e, p) == |e| - 1
    decreases |e| - p
  {
    if p < |e| - 1 {
      NameEndAt(e, p + 1);
    }
  }

  lemma EscapeIsEntity(table: set<string>, c: char)
    requires TableFits(table) && Special(c)
    ensures EntityLength(table, EscapeOf(c)) == |EscapeOf(c)| > 0
  {
    var e := EscapeOf(c);
    assert forall i :: 1 <= i < |e| - 1 ==> InName(e[i]);
    assert e[|e| - 1] == ';' && !InName(';');
    NameEndAt(e, 1);
    assert e[..|e|] == e;
  }

  lemma {:induction false} EscapedIsClean(table: set<string>, s: string, all: bool)
    requires TableFits(table)
    ensures Clean(table, Escape(table, s, all))
    decreases |s|
  {
    if s != "" {
      hide EntityLength, TableFits;
      if !Special(s[0]) {
        EscapedIsClean(table, s[1..], all);
        var rest := Escape(table, s[1..], all);
        assert ([s[0]] + rest)[1..] == rest;
      } else {
        var n := EntityLength(table, s);
        if n > 0 && !all {
          EscapedIsClean(table, s[n..], all);
          FrontIsEntity(table, s);
          CleanEntity(table, s[..n], Escape(table, s[n..], all));
        } else {
          EscapedIsClean(table, s[1..], all);
          EscapeIsEntity(table, s[0]);
          CleanEntity(table, EscapeOf(s[0]), Escape(table, s[1..], all));
        }
      }
    }
  }

  lemma {:induction false} CleanSuffix(table: set<string>, s: string, n: nat)
    requires Clean(table, s) && n <= |s|
    ensures Clean(table, s[n..])
    decreases n
  {
    if n > 0 {
      CleanSuffix(table, s[1..], n - 1);
      assert s[1..][n - 1..] == s[n..];
    } else {
      assert s[0..] == s;
    }
  }

  lemma {:induction false} CleanIsKept(table: set<string>, s: string)
    requires Clean(table, s)
    ensures Escape(table, s, false) == s
    decreases |s|
  {
    if s != "" {
      hide EntityLength;
      var n := EntityLength(table, s);
      if Special(s[0]) {
        CleanSuffix(table, s, n);
        CleanIsKept(table, s[n..]);
        assert s == s[..n] + s[n..];
      } else {
        CleanIsKept(table, s[1..]);
        assert s == [s[0]] + s[1..];
      }
    }
  }

  /** The texts that escapeHTML leaves alone are the clean ones, and it makes every text clean. */
  lemma EscapeIdempotent(table: set<string>, s: string)
    requires TableFits(table)
    ensures Escape(table, s, false) == s <==> Clean(table, s)
    ensures Escape(table, Escape(table, s, false), false) == Escape(table, s, false)
  {
    EscapedIsClean(table, s, false);
    CleanIsKept(table, Escape(table, s, false));
    if Clean(table, s) {
      CleanIsKept(table, s);
    }
  }

  // ----- What a reader of the output sees ---------------------------------------------------------------

  /** Entities of the table read as what they mean; everything else as itself. */
  function Shown(table: set<string>, meaning: string -> string, s: string): string
    decreases |s|
  {
    if s == "" then ""
    else
      var n := EntityLength(table, s);
      if n > 0 then meaning(s[..n]) + Shown(table, meaning, s[n..]) else [s[0]] + Shown(table, meaning, s[1..])
  }

  ghost predicate MeaningFits(meaning: string -> string) {
    forall c :: Special(c) ==> meaning(EscapeOf(c)) == [c]
  }

  lemma ShownEntity(table: set<string>, meaning: string -> string, a: string, t: string)
    requires EntityLength(table, a) == |a| > 0
    ensures Shown(table, meaning, a + t) == meaning(a) + Shown(table, meaning, t)
  {
    EntityExtends(table, a, t);
    hide EntityLength;
    assert (a + t)[..|a|] == a && (a + t)[|a|..] == t;
  }

  lemma ShownPlain(table: set<string>, meaning: string -> string, c: char, t: string)
    requires !Special(c)
    ensures Shown(table, meaning, [c] + t) == [c] + Shown(table, meaning, t)
  {
    assert ([c] + t)[1..] == t;
  }

  /** escapeHTML changes nothing a reader sees; escapeAllHTML shows the text itself. */
  lemma {:induction false} EscapeShows(table: set<string>, meaning: string -> string, s: string, all: bool)
    requires TableFits(table) && MeaningFits(meaning)
    ensures Shown(table, meaning, Escape(table, s, all)) == if all then s else Shown(table, meaning, s)
    decreases |s|
  {
    if s != "" {
      hide EntityLength, TableFits, MeaningFits;
      assert s == [s[0]] + s[1..];
      if !Special(s[0]) {
        EscapeShows(table, meaning, s[1..], all);
        ShownPlain(table, meaning, s[0], Escape(table, s[1..], all));
        ShownPlain(table, meaning, s[0], s[1..]);
      } else {
        SpecialShows(table, meaning, s, all);
      }
    }
  }

  lemma ShownOther(table: set<string>, meaning: string -> string, s: string)
    requires s != ""
    ensures EntityLength(table, s) == 0 ==> Shown(table, meaning, s) == [s[0]] + Shown(table, meaning, s[1..])
  {
    hide EntityLength;
  }

  lemma SpecialShows(table: set<string>, meaning: string -> string, s: string, all: bool)
    requires TableFits(table) && MeaningFits(meaning) && s != "" && Special(s[0])
    ensures Shown(table, meaning, Escape(table, s, all)) == if all then s else Shown(table, meaning, s)
    decreases |s|, 0
  {
    hide EntityLength, TableFits, Shown;
    var n := EntityLength(table, s);
    if n > 0 && !all {
      EscapeShows(table, meaning, s[n..], all);
      FrontIsEntity(table, s);
      ShownEntity(table, meaning, s[..n], Escape(table, s[n..], all));
      ShownEntity(table, meaning, s[..n], s[n..]);
      assert s == s[..n] + s[n..];
    } else {
      EscapeShows(table, meaning, s[1..], all);
      EscapeIsEntity(table, s[0]);
      ShownEntity(table, meaning, EscapeOf(s[0]), Escape(table, s[1..], all));
      assert s == [s[0]] + s[1..];
      ShownOther(table, meaning, s);
    }
  }

  /** Replacing the four escapes, and nothing else, undoes escapeAllHTML. */
  function Unescape(s: string): string
    decreases |s|
  {
    if s == "" then ""
    else if "&amp;" <= s then "&" + Unescape(s[5..])
    else if "&lt;" <= s then "<" + Unescape(s[4..])
    else if "&gt;" <= s then ">" + Unescape(s[4..])
    else if "&quot;" <= s then "\"" + Unescape(s[6..])
    else [s[0]] + Unescape(s[1..])
  }

  lemma EscapeAllStep(table: set<string>, s: string)
    requires s != ""
    ensures Escape(table, s, true) == (if Special(s[0]) then EscapeOf(s[0]) else [s[0]]) + Escape(table, s[1..], true)
  {}

  lemma UnescapeFront(c: char, t: string)
    ensures Unescape((if Special(c) then EscapeOf(c) else [c]) + t) == [c] + Unescape(t)
  {
    var front := if Special(c) then EscapeOf(c) else [c];
    var s := front + t;
    assert s[|front|..] == t && s[..|front|] == front;
    assert s[0] == front[0];
    if Special(c) {
      assert s[1] == front[1];
    }
  }

  lemma {:induction false} UnescapeAll(table: set<string>, s: string)
    ensures Unescape(Escape(table, s, true)) == s
    decreases |s|
  {
    if s != "" {
      UnescapeAll(table, s[1..]);
      assert s == [s[0]] + s[1..];
      hide Escape;
      EscapeAllStep(table, s);
      UnescapeFront(s[0], Escape(table, s[1..], true));
    }
  }
}
