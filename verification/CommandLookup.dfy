/**
 Cobra's search for a subcommand (cobra/command.go:696-801, 820-839).

 Two scanners read the same arguments: stripFlags collects the words that are neither flags nor
 flag values, argsMinusFirstX deletes the first occurrence of a word that is neither.  Find is
 right because they agree on where the first word stands.
 */
module CommandLookup {
  import opened Wrappers

  /** The flags of a command, own and persistent, that need no value; and its subcommands. */
  datatype Command = Command(
    name: string, aliases: seq<string>, longNoValue: set<string>, shortNoValue: set<string>, commands: seq<Command>)

  // ----- Arguments --------------------------------------------------------------------------------

  predicate Dashed(s: string) {
    "-" <= s
  }

  /** A flag whose value is the next argument. */
  predicate TakesValue(c: Command, s: string) {
    || ("--" <= s && '=' !in s && s[2..] !in c.longNoValue)
    || ("-" <= s && '=' !in s && |s| == 2 && s[1..] !in c.shortNoValue)
  }

  predicate IsWord(s: string) {
    s != "" && !Dashed(s)
  }

  /** Where the scanner looks after i. */
  function Onward(c: Command, args: seq<string>, i: nat): nat
    requires i < |args|
  {
    if TakesValue(c, args[i]) then i + 2 else i + 1
  }

  /** The words from i on. */
  function Words(c: Command, args: seq<string>, i: nat): seq<string>
    decreases |args| - i
  {
    if i >= |args| || args[i] == "--" then []
    else (if IsWord(args[i]) then [args[i]] else []) + Words(c, args, Onward(c, args, i))
  }

  /** The first place from i on, outside flags and their values, that holds x. */
  function Place(c: Command, args: seq<string>, x: string, i: nat): (r: Option<nat>)
    ensures r.Some? ==> i <= r.value < |args| && args[r.value] == x && !Dashed(x)
    decreases |args| - i
  {
    if i >= |args| || args[i] == "--" then None
    else if args[i] == x && !Dashed(x) then Some(i)
    else Place(c, args, x, Onward(c, args, i))
  }

  function Minus(args: seq<string>, k: nat): seq<string>
    requires k < |args|
  {
    args[..k] + args[k + 1..]
  }

  lemma WordsTakeNoValue(c: Command, s: string)
    requires !Dashed(s)
    ensures !TakesValue(c, s) && s != "--"
  {
    assert |s| > 0 ==> s[0] != '-';
  }

  lemma WordsStep(c: Command, args: seq<string>, i: nat)
    requires i < |args|
    ensures args[i] == "--" ==> Words(c, args, i) == []
    ensures args[i] != "--" && TakesValue(c, args[i]) ==> Words(c, args, i) == Words(c, args, i + 2)
    ensures args[i] != "--" && !TakesValue(c, args[i]) ==>
              Words(c, args, i) == (if IsWord(args[i]) then [args[i]] else []) + Words(c, args, i + 1)
  {
    if IsWord(args[i]) {
      WordsTakeNoValue(c, args[i]);
    }
    hide TakesValue;
  }

  lemma Regroup(words: seq<string>, s: string, rest: seq<string>)
    ensures words + ([s] + rest) == (words + [s]) + rest && [] + rest == rest
  {}

  lemma WordsEnd(c: Command, args: seq<string>)
    ensures forall i: nat :: i >= |args| ==> Words(c, args, i) == []
  {}

  method StripFlags(c: Command, input: seq<string>) returns (words: seq<string>)
    ensures words == Words(c, input, 0)
  {
    hide Words, TakesValue, IsWord;
    var args := input;
    words := [];
    ghost var i: nat := 0;
    WordsEnd(c, input);
    while |args| > 0
      invariant i <= |input| && args == input[i..]
      invariant words + Words(c, input, i) == Words(c, input, 0)
      decreases |args|
    {
      WordsStep(c, input, i);
      var s := args[0];
      assert s == input[i];
      args := args[1..];
      if s == "--" {
        return;
      }
      if TakesValue(c, s) {
        if |args| <= 1 {
          return;
        }
        args := args[1..];
        i := i + 2;
      } else {
        Regroup(words, s, Words(c, input, i + 1));
        if IsWord(s) {
          words := words + [s];
        }
        i := i + 1;
      }
    }
  }

  method ArgsMinusFirstX(c: Command, args: seq<string>, x: string) returns (r: seq<string>)
    ensures r == match Place(c, args, x, 0) case None => args case Some(k) => Minus(args, k)
  {
    var pos := 0;
    while pos < |args|
      invariant pos <= |args| + 1
      invariant Place(c, args, x, 0) == Place(c, args, x, pos)
      decreases |args| + 1 - pos
    {
      var s := args[pos];
      if s == "--" {
        return args;
      } else if TakesValue(c, s) {
        if !Dashed(s) {
          WordsTakeNoValue(c, s);
        }
        pos := pos + 1;
      } else if !Dashed(s) {
        if s == x {
          return args[..pos] + args[pos + 1..];
        }
      }
      pos := pos + 1;
    }
    return args;
  }

  // ----- The first word -----------------------------------------------------------------------------

  /** The scanner, starting at i, looks at k. */
  predicate Scanned(c: Command, args: seq<string>, i: nat, k: nat)
    decreases |args| - i
  {
    i == k || (i < |args| && args[i] != "--" && Scanned(c, args, Onward(c, args, i), k))
  }

  /** k holds a word, and the scanner came there without meeting another. */
  ghost predicate FirstWordAt(c: Command, args: seq<string>, i: nat, k: nat) {
    && i <= k < |args| && IsWord(args[k]) && Scanned(c, args, i, k)
    && forall j :: i <= j < k && Scanned(c, args, i, j) ==> !IsWord(args[j])
  }

  lemma ScannedAbove(c: Command, args: seq<string>, i: nat, k: nat)
    ensures Scanned(c, args, i, k) ==> i <= k
    decreases |args| - i
  {
    if i < |args| && i != k && args[i] != "--" {
      ScannedAbove(c, args, Onward(c, args, i), k);
    }
  }

  lemma {:induction false} FirstWord(c: Command, args: seq<string>, i: nat) returns (k: nat)
    requires Words(c, args, i) != []
    ensures FirstWordAt(c, args, i, k) && Words(c, args, i)[0] == args[k]
    ensures Place(c, args, args[k], i) == Some(k)
    decreases |args| - i
  {
    if IsWord(args[i]) {
      k := i;
    } else {
      var next := Onward(c, args, i);
      k := FirstWord(c, args, next);
      forall j | i <= j < k && Scanned(c, args, i, j) ensures !IsWord(args[j]) {
        if j != i {
          ScannedAbove(c, args, next, j);
        }
      }
    }
  }

  /** At most one place is the first word. */
  lemma FirstWordUnique(c: Command, args: seq<string>, i: nat, k: nat, k': nat)
    requires FirstWordAt(c, args, i, k) && FirstWordAt(c, args, i, k')
    ensures k == k'
  {}

  lemma {:induction false} WordsExist(c: Command, args: seq<string>, i: nat, k: nat)
    requires FirstWordAt(c, args, i, k)
    ensures Words(c, args, i) != []
    decreases |args| - i
  {
    if !IsWord(args[i]) {
      var next := Onward(c, args, i);
      ScannedAbove(c, args, next, k);
      assert forall j :: next <= j < k && Scanned(c, args, next, j) ==> Scanned(c, args, i, j);
      WordsExist(c, args, next, k);
    }
  }

  /**
   The scanners agree: x starts the words exactly when it stands at the first word's place, and
   that is the place the other scanner deletes.
   */
  lemma ScannersAgree(c: Command, args: seq<string>, x: string)
    ensures (Words(c, args, 0) != [] && Words(c, args, 0)[0] == x) <==>
            exists k: nat :: FirstWordAt(c, args, 0, k) && args[k] == x && Place(c, args, x, 0) == Some(k)
  {
    if Words(c, args, 0) != [] && Words(c, args, 0)[0] == x {
      var k := FirstWord(c, args, 0);
    }
    if k: nat :| FirstWordAt(c, args, 0, k) && args[k] == x && Place(c, args, x, 0) == Some(k) {
      WordsExist(c, args, 0, k);
      var k' := FirstWord(c, args, 0);
      FirstWordUnique(c, args, 0, k, k');
    }
  }

  // ----- Subcommands ---------------------------------------------------------------------------------

  /** The package variables EnableCaseInsensitive, as the comparison it selects, and EnablePrefixMatching. */
  datatype Matching = Matching(same: (string, string) -> bool, prefixes: bool)

  predicate Named(m: Matching, c: Command, word: string) {
    m.same(c.name, word) || exists i :: 0 <= i < |c.aliases| && m.same(c.aliases[i], word)
  }

  predicate Abbreviated(m: Matching, c: Command, word: string) {
    m.prefixes && (word <= c.name || exists i :: 0 <= i < |c.aliases| && word <= c.aliases[i])
  }

  ghost predicate OnlyAbbreviated(m: Matching, cs: seq<Command>, word: string, i: nat)
    requires i < |cs|
  {
    Abbreviated(m, cs[i], word) && forall j :: 0 <= j < |cs| && Abbreviated(m, cs[j], word) ==> j == i
  }

  /** The first subcommand of that name; without one, the only one the word abbreviates. */
  ghost predicate Picks(m: Matching, c: Command, word: string, r: Option<Command>) {
    var cs := c.commands;
    if exists i :: 0 <= i < |cs| && Named(m, cs[i], word) then
      exists i :: 0 <= i < |cs| && Named(m, cs[i], word) && (forall j :: 0 <= j < i ==> !Named(m, cs[j], word))
        && r == Some(cs[i])
    else if exists i :: 0 <= i < |cs| && OnlyAbbreviated(m, cs, word, i) then
      exists i :: 0 <= i < |cs| && OnlyAbbreviated(m, cs, word, i) && r == Some(cs[i])
    else r == None
  }

  function FirstNamed(m: Matching, cs: seq<Command>, word: string, i: nat): (r: Option<nat>)
    requires i <= |cs|
    ensures r.Some? ==> r.value < |cs|
    decreases |cs| - i
  {
    if i == |cs| then None else if Named(m, cs[i], word) then Some(i) else FirstNamed(m, cs, word, i + 1)
  }

  lemma {:induction false} FirstNamedIsFirst(m: Matching, cs: seq<Command>, word: string, i: nat)
    requires i <= |cs|
    ensures var r := FirstNamed(m, cs, word, i);
            && (r.Some? ==>
                  && i <= r.value < |cs| && Named(m, cs[r.value], word)
                  && forall j :: i <= j < r.value ==> !Named(m, cs[j], word))
            && (r.None? ==> forall j :: i <= j < |cs| ==> !Named(m, cs[j], word))
    decreases |cs| - i
  {
    hide Named;
    if i < |cs| && !Named(m, cs[i], word) {
      FirstNamedIsFirst(m, cs, word, i + 1);
    }
  }

  function Abbreviations(m: Matching, cs: seq<Command>, word: string, i: nat): (r: seq<nat>)
    requires i <= |cs|
    ensures |r| == 1 ==> r[0] < |cs|
    decreases |cs| - i
  {
    if i == |cs| then []
    else (if Abbreviated(m, cs[i], word) then [i] else []) + Abbreviations(m, cs, word, i + 1)
  }

  lemma {:induction false} AbbreviationsAreAll(m: Matching, cs: seq<Command>, word: string, i: nat)
    requires i <= |cs|
    ensures var r := Abbreviations(m, cs, word, i);
            && (forall k :: 0 <= k < |r| ==> i <= r[k] < |cs| && Abbreviated(m, cs[r[k]], word))
            && (forall j :: i <= j < |cs| && Abbreviated(m, cs[j], word) ==> j in r)
            && (|r| > 1 ==> r[0] < r[1])
    decreases |cs| - i
  {
    hide Abbreviated;
    if i < |cs| {
      AbbreviationsAreAll(m, cs, word, i + 1);
    }
  }

  function Next(m: Matching, c: Command, word: string): Option<Command> {
    match FirstNamed(m, c.commands, word, 0)
    case Some(i) => Some(c.commands[i])
    case None =>
      var short := Abbreviations(m, c.commands, word, 0);
      if |short| == 1 then Some(c.commands[short[0]]) else None
  }

  lemma NotOnly(m: Matching, cs: seq<Command>, word: string, short: seq<nat>)
    requires forall k :: 0 <= k < |short| ==> short[k] < |cs| && Abbreviated(m, cs[short[k]], word)
    requires forall j :: 0 <= j < |cs| && Abbreviated(m, cs[j], word) ==> j in short
    requires |short| != 1 && (|short| > 1 ==> short[0] < short[1])
    ensures forall i :: 0 <= i < |cs| ==> !OnlyAbbreviated(m, cs, word, i)
  {
    hide Abbreviated;
    assert |short| > 1 ==> Abbreviated(m, cs[short[0]], word) && Abbreviated(m, cs[short[1]], word);
  }

  lemma NextPicks(m: Matching, c: Command, word: string)
    ensures Picks(m, c, word, Next(m, c, word))
  {
    hide Named, Abbreviated, FirstNamed, Abbreviations;
    var cs := c.commands;
    FirstNamedIsFirst(m, cs, word, 0);
    AbbreviationsAreAll(m, cs, word, 0);
    var short := Abbreviations(m, cs, word, 0);
    if |short| == 1 {
      assert OnlyAbbreviated(m, cs, word, short[0]);
    } else {
      NotOnly(m, cs, word, short);
    }
  }

  lemma OneCommand(m: Matching, cs: seq<Command>, word: string, i: nat)
    requires i < |cs|
    ensures FirstNamed(m, cs, word, i) == if Named(m, cs[i], word) then Some(i) else FirstNamed(m, cs, word, i + 1)
    ensures Abbreviations(m, cs, word, i) ==
              (if Abbreviated(m, cs[i], word) then [i] else []) + Abbreviations(m, cs, word, i + 1)
  {
    hide Named, Abbreviated;
  }

  lemma NoCommand(m: Matching, cs: seq<Command>, word: string)
    ensures FirstNamed(m, cs, word, |cs|) == None && Abbreviations(m, cs, word, |cs|) == []
  {}

  method FindNext(m: Matching, c: Command, word: string) returns (r: Option<Command>)
    ensures r == Next(m, c, word) && Picks(m, c, word, r)
  {
    hide Named, Abbreviated, Picks, FirstNamed, Abbreviations;
    NextPicks(m, c, word);
    NoCommand(m, c.commands, word);
    var matches: seq<nat> := [];
    for i := 0 to |c.commands|
      invariant FirstNamed(m, c.commands, word, 0) == FirstNamed(m, c.commands, word, i)
      invariant Abbreviations(m, c.commands, word, 0) == matches + Abbreviations(m, c.commands, word, i)
    {
      OneCommand(m, c.commands, word, i);
      if Named(m, c.commands[i], word) {
        return Some(c.commands[i]);
      }
      if Abbreviated(m, c.commands[i], word) {
        matches := matches + [i];
      }
    }
    if |matches| == 1 {
      return Some(c.commands[matches[0]]);
    }
    return None;
  }

  // ----- Find ------------------------------------------------------------------------------------------

  /** The command found, what is left of the arguments, and the words that led there. */
  datatype Found = Found(command: Command, rest: seq<string>, words: seq<string>)

  function Finds(m: Matching, c: Command, args: seq<string>): Found
    decreases |args|
  {
    var ws := Words(c, args, 0);
    if ws == [] then Found(c, args, [])
    else match Next(m, c, ws[0])
      case None => Found(c, args, [])
      case Some(d) =>
        match Place(c, args, ws[0], 0)
        case None => Found(c, args, [])
        case Some(k) =>
          var r := Finds(m, d, Minus(args, k));
          Found(r.command, r.rest, [ws[0]] + r.words)
  }

  method Find(m: Matching, c: Command, args: seq<string>) returns (command: Command, rest: seq<string>)
    ensures command == Finds(m, c, args).command && rest == Finds(m, c, args).rest
    decreases |args|
  {
    hide Words, Place, Next, Picks;
    var words := StripFlags(c, args);
    if |words| == 0 {
      return c, args;
    }
    var next := FindNext(m, c, words[0]);
    if next.None? {
      return c, args;
    }
    ghost var k := FirstWord(c, args, 0);
    var less := ArgsMinusFirstX(c, args, words[0]);
    command, rest := Find(m, next.value, less);
  }

  /** Each word picks the next command, from the first to the one found. */
  ghost predicate Leads(m: Matching, c: Command, words: seq<string>, d: Command)
    decreases |words|
  {
    if words == [] then c == d
    else exists e: Command :: Picks(m, c, words[0], Some(e)) && Leads(m, e, words[1..], d)
  }

  /** rest is args, in order, without the places in gone; words is what stood there. */
  ghost predicate Split(args: seq<string>, kept: seq<nat>, rest: seq<string>, gone: seq<nat>, words: seq<string>) {
    && |kept| == |rest| && |gone| == |words| && |kept| + |gone| == |args|
    && (forall i, j :: 0 <= i < j < |kept| ==> kept[i] < kept[j])
    && (forall i :: 0 <= i < |kept| ==> kept[i] < |args| && rest[i] == args[kept[i]] && kept[i] !in gone)
    && (forall i :: 0 <= i < |gone| ==> gone[i] < |args| && words[i] == args[gone[i]])
    && (forall i, j :: 0 <= i < j < |gone| ==> gone[i] != gone[j])
  }

  /** Places in the arguments without k, as places in all of them. */
  function Shifted(k: nat, ps: seq<nat>): seq<nat> {
    seq(|ps|, i requires 0 <= i < |ps| => if ps[i] < k then ps[i] else ps[i] + 1)
  }

  lemma SplitMore(args: seq<string>, k: nat, kept: seq<nat>, rest: seq<string>, gone: seq<nat>, words: seq<string>)
    requires k < |args| && Split(Minus(args, k), kept, rest, gone, words)
    ensures Split(args, Shifted(k, kept), rest, [k] + Shifted(k, gone), [args[k]] + words)
  {
    var kept', gone' := Shifted(k, kept), [k] + Shifted(k, gone);
    forall i, j | 0 <= i < |kept'| && 0 <= j < |gone'| ensures kept'[i] != gone'[j] {
      assert j > 0 ==> gone[j - 1] in gone;
    }
    forall i | 0 <= i < |kept'| ensures kept'[i] < |args| && rest[i] == args[kept'[i]] {
      assert Minus(args, k)[kept[i]] == args[kept'[i]];
    }
    forall i | 0 <= i < |gone'| ensures gone'[i] < |args| && ([args[k]] + words)[i] == args[gone'[i]] {
      assert i > 0 ==> Minus(args, k)[gone[i - 1]] == args[gone'[i]];
    }
  }

  /**
   Find walks down by words it took from the arguments and gives back the others, all of them and
   in order.  The search goes on until no word is left or the next names no subcommand.
   */
  lemma {:induction false} FindTakesOnlyWords(m: Matching, c: Command, args: seq<string>)
    returns (kept: seq<nat>, gone: seq<nat>)
    ensures var f := Finds(m, c, args);
            && Split(args, kept, f.rest, gone, f.words) && Leads(m, c, f.words, f.command)
            && (forall i :: 0 <= i < |f.words| ==> IsWord(f.words[i]))
            && (var ws := Words(f.command, f.rest, 0); ws == [] || Picks(m, f.command, ws[0], None))
    decreases |args|
  {
    hide Place, Next, Words, Picks;
    var ws := Words(c, args, 0);
    if ws != [] {
      NextPicks(m, c, ws[0]);
    }
    if ws == [] || Next(m, c, ws[0]).None? {
      kept, gone := seq(|args|, i requires 0 <= i => i), [];
    } else {
      var k := FirstWord(c, args, 0);
      var d := Next(m, c, ws[0]).value;
      var kept', gone' := FindTakesOnlyWords(m, d, Minus(args, k));
      var r := Finds(m, d, Minus(args, k));
      kept, gone := Shifted(k, kept'), [k] + Shifted(k, gone');
      SplitMore(args, k, kept', r.rest, gone', r.words);
      assert ([ws[0]] + r.words)[1..] == r.words;
    }
  }
}
