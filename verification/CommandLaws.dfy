/**
 What the search for a subcommand makes of arguments, by their shape: which flags hide the next
 argument, and that Find looks past all the others.
 */
module CommandLaws {
  import opened Wrappers
  import opened CommandLookup

  /** The words of the end of a list are those of the end alone. */
  lemma {:induction false} WordsOfEnd(c: Command, front: seq<string>, args: seq<string>, i: nat)
    ensures Words(c, front + args, |front| + i) == Words(c, args, i)
    decreases |args| - i
  {
    if i < |args| {
      assert (front + args)[|front| + i] == args[i];
      WordsOfEnd(c, front, args, Onward(c, args, i));
    }
  }

  /** A flag, or nothing at all, before a word: it hides the word or is passed over. */
  lemma FlagBefore(c: Command, flag: string, word: string, rest: seq<string>)
    requires !IsWord(flag) && flag != "--" && IsWord(word)
    ensures Words(c, [flag, word] + rest, 0) == (if TakesValue(c, flag) then [] else [word]) + Words(c, rest, 0)
  {
    var args := [flag, word] + rest;
    WordsTakeNoValue(c, word);
    WordsStep(c, args, 0);
    WordsStep(c, args, 1);
    WordsOfEnd(c, [flag, word], rest, 0);
  }

  // ----- By shape ------------------------------------------------------------------------------

  lemma Starts(flag: string, rest: string)
    requires flag == "-" + rest
    ensures "-" <= flag && !IsWord(flag) && flag[1..] == rest
    ensures "--" <= flag <==> "-" <= rest
  {
    assert flag[0] == '-';
    if "-" <= rest {
      assert flag[1] == rest[0] == '-';
      assert flag[..2] == "--";
    }
    if "--" <= flag {
      assert flag[1] == '-';
    }
  }

  /** --name hides the next argument exactly if it needs a value. */
  lemma LongFlag(c: Command, name: string, word: string, rest: seq<string>)
    requires name != "" && '=' !in name && IsWord(word)
    ensures Words(c, ["--" + name, word] + rest, 0) ==
              (if name in c.longNoValue then [word] else []) + Words(c, rest, 0)
  {
    var flag := "--" + name;
    assert flag == "-" + ("-" + name) && flag[2..] == name && |flag| > 2;
    Starts(flag, "-" + name);
    FlagBefore(c, flag, word, rest);
  }

  /** -x does exactly if x needs a value. */
  lemma ShortFlag(c: Command, x: char, word: string, rest: seq<string>)
    requires x != '-' && x != '=' && IsWord(word)
    ensures Words(c, [['-', x], word] + rest, 0) ==
              (if [x] in c.shortNoValue then [word] else []) + Words(c, rest, 0)
  {
    var flag := ['-', x];
    assert flag == "-" + [x];
    Starts(flag, [x]);
    FlagBefore(c, flag, word, rest);
  }

  /** A flag with an equals sign never does, long or short. */
  lemma FlagWithValue(c: Command, flag: string, word: string, rest: seq<string>)
    requires Dashed(flag) && '=' in flag && IsWord(word)
    ensures Words(c, [flag, word] + rest, 0) == [word] + Words(c, rest, 0)
  {
    FlagBefore(c, flag, word, rest);
  }

  /** Neither do several short flags in one argument, whatever they are. */
  lemma FlagCluster(c: Command, xs: string, word: string, rest: seq<string>)
    requires |xs| >= 2 && xs[0] != '-' && IsWord(word)
    ensures Words(c, ["-" + xs, word] + rest, 0) == [word] + Words(c, rest, 0)
  {
    var flag := "-" + xs;
    Starts(flag, xs);
    FlagBefore(c, flag, word, rest);
  }

  /** Nor do a lone dash and the empty argument, which are no words either. */
  lemma NoFlag(c: Command, s: string, word: string, rest: seq<string>)
    requires (s == "" || s == "-") && IsWord(word)
    ensures Words(c, [s, word] + rest, 0) == [word] + Words(c, rest, 0)
  {
    FlagBefore(c, s, word, rest);
  }

  /** A word is one wherever nothing before it hides it; after a double dash there are none. */
  lemma WordFirst(c: Command, word: string, rest: seq<string>)
    requires IsWord(word)
    ensures Words(c, [word] + rest, 0) == [word] + Words(c, rest, 0)
    ensures Words(c, ["--"] + rest, 0) == []
  {
    WordsTakeNoValue(c, word);
    WordsStep(c, [word] + rest, 0);
    WordsStep(c, ["--"] + rest, 0);
    WordsOfEnd(c, [word], rest, 0);
  }

  // ----- Names -------------------------------------------------------------------------------------

  /** The word is the command's name or one of its aliases. */
  ghost predicate Answers(m: Matching, c: Command, word: string) {
    m.same(c.name, word) || exists a :: a in c.aliases && m.same(a, word)
  }

  /** The name or an alias begins with the word. */
  ghost predicate Shortens(c: Command, word: string) {
    word <= c.name || exists a :: a in c.aliases && word <= a
  }

  lemma NamesAre(m: Matching, c: Command, word: string)
    ensures Named(m, c, word) <==> Answers(m, c, word)
    ensures Abbreviated(m, c, word) <==> m.prefixes && Shortens(c, word)
  {
    forall a | a in c.aliases
      ensures (m.same(a, word) ==> Named(m, c, word)) && (m.prefixes && word <= a ==> Abbreviated(m, c, word))
    {
      var i :| 0 <= i < |c.aliases| && c.aliases[i] == a;
    }
    assert forall i :: 0 <= i < |c.aliases| ==> c.aliases[i] in c.aliases;
  }

  lemma AllNamesAre(m: Matching, c: Command, word: string)
    ensures forall i :: 0 <= i < |c.commands| ==> (Named(m, c.commands[i], word) <==> Answers(m, c.commands[i], word))
    ensures forall i :: 0 <= i < |c.commands| ==>
              (Abbreviated(m, c.commands[i], word) <==> m.prefixes && Shortens(c.commands[i], word))
  {
    hide Named, Abbreviated, Answers, Shortens;
    forall i | 0 <= i < |c.commands|
      ensures Named(m, c.commands[i], word) <==> Answers(m, c.commands[i], word)
      ensures Abbreviated(m, c.commands[i], word) <==> m.prefixes && Shortens(c.commands[i], word)
    {
      NamesAre(m, c.commands[i], word);
    }
  }

  /** The first subcommand that answers to the word is picked, whatever the word shortens. */
  lemma NameOrAliasPicks(m: Matching, c: Command, word: string, i: nat)
    requires i < |c.commands| && Answers(m, c.commands[i], word)
    requires forall j :: 0 <= j < i ==> !Answers(m, c.commands[j], word)
    ensures Next(m, c, word) == Some(c.commands[i])
  {
    AllNamesAre(m, c, word);
    NextPicks(m, c, word);
    hide Named, Answers, Next, Abbreviated;
  }

  /** If none answers, the only one it shortens is picked, where prefixes count. */
  lemma AbbreviationPicks(m: Matching, c: Command, word: string, i: nat)
    requires forall j :: 0 <= j < |c.commands| ==> !Answers(m, c.commands[j], word)
    requires i < |c.commands| && m.prefixes && Shortens(c.commands[i], word)
    requires forall j :: 0 <= j < |c.commands| && Shortens(c.commands[j], word) ==> j == i
    ensures Next(m, c, word) == Some(c.commands[i])
  {
    AllNamesAre(m, c, word);
    NextPicks(m, c, word);
    hide Named, Answers, Next, Abbreviated, Shortens;
    assert OnlyAbbreviated(m, c.commands, word, i);
  }

  /** Where they do not, or it shortens none or two, no subcommand is. */
  lemma NothingPicked(m: Matching, c: Command, word: string, i: nat, j: nat)
    requires forall k :: 0 <= k < |c.commands| ==> !Answers(m, c.commands[k], word)
    requires
      || !m.prefixes || (forall k :: 0 <= k < |c.commands| ==> !Shortens(c.commands[k], word))
      || (i < j < |c.commands| && Shortens(c.commands[i], word) && Shortens(c.commands[j], word))
    ensures Next(m, c, word) == None
  {
    AllNamesAre(m, c, word);
    NextPicks(m, c, word);
    hide Named, Answers, Next, Abbreviated, Shortens;
    assert forall k :: 0 <= k < |c.commands| ==> !OnlyAbbreviated(m, c.commands, word, k);
  }

  // ----- Find --------------------------------------------------------------------------------------

  /** The word after such a flag picks the subcommand, and only the word is taken. */
  lemma FindsPast(m: Matching, c: Command, flag: string, word: string, rest: seq<string>, d: Command)
    requires Dashed(flag) && flag != "--" && !TakesValue(c, flag) && IsWord(word) && Next(m, c, word) == Some(d)
    ensures var f, g := Finds(m, c, [flag, word] + rest), Finds(m, d, [flag] + rest);
            f.command == g.command && f.rest == g.rest && f.words == [word] + g.words
  {
    hide Next, TakesValue;
    var args := [flag, word] + rest;
    FlagBefore(c, flag, word, rest);
    WordsTakeNoValue(c, word);
    assert Place(c, args, word, 1) == Some(1);
    assert Place(c, args, word, 0) == Some(1);
    assert Minus(args, 1) == [flag] + rest;
  }

  lemma FindsNothing(m: Matching, c: Command, args: seq<string>)
    requires Words(c, args, 0) == []
    ensures Finds(m, c, args) == Found(c, args, [])
  {}

  /** So after `--name=value`, and after `--name` if it needs no value; if it needs one, the word is lost to it. */
  lemma FindsAfterFlag(
    m: Matching, c: Command, name: string, value: string, word: string, rest: seq<string>, d: Command)
    requires name != "" && '=' !in name && IsWord(word) && Next(m, c, word) == Some(d)
    ensures var flag := "--" + name + "=" + value;
            var f, g := Finds(m, c, [flag, word] + rest), Finds(m, d, [flag] + rest);
            f.command == g.command && f.rest == g.rest
    ensures name in c.longNoValue ==>
              var f, g := Finds(m, c, ["--" + name, word] + rest), Finds(m, d, ["--" + name] + rest);
              f.command == g.command && f.rest == g.rest
    ensures name !in c.longNoValue && Words(c, rest, 0) == [] ==>
              var args := ["--" + name, word] + rest; Finds(m, c, args) == Found(c, args, [])
  {
    var long, flag := "--" + name, "--" + name + "=" + value;
    assert long == "-" + ("-" + name) && flag == "-" + ("-" + name + "=" + value) && long[2..] == name && |long| > 2;
    Starts(long, "-" + name);
    Starts(flag, "-" + name + "=" + value);
    assert flag[|long|] == '=';
    FindsPast(m, c, flag, word, rest, d);
    LongFlag(c, name, word, rest);
    hide Next, Words, Finds;
    if name in c.longNoValue {
      FindsPast(m, c, long, word, rest, d);
    } else if Words(c, rest, 0) == [] {
      FindsNothing(m, c, [long, word] + rest);
    }
  }
}
