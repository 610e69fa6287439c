/**
 Documents that contain themselves and are not reported for it: one fails earlier, one never
 comes to the cycle.
 */
module YamlCycles {
  import opened Wrappers
  import opened YamlTree
  import opened YamlMeaning
  import opened YamlGraph
  import opened YamlErrors

  // ----- A cycle behind another error ---------------------------------------------------------------

  /** &a [!!int x, *a] */
  function Untidy(): Node {
    var style := Style(false, Bare, false);
    Sequence(0, SEQ_TAG, "a", style, [Scalar(1, "!!int", "x", "", style), Node.Alias(2, "a", 0)])
  }

  /** x is no number; nothing else is out of order. */
  function UntidyDoc(): Doc {
    Doc(map[2 := Untidy()], n => None, n => "", n => false)
  }

  /** The list contains itself, but its first item fails before the alias is met. */
  lemma CycleBehindBadScalar()
    ensures Typed(UntidyDoc()) && TargetsAreNodes(UntidyDoc()) && NoMerges(UntidyDoc(), Untidy())
    ensures ContainsItself(UntidyDoc(), Untidy()) && FirstError(UntidyDoc(), {}, Untidy(), Any) == BadScalar
  {
    var d, n := UntidyDoc(), Untidy();
    assert LiveItems(d, n.items, 1) == {} && LiveItems(d, n.items, 2) == {2};
    assert Chain(d, n, [2, 2]) && [2, 2][0] == [2, 2][1];
    assert ItemsLog(d, {}, n, 0).e == NoError;
    assert ItemsLog(d, {}, n, 1).e == BadScalar;
  }

  // ----- A cycle that is never met ----------------------------------------------------------------------

  function Plain(id: nat, tag: string, value: string): Node {
    Scalar(id, tag, value, "", Style(false, Bare, false))
  }

  /** {k: *a} */
  function Overridden(): Node {
    Mapping(4, MAP_TAG, "", Style(false, Bare, false), [Pair(Plain(5, STR_TAG, "k"), Node.Alias(6, "a", 0))])
  }

  /** &a {k: x, <<: {k: *a}} */
  function Overriding(): Node {
    Mapping(0, MAP_TAG, "a", Style(false, Bare, false),
      [Pair(Plain(1, STR_TAG, "k"), Plain(2, STR_TAG, "x")), Pair(Plain(3, MERGE_TAG, "<<"), Overridden())])
  }

  /** Every scalar is its text. */
  function TextDoc(): Doc {
    Doc(map[6 := Overriding()], (n: Node) => if n.Scalar? then Some(Str(n.value)) else None,
        (n: Node) => if n.Scalar? then n.value else "", (n: Node) => n.Scalar?)
  }

  lemma TextKeys()
    ensures !IsMerge(Plain(1, STR_TAG, "k")) && !IsMerge(Plain(5, STR_TAG, "k")) && IsMerge(Plain(3, MERGE_TAG, "<<"))
    ensures !HasRepeatedKey(Overriding().pairs) && !HasRepeatedKey(Overridden().pairs)
  {
    assert |"k"| == 1 && |"<<"| == 2;
    assert ShortTag(MERGE_TAG) == MERGE_TAG;
  }

  lemma TextKeyAtom(key: Node, text: bool)
    requires key.Scalar?
    ensures FirstError(TextDoc(), {}, key, KeyTarget(text)) == NoError
    ensures KeyAtom(Denote(TextDoc(), {}, key, KeyTarget(text))) == Some(Some(Str(key.value)))
  {
    assert Visit(TextDoc(), {}, key, KeyTarget(text)) == QUIET;
  }

  lemma OverriddenFits(fields: set<Atom>)
    requires Str("k") in fields
    ensures SourcesLog(TextDoc(), {}, Overridden(), true, fields).e == NoError
  {
    TextKeys();
    var d, s := TextDoc(), Overridden();
    TextKeyAtom(s.pairs[0].key, true);
    hide IsMerge, TextDoc, LogOf, Denote;
    assert KeyLog(d, {}, s, true, 0).e == NoError;
    assert SourcePairLog(d, {}, s, true, fields, 0).e == NoError;
    assert SourcePairsLog(d, {}, s, true, fields, 0).e == NoError;
    assert SourcePairsLog(d, {}, s, true, fields, 1).e == NoError;
    assert MergeValue(s.pairs, 0) == None && MergeValue(s.pairs, 1) == None;
  }

  lemma OverridingIsTidy()
    ensures TidyDoc(TextDoc(), Overriding()) && TargetsAreNodes(TextDoc())
  {
    TextKeys();
    hide IsMerge;
    var d, s, n := TextDoc(), Overridden(), Overriding();
    assert Tidy(d, s.pairs[0].key) && Tidy(d, s.pairs[0].value);
    assert Tidy(d, s);
    assert Tidy(d, n.pairs[0].key) && Tidy(d, n.pairs[0].value) && Tidy(d, n.pairs[1].key);
    assert Tidy(d, n);
  }

  lemma OverridingContainsItself()
    ensures ContainsItself(TextDoc(), Overriding())
  {
    TextKeys();
    var d, s, n := TextDoc(), Overridden(), Overriding();
    hide IsMerge;
    assert 6 in Live(d, s.pairs[0].value);
    LivePair(d, s, IsStringMap(d, s.pairs), 1, 0);
    LivePair(d, n, IsStringMap(d, n.pairs), 2, 1);
    assert 6 in Live(d, s) && 6 in Live(d, n);
    assert Chain(d, n, [6, 6]) && [6, 6][0] == [6, 6][1];
  }

  /** The keys of the mapping itself, k and the merge key. */
  lemma OverridingKeys()
    ensures Taken(TextDoc(), {}, Overriding(), 2) == Some({Str("k"), Str("<<")})
    ensures TakenLog(TextDoc(), {}, Overriding(), 2).e == NoError
  {
    var d, n := TextDoc(), Overriding();
    TextKeyAtom(n.pairs[0].key, false);
    TextKeyAtom(n.pairs[1].key, false);
    hide TextDoc, LogOf, Denote;
    assert KeyTarget(false) == Any && {} + {Str("k")} == {Str("k")};
    assert KeyLog(d, {}, n, false, 0).e == NoError && KeyLog(d, {}, n, false, 1).e == NoError;
    assert Taken(d, {}, n, 0) == Some({}) && TakenLog(d, {}, n, 0).e == NoError;
    assert Taken(d, {}, n, 1) == Some({Str("k")}) && TakenLog(d, {}, n, 1).e == NoError;
    assert {Str("k")} + {Str("<<")} == {Str("k"), Str("<<")};
  }

  lemma OverridingPairs()
    ensures PairsLog(TextDoc(), {}, Overriding(), true, 2).e == NoError && IsStringMap(TextDoc(), Overriding().pairs)
    ensures MergeValue(Overriding().pairs, 2) == Some(Overridden())
  {
    TextKeys();
    var d, n := TextDoc(), Overriding();
    TextKeyAtom(n.pairs[0].key, true);
    assert FirstError(d, {}, n.pairs[0].value, Any) == NoError;
    assert StringKey(d, n.pairs[0].key) && StringKey(d, n.pairs[1].key);
    hide IsMerge, TextDoc, LogOf, Denote;
    assert PairLog(d, {}, n, true, 0).e == NoError;
    assert PairsLog(d, {}, n, true, 0).e == NoError;
    assert PairsLog(d, {}, n, true, 1).e == NoError;
  }

  /** The mapping contains itself in a value that its own key overrides: nothing fails. */
  lemma OverriddenCycleIsHarmless()
    ensures TidyDoc(TextDoc(), Overriding()) && TargetsAreNodes(TextDoc()) && ContainsItself(TextDoc(), Overriding())
    ensures FirstError(TextDoc(), {}, Overriding(), Any) == NoError
  {
    OverridingIsTidy();
    OverridingContainsItself();
    TextKeys();
    OverridingPairs();
    OverridingKeys();
    OverriddenFits({Str("k"), Str("<<")});
    var d, n := TextDoc(), Overriding();
    assert |n.pairs| == 2;
    MappingFirst(d, {}, n);
    hide TextDoc, LogOf, PairsLog, Taken, TakenLog, SourcesLog, IsStringMap, MergeValue;
  }
}
