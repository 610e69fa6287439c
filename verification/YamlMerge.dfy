/**
 Precedence of bindings in a decoded mapping: own keys, then merge sources left to right,
 each followed by its own merges.
 */
module YamlMerge {
  import opened Wrappers
  import opened YamlTree
  import opened YamlMeaning
  import opened YamlGraph

  function Lookup(m: map<Atom, Value>, k: Atom): Option<Value> {
    if k in m then Some(m[k]) else None
  }

  /** The value of k once a binding of k that decodes to o has been made; was is the one before. */
  function Updated(was: Option<Value>, o: Outcome, nullTagged: bool): Option<Value> {
    match o
    case Good(v) => Some(v)
    case _ => if nullTagged && was.None? then Some(Leaf(Null)) else was
  }

  ghost function Rebound(d: Doc, was: Option<Value>, s: Pending): Option<Value> {
    Updated(was, Denote(d, s.inside, s.node, Any), NullTagged(d, s.node))
  }

  /** What a binding contributes where its key has no value yet. */
  ghost function Contribution(d: Doc, s: Pending): Option<Value> {
    Rebound(d, None, s)
  }

  /** The first binding of k in ps. */
  function FirstOf(ps: seq<Pending>, k: Atom): Option<Pending> {
    if ps == [] then None else if ps[0].key == k then Some(ps[0]) else FirstOf(ps[1..], k)
  }

  /** The last binding of k in ps that has a value; a null stands in where there is none before it. */
  ghost function LastValue(d: Doc, ps: seq<Pending>, k: Atom): Option<Value> {
    if ps == [] then None
    else
      var s, was := ps[|ps| - 1], LastValue(d, ps[..|ps| - 1], k);
      if s.key == k then Rebound(d, was, s) else was
  }

  lemma {:induction false} ApplyLookup(d: Doc, ps: seq<Pending>, k: Atom)
    requires ApplyAll(d, ps).Some?
    ensures Lookup(ApplyAll(d, ps).value, k) == LastValue(d, ps, k)
  {
    if ps != [] {
      var front, s := ps[..|ps| - 1], ps[|ps| - 1];
      assert ps == front + [s];
      ApplyMore(d, front, s);
      hide Denote, ApplyAll;
      ApplyLookup(d, front, k);
    }
  }

  lemma {:induction false} NoLastValue(d: Doc, ps: seq<Pending>, k: Atom)
    requires k !in KeysOf(ps)
    ensures LastValue(d, ps, k) == None
  {
    if ps != [] {
      assert ps[|ps| - 1] in ps;
      assert ps == ps[..|ps| - 1] + [ps[|ps| - 1]];
      KeysMore(ps[..|ps| - 1], ps[|ps| - 1]);
      NoLastValue(d, ps[..|ps| - 1], k);
    }
  }

  /** Bindings of other keys, before or after, make no difference. */
  lemma {:induction false} LastValueConcat(d: Doc, ps: seq<Pending>, qs: seq<Pending>, k: Atom)
    ensures k !in KeysOf(qs) ==> LastValue(d, ps + qs, k) == LastValue(d, ps, k)
    ensures k !in KeysOf(ps) ==> LastValue(d, ps + qs, k) == LastValue(d, qs, k)
  {
    if qs == [] {
      assert ps + qs == ps;
      if k !in KeysOf(ps) {
        NoLastValue(d, ps, k);
      }
    } else {
      var front, s := qs[..|qs| - 1], qs[|qs| - 1];
      assert (ps + qs)[..|ps + qs| - 1] == ps + front && qs == front + [s];
      KeysMore(front, s);
      LastValueConcat(d, ps, front, k);
    }
  }

  lemma {:induction false} FirstOfMore(ps: seq<Pending>, s: Pending, k: Atom)
    ensures FirstOf(ps + [s], k) ==
            match FirstOf(ps, k) case Some(x) => Some(x) case None => if s.key == k then Some(s) else None
  {
    if ps == [] {
      assert ps + [s] == [s];
    } else {
      assert (ps + [s])[1..] == ps[1..] + [s];
      FirstOfMore(ps[1..], s, k);
    }
  }

  lemma {:induction false} FirstOfFinds(ps: seq<Pending>, k: Atom)
    ensures k in KeysOf(ps) <==> FirstOf(ps, k).Some?
  {
    if ps != [] {
      FirstOfFinds(ps[1..], k);
      assert ps == [ps[0]] + ps[1..];
      KeysConcat([ps[0]], ps[1..]);
      assert KeysOf([ps[0]]) == {ps[0].key};
    }
  }

  ghost function FirstValue(d: Doc, ps: seq<Pending>, k: Atom): Option<Value> {
    match FirstOf(ps, k) case None => None case Some(s) => Contribution(d, s)
  }

  /** Among the chosen bindings of a key the last, indeed the only one, is the first of all. */
  lemma {:induction false} ChosenIsFirst(d: Doc, taken: set<Atom>, q: seq<Pending>, k: Atom)
    ensures LastValue(d, Choose(taken, q), k) == if k in taken then None else FirstValue(d, q, k)
    ensures k in taken ==> k !in KeysOf(Choose(taken, q))
  {
    if q != [] {
      var front, s := q[..|q| - 1], q[|q| - 1];
      assert q == front + [s];
      ChosenIsFirst(d, taken, front, k);
      FirstOfMore(front, s, k);
      FirstOfFinds(front, s.key);
      var r := Choose(taken, front);
      assert (r + [s])[..|r|] == r;
    }
  }

  /** All merge sources of a mapping, in order. */
  ghost function AllSources(d: Doc, p: set<nat>, n: Node): Option<seq<Pending>>
    requires n.Mapping?
  {
    match MergeValue(n.pairs, |n.pairs|)
    case None => Some([])
    case Some(m) => Sources(d, p, m, IsStringMap(d, n.pairs))
  }

  /** A string key decodes to the same atom into a string and into an interface. */
  lemma SameKeyEitherWay(d: Doc, p: set<nat>, n: Node, text: bool)
    requires Typed(d) && (text ==> StringKey(d, n)) && KeyAtom(Denote(d, p, n, KeyTarget(text))).Some?
    ensures KeyAtom(Denote(d, p, n, Any)) == KeyAtom(Denote(d, p, n, KeyTarget(text)))
  {
    if text && n.Alias? {
      var target := d.targets[n.id];
      assert Denote(d, p, n, Text) == Denote(d, p + {n.id}, target, Text) == DenoteScalar(d, target, Text);
      assert Denote(d, p, n, Any) == Denote(d, p + {n.id}, target, Any) == DenoteScalar(d, target, Any);
    }
  }

  /** No merge source may bind a key of the mapping itself. */
  lemma {:induction false} OwnKeysAreTaken(d: Doc, p: set<nat>, n: Node, k: nat)
    requires Typed(d) && n.Mapping? && k <= |n.pairs|
    requires Own(d, p, n, IsStringMap(d, n.pairs), k).Some? && Taken(d, p, n, k).Some?
    ensures KeysOf(Own(d, p, n, IsStringMap(d, n.pairs), k).value) <= Taken(d, p, n, k).value
  {
    if k > 0 {
      var text, key := IsStringMap(d, n.pairs), n.pairs[k - 1].key;
      OwnKeysAreTaken(d, p, n, k - 1);
      if !IsMerge(key) {
        assert text ==> StringKey(d, key);
        SameKeyEitherWay(d, p, key, text);
        hide Denote;
        var front := Own(d, p, n, text, k - 1).value;
        match KeyAtom(Denote(d, p, key, KeyTarget(text))) {
          case Some(Some(a)) => KeysMore(front, Pending(a, p, n.pairs[k - 1].value));
          case _ =>
        }
      }
    }
  }

  /** The parts of a mapping that decoded. */
  lemma MappingParts(d: Doc, p: set<nat>, n: Node, m: map<Atom, Value>)
    requires n.Mapping? && Denote(d, p, n, Any) == Good(Dict(m))
    ensures Own(d, p, n, IsStringMap(d, n.pairs), |n.pairs|).Some? && AllSources(d, p, n).Some?
    ensures HasMerge(n.pairs) ==> Taken(d, p, n, |n.pairs|).Some?
    ensures var own := Own(d, p, n, IsStringMap(d, n.pairs), |n.pairs|).value;
            if HasMerge(n.pairs) then
              ApplyAll(d, own + Choose(Taken(d, p, n, |n.pairs|).value, AllSources(d, p, n).value)) == Some(m)
            else ApplyAll(d, own) == Some(m)
  {
    assert !HasRepeatedKey(n.pairs);
    DenoteMapping(d, p, n);
    hide Denote, ApplyAll;
  }

  /** Keys bound by the mapping itself, the merge key's own text included when there is one. */
  ghost function Claimed(d: Doc, p: set<nat>, n: Node): set<Atom>
    requires n.Mapping?
  {
    if HasMerge(n.pairs) && Taken(d, p, n, |n.pairs|).Some? then Taken(d, p, n, |n.pairs|).value else {}
  }

  /** The own bindings of a mapping that decodes, in order. */
  ghost function OwnBindings(d: Doc, p: set<nat>, n: Node): seq<Pending>
    requires n.Mapping?
  {
    var own := Own(d, p, n, IsStringMap(d, n.pairs), |n.pairs|);
    if own.Some? then own.value else []
  }

  /** The bindings of its merge sources, in order. */
  ghost function SourceBindings(d: Doc, p: set<nat>, n: Node): seq<Pending>
    requires n.Mapping?
  {
    if AllSources(d, p, n).Some? then AllSources(d, p, n).value else []
  }

  /** What a key ends up with: its last own binding, else nothing if it is claimed, else its first source. */
  ghost function Final(d: Doc, own: seq<Pending>, claimed: set<Atom>, sources: seq<Pending>, k: Atom): Option<Value> {
    if k in KeysOf(own) then LastValue(d, own, k)
    else if k in claimed then None
    else FirstValue(d, sources, k)
  }

  lemma NoFirstValue(d: Doc, k: Atom)
    ensures FirstValue(d, [], k) == None
  {}

  lemma NoSources(d: Doc, p: set<nat>, n: Node)
    requires n.Mapping? && !HasMerge(n.pairs)
    ensures AllSources(d, p, n) == Some([])
  {}

  /**
   Precedence, exactly: a key of the decoded map has the value of its last own binding; a key
   the mapping does not claim has the value of its first binding among the merge sources.
   */
  lemma Precedence(d: Doc, p: set<nat>, n: Node, m: map<Atom, Value>, k: Atom)
    requires Typed(d) && n.Mapping? && Denote(d, p, n, Any) == Good(Dict(m))
    ensures Lookup(m, k) == Final(d, OwnBindings(d, p, n), Claimed(d, p, n), SourceBindings(d, p, n), k)
  {
    MappingParts(d, p, n, m);
    hide Denote, Own, Taken, AllSources, ApplyAll, LastValue, FirstValue, Choose, IsStringMap;
    var own, q := OwnBindings(d, p, n), SourceBindings(d, p, n);
    if k !in KeysOf(own) { NoLastValue(d, own, k); }
    if HasMerge(n.pairs) {
      var taken := Taken(d, p, n, |n.pairs|).value;
      OwnKeysAreTaken(d, p, n, |n.pairs|);
      ApplyLookup(d, own + Choose(taken, q), k);
      LastValueConcat(d, own, Choose(taken, q), k);
      ChosenIsFirst(d, taken, q, k);
    } else {
      ApplyLookup(d, own, k);
      NoSources(d, p, n);
      NoFirstValue(d, k);
    }
  }

  predicate AtMostOnce(ps: seq<Pending>, k: Atom) {
    forall i, j :: 0 <= i < j < |ps| ==> ps[i].key != k || ps[j].key != k
  }

  lemma {:induction false} OnlyIsFirst(d: Doc, ps: seq<Pending>, k: Atom)
    requires AtMostOnce(ps, k)
    ensures LastValue(d, ps, k) == FirstValue(d, ps, k)
  {
    if ps != [] {
      hide Denote;
      var front, s := ps[..|ps| - 1], ps[|ps| - 1];
      assert ps == front + [s];
      OnlyIsFirst(d, front, k);
      FirstOfMore(front, s, k);
      FirstOfFinds(front, k);
    }
  }

  lemma {:induction false} FirstOfConcat(ps: seq<Pending>, qs: seq<Pending>, k: Atom)
    ensures FirstOf(ps + qs, k) == match FirstOf(ps, k) case Some(s) => Some(s) case None => FirstOf(qs, k)
  {
    if ps == [] {
      assert ps + qs == qs;
    } else {
      assert (ps + qs)[1..] == ps[1..] + qs;
      FirstOfConcat(ps[1..], qs, k);
    }
  }

  /** k has at most one own binding, and no source binds it where only the merge key claims it. */
  ghost predicate KeysAllow(own: seq<Pending>, claimed: set<Atom>, sources: seq<Pending>, k: Atom) {
    AtMostOnce(own, k) && (k in claimed && k !in KeysOf(own) ==> k !in KeysOf(sources))
  }

  lemma AllowedIsFirst(d: Doc, own: seq<Pending>, claimed: set<Atom>, sources: seq<Pending>, k: Atom)
    requires KeysAllow(own, claimed, sources, k)
    ensures Final(d, own, claimed, sources, k) == FirstValue(d, own + sources, k)
  {
    hide Denote, LastValue;
    OnlyIsFirst(d, own, k);
    FirstOfConcat(own, sources, k);
    FirstOfFinds(own, k);
    FirstOfFinds(sources, k);
  }

  /**
   The documented rule, and keys for which the code meets it: the first binding in the order own
   keys, then sources.
   */
  lemma FirstBindingWins(d: Doc, p: set<nat>, n: Node, m: map<Atom, Value>, k: Atom)
    requires Typed(d) && n.Mapping? && Denote(d, p, n, Any) == Good(Dict(m))
    requires KeysAllow(OwnBindings(d, p, n), Claimed(d, p, n), SourceBindings(d, p, n), k)
    ensures Lookup(m, k) == FirstValue(d, OwnBindings(d, p, n) + SourceBindings(d, p, n), k)
  {
    hide Denote;
    Precedence(d, p, n, m, k);
    AllowedIsFirst(d, OwnBindings(d, p, n), Claimed(d, p, n), SourceBindings(d, p, n), k);
  }

  predicate SameKeys(ps: seq<Pending>, qs: seq<Pending>) {
    |ps| == |qs| && forall i :: 0 <= i < |ps| ==> ps[i].key == qs[i].key
  }

  /** The rule, for every document and all values that could be bound to these keys in this order. */
  ghost predicate FirstWinsAlways(own: seq<Pending>, claimed: set<Atom>, sources: seq<Pending>, k: Atom) {
    forall d: Doc, own': seq<Pending>, sources': seq<Pending> :: SameKeys(own, own') && SameKeys(sources, sources') ==>
      Final(d, own', claimed, sources', k) == FirstValue(d, own' + sources', k)
  }

  lemma {:induction false} SameKeysSameSet(ps: seq<Pending>, qs: seq<Pending>)
    requires SameKeys(ps, qs)
    ensures KeysOf(ps) == KeysOf(qs)
  {
    if ps != [] {
      var k := |ps| - 1;
      SameKeysSameSet(ps[..k], qs[..k]);
      assert ps == ps[..k] + [ps[k]] && qs == qs[..k] + [qs[k]];
      KeysMore(ps[..k], ps[k]);
      KeysMore(qs[..k], qs[k]);
    }
  }

  const PLAIN := Style(false, Bare, false)

  function Word(tag: string, value: string): Node {
    Scalar(0, tag, value, "", PLAIN)
  }

  /** The bindings ps with text for values: a up to place i, b after it. */
  function Lettered(ps: seq<Pending>, i: nat): seq<Pending> {
    seq(|ps|, j requires 0 <= j < |ps| => Pending(ps[j].key, {}, Word(STR_TAG, if j <= i then "a" else "b")))
  }

  /** A document without aliases in which 1 and 0x1 are the number one and all else is text. */
  function Demo(): Doc {
    Doc(map[],
        (n: Node) =>
          if !n.Scalar? then None
          else if n.value == "1" || n.value == "0x1" then Some(Other("1"))
          else Some(Str(n.value)),
        (n: Node) => if n.Scalar? then n.value else "",
        (n: Node) => n.Scalar? && n.value != "1" && n.value != "0x1")
  }

  lemma Letters(x: string)
    requires x == "a" || x == "b"
    ensures Denote(Demo(), {}, Word(STR_TAG, x), Any) == Good(Leaf(Str(x)))
    ensures "a" != "b"
  {
    assert "a"[0] != "b"[0] && x[0] != "1"[0] && |x| == 1 && |"0x1"| == 3;
  }

  lemma {:induction false} LetteredLast(ps: seq<Pending>, i: nat, j: nat, k: Atom)
    requires i < j < |ps| && ps[j].key == k
    ensures LastValue(Demo(), Lettered(ps, i), k) == Some(Leaf(Str("b")))
    decreases |ps|
  {
    hide Denote, Demo;
    Letters("b");
    var l := |ps| - 1;
    assert Lettered(ps, i)[..l] == Lettered(ps[..l], i);
    if ps[l].key != k {
      LetteredLast(ps[..l], i, j, k);
    }
  }

  lemma {:induction false} LetteredFirst(ps: seq<Pending>, i: nat, h: nat, k: Atom)
    requires h < |ps| && h <= i && ps[h].key == k
    ensures FirstValue(Demo(), Lettered(ps, i), k) == Some(Leaf(Str("a")))
    decreases |ps|
  {
    hide Denote, Demo;
    Letters("a");
    if ps[0].key != k {
      assert Lettered(ps, i)[1..] == Lettered(ps[1..], i - 1);
      LetteredFirst(ps[1..], i - 1, h - 1, k);
    }
  }

  lemma InKeys(ps: seq<Pending>, i: nat)
    requires i < |ps|
    ensures ps[i].key in KeysOf(ps)
  {
    assert ps[i] in ps;
  }

  lemma PlaceOf(ps: seq<Pending>, k: Atom) returns (h: nat)
    requires k in KeysOf(ps)
    ensures h < |ps| && ps[h].key == k
  {
    var s :| s in ps && s.key == k;
    h :| h < |ps| && ps[h] == s;
  }

  lemma FirstValueConcat(d: Doc, ps: seq<Pending>, qs: seq<Pending>, k: Atom)
    ensures FirstValue(d, ps + qs, k) == if k in KeysOf(ps) then FirstValue(d, ps, k) else FirstValue(d, qs, k)
  {
    FirstOfConcat(ps, qs, k);
    FirstOfFinds(ps, k);
  }

  lemma NotAllowed(own: seq<Pending>, claimed: set<Atom>, sources: seq<Pending>, k: Atom)
    requires !KeysAllow(own, claimed, sources, k)
    ensures !FirstWinsAlways(own, claimed, sources, k)
  {
    hide Denote, LastValue, FirstValue;
    Letters("a");
    if AtMostOnce(own, k) {
      var xs, ys := Lettered(own, 0), Lettered(sources, |sources|);
      SameKeysSameSet(own, xs);
      FirstOfFinds(sources, k);
      var h := PlaceOf(sources, k);
      LetteredFirst(sources, |sources|, h, k);
      FirstValueConcat(Demo(), xs, ys, k);
      assert Final(Demo(), xs, claimed, ys, k) != FirstValue(Demo(), xs + ys, k);
    } else {
      var i, j :| 0 <= i < j < |own| && own[i].key == k && own[j].key == k;
      var xs, ys := Lettered(own, i), Lettered(sources, 0);
      SameKeysSameSet(own, xs);
      InKeys(own, i);
      LetteredLast(own, i, j, k);
      LetteredFirst(own, i, i, k);
      FirstValueConcat(Demo(), xs, ys, k);
      assert Final(Demo(), xs, claimed, ys, k) != FirstValue(Demo(), xs + ys, k);
    }
  }

  /** By the keys alone: the rule holds whatever the values exactly for the keys allowed. */
  lemma FirstBindingByKeys(own: seq<Pending>, claimed: set<Atom>, sources: seq<Pending>, k: Atom)
    ensures FirstWinsAlways(own, claimed, sources, k) <==> KeysAllow(own, claimed, sources, k)
  {
    if KeysAllow(own, claimed, sources, k) {
      forall d: Doc, own': seq<Pending>, sources': seq<Pending> | SameKeys(own, own') && SameKeys(sources, sources')
        ensures Final(d, own', claimed, sources', k) == FirstValue(d, own' + sources', k)
      {
        SameKeysSameSet(own, own');
        SameKeysSameSet(sources, sources');
        AllowedIsFirst(d, own', claimed, sources', k);
      }
    } else {
      NotAllowed(own, claimed, sources, k);
    }
  }

  /**
   Key by key and value by value: the first and the last own binding of the key give the same,
   and no source binds a key that only the merge key itself claims.
   */
  lemma FirstBindingExactly(d: Doc, p: set<nat>, n: Node, m: map<Atom, Value>, k: Atom)
    requires Typed(d) && n.Mapping? && Denote(d, p, n, Any) == Good(Dict(m))
    ensures Lookup(m, k) == FirstValue(d, OwnBindings(d, p, n) + SourceBindings(d, p, n), k) <==>
            if k in KeysOf(OwnBindings(d, p, n))
            then LastValue(d, OwnBindings(d, p, n), k) == FirstValue(d, OwnBindings(d, p, n), k)
            else k in Claimed(d, p, n) ==> FirstValue(d, SourceBindings(d, p, n), k) == None
  {
    hide Denote, Own, AllSources, IsStringMap, LastValue, FirstValue;
    Precedence(d, p, n, m, k);
    FirstValueConcat(d, OwnBindings(d, p, n), SourceBindings(d, p, n), k);
  }

  // ----- Where the documented rule fails -----------------------------------------------------

  /** {1: a, 0x1: b}: two own keys of equal value pass the spelling test, and the later one wins. */
  lemma LaterOwnKeyWins()
    ensures var n := Mapping(0, MAP_TAG, "", PLAIN,
              [Pair(Word("!!int", "1"), Word(STR_TAG, "a")), Pair(Word("!!int", "0x1"), Word(STR_TAG, "b"))]);
            Denote(Demo(), {}, n, Any) == Good(Dict(map[Other("1") := Leaf(Str("b"))]))
  {
    var d := Demo();
    var x, y := Pair(Word("!!int", "1"), Word(STR_TAG, "a")), Pair(Word("!!int", "0x1"), Word(STR_TAG, "b"));
    var n := Mapping(0, MAP_TAG, "", PLAIN, [x, y]);
    assert |"1"| == 1 && |"0x1"| == 3 && |"<<"| == 2 && "a"[0] != "1"[0] && "b"[0] != "1"[0] && |"a"| == 1
             && |"b"| == 1;
    assert !IsMerge(x.key) && !IsMerge(y.key);
    assert !HasRepeatedKey(n.pairs);
    assert !IsStringMap(d, n.pairs) by { assert !StringKey(d, n.pairs[0].key); }
    NoMergeValue(n.pairs, 2);
    var p, q := Pending(Other("1"), {}, x.value), Pending(Other("1"), {}, y.value);
    OwnStep(d, {}, n, false, 0);
    OwnStep(d, {}, n, false, 1);
    assert Own(d, {}, n, false, 0) == Some([]);
    assert [] + [p] == [p] && [p] + [q] == [p, q];
    assert Own(d, {}, n, false, 2) == Some([p, q]);
    DenoteMapping(d, {}, n);
    ApplyMore(d, [], p);
    ApplyMore(d, [p], q);
    assert map[][Other("1") := Leaf(Str("a"))][Other("1") := Leaf(Str("b"))] == map[Other("1") := Leaf(Str("b"))];
  }

  function QuotedSource(): Node {
    Mapping(0, MAP_TAG, "", PLAIN, [Pair(Word(STR_TAG, "<<"), Word(STR_TAG, "a"))])
  }

  /** {<<: {"<<": a}} */
  function QuotedParent(): Node {
    Mapping(0, MAP_TAG, "", PLAIN, [Pair(Word(MERGE_TAG, "<<"), QuotedSource())])
  }

  lemma Spellings()
    ensures IsMerge(Word(MERGE_TAG, "<<")) && !IsMerge(Word(STR_TAG, "<<"))
    ensures Demo().resolve(Word(MERGE_TAG, "<<")) == Some(Str("<<")) == Demo().resolve(Word(STR_TAG, "<<"))
    ensures Demo().text(Word(STR_TAG, "<<")) == "<<"
    ensures Demo().resolve(Word(STR_TAG, "a")) == Some(Str("a"))
    ensures Demo().stringy(Word(MERGE_TAG, "<<"))
  {
    assert |"1"| == 1 && |"0x1"| == 3 && |"<<"| == 2 && "a"[0] != "1"[0] && |"a"| == 1;
    assert ShortTag(MERGE_TAG) == MERGE_TAG && ShortTag(STR_TAG) == STR_TAG && STR_TAG[2] != MERGE_TAG[2];
  }

  lemma QuotedSourceBindings()
    ensures SourceMap(Demo(), {}, QuotedSource(), true) == Some([Pending(Str("<<"), {}, Word(STR_TAG, "a"))])
  {
    Spellings();
    hide IsMerge, Demo;
    var d, s := Demo(), QuotedSource();
    OwnStep(d, {}, s, true, 0);
    assert Own(d, {}, s, true, 0) == Some([]) && MergeValue(s.pairs, 0) == None && MergeValue(s.pairs, 1) == None;
    assert [] + [Pending(Str("<<"), {}, Word(STR_TAG, "a"))] == [Pending(Str("<<"), {}, Word(STR_TAG, "a"))];
    assert !HasRepeatedKey(s.pairs);
  }

  lemma QuotedParentParts()
    ensures var n := QuotedParent();
            && !HasRepeatedKey(n.pairs) && IsStringMap(Demo(), n.pairs)
                 && MergeValue(n.pairs, 1) == Some(QuotedSource())
            && Own(Demo(), {}, n, true, 1) == Some([]) && Taken(Demo(), {}, n, 1) == Some({Str("<<")})
  {
    Spellings();
    hide IsMerge, Demo;
    var d, n := Demo(), QuotedParent();
    assert Own(d, {}, n, true, 0) == Some([]) && Taken(d, {}, n, 0) == Some({});
    assert {} + {Str("<<")} == {Str("<<")};
    assert StringKey(d, n.pairs[0].key);
  }

  /** The quoted key of the source is lost, because the merge key itself counts as taken. */
  lemma QuotedMergeKeyIsLost()
    ensures Denote(Demo(), {}, QuotedParent(), Any) == Good(Dict(map[]))
    ensures var all := OwnBindings(Demo(), {}, QuotedParent()) + SourceBindings(Demo(), {}, QuotedParent());
            FirstValue(Demo(), all, Str("<<"))
            == Some(Leaf(Str("a")))
  {
    QuotedSourceBindings();
    QuotedParentParts();
    Spellings();
    hide IsMerge, Demo, Own, Taken, SourceMap, HasRepeatedKey, IsStringMap, MergeValue;
    var d, n, p := Demo(), QuotedParent(), Pending(Str("<<"), {}, Word(STR_TAG, "a"));
    assert |n.pairs| == 1 && Sources(d, {}, QuotedSource(), true) == Some([p]);
    ChooseMore({Str("<<")}, [], p);
    assert [] + [p] == [p] && [] + Choose({Str("<<")}, [p]) == [];
    DenoteMapping(d, {}, n);
    assert FirstOf([p], Str("<<")) == Some(p);
  }
}
