/**
 The decoder (go-yaml/decode.go:455-544, 767-862, 977-1014) into untyped values, with its
 counters, its set of aliases in progress and its shared set of merged fields.

 A panic of the source is an error result here; after one, the decoder is not used again.
 Type errors that the source collects without stopping are not modelled beyond the `false`
 they make decoding return.
 */
module Decoder {
  import opened Wrappers
  import opened YamlTree
  import opened YamlMeaning
  import opened YamlGraph
  import opened YamlErrors
  import opened YamlReports
  import opened YamlWork
  import opened AliasRatio

  /** The whole new state of the merge bookkeeping: fields taken so far and the map they gave. */
  ghost predicate Merged(d: Doc, fields: Option<set<Atom>>, own: seq<Pending>, taken: set<Atom>, q: seq<Pending>,
    m: map<Atom, Value>) {
    fields == Some(taken + KeysOf(q)) && ApplyAll(d, own + Choose(taken, q)) == Some(m)
  }

  /** The sources r, read after q, cannot be decoded. */
  ghost predicate Spoiled(d: Doc, own: seq<Pending>, taken: set<Atom>, q: seq<Pending>, r: Option<seq<Pending>>) {
    r.Some? ==> ApplyAll(d, own + Choose(taken, q + r.value)) == None
  }

  lemma {:induction false} ElementsFail(d: Doc, p: set<nat>, n: Node, k: nat)
    requires n.Sequence? && 0 < k <= |n.items|
    ensures Elements(d, p, n, k) == None ==> Denote(d, p, n, Any) == Fail
    ensures Denote(d, p, n.items[k - 1], Any) == Fail ==> Denote(d, p, n, Any) == Fail
    decreases |n.items| - k
  {
    if k < |n.items| {
      ElementsFail(d, p, n, k + 1);
    }
  }

  lemma NoElements(d: Doc, p: set<nat>, n: Node)
    requires n.Sequence?
    ensures Elements(d, p, n, 0) == Some([]) && ItemsCost(n.items, 0) == 0
  {}

  /** One more item. */
  lemma ElementsMore(d: Doc, p: set<nat>, n: Node, k: nat, vs: seq<Value>)
    requires n.Sequence? && k < |n.items| && Elements(d, p, n, k) == Some(vs)
    ensures ItemsCost(n.items, k + 1) == ItemsCost(n.items, k) + Cost(n.items[k])
    ensures match Denote(d, p, n.items[k], Any)
            case Fail => Elements(d, p, n, k + 1) == None
            case Skip => Elements(d, p, n, k + 1) == Some(vs)
            case Good(v) => Elements(d, p, n, k + 1) == Some(vs + [v])
  {
    hide Denote, Cost;
  }

  lemma SequenceDenotes(d: Doc, p: set<nat>, n: Node)
    requires n.Sequence?
    ensures Elements(d, p, n, |n.items|).Some? ==>
              Denote(d, p, n, Any) == Good(List(Elements(d, p, n, |n.items|).value))
    ensures Cost(n) == 1 + ItemsCost(n.items, |n.items|)
  {}

  /** The cases of Denote that need no recursion. */
  lemma DenoteCases(d: Doc, p: set<nat>, n: Node, t: Target)
    ensures n.Scalar? ==> Denote(d, p, n, t) == DenoteScalar(d, n, t)
    ensures n.Sequence? && t == Text ==> Denote(d, p, n, t) == Skip
    ensures n.Mapping? && (t == Text || HasRepeatedKey(n.pairs)) ==> Denote(d, p, n, t) == Skip
    ensures n.Sequence? && t == Any ==> KeyAtom(Denote(d, p, n, t)) == None
    ensures n.Mapping? && t == Any && !HasRepeatedKey(n.pairs) ==> KeyAtom(Denote(d, p, n, t)) == None
  {}

  lemma DenoteAlias(d: Doc, p: set<nat>, n: Node, t: Target)
    requires n.Alias?
    ensures Denote(d, p, n, t) ==
            if n.id !in d.targets || n.id in p then Fail else Denote(d, p + {n.id}, d.targets[n.id], t)
  {}

  lemma LeafCost(n: Node)
    ensures Cost(n) >= 1
  {}

  function MergeCost(o: Option<Node>): nat {
    match o case None => 0 case Some(n) => Cost(n)
  }

  lemma NothingYet(d: Doc, p: set<nat>, n: Node, text: bool)
    requires n.Mapping?
    ensures ApplyAll(d, []) == Some(map[]) && Own(d, p, n, text, 0) == Some([])
    ensures MergeValue(n.pairs, 0) == None && PairsCost(n, 0) == 0 && KeysCost(n, 0) == 0
              && Taken(d, p, n, 0) == Some({})
  {}

  /** A merge key adds no binding; the last one is remembered. */
  lemma PairStep(d: Doc, p: set<nat>, n: Node, text: bool, i: nat)
    requires n.Mapping? && i < |n.pairs|
    ensures MergeValue(n.pairs, i + 1) ==
              if IsMerge(n.pairs[i].key) then Some(n.pairs[i].value) else MergeValue(n.pairs, i)
    ensures IsMerge(n.pairs[i].key) ==> Own(d, p, n, text, i + 1) == Own(d, p, n, text, i)
  {}

  lemma DenoteWithoutMerge(d: Doc, p: set<nat>, n: Node, own: seq<Pending>, m: map<Atom, Value>)
    requires n.Mapping? && !HasRepeatedKey(n.pairs) && !HasMerge(n.pairs)
    requires Own(d, p, n, IsStringMap(d, n.pairs), |n.pairs|) == Some(own) && ApplyAll(d, own) == Some(m)
    ensures Denote(d, p, n, Any) == Good(Dict(m))
  {
    DenoteMapping(d, p, n);
  }

  lemma KeyStep(d: Doc, p: set<nat>, n: Node, i: nat)
    requires n.Mapping? && i < |n.pairs|
    ensures KeysCost(n, i + 1) == KeysCost(n, i) + Cost(n.pairs[i].key)
    ensures Taken(d, p, n, i + 1) ==
            match Taken(d, p, n, i)
            case None => None
            case Some(s) => match KeyAtom(Denote(d, p, n.pairs[i].key, Any))
              case None => None
              case Some(None) => Some(s)
              case Some(Some(a)) => Some(s + {a})
  {}

  lemma PairCost(n: Node, i: nat)
    requires n.Mapping? && i < |n.pairs|
    ensures PairsCost(n, i + 1) == PairsCost(n, i) + Cost(n.pairs[i].key) + Cost(n.pairs[i].value)
  {}

  lemma MappingCost(n: Node)
    requires n.Mapping?
    ensures Cost(n) == 1 + PairsCost(n, |n.pairs|) + (if HasMerge(n.pairs) then KeysCost(n, |n.pairs|) else 0)
  {}

  lemma {:induction false} MergeIsLive(d: Doc, n: Node, text: bool, k: nat)
    requires n.Mapping? && k <= |n.pairs| && MergeValue(n.pairs, k).Some?
    ensures Live(d, MergeValue(n.pairs, k).value) <= LivePairs(d, n, text, k)
  {
    if !IsMerge(n.pairs[k - 1].key) {
      MergeIsLive(d, n, text, k - 1);
    }
  }

  lemma AliasKey(d: Doc, p: set<nat>, key: Node)
    requires key.Alias? && StringKey(d, key) && KeyAtom(Denote(d, p, key, Text)).Some?
    ensures KeyAtom(Denote(d, p, key, Any)).Some?
  {
    var target := d.targets[key.id];
    assert Denote(d, p, key, Text) == Denote(d, p + {key.id}, target, Text) == DenoteScalar(d, target, Text);
    assert Denote(d, p, key, Any) == Denote(d, p + {key.id}, target, Any) == DenoteScalar(d, target, Any);
  }

  /** A key that was decoded as a key is no map and no sequence. */
  lemma {:induction false} KeysAreKeys(d: Doc, p: set<nat>, n: Node, k: nat, i: nat)
    requires n.Mapping? && i < k <= |n.pairs|
    requires Own(d, p, n, IsStringMap(d, n.pairs), k).Some?
    ensures n.pairs[i].key.Scalar? || KeyAtom(Denote(d, p, n.pairs[i].key, Any)).Some?
    decreases k
  {
    hide Denote;
    if i < k - 1 {
      KeysAreKeys(d, p, n, k - 1, i);
    } else if IsStringMap(d, n.pairs) && n.pairs[i].key.Alias? {
      AliasKey(d, p, n.pairs[i].key);
    }
  }

  lemma {:induction false} TakenExtends(d: Doc, p: set<nat>, n: Node, k: nat, l: nat)
    requires n.Mapping? && k <= l <= |n.pairs|
    ensures Taken(d, p, n, k) == None ==> Taken(d, p, n, l) == None
    decreases l
  {
    if k < l {
      TakenExtends(d, p, n, k, l - 1);
    }
  }

  lemma TakenFails(d: Doc, p: set<nat>, n: Node, k: nat)
    requires n.Mapping? && !HasRepeatedKey(n.pairs) && k <= |n.pairs| && HasMerge(n.pairs)
    requires Taken(d, p, n, k) == None
    ensures Denote(d, p, n, Any) == Fail
  {
    TakenExtends(d, p, n, k, |n.pairs|);
    DenoteMapping(d, p, n);
  }

  lemma NothingBound(taken: set<Atom>)
    ensures taken + KeysOf([]) == taken
  {}

  /** The fields taken, by the bindings they come from. */
  lemma FieldsAre(
    d: Doc, fields: set<Atom>, own: seq<Pending>, taken: set<Atom>, q: seq<Pending>, ps: seq<Pending>,
    m: map<Atom, Value>)
    requires Merged(d, Some(fields), own, taken, q + ps, m)
    ensures fields == taken + KeysOf(q) + KeysOf(ps)
  {
    KeysConcat(q, ps);
  }

  lemma StartMerge(d: Doc, own: seq<Pending>, taken: set<Atom>, m: map<Atom, Value>)
    requires ApplyAll(d, own) == Some(m)
    ensures Merged(d, Some(taken), own, taken, [], m)
  {
    assert own + Choose(taken, []) == own;
    assert taken + KeysOf([]) == taken;
  }

  /** What the sources of a mapping with a merge add up to. */
  lemma MergeDenotes(d: Doc, p: set<nat>, n: Node, own: seq<Pending>, taken: set<Atom>, m: map<Atom, Value>)
    requires n.Mapping? && !HasRepeatedKey(n.pairs) && HasMerge(n.pairs)
    requires Own(d, p, n, IsStringMap(d, n.pairs), |n.pairs|) == Some(own)
    requires Taken(d, p, n, |n.pairs|) == Some(taken)
    ensures var r := Sources(d, p, MergeValue(n.pairs, |n.pairs|).value, IsStringMap(d, n.pairs));
            && (Spoiled(d, own, taken, [], r) ==> Denote(d, p, n, Any) == Fail)
            && (r.Some? && ApplyAll(d, own + Choose(taken, r.value)) == Some(m) ==>
                 Denote(d, p, n, Any) == Good(Dict(m)))
  {
    hide Denote, Own, Taken, Sources, ApplyAll, Choose, IsStringMap, HasRepeatedKey;
    DenoteMapping(d, p, n);
    var r := Sources(d, p, MergeValue(n.pairs, |n.pairs|).value, IsStringMap(d, n.pairs));
    if r.Some? {
      assert [] + r.value == r.value;
    }
  }

  lemma ListStep(d: Doc, p: set<nat>, mv: Node, text: bool, i: nat)
    requires mv.Sequence? && i < |mv.items| && SourceList(d, p, mv, text, i).Some?
    ensures SourceList(d, p, mv, text, i + 1) == match Source(d, p, mv.items[i], text)
            case None => None
            case Some(more) => Some(SourceList(d, p, mv, text, i).value + more)
    ensures ItemsCost(mv.items, i + 1) == ItemsCost(mv.items, i) + Cost(mv.items[i])
  {
    hide Denote, Source, Cost;
  }

  lemma NoSourceYet(d: Doc, p: set<nat>, mv: Node, text: bool)
    requires mv.Sequence?
    ensures SourceList(d, p, mv, text, 0) == Some([]) && ItemsCost(mv.items, 0) == 0
    ensures Sources(d, p, mv, text) == SourceList(d, p, mv, text, |mv.items|)
  {}

  lemma {:induction false} SourceListExtends(d: Doc, p: set<nat>, mv: Node, text: bool, k: nat, l: nat)
    requires mv.Sequence? && k <= l <= |mv.items|
    ensures SourceList(d, p, mv, text, k) == None ==> SourceList(d, p, mv, text, l) == None
    ensures SourceList(d, p, mv, text, l).Some? ==>
              SourceList(d, p, mv, text, k).Some?
                && SourceList(d, p, mv, text, k).value <= SourceList(d, p, mv, text, l).value
    decreases l
  {
    if k < l {
      SourceListExtends(d, p, mv, text, k, l - 1);
    }
  }

  lemma LongPrefix(q: seq<Pending>, r: seq<Pending>, more: seq<Pending>, rest: seq<Pending>)
    ensures q + r + more <= q + (r + more + rest)
  {
    assert q + (r + more + rest) == (q + r + more) + rest;
  }

  lemma LongerFails(d: Doc, own: seq<Pending>, taken: set<Atom>, q: seq<Pending>, r: seq<Pending>,
    more: seq<Pending>, all: seq<Pending>)
    requires r + more <= all && ApplyAll(d, own + Choose(taken, q + r + more)) == None
    ensures ApplyAll(d, own + Choose(taken, q + all)) == None
  {
    hide ApplyAll, Choose;
    var rest := all[|r + more|..];
    assert all == r + more + rest;
    LongPrefix(q, r, more, rest);
    ChosenFails(d, own, taken, q + r + more, q + all);
  }

  /** A spoiled element spoils the sequence of sources. */
  lemma ListSpoiled(d: Doc, p: set<nat>, mv: Node, text: bool, i: nat, own: seq<Pending>, taken: set<Atom>,
    q: seq<Pending>, r: seq<Pending>)
    requires mv.Sequence? && i < |mv.items| && SourceList(d, p, mv, text, i) == Some(r)
    requires Spoiled(d, own, taken, q + r, Source(d, p, mv.items[i], text))
    ensures Spoiled(d, own, taken, q, Sources(d, p, mv, text))
  {
    hide Denote, Source, Choose, ApplyAll;
    ListStep(d, p, mv, text, i);
    NoSourceYet(d, p, mv, text);
    SourceListExtends(d, p, mv, text, i + 1, |mv.items|);
    hide SourceList;
    var all := SourceList(d, p, mv, text, |mv.items|);
    if all.Some? {
      LongerFails(d, own, taken, q, r, Source(d, p, mv.items[i], text).value, all.value);
    }
  }

  lemma SourceOfAlias(d: Doc, p: set<nat>, s: Node, text: bool)
    requires s.Alias?
    ensures Source(d, p, s, text) ==
            if s.id !in d.targets || s.id in p || !d.targets[s.id].Mapping? then None
            else SourceMap(d, p + {s.id}, d.targets[s.id], text)
  {}

  lemma SpoiledKey(d: Doc, own: seq<Pending>, taken: set<Atom>, q: seq<Pending>)
    ensures Spoiled(d, own, taken, q, None)
  {}

  lemma SpoiledValue(d: Doc, own: seq<Pending>, taken: set<Atom>, q: seq<Pending>, ps: seq<Pending>)
    requires ApplyAll(d, own + Choose(taken, q + ps)) == None
    ensures Spoiled(d, own, taken, q, Some(ps))
  {}

  /** One more binding of a source: passed over if its key is taken, bound otherwise. */
  lemma MergedMore(d: Doc, fields: set<Atom>, own: seq<Pending>, taken: set<Atom>, q: seq<Pending>, p: Pending,
    m: map<Atom, Value>)
    requires Merged(d, Some(fields), own, taken, q, m)
    ensures p.key in fields ==> Merged(d, Some(fields), own, taken, q + [p], m)
    ensures p.key !in fields ==>
              match Bind(m, p.key, Denote(d, p.inside, p.node, Any), NullTagged(d, p.node))
              case None => ApplyAll(d, own + Choose(taken, q + [p])) == None
              case Some(m') => Merged(d, Some(fields + {p.key}), own, taken, q + [p], m')
  {
    hide Denote, ApplyAll, Choose, Bind, NullTagged;
    KeysMore(q, p);
    ChooseMore(taken, q, p);
    if p.key in fields {
      assert taken + KeysOf(q + [p]) == fields;
    } else {
      assert taken + KeysOf(q + [p]) == fields + {p.key};
      assert own + (Choose(taken, q) + [p]) == own + Choose(taken, q) + [p];
      ApplyMore(d, own + Choose(taken, q), p);
    }
  }

  lemma SourceStart(d: Doc, p: set<nat>, s: Node, text: bool, fields: Option<set<Atom>>, own: seq<Pending>,
    taken: set<Atom>, q: seq<Pending>, m: map<Atom, Value>)
    requires s.Mapping? && Merged(d, fields, own, taken, q, m)
    ensures fields.Some? && Merged(d, Some(fields.value), own, taken, q + [], m)
    ensures Own(d, p, s, text, 0) == Some([]) && MergeValue(s.pairs, 0) == None && PairsCost(s, 0) == 0
  {
    assert q + [] == q;
  }

  lemma SourceSpoiled(d: Doc, p: set<nat>, s: Node, text: bool, k: nat, own: seq<Pending>, taken: set<Atom>,
    q: seq<Pending>)
    requires s.Mapping? && !HasRepeatedKey(s.pairs) && k <= |s.pairs|
    requires Spoiled(d, own, taken, q, Own(d, p, s, text, k))
    ensures Spoiled(d, own, taken, q, SourceMap(d, p, s, text))
  {
    OwnExtends(d, p, s, text, k, |s.pairs|);
    var all, upTo := SourceMap(d, p, s, text), Own(d, p, s, text, k);
    if all.Some? {
      assert upTo.value <= all.value;
      ChosenFails(d, own, taken, q + upTo.value, q + all.value);
    }
  }

  /** After its own keys, a source is what its merge adds. */
  lemma SourceEnd(d: Doc, p: set<nat>, s: Node, text: bool, own: seq<Pending>, taken: set<Atom>, q: seq<Pending>,
    ps: seq<Pending>)
    requires s.Mapping? && !HasRepeatedKey(s.pairs) && Own(d, p, s, text, |s.pairs|) == Some(ps)
    ensures !HasMerge(s.pairs) ==> SourceMap(d, p, s, text) == Some(ps)
    ensures HasMerge(s.pairs) ==>
              var r := Sources(d, p, MergeValue(s.pairs, |s.pairs|).value, text);
              && (r.Some? ==> SourceMap(d, p, s, text) == Some(ps + r.value))
              && (Spoiled(d, own, taken, q + ps, r) ==> Spoiled(d, own, taken, q, SourceMap(d, p, s, text)))
  {
    if HasMerge(s.pairs) {
      var r := Sources(d, p, MergeValue(s.pairs, |s.pairs|).value, text);
      if r.Some? {
        assert q + ps + r.value == q + (ps + r.value);
      }
    }
  }

  lemma ChainMore(d: Doc, root: Node, c: seq<nat>, id: nat)
    requires c == [] || (Chain(d, root, c) && c[|c| - 1] in d.targets)
    requires id in Live(d, if c == [] then root else d.targets[c[|c| - 1]])
    ensures Chain(d, root, c + [id])
  {}

  lemma ChainLess(d: Doc, root: Node, c: seq<nat>, id: nat)
    requires c != [] && Chain(d, root, c + [id])
    ensures Chain(d, root, c)
  {
    var l := c + [id];
    assert forall i :: 0 <= i < |c| ==> c[i] == l[i];
  }

  // ----- The decoder ---------------------------------------------------------------------------------------

  class Decoding {
    const doc: Doc
    ghost const root: Node
    var decodeCount: nat
    var aliasCount: nat
    var aliasDepth: nat
    var aliases: set<nat>
    var mergedFields: Option<set<Atom>>
    ghost var path: seq<nat>  // the aliases in progress, outermost first
    ghost var made: seq<bool>  // the calls of unmarshal, each with whether it was inside an alias

    constructor (doc: Doc, ghost root: Node)
      requires Typed(doc)
      ensures this.doc == doc && this.root == root && Valid()
      ensures decodeCount == aliasCount == aliasDepth == 0 && aliases == {} && mergedFields == None
      ensures path == [] && made == []
    {
      this.doc, this.root := doc, root;
      decodeCount, aliasCount, aliasDepth := 0, 0, 0;
      aliases, mergedFields, path, made := {}, None, [], [];
    }

    /** The counters count the calls made; over: the last of them is the first to fail the ratio test. */
    ghost predicate Tally(over: bool)
      reads this`aliasCount, this`decodeCount, this`made
    {
      Tallied(made, aliasCount, decodeCount, over)
    }

    /** Aliases in progress are a chain from the root. */
    ghost predicate Valid()
      reads this`aliases, this`aliasDepth, this`path, this`aliasCount, this`decodeCount, this`made
    {
      && Typed(doc)
      && aliases <= doc.targets.Keys
      && aliasDepth == |path|
      && (forall a :: a in aliases <==> a in path)
      && (path != [] ==> Chain(doc, root, path))
      && Tally(false)
    }

    /** n lies in what is being decoded now. */
    ghost predicate Here(n: Node)
      reads this`path
    {
      if path == [] then Live(doc, n) <= Live(doc, root)
      else path[|path| - 1] in doc.targets && Live(doc, n) <= Live(doc, doc.targets[path[|path| - 1]])
    }

    /** Calls of unmarshal made outside aliases. */
    function Direct(): int
      reads this
    {
      decodeCount - aliasCount
    }

    lemma WithinRatio()
      requires Valid()
      ensures Tally(false)
    {}

    /** The head of d.unmarshal: the call is counted and the ratio compared. */
    method Count() returns (ok: bool)
      requires Valid()
      modifies this`decodeCount, this`aliasCount, this`made
      ensures made == old(made) + [aliases != {}] && Tally(!ok)
      ensures ok ==> Valid() && Direct() == old(Direct()) + (if aliasDepth == 0 then 1 else 0)
    {
      hide TooMany, Tallied;
      TalliedMore(made, aliasCount, decodeCount, aliasDepth > 0);
      assert aliases != {} <==> aliasDepth > 0 by {
        if path != [] { assert path[0] in aliases; }
      }
      decodeCount := decodeCount + 1;
      made := made + [aliasDepth > 0];
      if aliasDepth > 0 {
        aliasCount := aliasCount + 1;
      }
      ok := !TooMany(aliasCount, decodeCount);
    }

    /** The call for a document node itself (d.document). */
    method CountDocument()
      requires Valid() && made == [] && aliases == {} && path == []
      modifies this`decodeCount, this`aliasCount, this`made
      ensures Valid() && made == [false] && Direct() == old(Direct()) + 1
    {
      var ok := Count();
      assert ok;
    }

    /** At most cost more calls outside aliases; inside one, none. */
    twostate predicate Spent(cost: int)
      reads this
    {
      if old(aliasDepth) == 0 then Direct() <= old(Direct()) + cost else Direct() == old(Direct())
    }

    /** Everything a call gives back as it found it. */
    twostate predicate Restored()
      reads this
    {
      aliases == old(aliases) && path == old(path) && aliasDepth == old(aliasDepth)
    }

    /** d.unmarshal. */
    method Unmarshal(n: Node, t: Target) returns (o: Outcome, e: Error)
      requires Valid() && Here(n)
      requires mergedFields == None || n.Scalar? || KeyAtom(Denote(doc, aliases, n, t)).Some?
      modifies this
      ensures e == NoError ==> Valid() && Restored() && mergedFields == old(mergedFields) && Spent(Cost(n))
      ensures e == NoError ==> o == Denote(doc, old(aliases), n, t) && o != Fail
      ensures e != NoError && e != Excessive ==> Denote(doc, old(aliases), n, t) == Fail
      ensures e == SelfContaining ==> ContainsItself(doc, root)
      ensures Tally(e == Excessive) && Reports(e, old(made), made, LogOf(doc, old(aliases), n, t))
      decreases Room(doc, aliases), n, 9
    {
      hide Denote, Live, Valid, Here, Cost, ContainsItself, KeyAtom, Tally, Reports, LogOf, Visit;
      NodeCall(doc, aliases, n, t, NoError, made, made);
      var ok := Count();
      if !ok {
        return Fail, Excessive;
      }
      o, e := Dispatch(n, t);
      NodeCall(doc, old(aliases), n, t, e, old(made), made);
    }

    /** The switch of d.unmarshal over the kinds of nodes. */
    method Dispatch(n: Node, t: Target) returns (o: Outcome, e: Error)
      requires Valid() && Here(n)
      requires mergedFields == None || n.Scalar? || KeyAtom(Denote(doc, aliases, n, t)).Some?
      modifies this
      ensures e == NoError ==> Valid() && Restored() && mergedFields == old(mergedFields) && Spent(Cost(n) - 1)
      ensures e == NoError ==> o == Denote(doc, old(aliases), n, t) && o != Fail
      ensures e != NoError && e != Excessive ==> Denote(doc, old(aliases), n, t) == Fail
      ensures e == SelfContaining ==> ContainsItself(doc, root)
      ensures Tally(e == Excessive) && Reports(e, old(made), made, Visit(doc, old(aliases), n, t))
      decreases Room(doc, aliases), n, 8, 1
    {
      hide Denote, DenoteScalar, Live, Valid, Here, Cost, ContainsItself, HasRepeatedKey, Tally, Reports, LogOf, Visit;
      hide Room, KeyAtom, Chain, TooMany;
      DenoteCases(doc, aliases, n, t);
      VisitAtOnce(doc, aliases, n, t, made);
      WithinRatio();
      LeafCost(n);
      match n {
        case Alias(_, _, _) =>
          o, e := UnmarshalAlias(n, t);
        case Scalar(_, _, _, _, _) =>
          o, e := UnmarshalScalar(n, t);
        case Sequence(_, _, _, _, _) =>
          if t == Text {
            return Skip, NoError;
          }
          o, e := UnmarshalSequence(n);
        case Mapping(_, _, _, _, pairs) =>
          if t == Text || HasRepeatedKey(pairs) {
            return Skip, NoError;
          }
          o, e := UnmarshalMapping(n);
      }
    }

    /** d.scalar, with what resolve says of the node. */
    method UnmarshalScalar(n: Node, t: Target) returns (o: Outcome, e: Error)
      requires n.Scalar?
      ensures e == NoError || e == BadScalar
      ensures e == NoError ==> o == DenoteScalar(doc, n, t) && o != Fail
      ensures e == BadScalar ==> DenoteScalar(doc, n, t) == Fail
      ensures Reports(e, made, made, Visit(doc, aliases, n, t))
    {
      VisitAtOnce(doc, aliases, n, t, made);
      hide Reports, Visit;
      match doc.resolve(n) {
        case None => return Fail, BadScalar;
        case Some(a) =>
          e := NoError;
          if t == Any {
            o := Good(Leaf(a));
          } else if a == Null {
            o := Skip;
          } else {
            o := Good(Leaf(Str(doc.text(n))));
          }
      }
    }

    /** d.alias. */
    method UnmarshalAlias(n: Node, t: Target) returns (o: Outcome, e: Error)
      requires Valid() && Here(n) && n.Alias?
      requires mergedFields == None || n.Scalar? || KeyAtom(Denote(doc, aliases, n, t)).Some?
      modifies this
      ensures e == NoError ==> Valid() && Restored() && mergedFields == old(mergedFields) && Spent(0)
      ensures e == NoError ==> o == Denote(doc, old(aliases), n, t) && o != Fail
      ensures e != NoError && e != Excessive ==> Denote(doc, old(aliases), n, t) == Fail
      ensures e == SelfContaining ==> ContainsItself(doc, root)
      ensures Tally(e == Excessive) && Reports(e, old(made), made, Visit(doc, old(aliases), n, t))
      decreases Room(doc, aliases), n, 8, 0
    {
      hide Denote, Live, Valid, Here, ContainsItself, Room, Chain, TooMany, KeyAtom, Tally, Reports, LogOf, Visit;
      WithinRatio();
      AliasesOnPath();
      HereAlias(n);
      DenoteAlias(doc, aliases, n, t);
      var id := n.id;
      VisitAlias(doc, aliases, n, t, NoError, made, made);
      if id !in doc.targets {
        return Fail, NoTarget;
      }
      if id in aliases {
        MeetAgain(id);
        return Fail, SelfContaining;
      }
      RoomShrinks(doc, aliases, id);
      Push(id);
      o, e := Unmarshal(doc.targets[id], t);
      VisitAlias(doc, old(aliases), n, t, e, old(made), made);
      if e == NoError {
        Pop(id, old(aliases), old(path));
      }
    }

    method UnmarshalSequence(n: Node) returns (o: Outcome, e: Error)
      requires Valid() && Here(n) && n.Sequence? && mergedFields == None
      modifies this
      ensures e == NoError ==> Valid() && Restored() && mergedFields == old(mergedFields) && Spent(Cost(n) - 1)
      ensures e == NoError ==> o == Denote(doc, old(aliases), n, Any) && o != Fail
      ensures e != NoError && e != Excessive ==> Denote(doc, old(aliases), n, Any) == Fail
      ensures e == SelfContaining ==> ContainsItself(doc, root)
      ensures Tally(e == Excessive) && Reports(e, old(made), made, Visit(doc, old(aliases), n, Any))
      decreases Room(doc, aliases), n, 8, 0
    {
      hide Valid, Here, Denote, Cost, Live, ContainsItself, Room, Chain, TooMany, Elements, ItemsCost;
      hide Tally, Reports, LogOf, Visit, ItemsLog;
      NoElements(doc, aliases, n);
      NoItemYet(doc, aliases, n, made);
      var vs: seq<Value>, i := [], 0;
      while i < |n.items|
        invariant i <= |n.items| && Valid() && Restored() && mergedFields == None
        invariant Elements(doc, old(aliases), n, i) == Some(vs)
        invariant Spent(ItemsCost(n.items, i)) && Reports(NoError, old(made), made, ItemsLog(doc, old(aliases), n, i))
      {
        HereItem(n, i);
        ElementsMore(doc, aliases, n, i, vs);
        ghost var before := made;
        var item, error := Unmarshal(n.items[i], Any);
        ItemReported(doc, old(aliases), n, i, error, old(made), before, made);
        if error != NoError {
          ElementsFail(doc, old(aliases), n, i + 1);
          SequenceReported(doc, old(aliases), n, i + 1, error, old(made), made);
          return Fail, error;
        }
        if item.Good? {
          vs := vs + [item.v];
        }
        i := i + 1;
      }
      SequenceDenotes(doc, old(aliases), n);
      SequenceReported(doc, old(aliases), n, i, NoError, old(made), made);
      WithinRatio();
      return Good(List(vs)), NoError;
    }

    lemma HereItem(n: Node, i: nat)
      requires Valid() && Here(n) && n.Sequence? && i < |n.items|
      ensures Here(n.items[i])
    {
      LiveItem(doc, n.items, |n.items|, i);
    }

    // ----- Mappings ------------------------------------------------------------------

    lemma HerePair(n: Node, i: nat)
      requires Valid() && Here(n) && n.Mapping? && !HasRepeatedKey(n.pairs) && i < |n.pairs|
      ensures Here(n.pairs[i].key)
      ensures IsMerge(n.pairs[i].key) || !Skips(doc, n.pairs[i].key, KeyTarget(IsStringMap(doc, n.pairs))) ==>
                Here(n.pairs[i].value)
    {
      LivePair(doc, n, IsStringMap(doc, n.pairs), |n.pairs|, i);
    }

    /** Decode a key: None when the pair is passed over. */
    method OwnKey(n: Node, text: bool, i: nat) returns (k: Option<Atom>, e: Error)
      requires Valid() && Here(n) && n.Mapping? && !HasRepeatedKey(n.pairs) && mergedFields == None
      requires i < |n.pairs|
      modifies this
      ensures e == NoError ==> Valid() && Restored() && mergedFields == None && Spent(Cost(n.pairs[i].key))
      ensures e == NoError ==> KeyAtom(Denote(doc, old(aliases), n.pairs[i].key, KeyTarget(text))) == Some(k)
      ensures e == NoError && k.Some? ==> Here(n.pairs[i].value)
      ensures e != NoError && e != Excessive ==>
                KeyAtom(Denote(doc, old(aliases), n.pairs[i].key, KeyTarget(text))) == None
      ensures e == SelfContaining ==> ContainsItself(doc, root)
      ensures Tally(e == Excessive) && Reports(e, old(made), made, KeyLog(doc, old(aliases), n, text, i))
      decreases Room(doc, aliases), n, 6
    {
      hide Valid, Here, Denote, Cost, Live, HasRepeatedKey, IsStringMap, ContainsItself, Tally, Reports, LogOf, KeyLog;
      HerePair(n, i);
      k := None;
      var o;
      o, e := Unmarshal(n.pairs[i].key, KeyTarget(text));
      KeyReported(doc, old(aliases), n, text, i, e, old(made), made);
      if e != NoError {
        return;
      }
      match KeyAtom(o) {
        case None =>
          e := BadKey;
        case Some(a) =>
          k := a;
          if a.Some? { GoodKey(n, text, i, old(aliases)); }
      }
    }

    /** One pair of a mapping decoded afresh: the key, then the value. */
    method OwnPair(n: Node, text: bool, i: nat, m: map<Atom, Value>, ghost ps: seq<Pending>)
      returns (m': map<Atom, Value>, e: Error, ghost ps': seq<Pending>)
      requires Valid() && Here(n) && n.Mapping? && !HasRepeatedKey(n.pairs) && mergedFields == None
      requires text == IsStringMap(doc, n.pairs) && i < |n.pairs| && !IsMerge(n.pairs[i].key)
      requires Own(doc, aliases, n, text, i) == Some(ps) && ApplyAll(doc, ps) == Some(m)
      modifies this
      ensures e == NoError ==>
                Valid() && Restored() && mergedFields == None && Spent(Cost(n.pairs[i].key) + Cost(n.pairs[i].value))
      ensures e == NoError ==> Own(doc, old(aliases), n, text, i + 1) == Some(ps') && ApplyAll(doc, ps') == Some(m')
      ensures e != NoError && e != Excessive ==> Denote(doc, old(aliases), n, Any) == Fail
      ensures e == SelfContaining ==> ContainsItself(doc, root)
      ensures Tally(e == Excessive) && Reports(e, old(made), made, PairLog(doc, old(aliases), n, text, i))
      decreases Room(doc, aliases), n, 7
    {
      hide Valid, Here, Denote, Cost, Live, ApplyAll, Own, HasRepeatedKey, IsStringMap, IsMerge, ContainsItself;
      hide Tally, Reports, LogOf, KeyLog, PairLog;
      OwnStep(doc, aliases, n, text, i);
      m', ps' := m, ps;
      var k;
      k, e := OwnKey(n, text, i);
      PairPassed(doc, old(aliases), n, text, i, e, old(made), made);
      if e == NoError && k.Some? {
        ghost var before := made;
        ps' := ps + [Pending(k.value, old(aliases), n.pairs[i].value)];
        m', e := BindValue(k.value, n.pairs[i].value, m, ps);
        ValueReported(doc, old(aliases), n, text, i, e, old(made), before, made);
      }
      if e != NoError && e != Excessive {
        OwnFails(doc, old(aliases), n, i + 1);
      }
    }

    /** Decode a value and set it under its key. */
    method BindValue(a: Atom, value: Node, m: map<Atom, Value>, ghost ps: seq<Pending>)
      returns (m': map<Atom, Value>, e: Error)
      requires Valid() && Here(value) && mergedFields == None && ApplyAll(doc, ps) == Some(m)
      modifies this
      ensures e == NoError ==> Valid() && Restored() && mergedFields == None && Spent(Cost(value))
      ensures e == NoError ==> ApplyAll(doc, ps + [Pending(a, old(aliases), value)]) == Some(m')
      ensures e != NoError && e != Excessive ==> ApplyAll(doc, ps + [Pending(a, old(aliases), value)]) == None
      ensures e == SelfContaining ==> ContainsItself(doc, root)
      ensures Tally(e == Excessive) && Reports(e, old(made), made, LogOf(doc, old(aliases), value, Any))
      decreases Room(doc, aliases), value, 10
    {
      hide Valid, Here, Denote, Cost, Live, ApplyAll, ContainsItself, NullTagged, Tally, Reports, LogOf;
      ApplyMore(doc, ps, Pending(a, aliases, value));
      m' := m;
      var v;
      v, e := Unmarshal(value, Any);
      if e == NoError {
        m' := Bind(m, a, v, NullTagged(doc, value)).value;
      }
    }

    /** d.mapping into an interface: a new map, own keys first, then the merge. */
    method UnmarshalMapping(n: Node) returns (o: Outcome, e: Error)
      requires Valid() && Here(n) && n.Mapping? && !HasRepeatedKey(n.pairs) && mergedFields == None
      modifies this
      ensures e == NoError ==> Valid() && Restored() && mergedFields == old(mergedFields) && Spent(Cost(n) - 1)
      ensures e == NoError ==> o == Denote(doc, old(aliases), n, Any) && o != Fail
      ensures e != NoError && e != Excessive ==> Denote(doc, old(aliases), n, Any) == Fail
      ensures e == SelfContaining ==> ContainsItself(doc, root)
      ensures Tally(e == Excessive) && Reports(e, old(made), made, Visit(doc, old(aliases), n, Any))
      decreases Room(doc, aliases), n, 8, 0
    {
      hide Valid, Here, Denote, Cost, Live, ApplyAll, Own, MergeValue, PairsCost, KeysCost, Chain, TooMany;
      hide HasRepeatedKey, IsStringMap, Bindings, ContainsItself, IsMerge;
      hide Tally, Reports, LogOf, Visit, PairLog, PairsLog, MergeLog;
      NoPairYet(doc, aliases, n, IsStringMap(doc, n.pairs), made);
      o, e := Fail, NoError;
      var text := IsStringMap(doc, n.pairs);
      var m: map<Atom, Value>, mergeNode: Option<Node>, i := map[], None, 0;
      ghost var ps: seq<Pending> := [];
      NothingYet(doc, aliases, n, text);
      while i < |n.pairs|
        invariant 0 <= i <= |n.pairs| && Valid() && Restored() && mergedFields == None
        invariant Own(doc, aliases, n, text, i) == Some(ps) && ApplyAll(doc, ps) == Some(m)
        invariant mergeNode == MergeValue(n.pairs, i)
        invariant Spent(PairsCost(n, i) - MergeCost(mergeNode)) && e == NoError
        invariant Reports(NoError, old(made), made, PairsLog(doc, old(aliases), n, text, i))
      {
        PairCost(n, i);
        PairStep(doc, aliases, n, text, i);
        if IsMerge(n.pairs[i].key) {
          mergeNode := Some(n.pairs[i].value);
          MergeKeyReported(doc, aliases, n, text, i, old(made), made);
        } else {
          ghost var before := made;
          m, e, ps := OwnPair(n, text, i, m, ps);
          PairReported(doc, old(aliases), n, text, i, e, old(made), before, made);
          if e != NoError {
            MappingFails(doc, old(aliases), n, i + 1, e, old(made), made);
            return;
          }
        }
        i := i + 1;
      }
      MappingCost(n);
      if mergeNode.Some? {
        HereMerge(n);
        ghost var before := made;
        m, e := Merge(n, mergeNode.value, text, m, ps);
        MergeReported(doc, old(aliases), n, e, old(made), before, made);
        if e != NoError {
          return;
        }
      } else {
        DenoteWithoutMerge(doc, aliases, n, ps, m);
        MappingEnds(doc, old(aliases), n, old(made), made);
        WithinRatio();
      }
      o := Good(Dict(m));
    }

    lemma HereMerge(n: Node)
      requires Valid() && Here(n) && n.Mapping? && !HasRepeatedKey(n.pairs) && HasMerge(n.pairs)
      ensures Here(MergeValue(n.pairs, |n.pairs|).value)
    {
      MergeIsLive(doc, n, IsStringMap(doc, n.pairs), |n.pairs|);
    }

    // ----- Merges --------------------------------------------------------------------

    /** One of the parent's keys joins the fields that no source may set. */
    method CollectKey(n: Node, i: nat, ghost own: seq<Pending>, ghost taken: set<Atom>)
      returns (e: Error, ghost taken': set<Atom>)
      requires Valid() && Here(n) && n.Mapping? && !HasRepeatedKey(n.pairs) && i < |n.pairs|
      requires Own(doc, aliases, n, IsStringMap(doc, n.pairs), |n.pairs|) == Some(own) && HasMerge(n.pairs)
      requires Taken(doc, aliases, n, i) == Some(taken) && mergedFields == Some(taken)
      modifies this
      ensures e == NoError ==> Valid() && Restored() && Spent(Cost(n.pairs[i].key))
      ensures e == NoError ==> Taken(doc, old(aliases), n, i + 1) == Some(taken') && mergedFields == Some(taken')
      ensures e != NoError && e != Excessive ==> Denote(doc, old(aliases), n, Any) == Fail
      ensures e == SelfContaining ==> ContainsItself(doc, root)
      ensures Tally(e == Excessive) && Reports(e, old(made), made, KeyLog(doc, old(aliases), n, false, i))
      decreases Room(doc, aliases), n, 5
    {
      hide Valid, Here, Denote, Cost, Live, Own, Taken, MergeValue, HasRepeatedKey, IsStringMap, ContainsItself;
      hide Tally, Reports, LogOf, KeyLog;
      taken' := taken;
      HerePair(n, i);
      KeyStep(doc, aliases, n, i);
      KeysAreKeys(doc, aliases, n, |n.pairs|, i);
      var k;
      k, e := Unmarshal(n.pairs[i].key, Any);
      KeyReported(doc, old(aliases), n, false, i, e, old(made), made);
      if e != NoError {
        if e != Excessive { TakenFails(doc, old(aliases), n, i + 1); }
        return;
      }
      match KeyAtom(k) {
        case None =>
          TakenFails(doc, old(aliases), n, i + 1);
          e := BadKey;
        case Some(None) =>
        case Some(Some(a)) =>
          taken' := taken + {a};
          mergedFields := Some(mergedFields.value + {a});
      }
    }

    /** The first half of d.merge: the parent's keys are taken. */
    method CollectKeys(n: Node, ghost own: seq<Pending>) returns (e: Error, ghost taken: set<Atom>)
      requires Valid() && Here(n) && n.Mapping? && !HasRepeatedKey(n.pairs) && mergedFields == None
      requires Own(doc, aliases, n, IsStringMap(doc, n.pairs), |n.pairs|) == Some(own) && HasMerge(n.pairs)
      modifies this
      ensures e == NoError ==> Valid() && Restored() && Spent(KeysCost(n, |n.pairs|))
      ensures e == NoError ==> Taken(doc, old(aliases), n, |n.pairs|) == Some(taken) && mergedFields == Some(taken)
      ensures e != NoError && e != Excessive ==> Denote(doc, old(aliases), n, Any) == Fail
      ensures e == SelfContaining ==> ContainsItself(doc, root)
      ensures Tally(e == Excessive) && Reports(e, old(made), made, TakenLog(doc, old(aliases), n, |n.pairs|))
      decreases Room(doc, aliases), n, 6
    {
      hide Valid, Here, Denote, Cost, Live, Own, Taken, KeysCost, MergeValue, Chain, TooMany, HasRepeatedKey;
      hide IsStringMap, ContainsItself, HasMerge, Room, Tally, Reports, KeyLog, TakenLog;
      WithinRatio();
      NoKeyYet(doc, aliases, n, made);
      NothingYet(doc, aliases, n, false);
      e, taken := NoError, {};
      mergedFields := Some({});
      var i := 0;
      while i < |n.pairs|
        invariant 0 <= i <= |n.pairs| && Valid() && Restored()
        invariant Taken(doc, aliases, n, i) == Some(taken) && mergedFields == Some(taken)
        invariant Spent(KeysCost(n, i)) && e == NoError && Tally(false)
        invariant Reports(NoError, old(made), made, TakenLog(doc, old(aliases), n, i))
      {
        KeyStep(doc, aliases, n, i);
        ghost var before := made;
        e, taken := CollectKey(n, i, own, taken);
        TakenReported(doc, old(aliases), n, i, e, old(made), before, made);
        if e != NoError {
          TakenFail(doc, old(aliases), n, i + 1, e, old(made), made);
          return;
        }
        i := i + 1;
      }
    }

    /** d.merge for a mapping whose own keys gave m. */
    method Merge(n: Node, mv: Node, text: bool, m: map<Atom, Value>, ghost own: seq<Pending>)
      returns (m': map<Atom, Value>, e: Error)
      requires Valid() && Here(n) && Here(mv) && n.Mapping? && !HasRepeatedKey(n.pairs) && mergedFields == None
      requires text == IsStringMap(doc, n.pairs) && MergeValue(n.pairs, |n.pairs|) == Some(mv)
      requires Own(doc, aliases, n, text, |n.pairs|) == Some(own) && ApplyAll(doc, own) == Some(m)
      modifies this
      ensures e == NoError ==> Valid() && Restored() && mergedFields == None
      ensures e == NoError ==> Spent(KeysCost(n, |n.pairs|) + Cost(mv))
      ensures Tally(e == Excessive) && Reports(e, old(made), made, MergeLog(doc, old(aliases), n))
      ensures e == NoError ==> Denote(doc, old(aliases), n, Any) == Good(Dict(m'))
      ensures e != NoError && e != Excessive ==> Denote(doc, old(aliases), n, Any) == Fail
      ensures e == SelfContaining ==> ContainsItself(doc, root)
      decreases Room(doc, aliases), n, 7
    {
      hide Valid, Here, Denote, Cost, Live, ApplyAll, Own, Taken, KeysCost, MergeValue, Chain, TooMany, HasRepeatedKey;
      hide IsStringMap, Sources, Choose, Room, KeysOf, ContainsItself, Tally, Reports, TakenLog, SourcesLog, MergeLog;
      m' := m;
      ghost var taken;
      e, taken := CollectKeys(n, own);
      if e != NoError {
        MergeStops(doc, old(aliases), n, e, old(made), made);
        return;
      }
      StartMerge(doc, own, taken, m);
      NothingBound(taken);
      ghost var before, r := made, [];
      m', e, r := MergeSources(mv, text, m, own, taken, []);
      MergeEnds(doc, old(aliases), n, mv, taken, e, old(made), before, made);
      if e != NoError && e == Excessive {
        return;
      }
      MergeDenotes(doc, old(aliases), n, own, taken, if e == NoError then m' else m);
      if e != NoError {
        return;
      }
      assert [] + r == r;
      mergedFields := None;
    }

    /** The second half of d.merge: one source, or each of a sequence in turn. */
    method MergeSources(mv: Node, text: bool, m: map<Atom, Value>, ghost own: seq<Pending>, ghost taken: set<Atom>,
      ghost q: seq<Pending>)
      returns (m': map<Atom, Value>, e: Error, ghost r: seq<Pending>)
      requires Valid() && Here(mv) && Merged(doc, mergedFields, own, taken, q, m)
      modifies this
      ensures e == NoError ==> Valid() && Restored() && Spent(Cost(mv))
      ensures e == NoError ==>
                Sources(doc, old(aliases), mv, text) == Some(r) && Merged(doc, mergedFields, own, taken, q + r, m')
      ensures e != NoError && e != Excessive ==> Spoiled(doc, own, taken, q, Sources(doc, old(aliases), mv, text))
      ensures e == SelfContaining ==> ContainsItself(doc, root)
      ensures Tally(e == Excessive)
      ensures Reports(e, old(made), made, SourcesLog(doc, old(aliases), mv, text, taken + KeysOf(q)))
      decreases Room(doc, aliases), mv, 11
    {
      hide Valid, Here, Denote, Cost, Live, ApplyAll, Merged, Spoiled, Source, SourceList, ItemsCost, ContainsItself;
      hide Room, Chain, TooMany, KeysOf, Tally, Reports, SourcesLog, SourceLog, ListLog;
      WithinRatio();
      ghost var fields := taken + KeysOf(q);
      if !mv.Sequence? {
        m', e, r := MergeOne(mv, text, m, own, taken, q);
        OneSource(doc, old(aliases), mv, text, fields);
        return;
      }
      NoListYet(doc, aliases, mv, text, fields, made);
      m', e, r := m, NoError, [];
      SequenceDenotes(doc, aliases, mv);
      NoSourceYet(doc, aliases, mv, text);
      assert q + [] == q;
      var i := 0;
      while i < |mv.items|
        invariant 0 <= i <= |mv.items| && Valid() && Restored() && e == NoError
        invariant SourceList(doc, aliases, mv, text, i) == Some(r) && Merged(doc, mergedFields, own, taken, q + r, m')
        invariant Spent(ItemsCost(mv.items, i)) && Tally(false)
        invariant Reports(NoError, old(made), made, ListLog(doc, old(aliases), mv, text, fields, i))
      {
        HereItem(mv, i);
        ListStep(doc, aliases, mv, text, i);
        FieldsGrow(taken, q, r);
        ghost var before, more := made, [];
        m', e, more := MergeOne(mv.items[i], text, m', own, taken, q + r);
        SourceReported(doc, old(aliases), mv, text, fields, i, r, e, old(made), before, made);
        if e != NoError {
          ListReported(doc, old(aliases), mv, text, fields, i + 1, e, old(made), made);
          if e != Excessive { ListSpoiled(doc, old(aliases), mv, text, i, own, taken, q, r); }
          return;
        }
        assert q + r + more == q + (r + more);
        r := r + more;
        i := i + 1;
      }
      ListReported(doc, old(aliases), mv, text, fields, i, NoError, old(made), made);
    }

    /** One element after a merge key: only a mapping, or an alias of one, will do. */
    method MergeOne(s: Node, text: bool, m: map<Atom, Value>, ghost own: seq<Pending>, ghost taken: set<Atom>,
      ghost q: seq<Pending>)
      returns (m': map<Atom, Value>, e: Error, ghost r: seq<Pending>)
      requires Valid() && Here(s) && Merged(doc, mergedFields, own, taken, q, m)
      modifies this
      ensures e == NoError ==> Valid() && Restored() && Spent(Cost(s))
      ensures e == NoError ==>
                Source(doc, old(aliases), s, text) == Some(r) && Merged(doc, mergedFields, own, taken, q + r, m')
      ensures e != NoError && e != Excessive ==> Spoiled(doc, own, taken, q, Source(doc, old(aliases), s, text))
      ensures e == SelfContaining ==> ContainsItself(doc, root)
      ensures Tally(e == Excessive)
      ensures Reports(e, old(made), made, SourceLog(doc, old(aliases), s, text, taken + KeysOf(q)))
      decreases Room(doc, aliases), s, 10
    {
      hide Valid, Here, Denote, Cost, Live, ApplyAll, Merged, SourceMap, KeysOf;
      hide Tally, Reports, SourceLog, SourceMapLog;
      WithinRatio();
      LeafCost(s);
      m', e, r := m, NoError, [];
      match s {
        case Mapping(_, _, _, _, _) =>
          m', e, r := UnmarshalSource(s, text, m, own, taken, q);
          SourceIsMap(doc, old(aliases), s, text, taken + KeysOf(q));
        case Alias(_, _, _) =>
          m', e, r := AliasSource(s, text, m, own, taken, q);
        case _ =>
          SourceAtOnce(doc, aliases, s, text, taken + KeysOf(q), made);
          e := WantMap;
      }
    }

    /** d.unmarshal and d.alias of a merge source that is an alias. */
    method AliasSource(s: Node, text: bool, m: map<Atom, Value>, ghost own: seq<Pending>, ghost taken: set<Atom>,
      ghost q: seq<Pending>)
      returns (m': map<Atom, Value>, e: Error, ghost r: seq<Pending>)
      requires Valid() && Here(s) && s.Alias? && Merged(doc, mergedFields, own, taken, q, m)
      modifies this
      ensures e == NoError ==> Valid() && Restored() && Spent(1)
      ensures e == NoError ==>
                Source(doc, old(aliases), s, text) == Some(r) && Merged(doc, mergedFields, own, taken, q + r, m')
      ensures e != NoError && e != Excessive ==> Spoiled(doc, own, taken, q, Source(doc, old(aliases), s, text))
      ensures e == SelfContaining ==> ContainsItself(doc, root)
      ensures Tally(e == Excessive)
      ensures Reports(e, old(made), made, SourceLog(doc, old(aliases), s, text, taken + KeysOf(q)))
      decreases Room(doc, aliases), s, 9
    {
      hide Valid, Here, Denote, Cost, Live, ApplyAll, Merged, Source, SourceMap, Spoiled, ContainsItself, Choose;
      hide Room, Chain, TooMany, KeysOf, Tally, Reports, SourceLog, SourceMapLog;
      ghost var known := taken + KeysOf(q);
      AliasesOnPath();
      SourceOfAlias(doc, aliases, s, text);
      SpoiledKey(doc, own, taken, q);
      m', e, r := m, NoError, [];
      if s.id in doc.targets && !doc.targets[s.id].Mapping? {
        WithinRatio();
        SourceAtOnce(doc, aliases, s, text, known, made);
        e := WantMap;
        return;
      }
      SourceAliasCall(doc, aliases, s, text, known, NoError, made, made);
      var ok := Count();
      if !ok {
        e := Excessive;
        return;
      }
      if s.id !in doc.targets {
        e := NoTarget;
        return;
      }
      HereAlias(s);
      if s.id in aliases {
        MeetAgain(s.id);
        e := SelfContaining;
        return;
      }
      RoomShrinks(doc, aliases, s.id);
      Push(s.id);
      m', e, r := UnmarshalSource(doc.targets[s.id], text, m, own, taken, q);
      SourceAliasCall(doc, old(aliases), s, text, known, e, old(made), made);
      if e == NoError {
        Pop(s.id, old(aliases), old(path));
      }
    }

    /** d.unmarshal of a merge source that is a mapping, into the map being filled. */
    method UnmarshalSource(s: Node, text: bool, m: map<Atom, Value>, ghost own: seq<Pending>, ghost taken: set<Atom>,
      ghost q: seq<Pending>)
      returns (m': map<Atom, Value>, e: Error, ghost r: seq<Pending>)
      requires Valid() && Here(s) && s.Mapping? && Merged(doc, mergedFields, own, taken, q, m)
      modifies this
      ensures e == NoError ==> Valid() && Restored() && Spent(Cost(s))
      ensures e == NoError ==>
                SourceMap(doc, old(aliases), s, text) == Some(r) && Merged(doc, mergedFields, own, taken, q + r, m')
      ensures e != NoError && e != Excessive ==> Spoiled(doc, own, taken, q, SourceMap(doc, old(aliases), s, text))
      ensures e == SelfContaining ==> ContainsItself(doc, root)
      ensures Tally(e == Excessive)
      ensures Reports(e, old(made), made, SourceMapLog(doc, old(aliases), s, text, taken + KeysOf(q)))
      decreases Room(doc, aliases), s, 9
    {
      hide Denote, Cost, Live, ApplyAll, Here, Own, Chain, TooMany, Room, Choose, Valid;
      hide Tally, Reports, SourceMapLog, IntoLog;
      SourceMapCall(doc, aliases, s, text, taken + KeysOf(q), NoError, made, made);
      m', e, r := m, NoError, [];
      var ok := Count();
      if !ok {
        e := Excessive;
        return;
      }
      if HasRepeatedKey(s.pairs) {
        assert q + [] == q;
        return;
      }
      m', e, r := MergeInto(s, text, m, own, taken, q);
      SourceMapCall(doc, old(aliases), s, text, taken + KeysOf(q), e, old(made), made);
    }

    /** One pair of a merge source: a key already taken is passed over with its value. */
    method SourcePair(s: Node, text: bool, i: nat, m: map<Atom, Value>, fields: set<Atom>, ghost own: seq<Pending>,
      ghost taken: set<Atom>, ghost q: seq<Pending>, ghost ps: seq<Pending>)
      returns (m': map<Atom, Value>, fields': set<Atom>, e: Error, ghost ps': seq<Pending>)
      requires Valid() && Here(s) && s.Mapping? && !HasRepeatedKey(s.pairs) && mergedFields == None
      requires i < |s.pairs| && !IsMerge(s.pairs[i].key)
      requires Own(doc, aliases, s, text, i) == Some(ps) && Merged(doc, Some(fields), own, taken, q + ps, m)
      modifies this
      ensures e == NoError ==>
                Valid() && Restored() && mergedFields == None && Spent(Cost(s.pairs[i].key) + Cost(s.pairs[i].value))
      ensures e == NoError ==>
                Own(doc, old(aliases), s, text, i + 1) == Some(ps')
                  && Merged(doc, Some(fields'), own, taken, q + ps', m')
      ensures e != NoError && e != Excessive ==> Spoiled(doc, own, taken, q, Own(doc, old(aliases), s, text, i + 1))
      ensures e == SelfContaining ==> ContainsItself(doc, root)
      ensures Tally(e == Excessive)
      ensures Reports(e, old(made), made, SourcePairLog(doc, old(aliases), s, text, taken + KeysOf(q), i))
      decreases Room(doc, aliases), s, 7
    {
      hide Valid, Here, Denote, Cost, Live, ApplyAll, Own, HasRepeatedKey, IsStringMap, ContainsItself, Merged;
      hide Spoiled, IsMerge, Choose, KeysOf, Tally, Reports, LogOf, KeyLog, SourcePairLog;
      FieldsAre(doc, fields, own, taken, q, ps, m);
      m', fields', ps' := m, fields, ps;
      OwnStep(doc, aliases, s, text, i);
      SpoiledKey(doc, own, taken, q);
      var k;
      k, e := OwnKey(s, text, i);
      SourcePairPassed(doc, old(aliases), s, text, taken + KeysOf(q), i, ps, e, old(made), made);
      if e != NoError || k.None? {
        return;
      }
      ghost var p := Pending(k.value, old(aliases), s.pairs[i].value);
      ps' := ps + [p];
      assert q + ps' == (q + ps) + [p];
      MergedMore(doc, fields, own, taken, q + ps, p, m);
      if k.value in fields {
        return;
      }
      fields' := fields + {k.value};
      ghost var before := made;
      var v;
      v, e := Unmarshal(s.pairs[i].value, Any);
      SourceValueReported(
        doc, old(aliases), s, text, taken + KeysOf(q), i, ps, k.value, e, old(made), before, made);
      if e == NoError {
        m' := Bind(m, k.value, v, NullTagged(doc, s.pairs[i].value)).value;
      }
      if e != NoError && e != Excessive {
        SpoiledValue(doc, own, taken, q, ps');
      }
    }

    /** The value of a key that decodes lies in what is being decoded, whatever kind of map is filled. */
    lemma GoodKey(s: Node, text: bool, i: nat, p: set<nat>)
      requires Valid() && Here(s) && s.Mapping? && !HasRepeatedKey(s.pairs) && i < |s.pairs|
      requires Denote(doc, p, s.pairs[i].key, KeyTarget(text)).Good?
      ensures Here(s.pairs[i].value)
    {
      GoodAnywhere(doc, p, s.pairs, i, KeyTarget(text));
      LivePair(doc, s, IsStringMap(doc, s.pairs), |s.pairs|, i);
    }

    /** d.mapping into the map being filled: own keys that are not taken, then its own merge. */
    method MergeInto(s: Node, text: bool, m: map<Atom, Value>, ghost own: seq<Pending>, ghost taken: set<Atom>,
      ghost q: seq<Pending>)
      returns (m': map<Atom, Value>, e: Error, ghost r: seq<Pending>)
      requires Valid() && Here(s) && s.Mapping? && !HasRepeatedKey(s.pairs)
                 && Merged(doc, mergedFields, own, taken, q, m)
      modifies this
      ensures e == NoError ==> Valid() && Restored() && Spent(Cost(s) - 1)
      ensures e == NoError ==>
                SourceMap(doc, old(aliases), s, text) == Some(r) && Merged(doc, mergedFields, own, taken, q + r, m')
      ensures e != NoError && e != Excessive ==> Spoiled(doc, own, taken, q, SourceMap(doc, old(aliases), s, text))
      ensures e == SelfContaining ==> ContainsItself(doc, root)
      ensures Tally(e == Excessive)
      ensures Reports(e, old(made), made, IntoLog(doc, old(aliases), s, text, taken + KeysOf(q)))
      decreases Room(doc, aliases), s, 8
    {
      hide Valid, Here, Denote, Cost, Live, ApplyAll, Own, MergeValue, PairsCost, HasRepeatedKey, IsStringMap;
      hide ContainsItself, Merged, Spoiled, Sources, IsMerge, Room, Chain, TooMany, KeysOf;
      hide Tally, Reports, SourcePairLog, SourcePairsLog, SourcesLog, IntoLog;
      ghost var known := taken + KeysOf(q);
      NoSourcePairYet(doc, aliases, s, text, known, made);
      m', e := m, NoError;
      r := [];
      ghost var p, ps: seq<Pending> := aliases, [];
      SourceStart(doc, aliases, s, text, mergedFields, own, taken, q, m);
      var fields := mergedFields.value;
      mergedFields := None;
      var mergeNode: Option<Node>, i := None, 0;
      while i < |s.pairs|
        invariant 0 <= i <= |s.pairs| && Valid() && Restored() && mergedFields == None && e == NoError
        invariant Own(doc, p, s, text, i) == Some(ps) && Merged(doc, Some(fields), own, taken, q + ps, m')
        invariant mergeNode == MergeValue(s.pairs, i)
        invariant Spent(PairsCost(s, i) - MergeCost(mergeNode))
        invariant Reports(NoError, old(made), made, SourcePairsLog(doc, p, s, text, known, i))
      {
        PairCost(s, i);
        PairStep(doc, p, s, text, i);
        if IsMerge(s.pairs[i].key) {
          mergeNode := Some(s.pairs[i].value);
          SourceMergeKeyReported(doc, p, s, text, known, i, old(made), made);
        } else {
          ghost var before := made;
          m', fields, e, ps := SourcePair(s, text, i, m', fields, own, taken, q, ps);
          SourcePairReported(doc, p, s, text, known, i, e, old(made), before, made);
          if e != NoError {
            SourcePairsFail(doc, p, s, text, known, i + 1, e, old(made), made);
            if e != Excessive { SourceSpoiled(doc, p, s, text, i + 1, own, taken, q); }
            return;
          }
        }
        i := i + 1;
      }
      mergedFields := Some(fields);
      MappingCost(s);
      SourceEnd(doc, p, s, text, own, taken, q, ps);
      if mergeNode.None? {
        r := ps;
        WithinRatio();
        SourceEnds(doc, p, s, text, known, old(made), made);
        return;
      }
      HereMerge(s);
      FieldsGrow(taken, q, ps);
      ghost var before, more := made, [];
      m', e, more := MergeSources(mergeNode.value, text, m', own, taken, q + ps);
      SourceMerges(doc, p, s, text, known, mergeNode.value, ps, e, old(made), before, made);
      r := ps + more;
      assert q + ps + more == q + r;
    }

    lemma AliasesOnPath()
      requires Valid()
      ensures forall a :: a in aliases <==> a in path
    {}

    lemma HereAlias(n: Node)
      requires Valid() && Here(n) && n.Alias?
      ensures Here(Node.Alias(n.id, "", 0))
    {}

    lemma MeetAgain(id: nat)
      requires Valid() && id in aliases
      requires Here(Node.Alias(id, "", 0))
      ensures ContainsItself(doc, root)
    {
      var c := path + [id];
      assert Chain(doc, root, c);
      var i :| 0 <= i < |path| && path[i] == id;
      assert c[i] == c[|path|];
      assert Repeats(c);
    }

    method Push(id: nat)
      requires Valid() && id in doc.targets && id !in aliases && Here(Node.Alias(id, "", 0))
      modifies this`aliases, this`aliasDepth, this`path
      ensures Valid() && aliases == old(aliases) + {id} && path == old(path) + [id] && aliasDepth == old(aliasDepth) + 1
      ensures Here(doc.targets[id])
    {
      aliases := aliases + {id};
      aliasDepth := aliasDepth + 1;
      path := path + [id];
      ChainMore(doc, root, old(path), id);
    }

    method Pop(id: nat, ghost before: set<nat>, ghost way: seq<nat>)
      requires Valid() && aliases == before + {id} && id !in before && path == way + [id]
      requires forall a :: a in before <==> a in way
      modifies this`aliases, this`aliasDepth, this`path
      ensures Valid() && aliases == before && path == way && aliasDepth == old(aliasDepth) - 1
    {
      aliasDepth := aliasDepth - 1;
      aliases := aliases - {id};
      path := path[..|path| - 1];
      assert before + {id} - {id} == before;
      if way != [] {
        ChainLess(doc, root, way, id);
      }
    }
  }

  /** The calls that decoding the root takes, one more if it is the content of a document node. */
  ghost function CallsOf(doc: Doc, root: Node, document: bool): seq<bool> {
    (if document then [false] else []) + LogOf(doc, {}, root, Any).calls
  }

  /** What the ratio test has decided when the root is done. */
  lemma RunEnds(doc: Doc, root: Node, document: bool, e: Error, made: seq<bool>, a: nat, n: nat)
    requires Tallied(made, a, n, e == Excessive)
    requires Reports(e, if document then [false] else [], made, LogOf(doc, {}, root, Any))
    ensures e == Excessive <==> Excess(CallsOf(doc, root, document))
    ensures e != Excessive ==> e == FirstError(doc, {}, root, Any) && made == CallsOf(doc, root, document)
    ensures e == Excessive ==> n > 1000 && a > 100 && 10 * a > n
  {
    hide LogOf, Aliased, TooMany, Excess;
    TalliedDecides(made, a, n, e == Excessive, CallsOf(doc, root, document));
    if e == Excessive {
      TooManyMeans(a, n);
    }
  }

  lemma CallsAreNodes(doc: Doc, root: Node, document: bool)
    requires Typed(doc) && TidyDoc(doc, root) && StraightDoc(doc) && Straight(root)
    ensures var made, nodes := |CallsOf(doc, root, document)|, Expanded(doc, {}, root) + if document then 1 else 0;
            made <= nodes && (FirstError(doc, {}, root, Any) == NoError ==> made == nodes)
  {
    CallsAreExpanded(doc, {}, root, Any);
    hide LogOf, Expanded;
  }

  /** What follows for tidy roots from the way any root ends. */
  lemma TidyEnds(doc: Doc, root: Node, document: bool, e: Error)
    requires Typed(doc) && (e == SelfContaining ==> ContainsItself(doc, root))
    requires e == Excessive <==> Excess(CallsOf(doc, root, document))
    requires e != Excessive ==> e == FirstError(doc, {}, root, Any)
    ensures |CallsOf(doc, root, document)| <= 1000 || Aliased(CallsOf(doc, root, document)) <= 100 ==> e != Excessive
    ensures TidyDoc(doc, root) && e != Excessive ==> e == NoError || e == SelfContaining
    ensures TidyDoc(doc, root) && !ContainsItself(doc, root) && |CallsOf(doc, root, document)| <= 1000 ==>
              e == NoError
    ensures TidyDoc(doc, root) && StraightDoc(doc) && Straight(root) && !ContainsItself(doc, root) ==>
              var nodes := Expanded(doc, {}, root) + if document then 1 else 0;
              (e == NoError ==> |CallsOf(doc, root, document)| == nodes) && (nodes <= 1000 ==> e == NoError)
  {
    hide ContainsItself, FirstError, TidyDoc, CallsOf, Excess, Aliased, StraightDoc, Straight, Expanded, Typed;
    if |CallsOf(doc, root, document)| <= 1000 || Aliased(CallsOf(doc, root, document)) <= 100 {
      ShortRunsPass(CallsOf(doc, root, document));
    }
    if TidyDoc(doc, root) {
      TidyRoot(doc, root);
      if StraightDoc(doc) && Straight(root) {
        CallsAreNodes(doc, root, document);
      }
    }
  }

  /** What follows from success. */
  lemma SuccessEnds(doc: Doc, root: Node, document: bool, a: nat, n: nat)
    requires !TooMany(a, n) && n - a <= Cost(root) + if document then 1 else 0
    requires Denote(doc, {}, root, Any) != Fail
    ensures n <= 1000 || n <= 100 * (Cost(root) + if document then 1 else 0)
    ensures MergeFree(root) ==> n <= 1000 || n <= 100 * (Size(root) + if document then 1 else 0)
    ensures TargetsAreNodes(doc) && NoMerges(doc, root) ==> !ContainsItself(doc, root)
  {
    hide Denote, Cost, Size, MergeFree, Live, ContainsItself, TooMany, TargetsAreNodes, MergeFreeDoc;
    LeafCost(root);
    WorkBound(a, n, Cost(root) + if document then 1 else 0);
    if MergeFree(root) {
      CostIsSize(root);
      if TargetsAreNodes(doc) && MergeFreeDoc(doc) {
        SuccessMeansAcyclic(doc, root);
      }
    }
  }

  /**
   Decoding a root into an interface, by itself or as the content of a document node.  `calls` and
   `aliasCalls` are the numbers of unmarshal calls and of those inside aliases.
   Success gives the reference meaning, within the work bound, and proves that no alias
   contains itself; a "contains itself" report is always true.  The ratio test stops exactly the
   roots whose calls are in excess.  All others end with their first error, and where nothing but a
   cycle can fail it is reported exactly if there is one.
   */
  method Decode(doc: Doc, root: Node, document: bool)
    returns (o: Outcome, e: Error, calls: nat, aliasCalls: nat)
    requires Typed(doc)
    ensures e == NoError ==> o == Denote(doc, {}, root, Any) && o != Fail
    ensures e != NoError && e != Excessive ==> Denote(doc, {}, root, Any) == Fail
    ensures e == NoError ==> calls <= 1000 || calls <= 100 * (Cost(root) + if document then 1 else 0)
    ensures e == NoError && MergeFree(root) ==>
              calls <= 1000 || calls <= 100 * (Size(root) + if document then 1 else 0)
    ensures e == SelfContaining ==> ContainsItself(doc, root)
    ensures e == NoError && TargetsAreNodes(doc) && NoMerges(doc, root) ==> !ContainsItself(doc, root)
    ensures e == Excessive <==> Excess(CallsOf(doc, root, document))
    ensures e == Excessive ==> calls > 1000 && aliasCalls > 100 && 10 * aliasCalls > calls
    ensures e != Excessive ==>
              var made := CallsOf(doc, root, document); calls == |made| && aliasCalls == Aliased(made)
    ensures |CallsOf(doc, root, document)| <= 1000 || Aliased(CallsOf(doc, root, document)) <= 100 ==> e != Excessive
    ensures e != Excessive ==> e == FirstError(doc, {}, root, Any)
    ensures TidyDoc(doc, root) && e != Excessive ==> e == NoError || e == SelfContaining
    ensures TidyDoc(doc, root) && !ContainsItself(doc, root) && |CallsOf(doc, root, document)| <= 1000 ==>
              e == NoError
    ensures TidyDoc(doc, root) && StraightDoc(doc) && Straight(root) && !ContainsItself(doc, root) ==>
              var nodes := Expanded(doc, {}, root) + if document then 1 else 0;
              (e == NoError ==> calls == nodes) && (nodes <= 1000 ==> e == NoError)
    ensures TargetsAreNodes(doc) && NoMerges(doc, root) && TidyDoc(doc, root) && e != Excessive ==>
              (e == SelfContaining <==> ContainsItself(doc, root))
  {
    hide Denote, Cost, Size, MergeFree, Live, ContainsItself, FirstError, TidyDoc, Tidy, Typed, TargetsAreNodes;
    hide LogOf, CallsOf, Excess, Aliased, TooMany, Reports, StraightDoc, Straight, Expanded, NoMerges;
    var d := new Decoding(doc, root);
    if document {
      d.CountDocument();
    }
    o, e := d.Unmarshal(root, Any);
    calls, aliasCalls := d.decodeCount, d.aliasCount;
    RunEnds(doc, root, document, e, d.made, aliasCalls, calls);
    TidyEnds(doc, root, document, e);
    if e == NoError {
      SuccessEnds(doc, root, document, aliasCalls, calls);
    }
  }
}
