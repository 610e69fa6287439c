/**
 What a decode does, in the order in which nodes are visited: the calls of unmarshal it makes, and
 the first error.  Keys come before their values, aliases are expanded in place.  A merge comes
 after the pairs of its mapping: first all keys of the mapping once more, then its sources in order,
 without the values of keys that are already taken.
 */
module YamlErrors {
  import opened Wrappers
  import opened YamlTree
  import opened YamlMeaning
  import opened YamlGraph

  datatype Error = NoError | SelfContaining | Excessive | BadScalar | BadKey | WantMap | NoTarget

  /** The error a visit stops with, and its calls of unmarshal: for each, whether it is made inside an alias. */
  datatype Log = Log(e: Error, calls: seq<bool>)

  const QUIET := Log(NoError, [])

  function Failed(e: Error): Log {
    Log(e, [])
  }

  /** One call, inside the aliases p. */
  function Called(p: set<nat>): Log {
    Log(NoError, [p != {}])
  }

  /** The first visit, then the second unless the first fails. */
  function Then(a: Log, b: Log): Log {
    if a.e != NoError then a else Log(b.e, a.calls + b.calls)
  }

  ghost function LogOf(d: Doc, p: set<nat>, n: Node, t: Target): Log
    decreases Room(d, p), n, 7, 0
  {
    Then(Called(p), Visit(d, p, n, t))
  }

  ghost function FirstError(d: Doc, p: set<nat>, n: Node, t: Target): Error {
    LogOf(d, p, n, t).e
  }

  /** A node, once its own call is counted. */
  ghost function Visit(d: Doc, p: set<nat>, n: Node, t: Target): Log
    decreases Room(d, p), n, 6, 0
  {
    match n
    case Alias(id, _, _) =>
      if id !in d.targets then Failed(NoTarget)
      else if id in p then Failed(SelfContaining)
      else
        RoomShrinks(d, p, id);
        LogOf(d, p + {id}, d.targets[id], t)
    case Scalar(_, _, _, _, _) => if d.resolve(n).None? then Failed(BadScalar) else QUIET
    case Sequence(_, _, _, _, items) => if t == Text then QUIET else ItemsLog(d, p, n, |items|)
    case Mapping(_, _, _, _, pairs) => if t == Text || HasRepeatedKey(pairs) then QUIET else MappingLog(d, p, n)
  }

  /** The first k items. */
  ghost function ItemsLog(d: Doc, p: set<nat>, n: Node, k: nat): Log
    requires n.Sequence? && k <= |n.items|
    decreases Room(d, p), n, 2, k
  {
    if k == 0 then QUIET else Then(ItemsLog(d, p, n, k - 1), LogOf(d, p, n.items[k - 1], Any))
  }

  /** The keys of the mapping itself. */
  ghost function TakenKeys(d: Doc, p: set<nat>, n: Node): set<Atom>
    requires n.Mapping?
  {
    if Taken(d, p, n, |n.pairs|).Some? then Taken(d, p, n, |n.pairs|).value else {}
  }

  ghost function MappingLog(d: Doc, p: set<nat>, n: Node): Log
    requires n.Mapping?
    decreases Room(d, p), n, 3, 1
  {
    Then(PairsLog(d, p, n, IsStringMap(d, n.pairs), |n.pairs|), MergeLog(d, p, n))
  }

  /** The merge of a mapping decoded afresh: all its keys again, then the sources. */
  ghost function MergeLog(d: Doc, p: set<nat>, n: Node): Log
    requires n.Mapping?
    decreases Room(d, p), n, 3, 0
  {
    match MergeValue(n.pairs, |n.pairs|)
    case None => QUIET
    case Some(mv) =>
      Then(TakenLog(d, p, n, |n.pairs|), SourcesLog(d, p, mv, IsStringMap(d, n.pairs), TakenKeys(d, p, n)))
  }

  /** The key of a pair: one that decodes to a collection is refused. */
  ghost function KeyLog(d: Doc, p: set<nat>, n: Node, text: bool, i: nat): Log
    requires n.Mapping? && i < |n.pairs|
    decreases Room(d, p), n, 0, 0
  {
    Then(LogOf(d, p, n.pairs[i].key, KeyTarget(text)),
         if KeyAtom(Denote(d, p, n.pairs[i].key, KeyTarget(text))) == None then Failed(BadKey) else QUIET)
  }

  /** The key first, then its value unless the pair is passed over. */
  ghost function PairLog(d: Doc, p: set<nat>, n: Node, text: bool, i: nat): Log
    requires n.Mapping? && i < |n.pairs|
    decreases Room(d, p), n, 1, 0
  {
    Then(KeyLog(d, p, n, text, i),
         if KeyAtom(Denote(d, p, n.pairs[i].key, KeyTarget(text))) == Some(None) then QUIET
         else LogOf(d, p, n.pairs[i].value, Any))
  }

  /** The first k pairs, merge keys left aside. */
  ghost function PairsLog(d: Doc, p: set<nat>, n: Node, text: bool, k: nat): Log
    requires n.Mapping? && k <= |n.pairs|
    decreases Room(d, p), n, 2, k
  {
    if k == 0 then QUIET
    else if IsMerge(n.pairs[k - 1].key) then PairsLog(d, p, n, text, k - 1)
    else Then(PairsLog(d, p, n, text, k - 1), PairLog(d, p, n, text, k - 1))
  }

  /** The first k keys, merge keys included, when they are collected. */
  ghost function TakenLog(d: Doc, p: set<nat>, n: Node, k: nat): Log
    requires n.Mapping? && k <= |n.pairs|
    decreases Room(d, p), n, 2, k
  {
    if k == 0 then QUIET else Then(TakenLog(d, p, n, k - 1), KeyLog(d, p, n, false, k - 1))
  }

  /** The keys taken once these bindings are made. */
  function FieldsAfter(fields: set<Atom>, bound: Option<seq<Pending>>): set<Atom> {
    match bound
    case None => fields
    case Some(ps) => fields + KeysOf(ps)
  }

  /** A pair that a merge source does not bind: its key is passed over or taken. */
  ghost predicate Passed(d: Doc, p: set<nat>, s: Node, text: bool, fields: set<Atom>, i: nat)
    requires s.Mapping? && i < |s.pairs|
  {
    match KeyAtom(Denote(d, p, s.pairs[i].key, KeyTarget(text)))
    case Some(Some(a)) => a in FieldsAfter(fields, Own(d, p, s, text, i))
    case _ => true
  }

  /** A key of a merge source; its value only if the key is not taken. */
  ghost function SourcePairLog(d: Doc, p: set<nat>, s: Node, text: bool, fields: set<Atom>, i: nat): Log
    requires s.Mapping? && i < |s.pairs|
    decreases Room(d, p), s, 1, 0
  {
    Then(KeyLog(d, p, s, text, i),
         if Passed(d, p, s, text, fields, i) then QUIET else LogOf(d, p, s.pairs[i].value, Any))
  }

  ghost function SourcePairsLog(d: Doc, p: set<nat>, s: Node, text: bool, fields: set<Atom>, k: nat): Log
    requires s.Mapping? && k <= |s.pairs|
    decreases Room(d, p), s, 2, k
  {
    if k == 0 then QUIET
    else if IsMerge(s.pairs[k - 1].key) then SourcePairsLog(d, p, s, text, fields, k - 1)
    else Then(SourcePairsLog(d, p, s, text, fields, k - 1), SourcePairLog(d, p, s, text, fields, k - 1))
  }

  /** The pairs of a merge source that is a mapping, then its own merge. */
  ghost function IntoLog(d: Doc, p: set<nat>, s: Node, text: bool, fields: set<Atom>): Log
    requires s.Mapping?
    decreases Room(d, p), s, 3, 1
  {
    Then(SourcePairsLog(d, p, s, text, fields, |s.pairs|), SourceMergeLog(d, p, s, text, fields))
  }

  ghost function SourceMergeLog(d: Doc, p: set<nat>, s: Node, text: bool, fields: set<Atom>): Log
    requires s.Mapping?
    decreases Room(d, p), s, 3, 0
  {
    match MergeValue(s.pairs, |s.pairs|)
    case None => QUIET
    case Some(mv) => SourcesLog(d, p, mv, text, FieldsAfter(fields, Own(d, p, s, text, |s.pairs|)))
  }

  /** A merge source that is a mapping, its own call included. */
  ghost function SourceMapLog(d: Doc, p: set<nat>, s: Node, text: bool, fields: set<Atom>): Log
    requires s.Mapping?
    decreases Room(d, p), s, 4, 0
  {
    Then(Called(p), if HasRepeatedKey(s.pairs) then QUIET else IntoLog(d, p, s, text, fields))
  }

  /** Only a mapping, or an alias of one, will do. */
  ghost function SourceLog(d: Doc, p: set<nat>, s: Node, text: bool, fields: set<Atom>): Log
    decreases Room(d, p), s, 5, 0
  {
    match s
    case Mapping(_, _, _, _, _) => SourceMapLog(d, p, s, text, fields)
    case Alias(id, _, _) =>
      if id in d.targets && !d.targets[id].Mapping? then Failed(WantMap)
      else Then(Called(p),
                if id !in d.targets then Failed(NoTarget)
                else if id in p then Failed(SelfContaining)
                else
                  RoomShrinks(d, p, id);
                  SourceMapLog(d, p + {id}, d.targets[id], text, fields))
    case _ => Failed(WantMap)
  }

  ghost function ListLog(d: Doc, p: set<nat>, m: Node, text: bool, fields: set<Atom>, k: nat): Log
    requires m.Sequence? && k <= |m.items|
    decreases Room(d, p), m, 2, k
  {
    if k == 0 then QUIET
    else Then(ListLog(d, p, m, text, fields, k - 1),
              SourceLog(d, p, m.items[k - 1], text, FieldsAfter(fields, SourceList(d, p, m, text, k - 1))))
  }

  /** What stands after a merge key: one source, or each of a sequence in turn. */
  ghost function SourcesLog(d: Doc, p: set<nat>, m: Node, text: bool, fields: set<Atom>): Log
    decreases Room(d, p), m, 6, 0
  {
    if m.Sequence? then ListLog(d, p, m, text, fields, |m.items|) else SourceLog(d, p, m, text, fields)
  }

  lemma MappingFirst(d: Doc, p: set<nat>, n: Node)
    requires n.Mapping? && !HasRepeatedKey(n.pairs)
    ensures Visit(d, p, n, Any) == MappingLog(d, p, n)
  {
    hide HasRepeatedKey, MappingLog;
  }

  // ----- Documents in which only a cycle can fail --------------------------------------------------

  /** A scalar, or an alias of one. */
  predicate ScalarKey(d: Doc, k: Node) {
    k.Scalar? || (k.Alias? && k.id in d.targets && d.targets[k.id].Scalar?)
  }

  /** A mapping, or an alias of one. */
  predicate MapSource(d: Doc, m: Node) {
    m.Mapping? || (m.Alias? && m.id in d.targets && d.targets[m.id].Mapping?)
  }

  predicate MapSources(d: Doc, m: Node) {
    MapSource(d, m) || (m.Sequence? && forall i :: 0 <= i < |m.items| ==> MapSource(d, m.items[i]))
  }

  predicate TidyPair(d: Doc, key: Node, value: Node) {
    ScalarKey(d, key) && (IsMerge(key) ==> MapSources(d, value))
  }

  /** Every scalar resolves, every alias stands for something, every key is a scalar, every merge takes mappings. */
  predicate Tidy(d: Doc, n: Node) {
    match n
    case Alias(id, _, _) => id in d.targets
    case Scalar(_, _, _, _, _) => d.resolve(n).Some?
    case Sequence(_, _, _, _, items) => forall i :: 0 <= i < |items| ==> Tidy(d, items[i])
    case Mapping(_, _, _, _, pairs) =>
      forall i :: 0 <= i < |pairs| ==>
        TidyPair(d, pairs[i].key, pairs[i].value) && Tidy(d, pairs[i].key) && Tidy(d, pairs[i].value)
  }

  ghost predicate TidyTargets(d: Doc) {
    forall id :: id in d.targets ==> Tidy(d, d.targets[id])
  }

  ghost predicate TidyDoc(d: Doc, root: Node) {
    Tidy(d, root) && TidyTargets(d)
  }

  predicate OnlyCycle(e: Error) {
    e == NoError || e == SelfContaining
  }

  lemma {:induction false} TidyFails(d: Doc, p: set<nat>, n: Node, t: Target)
    requires TidyTargets(d) && Tidy(d, n)
    ensures OnlyCycle(FirstError(d, p, n, t))
    decreases Room(d, p), n, 7, 0
  {
    assert FirstError(d, p, n, t) == Visit(d, p, n, t).e;
    match n {
      case Alias(id, _, _) =>
        if id !in p {
          RoomShrinks(d, p, id);
          TidyFails(d, p + {id}, d.targets[id], t);
        }
      case Scalar(_, _, _, _, _) =>
      case Sequence(_, _, _, _, items) => TidyItems(d, p, n, |items|);
      case Mapping(_, _, _, _, pairs) =>
        if !HasRepeatedKey(pairs) {
          MappingFirst(d, p, n);
          TidyMapping(d, p, n);
        }
    }
  }

  lemma {:induction false} TidyItems(d: Doc, p: set<nat>, n: Node, k: nat)
    requires TidyTargets(d) && n.Sequence? && Tidy(d, n) && k <= |n.items|
    ensures OnlyCycle(ItemsLog(d, p, n, k).e)
    decreases Room(d, p), n, 2, k
  {
    if k > 0 {
      TidyItems(d, p, n, k - 1);
      TidyFails(d, p, n.items[k - 1], Any);
    }
  }

  /** Where the last merge key stands. */
  lemma {:induction false} MergePlace(pairs: seq<Pair>, k: nat) returns (i: nat)
    requires k <= |pairs| && MergeValue(pairs, k).Some?
    ensures i < k && IsMerge(pairs[i].key) && MergeValue(pairs, k) == Some(pairs[i].value)
  {
    i := k - 1;
    if !IsMerge(pairs[i].key) {
      i := MergePlace(pairs, k - 1);
    }
  }

  lemma TidyParts(d: Doc, n: Node, i: nat)
    requires n.Mapping? && Tidy(d, n) && i < |n.pairs|
    ensures ScalarKey(d, n.pairs[i].key) && Tidy(d, n.pairs[i].key) && Tidy(d, n.pairs[i].value)
    ensures IsMerge(n.pairs[i].key) ==> MapSources(d, n.pairs[i].value)
  {}

  lemma {:induction false} TidyMapping(d: Doc, p: set<nat>, n: Node)
    requires TidyTargets(d) && n.Mapping? && Tidy(d, n)
    ensures OnlyCycle(MappingLog(d, p, n).e)
    decreases Room(d, p), n, 3, 0
  {
    var text, all := IsStringMap(d, n.pairs), |n.pairs|;
    TidyPairs(d, p, n, text, all);
    TidyTaken(d, p, n, all);
    hide IsStringMap, MergeValue, LogOf, Tidy;
    if HasMerge(n.pairs) {
      var i := MergePlace(n.pairs, all);
      TidyParts(d, n, i);
      TidySources(d, p, n.pairs[i].value, text, TakenKeys(d, p, n));
    }
  }

  lemma ScalarDecodes(d: Doc, p: set<nat>, n: Node, t: Target)
    requires n.Scalar?
    ensures FirstError(d, p, n, t) == NoError ==> KeyAtom(Denote(d, p, n, t)).Some?
  {
    assert FirstError(d, p, n, t) == Visit(d, p, n, t).e;
  }

  lemma AliasError(d: Doc, p: set<nat>, n: Node, t: Target)
    requires n.Alias? && n.id in d.targets
    ensures n.id in p ==> FirstError(d, p, n, t) == SelfContaining
    ensures n.id !in p ==> FirstError(d, p, n, t) == FirstError(d, p + {n.id}, d.targets[n.id], t)
    ensures n.id !in p ==> Denote(d, p, n, t) == Denote(d, p + {n.id}, d.targets[n.id], t)
  {
    assert FirstError(d, p, n, t) == Visit(d, p, n, t).e;
  }

  lemma ScalarKeyDecodes(d: Doc, p: set<nat>, k: Node, t: Target)
    requires ScalarKey(d, k)
    ensures FirstError(d, p, k, t) == NoError ==> KeyAtom(Denote(d, p, k, t)).Some?
  {
    if k.Scalar? {
      ScalarDecodes(d, p, k, t);
    } else {
      AliasError(d, p, k, t);
      if k.id !in p {
        ScalarDecodes(d, p + {k.id}, d.targets[k.id], t);
      }
    }
    hide LogOf, Denote, FirstError;
  }

  lemma {:induction false} TidyKey(d: Doc, p: set<nat>, n: Node, text: bool, i: nat)
    requires TidyTargets(d) && n.Mapping? && Tidy(d, n) && i < |n.pairs|
    ensures OnlyCycle(KeyLog(d, p, n, text, i).e)
    decreases Room(d, p), n, 0, 0
  {
    TidyParts(d, n, i);
    TidyFails(d, p, n.pairs[i].key, KeyTarget(text));
    ScalarKeyDecodes(d, p, n.pairs[i].key, KeyTarget(text));
    hide LogOf, Denote, Tidy;
  }

  lemma {:induction false} TidyPairs(d: Doc, p: set<nat>, n: Node, text: bool, k: nat)
    requires TidyTargets(d) && n.Mapping? && Tidy(d, n) && k <= |n.pairs|
    ensures OnlyCycle(PairsLog(d, p, n, text, k).e)
    decreases Room(d, p), n, 2, k
  {
    if k > 0 {
      TidyPairs(d, p, n, text, k - 1);
      TidyKey(d, p, n, text, k - 1);
      TidyParts(d, n, k - 1);
      TidyFails(d, p, n.pairs[k - 1].value, Any);
      hide LogOf, Denote, KeyLog;
      assert OnlyCycle(PairLog(d, p, n, text, k - 1).e);
    }
  }

  lemma {:induction false} TidyTaken(d: Doc, p: set<nat>, n: Node, k: nat)
    requires TidyTargets(d) && n.Mapping? && Tidy(d, n) && k <= |n.pairs|
    ensures OnlyCycle(TakenLog(d, p, n, k).e)
    decreases Room(d, p), n, 2, k
  {
    if k > 0 {
      TidyTaken(d, p, n, k - 1);
      TidyKey(d, p, n, false, k - 1);
      hide KeyLog;
    }
  }

  lemma {:induction false} TidySources(d: Doc, p: set<nat>, m: Node, text: bool, fields: set<Atom>)
    requires TidyTargets(d) && Tidy(d, m) && MapSources(d, m)
    ensures OnlyCycle(SourcesLog(d, p, m, text, fields).e)
    decreases Room(d, p), m, 6, 0
  {
    if m.Sequence? {
      TidyList(d, p, m, text, fields, |m.items|);
    } else {
      TidySource(d, p, m, text, fields);
    }
  }

  lemma {:induction false} TidyList(d: Doc, p: set<nat>, m: Node, text: bool, fields: set<Atom>, k: nat)
    requires TidyTargets(d) && m.Sequence? && Tidy(d, m) && MapSources(d, m) && k <= |m.items|
    ensures OnlyCycle(ListLog(d, p, m, text, fields, k).e)
    decreases Room(d, p), m, 2, k
  {
    if k > 0 {
      TidyList(d, p, m, text, fields, k - 1);
      TidySource(d, p, m.items[k - 1], text, FieldsAfter(fields, SourceList(d, p, m, text, k - 1)));
      hide SourceLog, SourceList;
    }
  }

  lemma {:induction false} TidySource(d: Doc, p: set<nat>, s: Node, text: bool, fields: set<Atom>)
    requires TidyTargets(d) && Tidy(d, s) && MapSource(d, s)
    ensures OnlyCycle(SourceLog(d, p, s, text, fields).e)
    decreases Room(d, p), s, 5, 0
  {
    if s.Mapping? {
      TidySourceMap(d, p, s, text, fields);
    } else if s.id !in p {
      RoomShrinks(d, p, s.id);
      TidySourceMap(d, p + {s.id}, d.targets[s.id], text, fields);
    }
  }

  lemma {:induction false} TidySourceMap(d: Doc, p: set<nat>, s: Node, text: bool, fields: set<Atom>)
    requires TidyTargets(d) && s.Mapping? && Tidy(d, s)
    ensures OnlyCycle(SourceMapLog(d, p, s, text, fields).e)
    decreases Room(d, p), s, 4, 0
  {
    TidySourcePairs(d, p, s, text, fields, |s.pairs|);
    hide MergeValue, LogOf, Tidy, HasRepeatedKey, Own, SourcesLog, SourcePairsLog;
    if HasMerge(s.pairs) {
      var i := MergePlace(s.pairs, |s.pairs|);
      TidyParts(d, s, i);
      TidySources(d, p, s.pairs[i].value, text, FieldsAfter(fields, Own(d, p, s, text, |s.pairs|)));
    }
    assert OnlyCycle(SourceMergeLog(d, p, s, text, fields).e);
    assert OnlyCycle(IntoLog(d, p, s, text, fields).e);
  }

  lemma {:induction false} TidySourcePairs(d: Doc, p: set<nat>, s: Node, text: bool, fields: set<Atom>, k: nat)
    requires TidyTargets(d) && s.Mapping? && Tidy(d, s) && k <= |s.pairs|
    ensures OnlyCycle(SourcePairsLog(d, p, s, text, fields, k).e)
    decreases Room(d, p), s, 2, k
  {
    if k > 0 {
      TidySourcePairs(d, p, s, text, fields, k - 1);
      TidyKey(d, p, s, text, k - 1);
      TidyParts(d, s, k - 1);
      TidyFails(d, p, s.pairs[k - 1].value, Any);
      hide LogOf, Denote, KeyLog, Own;
      assert OnlyCycle(SourcePairLog(d, p, s, text, fields, k - 1).e);
    }
  }

  /** In a tidy document nothing but a cycle can fail, with merges or without. */
  lemma TidyRoot(d: Doc, root: Node)
    requires TidyDoc(d, root)
    ensures OnlyCycle(FirstError(d, {}, root, Any))
  {
    hide LogOf, Tidy;
    TidyFails(d, {}, root, Any);
  }

  ghost predicate NoMerges(d: Doc, n: Node) {
    MergeFree(n) && MergeFreeDoc(d)
  }
}
