/**
 How many calls of unmarshal a decode takes: one for each node of the tree in which every alias is
 followed by what it stands for.
 */
module YamlWork {
  import opened Wrappers
  import opened YamlTree
  import opened YamlMeaning
  import opened YamlGraph
  import opened YamlErrors

  /** Merge-free, and no mapping is passed over for a repeated key. */
  predicate Straight(n: Node) {
    match n
    case Sequence(_, _, _, _, items) => forall i :: 0 <= i < |items| ==> Straight(items[i])
    case Mapping(_, _, _, _, pairs) =>
      && !HasRepeatedKey(pairs)
      && forall i :: 0 <= i < |pairs| ==> !IsMerge(pairs[i].key) && Straight(pairs[i].key) && Straight(pairs[i].value)
    case _ => true
  }

  ghost predicate StraightDoc(d: Doc) {
    forall id :: id in d.targets ==> Straight(d.targets[id])
  }

  /** The nodes of the expanded tree; an alias inside itself is not followed. */
  ghost function Expanded(d: Doc, p: set<nat>, n: Node): nat
    decreases Room(d, p), n, 1, 0
  {
    match n
    case Alias(id, _, _) =>
      if id !in d.targets || id in p then 1
      else
        RoomShrinks(d, p, id);
        1 + Expanded(d, p + {id}, d.targets[id])
    case Scalar(_, _, _, _, _) => 1
    case Sequence(_, _, _, _, items) => 1 + ExpandedItems(d, p, n, |items|)
    case Mapping(_, _, _, _, pairs) => 1 + ExpandedPairs(d, p, n, |pairs|)
  }

  ghost function ExpandedItems(d: Doc, p: set<nat>, n: Node, k: nat): nat
    requires n.Sequence? && k <= |n.items|
    decreases Room(d, p), n, 0, k
  {
    if k == 0 then 0 else ExpandedItems(d, p, n, k - 1) + Expanded(d, p, n.items[k - 1])
  }

  ghost function ExpandedPairs(d: Doc, p: set<nat>, n: Node, k: nat): nat
    requires n.Mapping? && k <= |n.pairs|
    decreases Room(d, p), n, 0, k
  {
    if k == 0 then 0
    else ExpandedPairs(d, p, n, k - 1) + Expanded(d, p, n.pairs[k - 1].key) + Expanded(d, p, n.pairs[k - 1].value)
  }

  /** The log takes this many calls, fewer only where it fails. */
  predicate Takes(log: Log, calls: nat) {
    |log.calls| <= calls && (log.e == NoError ==> |log.calls| == calls)
  }

  /** A scalar key is never passed over. */
  lemma KeyIsKept(d: Doc, p: set<nat>, n: Node, i: nat)
    requires Typed(d) && n.Mapping? && i < |n.pairs| && ScalarKey(d, n.pairs[i].key)
    ensures KeyAtom(Denote(d, p, n.pairs[i].key, KeyTarget(IsStringMap(d, n.pairs)))) != Some(None)
  {
    var key, t := n.pairs[i].key, KeyTarget(IsStringMap(d, n.pairs));
    if IsStringMap(d, n.pairs) {
      assert StringKey(d, key);
    }
    if key.Alias? && key.id !in p {
      assert Denote(d, p, key, t) == Denote(d, p + {key.id}, d.targets[key.id], t);
    }
  }

  /**
   Where only a cycle can fail, nothing is merged and no mapping is passed over, a decode takes one call
   for each node of the expanded tree, fewer only if it meets a cycle.
   */
  lemma {:induction false} CallsAreExpanded(d: Doc, p: set<nat>, n: Node, t: Target)
    requires Typed(d) && TidyTargets(d) && StraightDoc(d) && Tidy(d, n) && Straight(n)
    requires t == Any || ScalarKey(d, n)
    ensures Takes(LogOf(d, p, n, t), Expanded(d, p, n))
    decreases Room(d, p), n, 3, 0
  {
    assert LogOf(d, p, n, t) == Then(Called(p), Visit(d, p, n, t));
    match n {
      case Alias(id, _, _) =>
        if id !in p {
          RoomShrinks(d, p, id);
          CallsAreExpanded(d, p + {id}, d.targets[id], t);
        }
      case Scalar(_, _, _, _, _) =>
      case Sequence(_, _, _, _, items) => ItemsAreExpanded(d, p, n, |items|);
      case Mapping(_, _, _, _, pairs) =>
        MappingFirst(d, p, n);
        NoMergeValue(pairs, |pairs|);
        PairsAreExpanded(d, p, n, |pairs|);
    }
  }

  lemma {:induction false} ItemsAreExpanded(d: Doc, p: set<nat>, n: Node, k: nat)
    requires Typed(d) && TidyTargets(d) && StraightDoc(d) && n.Sequence? && Tidy(d, n) && Straight(n)
    requires k <= |n.items|
    ensures Takes(ItemsLog(d, p, n, k), ExpandedItems(d, p, n, k))
    decreases Room(d, p), n, 2, k
  {
    if k > 0 {
      ItemsAreExpanded(d, p, n, k - 1);
      CallsAreExpanded(d, p, n.items[k - 1], Any);
      hide LogOf, Expanded;
    }
  }

  /** What two logs take one after the other. */
  lemma TakesBoth(a: Log, b: Log, m: nat, n: nat)
    requires Takes(a, m) && Takes(b, n)
    ensures Takes(Then(a, b), m + n)
  {}

  lemma {:induction false} PairIsExpanded(d: Doc, p: set<nat>, n: Node, i: nat)
    requires Typed(d) && TidyTargets(d) && StraightDoc(d) && n.Mapping? && Tidy(d, n) && Straight(n)
    requires i < |n.pairs|
    ensures Takes(PairLog(d, p, n, IsStringMap(d, n.pairs), i),
                  Expanded(d, p, n.pairs[i].key) + Expanded(d, p, n.pairs[i].value))
    decreases Room(d, p), n, 1, 0
  {
    var text, key, value := IsStringMap(d, n.pairs), n.pairs[i].key, n.pairs[i].value;
    TidyParts(d, n, i);
    CallsAreExpanded(d, p, key, KeyTarget(text));
    CallsAreExpanded(d, p, value, Any);
    KeyIsKept(d, p, n, i);
    hide LogOf, Expanded, Denote, IsStringMap, Tidy, Straight, Room;
    assert Takes(KeyLog(d, p, n, text, i), Expanded(d, p, key));
    TakesBoth(KeyLog(d, p, n, text, i), LogOf(d, p, value, Any), Expanded(d, p, key), Expanded(d, p, value));
  }

  lemma NoMergeKey(n: Node, i: nat)
    requires n.Mapping? && Straight(n) && i < |n.pairs|
    ensures !IsMerge(n.pairs[i].key)
  {}

  lemma {:induction false} PairsAreExpanded(d: Doc, p: set<nat>, n: Node, k: nat)
    requires Typed(d) && TidyTargets(d) && StraightDoc(d) && n.Mapping? && Tidy(d, n) && Straight(n)
    requires k <= |n.pairs|
    ensures Takes(PairsLog(d, p, n, IsStringMap(d, n.pairs), k), ExpandedPairs(d, p, n, k))
    decreases Room(d, p), n, 2, k
  {
    hide PairLog, Expanded, IsStringMap, IsMerge, Tidy, Straight, Room;
    if k > 0 {
      PairsAreExpanded(d, p, n, k - 1);
      PairIsExpanded(d, p, n, k - 1);
      NoMergeKey(n, k - 1);
      hide Takes;
      var key, value := n.pairs[k - 1].key, n.pairs[k - 1].value;
      TakesBoth(PairsLog(d, p, n, IsStringMap(d, n.pairs), k - 1), PairLog(d, p, n, IsStringMap(d, n.pairs), k - 1),
        ExpandedPairs(d, p, n, k - 1), Expanded(d, p, key) + Expanded(d, p, value));
    }
  }
}
