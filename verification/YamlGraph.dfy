/**
 Node graphs: how much work a tree is, and which alias nodes a decode can run into.
 */
module YamlGraph {
  import opened Wrappers
  import opened YamlTree
  import opened YamlMeaning

  // ----- Work ------------------------------------------------------------------------

  predicate HasMerge(pairs: seq<Pair>) {
    MergeValue(pairs, |pairs|).Some?
  }

  /** Nodes of the tree. */
  function Size(n: Node): nat
    decreases n, 1
  {
    match n
    case Sequence(_, _, _, _, items) => 1 + ItemsSize(items, |items|)
    case Mapping(_, _, _, _, pairs) => 1 + PairsSize(n, |pairs|)
    case _ => 1
  }

  function ItemsSize(ns: seq<Node>, k: nat): nat
    requires k <= |ns|
    decreases ns, 0, k
  {
    if k == 0 then 0 else ItemsSize(ns, k - 1) + Size(ns[k - 1])
  }

  function PairsSize(n: Node, k: nat): nat
    requires n.Mapping? && k <= |n.pairs|
    decreases n, 0, k
  {
    if k == 0 then 0 else PairsSize(n, k - 1) + Size(n.pairs[k - 1].key) + Size(n.pairs[k - 1].value)
  }

  /** Calls of unmarshal outside aliases: the keys of a mapping with a merge are decoded twice. */
  function Cost(n: Node): (c: nat)
    ensures c >= 1
    decreases n, 1
  {
    match n
    case Sequence(_, _, _, _, items) => 1 + ItemsCost(items, |items|)
    case Mapping(_, _, _, _, pairs) =>
      1 + PairsCost(n, |pairs|) + (if HasMerge(pairs) then KeysCost(n, |pairs|) else 0)
    case _ => 1
  }

  function ItemsCost(ns: seq<Node>, k: nat): nat
    requires k <= |ns|
    decreases ns, 0, k
  {
    if k == 0 then 0 else ItemsCost(ns, k - 1) + Cost(ns[k - 1])
  }

  function PairsCost(n: Node, k: nat): nat
    requires n.Mapping? && k <= |n.pairs|
    decreases n, 0, k
  {
    if k == 0 then 0 else PairsCost(n, k - 1) + Cost(n.pairs[k - 1].key) + Cost(n.pairs[k - 1].value)
  }

  function KeysCost(n: Node, k: nat): nat
    requires n.Mapping? && k <= |n.pairs|
    decreases n, 0, k
  {
    if k == 0 then 0 else KeysCost(n, k - 1) + Cost(n.pairs[k - 1].key)
  }

  /** No mapping of the tree has a merge key. */
  predicate MergeFree(n: Node) {
    match n
    case Sequence(_, _, _, _, items) => forall i :: 0 <= i < |items| ==> MergeFree(items[i])
    case Mapping(_, _, _, _, pairs) =>
      forall i :: 0 <= i < |pairs| ==> !IsMerge(pairs[i].key) && MergeFree(pairs[i].key) && MergeFree(pairs[i].value)
    case _ => true
  }

  lemma {:induction false} NoMergeValue(pairs: seq<Pair>, k: nat)
    requires k <= |pairs|
    requires forall i :: 0 <= i < |pairs| ==> !IsMerge(pairs[i].key)
    ensures MergeValue(pairs, k) == None
  {
    if k > 0 {
      NoMergeValue(pairs, k - 1);
    }
  }

  /** Without merges every node outside aliases is decoded at most once. */
  lemma {:induction false} CostIsSize(n: Node)
    requires MergeFree(n)
    ensures Cost(n) == Size(n)
    decreases n, 1
  {
    match n {
      case Sequence(_, _, _, _, items) => ItemsCostIsSize(n, |items|);
      case Mapping(_, _, _, _, pairs) =>
        NoMergeValue(pairs, |pairs|);
        PairsCostIsSize(n, |pairs|);
      case _ =>
    }
  }

  lemma {:induction false} ItemsCostIsSize(n: Node, k: nat)
    requires n.Sequence? && MergeFree(n) && k <= |n.items|
    ensures ItemsCost(n.items, k) == ItemsSize(n.items, k)
    decreases n, 0, k
  {
    if k > 0 {
      ItemsCostIsSize(n, k - 1);
      CostIsSize(n.items[k - 1]);
    }
  }

  lemma {:induction false} PairsCostIsSize(n: Node, k: nat)
    requires n.Mapping? && MergeFree(n) && k <= |n.pairs|
    ensures PairsCost(n, k) == PairsSize(n, k)
    decreases n, 0, k
  {
    if k > 0 {
      PairsCostIsSize(n, k - 1);
      CostIsSize(n.pairs[k - 1].key);
      CostIsSize(n.pairs[k - 1].value);
    }
  }

  /** Keys are scalars or aliases, as in every document that decodes into maps without error. */
  predicate PlainKeys(n: Node) {
    match n
    case Sequence(_, _, _, _, items) => forall i :: 0 <= i < |items| ==> PlainKeys(items[i])
    case Mapping(_, _, _, _, pairs) =>
      forall i :: 0 <= i < |pairs| ==> (pairs[i].key.Scalar? || pairs[i].key.Alias?) && PlainKeys(pairs[i].value)
    case _ => true
  }

  /** With merges, at most twice. */
  lemma {:induction false} CostAtMostDouble(n: Node)
    requires PlainKeys(n)
    ensures Cost(n) < 2 * Size(n)
    decreases n, 1
  {
    match n {
      case Sequence(_, _, _, _, items) => ItemsAtMostDouble(n, |items|);
      case Mapping(_, _, _, _, pairs) => PairsAtMostDouble(n, |pairs|);
      case _ =>
    }
  }

  lemma {:induction false} ItemsAtMostDouble(n: Node, k: nat)
    requires n.Sequence? && PlainKeys(n) && k <= |n.items|
    ensures ItemsCost(n.items, k) <= 2 * ItemsSize(n.items, k)
    decreases n, 0, k
  {
    if k > 0 {
      ItemsAtMostDouble(n, k - 1);
      CostAtMostDouble(n.items[k - 1]);
    }
  }

  lemma {:induction false} PairsAtMostDouble(n: Node, k: nat)
    requires n.Mapping? && PlainKeys(n) && k <= |n.pairs|
    ensures PairsCost(n, k) + KeysCost(n, k) <= 2 * PairsSize(n, k)
    decreases n, 0, k
  {
    if k > 0 {
      PairsAtMostDouble(n, k - 1);
      assert Cost(n.pairs[k - 1].key) == 1;
      CostAtMostDouble(n.pairs[k - 1].value);
    }
  }

  // ----- Aliases ------------------------------------------------------------------------

  predicate SkipsHere(d: Doc, n: Node, t: Target) {
    match n
    case Scalar(_, _, _, _, _) => t == Text && d.resolve(n) == Some(Null)
    case Sequence(_, _, _, _, _) => t == Text
    case Mapping(_, _, _, _, pairs) => t == Text || HasRepeatedKey(pairs)
    case Alias(_, _, _) => false
  }

  /** Decoding n sets nothing and reports no failure; one step through an alias is enough here. */
  predicate Skips(d: Doc, n: Node, t: Target) {
    match n
    case Alias(id, _, _) => id in d.targets && !d.targets[id].Alias? && SkipsHere(d, d.targets[id], t)
    case _ => SkipsHere(d, n, t)
  }

  /**
   The alias nodes a decode of n can meet before entering one: none below a mapping with
   repeated keys, none in the value of a key that is passed over.
   */
  function Live(d: Doc, n: Node): set<nat>
    decreases n, 1
  {
    match n
    case Alias(id, _, _) => {id}
    case Scalar(_, _, _, _, _) => {}
    case Sequence(_, _, _, _, items) => LiveItems(d, items, |items|)
    case Mapping(_, _, _, _, pairs) =>
      if HasRepeatedKey(pairs) then {} else LivePairs(d, n, IsStringMap(d, pairs), |pairs|)
  }

  function LiveItems(d: Doc, ns: seq<Node>, k: nat): set<nat>
    requires k <= |ns|
    decreases ns, 0, k
  {
    if k == 0 then {} else LiveItems(d, ns, k - 1) + Live(d, ns[k - 1])
  }

  function LivePairs(d: Doc, n: Node, text: bool, k: nat): set<nat>
    requires n.Mapping? && k <= |n.pairs|
    decreases n, 0, k
  {
    if k == 0 then {}
    else
      LivePairs(d, n, text, k - 1) + Live(d, n.pairs[k - 1].key)
      + (if !IsMerge(n.pairs[k - 1].key) && Skips(d, n.pairs[k - 1].key, KeyTarget(text)) then {}
         else Live(d, n.pairs[k - 1].value))
  }

  lemma {:induction false} LiveItem(d: Doc, ns: seq<Node>, k: nat, i: nat)
    requires i < k <= |ns|
    ensures Live(d, ns[i]) <= LiveItems(d, ns, k)
    decreases k
  {
    if i < k - 1 {
      LiveItem(d, ns, k - 1, i);
    }
  }

  lemma {:induction false} LivePair(d: Doc, n: Node, text: bool, k: nat, i: nat)
    requires n.Mapping? && i < k <= |n.pairs|
    ensures Live(d, n.pairs[i].key) <= LivePairs(d, n, text, k)
    ensures IsMerge(n.pairs[i].key) || !Skips(d, n.pairs[i].key, KeyTarget(text)) ==>
              Live(d, n.pairs[i].value) <= LivePairs(d, n, text, k)
    decreases k
  {
    if i < k - 1 {
      LivePair(d, n, text, k - 1, i);
    }
  }

  /** From alias to alias: each is met while decoding what the one before stands for. */
  ghost predicate Chain(d: Doc, root: Node, c: seq<nat>) {
    && c != []
    && c[0] in Live(d, root)
    && forall i :: 0 <= i < |c| - 1 ==> c[i] in d.targets && c[i + 1] in Live(d, d.targets[c[i]])
  }

  /** Some alias is met again while decoding what it stands for. */
  ghost predicate Repeats(c: seq<nat>) {
    exists i, j :: 0 <= i < j < |c| && c[i] == c[j]
  }

  ghost predicate ContainsItself(d: Doc, root: Node) {
    exists c :: Chain(d, root, c) && Repeats(c)
  }

  /** A key that decodes into one kind of map is skipped by no other kind, if tags mean what they say. */
  lemma GoodAnywhere(d: Doc, p: set<nat>, pairs: seq<Pair>, i: nat, t: Target)
    requires Typed(d) && i < |pairs| && Denote(d, p, pairs[i].key, t).Good?
    ensures !Skips(d, pairs[i].key, KeyTarget(IsStringMap(d, pairs)))
  {
    if IsStringMap(d, pairs) {
      assert StringKey(d, pairs[i].key);
    }
  }

  /** As built by the parser, an anchor never stands on an alias. */
  ghost predicate TargetsAreNodes(d: Doc) {
    forall id :: id in d.targets ==> !d.targets[id].Alias?
  }

  lemma SkipSkips(d: Doc, p: set<nat>, n: Node, t: Target)
    requires TargetsAreNodes(d) && Denote(d, p, n, t) == Skip
    ensures Skips(d, n, t)
  {}

  ghost predicate MergeFreeDoc(d: Doc) {
    forall id :: id in d.targets ==> MergeFree(d.targets[id])
  }

  /** The alias node a, met inside p, was entered and what it stands for did not fail. */
  ghost predicate Entered(d: Doc, p: set<nat>, a: nat) {
    a in d.targets && a !in p && Denote(d, p + {a}, d.targets[a], Any) != Fail
  }

  lemma DenoteParts(d: Doc, p: set<nat>, n: Node)
    requires Denote(d, p, n, Any) != Fail
    ensures n.Alias? ==> Entered(d, p, n.id)
    ensures n.Sequence? ==> Elements(d, p, n, |n.items|).Some?
  {}

  lemma OwnSucceeds(d: Doc, p: set<nat>, n: Node)
    requires n.Mapping? && MergeFree(n) && !HasRepeatedKey(n.pairs) && Denote(d, p, n, Any) != Fail
    ensures var own := Own(d, p, n, IsStringMap(d, n.pairs), |n.pairs|); own.Some? && ApplyAll(d, own.value).Some?
  {
    hide Denote, ApplyAll, Own, HasRepeatedKey, IsStringMap, MergeFree;
    if Own(d, p, n, IsStringMap(d, n.pairs), |n.pairs|) == None
       || ApplyAll(d, Own(d, p, n, IsStringMap(d, n.pairs), |n.pairs|).value) == None {
      OwnFails(d, p, n, |n.pairs|);
    }
  }

  /** Whatever alias is live below n has been entered, and without failure. */
  lemma {:induction false} LiveIsEntered(d: Doc, p: set<nat>, n: Node, a: nat)
    requires TargetsAreNodes(d) && MergeFree(n) && Denote(d, p, n, Any) != Fail && a in Live(d, n)
    ensures Entered(d, p, a)
    decreases n, 1
  {
    hide Denote, Elements, Own, ApplyAll, IsStringMap, HasRepeatedKey;
    DenoteParts(d, p, n);
    match n {
      case Alias(_, _, _) =>
      case Scalar(_, _, _, _, _) =>
      case Sequence(_, _, _, _, items) => LiveInItems(d, p, n, |items|, a);
      case Mapping(_, _, _, _, pairs) =>
        OwnSucceeds(d, p, n);
        LiveInPairs(d, p, n, |pairs|, a);
    }
  }

  lemma {:induction false} LiveInItems(d: Doc, p: set<nat>, n: Node, k: nat, a: nat)
    requires n.Sequence? && k <= |n.items| && TargetsAreNodes(d) && MergeFree(n)
    requires Elements(d, p, n, k).Some? && a in LiveItems(d, n.items, k)
    ensures Entered(d, p, a)
    decreases n, 0, k
  {
    if a in LiveItems(d, n.items, k - 1) {
      LiveInItems(d, p, n, k - 1, a);
    } else {
      LiveIsEntered(d, p, n.items[k - 1], a);
    }
  }

  lemma StringMapKey(d: Doc, pairs: seq<Pair>, i: nat)
    requires i < |pairs| && IsStringMap(d, pairs)
    ensures StringKey(d, pairs[i].key)
  {}

  lemma {:induction false} LiveInPairs(d: Doc, p: set<nat>, n: Node, k: nat, a: nat)
    requires n.Mapping? && k <= |n.pairs| && TargetsAreNodes(d) && MergeFree(n)
    requires var text := IsStringMap(d, n.pairs);
             Own(d, p, n, text, k).Some? && ApplyAll(d, Own(d, p, n, text, k).value).Some?
               && a in LivePairs(d, n, text, k)
    ensures Entered(d, p, a)
    decreases n, 0, k
  {
    hide Denote, Live, ApplyAll, Own, IsStringMap;
    var text := IsStringMap(d, n.pairs);
    var key, value := n.pairs[k - 1].key, n.pairs[k - 1].value;
    OwnStep(d, p, n, text, k - 1);
    var front := Own(d, p, n, text, k - 1).value;
    var o := Denote(d, p, key, KeyTarget(text));
    if KeyAtom(o) != Some(None) {
      ApplyMore(d, front, Pending(KeyAtom(o).value.value, p, value));
    }
    if a in LivePairs(d, n, text, k - 1) {
      LiveInPairs(d, p, n, k - 1, a);
    } else if a in Live(d, key) {
      if text { StringMapKey(d, n.pairs, k - 1); }
      LiveInKey(d, p, key, text, a);
    } else {
      if o == Skip { SkipSkips(d, p, key, KeyTarget(text)); }
      LiveIsEntered(d, p, value, a);
    }
  }

  /** A key of a string map that is an alias stands for a scalar, so its target does not matter. */
  lemma LiveInKey(d: Doc, p: set<nat>, key: Node, text: bool, a: nat)
    requires TargetsAreNodes(d) && MergeFree(key) && a in Live(d, key)
    requires KeyAtom(Denote(d, p, key, KeyTarget(text))).Some? && (text ==> StringKey(d, key))
    ensures Entered(d, p, a)
    decreases key, 2
  {
    if !text {
      LiveIsEntered(d, p, key, a);
    }
  }

  /** If decoding succeeds, no chain of aliases meets an alias twice or one already entered. */
  lemma {:induction false} ChainsAreFresh(d: Doc, p: set<nat>, n: Node, c: seq<nat>)
    requires TargetsAreNodes(d) && MergeFreeDoc(d) && MergeFree(n) && Denote(d, p, n, Any) != Fail
    requires Chain(d, n, c)
    ensures !Repeats(c) && forall i :: 0 <= i < |c| ==> c[i] !in p
    decreases |c|
  {
    var a, rest := c[0], c[1..];
    LiveIsEntered(d, p, n, a);
    if rest != [] {
      assert rest[0] in Live(d, d.targets[a]);
      assert Chain(d, d.targets[a], rest);
      ChainsAreFresh(d, p + {a}, d.targets[a], rest);
      assert forall i :: 0 < i < |c| ==> c[i] == rest[i - 1];
    }
  }

  lemma SuccessMeansAcyclic(d: Doc, root: Node)
    requires TargetsAreNodes(d) && MergeFreeDoc(d) && MergeFree(root) && Denote(d, {}, root, Any) != Fail
    ensures !ContainsItself(d, root)
  {
    forall c | Chain(d, root, c)
      ensures !Repeats(c)
    {
      ChainsAreFresh(d, {}, root, c);
    }
  }
}
