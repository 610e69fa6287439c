/**
 The reference meaning by the shape of a node: what sequences and plain mappings decode to, in
 terms of their items, keys and values alone.
 */
module YamlLaws {
  import opened Wrappers
  import opened YamlTree
  import opened YamlMeaning

  // ----- Sequences ---------------------------------------------------------------------------

  /** The first k items that have a value, by their places. */
  ghost predicate Places(d: Doc, p: set<nat>, items: seq<Node>, k: nat, at: seq<nat>)
    requires k <= |items|
  {
    && (forall i, j :: 0 <= i < j < |at| ==> at[i] < at[j])
    && (forall i :: 0 <= i < |at| ==> at[i] < k)
    && (forall i :: 0 <= i < k ==> (i in at <==> Denote(d, p, items[i], Any).Good?))
  }

  lemma NoPlaces(d: Doc, p: set<nat>, items: seq<Node>)
    ensures Places(d, p, items, 0, [])
  {}

  lemma PlacesMore(d: Doc, p: set<nat>, items: seq<Node>, k: nat, at: seq<nat>)
    requires k < |items| && Places(d, p, items, k, at)
    ensures Places(d, p, items, k + 1, if Denote(d, p, items[k], Any).Good? then at + [k] else at)
  {
    hide Denote;
    if Denote(d, p, items[k], Any).Good? {
      assert forall i :: i in at + [k] <==> i in at || i == k;
    }
  }

  lemma {:induction false} ElementsArePlaces(d: Doc, p: set<nat>, n: Node, k: nat) returns (at: seq<nat>)
    requires n.Sequence? && k <= |n.items|
    requires forall i :: 0 <= i < k ==> Denote(d, p, n.items[i], Any) != Fail
    ensures Places(d, p, n.items, k, at)
    ensures var vs := Elements(d, p, n, k);
            && vs.Some? && |vs.value| == |at|
            && forall i :: 0 <= i < |at| ==> Denote(d, p, n.items[at[i]], Any) == Good(vs.value[i])
  {
    hide Denote, Places;
    at := [];
    if k == 0 {
      NoPlaces(d, p, n.items);
    } else {
      var was := ElementsArePlaces(d, p, n, k - 1);
      PlacesMore(d, p, n.items, k - 1, was);
      at := if Denote(d, p, n.items[k - 1], Any).Good? then was + [k - 1] else was;
    }
  }

  lemma {:induction false} ElementsFailAt(d: Doc, p: set<nat>, n: Node, k: nat)
    requires n.Sequence? && k <= |n.items|
    ensures Elements(d, p, n, k) == None <==> exists i :: 0 <= i < k && Denote(d, p, n.items[i], Any) == Fail
  {
    if k > 0 {
      ElementsFailAt(d, p, n, k - 1);
      hide Denote;
    }
  }

  /**
   A sequence fails exactly if an item fails; otherwise it is the list of the values of the items
   that have one, in their order.
   */
  lemma SequenceMeaning(d: Doc, p: set<nat>, n: Node) returns (at: seq<nat>)
    requires n.Sequence?
    ensures Denote(d, p, n, Any) == Fail <==>
              exists i :: 0 <= i < |n.items| && Denote(d, p, n.items[i], Any) == Fail
    ensures Denote(d, p, n, Any) != Fail ==>
              && Places(d, p, n.items, |n.items|, at)
              && Denote(d, p, n, Any).Good? && Denote(d, p, n, Any).v.List?
              && var vs := Denote(d, p, n, Any).v.vs;
                 |vs| == |at| && forall i :: 0 <= i < |at| ==> Denote(d, p, n.items[at[i]], Any) == Good(vs[i])
  {
    ElementsFailAt(d, p, n, |n.items|);
    at := [];
    if Elements(d, p, n, |n.items|).Some? {
      at := ElementsArePlaces(d, p, n, |n.items|);
    }
  }

  // ----- Mappings ------------------------------------------------------------------------------

  /** Every key is a scalar, none is a merge key, and what they resolve to is all different. */
  predicate DistinctKeys(d: Doc, pairs: seq<Pair>) {
    && (forall i :: 0 <= i < |pairs| ==>
          pairs[i].key.Scalar? && !IsMerge(pairs[i].key) && d.resolve(pairs[i].key).Some?)
    && (forall i, j :: 0 <= i < j < |pairs| ==> d.resolve(pairs[i].key) != d.resolve(pairs[j].key))
  }

  /** The map in which every key of the pairs has the value of its pair. */
  ghost predicate Spelled(d: Doc, p: set<nat>, pairs: seq<Pair>, k: nat, m: map<Atom, Value>)
    requires k <= |pairs| && DistinctKeys(d, pairs)
  {
    && (forall a :: a in m ==> exists i :: 0 <= i < k && d.resolve(pairs[i].key) == Some(a))
    && (forall i :: 0 <= i < k ==>
          var a := d.resolve(pairs[i].key).value; a in m && Denote(d, p, pairs[i].value, Any) == Good(m[a]))
  }

  /** A string key is decoded as a string, any other as it resolves: the same for both. */
  lemma KeyMeaning(d: Doc, p: set<nat>, n: Node, i: nat)
    requires Typed(d) && n.Mapping? && DistinctKeys(d, n.pairs) && i < |n.pairs|
    ensures KeyAtom(Denote(d, p, n.pairs[i].key, KeyTarget(IsStringMap(d, n.pairs)))) == Some(d.resolve(n.pairs[i].key))
  {
    if IsStringMap(d, n.pairs) {
      assert StringKey(d, n.pairs[i].key);
    }
  }

  /** One binding for each of the first k pairs. */
  ghost predicate InOrder(d: Doc, p: set<nat>, pairs: seq<Pair>, k: nat, ps: seq<Pending>)
    requires k <= |pairs| && DistinctKeys(d, pairs)
  {
    && |ps| == k
    && forall i :: 0 <= i < k ==> ps[i] == Pending(d.resolve(pairs[i].key).value, p, pairs[i].value)
  }

  lemma {:induction false} OwnMeaning(d: Doc, p: set<nat>, n: Node, k: nat)
    requires Typed(d) && n.Mapping? && DistinctKeys(d, n.pairs) && k <= |n.pairs|
    ensures var own := Own(d, p, n, IsStringMap(d, n.pairs), k); own.Some? && InOrder(d, p, n.pairs, k, own.value)
    ensures MergeValue(n.pairs, k) == None
  {
    hide Denote, IsStringMap, Room, Lower;
    if k > 0 {
      OwnMeaning(d, p, n, k - 1);
      KeyMeaning(d, p, n, k - 1);
      assert !IsMerge(n.pairs[k - 1].key);
      hide IsMerge;
    }
  }

  lemma SpelledMore(d: Doc, p: set<nat>, pairs: seq<Pair>, k: nat, m: map<Atom, Value>, v: Value)
    requires DistinctKeys(d, pairs) && k < |pairs| && Spelled(d, p, pairs, k, m)
    requires Denote(d, p, pairs[k].value, Any) == Good(v)
    ensures Spelled(d, p, pairs, k + 1, m[d.resolve(pairs[k].key).value := v])
  {
    hide Denote, IsMerge;
    var last := d.resolve(pairs[k].key).value;
    forall a | a in m[last := v]
      ensures exists i :: 0 <= i < k + 1 && d.resolve(pairs[i].key) == Some(a)
    {
      if a != last {
        var i :| 0 <= i < k && d.resolve(pairs[i].key) == Some(a);
      }
    }
  }

  lemma {:induction false} BoundMeaning(d: Doc, p: set<nat>, pairs: seq<Pair>, ps: seq<Pending>, k: nat)
    requires DistinctKeys(d, pairs) && InOrder(d, p, pairs, |pairs|, ps) && k <= |pairs|
    requires forall i :: 0 <= i < k ==> Denote(d, p, pairs[i].value, Any).Good?
    ensures Apply(d, ps, k).Some? && Spelled(d, p, pairs, k, Apply(d, ps, k).value)
  {
    hide Denote, NullTagged, DistinctKeys;
    if k > 0 {
      BoundMeaning(d, p, pairs, ps, k - 1);
      SpelledMore(d, p, pairs, k - 1, Apply(d, ps, k - 1).value, Denote(d, p, pairs[k - 1].value, Any).v);
    }
  }

  /** Keys written alike: scalars or aliases of the same text, whatever their tags, and any collections of a kind. */
  predicate WrittenAlike(a: Node, b: Node) {
    || (a.Scalar? && b.Scalar? && a.value == b.value) || (a.Alias? && b.Alias? && a.value == b.value)
    || (a.Sequence? && b.Sequence?) || (a.Mapping? && b.Mapping?)
  }

  /** A mapping is passed over exactly if two of its keys are written alike. */
  lemma RepeatsExactly(d: Doc, p: set<nat>, n: Node)
    requires n.Mapping?
    ensures Denote(d, p, n, Any) == Skip <==>
              exists i, j :: 0 <= i < j < |n.pairs| && WrittenAlike(n.pairs[i].key, n.pairs[j].key)
  {
    assert forall a, b :: SameKey(a, b) <==> WrittenAlike(a, b);
    assert HasRepeatedKey(n.pairs) <==>
        exists i, j :: 0 <= i < j < |n.pairs| && WrittenAlike(n.pairs[i].key, n.pairs[j].key);
  }

  /** A plain mapping whose values all decode is the map from its keys to their values. */
  lemma MappingMeaning(d: Doc, p: set<nat>, n: Node)
    requires Typed(d) && n.Mapping? && !HasRepeatedKey(n.pairs) && DistinctKeys(d, n.pairs)
    requires forall i :: 0 <= i < |n.pairs| ==> Denote(d, p, n.pairs[i].value, Any).Good?
    ensures Denote(d, p, n, Any).Good? && Denote(d, p, n, Any).v.Dict?
    ensures Spelled(d, p, n.pairs, |n.pairs|, Denote(d, p, n, Any).v.m)
  {
    OwnMeaning(d, p, n, |n.pairs|);
    DenoteMapping(d, p, n);
    hide Denote, IsStringMap, HasRepeatedKey, Own, MergeValue, Apply;
    BoundMeaning(d, p, n.pairs, Bindings(d, p, n).value, |n.pairs|);
  }
}
