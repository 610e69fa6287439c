/**
 What parsing must give, said of events and nodes alone.  The events that are no ends and the nodes
 of the tree in preorder go together one by one: each node is what its event says, its identity is
 its place, and an alias stands for the last node before it that has the anchor.
 */
module NodeReading {
  import opened Wrappers
  import opened YamlTree
  import opened NodeEvents
  import G = EmitterGrammar

  // ----- Events and nodes in order -------------------------------------------------------------

  predicate IsEnd(e: Event) {
    e.SequenceEnd? || e.MappingEnd?
  }

  /** The events that make nodes. */
  function Heads(es: seq<Event>): seq<Event> {
    if es == [] then [] else (if IsEnd(es[0]) then [] else [es[0]]) + Heads(es[1..])
  }

  lemma {:induction false} HeadsConcat(a: seq<Event>, b: seq<Event>)
    ensures Heads(a + b) == Heads(a) + Heads(b)
  {
    if a == [] {
      assert a + b == b;
    } else {
      assert (a + b)[0] == a[0] && (a + b)[1..] == a[1..] + b;
      HeadsConcat(a[1..], b);
    }
  }

  /** All nodes of a tree, each before its children. */
  function Preorder(n: Node): seq<Node>
    decreases n, 1
  {
    match n
    case Sequence(_, _, _, _, items) => [n] + ItemsInOrder(items)
    case Mapping(_, _, _, _, pairs) => [n] + PairsInOrder(pairs)
    case _ => [n]
  }

  function ItemsInOrder(ns: seq<Node>): seq<Node>
    decreases ns, 0
  {
    if ns == [] then [] else Preorder(ns[0]) + ItemsInOrder(ns[1..])
  }

  function PairsInOrder(ps: seq<Pair>): seq<Node>
    decreases ps, 0
  {
    if ps == [] then [] else PairInOrder(ps[0]) + PairsInOrder(ps[1..])
  }

  function PairInOrder(p: Pair): seq<Node>
    decreases p, 0
  {
    Preorder(p.key) + Preorder(p.value)
  }

  // ----- One event and its node ------------------------------------------------------------------

  /**
   An explicit tag is kept in short form.  Without one, quoted text is a string, a bare `<<` a merge key
   and other bare text what it resolves to; a collection has the tag of its kind.
   */
  predicate Spells(implicit: Resolver, e: Event, n: Node) {
    match e
    case ScalarEvent(anchor, tag, value, quoting) =>
      var explicit := tag != "" && tag != "!";
      && n.Scalar? && n.value == value && n.anchor == anchor && n.style == Style(explicit, quoting, false)
      && (explicit ==> n.tag == ShortTag(tag))
      && (!explicit && quoting != Bare ==> n.tag == "!!str")
      && (!explicit && quoting == Bare && value == "<<" ==> n.tag == "!!merge")
      && (!explicit && quoting == Bare && value != "<<" ==> n.tag == implicit(value))
    case AliasEvent(name) => n.Alias? && n.value == name
    case SequenceStart(anchor, tag, flow) =>
      var explicit := tag != "" && tag != "!";
      && n.Sequence? && n.anchor == anchor && n.style == Style(explicit, Bare, flow)
      && n.tag == if explicit then ShortTag(tag) else "!!seq"
    case MappingStart(anchor, tag, flow) =>
      var explicit := tag != "" && tag != "!";
      && n.Mapping? && n.anchor == anchor && n.style == Style(explicit, Bare, flow)
      && n.tag == if explicit then ShortTag(tag) else "!!map"
    case _ => false
  }

  /** The anchor an event gives to its node; an alias gives none. */
  function AnchorOf(e: Event): string {
    match e
    case ScalarEvent(anchor, _, _, _) => anchor
    case SequenceStart(anchor, _, _) => anchor
    case MappingStart(anchor, _, _) => anchor
    case _ => ""
  }

  /** The last of the first i events that gives this anchor. */
  function LastWith(hs: seq<Event>, name: string, i: nat): (r: Option<nat>)
    requires i <= |hs|
    ensures r.Some? ==> r.value < i && AnchorOf(hs[r.value]) == name != ""
    ensures forall j :: (if r.Some? then r.value + 1 else 0) <= j < i ==> name == "" || AnchorOf(hs[j]) != name
  {
    if i == 0 then None
    else if name != "" && AnchorOf(hs[i - 1]) == name then Some(i - 1)
    else LastWith(hs, name, i - 1)
  }

  function Lookup(anchors: map<string, nat>, name: string): Option<nat> {
    if name in anchors then Some(anchors[name]) else None
  }

  /** What a name stands for after the first i of these events, from the memory m before them. */
  function Stands(m: Memory, hs: seq<Event>, name: string, i: nat): Option<nat>
    requires i <= |hs|
  {
    match LastWith(hs, name, i)
    case Some(j) => Some(m.count + j)
    case None => Lookup(m.anchors, name)
  }

  ghost predicate FitsAt(implicit: Resolver, m: Memory, hs: seq<Event>, ns: seq<Node>, i: nat)
    requires i < |hs| == |ns|
  {
    && ns[i].id == m.count + i && Spells(implicit, hs[i], ns[i])
    && (hs[i].AliasEvent? ==> Stands(m, hs, hs[i].anchor, i) == Some(ns[i].target))
  }

  /** The nodes are what the events say, one by one. */
  ghost predicate Fits(implicit: Resolver, m: Memory, hs: seq<Event>, ns: seq<Node>) {
    |hs| == |ns| && forall i :: 0 <= i < |hs| ==> FitsAt(implicit, m, hs, ns, i)
  }

  /** The memory after them: as many nodes more, and every name stands for its last node. */
  ghost predicate Knows(m: Memory, hs: seq<Event>, after: Memory) {
    && after.count == m.count + |hs|
    && forall name :: Lookup(after.anchors, name) == Stands(m, hs, name, |hs|)
  }

  /** These events spell these nodes, and leave this memory. */
  ghost predicate Reads(
    implicit: Resolver, m: Memory, used: seq<Event>, word: seq<G.Kind>, ns: seq<Node>, after: Memory) {
    Kinds(used) == word && Fits(implicit, m, Heads(used), ns) && Knows(m, Heads(used), after)
  }

  // ----- One after the other -----------------------------------------------------------------------

  lemma {:induction false} LastOfFront(a: seq<Event>, b: seq<Event>, name: string, i: nat)
    requires i <= |a|
    ensures LastWith(a + b, name, i) == LastWith(a, name, i)
  {
    if i > 0 {
      LastOfFront(a, b, name, i - 1);
    }
  }

  lemma {:induction false} LastOfBoth(a: seq<Event>, b: seq<Event>, name: string, i: nat)
    requires i <= |b|
    ensures LastWith(a + b, name, |a| + i) ==
            match LastWith(b, name, i) case Some(j) => Some(|a| + j) case None => LastWith(a, name, |a|)
  {
    if i == 0 {
      LastOfFront(a, b, name, |a|);
    } else {
      assert (a + b)[|a| + i - 1] == b[i - 1];
      LastOfBoth(a, b, name, i - 1);
    }
  }

  lemma StandsAfter(m: Memory, a: seq<Event>, mid: Memory, b: seq<Event>, name: string, i: nat)
    requires Knows(m, a, mid) && i <= |b|
    ensures Stands(m, a + b, name, |a| + i) == Stands(mid, b, name, i)
  {
    LastOfBoth(a, b, name, i);
    assert Lookup(mid.anchors, name) == Stands(m, a, name, |a|);
  }

  lemma CountAfter(m: Memory, hs: seq<Event>, after: Memory)
    requires Knows(m, hs, after)
    ensures after.count == m.count + |hs|
  {}

  lemma StandsBefore(m: Memory, a: seq<Event>, b: seq<Event>, name: string, i: nat)
    requires i <= |a|
    ensures Stands(m, a + b, name, i) == Stands(m, a, name, i)
  {
    LastOfFront(a, b, name, i);
  }

  lemma FitsBoth(implicit: Resolver, m: Memory, a: seq<Event>, ns: seq<Node>, mid: Memory, b: seq<Event>, ms: seq<Node>)
    requires Fits(implicit, m, a, ns) && Knows(m, a, mid) && Fits(implicit, mid, b, ms)
    ensures Fits(implicit, m, a + b, ns + ms)
  {
    hide Spells, Knows, Stands;
    forall i | 0 <= i < |a + b|
      ensures FitsAt(implicit, m, a + b, ns + ms, i)
    {
      if i < |a| {
        assert FitsAt(implicit, m, a, ns, i);
        if a[i].AliasEvent? { StandsBefore(m, a, b, a[i].anchor, i); }
      } else {
        assert FitsAt(implicit, mid, b, ms, i - |a|);
        assert mid.count == m.count + |a| by { CountAfter(m, a, mid); }
        if b[i - |a|].AliasEvent? { StandsAfter(m, a, mid, b, b[i - |a|].anchor, i - |a|); }
      }
    }
  }

  lemma KnowsBoth(m: Memory, a: seq<Event>, mid: Memory, b: seq<Event>, after: Memory)
    requires Knows(m, a, mid) && Knows(mid, b, after)
    ensures Knows(m, a + b, after)
  {
    forall name
      ensures Lookup(after.anchors, name) == Stands(m, a + b, name, |a + b|)
    {
      StandsAfter(m, a, mid, b, name, |b|);
    }
  }

  lemma ReadsBoth(
    implicit: Resolver, m: Memory, u: seq<Event>, w: seq<G.Kind>, ns: seq<Node>, mid: Memory,
    v: seq<Event>, x: seq<G.Kind>, ms: seq<Node>, after: Memory)
    requires Reads(implicit, m, u, w, ns, mid) && Reads(implicit, mid, v, x, ms, after)
    ensures Reads(implicit, m, u + v, w + x, ns + ms, after)
  {
    hide Kinds, Heads, Fits, Knows;
    KindsConcat(u, v);
    HeadsConcat(u, v);
    FitsBoth(implicit, m, Heads(u), ns, mid, Heads(v), ms);
    KnowsBoth(m, Heads(u), mid, Heads(v), after);
  }

  lemma Single(e: Event)
    ensures Heads([e]) == (if IsEnd(e) then [] else [e]) && Kinds([e]) == [KindOf(e)]
  {
    assert [e][1..] == [];
  }

  lemma ReadsNothing(implicit: Resolver, m: Memory, e: Event)
    requires IsEnd(e)
    ensures Reads(implicit, m, [e], [KindOf(e)], [], m)
  {
    Single(e);
  }

  lemma ReadsOne(implicit: Resolver, m: Memory, e: Event, n: Node)
    requires !IsEnd(e) && n.id == m.count && Spells(implicit, e, n)
    requires e.AliasEvent? ==> Lookup(m.anchors, e.anchor) == Some(n.target)
    ensures Reads(implicit, m, [e], [KindOf(e)], [n], Remember(m, AnchorOf(e)))
  {
    hide Spells;
    Single(e);
    assert LastWith([e], "", 0) == None;
    forall name
      ensures Lookup(Remember(m, AnchorOf(e)).anchors, name) == Stands(m, [e], name, 1)
    {
      assert LastWith([e], name, 0) == None;
    }
  }

  // ----- What the parser reads -----------------------------------------------------------------------

  lemma LeafReads(implicit: Resolver, es: seq<Event>, m: Memory)
    requires ParseNode(implicit, es, m).Parsed? && (es[0].ScalarEvent? || es[0].AliasEvent?)
    ensures var p := ParseNode(implicit, es, m);
            && es == [es[0]] + p.rest && Preorder(p.node) == [p.node]
            && Reads(implicit, m, [es[0]], G.Word(Shape(p.node)), [p.node], p.memory)
  {
    var p := ParseNode(implicit, es, m);
    assert es == [es[0]] + es[1..];
    ReadsOne(implicit, m, es[0], p.node);
    hide Reads;
  }

  lemma SequenceReads(implicit: Resolver, m: Memory, e: Event, n: Node, inner: seq<Event>, after: Memory)
    requires e.SequenceStart? && n.Sequence?
    requires n == Sequence(m.count, NodeTag(e.tag, SEQ_TAG), e.anchor, Style(Tagged(e.tag), Bare, e.flow), n.items)
    requires Reads(implicit, Remember(m, e.anchor), inner, G.Words(ItemShapes(n.items)) + [G.SeqEnd],
                   ItemsInOrder(n.items), after)
    ensures Reads(implicit, m, [e] + inner, G.Word(Shape(n)), Preorder(n), after)
  {
    ReadsOne(implicit, m, e, n);
    hide Reads, ItemShapes, ItemsInOrder;
    var words := G.Words(ItemShapes(n.items));
    ReadsBoth(implicit, m, [e], [KindOf(e)], [n], Remember(m, e.anchor), inner, words + [G.SeqEnd],
      ItemsInOrder(n.items), after);
    assert [G.SeqStart] + (words + [G.SeqEnd]) == [G.SeqStart] + words + [G.SeqEnd];
  }

  lemma MappingReads(implicit: Resolver, m: Memory, e: Event, n: Node, inner: seq<Event>, after: Memory)
    requires e.MappingStart? && n.Mapping?
    requires n == Mapping(m.count, NodeTag(e.tag, MAP_TAG), e.anchor, Style(Tagged(e.tag), Bare, e.flow), n.pairs)
    requires Reads(implicit, Remember(m, e.anchor), inner, G.Words(PairShapes(n.pairs)) + [G.MapEnd],
                   PairsInOrder(n.pairs), after)
    ensures Reads(implicit, m, [e] + inner, G.Word(Shape(n)), Preorder(n), after)
  {
    ReadsOne(implicit, m, e, n);
    hide Reads, PairShapes, PairsInOrder;
    var words := G.Words(PairShapes(n.pairs));
    ReadsBoth(implicit, m, [e], [KindOf(e)], [n], Remember(m, e.anchor), inner, words + [G.MapEnd],
      PairsInOrder(n.pairs), after);
    assert [G.MapStart] + (words + [G.MapEnd]) == [G.MapStart] + words + [G.MapEnd];
  }

  /** What a successful parse has read: the events it took, and that they spell the node. */
  lemma {:induction false} ParseReads(implicit: Resolver, es: seq<Event>, m: Memory) returns (used: seq<Event>)
    requires ParseNode(implicit, es, m).Parsed?
    ensures var p := ParseNode(implicit, es, m);
            es == used + p.rest && Reads(implicit, m, used, G.Word(Shape(p.node)), Preorder(p.node), p.memory)
    decreases |es|, 1
  {
    NonEmpty(implicit, es, m);
    hide ParseItems, ParsePairs, Reads, Spells;
    var p, e, rest := ParseNode(implicit, es, m), es[0], es[1..];
    assert es == [e] + rest;
    match e {
      case SequenceStart(anchor, tag, flow) =>
        var inner := ItemsRead(implicit, rest, Remember(m, anchor));
        SequenceReads(implicit, m, e, p.node, inner, p.memory);
        used := [e] + inner;
      case MappingStart(anchor, tag, flow) =>
        var inner := PairsRead(implicit, rest, Remember(m, anchor));
        MappingReads(implicit, m, e, p.node, inner, p.memory);
        used := [e] + inner;
      case _ =>
        LeafReads(implicit, es, m);
        used := [e];
    }
    assert [e] + (used[1..] + p.rest) == [e] + used[1..] + p.rest;
  }

  lemma ItemAndRest(n: Node, ns: seq<Node>)
    ensures ItemsInOrder([n] + ns) == Preorder(n) + ItemsInOrder(ns)
    ensures G.Words(ItemShapes([n] + ns)) + [G.SeqEnd] == G.Word(Shape(n)) + (G.Words(ItemShapes(ns)) + [G.SeqEnd])
  {
    hide Preorder, Shape, G.Word;
    assert ([n] + ns)[1..] == ns;
  }

  lemma {:induction false} ItemsRead(implicit: Resolver, es: seq<Event>, m: Memory) returns (used: seq<Event>)
    requires ParseItems(implicit, es, m).Parsed?
    ensures var p := ParseItems(implicit, es, m);
            && es == used + p.rest
            && Reads(implicit, m, used, G.Words(ItemShapes(p.node)) + [G.SeqEnd], ItemsInOrder(p.node), p.memory)
    decreases |es|, 2
  {
    NonEmpty(implicit, es, m);
    hide ParseNode, Reads;
    var p := ParseItems(implicit, es, m);
    if es[0].SequenceEnd? {
      used := [es[0]];
      assert es == [es[0]] + es[1..];
      assert G.Words(ItemShapes([])) + [G.SeqEnd] == [G.SeqEnd];
      ReadsNothing(implicit, m, es[0]);
    } else {
      ItemsStep(implicit, es, m);
      hide ParseItems, ItemShapes, ItemsInOrder, Preorder, Shape;
      var first := ParseNode(implicit, es, m);
      var u := ParseReads(implicit, es, m);
      var v := ItemsRead(implicit, first.rest, first.memory);
      var q := ParseItems(implicit, first.rest, first.memory);
      ReadsBoth(implicit, m, u, G.Word(Shape(first.node)), Preorder(first.node), first.memory,
        v, G.Words(ItemShapes(q.node)) + [G.SeqEnd], ItemsInOrder(q.node), q.memory);
      ItemAndRest(first.node, q.node);
      used := u + v;
      assert u + (v + q.rest) == u + v + q.rest;
    }
  }

  lemma PairAndRest(p: Pair, ps: seq<Pair>)
    ensures PairsInOrder([p] + ps) == Preorder(p.key) + (Preorder(p.value) + PairsInOrder(ps))
    ensures G.Words(PairShapes([p] + ps)) + [G.MapEnd] ==
              G.Word(Shape(p.key)) + (G.Word(Shape(p.value)) + (G.Words(PairShapes(ps)) + [G.MapEnd]))
  {
    hide Preorder, Shape, G.Word;
    assert ([p] + ps)[1..] == ps;
  }

  lemma {:induction false} PairsRead(implicit: Resolver, es: seq<Event>, m: Memory) returns (used: seq<Event>)
    requires ParsePairs(implicit, es, m).Parsed?
    ensures var p := ParsePairs(implicit, es, m);
            && es == used + p.rest
            && Reads(implicit, m, used, G.Words(PairShapes(p.node)) + [G.MapEnd], PairsInOrder(p.node), p.memory)
    decreases |es|, 2
  {
    NonEmpty(implicit, es, m);
    hide ParseNode, Reads;
    var p := ParsePairs(implicit, es, m);
    if es[0].MappingEnd? {
      used := [es[0]];
      assert es == [es[0]] + es[1..];
      assert G.Words(PairShapes([])) + [G.MapEnd] == [G.MapEnd];
      ReadsNothing(implicit, m, es[0]);
    } else {
      PairsStep(implicit, es, m);
      hide ParsePairs, PairShapes, PairsInOrder, Preorder, Shape;
      var k := ParseNode(implicit, es, m);
      var v := ParseNode(implicit, k.rest, k.memory);
      var q := ParsePairs(implicit, v.rest, v.memory);
      var a := ParseReads(implicit, es, m);
      var b := ParseReads(implicit, k.rest, k.memory);
      var c := PairsRead(implicit, v.rest, v.memory);
      var words := G.Words(PairShapes(q.node)) + [G.MapEnd];
      ReadsBoth(implicit, k.memory, b, G.Word(Shape(v.node)), Preorder(v.node), v.memory,
        c, words, PairsInOrder(q.node), q.memory);
      ReadsBoth(implicit, m, a, G.Word(Shape(k.node)), Preorder(k.node), k.memory,
        b + c, G.Word(Shape(v.node)) + words, Preorder(v.node) + PairsInOrder(q.node), q.memory);
      PairAndRest(Pair(k.node, v.node), q.node);
      used := a + (b + c);
      assert a + (b + (c + q.rest)) == a + (b + c) + q.rest;
    }
  }

  // ----- What can be read --------------------------------------------------------------------------------

  /** Every alias among these events stands for something when it comes. */
  ghost predicate Known(m: Memory, hs: seq<Event>) {
    forall i :: 0 <= i < |hs| && hs[i].AliasEvent? ==> Stands(m, hs, hs[i].anchor, i).Some?
  }

  /** The first k events are a node of the grammar in which all aliases are known. */
  ghost predicate NodeAt(m: Memory, es: seq<Event>, k: nat, t: G.Tree) {
    k <= |es| && G.WellFormed(t) && Kinds(es[..k]) == G.Word(t) && Known(m, Heads(es[..k]))
  }

  lemma KnownFront(m: Memory, a: seq<Event>, b: seq<Event>)
    requires Known(m, a + b)
    ensures Known(m, a)
  {
    hide Stands;
    forall i | 0 <= i < |a| && a[i].AliasEvent?
      ensures Stands(m, a, a[i].anchor, i).Some?
    {
      assert (a + b)[i] == a[i];
      StandsBefore(m, a, b, a[i].anchor, i);
    }
  }

  lemma KnownEnd(m: Memory, a: seq<Event>, mid: Memory, b: seq<Event>)
    requires Known(m, a + b) && Knows(m, a, mid)
    ensures Known(mid, b)
  {
    hide Stands, Knows;
    forall i | 0 <= i < |b| && b[i].AliasEvent?
      ensures Stands(mid, b, b[i].anchor, i).Some?
    {
      assert (a + b)[|a| + i] == b[i];
      StandsAfter(m, a, mid, b, b[i].anchor, i);
    }
  }

  lemma {:induction false} KindsLength(es: seq<Event>)
    ensures |Kinds(es)| == |es|
    ensures es != [] ==> Kinds(es)[0] == KindOf(es[0])
  {
    if es != [] {
      KindsLength(es[1..]);
    }
  }

  lemma KindsCut(es: seq<Event>, v: seq<G.Kind>, w: seq<G.Kind>)
    requires Kinds(es) == v + w
    ensures |es| == |v| + |w| && Kinds(es[..|v|]) == v && Kinds(es[|v|..]) == w
    ensures es == es[..|v|] + es[|v|..]
  {
    hide Kinds;
    KindsLength(es);
    var a, b := es[..|v|], es[|v|..];
    assert es == a + b;
    KindsConcat(a, b);
    KindsLength(a);
    assert Kinds(a) == (v + w)[..|v|] && Kinds(b) == (v + w)[|v|..];
  }

  /** The memory after a node that parses, whatever follows it. */
  lemma MemoryAfter(implicit: Resolver, used: seq<Event>, rest: seq<Event>, m: Memory)
    requires var p := ParseNode(implicit, used + rest, m); p.Parsed? && p.rest == rest
    ensures Knows(m, Heads(used), ParseNode(implicit, used + rest, m).memory)
  {
    hide ParseNode, Knows, Fits;
    var u := ParseReads(implicit, used + rest, m);
    assert |u| == |used| && u == (used + rest)[..|used|] == used;
  }

  lemma LeafParses(implicit: Resolver, used: seq<Event>, rest: seq<Event>, m: Memory)
    requires |used| == 1 && Known(m, Heads(used)) && (used[0].ScalarEvent? || used[0].AliasEvent?)
    ensures var p := ParseNode(implicit, used + rest, m); p.Parsed? && p.rest == rest
  {
    assert (used + rest)[0] == used[0] && (used + rest)[1..] == rest;
    assert used == [used[0]];
    Single(used[0]);
    var h := Heads(used);
    if used[0].AliasEvent? {
      assert Stands(m, h, h[0].anchor, 0).Some?;
    }
  }

  lemma StartsWith(es: seq<Event>, k: G.Kind, w: seq<G.Kind>)
    requires Kinds(es) == [k] + w
    ensures es != [] && KindOf(es[0]) == k && Kinds(es[1..]) == w && es == [es[0]] + es[1..]
    ensures !IsEnd(es[0]) ==> Heads(es) == [es[0]] + Heads(es[1..])
  {
    KindsLength(es);
    assert Kinds(es) == [KindOf(es[0])] + Kinds(es[1..]);
    assert Kinds(es)[1..] == Kinds(es[1..]) && ([k] + w)[1..] == w;
  }

  /** What is inside a collection is known once its start is remembered. */
  lemma KnownInside(m: Memory, e: Event, inner: seq<Event>)
    requires !IsEnd(e) && !e.AliasEvent? && Known(m, [e] + inner)
    ensures Known(Remember(m, AnchorOf(e)), inner)
  {
    forall name
      ensures Lookup(Remember(m, AnchorOf(e)).anchors, name) == Stands(m, [e], name, 1)
    {
      assert LastWith([e], name, 0) == None;
    }
    KnownEnd(m, [e], Remember(m, AnchorOf(e)), inner);
  }

  /** A word of the grammar with known aliases parses, up to its last event. */
  lemma {:induction false} NodeParses(implicit: Resolver, t: G.Tree, used: seq<Event>, rest: seq<Event>, m: Memory)
    requires G.WellFormed(t) && Kinds(used) == G.Word(t) && Known(m, Heads(used))
    ensures var p := ParseNode(implicit, used + rest, m); p.Parsed? && p.rest == rest
    decreases t, 1
  {
    hide ParseNode, ParseItems, ParsePairs, Known, Heads, Kinds;
    KindsLength(used);
    match t {
      case Alias => LeafParses(implicit, used, rest, m);
      case Scalar => LeafParses(implicit, used, rest, m);
      case Sequence(items) =>
        var w := G.Words(items) + [G.SeqEnd];
        assert G.Word(t) == [G.SeqStart] + w;
        StartsWith(used, G.SeqStart, w);
        var e, inner := used[0], used[1..];
        KnownInside(m, e, Heads(inner));
        ItemsParse(implicit, items, inner, rest, Remember(m, e.anchor));
        SequenceStep(implicit, e.anchor, e.tag, e.flow, inner + rest, m);
        assert used + rest == [SequenceStart(e.anchor, e.tag, e.flow)] + (inner + rest);
      case Mapping(items) =>
        var w := G.Words(items) + [G.MapEnd];
        assert G.Word(t) == [G.MapStart] + w;
        StartsWith(used, G.MapStart, w);
        var e, inner := used[0], used[1..];
        KnownInside(m, e, Heads(inner));
        PairsParse(implicit, items, inner, rest, Remember(m, e.anchor));
        MappingStep(implicit, e.anchor, e.tag, e.flow, inner + rest, m);
        assert used + rest == [MappingStart(e.anchor, e.tag, e.flow)] + (inner + rest);
    }
  }

  /** A first node and the memory after it. */
  lemma {:induction false} FirstParses(
    implicit: Resolver, t: G.Tree, u: seq<Event>, v: seq<Event>, rest: seq<Event>, m: Memory)
    requires G.WellFormed(t) && Kinds(u) == G.Word(t) && Known(m, Heads(u + v))
    ensures var p := ParseNode(implicit, u + v + rest, m);
            p.Parsed? && p.rest == v + rest && Known(p.memory, Heads(v))
    ensures u != [] && !(u + v + rest)[0].SequenceEnd? && !(u + v + rest)[0].MappingEnd?
    decreases t, 2
  {
    hide ParseNode, Known, Heads, Kinds, Knows, G.WellFormed;
    HeadsConcat(u, v);
    KnownFront(m, Heads(u), Heads(v));
    NodeParses(implicit, t, u, v + rest, m);
    assert u + v + rest == u + (v + rest);
    MemoryAfter(implicit, u, v + rest, m);
    KnownEnd(m, Heads(u), ParseNode(implicit, u + (v + rest), m).memory, Heads(v));
    KindsLength(u);
    assert (u + v + rest)[0] == u[0];
  }

  lemma EndParses(e: Event, used: seq<Event>, rest: seq<Event>)
    requires used == [e]
    ensures (used + rest)[0] == e && (used + rest)[1..] == rest
  {}

  lemma OneEnd(used: seq<Event>, k: G.Kind)
    requires Kinds(used) == [k]
    ensures |used| == 1 && KindOf(used[0]) == k
  {
    KindsLength(used);
  }

  lemma {:induction false} ItemsParse(implicit: Resolver, ts: G.Trees, used: seq<Event>, rest: seq<Event>, m: Memory)
    requires G.AllWellFormed(ts) && Kinds(used) == G.Words(ts) + [G.SeqEnd] && Known(m, Heads(used))
    ensures var p := ParseItems(implicit, used + rest, m); p.Parsed? && p.rest == rest
    decreases ts, 0
  {
    hide ParseNode, Known, Heads, Kinds;
    if ts.Nil? {
      assert G.Words(ts) + [G.SeqEnd] == [G.SeqEnd];
      OneEnd(used, G.SeqEnd);
      EndParses(used[0], used, rest);
    } else {
      hide ParseItems;
      var w := G.Words(ts.tail) + [G.SeqEnd];
      assert G.Words(ts) + [G.SeqEnd] == G.Word(ts.head) + w;
      KindsCut(used, G.Word(ts.head), w);
      var u, v := used[..|G.Word(ts.head)|], used[|G.Word(ts.head)|..];
      FirstParses(implicit, ts.head, u, v, rest, m);
      ItemsParse(implicit, ts.tail, v, rest, ParseNode(implicit, used + rest, m).memory);
      ItemsStep(implicit, used + rest, m);
    }
  }

  lemma {:induction false} PairsParse(implicit: Resolver, ts: G.Trees, used: seq<Event>, rest: seq<Event>, m: Memory)
    requires G.AllWellFormed(ts) && G.Paired(ts) && Kinds(used) == G.Words(ts) + [G.MapEnd] && Known(m, Heads(used))
    ensures var p := ParsePairs(implicit, used + rest, m); p.Parsed? && p.rest == rest
    decreases ts, 0
  {
    hide ParseNode, Known, Heads, Kinds;
    if ts.Nil? {
      assert G.Words(ts) + [G.MapEnd] == [G.MapEnd];
      OneEnd(used, G.MapEnd);
      EndParses(used[0], used, rest);
    } else {
      hide ParsePairs;
      var key, value, more := ts.head, ts.tail.head, ts.tail.tail;
      var x := G.Words(more) + [G.MapEnd];
      var w := G.Word(value) + x;
      assert G.Words(ts) + [G.MapEnd] == G.Word(key) + w;
      KindsCut(used, G.Word(key), w);
      var u, v := used[..|G.Word(key)|], used[|G.Word(key)|..];
      FirstParses(implicit, key, u, v, rest, m);
      var first := ParseNode(implicit, used + rest, m);
      KindsCut(v, G.Word(value), x);
      var a, b := v[..|G.Word(value)|], v[|G.Word(value)|..];
      FirstParses(implicit, value, a, b, rest, first.memory);
      PairsParse(implicit, more, b, rest, ParseNode(implicit, v + rest, first.memory).memory);
      PairsStep(implicit, used + rest, m);
    }
  }

  lemma FitsAreKnown(implicit: Resolver, m: Memory, hs: seq<Event>, ns: seq<Node>)
    requires Fits(implicit, m, hs, ns)
    ensures Known(m, hs)
  {
    hide Spells, Stands;
    forall i | 0 <= i < |hs| && hs[i].AliasEvent?
      ensures Stands(m, hs, hs[i].anchor, i).Some?
    {
      assert FitsAt(implicit, m, hs, ns, i);
    }
  }

  /** Parsing succeeds exactly if the events begin with a node of the grammar whose aliases are known. */
  lemma ParsesExactly(implicit: Resolver, es: seq<Event>, m: Memory)
    ensures ParseNode(implicit, es, m).Parsed? <==> exists k: nat, t :: NodeAt(m, es, k, t)
  {
    hide ParseNode, Known, Heads, Kinds, G.Word, G.WellFormed, Fits, Knows;
    if ParseNode(implicit, es, m).Parsed? {
      var n := ParseNode(implicit, es, m).node;
      var used := ParseReads(implicit, es, m);
      assert es[..|used|] == used;
      FitsAreKnown(implicit, m, Heads(used), Preorder(n));
      EncodeIsNode(implicit, n);
      assert NodeAt(m, es, |used|, Shape(n));
    }
    if k: nat, t :| NodeAt(m, es, k, t) {
      assert es == es[..k] + es[k..];
      NodeParses(implicit, t, es[..k], es[k..], m);
    }
  }
}
