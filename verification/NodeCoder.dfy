/**
 The parser and the encoder as they run (go-yaml/decode.go:147-308, go-yaml/encode.go:432-577):
 the parser takes events off a stream while it fills its anchor table, the encoder appends
 events to its output.  Each is proved against the functions of NodeEvents, and Reencode puts
 the two in sequence.
 */
module NodeCoder {
  import opened Wrappers
  import opened YamlTree
  import opened NodeEvents
  import opened NodeReading
  import G = EmitterGrammar

  /** A parse that first had these. */
  function After<T>(done: seq<T>, p: Parsed<seq<T>>): Parsed<seq<T>> {
    match p
    case Bad => Bad
    case Parsed(more, rest, m) => Parsed(done + more, rest, m)
  }

  lemma AfterOne<T>(done: seq<T>, t: T, p: Parsed<seq<T>>)
    ensures After(done, After([t], p)) == After(done + [t], p)
    ensures After([], p) == p
  {
    if p.Parsed? {
      assert done + ([t] + p.node) == (done + [t]) + p.node;
      assert [] + p.node == p.node;
    }
  }

  lemma ItemsAfter(implicit: Resolver, es: seq<Event>, m: Memory)
    requires es != [] && !es[0].SequenceEnd?
    ensures ParseItems(implicit, es, m) == match ParseNode(implicit, es, m)
            case Bad => Bad
            case Parsed(n, rest, m') => After([n], ParseItems(implicit, rest, m'))
  {
    hide ParseNode, ParseItems;
    ItemsStep(implicit, es, m);
  }

  lemma PairsAfter(implicit: Resolver, es: seq<Event>, m: Memory)
    requires es != [] && !es[0].MappingEnd?
    ensures ParsePairs(implicit, es, m) == match ParseNode(implicit, es, m)
            case Bad => Bad
            case Parsed(k, rest, m') => match ParseNode(implicit, rest, m')
              case Bad => Bad
              case Parsed(v, rest', m'') => After([Pair(k, v)], ParsePairs(implicit, rest', m''))
  {
    hide ParseNode, ParsePairs;
    PairsStep(implicit, es, m);
  }

  lemma ItemsEnd(implicit: Resolver, es: seq<Event>, m: Memory)
    requires es == [] || es[0].SequenceEnd?
    ensures ParseItems(implicit, es, m) == if es == [] then Bad else Parsed([], es[1..], m)
  {}

  lemma PairsEnd(implicit: Resolver, es: seq<Event>, m: Memory)
    requires es == [] || es[0].MappingEnd?
    ensures ParsePairs(implicit, es, m) == if es == [] then Bad else Parsed([], es[1..], m)
  {}

  class Parser {
    const implicit: Resolver
    var events: seq<Event>
    var anchors: map<string, nat>
    var count: nat

    constructor (implicit: Resolver, events: seq<Event>)
      ensures this.implicit == implicit && this.events == events && Now() == Memory(map[], 0)
    {
      this.implicit, this.events, anchors, count := implicit, events, map[], 0;
    }

    ghost function Now(): Memory
      reads this`anchors, this`count
    {
      Memory(anchors, count)
    }

    /** The state says what p describes: nothing on failure, else the result and what is left. */
    ghost predicate Reached<T>(r: Option<T>, p: Parsed<T>)
      reads this`events, this`anchors, this`count
    {
      match p
      case Bad => r.None?
      case Parsed(t, rest, m) => r == Some(t) && events == rest && Now() == m
    }

    /** A new node takes the next identity; an anchor is known before the node's children. */
    method NewNode(anchor: string) returns (id: nat)
      modifies this`anchors, this`count
      ensures id == old(count) && Now() == Remember(old(Now()), anchor)
    {
      id := count;
      count := count + 1;
      if anchor != "" {
        anchors := anchors[anchor := id];
      }
    }

    /** What was taken of the events spells the node; nothing can be read exactly if they begin with no node. */
    ghost predicate Spelled(r: Option<Node>, before: seq<Event>, m: Memory)
      reads this`events, this`anchors, this`count
    {
      match r
      case Some(n) =>
        exists used ::
          before == used + events && Reads(implicit, m, used, G.Word(Shape(n)), Preorder(n), Now())
      case None => !exists k: nat, t :: NodeAt(m, before, k, t)
    }

    lemma ReachedIsSpelled(r: Option<Node>, before: seq<Event>, m: Memory)
      requires Reached(r, ParseNode(implicit, before, m))
      ensures Spelled(r, before, m)
    {
      hide ParseNode, Reads, NodeAt;
      ParsesExactly(implicit, before, m);
      if r.Some? {
        var used := ParseReads(implicit, before, m);
      }
    }

    /** p.parse inside a document. */
    method Parse() returns (r: Option<Node>)
      modifies this`events, this`anchors, this`count
      ensures Reached(r, ParseNode(implicit, old(events), old(Now()))) && Spelled(r, old(events), old(Now()))
      decreases |events|, 1
    {
      hide ParseNode, Spelled;
      r := ByKind();
      ReachedIsSpelled(r, old(events), old(Now()));
    }

    /** The switch of p.parse over the kinds of events. */
    method ByKind() returns (r: Option<Node>)
      modifies this`events, this`anchors, this`count
      ensures Reached(r, ParseNode(implicit, old(events), old(Now())))
      decreases |events|, 0
    {
      hide ParseItems, ParsePairs, ParsedScalar, NodeTag, Tagged, Remember;
      if events == [] {
        return None;
      }
      var e := events[0];
      match e {
        case ScalarEvent(anchor, _, _, _) =>
          var id := NewNode(anchor);
          events := events[1..];
          return Some(ParsedScalar(implicit, e, id));
        case AliasEvent(name) =>
          if name !in anchors {
            return None;
          }
          var target := anchors[name];
          var id := NewNode("");
          events := events[1..];
          return Some(Alias(id, name, target));
        case SequenceStart(anchor, tag, flow) =>
          var id := NewNode(anchor);
          events := events[1..];
          var items := Items();
          if items.None? {
            return None;
          }
          return Some(Sequence(id, NodeTag(tag, SEQ_TAG), anchor, Style(Tagged(tag), Bare, flow), items.value));
        case MappingStart(anchor, tag, flow) =>
          var id := NewNode(anchor);
          events := events[1..];
          var pairs := Pairs();
          if pairs.None? {
            return None;
          }
          return Some(Mapping(id, NodeTag(tag, MAP_TAG), anchor, Style(Tagged(tag), Bare, flow), pairs.value));
        case _ => return None;
      }
    }

    method Items() returns (r: Option<seq<Node>>)
      modifies this`events, this`anchors, this`count
      ensures Reached(r, ParseItems(implicit, old(events), old(Now())))
      decreases |events|, 2
    {
      hide ParseNode, ParseItems;
      var items: seq<Node> := [];
      ghost var whole := ParseItems(implicit, events, Now());
      AfterOne([], Alias(0, "", 0), whole);
      while events != [] && !events[0].SequenceEnd?
        invariant |events| <= |old(events)|
        invariant whole == After(items, ParseItems(implicit, events, Now()))
        decreases |events|
      {
        ItemsAfter(implicit, events, Now());
        var child := Parse();
        if child.None? {
          return None;
        }
        AfterOne(items, child.value, ParseItems(implicit, events, Now()));
        items := items + [child.value];
      }
      ItemsEnd(implicit, events, Now());
      if events == [] {
        return None;
      }
      events := events[1..];
      assert items + [] == items;
      return Some(items);
    }

    method Pairs() returns (r: Option<seq<Pair>>)
      modifies this`events, this`anchors, this`count
      ensures Reached(r, ParsePairs(implicit, old(events), old(Now())))
      decreases |events|, 2
    {
      hide ParseNode, ParsePairs;
      var pairs: seq<Pair> := [];
      ghost var whole := ParsePairs(implicit, events, Now());
      AfterOne([], Pair(Alias(0, "", 0), Alias(0, "", 0)), whole);
      while events != [] && !events[0].MappingEnd?
        invariant |events| <= |old(events)|
        invariant whole == After(pairs, ParsePairs(implicit, events, Now()))
        decreases |events|
      {
        PairsAfter(implicit, events, Now());
        var key := Parse();
        if key.None? {
          return None;
        }
        var value := Parse();
        if value.None? {
          return None;
        }
        AfterOne(pairs, Pair(key.value, value.value), ParsePairs(implicit, events, Now()));
        pairs := pairs + [Pair(key.value, value.value)];
      }
      PairsEnd(implicit, events, Now());
      if events == [] {
        return None;
      }
      events := events[1..];
      assert pairs + [] == pairs;
      return Some(pairs);
    }
  }

  lemma Regroup(a: seq<Event>, b: seq<Event>, c: seq<Event>, d: seq<Event>)
    ensures a + b + c + d == a + (b + c + d)
  {}

  class Encoder {
    const implicit: Resolver
    var out: seq<Event>

    constructor (implicit: Resolver)
      ensures this.implicit == implicit && out == []
    {
      this.implicit, out := implicit, [];
    }

    /** A tag is dropped where the text or the kind implies it; a text may need quotes instead. */
    method ChooseTag(n: Node) returns (tag: string, forceQuoting: bool)
      requires !n.Alias?
      ensures tag == WrittenTag(implicit, n)
      ensures forceQuoting == (n.Scalar? && ForceQuoting(implicit, n))
    {
      tag, forceQuoting := n.tag, false;
      var stag := ShortTag(tag);
      if tag != "" && !n.style.tagged {
        if n.Scalar? {
          if stag == STR_TAG && n.style.quoting != Bare {
            tag := "";
          } else {
            var rtag := implicit(n.value);
            if rtag == stag {
              tag := "";
            } else if stag == STR_TAG {
              tag, forceQuoting := "", true;
            }
          }
        } else {
          var rtag := if n.Mapping? then MAP_TAG else SEQ_TAG;
          if rtag == stag {
            tag := "";
          }
        }
      }
    }

    method Node(n: Node)
      modifies this`out
      ensures out == old(out) + Encode(implicit, n)
      decreases n, 1
    {
      hide WrittenTag, ForceQuoting, LongTag, EncodeItems, EncodePairs;
      match n {
        case Alias(_, value, _) =>
          out := out + [AliasEvent(value)];
        case Scalar(_, _, value, anchor, style) =>
          var tag, forceQuoting := ChooseTag(n);
          var quoting := style.quoting;
          if quoting == Bare {
            if '\n' in value {
              quoting := Literal;
            } else if forceQuoting {
              quoting := DoubleQuoted;
            }
          }
          out := out + [ScalarEvent(anchor, LongTag(tag), value, quoting)];
        case Sequence(_, _, anchor, style, items) =>
          var tag, _ := ChooseTag(n);
          out := out + [SequenceStart(anchor, LongTag(tag), style.flow)];
          Items(items);
          out := out + [SequenceEnd];
          Regroup(old(out), [SequenceStart(anchor, LongTag(tag), style.flow)], EncodeItems(implicit, items),
            [SequenceEnd]);
        case Mapping(_, _, anchor, style, pairs) =>
          var tag, _ := ChooseTag(n);
          out := out + [MappingStart(anchor, LongTag(tag), style.flow)];
          Pairs(pairs);
          out := out + [MappingEnd];
          Regroup(old(out), [MappingStart(anchor, LongTag(tag), style.flow)], EncodePairs(implicit, pairs),
            [MappingEnd]);
      }
    }

    method Items(items: seq<YamlTree.Node>)
      modifies this`out
      ensures out == old(out) + EncodeItems(implicit, items)
      decreases items, 0
    {
      hide Encode;
      for i := 0 to |items|
        invariant out + EncodeItems(implicit, items[i..]) == old(out) + EncodeItems(implicit, items)
      {
        ghost var before := out;
        Node(items[i]);
        assert items[i..][1..] == items[i + 1..];
        assert before + EncodeItems(implicit, items[i..]) == out + EncodeItems(implicit, items[i + 1..]);
      }
    }

    method Pairs(pairs: seq<Pair>)
      modifies this`out
      ensures out == old(out) + EncodePairs(implicit, pairs)
      decreases pairs, 0
    {
      hide Encode;
      for i := 0 to |pairs|
        invariant out + EncodePairs(implicit, pairs[i..]) == old(out) + EncodePairs(implicit, pairs)
      {
        ghost var before := out;
        PairOf(pairs[i]);
        assert pairs[i..][1..] == pairs[i + 1..];
        hide EncodePair;
        assert before + EncodePairs(implicit, pairs[i..]) == out + EncodePairs(implicit, pairs[i + 1..]);
      }
    }

    method PairOf(p: Pair)
      modifies this`out
      ensures out == old(out) + EncodePair(implicit, p)
      decreases p, 0
    {
      hide Encode;
      Node(p.key);
      Node(p.value);
    }
  }

  /**
   Parse one node, encode it, parse the result.  The output is a word of the emitter's grammar;
   the second parse succeeds, reads all of it and gives the same tree, identities, anchors and
   alias targets included, exactly when no plain multi-line text was tagged as anything but a
   string.
   */
  method Reencode(implicit: Resolver, events: seq<Event>)
    returns (first: Option<Node>, out: seq<Event>, second: Option<Node>)
    requires ShortTags(implicit)
    ensures first.Some? <==> ParseNode(implicit, events, Memory(map[], 0)).Parsed?
    ensures first.Some? ==> G.WellFormed(Shape(first.value)) && Kinds(out) == G.Word(Shape(first.value))
    ensures first.Some? ==> second.Some? && second.value == Norm(implicit, first.value)
    ensures first.Some? ==> (Same(first.value, second.value) <==> BreaksAreText(first.value))
  {
    hide ParseNode, Encode, Norm, Same, BreaksAreText, Kinds, Shape, G.WellFormed, G.Word;
    var parser := new Parser(implicit, events);
    first := parser.Parse();
    out, second := [], None;
    if first.Some? {
      var n := first.value;
      var encoder := new Encoder(implicit);
      encoder.Node(n);
      out := encoder.out;
      assert out == Encode(implicit, n) == Encode(implicit, n) + [];
      RoundTrip(implicit, events, Memory(map[], 0), []);
      var again := new Parser(implicit, out);
      second := again.Parse();
      NormKeeps(implicit, n);
      EncodeIsNode(implicit, n);
    }
  }
}
