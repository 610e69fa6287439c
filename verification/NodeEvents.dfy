/**
 Node trees and event streams: parser.parse (go-yaml/decode.go:147-308) builds the one from
 the other, encoder.node (go-yaml/encode.go:432-577) goes back.

 Events are what passes between encoder, emitter, scanner and parser: an empty anchor or tag
 is none, and a tag is present exactly when the event is not implicit.  `implicit` stands for
 resolve with an empty tag: the tag a plain scalar has by its text alone.
 */
module NodeEvents {
  import opened YamlTree
  import G = EmitterGrammar

  datatype Event =
    | ScalarEvent(anchor: string, tag: string, value: string, quoting: Quoting)
    | SequenceStart(anchor: string, tag: string, flow: bool)
    | SequenceEnd
    | MappingStart(anchor: string, tag: string, flow: bool)
    | MappingEnd
    | AliasEvent(anchor: string)
    | DocumentStart
    | DocumentEnd
    | StreamStart
    | StreamEnd

  type Resolver = string -> string

  // ----- Parsing, as a function of the events still to come --------------------------------

  /** The parser's memory: the last node of each anchor, and how many nodes were made. */
  datatype Memory = Memory(anchors: map<string, nat>, count: nat)

  function Remember(m: Memory, anchor: string): Memory {
    Memory(if anchor == "" then m.anchors else m.anchors[anchor := m.count], m.count + 1)
  }

  /** p.node: explicit tag, else default tag, else the tag of the text. */
  function NodeTag(tag: string, defaultTag: string): string {
    if tag != "" && tag != "!" then ShortTag(tag) else defaultTag
  }

  predicate Tagged(tag: string) {
    tag != "" && tag != "!"
  }

  function ScalarDefault(implicit: Resolver, value: string, quoting: Quoting): string {
    if quoting != Bare then STR_TAG else if value == "<<" then MERGE_TAG else implicit(value)
  }

  function ParsedScalar(implicit: Resolver, e: Event, id: nat): Node
    requires e.ScalarEvent?
  {
    Scalar(id, NodeTag(e.tag, ScalarDefault(implicit, e.value, e.quoting)), e.value, e.anchor,
      Style(Tagged(e.tag), e.quoting, false))
  }

  datatype Parsed<+T> = Bad | Parsed(node: T, rest: seq<Event>, memory: Memory)

  function ParseNode(implicit: Resolver, es: seq<Event>, m: Memory): (r: Parsed<Node>)
    ensures r.Parsed? ==> |r.rest| < |es|
    decreases |es|, 1
  {
    if es == [] then Bad
    else
      var e, rest := es[0], es[1..];
      match e
      case ScalarEvent(anchor, _, _, _) => Parsed(ParsedScalar(implicit, e, m.count), rest, Remember(m, anchor))
      case AliasEvent(name) =>
        if name !in m.anchors then Bad
        else Parsed(Alias(m.count, name, m.anchors[name]), rest, Remember(m, ""))
      case SequenceStart(anchor, tag, flow) =>
        (match ParseItems(implicit, rest, Remember(m, anchor))
         case Bad => Bad
         case Parsed(items, rest', m') =>
           Parsed(Sequence(m.count, NodeTag(tag, SEQ_TAG), anchor, Style(Tagged(tag), Bare, flow), items), rest', m'))
      case MappingStart(anchor, tag, flow) =>
        (match ParsePairs(implicit, rest, Remember(m, anchor))
         case Bad => Bad
         case Parsed(pairs, rest', m') =>
           Parsed(Mapping(m.count, NodeTag(tag, MAP_TAG), anchor, Style(Tagged(tag), Bare, flow), pairs), rest', m'))
      case _ => Bad
  }

  function ParseItems(implicit: Resolver, es: seq<Event>, m: Memory): (r: Parsed<seq<Node>>)
    ensures r.Parsed? ==> |r.rest| < |es|
    decreases |es|, 2
  {
    if es == [] then Bad
    else if es[0].SequenceEnd? then Parsed([], es[1..], m)
    else match ParseNode(implicit, es, m)
      case Bad => Bad
      case Parsed(n, rest, m') => match ParseItems(implicit, rest, m')
        case Bad => Bad
        case Parsed(ns, rest', m'') => Parsed([n] + ns, rest', m'')
  }

  function ParsePairs(implicit: Resolver, es: seq<Event>, m: Memory): (r: Parsed<seq<Pair>>)
    ensures r.Parsed? ==> |r.rest| < |es|
    decreases |es|, 2
  {
    if es == [] then Bad
    else if es[0].MappingEnd? then Parsed([], es[1..], m)
    else match ParseNode(implicit, es, m)
      case Bad => Bad
      case Parsed(k, rest, m') => match ParseNode(implicit, rest, m')
        case Bad => Bad
        case Parsed(v, rest', m'') => match ParsePairs(implicit, rest', m'')
          case Bad => Bad
          case Parsed(ps, rest'', m''') => Parsed([Pair(k, v)] + ps, rest'', m''')
  }

  // ----- Encoding ---------------------------------------------------------------------------

  /** The tag worth writing: none when the text or the kind implies it. */
  function WrittenTag(implicit: Resolver, n: Node): string
    requires !n.Alias?
  {
    var stag := ShortTag(n.tag);
    if n.tag == "" || n.style.tagged then n.tag
    else match n
      case Scalar(_, _, value, _, style) =>
        if stag == STR_TAG && style.quoting != Bare then ""
        else if implicit(value) == stag || stag == STR_TAG then ""
        else n.tag
      case Sequence(_, _, _, _, _) => if stag == SEQ_TAG then "" else n.tag
      case _ => if stag == MAP_TAG then "" else n.tag
  }

  /** A plain text that would resolve to something else is quoted. */
  predicate ForceQuoting(implicit: Resolver, n: Node)
    requires n.Scalar?
  {
    var stag := ShortTag(n.tag);
    n.tag != "" && !n.style.tagged && n.style.quoting == Bare && stag == STR_TAG && implicit(n.value) != STR_TAG
  }

  function WrittenQuoting(implicit: Resolver, n: Node): Quoting
    requires n.Scalar?
  {
    if n.style.quoting != Bare then n.style.quoting
    else if '\n' in n.value then Literal
    else if ForceQuoting(implicit, n) then DoubleQuoted
    else Bare
  }

  function Encode(implicit: Resolver, n: Node): seq<Event>
    decreases n, 1
  {
    match n
    case Alias(_, value, _) => [AliasEvent(value)]
    case Scalar(_, _, value, anchor, _) =>
      [ScalarEvent(anchor, LongTag(WrittenTag(implicit, n)), value, WrittenQuoting(implicit, n))]
    case Sequence(_, _, anchor, style, items) =>
      [SequenceStart(anchor, LongTag(WrittenTag(implicit, n)), style.flow)] + EncodeItems(implicit, items)
        + [SequenceEnd]
    case Mapping(_, _, anchor, style, pairs) =>
      [MappingStart(anchor, LongTag(WrittenTag(implicit, n)), style.flow)] + EncodePairs(implicit, pairs) + [MappingEnd]
  }

  function EncodeItems(implicit: Resolver, ns: seq<Node>): seq<Event>
    decreases ns, 0
  {
    if ns == [] then [] else Encode(implicit, ns[0]) + EncodeItems(implicit, ns[1..])
  }

  function EncodePairs(implicit: Resolver, ps: seq<Pair>): seq<Event>
    decreases ps, 0
  {
    if ps == [] then [] else EncodePair(implicit, ps[0]) + EncodePairs(implicit, ps[1..])
  }

  function EncodePair(implicit: Resolver, p: Pair): seq<Event>
    decreases p, 0
  {
    Encode(implicit, p.key) + Encode(implicit, p.value)
  }

  // ----- The round trip ------------------------------------------------------------------------

  function NormScalar(implicit: Resolver, id: nat, tag: string, value: string, anchor: string, style: Style): Node {
    if style.quoting != Bare then Scalar(id, tag, value, anchor, style)
    else if '\n' in value then
      Scalar(id, if style.tagged then tag else STR_TAG, value, anchor, style.(quoting := Literal))
    else if value == "<<" && !style.tagged then
      Scalar(id, tag, value, anchor, style.(tagged := implicit("<<") != MERGE_TAG))
    else Scalar(id, tag, value, anchor, style)
  }

  /**
   What encoding and parsing again makes of a node.  Text and structure stay.  A plain `<<` comes
   back with its merge tag written out; a plain text with a line break comes back as a literal.
   */
  function Norm(implicit: Resolver, n: Node): Node
    decreases n, 1
  {
    match n
    case Alias(_, _, _) => n
    case Scalar(id, tag, value, anchor, style) => NormScalar(implicit, id, tag, value, anchor, style)
    case Sequence(id, tag, anchor, style, items) => Sequence(id, tag, anchor, style, NormItems(implicit, items))
    case Mapping(id, tag, anchor, style, pairs) => Mapping(id, tag, anchor, style, NormPairs(implicit, pairs))
  }

  function NormItems(implicit: Resolver, ns: seq<Node>): seq<Node>
    decreases ns, 0
  {
    if ns == [] then [] else [Norm(implicit, ns[0])] + NormItems(implicit, ns[1..])
  }

  function NormPairs(implicit: Resolver, ps: seq<Pair>): seq<Pair>
    decreases ps, 0
  {
    if ps == [] then [] else [NormPair(implicit, ps[0])] + NormPairs(implicit, ps[1..])
  }

  function NormPair(implicit: Resolver, p: Pair): Pair
    decreases p, 0
  {
    Pair(Norm(implicit, p.key), Norm(implicit, p.value))
  }

  /** Implicit tags are short tags. */
  ghost predicate ShortTags(implicit: Resolver) {
    forall v :: ShortTag(implicit(v)) == implicit(v)
  }

  lemma ShortTagTwice(tag: string)
    ensures ShortTag(ShortTag(tag)) == ShortTag(tag)
  {
    if LONG_PREFIX <= tag {
      assert ShortTag(tag)[0] == '!' && LONG_PREFIX[0] == 't';
    }
  }

  lemma ConstantsAreShort()
    ensures ShortTag(STR_TAG) == STR_TAG && ShortTag(SEQ_TAG) == SEQ_TAG && ShortTag(MAP_TAG) == MAP_TAG
              && ShortTag(MERGE_TAG) == MERGE_TAG
    ensures MERGE_TAG != STR_TAG
  {
    assert LONG_PREFIX[0] == 't' && STR_TAG[0] == '!' && SEQ_TAG[0] == '!' && MAP_TAG[0] == '!' && MERGE_TAG[0] == '!';
    assert MERGE_TAG[2] != STR_TAG[2];
  }

  /** A tag that was given explicitly is written and read back as it is. */
  lemma ExplicitTag(tag: string)
    requires Tagged(tag)
    ensures var t := ShortTag(tag); Tagged(LongTag(t)) && ShortTag(LongTag(t)) == t && t != ""
  {
    ShortTagTwice(tag);
    ShortOfLong(ShortTag(tag));
    var t := ShortTag(tag);
    if "!!" <= t {
      assert |LongTag(t)| >= |LONG_PREFIX| > 1;
    } else {
      assert LongTag(t) == t == tag;
    }
  }

  lemma ScalarRoundTrip(implicit: Resolver, e: Event, id: nat)
    requires ShortTags(implicit) && e.ScalarEvent?
    ensures var n := ParsedScalar(implicit, e, id); var es := Encode(implicit, n);
            |es| == 1 && es[0].ScalarEvent? && es[0].anchor == e.anchor
              && ParsedScalar(implicit, es[0], id) == Norm(implicit, n)
  {
    ConstantsAreShort();
    if Tagged(e.tag) {
      ExplicitTag(e.tag);
    }
    assert LongTag("") == "";
    if !Tagged(e.tag) && e.quoting == Bare && e.value == "<<" {
      ShortOfLong(MERGE_TAG);
      assert LongTag(MERGE_TAG) != "" && LongTag(MERGE_TAG) != "!";
    }
  }

  /**
   A scalar made by hand, with a short tag: its text and anchor always come back, its tag exactly
   unless its text resolves to that tag but is written in quotes or as a literal, or is a bare `<<` that
   resolves to a tag other than the merge tag.
   */
  lemma TagSurvives(implicit: Resolver, n: Node)
    requires ShortTags(implicit) && n.Scalar? && Tagged(n.tag) && ShortTag(n.tag) == n.tag
    ensures Encode(implicit, n) == [Encode(implicit, n)[0]] && Encode(implicit, n)[0].ScalarEvent?
    ensures var back := ParsedScalar(implicit, Encode(implicit, n)[0], n.id);
            && back.value == n.value && back.anchor == n.anchor
            && (back.tag == n.tag <==>
                  || n.style.tagged || implicit(n.value) != n.tag
                  || if n.style.quoting != Bare || '\n' in n.value then n.tag == "!!str"
                     else n.value == "<<" ==> n.tag == "!!merge")
  {
    ConstantsAreShort();
    ExplicitTag(n.tag);
    assert LongTag("") == "";
  }

  /** The tag of a collection, explicit or not, survives. */
  lemma CollectionTag(implicit: Resolver, n: Node, tag: string)
    requires (n.Sequence? && n.tag == NodeTag(tag, SEQ_TAG)) || (n.Mapping? && n.tag == NodeTag(tag, MAP_TAG))
    requires n.style.tagged == Tagged(tag)
    ensures var w := LongTag(WrittenTag(implicit, n));
            Tagged(w) == Tagged(tag) && NodeTag(w, if n.Sequence? then SEQ_TAG else MAP_TAG) == n.tag
  {
    ConstantsAreShort();
    if Tagged(tag) {
      ExplicitTag(tag);
    }
    assert LongTag("") == "";
  }

  lemma ItemsStep(implicit: Resolver, es: seq<Event>, m: Memory)
    requires es != [] && !es[0].SequenceEnd?
    ensures ParseItems(implicit, es, m) == match ParseNode(implicit, es, m)
            case Bad => Bad
            case Parsed(n, rest, m') => match ParseItems(implicit, rest, m')
              case Bad => Bad
              case Parsed(ns, rest', m'') => Parsed([n] + ns, rest', m'')
  {
    hide ParseNode;
  }

  lemma PairsStep(implicit: Resolver, es: seq<Event>, m: Memory)
    requires es != [] && !es[0].MappingEnd?
    ensures ParsePairs(implicit, es, m) == match ParseNode(implicit, es, m)
            case Bad => Bad
            case Parsed(k, rest, m') => match ParseNode(implicit, rest, m')
              case Bad => Bad
              case Parsed(v, rest', m'') => match ParsePairs(implicit, rest', m'')
                case Bad => Bad
                case Parsed(ps, rest'', m''') => Parsed([Pair(k, v)] + ps, rest'', m''')
  {
    hide ParseNode;
  }

  lemma NonEmpty(implicit: Resolver, es: seq<Event>, m: Memory)
    ensures ParseNode(implicit, es, m).Parsed? ==> es != []
    ensures ParseItems(implicit, es, m).Parsed? || ParsePairs(implicit, es, m).Parsed? ==> es != []
  {}

  /** What is at the front of an encoding, whatever follows. */
  lemma EncodeFront(implicit: Resolver, n: Node, tail: seq<Event>)
    ensures var es := Encode(implicit, n) + tail; es != [] && !es[0].SequenceEnd? && !es[0].MappingEnd?
  {
    hide WrittenTag, WrittenQuoting, LongTag;
    var es := Encode(implicit, n);
    assert (es + tail)[0] == es[0];
  }

  lemma SequenceStep(implicit: Resolver, anchor: string, tag: string, flow: bool, es: seq<Event>, m: Memory)
    ensures ([SequenceStart(anchor, tag, flow)] + es)[1..] == es
    ensures ParseNode(implicit, [SequenceStart(anchor, tag, flow)] + es, m) ==
              match ParseItems(implicit, es, Remember(m, anchor))
            case Bad => Bad
            case Parsed(items, rest, m') =>
              Parsed(Sequence(m.count, NodeTag(tag, SEQ_TAG), anchor, Style(Tagged(tag), Bare, flow), items), rest, m')
  {
    hide ParseItems, ParsePairs, Remember, NodeTag, Tagged, ParsedScalar;
    assert ([SequenceStart(anchor, tag, flow)] + es)[1..] == es;
  }

  lemma MappingStep(implicit: Resolver, anchor: string, tag: string, flow: bool, es: seq<Event>, m: Memory)
    ensures ([MappingStart(anchor, tag, flow)] + es)[1..] == es
    ensures ParseNode(implicit, [MappingStart(anchor, tag, flow)] + es, m) ==
              match ParsePairs(implicit, es, Remember(m, anchor))
            case Bad => Bad
            case Parsed(pairs, rest, m') =>
              Parsed(Mapping(m.count, NodeTag(tag, MAP_TAG), anchor, Style(Tagged(tag), Bare, flow), pairs), rest, m')
  {
    hide ParseItems, ParsePairs, Remember, NodeTag, Tagged, ParsedScalar;
    assert ([MappingStart(anchor, tag, flow)] + es)[1..] == es;
  }

  lemma LeafBack(implicit: Resolver, es: seq<Event>, m: Memory, tail: seq<Event>)
    requires ShortTags(implicit) && ParseNode(implicit, es, m).Parsed? && !es[0].SequenceStart? && !es[0].MappingStart?
    ensures var p := ParseNode(implicit, es, m);
            ParseNode(implicit, Encode(implicit, p.node) + tail, m) == Parsed(Norm(implicit, p.node), tail, p.memory)
  {
    hide ParseItems, ParsePairs, ParsedScalar, WrittenTag, WrittenQuoting, NormScalar;
    var p, e := ParseNode(implicit, es, m), es[0];
    var out := Encode(implicit, p.node);
    if e.ScalarEvent? {
      hide Encode, Norm;
      ScalarRoundTrip(implicit, e, m.count);
    }
    assert (out + tail)[0] == out[0] && (out + tail)[1..] == tail;
  }

  lemma SequenceBack(implicit: Resolver, anchor: string, tag: string, flow: bool, rest: seq<Event>, m: Memory,
    tail: seq<Event>)
    requires var q := ParseItems(implicit, rest, Remember(m, anchor));
             q.Parsed?
             && ParseItems(implicit, EncodeItems(implicit, q.node) + [SequenceEnd] + tail, Remember(m, anchor))
               == Parsed(NormItems(implicit, q.node), tail, q.memory)
    ensures var p := ParseNode(implicit, [SequenceStart(anchor, tag, flow)] + rest, m);
            p.Parsed? && ParseNode(implicit, Encode(implicit, p.node) + tail, m) ==
              Parsed(Norm(implicit, p.node), tail, p.memory)
  {
    hide ParseNode, ParseItems, Remember, NodeTag, Tagged, WrittenTag, LongTag, EncodeItems, NormItems;
    SequenceStep(implicit, anchor, tag, flow, rest, m);
    var n := ParseNode(implicit, [SequenceStart(anchor, tag, flow)] + rest, m).node;
    CollectionTag(implicit, n, tag);
    var w, body := LongTag(WrittenTag(implicit, n)), EncodeItems(implicit, n.items);
    SequenceStep(implicit, anchor, w, flow, body + [SequenceEnd] + tail, m);
    assert Encode(implicit, n) + tail == [SequenceStart(anchor, w, flow)] + (body + [SequenceEnd] + tail);
  }

  lemma MappingBack(implicit: Resolver, anchor: string, tag: string, flow: bool, rest: seq<Event>, m: Memory,
    tail: seq<Event>)
    requires var q := ParsePairs(implicit, rest, Remember(m, anchor));
             q.Parsed? && ParsePairs(implicit, EncodePairs(implicit, q.node) + [MappingEnd] + tail, Remember(m, anchor))
               == Parsed(NormPairs(implicit, q.node), tail, q.memory)
    ensures var p := ParseNode(implicit, [MappingStart(anchor, tag, flow)] + rest, m);
            p.Parsed? && ParseNode(implicit, Encode(implicit, p.node) + tail, m) ==
              Parsed(Norm(implicit, p.node), tail, p.memory)
  {
    hide ParseNode, ParsePairs, Remember, NodeTag, Tagged, WrittenTag, LongTag, EncodePairs, NormPairs;
    MappingStep(implicit, anchor, tag, flow, rest, m);
    var n := ParseNode(implicit, [MappingStart(anchor, tag, flow)] + rest, m).node;
    CollectionTag(implicit, n, tag);
    var w, body := LongTag(WrittenTag(implicit, n)), EncodePairs(implicit, n.pairs);
    MappingStep(implicit, anchor, w, flow, body + [MappingEnd] + tail, m);
    assert Encode(implicit, n) + tail == [MappingStart(anchor, w, flow)] + (body + [MappingEnd] + tail);
  }

  /** Encoding a parsed node and parsing again gives the node back, up to Norm, whatever follows. */
  lemma {:induction false} RoundTrip(implicit: Resolver, es: seq<Event>, m: Memory, tail: seq<Event>)
    requires ShortTags(implicit) && ParseNode(implicit, es, m).Parsed?
    ensures var p := ParseNode(implicit, es, m);
            ParseNode(implicit, Encode(implicit, p.node) + tail, m) == Parsed(Norm(implicit, p.node), tail, p.memory)
    decreases |es|, 1
  {
    hide ParseNode, ParseItems, ParsePairs, Encode, Norm, ShortTags;
    NonEmpty(implicit, es, m);
    var e, rest := es[0], es[1..];
    assert es == [e] + rest;
    match e {
      case SequenceStart(anchor, tag, flow) =>
        SequenceStep(implicit, anchor, tag, flow, rest, m);
        ItemsRoundTrip(implicit, rest, Remember(m, anchor), tail);
        SequenceBack(implicit, anchor, tag, flow, rest, m, tail);
      case MappingStart(anchor, tag, flow) =>
        MappingStep(implicit, anchor, tag, flow, rest, m);
        PairsRoundTrip(implicit, rest, Remember(m, anchor), tail);
        MappingBack(implicit, anchor, tag, flow, rest, m, tail);
      case _ => LeafBack(implicit, es, m, tail);
    }
  }

  lemma ItemsFront(implicit: Resolver, n: Node, ns: seq<Node>, tail: seq<Event>)
    ensures EncodeItems(implicit, [n] + ns) + [SequenceEnd] + tail
            == Encode(implicit, n) + (EncodeItems(implicit, ns) + [SequenceEnd] + tail)
    ensures NormItems(implicit, [n] + ns) == [Norm(implicit, n)] + NormItems(implicit, ns)
  {
    hide Encode, Norm;
    assert ([n] + ns)[1..] == ns;
  }

  lemma {:induction false} ItemsRoundTrip(implicit: Resolver, es: seq<Event>, m: Memory, tail: seq<Event>)
    requires ShortTags(implicit) && ParseItems(implicit, es, m).Parsed?
    ensures var p := ParseItems(implicit, es, m);
            ParseItems(implicit, EncodeItems(implicit, p.node) + [SequenceEnd] + tail, m) ==
              Parsed(NormItems(implicit, p.node), tail, p.memory)
    decreases |es|, 2
  {
    NonEmpty(implicit, es, m);
    if es[0].SequenceEnd? {
      hide ParseNode;
      assert EncodeItems(implicit, []) + [SequenceEnd] + tail == [SequenceEnd] + tail;
    } else {
      hide ParseNode, ParseItems, Encode, Norm, ShortTags, EncodeItems, NormItems;
      ItemsStep(implicit, es, m);
      var first := ParseNode(implicit, es, m);
      var ns := ParseItems(implicit, first.rest, first.memory).node;
      var more := EncodeItems(implicit, ns) + [SequenceEnd] + tail;
      ItemsRoundTrip(implicit, first.rest, first.memory, tail);
      RoundTrip(implicit, es, m, more);
      EncodeFront(implicit, first.node, more);
      ItemsStep(implicit, Encode(implicit, first.node) + more, m);
      ItemsFront(implicit, first.node, ns, tail);
    }
  }

  lemma PairsFront(implicit: Resolver, p: Pair, ps: seq<Pair>, tail: seq<Event>)
    ensures EncodePairs(implicit, [p] + ps) + [MappingEnd] + tail
            == Encode(implicit, p.key) + (Encode(implicit, p.value) + (EncodePairs(implicit, ps) + [MappingEnd] + tail))
    ensures NormPairs(implicit, [p] + ps) ==
              [Pair(Norm(implicit, p.key), Norm(implicit, p.value))] + NormPairs(implicit, ps)
  {
    hide Encode, Norm;
    assert ([p] + ps)[1..] == ps;
  }

  lemma {:induction false} PairsRoundTrip(implicit: Resolver, es: seq<Event>, m: Memory, tail: seq<Event>)
    requires ShortTags(implicit) && ParsePairs(implicit, es, m).Parsed?
    ensures var p := ParsePairs(implicit, es, m);
            ParsePairs(implicit, EncodePairs(implicit, p.node) + [MappingEnd] + tail, m) ==
              Parsed(NormPairs(implicit, p.node), tail, p.memory)
    decreases |es|, 2
  {
    NonEmpty(implicit, es, m);
    if es[0].MappingEnd? {
      hide ParseNode;
      assert EncodePairs(implicit, []) + [MappingEnd] + tail == [MappingEnd] + tail;
    } else {
      hide ParseNode, ParsePairs, Encode, Norm, ShortTags, EncodePairs, NormPairs;
      PairsStep(implicit, es, m);
      var k := ParseNode(implicit, es, m);
      var v := ParseNode(implicit, k.rest, k.memory);
      var ps := ParsePairs(implicit, v.rest, v.memory).node;
      var more := EncodePairs(implicit, ps) + [MappingEnd] + tail;
      var all := Encode(implicit, k.node) + (Encode(implicit, v.node) + more);
      PairsRoundTrip(implicit, v.rest, v.memory, tail);
      RoundTrip(implicit, k.rest, k.memory, more);
      RoundTrip(implicit, es, m, Encode(implicit, v.node) + more);
      EncodeFront(implicit, k.node, Encode(implicit, v.node) + more);
      PairsStep(implicit, all, m);
      PairsFront(implicit, Pair(k.node, v.node), ps, tail);
    }
  }

  // ----- What the round trip keeps ---------------------------------------------------------------

  /** Equal but for the style flags. */
  predicate Same(a: Node, b: Node)
    decreases a, 1
  {
    match a
    case Alias(_, _, _) => b == a
    case Scalar(id, tag, value, anchor, _) =>
      b.Scalar? && b.id == id && b.tag == tag && b.value == value && b.anchor == anchor
    case Sequence(id, tag, anchor, _, items) =>
      b.Sequence? && b.id == id && b.tag == tag && b.anchor == anchor && SameItems(items, b.items)
    case Mapping(id, tag, anchor, _, pairs) =>
      b.Mapping? && b.id == id && b.tag == tag && b.anchor == anchor && SamePairs(pairs, b.pairs)
  }

  predicate SameItems(a: seq<Node>, b: seq<Node>)
    decreases a, 0
  {
    |a| == |b| && (a != [] ==> Same(a[0], b[0]) && SameItems(a[1..], b[1..]))
  }

  predicate SamePairs(a: seq<Pair>, b: seq<Pair>)
    decreases a, 0
  {
    |a| == |b| && (a != [] ==> SamePair(a[0], b[0]) && SamePairs(a[1..], b[1..]))
  }

  predicate SamePair(a: Pair, b: Pair)
    decreases a, 0
  {
    Same(a.key, b.key) && Same(a.value, b.value)
  }

  /** No plain untagged text with a line break resolves to anything but a string. */
  predicate BreaksAreText(n: Node)
    decreases n, 1
  {
    match n
    case Alias(_, _, _) => true
    case Scalar(_, tag, value, _, style) => style.quoting == Bare && !style.tagged && '\n' in value ==> tag == STR_TAG
    case Sequence(_, _, _, _, items) => ItemsText(items)
    case Mapping(_, _, _, _, pairs) => PairsText(pairs)
  }

  predicate ItemsText(ns: seq<Node>)
    decreases ns, 0
  {
    ns == [] || (BreaksAreText(ns[0]) && ItemsText(ns[1..]))
  }

  predicate PairsText(ps: seq<Pair>)
    decreases ps, 0
  {
    ps == [] || (PairText(ps[0]) && PairsText(ps[1..]))
  }

  predicate PairText(p: Pair)
    decreases p, 0
  {
    BreaksAreText(p.key) && BreaksAreText(p.value)
  }

  /**
   Kinds, values, tags, anchors, alias targets and children are kept exactly when no plain
   text with a line break carries a tag other than !!str.
   */
  lemma {:induction false} NormKeeps(implicit: Resolver, n: Node)
    ensures Same(n, Norm(implicit, n)) <==> BreaksAreText(n)
    decreases n, 1
  {
    match n {
      case Alias(_, _, _) =>
      case Scalar(_, _, _, _, _) =>
      case Sequence(_, _, _, _, items) => ItemsKept(implicit, items);
      case Mapping(_, _, _, _, pairs) => PairsKept(implicit, pairs);
    }
  }

  lemma {:induction false} ItemsKept(implicit: Resolver, ns: seq<Node>)
    ensures SameItems(ns, NormItems(implicit, ns)) <==> ItemsText(ns)
    ensures |NormItems(implicit, ns)| == |ns|
    decreases ns, 0
  {
    if ns != [] {
      NormKeeps(implicit, ns[0]);
      ItemsKept(implicit, ns[1..]);
      assert NormItems(implicit, ns)[1..] == NormItems(implicit, ns[1..]);
    }
  }

  lemma {:induction false} PairsKept(implicit: Resolver, ps: seq<Pair>)
    ensures SamePairs(ps, NormPairs(implicit, ps)) <==> PairsText(ps)
    ensures |NormPairs(implicit, ps)| == |ps|
    decreases ps, 0
  {
    if ps != [] {
      PairKept(implicit, ps[0]);
      PairsKept(implicit, ps[1..]);
      assert NormPairs(implicit, ps)[1..] == NormPairs(implicit, ps[1..]);
    }
  }

  lemma PairKept(implicit: Resolver, p: Pair)
    ensures SamePair(p, NormPair(implicit, p)) <==> PairText(p)
    decreases p, 0
  {
    NormKeeps(implicit, p.key);
    NormKeeps(implicit, p.value);
  }

  /** The event-level round trip of a whole document. */
  lemma ParseEncodeParse(implicit: Resolver, es: seq<Event>, m: Memory)
    requires ShortTags(implicit) && ParseNode(implicit, es, m).Parsed? && BreaksAreText(ParseNode(implicit, es, m).node)
    ensures var n := ParseNode(implicit, es, m).node;
            var again := ParseNode(implicit, Encode(implicit, n), m);
            again.Parsed? && again.rest == [] && Same(n, again.node)
  {
    var n := ParseNode(implicit, es, m).node;
    RoundTrip(implicit, es, m, []);
    assert Encode(implicit, n) + [] == Encode(implicit, n);
    NormKeeps(implicit, n);
  }

  // ----- Encoded events are the emitter's language -------------------------------------------------

  function KindOf(e: Event): G.Kind {
    match e
    case ScalarEvent(_, _, _, _) => G.ScalarEvent
    case SequenceStart(_, _, _) => G.SeqStart
    case SequenceEnd => G.SeqEnd
    case MappingStart(_, _, _) => G.MapStart
    case MappingEnd => G.MapEnd
    case AliasEvent(_) => G.AliasEvent
    case DocumentStart => G.DocStart
    case DocumentEnd => G.DocEnd
    case StreamStart => G.StreamStart
    case StreamEnd => G.StreamEnd
  }

  function Kinds(es: seq<Event>): seq<G.Kind> {
    if es == [] then [] else [KindOf(es[0])] + Kinds(es[1..])
  }

  lemma {:induction false} KindsConcat(a: seq<Event>, b: seq<Event>)
    ensures Kinds(a + b) == Kinds(a) + Kinds(b)
  {
    if a == [] {
      assert a + b == b;
    } else {
      assert (a + b)[0] == a[0] && (a + b)[1..] == a[1..] + b;
      KindsConcat(a[1..], b);
    }
  }

  function Shape(n: Node): G.Tree
    decreases n, 1
  {
    match n
    case Alias(_, _, _) => G.Alias
    case Scalar(_, _, _, _, _) => G.Scalar
    case Sequence(_, _, _, _, items) => G.Sequence(ItemShapes(items))
    case Mapping(_, _, _, _, pairs) => G.Mapping(PairShapes(pairs))
  }

  function ItemShapes(ns: seq<Node>): G.Trees
    decreases ns, 0
  {
    if ns == [] then G.Nil else G.Cons(Shape(ns[0]), ItemShapes(ns[1..]))
  }

  function PairShapes(ps: seq<Pair>): G.Trees
    decreases ps, 0
  {
    if ps == [] then G.Nil else PairShape(ps[0], PairShapes(ps[1..]))
  }

  function PairShape(p: Pair, rest: G.Trees): G.Trees
    decreases p, 0
  {
    G.Cons(Shape(p.key), G.Cons(Shape(p.value), rest))
  }

  /** Whatever tree is encoded, its events are a node of the emitter's grammar. */
  lemma {:induction false} EncodeIsNode(implicit: Resolver, n: Node)
    ensures G.WellFormed(Shape(n)) && Kinds(Encode(implicit, n)) == G.Word(Shape(n))
    decreases n, 1
  {
    match n {
      case Alias(_, _, _) =>
      case Scalar(_, _, _, _, _) =>
      case Sequence(_, _, anchor, style, items) =>
        var start := SequenceStart(anchor, LongTag(WrittenTag(implicit, n)), style.flow);
        ItemsAreNodes(implicit, items);
        KindsConcat([start] + EncodeItems(implicit, items), [SequenceEnd]);
        KindsConcat([start], EncodeItems(implicit, items));
      case Mapping(_, _, anchor, style, pairs) =>
        var start := MappingStart(anchor, LongTag(WrittenTag(implicit, n)), style.flow);
        PairsAreNodes(implicit, pairs);
        KindsConcat([start] + EncodePairs(implicit, pairs), [MappingEnd]);
        KindsConcat([start], EncodePairs(implicit, pairs));
    }
  }

  lemma {:induction false} ItemsAreNodes(implicit: Resolver, ns: seq<Node>)
    ensures G.AllWellFormed(ItemShapes(ns)) && Kinds(EncodeItems(implicit, ns)) == G.Words(ItemShapes(ns))
    decreases ns, 0
  {
    if ns != [] {
      EncodeIsNode(implicit, ns[0]);
      ItemsAreNodes(implicit, ns[1..]);
      KindsConcat(Encode(implicit, ns[0]), EncodeItems(implicit, ns[1..]));
    }
  }

  lemma {:induction false} PairsAreNodes(implicit: Resolver, ps: seq<Pair>)
    ensures G.Paired(PairShapes(ps)) && G.AllWellFormed(PairShapes(ps))
    ensures Kinds(EncodePairs(implicit, ps)) == G.Words(PairShapes(ps))
    decreases ps, 0
  {
    if ps != [] {
      PairsAreNodes(implicit, ps[1..]);
      PairIsNodes(implicit, ps[0], PairShapes(ps[1..]));
      KindsConcat(EncodePair(implicit, ps[0]), EncodePairs(implicit, ps[1..]));
    }
  }

  lemma {:induction false} PairIsNodes(implicit: Resolver, p: Pair, rest: G.Trees)
    requires G.Paired(rest) && G.AllWellFormed(rest)
    ensures G.Paired(PairShape(p, rest)) && G.AllWellFormed(PairShape(p, rest))
    ensures G.Words(PairShape(p, rest)) == Kinds(EncodePair(implicit, p)) + G.Words(rest)
    decreases p, 0
  {
    hide Encode, Shape, Kinds, G.Word, G.WellFormed;
    EncodeIsNode(implicit, p.key);
    EncodeIsNode(implicit, p.value);
    KindsConcat(Encode(implicit, p.key), Encode(implicit, p.value));
  }
}
