/**
 The language of event streams and a small push-down recogniser for it.

 The grammar is the one the emitter's comments and tests promise: a stream is START
 document* END, a document START node END, a node an alias, a scalar, a sequence of
 nodes or a mapping of node pairs.  Emitter.dfy shows that the twenty-state machine of
 go-yaml/emitterc.go moves exactly as this recogniser does.
 */
module EmitterGrammar {
  import opened Wrappers

  datatype Kind =
    | StreamStart | StreamEnd | DocStart | DocEnd
    | AliasEvent | ScalarEvent | SeqStart | SeqEnd | MapStart | MapEnd

  // ----- The grammar ---------------------------------------------------------------

  datatype Tree = Alias | Scalar | Sequence(items: Trees) | Mapping(items: Trees)
  datatype Trees = Nil | Cons(head: Tree, tail: Trees)

  predicate Paired(ts: Trees) {
    ts.Nil? || (ts.tail.Cons? && Paired(ts.tail.tail))
  }

  /** Mappings hold keys and values in turn. */
  predicate WellFormed(t: Tree) {
    match t
    case Sequence(items) => AllWellFormed(items)
    case Mapping(items) => Paired(items) && AllWellFormed(items)
    case _ => true
  }

  predicate AllWellFormed(ts: Trees) {
    ts.Nil? || (WellFormed(ts.head) && AllWellFormed(ts.tail))
  }

  function Word(t: Tree): seq<Kind> {
    match t
    case Alias => [AliasEvent]
    case Scalar => [ScalarEvent]
    case Sequence(items) => [SeqStart] + Words(items) + [SeqEnd]
    case Mapping(items) => [MapStart] + Words(items) + [MapEnd]
  }

  function Words(ts: Trees): seq<Kind> {
    if ts.Nil? then [] else Word(ts.head) + Words(ts.tail)
  }

  function DocumentWord(t: Tree): seq<Kind> {
    [DocStart] + Word(t) + [DocEnd]
  }

  function DocumentWords(ts: Trees): seq<Kind> {
    if ts.Nil? then [] else DocumentWord(ts.head) + DocumentWords(ts.tail)
  }

  function StreamWord(docs: Trees): seq<Kind> {
    [StreamStart] + DocumentWords(docs) + [StreamEnd]
  }

  // ----- The recogniser --------------------------------------------------------------

  /** What an open collection expects next. */
  datatype Frame = Item | Key | Value

  datatype Phase =
    | Fresh               // before the stream
    | Between             // before a document or the end of the stream
    | Root                // before the root node
    | Inside(open: seq<Frame>)
    | Close               // before the end of the document
    | Done

  /** The open collections once a node has been placed. */
  function Advance(open: seq<Frame>): seq<Frame> {
    if open == [] then []
    else
      var top := open[|open| - 1];
      open[..|open| - 1] + [if top == Key then Value else if top == Value then Key else Item]
  }

  function Settle(open: seq<Frame>): Phase {
    if open == [] then Close else Inside(open)
  }

  /** A node event, with open the collections around it. */
  function Node(open: seq<Frame>, k: Kind): Option<Phase> {
    match k
    case AliasEvent => Some(Settle(Advance(open)))
    case ScalarEvent => Some(Settle(Advance(open)))
    case SeqStart => Some(Inside(Advance(open) + [Item]))
    case MapStart => Some(Inside(Advance(open) + [Key]))
    case _ => None
  }

  function Next(p: Phase, k: Kind): Option<Phase> {
    match p
    case Fresh => if k == StreamStart then Some(Between) else None
    case Between => if k == DocStart then Some(Root) else if k == StreamEnd then Some(Done) else None
    case Root => Node([], k)
    case Close => if k == DocEnd then Some(Between) else None
    case Done => None
    case Inside(open) =>
      if open == [] then None
      else
        var top := open[|open| - 1];
        if (top == Item && k == SeqEnd) || (top == Key && k == MapEnd) then Some(Settle(open[..|open| - 1]))
        else Node(open, k)
  }

  function Run(p: Phase, w: seq<Kind>): Option<Phase>
    decreases |w|
  {
    if w == [] then Some(p)
    else match Next(p, w[0])
      case None => None
      case Some(p') => Run(p', w[1..])
  }

  lemma {:induction false} RunConcat(p: Phase, v: seq<Kind>, w: seq<Kind>)
    ensures Run(p, v + w) == match Run(p, v) case None => None case Some(q) => Run(q, w)
    decreases |v|
  {
    if v == [] {
      assert v + w == w;
    } else {
      assert (v + w)[0] == v[0] && (v + w)[1..] == v[1..] + w;
      if Next(p, v[0]).Some? {
        RunConcat(Next(p, v[0]).value, v[1..], w);
      }
    }
  }

  lemma RunOne(p: Phase, k: Kind)
    ensures Run(p, [k]) == Next(p, k)
  {
    if Next(p, k).Some? {
      assert [k][1..] == [];
    }
  }

  // ----- Every word of the grammar is accepted -----------------------------------------

  /** The phase in which a node is expected inside open. */
  function Expecting(open: seq<Frame>): Phase {
    if open == [] then Root else Inside(open)
  }

  /** Cut a collection's word into its start, its content and its end. */
  lemma CollectionRuns(start: Kind, items: Trees, end: Kind, open: seq<Frame>)
    requires (start == SeqStart && end == SeqEnd) || (start == MapStart && end == MapEnd)
    ensures var inner := Inside(Advance(open) + [if start == SeqStart then Item else Key]);
            Run(inner, Words(items)) == Some(inner) ==>
              Run(Expecting(open), [start] + Words(items) + [end]) == Some(Settle(Advance(open)))
  {
    var p, after := Expecting(open), Advance(open);
    var inner := Inside(after + [if start == SeqStart then Item else Key]);
    RunConcat(p, [start] + Words(items), [end]);
    RunConcat(p, [start], Words(items));
    RunOne(p, start);
    RunOne(inner, end);
    assert (after + [Item])[..|after|] == after && (after + [Key])[..|after|] == after;
  }

  lemma {:induction false} WordRuns(t: Tree, open: seq<Frame>)
    requires WellFormed(t)
    ensures Run(Expecting(open), Word(t)) == Some(Settle(Advance(open)))
    decreases t, 1
  {
    var p, after := Expecting(open), Advance(open);
    match t {
      case Alias => RunOne(p, AliasEvent);
      case Scalar => RunOne(p, ScalarEvent);
      case Sequence(items) =>
        CollectionRuns(SeqStart, items, SeqEnd, open);
        ItemsRun(items, after);
      case Mapping(items) =>
        CollectionRuns(MapStart, items, MapEnd, open);
        PairsRun(items, after);
    }
  }

  lemma {:induction false} ItemsRun(ts: Trees, open: seq<Frame>)
    requires AllWellFormed(ts)
    ensures Run(Inside(open + [Item]), Words(ts)) == Some(Inside(open + [Item]))
    decreases ts, 0
  {
    if ts.Cons? {
      WordRuns(ts.head, open + [Item]);
      assert Advance(open + [Item]) == open + [Item];
      ItemsRun(ts.tail, open);
      RunConcat(Inside(open + [Item]), Word(ts.head), Words(ts.tail));
    }
  }

  lemma {:induction false} PairsRun(ts: Trees, open: seq<Frame>)
    requires AllWellFormed(ts) && Paired(ts)
    ensures Run(Inside(open + [Key]), Words(ts)) == Some(Inside(open + [Key]))
    decreases ts, 0
  {
    if ts.Cons? {
      var rest := ts.tail;
      WordRuns(ts.head, open + [Key]);
      assert Advance(open + [Key]) == open + [Value];
      WordRuns(rest.head, open + [Value]);
      assert Advance(open + [Value]) == open + [Key];
      PairsRun(rest.tail, open);
      RunConcat(Inside(open + [Key]), Word(ts.head), Words(rest));
      RunConcat(Inside(open + [Value]), Word(rest.head), Words(rest.tail));
    }
  }

  lemma {:induction false} DocumentsRun(docs: Trees)
    requires AllWellFormed(docs)
    ensures Run(Between, DocumentWords(docs)) == Some(Between)
  {
    if docs.Cons? {
      var t := docs.head;
      RunConcat(Between, DocumentWord(t), DocumentWords(docs.tail));
      RunConcat(Between, [DocStart] + Word(t), [DocEnd]);
      RunConcat(Between, [DocStart], Word(t));
      RunOne(Between, DocStart);
      WordRuns(t, []);
      RunOne(Close, DocEnd);
      DocumentsRun(docs.tail);
    }
  }

  // ----- Nothing else is accepted --------------------------------------------------------

  lemma RunHead(p: Phase, w: seq<Kind>)
    requires Run(p, w) == Some(Done) && p != Done
    ensures w != [] && w == [w[0]] + w[1..]
    ensures Next(p, w[0]).Some? && Run(Next(p, w[0]).value, w[1..]) == Some(Done)
  {}

  predicate Ends(top: Frame, k: Kind) {
    (top == Item && k == SeqEnd) || (top == Key && k == MapEnd)
  }

  lemma TopFrame(open: seq<Frame>, top: Frame)
    ensures var all := open + [top]; |all| == |open| + 1 && all[..|open|] == open && all[|open|] == top
    ensures Advance(open + [top]) == open + [if top == Key then Value else if top == Value then Key else Item]
  {
    assert (open + [top])[..|open|] == open;
  }

  lemma Regroup(a: seq<Kind>, b: seq<Kind>, c: seq<Kind>, d: seq<Kind>)
    ensures a + (b + c + d) == a + b + c + d
  {}

  /** A run that finishes reads off one node and then finishes from what is left. */
  lemma {:induction false} NodeFromRun(open: seq<Frame>, w: seq<Kind>) returns (t: Tree, rest: seq<Kind>)
    requires Run(Expecting(open), w) == Some(Done)
    requires open != [] ==> w != [] && !Ends(open[|open| - 1], w[0])
    ensures WellFormed(t) && w == Word(t) + rest && |Word(t)| > 0
    ensures Run(Settle(Advance(open)), rest) == Some(Done)
    decreases |w|, 2
  {
    RunHead(Expecting(open), w);
    hide Run, Advance;
    var k, tail := w[0], w[1..];
    if k == AliasEvent || k == ScalarEvent {
      t, rest := if k == AliasEvent then Alias else Scalar, tail;
    } else if k == SeqStart {
      var items;
      items, rest := ItemsFromRun(Advance(open), tail);
      t := Sequence(items);
      Regroup([SeqStart], Words(items), [SeqEnd], rest);
    } else {
      var items;
      items, rest := PairsFromRun(Advance(open), tail);
      t := Mapping(items);
      Regroup([MapStart], Words(items), [MapEnd], rest);
    }
  }

  lemma {:induction false} ItemsFromRun(open: seq<Frame>, w: seq<Kind>) returns (ts: Trees, rest: seq<Kind>)
    requires Run(Inside(open + [Item]), w) == Some(Done)
    ensures AllWellFormed(ts) && w == Words(ts) + [SeqEnd] + rest
    ensures Run(Settle(open), rest) == Some(Done)
    decreases |w|, 3
  {
    RunHead(Inside(open + [Item]), w);
    TopFrame(open, Item);
    hide Run, Advance;
    if w[0] == SeqEnd {
      ts, rest := Nil, w[1..];
    } else {
      var t, more := NodeFromRun(open + [Item], w);
      var ts';
      ts', rest := ItemsFromRun(open, more);
      ts := Cons(t, ts');
      Regroup(Word(t), Words(ts'), [SeqEnd], rest);
    }
  }

  lemma {:induction false} PairsFromRun(open: seq<Frame>, w: seq<Kind>) returns (ts: Trees, rest: seq<Kind>)
    requires Run(Inside(open + [Key]), w) == Some(Done)
    ensures AllWellFormed(ts) && Paired(ts) && w == Words(ts) + [MapEnd] + rest
    ensures Run(Settle(open), rest) == Some(Done)
    decreases |w|, 3
  {
    RunHead(Inside(open + [Key]), w);
    TopFrame(open, Key);
    TopFrame(open, Value);
    hide Advance;
    if w[0] == MapEnd {
      hide Run;
      ts, rest := Nil, w[1..];
    } else {
      var k, more := NodeFromRun(open + [Key], w);
      RunHead(Inside(open + [Value]), more);
      hide Run;
      var v, more' := NodeFromRun(open + [Value], more);
      var ts';
      ts', rest := PairsFromRun(open, more');
      ts := Cons(k, Cons(v, ts'));
      Regroup(Word(v), Words(ts'), [MapEnd], rest);
      Regroup(Word(k), Words(Cons(v, ts')), [MapEnd], rest);
    }
  }

  lemma NothingAfterDone(w: seq<Kind>)
    ensures Run(Done, w).Some? ==> w == []
  {}

  lemma {:induction false} DocumentsFromRun(w: seq<Kind>) returns (docs: Trees)
    requires Run(Between, w) == Some(Done)
    ensures AllWellFormed(docs) && w == DocumentWords(docs) + [StreamEnd]
    decreases |w|
  {
    RunHead(Between, w);
    if w[0] == StreamEnd {
      NothingAfterDone(w[1..]);
      docs := Nil;
    } else {
      hide Run, Word;
      var t, rest := NodeFromRun([], w[1..]);
      RunHead(Close, rest);
      var docs' := DocumentsFromRun(rest[1..]);
      docs := Cons(t, docs');
      assert DocumentWords(docs) == [DocStart] + Word(t) + [DocEnd] + DocumentWords(docs');
      assert w == [DocStart] + (Word(t) + ([DocEnd] + (DocumentWords(docs') + [StreamEnd])));
    }
  }

  /** The recogniser ends in Done on exactly the words of the grammar. */
  lemma AcceptsExactlyStreams(w: seq<Kind>)
    ensures Run(Fresh, w) == Some(Done) <==> exists docs :: AllWellFormed(docs) && w == StreamWord(docs)
  {
    if Run(Fresh, w) == Some(Done) {
      assert w != [] && w[0] == StreamStart;
      var docs := DocumentsFromRun(w[1..]);
      assert w == StreamWord(docs);
    }
    if docs :| AllWellFormed(docs) && w == StreamWord(docs) {
      DocumentsRun(docs);
      RunConcat(Fresh, [StreamStart] + DocumentWords(docs), [StreamEnd]);
      RunConcat(Fresh, [StreamStart], DocumentWords(docs));
      RunOne(Fresh, StreamStart);
      RunOne(Between, StreamEnd);
    }
  }
}
