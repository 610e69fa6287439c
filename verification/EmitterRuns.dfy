/**
 Whole nodes on the emitter's state machine: whatever a node holds, the indents after it are
 those before it; and a stream on which a compact sequence steps back.
 */
module EmitterRuns {
  import opened Wrappers
  import opened EmitterGrammar
  import opened EmitterIndent
  import opened Emitter
  import opened TextWriter

  /** A node may come next. */
  ghost predicate Ready(m: Machine)
    reads m
  {
    m.Valid() && (m.phase.Root? || m.phase.Inside?)
  }

  /** The levels once the node that starts with e is placed: those around it, the innermost entered. */
  ghost function LevelsAround(m: Machine, e: Event): seq<Level>
    reads m
  {
    if m.open == [] || m.Top().entered then m.levels else m.levels + [m.EntryLevel(m.Outer(), m.Top(), e)]
  }

  /** The machine stands where it does after the node whose first event was e, given the old state. */
  twostate predicate Placed(m: Machine, e: Event)
    reads m
  {
    && m.Valid() && m.open == old(m.Around(e)) && m.phase == Settle(Frames(m.open))
    && m.levels == old(LevelsAround(m, e)) && m.bestIndent == old(m.bestIndent)
    && m.events == old(m.events) && m.eventsHead == old(m.eventsHead)
  }

  lemma NodeIsTaken(m: Machine, e: Event)
    requires Ready(m) && e.kind in {AliasEvent, ScalarEvent, SeqStart, MapStart}
    ensures Next(m.phase, e.kind).Some?
    ensures m.phase.Root? ==> m.open == []
    ensures m.phase.Inside? ==> m.open != [] && m.phase == Inside(Frames(m.open)) && !Ends(m.Top().frame, e.kind)
  {
    hide m.Valid, Frames, Settle;
    m.RootIsEmpty();
    if m.phase.Inside? {
      assert m.open == m.Outer() + [m.Top()];
      InsideNext(m.Outer(), m.Top(), e.kind);
    }
  }

  /** One event of a node. */
  method Take(m: Machine, e: Event)
    requires Ready(m) && e.kind in {AliasEvent, ScalarEvent, SeqStart, MapStart}
    modifies m
    ensures m.Valid() && m.open == old(m.Around(e)) + Opened(e.kind, old(m.InFlow(e, m.Around(e))))
    ensures m.levels == old(LevelsAround(m, e)) && m.bestIndent == old(m.bestIndent)
    ensures m.events == old(m.events) && m.eventsHead == old(m.eventsHead)
    ensures Next(old(m.phase), e.kind) == Some(m.phase)
    ensures StartsCollection(e.kind) ==>
              && m.open != []
              && (m.Top().flow <==>
                    || m.canonical || e.flowStyle || m.NextIs(EndOf(e.kind))
                    || exists i :: 0 <= i < |m.Outer()| && m.Outer()[i].flow)
  {
    hide Next;
    NodeIsTaken(m, e);
    ghost var around := m.Around(e);
    var ok := m.StateMachine(e);
    assert [] + Opened(e.kind, m.InFlow(e, [])) == Opened(e.kind, m.InFlow(e, []));
    if StartsCollection(e.kind) {
      m.OpensFlow(e, around);
    }
  }

  /** Outside a node position the phase is what the open collections say. */
  lemma PhaseSettles(m: Machine)
    requires m.Valid() && (m.phase.Inside? || m.phase.Close?)
    ensures m.phase == Settle(Frames(m.open))
  {
    m.InsideState();
  }

  lemma LeafSettles(p: Phase, k: Kind)
    requires (p.Root? || p.Inside?) && Next(p, k).Some?
    ensures Next(p, k).value.Inside? || Next(p, k).value.Close?
    ensures StartsCollection(k) ==> Next(p, k).value.Inside?
  {}

  lemma StaysInside(p: Phase, k: Kind)
    requires p.Inside? && k in {AliasEvent, ScalarEvent, SeqStart, MapStart} && Next(p, k).Some?
    ensures Next(p, k).value.Inside?
  {}

  /** One level for each collection that was entered. */
  lemma LevelCount(m: Machine)
    requires m.Valid() && m.phase.Inside?
    ensures m.open != [] && |m.levels| == |m.open| - (if m.Top().entered then 0 else 1)
  {}

  lemma EndIsTaken(m: Machine, e: Event)
    requires m.Valid() && m.phase.Inside? && m.open != [] && Ends(m.Top().frame, e.kind)
    ensures Next(m.phase, e.kind) == Some(Settle(Frames(m.Outer())))
  {
    assert m.open == m.Outer() + [m.Top()];
    InsideNext(m.Outer(), m.Top(), e.kind);
  }

  /** The end of the innermost collection. */
  method TakeEnd(m: Machine, e: Event)
    requires m.Valid() && m.phase.Inside? && m.open != [] && Ends(m.Top().frame, e.kind)
    modifies m
    ensures m.Valid() && m.open == old(m.Outer()) && m.phase == Settle(Frames(m.open))
    ensures |m.open| <= |old(m.levels)| && m.levels == old(m.levels)[..|m.open|] && m.bestIndent == old(m.bestIndent)
    ensures m.events == old(m.events) && m.eventsHead == old(m.eventsHead)
  {
    hide Next, Settle, Frames, m.Valid, m.OpenAfter, m.LevelsAfter;
    LevelCount(m);
    EndIsTaken(m, e);
    LeafSettles(m.phase, e.kind);
    m.AfterItem(e);
    var ok := m.StateMachine(e);
    PhaseSettles(m);
  }

  /** The collection on top is still open, where it was, with the levels around it untouched, and expects frame. */
  twostate predicate Kept(m: Machine, frame: Frame)
    reads m
  {
    && m.Valid() && m.phase.Inside? && m.open != [] && old(m.open) != []
    && m.Outer() == old(m.Outer()) && m.Top().frame == frame
    && |m.Outer()| <= |m.levels| && |m.Outer()| <= |old(m.levels)|
    && m.levels[..|m.Outer()|] == old(m.levels)[..|m.Outer()|] && m.bestIndent == old(m.bestIndent)
    && m.events == old(m.events) && m.eventsHead == old(m.eventsHead)
  }

  lemma KindsCut(es: seq<Event>, v: seq<Kind>, w: seq<Kind>)
    requires Kinds(es) == v + w
    ensures |es| == |v| + |w| && Kinds(es[..|v|]) == v && Kinds(es[|v|..]) == w
  {}

  lemma WordFacts(t: Tree)
    ensures |Word(t)| > 0 && Word(t)[0] in {AliasEvent, ScalarEvent, SeqStart, MapStart}
  {}

  lemma LeafPlaced(e: Event, around: seq<Open>)
    ensures !StartsCollection(e.kind) ==> forall flow :: around + Opened(e.kind, flow) == around
  {}

  lemma CollectionCut(es: seq<Event>, start: seq<Kind>, content: seq<Kind>, end: seq<Kind>)
    requires |start| == |end| == 1 && Kinds(es) == start + content + end
    ensures |es| == |content| + 2 && Kinds(es[1..|es| - 1]) == content
    ensures es[0].kind == start[0] && es[|es| - 1].kind == end[0]
  {}

  /**
   A whole node.  The open collections are those before it, one place on; so are the levels, the
   innermost collection being entered if it was not; and so the indents.
   */
  method EmitTree(m: Machine, t: Tree, es: seq<Event>)
    requires Ready(m) && WellFormed(t) && Kinds(es) == Word(t) && es != []
    modifies m
    ensures Placed(m, es[0])
    decreases t, 1
  {
    hide Frames, Settle, Next, m.Valid;
    WordFacts(t);
    NodeIsTaken(m, es[0]);
    ghost var phase := m.phase;
    Take(m, es[0]);
    LeafSettles(phase, es[0].kind);
    PhaseSettles(m);
    match t {
      case Alias => LeafPlaced(es[0], old(m.Around(es[0])));
      case Scalar => LeafPlaced(es[0], old(m.Around(es[0])));
      case Sequence(items) =>
        CollectionCut(es, [SeqStart], Words(items), [SeqEnd]);
        EmitContent(m, items, es);
      case Mapping(items) =>
        CollectionCut(es, [MapStart], Words(items), [MapEnd]);
        EmitContent(m, items, es);
    }
  }

  lemma NodeLeavesStream(m: Machine)
    requires m.Valid() && m.phase == Settle(Frames(m.open))
    ensures !m.phase.Fresh?
  {}

  /** The indents are those of the levels. */
  lemma ChainIs(m: Machine)
    requires m.Valid() && !m.phase.Fresh?
    ensures m.bestIndent >= 2 && m.Chain() == Indents(m.bestIndent, m.levels)
  {}

  lemma IndentsExtend(best: int, ls: seq<Level>, more: seq<Level>)
    requires best > 0 && ls <= more && |more| <= |ls| + 1
    ensures Indents(best, ls) <= Indents(best, more)
  {
    if |more| == |ls| {
      assert more == ls;
    } else {
      assert more[..|more| - 1] == ls;
    }
  }

  /** The indent of one more level. */
  lemma IndentsMore(best: int, ls: seq<Level>, l: Level)
    requires best >= 2
    ensures Indents(best, ls + [l]) == Indents(best, ls) + [NextIndent(best, Indents(best, ls)[|ls|], l)]
  {
    assert (ls + [l])[..|ls|] == ls;
  }

  /**
   The first node of a collection makes it one level deeper.  In a block sequence that is the width
   of an indicator; otherwise it is the next multiple of the best indent, two short of it exactly for
   a block sequence under a key, asked to be compact, whose text begins a line.
   */
  method TakeFirst(m: Machine, e: Event)
    requires m.Valid() && m.phase.Inside? && m.open != [] && !m.Top().entered
    requires e.kind in {AliasEvent, ScalarEvent, SeqStart, MapStart}
    modifies m
    ensures m.Valid() && m.Chain() == old(m.Chain()) + [m.indent] && m.bestIndent == old(m.bestIndent)
    ensures var outer, top := old(m.Outer()), old(m.Top());
            var inSequence := outer != [] && outer[|outer| - 1].frame == Item && !outer[|outer| - 1].flow;
            var underKey := outer != [] && outer[|outer| - 1].frame != Item;
            var compact := m.compactSequences && top.frame == Item && !top.flow && underKey && e.atStart;
            Deeper(m.bestIndent, old(m.indent), Level(top.flow, inSequence, compact), m.indent)
  {
    hide Frames, Settle, m.Valid, Indents, NextIndent, Deeper, Next;
    ChainIs(m);
    ghost var l, was := m.EntryLevel(m.Outer(), m.Top(), e), m.levels;
    assert m.Chain()[|was|] == m.indent;
    NodeIsTaken(m, e);
    LeafSettles(m.phase, e.kind);
    Take(m, e);
    ChainIs(m);
    IndentsMore(m.bestIndent, was, l);
    assert m.Chain()[|was| + 1] == m.indent;
    DeeperExactly(m.bestIndent, old(m.indent), l, m.indent);
  }

  /** The machine is in the state of the innermost collection. */
  lemma ServedHere(m: Machine)
    requires m.Valid() && m.phase.Inside?
    ensures m.open != [] && m.state == StateOf(m.Top())
  {}

  /**
   After a key that is a leaf, its value is served in the simple state exactly if the key is short, on
   one line, and not in a flow mapping of a canonical emitter.
   */
  method TakeKey(m: Machine, e: Event)
    requires m.Valid() && m.phase.Inside? && m.open != [] && m.Top().frame == Key
    requires e.kind in {AliasEvent, ScalarEvent}
    modifies m
    ensures m.Valid() && m.open != [] && m.Outer() == old(m.Outer()) && m.Top().frame == Value
    ensures m.Top().flow == old(m.Top().flow)
    ensures var flow := m.Top().flow;
            var simple := e.length <= 128 && (e.kind == ScalarEvent ==> !e.multiline) && !(flow && m.canonical);
            m.state == if flow then (if simple then FlowMappingSimpleValue else FlowMappingValue)
                       else if simple then BlockMappingSimpleValue else BlockMappingValue
  {
    hide Frames, Settle, Next, m.Valid, LevelsAround;
    NodeIsTaken(m, e);
    StaysInside(m.phase, e.kind);
    ghost var outer, after := m.Outer(), Following(m.Top(), m.Simple(e, m.Top().flow));
    Take(m, e);
    LeafPlaced(e, outer + [after]);
    assert m.open == outer + [after] && m.Outer() == outer;
    ServedHere(m);
  }

  /** After a whole node the indents are what they were; only a collection it is the first node of has been entered. */
  method EmitWholeNode(m: Machine, t: Tree, es: seq<Event>)
    requires Ready(m) && WellFormed(t) && Kinds(es) == Word(t) && es != []
    modifies m
    ensures Placed(m, es[0]) && old(m.Chain()) <= m.Chain()
    ensures old(m.open == [] || m.Top().entered) ==> m.Chain() == old(m.Chain())
  {
    hide Frames, Settle, m.Valid, Indents, Word, WellFormed;
    ChainIs(m);
    IndentsExtend(m.bestIndent, m.levels, LevelsAround(m, es[0]));
    EmitTree(m, t, es);
    NodeLeavesStream(m);
    ChainIs(m);
  }

  /** What a collection holds, and its end, once its start has been taken. */
  method EmitContent(m: Machine, items: Trees, es: seq<Event>)
    requires m.Valid() && m.phase.Inside? && m.open != [] && !m.Top().entered && m.Top().frame != Value
    requires AllWellFormed(items) && (m.Top().frame == Key ==> Paired(items))
    requires |es| >= 2 && Kinds(es[1..|es| - 1]) == Words(items) && Ends(m.Top().frame, es[|es| - 1].kind)
    modifies m
    ensures m.Valid() && m.open == old(m.Outer()) && m.phase == Settle(Frames(m.open))
    ensures m.levels == old(m.levels) && m.bestIndent == old(m.bestIndent)
    ensures m.events == old(m.events) && m.eventsHead == old(m.eventsHead)
    decreases items, 1
  {
    hide Frames, Settle, m.Valid;
    LevelCount(m);
    if es[|es| - 1].kind == SeqEnd {
      EmitItems(m, items, es[1..|es| - 1]);
    } else {
      EmitPairs(m, items, es[1..|es| - 1]);
    }
    TakeEnd(m, es[|es| - 1]);
    assert old(m.levels)[..|m.open|] == old(m.levels);
  }

  lemma SettledInside(m: Machine)
    requires m.Valid() && m.phase == Settle(Frames(m.open)) && m.open != []
    ensures m.phase.Inside?
  {}

  /** A node inside a collection moves the collection on. */
  method EmitInside(m: Machine, t: Tree, es: seq<Event>)
    requires m.Valid() && m.phase.Inside? && m.open != [] && WellFormed(t) && Kinds(es) == Word(t)
    modifies m
    ensures Kept(m, Following(old(m.Top()), false).frame)
    decreases t, 2
  {
    hide Frames, Settle, m.Valid, WellFormed;
    LevelCount(m);
    WordFacts(t);
    EmitTree(m, t, es);
    SettledInside(m);
    LevelCount(m);
  }

  method EmitItems(m: Machine, ts: Trees, es: seq<Event>)
    requires m.Valid() && m.phase.Inside? && m.open != [] && m.Top().frame == Item
    requires AllWellFormed(ts) && Kinds(es) == Words(ts)
    modifies m
    ensures Kept(m, Item)
    decreases ts, 0
  {
    LevelCount(m);
    hide m.Valid, Word;
    if ts.Cons? {
      var n := |Word(ts.head)|;
      KindsCut(es, Word(ts.head), Words(ts.tail));
      EmitInside(m, ts.head, es[..n]);
      EmitItems(m, ts.tail, es[n..]);
    }
  }

  /** The events of a key, of its value, and of the pairs after them. */
  lemma PairCut(ts: Trees, es: seq<Event>)
    requires ts.Cons? && AllWellFormed(ts) && Paired(ts) && Kinds(es) == Words(ts)
    ensures ts.tail.Cons?
    ensures var rest := ts.tail; var n, l := |Word(ts.head)|, |Word(rest.head)|;
            && WellFormed(ts.head) && WellFormed(rest.head) && AllWellFormed(rest.tail) && Paired(rest.tail)
            && n + l <= |es| && Kinds(es[..n]) == Word(ts.head) && Kinds(es[n..][..l]) == Word(rest.head)
            && Kinds(es[n..][l..]) == Words(rest.tail)
  {
    var rest, n := ts.tail, |Word(ts.head)|;
    KindsCut(es, Word(ts.head), Words(rest));
    KindsCut(es[n..], Word(rest.head), Words(rest.tail));
  }

  method EmitPairs(m: Machine, ts: Trees, es: seq<Event>)
    requires m.Valid() && m.phase.Inside? && m.open != [] && m.Top().frame == Key
    requires AllWellFormed(ts) && Paired(ts) && Kinds(es) == Words(ts)
    modifies m
    ensures Kept(m, Key)
    decreases ts, 0
  {
    LevelCount(m);
    if ts.Cons? {
      PairCut(ts, es);
      hide m.Valid, Word, Words, Kinds, WellFormed, AllWellFormed, Paired;
      var rest := ts.tail;
      var n, l := |Word(ts.head)|, |Word(rest.head)|;
      EmitInside(m, ts.head, es[..n]);
      EmitInside(m, rest.head, es[n..][..l]);
      EmitPairs(m, rest.tail, es[n..][l..]);
    }
  }

  // ----- A stream that steps back ------------------------------------------------------------------

  predicate AllBlock(open: seq<Open>) {
    forall i :: 0 <= i < |open| ==> !open[i].flow
  }

  lemma {:induction false} BlockHasNoFlow(open: seq<Open>)
    requires AllBlock(open)
    ensures FlowCount(open) == 0
  {
    if open != [] {
      BlockHasNoFlow(open[..|open| - 1]);
    }
  }

  /** An event that asks for block style. */
  function Plain(k: Kind, atStart: bool): Event {
    Event(k, false, 0, false, true, atStart)
  }

  /** A node event in a machine that writes block collections only. */
  method TakePlain(m: Machine, e: Event, es: seq<Event>) returns (es': seq<Event>)
    requires Ready(m) && e.kind in {AliasEvent, ScalarEvent, SeqStart, MapStart} && !e.flowStyle
    requires !m.canonical && m.events == [] && AllBlock(m.open) && Run(Fresh, Kinds(es)) == Some(m.phase)
    modifies m
    ensures Ready(m) || m.phase.Close?
    ensures m.Valid() && m.open == old(m.Around(e)) + Opened(e.kind, false) && AllBlock(m.open)
    ensures m.levels == old(LevelsAround(m, e)) && m.bestIndent == old(m.bestIndent) && m.events == []
    ensures es' == es + [e] && Run(Fresh, Kinds(es')) == Some(m.phase)
    ensures StartsCollection(e.kind) || old(m.phase.Inside?) ==> m.phase.Inside?
  {
    hide Next, Run, m.Valid, LevelsAround;
    NodeIsTaken(m, e);
    LeafSettles(m.phase, e.kind);
    if m.phase.Inside? {
      StaysInside(m.phase, e.kind);
    }
    BlockHasNoFlow(m.Around(e));
    es' := es + [e];
    assert es'[..|es|] == es && es'[..|es'|] == es';
    RunMore(es', |es|, m.phase);
    Take(m, e);
  }

  /** n block sequences, each the first item of the one around it; the innermost has no item yet. */
  ghost function Sequences(n: nat): seq<Open> {
    seq(n, i => Open(Item, false, i < n - 1, false))
  }

  lemma NestedMore(n: nat)
    requires n > 0
    ensures Nested(n - 1) + [Level(false, n - 1 > 0, false)] == Nested(n)
    ensures Sequences(n)[..n - 1] + [Open(Item, false, true, false)] + [Open(Item, false, false, false)] ==
              Sequences(n + 1)
  {}

  /** A machine before the root of its first document, asked for compact sequences. */
  method AtFirstRoot(best: int) returns (m: Machine, es: seq<Event>)
    requires 2 <= best <= 9
    ensures fresh(m) && m.Valid() && m.phase == Root && m.bestIndent == best && m.compactSequences && !m.canonical
    ensures m.open == [] && m.levels == [] && m.events == [] && Run(Fresh, Kinds(es)) == Some(Root)
  {
    m := new Machine(false, true, best);
    es := [Plain(StreamStart, true), Plain(DocStart, true)];
    var ok := m.StateMachine(es[0]);
    ok := m.StateMachine(es[1]);
    assert Kinds(es) == [StreamStart] + [DocStart];
    RunConcat(Fresh, [StreamStart], [DocStart]);
    RunOne(Fresh, StreamStart);
    RunOne(Between, DocStart);
  }

  /** A node event inside a collection, in terms of that collection. */
  method TakeIn(m: Machine, e: Event, es: seq<Event>, ghost outer: seq<Open>, ghost top: Open)
    returns (es': seq<Event>, ghost simple: bool)
    requires m.Valid() && m.phase.Inside? && m.open == outer + [top] && !e.flowStyle
    requires e.kind in {ScalarEvent, SeqStart, MapStart}
    requires !m.canonical && m.events == [] && AllBlock(m.open) && Run(Fresh, Kinds(es)) == Some(m.phase)
    modifies m
    ensures m.Valid() && m.phase.Inside? && AllBlock(m.open) && m.events == [] && m.bestIndent == old(m.bestIndent)
    ensures m.open == outer + [Following(top, simple)] + Opened(e.kind, false) && simple == old(m.Simple(e, top.flow))
    ensures m.levels == if top.entered then old(m.levels) else old(m.levels) + [m.EntryLevel(outer, top, e)]
    ensures Run(Fresh, Kinds(es')) == Some(m.phase)
  {
    hide m.Valid, Run, Kinds, Opened, AllBlock, InBlockSequence, UnderKey;
    simple := m.Simple(e, top.flow);
    es' := TakePlain(m, e, es);
  }

  lemma SequencesTop(n: nat)
    requires n > 0
    ensures |Sequences(n)| == n
    ensures var outer := Sequences(n)[..n - 1];
            && Sequences(n) == outer + [Open(Item, false, false, false)]
            && InBlockSequence(outer, n - 1) == (n - 1 > 0) && !UnderKey(outer) && AllBlock(Sequences(n))
  {}

  method OpenFirst(m: Machine, es: seq<Event>) returns (es': seq<Event>)
    requires m.Valid() && m.phase == Root && !m.canonical
    requires m.open == [] && m.levels == [] && m.events == [] && Run(Fresh, Kinds(es)) == Some(m.phase)
    modifies m
    ensures m.Valid() && m.phase.Inside? && m.open == Sequences(1) && m.levels == Nested(0)
    ensures m.bestIndent == old(m.bestIndent) && m.events == [] && Run(Fresh, Kinds(es')) == Some(m.phase)
  {
    hide m.Valid, Run, Kinds;
    es' := TakePlain(m, Plain(SeqStart, true), es);
    assert [] + Opened(SeqStart, false) == Sequences(1) && Nested(0) == [];
  }

  /** n nested block sequences. */
  method OpenSequences(m: Machine, n: nat, es: seq<Event>) returns (es': seq<Event>)
    requires m.Valid() && m.phase == Root && m.compactSequences && !m.canonical && n > 0
    requires m.open == [] && m.levels == [] && m.events == [] && Run(Fresh, Kinds(es)) == Some(m.phase)
    modifies m
    ensures m.Valid() && m.phase.Inside? && m.open == Sequences(n) && m.levels == Nested(n - 1)
    ensures m.bestIndent == old(m.bestIndent) && m.events == [] && Run(Fresh, Kinds(es')) == Some(m.phase)
  {
    es' := OpenFirst(m, es);
    hide m.Valid, Run, Kinds, Sequences, Nested, InBlockSequence, UnderKey, AllBlock;
    var i := 1;
    while i < n
      invariant 1 <= i <= n && m.Valid() && m.phase.Inside? && m.open == Sequences(i) && m.levels == Nested(i - 1)
      invariant m.bestIndent == old(m.bestIndent) && m.events == [] && Run(Fresh, Kinds(es')) == Some(m.phase)
    {
      NestedMore(i);
      SequencesTop(i);
      ghost var simple;
      es', simple := TakeIn(m, Plain(SeqStart, true), es', Sequences(i)[..i - 1], Open(Item, false, false, false));
      i := i + 1;
    }
  }

  /** A mapping with one key, as the first item of n - 1 nested block sequences. */
  method OpenMapping(m: Machine, n: nat, es: seq<Event>) returns (es': seq<Event>, ghost outer: seq<Open>)
    requires m.Valid() && m.phase == Root && m.compactSequences && !m.canonical && n > 1
    requires m.open == [] && m.levels == [] && m.events == [] && Run(Fresh, Kinds(es)) == Some(m.phase)
    modifies m
    ensures m.Valid() && m.phase.Inside? && m.open == outer + [Open(Value, false, true, true)] && AllBlock(m.open)
    ensures m.levels == Nested(n) && m.bestIndent == old(m.bestIndent) && m.events == []
    ensures Run(Fresh, Kinds(es')) == Some(m.phase)
  {
    hide m.Valid, Run, Kinds, Sequences, Nested, AllBlock;
    es' := OpenSequences(m, n - 1, es);
    NestedMore(n - 1);
    NestedMore(n);
    SequencesTop(n - 1);
    ghost var inner, simple := Sequences(n - 1)[..n - 2], false;
    es', simple := TakeIn(m, Plain(MapStart, true), es', inner, Open(Item, false, false, false));
    assert m.levels == Nested(n - 1);
    outer := inner + [Open(Item, false, true, false)];
    es', simple := TakeIn(m, Plain(ScalarEvent, true), es', outer, Open(Key, false, false, false));
    assert m.open == outer + [Open(Value, false, true, true)];
  }

  lemma CompactAtLast(best: nat)
    ensures SteppingBack(best) == Nested((best + 1) / 2) + [Level(false, false, true)]
  {}

  lemma SimpleValueState(m: Machine, outer: seq<Open>)
    requires m.Valid() && m.phase.Inside? && m.open == outer + [Open(Value, false, true, true)]
    ensures m.state == BlockMappingSimpleValue
  {}

  /**
   For every odd best indent the emitter accepts: nested block sequences, a mapping and a compact
   sequence under its first key drive the machine to indents that step back.  That the sequence is
   compact follows from the colon the writer has just put after a simple key.
   */
  method StepsBack(best: int, w: Writer) returns (ok: bool, m: Machine, es: seq<Event>)
    requires 3 <= best <= 9 && best % 2 == 1 && w.Valid()
    modifies w, w.buffer
    ensures fresh(m) && m.Valid() && Run(Fresh, Kinds(es)) == Some(m.phase)
    ensures ok ==> m.Chain() == Indents(best, SteppingBack(best)) && !NonDecreasing(m.Chain())
    ensures !ok ==> w.failed
  {
    hide m.Valid, Run, Kinds, Indents, NonDecreasing, Sequences, Nested, SteppingBack, AllBlock, w.Valid;
    OddIndentStepsBack(best);
    m, es := AtFirstRoot(best);
    ghost var outer, simple;
    es, outer := OpenMapping(m, (best + 1) / 2, es);
    SimpleValueState(m, outer);
    ok := w.WriteColon(m.indent, m.state == BlockMappingSimpleValue);
    if !ok {
      return;
    }
    es, simple := TakeIn(m, Plain(SeqStart, w.AtStart()), es, outer, Open(Value, false, true, true));
    ghost var around := outer + [Open(Key, false, true, false)];
    assert m.open == around + [Open(Item, false, false, false)];
    es, simple := TakeIn(m, Plain(ScalarEvent, w.AtStart()), es, around, Open(Item, false, false, false));
    CompactAtLast(best);
    ChainIs(m);
  }
}
