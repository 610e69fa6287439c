/**
 The emitter's state machine (go-yaml/emitterc.go:257-971): states, indents and
 flow level as the three coupled stacks of the source, tied to one ghost list of open
 collections.

 Output text is not part of this model, nor are comments and the two TRAIL states that only
 comments reach.  An event carries what the decisions look at: its style, the summed length
 of its anchor, tag and value, whether its scalar spans lines, whether its anchor, tag and
 implicit flags pass analysis, and whether the output stands at a line start or off the
 indentation when it is processed (`atStart`, the column test of a compact sequence).
 */
module Emitter {
  import opened Wrappers
  import opened EmitterGrammar
  import opened EmitterQueue
  import opened EmitterIndent

  datatype State =
    | StreamStartState | FirstDocumentState | DocumentState | ContentState | DocumentEndState
    | FlowSequenceFirst | FlowSequenceItem
    | FlowMappingFirst | FlowMappingKey | FlowMappingSimpleValue | FlowMappingValue
    | BlockSequenceFirst | BlockSequenceItem
    | BlockMappingFirst | BlockMappingKey | BlockMappingSimpleValue | BlockMappingValue
    | EndState

  datatype Event = Event(kind: Kind, flowStyle: bool, length: nat, multiline: bool, sound: bool, atStart: bool)

  /** An open collection: what it expects next, its style, and whether its first item was reached. */
  datatype Open = Open(frame: Frame, flow: bool, entered: bool, simple: bool)

  /** The machine state in which this collection is served. */
  function StateOf(o: Open): State {
    match o.frame
    case Item =>
      if o.flow then (if o.entered then FlowSequenceItem else FlowSequenceFirst)
      else (if o.entered then BlockSequenceItem else BlockSequenceFirst)
    case Key =>
      if o.flow then (if o.entered then FlowMappingKey else FlowMappingFirst)
      else (if o.entered then BlockMappingKey else BlockMappingFirst)
    case Value =>
      if o.flow then (if o.simple then FlowMappingSimpleValue else FlowMappingValue)
      else (if o.simple then BlockMappingSimpleValue else BlockMappingValue)
  }

  /** The states to return to after a node inside open. */
  function Returns(open: seq<Open>): (r: seq<State>)
    ensures |r| == |open| + 1
  {
    if open == [] then [DocumentEndState]
    else Returns(open[..|open| - 1]) + [StateOf(open[|open| - 1])]
  }

  function Frames(open: seq<Open>): (r: seq<Frame>)
    ensures |r| == |open|
  {
    if open == [] then [] else Frames(open[..|open| - 1]) + [open[|open| - 1].frame]
  }

  function FlowCount(open: seq<Open>): nat {
    if open == [] then 0 else FlowCount(open[..|open| - 1]) + (if open[|open| - 1].flow then 1 else 0)
  }

  lemma Grown(open: seq<Open>, o: Open)
    ensures Returns(open + [o]) == Returns(open) + [StateOf(o)]
    ensures Frames(open + [o]) == Frames(open) + [o.frame]
    ensures FlowCount(open + [o]) == FlowCount(open) + (if o.flow then 1 else 0)
    ensures (open + [o])[..|open|] == open
  {
    assert (open + [o])[..|open|] == open;
  }

  /** Everything below a flow collection is in flow style. */
  predicate NoBlockInFlow(open: seq<Open>) {
    forall i, j :: 0 <= i < j < |open| && open[i].flow ==> open[j].flow
  }

  lemma {:induction false} FlowBelow(open: seq<Open>, i: nat)
    requires i < |open| && open[i].flow
    ensures FlowCount(open) > 0
  {
    if i < |open| - 1 {
      FlowBelow(open[..|open| - 1], i);
    }
  }

  lemma {:induction false} FlowIsOpen(open: seq<Open>)
    ensures FlowCount(open) > 0 <==> exists i :: 0 <= i < |open| && open[i].flow
  {
    if open != [] {
      var front := open[..|open| - 1];
      FlowIsOpen(front);
      if FlowCount(front) > 0 {
        var i :| 0 <= i < |front| && front[i].flow;
        assert open[i].flow;
      }
      forall i | 0 <= i < |open| && open[i].flow
        ensures FlowCount(open) > 0
      {
        if i < |front| {
          assert front[i].flow;
        }
      }
    }
  }

  /** A collection opened while the flow level is positive is in flow style, so nothing breaks the nesting. */
  lemma FlowInside(es: seq<Open>, o: Open)
    requires NoBlockInFlow(es) && (FlowCount(es) > 0 ==> o.flow)
    ensures NoBlockInFlow(es + [o])
  {
    forall i | 0 <= i < |es| && es[i].flow
      ensures o.flow
    {
      FlowBelow(es, i);
    }
  }

  predicate AllEntered(open: seq<Open>) {
    forall i :: 0 <= i < |open| ==> open[i].entered
  }

  /** Is collection i an item of a block sequence? */
  predicate InBlockSequence(open: seq<Open>, i: nat)
    requires i <= |open|
  {
    i > 0 && open[i - 1].frame == Item && !open[i - 1].flow
  }

  /** Is what comes next inside open the key or the value of a mapping? */
  predicate UnderKey(open: seq<Open>) {
    open != [] && open[|open| - 1].frame != Item
  }

  /** An open collection once a node has been placed in it. */
  function Following(top: Open, simple: bool): Open {
    match top.frame
    case Item => top.(entered := true)
    case Key => Open(Value, top.flow, true, simple)
    case Value => Open(Key, top.flow, true, false)
  }

  /** The collection a node event opens, if any. */
  function Opened(k: Kind, flow: bool): seq<Open> {
    if k == SeqStart then [Open(Item, flow, false, false)]
    else if k == MapStart then [Open(Key, flow, false, false)]
    else []
  }

  ghost predicate LevelFits(l: Level, open: seq<Open>, i: nat, compact: bool)
    requires i < |open|
  {
    && l.flow == open[i].flow && l.inSequence == InBlockSequence(open, i)
    && (l.compact ==> compact && !l.flow && open[i].frame == Item && UnderKey(open[..i]))
  }

  /** The indentation levels belong to the entered collections. */
  ghost predicate LevelsFit(levels: seq<Level>, open: seq<Open>, compact: bool) {
    |levels| <= |open| && forall i :: 0 <= i < |levels| ==> LevelFits(levels[i], open, i, compact)
  }

  lemma NoneCompact(levels: seq<Level>, open: seq<Open>)
    requires LevelsFit(levels, open, false)
    ensures forall i :: 0 <= i < |levels| ==> !levels[i].compact
  {
    forall i | 0 <= i < |levels|
      ensures !levels[i].compact
    {
      assert LevelFits(levels[i], open, i, false);
    }
  }

  /** Only the collections up to its own matter to a level. */
  lemma LevelStillFits(l: Level, open: seq<Open>, more: seq<Open>, i: nat, compact: bool)
    requires i < |open| && i < |more| && open[..i] == more[..i] && open[i].flow == more[i].flow
    requires open[i].frame == Item <==> more[i].frame == Item
    ensures LevelFits(l, open, i, compact) == LevelFits(l, more, i, compact)
  {
    assert i > 0 ==> open[i - 1] == open[..i][i - 1] && more[i - 1] == more[..i][i - 1];
  }

  function Kinds(es: seq<Event>): (r: seq<Kind>)
    ensures |r| == |es|
    ensures forall i :: 0 <= i < |es| ==> r[i] == es[i].kind
  {
    seq(|es|, i requires 0 <= i < |es| => es[i].kind)
  }

  lemma NothingMeansMore(q: seq<Kind>)
    ensures !NeedMore(q) ==> q != []
  {}

  lemma RunMore(events: seq<Event>, n: nat, p: Phase)
    requires n < |events| && Run(Fresh, Kinds(events[..n])) == Some(p)
    ensures Run(Fresh, Kinds(events[..n + 1])) == Next(p, events[n].kind)
  {
    assert Kinds(events[..n + 1]) == Kinds(events[..n]) + [events[n].kind];
    RunConcat(Fresh, Kinds(events[..n]), [events[n].kind]);
    RunOne(p, events[n].kind);
  }

  lemma Drained(events: seq<Event>, n: nat)
    requires n <= |events| && NeedMore(Kinds(events[n..]))
    ensures Run(Fresh, Kinds(events)) in {Some(Between), Some(Done)} ==> n == |events| && events[..n] == events
  {
    var w := Kinds(events);
    assert Kinds(events[n..]) == w[n..];
    if Run(Fresh, w) in {Some(Between), Some(Done)} {
      DocumentEndDrains(w, n);
    }
  }

  lemma LeafOpensNothing(k: Kind, flow: bool, es: seq<Open>)
    ensures k != SeqStart && k != MapStart ==> es + Opened(k, flow) == es
  {}

  predicate StartsCollection(k: Kind) {
    k == SeqStart || k == MapStart
  }

  function EndOf(k: Kind): Kind {
    if k == SeqStart then SeqEnd else MapEnd
  }

  /** What a start that is processed needs: a known successor, and flow style where it is due. */
  predicate Due(events: seq<Event>, i: nat, flow: bool, canonical: bool)
    requires i < |events|
  {
    StartsCollection(events[i].kind) ==>
      && i + 1 < |events|
      && (canonical || events[i].flowStyle || events[i + 1].kind == EndOf(events[i].kind) ==> flow)
  }

  /**
   Of the events processed, every start that asks for flow style or that its end follows opened a
   flow collection; so did every one of a canonical emitter.
   */
  ghost predicate FlowAsDue(events: seq<Event>, head: nat, flows: seq<bool>, canonical: bool) {
    |flows| == head <= |events| && forall i :: 0 <= i < head ==> Due(events, i, flows[i], canonical)
  }

  lemma FlowsKept(events: seq<Event>, head: nat, flows: seq<bool>, canonical: bool, e: Event)
    requires FlowAsDue(events, head, flows, canonical)
    ensures FlowAsDue(events + [e], head, flows, canonical)
  {
    forall i | 0 <= i < head
      ensures Due(events + [e], i, flows[i], canonical)
    {
      assert Due(events, i, flows[i], canonical);
    }
  }

  lemma FlowsMore(events: seq<Event>, head: nat, flows: seq<bool>, canonical: bool, flow: bool)
    requires FlowAsDue(events, head, flows, canonical) && head < |events|
    requires Due(events, head, flow, canonical)
    ensures FlowAsDue(events, head + 1, flows + [flow], canonical)
  {}

  /** The recogniser outside collections. */
  lemma NextOf(p: Phase, k: Kind)
    ensures p == Fresh ==> Next(p, k) == if k == StreamStart then Some(Between) else None
    ensures p == Between ==> (Next(p, k).Some? <==> k == DocStart || k == StreamEnd)
    ensures p == Close ==> Next(p, k) == if k == DocEnd then Some(Between) else None
    ensures p == Done ==> Next(p, k) == None
  {}

  /** The recogniser inside outer + [top], in terms of the two. */
  lemma InsideNext(outer: seq<Open>, top: Open, k: Kind)
    ensures Next(Inside(Frames(outer + [top])), k) ==
            if Ends(top.frame, k) then Some(Settle(Frames(outer))) else Node(Frames(outer) + [top.frame], k)
  {
    Grown(outer, top);
    TopFrame(Frames(outer), top.frame);
  }

  /** The state to return to after a node in es, and what stays below it. */
  lemma {:induction false} LastReturn(es: seq<Open>)
    ensures Returns(es)[|es|] == if es == [] then DocumentEndState else StateOf(es[|es| - 1])
    ensures Returns(es)[..|es|] == if es == [] then [] else Returns(es[..|es| - 1])
    ensures AllEntered(es) && es != [] ==> AllEntered(es[..|es| - 1]) && es[|es| - 1].entered
    ensures Frames(es) == [] <==> es == []
  {}

  lemma ReturnTop(outer: seq<Open>)
    requires AllEntered(outer)
    ensures (Returns(outer)[|outer|] == BlockSequenceItem) == InBlockSequence(outer, |outer|)
  {}

  lemma LastLevelFits(l: Level, outer: seq<Open>, top: Open, compact: bool)
    requires l.flow == top.flow && l.inSequence == InBlockSequence(outer, |outer|)
    requires l.compact ==> compact && !l.flow && top.frame == Item && UnderKey(outer)
    ensures LevelFits(l, outer + [top], |outer|, compact)
  {
    assert (outer + [top])[..|outer|] == outer;
  }

  lemma EnteredFlow(outer: seq<Open>, top: Open)
    requires NoBlockInFlow(outer + [top])
    ensures NoBlockInFlow(outer + [top.(entered := true)])
  {
    var ts, es := outer + [top], outer + [top.(entered := true)];
    assert forall i :: 0 <= i < |es| ==> es[i].flow == ts[i].flow;
  }

  lemma LevelsGrow(levels: seq<Level>, outer: seq<Open>, top: Open, l: Level, compact: bool)
    requires |levels| == |outer| && LevelsFit(levels, outer, compact)
    requires l.flow == top.flow && l.inSequence == InBlockSequence(outer, |outer|)
    requires l.compact ==> compact && !l.flow && top.frame == Item && UnderKey(outer)
    requires AllEntered(outer) && NoBlockInFlow(outer + [top])
    ensures var es := outer + [top.(entered := true)];
            LevelsFit(levels + [l], es, compact) && AllEntered(es) && NoBlockInFlow(es)
  {
    EnteredFlow(outer, top);
    hide NoBlockInFlow, LevelFits;
    var es, ls := outer + [top.(entered := true)], levels + [l];
    assert forall i :: 0 <= i < |outer| ==> es[i] == outer[i];
    forall i | 0 <= i < |ls| ensures LevelFits(ls[i], es, i, compact) {
      if i < |outer| {
        assert outer[..i] == es[..i];
        LevelStillFits(levels[i], outer, es, i, compact);
      } else {
        LastLevelFits(l, outer, top.(entered := true), compact);
      }
    }
  }

  lemma LevelsShrink(levels: seq<Level>, outer: seq<Open>, top: Open, compact: bool)
    requires |levels| == |outer| + 1 && LevelsFit(levels, outer + [top], compact)
    requires AllEntered(outer + [top]) && NoBlockInFlow(outer + [top])
    ensures LevelsFit(levels[..|outer|], outer, compact) && AllEntered(outer) && NoBlockInFlow(outer)
  {
    var es := outer + [top];
    assert forall i :: 0 <= i < |outer| ==> es[i] == outer[i];
    forall i | 0 <= i < |outer|
      ensures LevelFits(levels[..|outer|][i], outer, i, compact)
    {
      assert outer[..i] == es[..i];
      LevelStillFits(levels[i], es, outer, i, compact);
    }
  }

  lemma SameLevels(levels: seq<Level>, outer: seq<Open>, top: Open, after: Open, compact: bool)
    requires LevelsFit(levels, outer + [top], compact) && AllEntered(outer + [top]) && NoBlockInFlow(outer + [top])
    requires after.flow == top.flow && after.entered && (after.frame == Item <==> top.frame == Item)
    ensures LevelsFit(levels, outer + [after], compact) && AllEntered(outer + [after]) && NoBlockInFlow(outer + [after])
  {
    var es, fs := outer + [top], outer + [after];
    assert forall i :: 0 <= i < |outer| ==> es[i] == outer[i] && fs[i] == outer[i];
    assert forall i :: 0 <= i < |es| ==> es[i].flow == fs[i].flow;
    forall i | 0 <= i < |levels|
      ensures LevelFits(levels[i], fs, i, compact)
    {
      assert es[..i] == fs[..i];
      LevelStillFits(levels[i], es, fs, i, compact);
    }
  }

  class Machine {
    const canonical: bool
    const compactSequences: bool
    var bestIndent: int
    var state: State
    var states: seq<State>
    var indents: seq<int>
    var indent: int
    var flowLevel: int
    var mappingContext: bool
    var events: seq<Event>
    var eventsHead: nat
    var failed: bool          // yaml_EMITTER_ERROR was set

    ghost var open: seq<Open>
    ghost var levels: seq<Level>
    ghost var phase: Phase
    ghost var flows: seq<bool>  // for each event processed, whether it opened a flow collection

    /** Indents and flow level, for the entered collections es. */
    ghost predicate Stacks(es: seq<Open>)
      reads this`bestIndent, this`levels, this`indents, this`indent, this`flowLevel
    {
      && bestIndent >= 2
      && |levels| == |es|
      && indents + [indent] == Indents(bestIndent, levels)
      && flowLevel == FlowCount(es)
      && LevelsFit(levels, es, compactSequences)
      && AllEntered(es) && NoBlockInFlow(es)
    }

    /** Inside a document, before the next item, key or value of the innermost collection. */
    ghost predicate AtItem()
      reads this`bestIndent, this`levels, this`indents, this`indent, this`flowLevel, this`open, this`state
      reads this`states, this`mappingContext
    {
      && open != []
      && var outer, top := open[..|open| - 1], open[|open| - 1];
      && state == StateOf(top)
      && states == Returns(outer)
      && AllEntered(outer) && NoBlockInFlow(open)
      && (if top.entered then Stacks(open) else Stacks(outer))
      && (top.frame == Value ==> top.entered)
      && (!top.entered ==> mappingContext == UnderKey(outer))
    }

    ghost predicate Idle()
      reads this`bestIndent, this`levels, this`indents, this`indent, this`flowLevel, this`open, this`states
    {
      open == [] && states == [] && Stacks([])
    }

    ghost predicate Valid()
      reads this`bestIndent, this`levels, this`indents, this`indent, this`flowLevel, this`open, this`state
      reads this`states, this`mappingContext, this`phase
    {
      match phase
      case Fresh => state == StreamStartState && states == [] && indents == [] && flowLevel == 0 && open == []
        && levels == []
      case Between => (state == FirstDocumentState || state == DocumentState) && Idle()
      case Root => state == ContentState && Idle()
      case Close => state == DocumentEndState && Idle()
      case Done => state == EndState && Idle()
      case Inside(frames) => frames == Frames(open) && AtItem()
    }

    constructor (canonical: bool, compactSequences: bool, bestIndent: int)
      ensures Consistent() && phase == Fresh && events == [] && eventsHead == 0 && !failed
      ensures this.canonical == canonical && this.compactSequences == compactSequences && this.bestIndent == bestIndent
    {
      this.canonical, this.compactSequences, this.bestIndent := canonical, compactSequences, bestIndent;
      state, states, indents, indent, flowLevel := StreamStartState, [], [], 0, 0;
      mappingContext, events, eventsHead, failed := false, [], 0, false;
      open, levels, phase, flows := [], [], Fresh, [];
    }

    // ----- Indentation -------------------------------------------------------------

    method IncreaseIndent(flow: bool, compact: bool)
      requires states != [] && bestIndent >= 2 && indents + [indent] == Indents(bestIndent, levels)
      modifies this`indents, this`indent, this`levels
      ensures levels == old(levels) + [Level(flow, states[|states| - 1] == BlockSequenceItem, compact)]
      ensures indents == old(indents) + [old(indent)]
      ensures indents + [indent] == Indents(bestIndent, levels)
      ensures Deeper(bestIndent, old(indent), Level(flow, states[|states| - 1] == BlockSequenceItem, compact), indent)
    {
      hide Deeper;
      ghost var l := Level(flow, states[|states| - 1] == BlockSequenceItem, compact);
      ghost var was := indents + [indent];
      indents := indents + [indent];
      if indent < 0 {
        indent := if flow then bestIndent else 0;
      } else if states[|states| - 1] == BlockSequenceItem {
        indent := indent + 2;
      } else {
        indent := bestIndent * ((indent + bestIndent) / bestIndent);
        if compact {
          indent := indent - 2;
        }
      }
      DeeperExactly(bestIndent, old(indent), l, indent);
      assert was[|was| - 1] == old(indent);
      assert (levels + [l])[..|levels|] == levels;
      levels := levels + [l];
    }

    /** Leaving a collection restores the indent saved when it was entered. */
    method RestoreIndent()
      requires levels != [] && bestIndent >= 2 && indents + [indent] == Indents(bestIndent, levels)
      modifies this`indents, this`indent, this`levels
      ensures levels == old(levels)[..|old(levels)| - 1]
      ensures indents + [indent] == old(indents) == Indents(bestIndent, levels)
    {
      ghost var r := Indents(bestIndent, levels);
      assert r[..|r| - 1] == indents;
      indent := indents[|indents| - 1];
      indents := indents[..|indents| - 1];
      levels := levels[..|levels| - 1];
    }

    method PopState()
      requires states != []
      modifies this`state, this`states
      ensures state == old(states)[|old(states)| - 1] && states == old(states)[..|old(states)| - 1]
    {
      state := states[|states| - 1];
      states := states[..|states| - 1];
    }

    // ----- Nodes -----------------------------------------------------------------------

    /** A node inside es is about to be written and its return state is on the stack. */
    ghost predicate AtNode(es: seq<Open>)
      reads this`bestIndent, this`levels, this`indents, this`indent, this`flowLevel, this`states
    {
      states == Returns(es) && Stacks(es)
    }

    predicate NextIs(k: Kind)
      reads this`events, this`eventsHead
    {
      |events| - eventsHead >= 2 && events[eventsHead + 1].kind == k
    }

    /** yaml_emitter_check_simple_key, on the head event. */
    function SimpleKey(e: Event): bool
      reads this`events, this`eventsHead
    {
      match e.kind
      case AliasEvent => e.length <= 128
      case ScalarEvent => !e.multiline && e.length <= 128
      case SeqStart => NextIs(SeqEnd) && e.length <= 128
      case MapStart => NextIs(MapEnd) && e.length <= 128
      case _ => false
    }

    /** Is the key written without an indicator? */
    function Simple(e: Event, flow: bool): bool
      reads this`events, this`eventsHead
    {
      SimpleKey(e) && !(flow && canonical)
    }

    /** Does the start e, inside es, open a flow collection?  An empty one always is. */
    function InFlow(e: Event, es: seq<Open>): bool
      reads this`events, this`eventsHead
    {
      FlowCount(es) > 0 || canonical || e.flowStyle || NextIs(EndOf(e.kind))
    }

    method EmitNode(e: Event, mapping: bool, ghost es: seq<Open>) returns (ok: bool)
      requires AtNode(es) && mapping == UnderKey(es)
      modifies this`state, this`states, this`indents, this`indent, this`levels, this`open, this`phase
      modifies this`mappingContext, this`failed
      ensures ok == (e.kind in {AliasEvent, ScalarEvent, SeqStart, MapStart})
      ensures ok ==> Valid() && failed == old(failed)
      ensures ok && e.kind in {AliasEvent, ScalarEvent} ==> phase == Settle(Frames(es))
      ensures ok && e.kind == SeqStart ==> phase == Inside(Frames(es) + [Item])
      ensures ok && e.kind == MapStart ==> phase == Inside(Frames(es) + [Key])
      ensures ok ==> open == es + Opened(e.kind, InFlow(e, es)) && levels == old(levels)
      ensures !ok ==> failed
    {
      hide Stacks, Returns, Frames, Settle, Valid, Opened, InFlow;
      mappingContext := mapping;
      LeafOpensNothing(e.kind, InFlow(e, es), es);
      match e.kind {
        case AliasEvent =>
          EmitLeaf(es);
        case ScalarEvent =>
          EmitScalar(es);
        case SeqStart =>
          EmitStart(e, es);
        case MapStart =>
          EmitStart(e, es);
        case _ =>
          failed := true;
          return false;
      }
      return true;
    }

    /** yaml_emitter_emit_scalar: the indent of the text is left again. */
    method EmitScalar(ghost es: seq<Open>)
      requires AtNode(es)
      modifies this`state, this`states, this`indents, this`indent, this`levels, this`open, this`phase
      ensures Valid() && phase == Settle(Frames(es)) && open == es && levels == old(levels)
    {
      hide Indents, FlowCount, Returns, Frames, LevelsFit, NoBlockInFlow, AllEntered, Settle;
      IncreaseIndent(true, false);
      RestoreIndent();
      assert levels == old(levels);
      EmitLeaf(es);
    }

    /** yaml_emitter_emit_sequence_start and yaml_emitter_emit_mapping_start. */
    method EmitStart(e: Event, ghost es: seq<Open>)
      requires AtNode(es) && mappingContext == UnderKey(es) && e.kind in {SeqStart, MapStart}
      modifies this`state, this`open, this`phase
      ensures Valid() && open == es + Opened(e.kind, InFlow(e, es))
      ensures phase == Inside(Frames(es) + [if e.kind == SeqStart then Item else Key])
    {
      hide Indents, FlowCount, Returns, Frames, LevelsFit, NoBlockInFlow, AllEntered;
      var sequence := e.kind == SeqStart;
      var flow := flowLevel > 0 || canonical || e.flowStyle || NextIs(EndOf(e.kind));
      if sequence {
        state := if flow then FlowSequenceFirst else BlockSequenceFirst;
      } else {
        state := if flow then FlowMappingFirst else BlockMappingFirst;
      }
      OpenCollection(Open(if sequence then Item else Key, flow, false, false), es);
    }

    method EmitLeaf(ghost es: seq<Open>)
      requires AtNode(es)
      modifies this`state, this`states, this`open, this`phase
      ensures Valid() && phase == Settle(Frames(es)) && open == es
    {
      hide Returns, Frames, FlowCount, Indents, LevelsFit, NoBlockInFlow, AllEntered, StateOf;
      LastReturn(es);
      open, phase := es, Settle(Frames(es));
      PopState();
    }

    ghost method OpenCollection(o: Open, es: seq<Open>)
      requires AtNode(es) && !o.entered && o.frame != Value && state == StateOf(o)
      requires flowLevel > 0 ==> o.flow
      requires mappingContext == UnderKey(es)
      modifies this`open, this`phase
      ensures Valid() && open == es + [o] && phase == Inside(Frames(es) + [o.frame])
    {
      hide Indents, Returns, LevelsFit, FlowCount, StateOf;
      Grown(es, o);
      FlowInside(es, o);
      hide Frames, NoBlockInFlow;
      open, phase := es + [o], Inside(Frames(es) + [o.frame]);
    }

    // ----- Collections -----------------------------------------------------------------

    /** The innermost collection has been entered; its return state is below. */
    ghost predicate AtEntered(outer: seq<Open>, top: Open)
      reads this`bestIndent, this`levels, this`indents, this`indent, this`flowLevel, this`states
    {
      states == Returns(outer) && Stacks(outer + [top])
    }

    /** The saved indents with the current one. */
    function Chain(): seq<int>
      reads this
    {
      indents + [indent]
    }

    /** First item: the indentation grows and a flow collection is counted. */
    method Enter(flow: bool, compact: bool, ghost outer: seq<Open>, ghost top: Open)
      requires states == Returns(outer) && Stacks(outer) && NoBlockInFlow(outer + [top]) && top.flow == flow
      requires compact ==> compactSequences && !flow && top.frame == Item && UnderKey(outer)
      modifies this`indents, this`indent, this`levels, this`flowLevel
      ensures AtEntered(outer, top.(entered := true))
      ensures levels == old(levels) + [Level(flow, InBlockSequence(outer, |outer|), compact)]
    {
      hide Indents, NextIndent, LevelsFit, AllEntered, NoBlockInFlow, FlowCount, Returns, InBlockSequence, StateOf;
      Entering(flow, compact, outer, top);
      IncreaseIndent(flow, compact);
      flowLevel := if flow then flowLevel + 1 else flowLevel;
    }

    lemma Entering(flow: bool, compact: bool, outer: seq<Open>, top: Open)
      requires states == Returns(outer) && Stacks(outer) && NoBlockInFlow(outer + [top]) && top.flow == flow
      requires compact ==> compactSequences && !flow && top.frame == Item && UnderKey(outer)
      ensures var es := outer + [top.(entered := true)];
              var l := Level(flow, states[|states| - 1] == BlockSequenceItem, compact);
              && FlowCount(es) == FlowCount(outer) + (if flow then 1 else 0)
              && LevelsFit(levels + [l], es, compactSequences) && AllEntered(es) && NoBlockInFlow(es)
              && l.inSequence == InBlockSequence(outer, |outer|)
    {
      hide Indents;
      ReturnTop(outer);
      Grown(outer, top.(entered := true));
      LevelsGrow(levels, outer, top, Level(flow, InBlockSequence(outer, |outer|), compact), compactSequences);
    }

    /** END: flow level, indent and state go back to what they were before the collection. */
    method Leave(flow: bool, ghost outer: seq<Open>, ghost top: Open)
      requires AtEntered(outer, top) && top.flow == flow
      modifies this`indents, this`indent, this`levels, this`flowLevel, this`state, this`states, this`open, this`phase
      ensures Valid() && open == outer && phase == Settle(Frames(outer)) && levels == old(levels)[..|outer|]
    {
      hide Indents, NextIndent;
      Grown(outer, top);
      if flow {
        flowLevel := flowLevel - 1;
      }
      RestoreIndent();
      LevelsShrink(old(levels), outer, top, compactSequences);
      EmitLeaf(outer);
    }

    /** Moving the innermost collection on does not touch the stacks. */
    lemma Moved(outer: seq<Open>, top: Open, after: Open)
      requires AtEntered(outer, top) && after.entered && after.flow == top.flow
      requires after.frame == (if top.frame == Key then Value else if top.frame == Value then Key else Item)
      ensures Stacks(outer + [after])
      ensures Returns(outer + [after]) == Returns(outer) + [StateOf(after)]
      ensures Frames(outer + [after]) == Advance(Frames(outer) + [top.frame])
    {
      hide Indents, NextIndent, LevelsFit, AllEntered, NoBlockInFlow;
      Grown(outer, after);
      Grown(outer, top);
      SameLevels(levels, outer, top, after, compactSequences);
      TopFrame(Frames(outer), top.frame);
    }

    /** Push the state to return to, then write the node. */
    method Place(e: Event, mapping: bool, resume: State, ghost outer: seq<Open>, ghost top: Open, ghost after: Open)
      returns (ok: bool)
      requires AtEntered(outer, top)
      requires after.entered && after.flow == top.flow && resume == StateOf(after)
      requires after.frame == (if top.frame == Key then Value else if top.frame == Value then Key else Item)
      requires mapping == (after.frame != Item)
      modifies this`state, this`states, this`indents, this`indent, this`levels, this`open, this`phase
      modifies this`mappingContext, this`failed
      ensures ok == Node(Frames(outer) + [top.frame], e.kind).Some?
      ensures ok ==> Valid() && Node(Frames(outer) + [top.frame], e.kind) == Some(phase)
      ensures ok ==> open == outer + [after] + Opened(e.kind, InFlow(e, outer + [after]))
      ensures ok ==> levels == old(levels) && failed == old(failed)
      ensures !ok ==> failed
    {
      hide Stacks, Returns, Frames, Advance, StateOf, Valid;
      Moved(outer, top, after);
      states := states + [resume];
      ok := EmitNode(e, mapping, outer + [after]);
    }

    // ----- The states ----------------------------------------------------------------

    ghost function Outer(): seq<Open>
      requires open != []
      reads this`open
    {
      open[..|open| - 1]
    }

    ghost function Top(): Open
      requires open != []
      reads this`open
    {
      open[|open| - 1]
    }

    /** The open collections once e has been taken inside one. */
    ghost function OpenAfter(e: Event): seq<Open>
      requires open != []
      reads this`open, this`events, this`eventsHead
    {
      if Ends(Top().frame, e.kind) then Outer() else Around(e) + Opened(e.kind, InFlow(e, Around(e)))
    }

    /** The open collections around the node e, as they are once it is placed. */
    ghost function Around(e: Event): seq<Open>
      reads this`open, this`events, this`eventsHead
    {
      if open == [] then [] else Outer() + [Following(Top(), Simple(e, Top().flow))]
    }

    /** The indentation levels then: the first item enters its collection, the end leaves it. */
    ghost function LevelsAfter(e: Event): seq<Level>
      requires open != []
      reads this`open, this`levels
    {
      var outer, top := Outer(), Top();
      var entered := if top.entered then levels else levels + [EntryLevel(outer, top, e)];
      if Ends(top.frame, e.kind) && |outer| <= |entered| then entered[..|outer|] else entered
    }

    /** The two, by cases. */
    lemma AfterItem(e: Event)
      requires open != []
      ensures var outer, top := Outer(), Top();
              if Ends(top.frame, e.kind) then OpenAfter(e) == outer
              else
                var es := outer + [Following(top, Simple(e, top.flow))];
                OpenAfter(e) == es + Opened(e.kind, InFlow(e, es))
      ensures var outer, top := Outer(), Top();
              var entered := if top.entered then levels else levels + [EntryLevel(outer, top, e)];
              && (!Ends(top.frame, e.kind) ==> LevelsAfter(e) == entered)
              && (Ends(top.frame, e.kind) && |outer| <= |entered| ==> LevelsAfter(e) == entered[..|outer|])
    {}

    /** The level of a collection whose first item, or whose end, is e. */
    function EntryLevel(outer: seq<Open>, top: Open, e: Event): Level {
      Level(top.flow, InBlockSequence(outer, |outer|),
            top.frame == Item && !top.flow && UnderKey(outer) && e.atStart && compactSequences)
    }

    /** What the state says about the innermost collection. */
    lemma Served(frame: Frame, flow: bool, entered: bool)
      requires Valid() && phase.Inside? && frame != Value && state == StateOf(Open(frame, flow, entered, false))
      ensures open != [] && open == Outer() + [Top()] && phase == Inside(Frames(open))
      ensures Top().frame == frame && Top().flow == flow && Top().entered == entered
      ensures entered ==> AtEntered(Outer(), Top())
      ensures !entered ==> states == Returns(Outer()) && Stacks(Outer()) && NoBlockInFlow(Outer() + [Top()])
      ensures !entered ==> mappingContext == UnderKey(Outer())
      ensures |levels| == |open| - (if entered then 0 else 1)
    {
      hide Returns, Frames, FlowCount, LevelsFit, AllEntered, NoBlockInFlow;
      assert open == Outer() + [Top()];
    }

    lemma ServedValue(flow: bool, simple: bool)
      requires Valid() && phase.Inside? && state == StateOf(Open(Value, flow, true, simple))
      ensures open != [] && open == Outer() + [Top()] && phase == Inside(Frames(open))
      ensures Top().frame == Value && Top().flow == flow && Top().entered
      ensures AtEntered(Outer(), Top())
    {
      hide Returns, Frames, FlowCount, LevelsFit, AllEntered, NoBlockInFlow;
      assert open == Outer() + [Top()];
    }

    /** yaml_emitter_emit_flow_sequence_item and yaml_emitter_emit_block_sequence_item. */
    method SequenceItem(e: Event, flow: bool, first: bool) returns (ok: bool)
      requires Valid() && phase.Inside?
      requires state == StateOf(Open(Item, flow, !first, false))
      modifies this`state, this`states, this`indents, this`indent, this`levels, this`flowLevel, this`open, this`phase
      modifies this`mappingContext, this`failed
      ensures ok == Next(old(phase), e.kind).Some?
      ensures ok ==> Valid() && Next(old(phase), e.kind) == Some(phase) && failed == old(failed)
      ensures ok ==> open == old(OpenAfter(e)) && levels == old(LevelsAfter(e))
      ensures !ok ==> failed
    {
      hide Valid, AtEntered, Stacks, StateOf, Returns, Frames, NoBlockInFlow, Next, Node;
      hide OpenAfter, LevelsAfter, InFlow, Opened;
      Served(Item, flow, !first);
      ghost var outer, top := Outer(), Top();
      InsideNext(outer, top, e.kind);
      AfterItem(e);
      if first {
        var compact := !flow && mappingContext && e.atStart && compactSequences;
        Enter(flow, compact, outer, top);
      }
      ok := ItemOrEnd(e, flow, outer, top.(entered := true));
    }

    method ItemOrEnd(e: Event, flow: bool, ghost outer: seq<Open>, ghost inner: Open) returns (ok: bool)
      requires AtEntered(outer, inner) && inner.frame == Item && inner.flow == flow && inner.entered
      modifies this`state, this`states, this`indents, this`indent, this`levels, this`flowLevel, this`open, this`phase
      modifies this`mappingContext, this`failed
      ensures e.kind == SeqEnd ==> ok && Valid() && open == outer && phase == Settle(Frames(outer))
      ensures e.kind == SeqEnd ==> levels == old(levels)[..|outer|]
      ensures e.kind != SeqEnd ==> ok == Node(Frames(outer) + [Item], e.kind).Some?
      ensures e.kind != SeqEnd && ok ==> Valid() && Node(Frames(outer) + [Item], e.kind) == Some(phase)
      ensures e.kind != SeqEnd && ok ==> open == outer + [inner] + Opened(e.kind, InFlow(e, outer + [inner]))
      ensures e.kind != SeqEnd && ok ==> levels == old(levels)
      ensures ok ==> failed == old(failed)
      ensures !ok ==> failed
    {
      hide Valid, AtEntered, Stacks, Returns, Frames, Next, Node;
      if e.kind == SeqEnd {
        Leave(flow, outer, inner);
        return true;
      }
      ok := Place(e, false, if flow then FlowSequenceItem else BlockSequenceItem, outer, inner, inner);
    }

    /** yaml_emitter_emit_flow_mapping_key and yaml_emitter_emit_block_mapping_key. */
    method MappingKey(e: Event, flow: bool, first: bool) returns (ok: bool)
      requires Valid() && phase.Inside?
      requires state == StateOf(Open(Key, flow, !first, false))
      modifies this`state, this`states, this`indents, this`indent, this`levels, this`flowLevel, this`open, this`phase
      modifies this`mappingContext, this`failed
      ensures ok == Next(old(phase), e.kind).Some?
      ensures ok ==> Valid() && Next(old(phase), e.kind) == Some(phase) && failed == old(failed)
      ensures ok ==> open == old(OpenAfter(e)) && levels == old(LevelsAfter(e))
      ensures !ok ==> failed
    {
      hide Valid, AtEntered, Stacks, StateOf, Returns, Frames, NoBlockInFlow, InBlockSequence, Next, Node;
      hide OpenAfter, LevelsAfter, InFlow, Opened, Simple;
      Served(Key, flow, !first);
      ghost var outer, top := Outer(), Top();
      InsideNext(outer, top, e.kind);
      AfterItem(e);
      if first {
        Enter(flow, false, outer, top);
      }
      ok := KeyOrEnd(e, flow, outer, top.(entered := true));
    }

    method KeyOrEnd(e: Event, flow: bool, ghost outer: seq<Open>, ghost inner: Open) returns (ok: bool)
      requires AtEntered(outer, inner) && inner.frame == Key && inner.flow == flow && inner.entered
      modifies this`state, this`states, this`indents, this`indent, this`levels, this`flowLevel, this`open, this`phase
      modifies this`mappingContext, this`failed
      ensures e.kind == MapEnd ==> ok && Valid() && open == outer && phase == Settle(Frames(outer))
      ensures e.kind == MapEnd ==> levels == old(levels)[..|outer|]
      ensures e.kind != MapEnd ==> ok == Node(Frames(outer) + [Key], e.kind).Some?
      ensures e.kind != MapEnd && ok ==> Valid() && Node(Frames(outer) + [Key], e.kind) == Some(phase)
      ensures e.kind != MapEnd && ok ==>
                var es := outer + [Following(inner, Simple(e, flow))];
                open == es + Opened(e.kind, InFlow(e, es)) && levels == old(levels)
      ensures ok ==> failed == old(failed)
      ensures !ok ==> failed
    {
      hide Valid, AtEntered, Stacks, Returns, Frames, Next, Node;
      if e.kind == MapEnd {
        Leave(flow, outer, inner);
        return true;
      }
      var simple := Simple(e, flow);
      ok := Place(e, true, StateOf(Open(Value, flow, true, simple)), outer, inner, Open(Value, flow, true, simple));
    }

    /** yaml_emitter_emit_flow_mapping_value and yaml_emitter_emit_block_mapping_value. */
    method MappingValue(e: Event, flow: bool, simple: bool) returns (ok: bool)
      requires Valid() && phase.Inside?
      requires state == StateOf(Open(Value, flow, true, simple))
      modifies this`state, this`states, this`indents, this`indent, this`levels, this`flowLevel, this`open, this`phase
      modifies this`mappingContext, this`failed
      ensures ok == Next(old(phase), e.kind).Some?
      ensures ok ==> Valid() && Next(old(phase), e.kind) == Some(phase) && failed == old(failed)
      ensures ok ==> open == old(OpenAfter(e)) && levels == old(LevelsAfter(e))
      ensures !ok ==> failed
    {
      hide Valid, AtEntered, Stacks, Returns, Frames, NoBlockInFlow, InBlockSequence, Next, Node;
      hide OpenAfter, LevelsAfter, InFlow, Opened, Simple;
      ServedValue(flow, simple);
      ghost var outer, top := Outer(), Top();
      InsideNext(outer, top, e.kind);
      AfterItem(e);
      ok := Place(e, true, if flow then FlowMappingKey else BlockMappingKey, outer, top, Open(Key, flow, true, false));
    }

    /** yaml_emitter_emit_stream_start. */
    method StartStream(e: Event) returns (ok: bool)
      requires Valid() && phase == Fresh
      modifies this`bestIndent, this`indent, this`state, this`phase, this`failed
      ensures ok == (e.kind == StreamStart)
      ensures ok ==> Valid() && phase == Between && Chain() == [-1] && failed == old(failed)
      ensures ok ==> bestIndent == if 2 <= old(bestIndent) <= 9 then old(bestIndent) else 2
      ensures !ok ==> failed
    {
      if e.kind != StreamStart {
        failed := true;
        return false;
      }
      if bestIndent < 2 || bestIndent > 9 {
        bestIndent := 2;
      }
      indent := -1;
      state := FirstDocumentState;
      phase := Between;
      return true;
    }

    /** yaml_emitter_emit_document_start, for directives that pass analysis. */
    method StartDocument(e: Event) returns (ok: bool)
      requires Valid() && phase == Between
      modifies this`state, this`phase, this`failed
      ensures ok == (e.kind in {DocStart, StreamEnd})
      ensures ok ==> Valid() && Next(Between, e.kind) == Some(phase) && failed == old(failed)
      ensures !ok ==> failed
    {
      if e.kind == DocStart {
        state, phase := ContentState, Root;
        return true;
      }
      if e.kind == StreamEnd {
        state, phase := EndState, Done;
        return true;
      }
      failed := true;
      return false;
    }

    /** Before the root node nothing is open. */
    lemma AtRoot(k: Kind)
      requires Valid() && phase == Root
      ensures states == [] && Stacks([]) && Returns([]) == [DocumentEndState] && Frames([]) == []
      ensures Next(Root, k) == match k
              case AliasEvent => Some(Settle([])) case ScalarEvent => Some(Settle([]))
              case SeqStart => Some(Inside([Item])) case MapStart => Some(Inside([Key]))
              case _ => None
    {
      assert Advance([]) == [] && [] + [Item] == [Item] && [] + [Key] == [Key];
    }

    /** yaml_emitter_emit_document_content. */
    method DocumentContent(e: Event) returns (ok: bool)
      requires Valid() && phase == Root
      modifies this`state, this`states, this`indents, this`indent, this`levels, this`open, this`phase
      modifies this`mappingContext, this`failed
      ensures ok == Next(Root, e.kind).Some?
      ensures ok ==> Valid() && Next(Root, e.kind) == Some(phase) && failed == old(failed)
      ensures ok ==> open == Opened(e.kind, InFlow(e, [])) && levels == old(levels)
      ensures !ok ==> failed
    {
      hide Settle, Frames, InFlow, Opened, Valid;
      AtRoot(e.kind);
      states := states + [DocumentEndState];
      ok := EmitNode(e, false, []);
      assert [] + Opened(e.kind, InFlow(e, [])) == Opened(e.kind, InFlow(e, []));
      assert [] + [Item] == [Item] && [] + [Key] == [Key];
    }

    /** yaml_emitter_emit_document_end. */
    method EndDocument(e: Event) returns (ok: bool)
      requires Valid() && phase == Close
      modifies this`state, this`phase, this`failed
      ensures ok == (e.kind == DocEnd)
      ensures ok ==> Valid() && phase == Between && failed == old(failed)
      ensures !ok ==> failed
    {
      if e.kind != DocEnd {
        failed := true;
        return false;
      }
      state, phase := DocumentState, Between;
      return true;
    }

    // ----- The dispatcher and the queue --------------------------------------------------

    /** yaml_emitter_state_machine: every event is taken exactly when the recogniser takes it. */
    method StateMachine(e: Event) returns (ok: bool)
      requires Valid()
      modifies this`bestIndent, this`state, this`states, this`indents, this`indent, this`levels, this`flowLevel
      modifies this`open, this`phase, this`mappingContext, this`failed
      ensures ok == Next(old(phase), e.kind).Some?
      ensures ok ==> Valid() && Next(old(phase), e.kind) == Some(phase) && failed == old(failed)
      ensures ok && old(phase).Inside? ==> old(open) != [] && open == old(OpenAfter(e)) && levels == old(LevelsAfter(e))
      ensures ok && old(phase).Root? ==> open == Opened(e.kind, InFlow(e, [])) && levels == old(levels)
      ensures ok ==> bestIndent == if !old(phase).Fresh? || 2 <= old(bestIndent) <= 9 then old(bestIndent) else 2
      ensures !ok ==> failed
    {
      hide Valid, Next, Opened, InFlow, OpenAfter, LevelsAfter;
      InsideState();
      NextOf(phase, e.kind);
      match state {
        case StreamStartState => ok := StartStream(e);
        case FirstDocumentState => ok := StartDocument(e);
        case DocumentState => ok := StartDocument(e);
        case ContentState => ok := DocumentContent(e);
        case DocumentEndState => ok := EndDocument(e);
        case FlowSequenceFirst => ok := SequenceItem(e, true, true);
        case FlowSequenceItem => ok := SequenceItem(e, true, false);
        case FlowMappingFirst => ok := MappingKey(e, true, true);
        case FlowMappingKey => ok := MappingKey(e, true, false);
        case FlowMappingSimpleValue => ok := MappingValue(e, true, true);
        case FlowMappingValue => ok := MappingValue(e, true, false);
        case BlockSequenceFirst => ok := SequenceItem(e, false, true);
        case BlockSequenceItem => ok := SequenceItem(e, false, false);
        case BlockMappingFirst => ok := MappingKey(e, false, true);
        case BlockMappingKey => ok := MappingKey(e, false, false);
        case BlockMappingSimpleValue => ok := MappingValue(e, false, true);
        case BlockMappingValue => ok := MappingValue(e, false, false);
        case EndState =>
          failed := true;
          ok := false;
      }
    }

    /** The state tells the phase. */
    lemma InsideState()
      requires Valid()
      ensures phase == Fresh <==> state == StreamStartState
      ensures phase == Between <==> state == FirstDocumentState || state == DocumentState
      ensures phase == Root <==> state == ContentState
      ensures phase == Close <==> state == DocumentEndState
      ensures phase == Done <==> state == EndState
      ensures phase.Inside? ==> open != []
    {}

    /** The collections whose first item has been reached. */
    ghost function Entered(): seq<Open>
      reads this`open
    {
      if open != [] && !open[|open| - 1].entered then open[..|open| - 1] else open
    }

    /** In every state inside a document the three stacks mirror the open collections. */
    lemma StackDiscipline()
      requires Valid() && phase.Inside?
      ensures |states| == |open| == |phase.open|
      ensures |indents| == |Entered()| && flowLevel == FlowCount(Entered())
      ensures NoBlockInFlow(open)
      ensures LevelsFit(levels, Entered(), compactSequences) && Descends(bestIndent, levels, Chain())
      ensures (!compactSequences || bestIndent % 2 == 0) ==> NonDecreasing(Chain())
    {
      hide Indents, FlowCount, NoBlockInFlow, LevelsFit, Descends, AllEntered, Returns, Frames;
      assert |indents + [indent]| == |levels| + 1;
      IndentsExactly(bestIndent, levels, Chain());
      if !compactSequences || bestIndent % 2 == 0 {
        if !compactSequences {
          NoneCompact(levels, Entered());
        }
        IndentsGrow(bestIndent, levels);
      }
    }

    /** The queue is consistent: what was processed led here, and the emitter waits only when it must. */
    ghost predicate Consistent()
      reads this
    {
      && Valid()
      && eventsHead <= |events|
      && Run(Fresh, Kinds(events[..eventsHead])) == Some(phase)
      && NeedMore(Kinds(events[eventsHead..]))
      && FlowAsDue(events, eventsHead, flows, canonical)
    }

    /**
     A start opens a flow collection exactly if a flow collection is open around it, the emitter is
     canonical, it asks for flow style, or its end comes next.
     */
    lemma OpensFlow(e: Event, es: seq<Open>)
      requires StartsCollection(e.kind) && open == es + Opened(e.kind, InFlow(e, es))
      ensures open != [] && Outer() == es
      ensures Top().flow <==>
                canonical || e.flowStyle || NextIs(EndOf(e.kind)) || exists i :: 0 <= i < |es| && es[i].flow
    {
      FlowIsOpen(es);
      assert open[..|open| - 1] == es;
    }

    lemma RootIsEmpty()
      requires Valid()
      ensures phase == Root ==> open == []
      ensures phase.Inside? ==> phase == Inside(Frames(open)) && open != []
    {}

    /** The head has been processed. */
    method Record(head: Event)
      requires FlowAsDue(events, eventsHead, flows, canonical) && eventsHead < |events| && head == events[eventsHead]
      requires StartsCollection(head.kind) ==> open != [] && Due(events, eventsHead, Top().flow, canonical)
      modifies this`flows, this`eventsHead
      ensures eventsHead == old(eventsHead) + 1 && FlowAsDue(events, eventsHead, flows, canonical)
    {
      hide FlowAsDue;
      ghost var flow := StartsCollection(head.kind) && Top().flow;
      FlowsMore(events, eventsHead, flows, canonical, flow);
      flows := flows + [flow];
      eventsHead := eventsHead + 1;
    }

    /** The head of the queue, once it need not wait. */
    method Process(head: Event) returns (taken: bool)
      requires Valid() && FlowAsDue(events, eventsHead, flows, canonical)
      requires eventsHead < |events| && head == events[eventsHead]
      requires StartsCollection(head.kind) ==> eventsHead + 1 < |events|
      modifies this
      ensures events == old(events) && taken == Next(old(phase), head.kind).Some?
      ensures taken ==> Valid() && Next(old(phase), head.kind) == Some(phase) && failed == old(failed)
      ensures taken ==> eventsHead == old(eventsHead) + 1 && FlowAsDue(events, eventsHead, flows, canonical)
      ensures !taken ==> failed && eventsHead == old(eventsHead)
    {
      hide Next, Valid, FlowAsDue, LevelsAfter, OpenAfter, Opened, InFlow, Simple, Following;
      NextOf(phase, head.kind);
      InsideState();
      RootIsEmpty();
      if phase.Inside? {
        AfterItem(head);
      }
      ghost var es := Around(head);
      taken := StateMachine(head);
      if taken {
        if StartsCollection(head.kind) {
          OpensFlow(head, es);
        }
        Record(head);
      }
    }

    /**
     yaml_emitter_emit.  Events are processed once each and in order; at most three wait; a
     stream or document end leaves none waiting; an error means the events are no stream.
     Consistent says, among other things, that a collection that asked for flow style or whose end
     came next was opened in flow style.
     */
    method Emit(e: Event) returns (ok: bool)
      requires Consistent()
      modifies this
      ensures events == old(events) + [e]
      ensures ok ==> Consistent() && failed == old(failed) && |events| - eventsHead <= 3
      ensures ok ==> FlowAsDue(events, eventsHead, flows, canonical)
      ensures ok && Run(Fresh, Kinds(events)) in {Some(Between), Some(Done)} ==>
                eventsHead == |events| && Run(Fresh, Kinds(events)) == Some(phase)
      ensures !ok ==> failed && eventsHead < |events|
      ensures !ok && events[eventsHead].sound ==> Run(Fresh, Kinds(events[..eventsHead + 1])) == None
    {
      hide Run, NeedMore, Next, Valid, FlowAsDue;
      FlowsKept(events, eventsHead, flows, canonical, e);
      events := events + [e];
      assert events[..eventsHead] == old(events)[..eventsHead];
      while true
        invariant Valid() && eventsHead <= |events| && events == old(events) + [e] && failed == old(failed)
        invariant Run(Fresh, Kinds(events[..eventsHead])) == Some(phase)
        invariant FlowAsDue(events, eventsHead, flows, canonical)
        decreases |events| - eventsHead
      {
        var need := NeedMoreEvents(Kinds(events[eventsHead..]));
        if need {
          break;
        }
        NothingMeansMore(Kinds(events[eventsHead..]));
        var head := events[eventsHead];
        if !head.sound {
          failed := true;
          return false;
        }
        RunMore(events, eventsHead, phase);
        QueueBounds(Kinds(events[eventsHead..]));
        var taken := Process(head);
        if !taken {
          return false;
        }
      }
      QueueBounds(Kinds(events[eventsHead..]));
      Drained(events, eventsHead);
      return true;
    }
  }

  lemma PrefixRuns(es: seq<Event>, n: nat)
    requires n <= |es| && Run(Fresh, Kinds(es[..n])) == None
    ensures Run(Fresh, Kinds(es)) == None
  {
    assert Kinds(es) == Kinds(es[..n]) + Kinds(es[n..]);
    RunConcat(Fresh, Kinds(es[..n]), Kinds(es[n..]));
  }

  /**
   A fresh emitter fed es ends in the end state with nothing waiting exactly when es is a
   stream of the grammar, whatever styles, keys and widths decide along the way.
   */
  method EmitAll(m: Machine, es: seq<Event>) returns (ok: bool)
    requires m.Consistent() && m.phase == Fresh && m.events == [] && !m.failed
    requires forall i :: 0 <= i < |es| ==> es[i].sound
    modifies m
    ensures ok ==> m.Consistent()
    ensures (ok && m.state == EndState && m.eventsHead == |m.events|)
            <==> exists docs :: AllWellFormed(docs) && Kinds(es) == StreamWord(docs)
  {
    hide Run, NeedMore, Next;
    AcceptsExactlyStreams(Kinds(es));
    hide Kinds;
    var i := 0;
    ok := true;
    while i < |es|
      invariant i <= |es| && m.Consistent() && m.events == es[..i]
    {
      assert es[..i + 1] == es[..i] + [es[i]];
      ok := m.Emit(es[i]);
      i := i + 1;
      if !ok {
        assert m.events[..m.eventsHead + 1] == es[..m.eventsHead + 1];
        PrefixRuns(es, m.eventsHead + 1);
        return;
      }
    }
    assert es[..i] == es;
    assert m.eventsHead == |m.events| ==> m.events[..m.eventsHead] == es;
    Drained(es, m.eventsHead);
    m.InsideState();
  }
}
