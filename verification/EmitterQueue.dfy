/**
 The emitter's lookahead queue (go-yaml/emitterc.go:133-202): how many events are held
 back, and why holding them back loses nothing.
 */
module EmitterQueue {
  import opened Wrappers
  import opened EmitterGrammar

  /** How many events after the head must be known before the head is processed. */
  function Accumulate(k: Kind): nat {
    match k
    case DocStart => 1
    case SeqStart => 2
    case MapStart => 3
    case _ => 0
  }

  function Delta(k: Kind): int {
    match k
    case StreamStart => 1
    case DocStart => 1
    case SeqStart => 1
    case MapStart => 1
    case StreamEnd => -1
    case DocEnd => -1
    case SeqEnd => -1
    case MapEnd => -1
    case _ => 0
  }

  /** The nesting level after the first n events of q. */
  function Level(q: seq<Kind>, n: nat): int
    requires n <= |q|
  {
    if n == 0 then 0 else Level(q, n - 1) + Delta(q[n - 1])
  }

  ghost predicate NeedMore(q: seq<Kind>) {
    || q == []
    || (0 < |q| <= Accumulate(q[0]) && forall n :: 0 < n <= |q| ==> Level(q, n) != 0)
  }

  /** yaml_emitter_need_more_events, on the kinds of the pending events. */
  method NeedMoreEvents(q: seq<Kind>) returns (need: bool)
    ensures need == NeedMore(q)
  {
    if q == [] {
      return true;
    }
    var accumulate := Accumulate(q[0]);
    if accumulate == 0 || |q| > accumulate {
      return false;
    }
    var level, i := 0, 0;
    while i < |q|
      invariant i <= |q| && level == Level(q, i)
      invariant forall n :: 0 < n <= i ==> Level(q, n) != 0
    {
      level := level + Delta(q[i]);
      i := i + 1;
      if level == 0 {
        assert Level(q, i) == 0;
        return false;
      }
    }
    return true;
  }

  /** At most three events wait; and whenever a collection start is processed, its successor is known. */
  lemma QueueBounds(q: seq<Kind>)
    ensures NeedMore(q) ==> |q| <= 3
    ensures q != [] && (q[0] == SeqStart || q[0] == MapStart) && !NeedMore(q) ==> |q| >= 2
  {
    if q != [] && (q[0] == SeqStart || q[0] == MapStart) && |q| == 1 {
      assert Level(q, 1) == Level(q, 0) + Delta(q[0]) == 1;
    }
  }

  lemma {:induction false} FlatLevel(k: Kind, rest: seq<Kind>, n: nat)
    requires forall i :: 0 <= i < |rest| ==> rest[i] in {ScalarEvent, AliasEvent}
    requires 0 < n <= |rest| + 1
    ensures Level([k] + rest, n) == Delta(k)
  {
    var q := [k] + rest;
    if n == 1 {
      assert Level(q, 1) == Level(q, 0) + Delta(q[0]);
    } else {
      FlatLevel(k, rest, n - 1);
      assert q[n - 1] == rest[n - 2];
    }
  }

  /** Before leaves a document start waits for one more event, a sequence for two, a mapping for three; others never. */
  lemma WaitsExactly(k: Kind, rest: seq<Kind>)
    requires forall i :: 0 <= i < |rest| ==> rest[i] in {ScalarEvent, AliasEvent}
    ensures NeedMore([k] + rest) <==>
              || (k == DocStart && |rest| < 1) || (k == SeqStart && |rest| < 2) || (k == MapStart && |rest| < 3)
  {
    var q := [k] + rest;
    forall n | 0 < n <= |q|
      ensures Level(q, n) == Delta(k)
    {
      FlatLevel(k, rest, n);
    }
  }

  lemma {:induction false} SameLevel(p: seq<Kind>, q: seq<Kind>, n: nat)
    requires n <= |p| && p <= q
    ensures Level(p, n) == Level(q, n)
  {
    if n > 0 {
      SameLevel(p, q, n - 1);
      assert p[n - 1] == q[n - 1];
    }
  }

  /** Once the head's own end is there, nothing more is waited for. */
  lemma EndIsEnough(k: Kind, w: seq<Kind>, end: Kind, rest: seq<Kind>)
    requires Level([k] + w, |w| + 1) == 1 && Delta(end) == -1
    ensures !NeedMore([k] + w + [end] + rest)
  {
    var q, front := [k] + w + [end] + rest, [k] + w;
    SameLevel(front, q, |w| + 1);
    assert Level(q, |w| + 2) == Level(q, |w| + 1) + Delta(q[|w| + 1]);
  }

  // ----- Documents drain the queue -------------------------------------------------------

  /** Nesting depth of a phase: one for the stream, one for a document, one per collection. */
  function Depth(p: Phase): nat {
    match p
    case Fresh => 0
    case Between => 1
    case Root => 2
    case Inside(open) => 2 + |open|
    case Close => 2
    case Done => 0
  }

  lemma DepthStep(p: Phase, k: Kind)
    requires Next(p, k).Some?
    ensures Depth(Next(p, k).value) == Depth(p) + Delta(k)
  {}

  /** Along a run, level is the change of depth. */
  lemma {:induction false} LevelIsDepth(p: Phase, q: seq<Kind>, n: nat) returns (mid: Phase)
    requires n <= |q| && Run(p, q).Some?
    ensures Run(p, q[..n]) == Some(mid) && Run(mid, q[n..]) == Run(p, q)
    ensures Level(q, n) == Depth(mid) - Depth(p)
  {
    assert q == q[..n] + q[n..];
    RunConcat(p, q[..n], q[n..]);
    mid := Run(p, q[..n]).value;
    if n > 0 {
      var before := LevelIsDepth(p, q, n - 1);
      assert q[..n] == q[..n - 1] + [q[n - 1]];
      RunConcat(p, q[..n - 1], [q[n - 1]]);
      RunOne(before, q[n - 1]);
      DepthStep(before, q[n - 1]);
    }
  }

  /** A level that starts above zero and ends at or below zero is zero in between. */
  lemma {:induction false} LevelCrosses(q: seq<Kind>, lo: nat, hi: nat) returns (n: nat)
    requires lo <= hi <= |q| && Level(q, lo) > 0 && Level(q, hi) <= 0
    ensures lo < n <= hi && Level(q, n) == 0
    decreases hi
  {
    if Level(q, hi) == 0 {
      n := hi;
    } else {
      n := LevelCrosses(q, lo, hi - 1);
    }
  }

  /**
   Whenever everything emitted so far ends a document or the stream, no suffix of it
   is worth waiting for: the queue is drained.
   */
  lemma DocumentEndDrains(w: seq<Kind>, j: nat)
    requires j <= |w|
    requires Run(Fresh, w) == Some(Between) || Run(Fresh, w) == Some(Done)
    ensures NeedMore(w[j..]) ==> j == |w|
  {
    var q := w[j..];
    if j < |w| && Accumulate(q[0]) > 0 {
      var before := LevelIsDepth(Fresh, w, j);
      var end := LevelIsDepth(before, q, |q|);
      assert q[|q|..] == [];
      assert Run(before, q) == Some(end);
      assert Level(q, 1) == Level(q, 0) + Delta(q[0]) == 1;
      assert Next(before, q[0]).Some?;
      assert Depth(before) >= 1;
      assert Level(q, |q|) <= 0;
      var n := LevelCrosses(q, 1, |q|);
    }
  }
}
