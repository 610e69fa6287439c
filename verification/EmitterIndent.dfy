/**
 Indentation (go-yaml/emitterc.go:228-254): the stack of indents of nested collections
 and when it is sure never to step back.
 */
module EmitterIndent {

  /**
   One entered collection or scalar: whether it is written in flow style, whether it is an
   item of a block sequence, and whether the compact form of a sequence under a key is used.
   */
  datatype Level = Level(flow: bool, inSequence: bool, compact: bool)

  /** yaml_emitter_increase_indent_compact, with indentless always false as in the source. */
  function NextIndent(best: int, indent: int, l: Level): int
    requires best > 0
  {
    if indent < 0 then (if l.flow then best else 0)
    else if l.inSequence then indent + 2
    else best * ((indent + best) / best) - (if l.compact then 2 else 0)
  }

  /**
   One level deeper, by what it is for.  An item of a block sequence skips the "- " indicator;
   everything else goes to the next multiple of the best indent, a compact sequence two short of it,
   which puts the text after its indicator there.
   */
  predicate Deeper(best: int, indent: int, l: Level, next: int)
    requires best > 0
  {
    if indent < 0 then next == if l.flow then best else 0
    else if l.inSequence then next == indent + 2
    else
      var m := next + if l.compact then 2 else 0;
      m % best == 0 && indent < m <= indent + best
  }

  /** The indents of nested levels, from -1 at the document. */
  function Indents(best: int, ls: seq<Level>): (r: seq<int>)
    requires best > 0
    ensures |r| == |ls| + 1
  {
    if ls == [] then [-1]
    else
      var r := Indents(best, ls[..|ls| - 1]);
      r + [NextIndent(best, r[|r| - 1], ls[|ls| - 1])]
  }

  predicate NonDecreasing(r: seq<int>) {
    forall i :: 0 < i < |r| ==> r[i - 1] <= r[i]
  }

  lemma Regroup(h: int, q: int)
    ensures 2 * h * q == 2 * (h * q)
  {}

  lemma Even(k: int)
    ensures (2 * k) % 2 == 0
  {}

  lemma EvenMultiple(h: int, q: int)
    ensures (2 * h * q) % 2 == 0
  {
    Regroup(h, q);
    Even(h * q);
  }

  /** The next multiple of best after indent. */
  lemma NextMultiple(best: int, indent: int)
    requires 2 <= best && indent >= 0
    ensures var m := best * ((indent + best) / best);
            indent < m <= indent + best && m >= best && (best % 2 == 0 ==> m % 2 == 0)
  {
    var q := (indent + best) / best;
    assert indent + best == best * q + (indent + best) % best;
    assert best * q > indent >= 0;
    assert q >= 1;
    if best % 2 == 0 {
      EvenMultiple(best / 2, q);
      assert best == 2 * (best / 2);
    }
  }

  lemma Away(best: int, k: int)
    requires best > 0
    ensures (k >= 1 ==> best * k >= best) && (k <= -1 ==> best * k <= -best)
  {
    if k >= 1 {
      assert best * k == best + best * (k - 1);
    } else if k <= -1 {
      assert best * k == best * (k + 1) - best;
    }
  }

  lemma Quotient(best: int, m: int)
    requires best > 0
    ensures m == best * (m / best) + m % best && 0 <= m % best < best
  {}

  lemma Multiple(best: int, q: int)
    requires best > 0
    ensures best * q % best == 0
  {
    var m := best * q;
    Quotient(best, m);
    var k := m / best;
    assert best * (q - k) == best * q - best * k;
    Away(best, q - k);
  }

  /** A stretch as long as best holds one multiple of it. */
  lemma OneMultiple(best: int, indent: int, m: int, n: int)
    requires best > 0 && m % best == 0 && n % best == 0
    requires indent < m <= indent + best && indent < n <= indent + best
    ensures m == n
  {
    Quotient(best, m);
    Quotient(best, n);
    var p, q := m / best, n / best;
    assert best * (p - q) == best * p - best * q;
    Away(best, p - q);
  }

  lemma DeeperExactly(best: int, indent: int, l: Level, next: int)
    requires best >= 2
    ensures Deeper(best, indent, l, next) <==> next == NextIndent(best, indent, l)
  {
    if indent >= 0 && !l.inSequence {
      var q, m := (indent + best) / best, next + if l.compact then 2 else 0;
      NextMultiple(best, indent);
      Multiple(best, q);
      if Deeper(best, indent, l, next) {
        OneMultiple(best, indent, m, best * q);
      }
    }
  }

  /** A chain of indents, one for the document and one for each level, every one as deep as its level asks. */
  predicate Descends(best: int, ls: seq<Level>, r: seq<int>)
    requires best > 0
  {
    && |r| == |ls| + 1 && r[0] == -1
    && forall i :: 0 <= i < |ls| ==> Deeper(best, r[i], ls[i], r[i + 1])
  }

  lemma {:induction false} IndentsDescend(best: int, ls: seq<Level>)
    requires best >= 2
    ensures Descends(best, ls, Indents(best, ls))
  {
    hide NextIndent, Deeper;
    if ls != [] {
      var n, r := |ls| - 1, Indents(best, ls);
      IndentsDescend(best, ls[..n]);
      assert r[..n + 1] == Indents(best, ls[..n]);
      DeeperExactly(best, r[n], ls[n], r[n + 1]);
      forall i | 0 <= i < |ls|
        ensures Deeper(best, r[i], ls[i], r[i + 1])
      {
        if i < n {
          assert r[..n + 1][i] == r[i] && r[..n + 1][i + 1] == r[i + 1] && ls[..n][i] == ls[i];
        }
      }
    }
  }

  lemma {:induction false} DescendsOnce(best: int, ls: seq<Level>, r: seq<int>)
    requires best >= 2 && Descends(best, ls, r)
    ensures r == Indents(best, ls)
  {
    hide NextIndent, Deeper;
    if ls != [] {
      var n := |ls| - 1;
      DescendsOnce(best, ls[..n], r[..n + 1]);
      DeeperExactly(best, r[n], ls[n], r[n + 1]);
      assert r == r[..n + 1] + [r[n + 1]];
    }
  }

  /** The indents of nested levels are the one chain that does. */
  lemma IndentsExactly(best: int, ls: seq<Level>, r: seq<int>)
    requires best >= 2
    ensures Descends(best, ls, r) <==> r == Indents(best, ls)
  {
    hide Indents, Descends;
    IndentsDescend(best, ls);
    if Descends(best, ls, r) {
      DescendsOnce(best, ls, r);
    }
  }

  /** One level deeper, when the compact form is used only with an even best indent. */
  lemma NextIndentGrows(best: int, indent: int, l: Level)
    requires 2 <= best && -1 <= indent
    requires best % 2 == 0 || !l.compact
    requires best % 2 == 0 && indent >= 0 ==> indent % 2 == 0
    ensures var next := NextIndent(best, indent, l);
            next >= 0 && next >= indent && (best % 2 == 0 ==> next % 2 == 0)
  {
    if indent >= 0 {
      NextMultiple(best, indent);
    }
  }

  /** Without compact sequences, or with an even best indent, nesting never decreases the indent. */
  lemma {:induction false} IndentsGrow(best: int, ls: seq<Level>)
    requires 2 <= best
    requires best % 2 == 0 || forall i :: 0 <= i < |ls| ==> !ls[i].compact
    ensures var r := Indents(best, ls);
            NonDecreasing(r) && forall i :: 0 < i < |r| ==> r[i] >= 0 && (best % 2 == 0 ==> r[i] % 2 == 0)
  {
    hide NextIndent;
    if ls != [] {
      var front := ls[..|ls| - 1];
      IndentsGrow(best, front);
      var r := Indents(best, front);
      NextIndentGrows(best, r[|r| - 1], ls[|ls| - 1]);
    }
  }

  function Nested(n: nat): seq<Level> {
    seq(n, i => Level(false, i > 0, false))
  }

  lemma {:induction false} NestedIndents(best: int, n: nat)
    requires best > 0 && n > 0
    ensures Indents(best, Nested(n))[n] == 2 * (n - 1)
  {
    var front := Nested(n)[..n - 1];
    assert front == Nested(n - 1);
    if n > 1 {
      NestedIndents(best, n - 1);
    }
  }

  /**
   Block sequences nested (best - 1) / 2 deep, a mapping inside, and under one of its keys a
   compact sequence: with an odd best indent that sequence is written left of its own key.
   */
  function SteppingBack(best: nat): seq<Level> {
    Nested((best + 1) / 2) + [Level(false, false, true)]
  }

  lemma StepBack(best: nat)
    requires best > 1
    ensures NextIndent(best, best - 1, Level(false, false, true)) == best - 2
  {
    Multiple(best, 1);
    DeeperExactly(best, best - 1, Level(false, false, true), best - 2);
    hide NextIndent;
  }

  lemma OddIndentStepsBack(best: nat)
    requires 3 <= best && best % 2 == 1
    ensures var r := Indents(best, SteppingBack(best));
            r[|r| - 1] == best - 2 && r[|r| - 2] == best - 1
    ensures !NonDecreasing(Indents(best, SteppingBack(best)))
  {
    hide NextIndent;
    var n := (best + 1) / 2;
    var ls := SteppingBack(best);
    assert ls[..n] == Nested(n);
    NestedIndents(best, n);
    var r := Indents(best, ls);
    assert r[..n + 1] == Indents(best, Nested(n));
    assert r[n] == best - 1;
    StepBack(best);
    assert r[n + 1] == NextIndent(best, r[n], ls[n]) == best - 2;
  }

  /** The emitter may be asked for compact sequences or not. */
  predicate Uses(ls: seq<Level>, compact: bool) {
    forall i :: 0 <= i < |ls| ==> ls[i].compact ==> compact && !ls[i].flow && !ls[i].inSequence
  }

  /** Exactly when nested indents are sure never to decrease. */
  lemma MonotoneExactlyWhen(best: nat, compact: bool)
    requires 2 <= best
    ensures (forall ls :: Uses(ls, compact) ==> NonDecreasing(Indents(best, ls)))
            <==> (!compact || best % 2 == 0)
  {
    if !compact || best % 2 == 0 {
      forall ls | Uses(ls, compact)
        ensures NonDecreasing(Indents(best, ls))
      {
        IndentsGrow(best, ls);
      }
    } else {
      OddIndentStepsBack(best);
      assert Uses(SteppingBack(best), compact);
    }
  }

  /** No level is indented less than the document. */
  lemma {:induction false} IndentsAtLeast(best: int, ls: seq<Level>)
    requires 2 <= best
    ensures Indents(best, ls)[|ls|] >= -1
  {
    if ls != [] {
      var r := Indents(best, ls[..|ls| - 1]);
      IndentsAtLeast(best, ls[..|ls| - 1]);
      if r[|r| - 1] >= 0 {
        NextMultiple(best, r[|r| - 1]);
      }
    }
  }

  /** The indent a scalar is written with is positive and beyond that of its parent. */
  lemma ScalarIndent(best: int, ls: seq<Level>, inSequence: bool)
    requires 2 <= best
    ensures var parent := Indents(best, ls)[|ls|];
            NextIndent(best, parent, Level(true, inSequence, false)) > parent
              && NextIndent(best, parent, Level(true, inSequence, false)) > 0
  {
    IndentsAtLeast(best, ls);
    var parent := Indents(best, ls)[|ls|];
    if parent >= 0 {
      NextMultiple(best, parent);
    }
  }
}
