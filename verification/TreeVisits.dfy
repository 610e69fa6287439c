/**
 How often a node is seen (blackfriday/node.go:280-283): announced is an entry and an exit for every
 node.  Which nodes of a walk are seen twice, and which walks see all their nodes twice.
 */
module TreeVisits {
  import opened SyntaxTree
  import opened TreeWalk

  /** The node entered at i is seen again, on exit. */
  ghost predicate Exits(t: seq<Visit>, i: nat)
    requires i < |t|
  {
    exists j :: i < j < |t| && t[j] == Visit(t[i].node, false)
  }

  /** It can have children, and the visitor asked for them. */
  predicate Stays(v: Visitor, t: seq<Visit>, i: nat)
    requires i < |t|
  {
    t[i].node.IsContainer() && v(t[..i + 1]) == GoToNext
  }

  /** From place `from` on, exactly the nodes that stay are seen again. */
  ghost predicate Seen(v: Visitor, t: seq<Visit>, from: nat) {
    forall i :: from <= i < |t| && t[i].entering ==> (Exits(t, i) <==> Stays(v, t, i))
  }

  /** Visits to other nodes change nothing for the one entered at i. */
  lemma SeenLater(v: Visitor, t: seq<Visit>, t': seq<Visit>, i: nat)
    requires t <= t' && i < |t| && forall k :: |t| <= k < |t'| ==> t'[k].node != t[i].node
    ensures Exits(t', i) <==> Exits(t, i)
    ensures Stays(v, t', i) <==> Stays(v, t, i)
  {
    assert t'[..i + 1] == t[..i + 1];
    if Exits(t, i) {
      var j :| i < j < |t| && t[j] == Visit(t[i].node, false);
      assert t'[j] == t[j];
    }
  }

  /** Once n is entered its children are still to come. */
  lemma ReadyForChildren(f: Forest, n: Node, h: seq<Visit>)
    requires Shaped(f) && n in f.nodes && Once(h) && Untouched(f, n, h)
    ensures Once(h + [Visit(n, true)])
    ensures forall j :: 0 <= j < |f.kids[n]| ==>
              f.kids[n][j] in f.nodes && Untouched(f, f.kids[n][j], h + [Visit(n, true)])
  {
    SelfBelow(f, n);
    var h', ns := h + [Visit(n, true)], f.kids[n];
    forall j | 0 <= j < |ns| ensures ns[j] in f.nodes && Untouched(f, ns[j], h') {
      assert Child(f, n, ns[j]);
      NoCycles(f, n, ns[j]);
      assert forall x :: Below(f, ns[j], x) ==> Below(f, n, x);
    }
  }

  lemma ExitSeen(f: Forest, v: Visitor, n: Node, h: seq<Visit>, t: seq<Visit>)
    requires Shaped(f) && n in f.nodes && n.IsContainer() && v(h + [Visit(n, true)]) == GoToNext
    requires h + [Visit(n, true)] <= t && Seen(v, t, |h| + 1)
    requires forall j :: |h| < j < |t| ==> UnderSome(f, f.kids[n], t[j].node)
    ensures Seen(v, t + [Visit(n, false)], |h|)
  {
    var t' := t + [Visit(n, false)];
    assert t[|h|] == Visit(n, true) && t'[..|h| + 1] == h + [Visit(n, true)];
    assert t'[|t|] == Visit(t'[|h|].node, false);
    hide Shaped, UnderSome;
    forall i | |h| < i < |t'| && t'[i].entering ensures Exits(t', i) <==> Stays(v, t', i) {
      UnderChildren(f, n, t[i].node);
      SeenLater(v, t, t', i);
    }
  }

  lemma {:induction false} TraverseSeen(f: Forest, v: Visitor, n: Node, h: seq<Visit>)
    requires Shaped(f) && n in f.nodes && Once(h) && Untouched(f, n, h) && !Traverse(f, v, n, h).ended
    ensures Seen(v, Traverse(f, v, n, h).visits, |h|)
    decreases f.rank[n], 1, 0
  {
    var h' := h + [Visit(n, true)];
    assert h'[..|h| + 1] == h';
    if v(h') == GoToNext && n.IsContainer() {
      var ns := f.kids[n];
      assert forall c :: c in ns ==> Child(f, n, c);
      ReadyForChildren(f, n, h);
      ChildrenOnce(f, v, n, ns, 0, h');
      ChildrenSeen(f, v, n, ns, 0, h');
      ExitSeen(f, v, n, h, TraverseAll(f, v, f.rank[n], ns, h').visits);
    }
  }

  lemma OtherChild(f: Forest, p: Node, ns: seq<Node>, i: nat, x: Node, y: Node)
    requires Shaped(f) && p in f.nodes && i < |f.kids[p]| && ns == f.kids[p][i..] && ns[0] in f.nodes
    requires Below(f, ns[0], x) && UnderSome(f, ns[1..], y)
    ensures x != y
  {
    var rest := ns[1..];
    var k :| 0 <= k < |rest| && rest[k] in f.nodes && Below(f, rest[k], y);
    assert rest[k] == f.kids[p][i + 1 + k] && ns[0] == f.kids[p][i];
    SiblingsApart(f, p, ns[0], rest[k], y);
  }

  /** What the later children add does not touch the nodes of the first. */
  lemma SiblingsSeen(
    f: Forest, v: Visitor, p: Node, ns: seq<Node>, i: nat, h: seq<Visit>, t: seq<Visit>, all: seq<Visit>)
    requires Shaped(f) && p in f.nodes && i < |f.kids[p]| && ns == f.kids[p][i..]
    requires forall c :: c in ns ==> c in f.nodes
    requires ns[0] in f.nodes && Within(f, ns[0], h, t) && Seen(v, t, |h|)
    requires t <= all && Seen(v, all, |t|) && forall j :: |t| <= j < |all| ==> UnderSome(f, ns[1..], all[j].node)
    ensures Seen(v, all, |h|)
  {
    forall j | |h| <= j < |all| && all[j].entering ensures Exits(all, j) <==> Stays(v, all, j) {
      if j < |t| {
        forall k | |t| <= k < |all| ensures all[k].node != t[j].node {
          OtherChild(f, p, ns, i, t[j].node, all[k].node);
        }
        SeenLater(v, t, all, j);
      }
    }
  }

  lemma {:induction false} ChildrenSeen(f: Forest, v: Visitor, p: Node, ns: seq<Node>, i: nat, h: seq<Visit>)
    requires Shaped(f) && p in f.nodes && i <= |f.kids[p]| && ns == f.kids[p][i..] && Once(h)
    requires forall c :: c in ns ==> c in f.nodes && f.rank[c] < f.rank[p]
    requires forall j :: 0 <= j < |ns| ==> Untouched(f, ns[j], h)
    requires !TraverseAll(f, v, f.rank[p], ns, h).ended
    ensures Seen(v, TraverseAll(f, v, f.rank[p], ns, h).visits, |h|)
    decreases f.rank[p], 0, |ns|
  {
    if ns != [] {
      assert ns[0] in ns;
      var t := Traverse(f, v, ns[0], h).visits;
      TraverseOnce(f, v, ns[0], h);
      TraverseSeen(f, v, ns[0], h);
      forall j | 0 <= j < |ns| - 1 ensures Untouched(f, ns[1..][j], t) {
        StillUntouched(f, p, ns[0], ns[j + 1], h, t);
      }
      ChildrenOnce(f, v, p, ns[1..], i + 1, t);
      ChildrenSeen(f, v, p, ns[1..], i + 1, t);
      SiblingsSeen(f, v, p, ns, i, h, t, TraverseAll(f, v, f.rank[p], ns[1..], t).visits);
    }
  }

  /**
   In every walk that the visitor lets come to its end, a node is seen on exit exactly if it is a
   container and the visitor, on its entry, answered GoToNext.
   */
  lemma SeenTwiceExactly(f: Forest, v: Visitor, root: Node, i: nat)
    requires Shaped(f) && root in f.nodes && !Traverse(f, v, root, []).ended
    requires var t := Traverse(f, v, root, []).visits; i < |t| && t[i].entering
    ensures var t := Traverse(f, v, root, []).visits;
            (exists j :: i < j < |t| && t[j] == Visit(t[i].node, false)) <==>
              t[i].node.IsContainer() && v(t[..i + 1]) == GoToNext
  {
    TraverseSeen(f, v, root, []);
    hide Traverse;
    var t := Traverse(f, v, root, []).visits;
    assert Exits(t, i) <==> Stays(v, t, i);
  }

  // ----- Walks that see every node twice ----------------------------------------------------------------

  /** From place `from` on, what is seen on exit was entered before. */
  ghost predicate EntersFirst(t: seq<Visit>, from: nat) {
    forall j :: from <= j < |t| && !t[j].entering ==> exists i :: from <= i < j && t[i] == Visit(t[j].node, true)
  }

  lemma EntersMore(t: seq<Visit>, t': seq<Visit>, from: nat)
    requires from <= |t| && t <= t' && EntersFirst(t, from) && EntersFirst(t', |t|)
    ensures EntersFirst(t', from)
  {
    forall j | from <= j < |t'| && !t'[j].entering
      ensures exists i :: from <= i < j && t'[i] == Visit(t'[j].node, true)
    {
      if j < |t| {
        assert t[j] == t'[j];
        var i :| from <= i < j && t[i] == Visit(t[j].node, true);
        assert t'[i] == t[i];
      }
    }
  }

  lemma ExitEnters(v: Visitor, n: Node, h: seq<Visit>, t: Trace)
    requires h + [Visit(n, true)] <= t.visits && EntersFirst(t.visits, |h| + 1)
    ensures EntersFirst(Then(v, n, t).visits, |h|)
  {
    assert t.visits[|h|] == Visit(n, true);
    assert EntersFirst(t.visits[..|h| + 1], |h|);
    EntersMore(t.visits[..|h| + 1], t.visits, |h|);
  }

  lemma {:induction false} TraverseEnters(f: Forest, v: Visitor, n: Node, h: seq<Visit>)
    requires Shaped(f) && n in f.nodes
    ensures EntersFirst(Traverse(f, v, n, h).visits, |h|)
    decreases f.rank[n], 1, 0
  {
    var h' := h + [Visit(n, true)];
    if v(h') == GoToNext && n.IsContainer() {
      assert forall c :: c in f.kids[n] ==> Child(f, n, c);
      ChildrenEnter(f, v, f.rank[n], f.kids[n], h');
      ExitEnters(v, n, h, TraverseAll(f, v, f.rank[n], f.kids[n], h'));
    }
  }

  lemma {:induction false} ChildrenEnter(f: Forest, v: Visitor, bound: nat, ns: seq<Node>, h: seq<Visit>)
    requires Shaped(f) && forall c :: c in ns ==> c in f.nodes && f.rank[c] < bound
    ensures EntersFirst(TraverseAll(f, v, bound, ns, h).visits, |h|)
    decreases bound, 0, |ns|
  {
    if ns != [] {
      var t := Traverse(f, v, ns[0], h);
      TraverseEnters(f, v, ns[0], h);
      if !t.ended {
        ChildrenEnter(f, v, bound, ns[1..], t.visits);
        EntersMore(t.visits, TraverseAll(f, v, bound, ns[1..], t.visits).visits, |h|);
      }
    }
  }

  /** From place `from` on, the visitor asks for the children of every node entered. */
  predicate GoesOn(v: Visitor, t: seq<Visit>, from: nat) {
    forall i :: from <= i < |t| && t[i].entering ==> v(t[..i + 1]) == GoToNext
  }

  lemma GoesOnBefore(v: Visitor, t: seq<Visit>, t': seq<Visit>, from: nat, later: nat)
    requires t <= t' && GoesOn(v, t', from) && from <= later
    ensures GoesOn(v, t, later)
  {
    forall i | later <= i < |t| && t[i].entering ensures v(t[..i + 1]) == GoToNext {
      assert t[..i + 1] == t'[..i + 1];
    }
  }

  ghost predicate AllContainers(f: Forest, n: Node)
    requires Shaped(f) && n in f.nodes
  {
    forall x :: x in f.nodes && Below(f, n, x) ==> x.IsContainer()
  }

  /** A walk that always goes on, among containers, enters every node of its subtree. */
  lemma {:induction false} TraverseReaches(f: Forest, v: Visitor, n: Node, h: seq<Visit>, x: Node)
    requires Shaped(f) && n in f.nodes && AllContainers(f, n) && Below(f, n, x)
    requires var t := Traverse(f, v, n, h); !t.ended && GoesOn(v, t.visits, |h|)
    ensures Visit(x, true) in Traverse(f, v, n, h).visits
    decreases f.rank[n], 1, 0
  {
    SelfBelow(f, n);
    var h', t := h + [Visit(n, true)], Traverse(f, v, n, h).visits;
    assert h' <= t;
    assert t[|h|] == Visit(n, true) && t[..|h| + 1] == h';
    if x != n {
      var c :| c in f.nodes && Child(f, n, c) && Below(f, c, x);
      assert forall d :: d in f.kids[n] ==> Child(f, n, d);
      var all := TraverseAll(f, v, f.rank[n], f.kids[n], h');
      GoesOnBefore(v, all.visits, t, |h|, |h'|);
      ChildrenReach(f, v, n, f.kids[n], h', c, x);
      assert all.visits <= t;
    }
  }

  lemma {:induction false} ChildrenReach(f: Forest, v: Visitor, p: Node, ns: seq<Node>, h: seq<Visit>, c: Node, x: Node)
    requires Shaped(f) && p in f.nodes && AllContainers(f, p) && c in ns
    requires forall d :: d in ns ==> d in f.nodes && Child(f, p, d) && f.rank[d] < f.rank[p]
    requires Below(f, c, x)
    requires var t := TraverseAll(f, v, f.rank[p], ns, h); !t.ended && GoesOn(v, t.visits, |h|)
    ensures Visit(x, true) in TraverseAll(f, v, f.rank[p], ns, h).visits
    decreases f.rank[p], 0, |ns|
  {
    assert ns[0] in ns;
    var t, all := Traverse(f, v, ns[0], h), TraverseAll(f, v, f.rank[p], ns, h);
    assert all == TraverseAll(f, v, f.rank[p], ns[1..], t.visits);
    if c == ns[0] {
      GoesOnBefore(v, t.visits, all.visits, |h|, |h|);
      assert forall y :: Below(f, c, y) ==> Below(f, p, y);
      TraverseReaches(f, v, c, h, x);
    } else {
      GoesOnBefore(v, all.visits, all.visits, |h|, |t.visits|);
      ChildrenReach(f, v, p, ns[1..], t.visits, c, x);
    }
  }

  /** What is announced: every node of the subtree is seen on entry and, later, on exit. */
  ghost predicate AllTwice(f: Forest, root: Node, t: seq<Visit>)
    requires Shaped(f) && root in f.nodes
  {
    forall x :: x in f.nodes && Below(f, root, x) ==>
      exists i, j :: 0 <= i < j < |t| && t[i] == Visit(x, true) && t[j] == Visit(x, false)
  }

  lemma TwiceStays(f: Forest, v: Visitor, root: Node, t: seq<Visit>)
    requires Shaped(f) && root in f.nodes && AllTwice(f, root, t) && Seen(v, t, 0) && Once(t)
    requires forall j :: 0 <= j < |t| ==> Below(f, root, t[j].node)
    ensures AllContainers(f, root) && GoesOn(v, t, 0)
  {
    forall x | x in f.nodes && Below(f, root, x) ensures x.IsContainer() {
      var i, j :| 0 <= i < j < |t| && t[i] == Visit(x, true) && t[j] == Visit(x, false);
      assert Exits(t, i) && Stays(v, t, i);
    }
    forall k | 0 <= k < |t| && t[k].entering ensures v(t[..k + 1]) == GoToNext {
      var x := t[k].node;
      BelowIsLower(f, root, x);
      var i, j :| 0 <= i < j < |t| && t[i] == Visit(x, true) && t[j] == Visit(x, false);
      assert t[k] == Visit(x, true) && k == i;
      assert Exits(t, k) && Stays(v, t, k);
    }
  }

  /**
   A walk that comes to its end sees every node twice exactly if all nodes are containers and the
   visitor asks for the children of each.
   */
  lemma AllTwiceExactly(f: Forest, v: Visitor, root: Node)
    requires Shaped(f) && root in f.nodes && !Traverse(f, v, root, []).ended
    ensures var t := Traverse(f, v, root, []).visits;
            AllTwice(f, root, t) <==> AllContainers(f, root) && GoesOn(v, t, 0)
  {
    var t := Traverse(f, v, root, []).visits;
    TraverseSeen(f, v, root, []);
    WalkStaysInside(f, v, root);
    if AllTwice(f, root, t) {
      TwiceStays(f, v, root, t);
    }
    if AllContainers(f, root) && GoesOn(v, t, 0) {
      forall x | x in f.nodes && Below(f, root, x)
        ensures exists i, j :: 0 <= i < j < |t| && t[i] == Visit(x, true) && t[j] == Visit(x, false)
      {
        TraverseReaches(f, v, root, [], x);
        var i :| 0 <= i < |t| && t[i] == Visit(x, true);
        assert Stays(v, t, i) && Exits(t, i);
      }
    }
  }

  // ----- Nodes that are seen once --------------------------------------------------------------------

  ghost function Alone(root: Node): Forest {
    Forest({root}, map[root := []], map[root := 0])
  }

  lemma AloneShaped(root: Node)
    ensures Shaped(Alone(root))
  {}

  /** A leaf is seen once, although the visitor goes on. */
  lemma LeafSeenOnce(root: Node)
    requires root.kind == Text
    ensures Shaped(Alone(root)) && Traverse(Alone(root), _ => GoToNext, root, []) == Trace([Visit(root, true)], false)
  {
    AloneShaped(root);
  }

  /** So is a container whose children are skipped. */
  lemma SkippedSeenOnce(root: Node)
    requires root.kind == Paragraph
    ensures Shaped(Alone(root))
    ensures Traverse(Alone(root), _ => SkipChildren, root, []) == Trace([Visit(root, true)], false)
  {
    AloneShaped(root);
  }

  // ----- How a walk ends -------------------------------------------------------------------------

  /** Of the visits after h, the last is answered Terminate exactly if the walk has ended, and no other is. */
  ghost predicate EndsAt(v: Visitor, h: seq<Visit>, t: Trace) {
    && (t.ended ==> |h| < |t.visits|)
    && forall i :: |h| < i <= |t.visits| ==> (v(t.visits[..i]) == Terminate <==> t.ended && i == |t.visits|)
  }

  lemma EndsAtOnce(v: Visitor, h: seq<Visit>, x: Visit)
    ensures EndsAt(v, h, Trace(h + [x], v(h + [x]) == Terminate))
  {
    assert (h + [x])[..|h| + 1] == h + [x];
  }

  lemma NothingSeen(v: Visitor, h: seq<Visit>)
    ensures EndsAt(v, h, Trace(h, false))
  {}

  /** One part of a walk after another. */
  lemma EndsLater(v: Visitor, h: seq<Visit>, s: Trace, t: Trace)
    requires EndsAt(v, h, s) && !s.ended && EndsAt(v, s.visits, t) && h <= s.visits <= t.visits
    ensures EndsAt(v, h, t)
  {
    forall i | |h| < i <= |t.visits|
      ensures v(t.visits[..i]) == Terminate <==> t.ended && i == |t.visits|
    {
      if i <= |s.visits| {
        assert t.visits[..i] == s.visits[..i];
      }
    }
  }

  /** A walk ends early exactly at the first visit that is answered Terminate. */
  lemma {:induction false} EndsAtTerminate(f: Forest, v: Visitor, n: Node, h: seq<Visit>)
    requires Shaped(f) && n in f.nodes
    ensures EndsAt(v, h, Traverse(f, v, n, h))
    decreases f.rank[n], 1, 0
  {
    hide EndsAt;
    var h' := h + [Visit(n, true)];
    EndsAtOnce(v, h, Visit(n, true));
    if v(h') == GoToNext && n.IsContainer() {
      assert forall c :: c in f.kids[n] ==> Child(f, n, c);
      var inner := TraverseAll(f, v, f.rank[n], f.kids[n], h');
      AllEndAtTerminate(f, v, f.rank[n], f.kids[n], h');
      EndsLater(v, h, Trace(h', false), inner);
      if !inner.ended {
        EndsAtOnce(v, inner.visits, Visit(n, false));
        EndsLater(v, h, inner, Then(v, n, inner));
      }
    }
  }

  lemma {:induction false} AllEndAtTerminate(f: Forest, v: Visitor, bound: nat, ns: seq<Node>, h: seq<Visit>)
    requires Shaped(f) && forall c :: c in ns ==> c in f.nodes && f.rank[c] < bound
    ensures EndsAt(v, h, TraverseAll(f, v, bound, ns, h))
    decreases bound, 0, |ns|
  {
    hide EndsAt, Traverse;
    if ns == [] {
      NothingSeen(v, h);
    } else {
      var first := Traverse(f, v, ns[0], h);
      EndsAtTerminate(f, v, ns[0], h);
      if !first.ended {
        AllEndAtTerminate(f, v, bound, ns[1..], first.visits);
        EndsLater(v, h, first, TraverseAll(f, v, bound, ns[1..], first.visits));
      }
    }
  }
}
