/**
 Node.Walk (blackfriday/node.go:287-336): a walker that moves along pointers makes the visits
 of the recursive traversal.

 A visitor may answer by anything it has seen, so it is a function of the visits so far, the
 current one last.
 */
module TreeWalk {
  import opened SyntaxTree

  datatype Status = GoToNext | SkipChildren | Terminate

  datatype Visit = Visit(node: Node, entering: bool)

  type Visitor = seq<Visit> -> Status

  /** The visits made, and whether the visitor ended the walk. */
  datatype Trace = Trace(visits: seq<Visit>, ended: bool)

  // ----- The recursive traversal ---------------------------------------------------------------

  /** The exit visit of n, once its children are done. */
  function Then(v: Visitor, n: Node, t: Trace): (t': Trace)
    ensures t.visits <= t'.visits
  {
    if t.ended then t
    else
      var h := t.visits + [Visit(n, false)];
      Trace(h, v(h) == Terminate)
  }

  /** Containers on entry and, unless their children were skipped, on exit; leaves once. */
  ghost function Traverse(f: Forest, v: Visitor, n: Node, h: seq<Visit>): (t: Trace)
    requires Shaped(f) && n in f.nodes
    ensures h < t.visits
    decreases f.rank[n], 1, 0
  {
    var h' := h + [Visit(n, true)];
    match v(h')
    case Terminate => Trace(h', true)
    case SkipChildren => Trace(h', false)
    case GoToNext =>
      if !n.IsContainer() then Trace(h', false)
      else
        assert forall c :: c in f.kids[n] ==> Child(f, n, c);
        Then(v, n, TraverseAll(f, v, f.rank[n], f.kids[n], h'))
  }

  ghost function TraverseAll(f: Forest, v: Visitor, bound: nat, ns: seq<Node>, h: seq<Visit>): (t: Trace)
    requires Shaped(f) && forall c :: c in ns ==> c in f.nodes && f.rank[c] < bound
    ensures h <= t.visits
    decreases bound, 0, |ns|
  {
    if ns == [] then Trace(h, false)
    else
      var t := Traverse(f, v, ns[0], h);
      if t.ended then t else TraverseAll(f, v, bound, ns[1..], t.visits)
  }

  // ----- Where the walker stands -----------------------------------------------------------------

  /** The nodes from the root down to the current one. */
  ghost predicate Path(f: Forest, root: Node, path: seq<Node>)
    requires Shaped(f)
  {
    && path != [] && path[0] == root && root in f.nodes
    && forall i :: 0 <= i < |path| - 1 ==> Child(f, path[i], path[i + 1])
  }

  function Last(path: seq<Node>): Node
    requires path != []
  {
    path[|path| - 1]
  }

  function Up(path: seq<Node>): seq<Node>
    requires path != []
  {
    path[..|path| - 1]
  }

  lemma {:induction false} ChildBelow(f: Forest, a: Node, p: Node, c: Node)
    requires Shaped(f) && a in f.nodes && Below(f, a, p) && p in f.nodes && Child(f, p, c)
    ensures Below(f, a, c)
    decreases f.rank[a]
  {
    if a == p {
      assert Below(f, c, c);
    } else {
      var d :| d in f.nodes && Child(f, a, d) && Below(f, d, p);
      ChildBelow(f, d, p, c);
    }
  }

  lemma PathFacts(f: Forest, root: Node, path: seq<Node>)
    requires Shaped(f) && Path(f, root, path)
    ensures Last(path) in f.nodes && (|path| > 1 <==> Last(path) != root)
    ensures |path| > 1 ==> Path(f, root, Up(path)) && Child(f, Last(Up(path)), Last(path)) && Last(Up(path)) in f.nodes
    ensures Below(f, root, Last(path))
    decreases |path|
  {
    if |path| > 1 {
      assert Path(f, root, Up(path));
      PathFacts(f, root, Up(path));
      assert Child(f, path[|path| - 2], path[|path| - 1]);
      BelowIsLower(f, root, Last(Up(path)));
      ChildBelow(f, root, Last(Up(path)), Last(path));
    }
  }

  lemma PathDown(f: Forest, root: Node, path: seq<Node>, c: Node)
    requires Shaped(f) && Path(f, root, path) && Child(f, Last(path), c)
    ensures Path(f, root, path + [c])
  {}

  /** The siblings after the end of the path. */
  ghost function Younger(f: Forest, p: Node, n: Node): (ns: seq<Node>)
    requires Shaped(f) && Child(f, p, n)
    ensures forall c :: c in ns ==> Child(f, p, c) && c in f.nodes && p in f.nodes && f.rank[c] < f.rank[p]
  {
    var ns := f.kids[p][IndexOf(f.kids[p], n) + 1..];
    assert forall c :: c in ns ==> Child(f, p, c);
    ns
  }

  /** What is left to do once the end of the path is done. */
  ghost function After(f: Forest, v: Visitor, root: Node, path: seq<Node>, h: seq<Visit>): (t: Trace)
    requires Shaped(f) && Path(f, root, path)
    ensures h <= t.visits
    decreases |path|, 0
  {
    if |path| == 1 then Trace(h, false)
    else
      PathFacts(f, root, path);
      var p := Last(Up(path));
      Follow(f, v, root, Up(path), Then(v, p, TraverseAll(f, v, f.rank[p], Younger(f, p, Last(path)), h)))
  }

  ghost function Follow(f: Forest, v: Visitor, root: Node, path: seq<Node>, t: Trace): (t': Trace)
    requires Shaped(f) && Path(f, root, path)
    ensures t.visits <= t'.visits
    decreases |path|, 1
  {
    if t.ended then t else After(f, v, root, path, t.visits)
  }

  /** The end of the path is about to be visited. An empty path is the end of the walk. */
  datatype Place = Place(path: seq<Node>, entering: bool)

  ghost predicate Valid(f: Forest, root: Node, place: Place)
    requires Shaped(f)
  {
    place.path != [] ==> Path(f, root, place.path)
  }

  ghost function Resume(f: Forest, v: Visitor, root: Node, place: Place, h: seq<Visit>): (t: Trace)
    requires Shaped(f) && Valid(f, root, place)
    ensures if place.path == [] then t == Trace(h, false) else h < t.visits
  {
    if place.path == [] then Trace(h, false)
    else
      PathFacts(f, root, place.path);
      var n := Last(place.path);
      Follow(f, v, root, place.path, if place.entering then Traverse(f, v, n, h) else Then(v, n, Trace(h, false)))
  }

  /** One move of the walker. */
  ghost function Step(f: Forest, root: Node, place: Place): (next: Place)
    requires Shaped(f) && Path(f, root, place.path)
    ensures Valid(f, root, next)
  {
    var path, n := place.path, Last(place.path);
    PathFacts(f, root, path);
    if place.entering && n.IsContainer() then
      if f.kids[n] != [] then
        PathDown(f, root, path, f.kids[n][0]);
        Place(path + [f.kids[n][0]], true)
      else Place(path, false)
    else if n == root then Place([], false)
    else
      var p := Last(Up(path));
      var ns := Younger(f, p, n);
      if ns != [] then
        PathDown(f, root, Up(path), ns[0]);
        Place(Up(path) + [ns[0]], true)
      else Place(Up(path), false)
  }

  /** Entering child i of p goes on with the children after it, and then with the exit of p. */
  lemma Resumed(f: Forest, v: Visitor, root: Node, path: seq<Node>, p: Node, ns: seq<Node>, i: nat, h: seq<Visit>)
    requires Shaped(f) && Path(f, root, path) && p == Last(path) && p in f.nodes && i < |f.kids[p]|
               && ns == f.kids[p][i..]
    requires forall c :: c in ns ==> c in f.nodes && f.rank[c] < f.rank[p]
    requires Path(f, root, path + [ns[0]])
    ensures Resume(f, v, root, Place(path + [ns[0]], true), h)
            == Follow(f, v, root, path, Then(v, p, TraverseAll(f, v, f.rank[p], ns, h)))
  {
    hide Traverse, Descends, OneParent;
    var c := ns[0];
    assert Up(path + [c]) == path && Last(path + [c]) == c;
    assert f.kids[p][i] == c;
    DistinctIndex(f.kids[p], i);
    assert Younger(f, p, c) == ns[1..];
    var t := Traverse(f, v, c, h);
    assert TraverseAll(f, v, f.rank[p], ns, h) ==
             if t.ended then t else TraverseAll(f, v, f.rank[p], ns[1..], t.visits);
    assert After(f, v, root, path + [c], t.visits)
        == Follow(f, v, root, path, Then(v, p, TraverseAll(f, v, f.rank[p], ns[1..], t.visits)));
  }

  /** Going down into the children of the current node. */
  lemma StepInto(f: Forest, v: Visitor, root: Node, path: seq<Node>, h: seq<Visit>)
    requires Shaped(f) && Path(f, root, path) && Last(path).IsContainer() && Last(path) in f.nodes
    requires forall c :: c in f.kids[Last(path)] ==> c in f.nodes && f.rank[c] < f.rank[Last(path)]
    ensures var n := Last(path);
            Resume(f, v, root, Step(f, root, Place(path, true)), h)
            == Follow(f, v, root, path, Then(v, n, TraverseAll(f, v, f.rank[n], f.kids[n], h)))
  {
    var n := Last(path);
    var ns := f.kids[n];
    if ns != [] {
      PathDown(f, root, path, ns[0]);
      Resumed(f, v, root, path, n, ns, 0, h);
    }
  }

  /** Leaving the current node. */
  lemma StepOn(f: Forest, v: Visitor, root: Node, place: Place, h: seq<Visit>)
    requires Shaped(f) && Path(f, root, place.path) && !(place.entering && Last(place.path).IsContainer())
    ensures Resume(f, v, root, Step(f, root, place), h) == After(f, v, root, place.path, h)
  {
    var path, n := place.path, Last(place.path);
    PathFacts(f, root, path);
    if n != root {
      var p := Last(Up(path));
      var ns := Younger(f, p, n);
      if ns != [] {
        PathDown(f, root, Up(path), ns[0]);
        Resumed(f, v, root, Up(path), p, ns, IndexOf(f.kids[p], n) + 1, h);
      }
    }
  }

  // ----- The walker ------------------------------------------------------------------------------

  class Walker {
    var current: Node?
    const root: Node
    var entering: bool

    constructor (root: Node)
      ensures current == root && this.root == root && entering
    {
      current, this.root, entering := root, root, true;
    }

    ghost predicate StandsAt(place: Place)
      reads this
    {
      current == (if place.path == [] then null else Last(place.path))
        && (current != null ==> entering == place.entering)
    }

    /** Moves along the pointers as Step moves along the path. */
    method Next(ghost f: Forest, ghost path: seq<Node>)
      requires WellFormed(f) && Path(f, root, path) && StandsAt(Place(path, entering))
      modifies this
      ensures StandsAt(Step(f, root, Place(path, old(entering))))
    {
      hide Linked, Now, Shows, Below, Descends, OneParent, Distinct;
      PathFacts(f, root, path);
      EndsOf(f, current);
      if current != root {
        ParentOf(f, Last(Up(path)), current);
        SiblingOf(f, current);
      }
      if (!current.IsContainer() || !entering) && current == root {
        current := null;
        return;
      }
      if entering && current.IsContainer() {
        if current.firstChild != null {
          current := current.firstChild;
          entering := true;
        } else {
          entering := false;
        }
      } else if current.next == null {
        current := current.parent;
        entering := false;
      } else {
        current := current.next;
        entering := true;
      }
    }
  }

  lemma StartsWhole(f: Forest, v: Visitor, root: Node)
    requires Shaped(f) && root in f.nodes
    ensures Path(f, root, [root]) && Resume(f, v, root, Place([root], true), []) == Traverse(f, v, root, [])
  {
    hide Traverse;
    assert Last([root]) == root;
    var t := Traverse(f, v, root, []);
    assert After(f, v, root, [root], t.visits) == Trace(t.visits, false);
  }

  /** What a visit and the move after it leave to do. */
  lemma VisitAndMove(f: Forest, v: Visitor, root: Node, place: Place, h: seq<Visit>)
    requires Shaped(f) && Path(f, root, place.path)
    ensures var h' := h + [Visit(Last(place.path), place.entering)];
            Resume(f, v, root, place, h) == match v(h')
            case Terminate => Trace(h', true)
            case SkipChildren => Resume(f, v, root, Step(f, root, place.(entering := false)), h')
            case GoToNext => Resume(f, v, root, Step(f, root, place), h')
  {
    hide Step;
    var path, n := place.path, Last(place.path);
    var h' := h + [Visit(n, place.entering)];
    PathFacts(f, root, path);
    StepOn(f, v, root, Place(path, false), h');
    if place.entering && n.IsContainer() {
      assert forall c :: c in f.kids[n] ==> Child(f, n, c);
      StepInto(f, v, root, path, h');
      assert v(h') == GoToNext ==> Traverse(f, v, n, h) == Then(v, n, TraverseAll(f, v, f.rank[n], f.kids[n], h'));
    } else {
      StepOn(f, v, root, place, h');
      assert place.entering ==> Traverse(f, v, n, h) == Trace(h', v(h') == Terminate);
    }
  }

  /** Node.Walk: ends, and makes exactly the visits of the recursive traversal. */
  method Walk(root: Node, v: Visitor, ghost f: Forest) returns (visits: seq<Visit>, ended: bool)
    requires WellFormed(f) && root in f.nodes
    ensures Trace(visits, ended) == Traverse(f, v, root, [])
  {
    hide Traverse, Resume, Step, Path, Shaped, Linked, Now;
    var w := new Walker(root);
    visits, ended := [], false;
    ghost var place, whole := Place([root], true), Traverse(f, v, root, []);
    StartsWhole(f, v, root);
    while w.current != null
      invariant WellFormed(f) && Valid(f, root, place) && w.StandsAt(place) && w.root == root && !ended
      invariant whole == Resume(f, v, root, place, visits)
      decreases |whole.visits| - |visits|
    {
      VisitAndMove(f, v, root, place, visits);
      visits := visits + [Visit(w.current, w.entering)];
      match v(visits) {
        case GoToNext =>
          w.Next(f, place.path);
          place := Step(f, root, place);
        case SkipChildren =>
          w.entering := false;
          w.Next(f, place.path);
          place := Step(f, root, place.(entering := false));
        case Terminate =>
          ended := true;
          return;
      }
    }
  }

  // ----- What the traversal visits -----------------------------------------------------------------

  ghost predicate Once(h: seq<Visit>) {
    forall i, j :: 0 <= i < j < |h| ==> h[i] != h[j]
  }

  /** No visit in h is to a node below n. */
  ghost predicate Untouched(f: Forest, n: Node, h: seq<Visit>)
    requires Shaped(f) && n in f.nodes
  {
    forall i :: 0 <= i < |h| ==> !Below(f, n, h[i].node)
  }

  /** t continues h, below n only. */
  ghost predicate Within(f: Forest, n: Node, h: seq<Visit>, t: seq<Visit>)
    requires Shaped(f) && n in f.nodes
  {
    h <= t && forall i :: |h| <= i < |t| ==> Below(f, n, t[i].node)
  }

  lemma {:induction false} BelowParent(f: Forest, a: Node, p: Node, c: Node)
    requires Shaped(f) && a in f.nodes && p in f.nodes && Child(f, p, c) && Below(f, a, c) && a != c
    ensures Below(f, a, p)
    decreases f.rank[a]
  {
    var d :| d in f.nodes && Child(f, a, d) && Below(f, d, c);
    if d == c {
      SelfBelow(f, p);
    } else {
      BelowParent(f, d, p, c);
    }
  }

  /** Two nodes above a third are one above the other. */
  lemma {:induction false} Comparable(f: Forest, a: Node, b: Node, x: Node)
    requires Shaped(f) && a in f.nodes && b in f.nodes && Below(f, a, x) && Below(f, b, x)
    ensures Below(f, a, b) || Below(f, b, a)
    decreases f.rank[a] + f.rank[b]
  {
    if a != x && b != x {
      var c :| c in f.nodes && Child(f, a, c) && Below(f, c, x);
      var d :| d in f.nodes && Child(f, b, d) && Below(f, d, x);
      Comparable(f, c, d, x);
      hide Distinct;
      if c == d {
        SelfBelow(f, a);
      } else if Below(f, c, d) {
        BelowParent(f, c, b, d);
      } else {
        BelowParent(f, d, a, c);
      }
    }
  }

  /** The subtrees of two children share no node. */
  lemma SiblingsApart(f: Forest, p: Node, a: Node, b: Node, x: Node)
    requires Shaped(f) && Child(f, p, a) && Child(f, p, b) && a != b && a in f.nodes && b in f.nodes && p in f.nodes
    ensures !(Below(f, a, x) && Below(f, b, x))
  {
    if Below(f, a, x) && Below(f, b, x) {
      Comparable(f, a, b, x);
      NoCycles(f, p, a);
      NoCycles(f, p, b);
      if Below(f, a, b) {
        BelowParent(f, a, p, b);
      } else {
        BelowParent(f, b, p, a);
      }
    }
  }

  ghost predicate UnderSome(f: Forest, ns: seq<Node>, x: Node)
    requires Shaped(f)
  {
    exists i :: 0 <= i < |ns| && ns[i] in f.nodes && Below(f, ns[i], x)
  }

  lemma UnderChildren(f: Forest, n: Node, x: Node)
    requires Shaped(f) && n in f.nodes && UnderSome(f, f.kids[n], x)
    ensures Below(f, n, x) && x != n
  {
    var i :| 0 <= i < |f.kids[n]| && f.kids[n][i] in f.nodes && Below(f, f.kids[n][i], x);
    assert Child(f, n, f.kids[n][i]);
    NoCycles(f, n, f.kids[n][i]);
  }

  lemma UnderRest(f: Forest, ns: seq<Node>, x: Node)
    requires Shaped(f) && ns != [] && UnderSome(f, ns[1..], x)
    ensures UnderSome(f, ns, x)
  {
    var rest := ns[1..];
    var i :| 0 <= i < |rest| && rest[i] in f.nodes && Below(f, rest[i], x);
    assert ns[i + 1] == rest[i];
  }

  lemma ExitOnce(f: Forest, v: Visitor, n: Node, h: seq<Visit>, t: Trace)
    requires Shaped(f) && n in f.nodes && Untouched(f, n, h) && Once(t.visits) && h + [Visit(n, true)] <= t.visits
    requires forall j :: |h| < j < |t.visits| ==> UnderSome(f, f.kids[n], t.visits[j].node)
    ensures Once(Then(v, n, t).visits) && Within(f, n, h, Then(v, n, t).visits)
  {
    hide Descends, OneParent, Distinct, UnderSome;
    SelfBelow(f, n);
    var ts := t.visits;
    assert ts[|h|] == Visit(n, true);
    forall j | 0 <= j < |ts| ensures ts[j] != Visit(n, false) && (j >= |h| ==> Below(f, n, ts[j].node)) {
      if j > |h| {
        UnderChildren(f, n, ts[j].node);
      } else if j < |h| {
        assert ts[j] == h[j];
      }
    }
    assert h <= ts + [Visit(n, false)];
  }

  /** The traversal of a subtree stays in it and visits nothing twice, whatever the visitor answers. */
  lemma {:induction false} TraverseOnce(f: Forest, v: Visitor, n: Node, h: seq<Visit>)
    requires Shaped(f) && n in f.nodes && Once(h) && Untouched(f, n, h)
    ensures var t := Traverse(f, v, n, h).visits; Once(t) && Within(f, n, h, t)
    decreases f.rank[n], 1, 0
  {
    SelfBelow(f, n);
    var h' := h + [Visit(n, true)];
    assert Once(h');
    if v(h') == GoToNext && n.IsContainer() {
      var ns := f.kids[n];
      assert forall c :: c in ns ==> Child(f, n, c);
      forall j | 0 <= j < |ns| ensures Untouched(f, ns[j], h') {
        NoCycles(f, n, ns[j]);
        assert forall x :: Below(f, ns[j], x) ==> Below(f, n, x);
      }
      ChildrenOnce(f, v, n, ns, 0, h');
      var all := TraverseAll(f, v, f.rank[n], ns, h');
      ExitOnce(f, v, n, h, all);
      hide Once, Within, TraverseAll, Then;
    }
  }

  lemma FirstUnder(f: Forest, ns: seq<Node>, h: seq<Visit>, t: seq<Visit>)
    requires Shaped(f) && ns != [] && ns[0] in f.nodes && Within(f, ns[0], h, t)
    ensures forall j :: |h| <= j < |t| ==> UnderSome(f, ns, t[j].node)
  {}

  lemma StillUntouched(f: Forest, p: Node, a: Node, b: Node, h: seq<Visit>, t: seq<Visit>)
    requires Shaped(f) && p in f.nodes && a in f.nodes && b in f.nodes && Child(f, p, a) && Child(f, p, b) && a != b
    requires Untouched(f, b, h) && Within(f, a, h, t)
    ensures Untouched(f, b, t)
  {
    hide Descends, OneParent, Distinct;
    forall j | 0 <= j < |t| ensures !Below(f, b, t[j].node) {
      if j < |h| {
        assert t[j] == h[j];
      } else {
        SiblingsApart(f, p, a, b, t[j].node);
      }
    }
  }

  lemma {:induction false} ChildrenOnce(f: Forest, v: Visitor, p: Node, ns: seq<Node>, i: nat, h: seq<Visit>)
    requires Shaped(f) && p in f.nodes && i <= |f.kids[p]| && ns == f.kids[p][i..] && Once(h)
    requires forall c :: c in ns ==> c in f.nodes && f.rank[c] < f.rank[p]
    requires forall j :: 0 <= j < |ns| ==> Untouched(f, ns[j], h)
    ensures var t := TraverseAll(f, v, f.rank[p], ns, h).visits;
            Once(t) && h <= t && forall j :: |h| <= j < |t| ==> UnderSome(f, ns, t[j].node)
    decreases f.rank[p], 0, |ns|
  {
    if ns != [] {
      assert ns[0] in ns;
      var t := Traverse(f, v, ns[0], h);
      TraverseOnce(f, v, ns[0], h);
      FirstUnder(f, ns, h, t.visits);
      if !t.ended {
        forall j | 0 <= j < |ns| - 1 ensures Untouched(f, ns[1..][j], t.visits) {
          StillUntouched(f, p, ns[0], ns[j + 1], h, t.visits);
        }
        ChildrenOnce(f, v, p, ns[1..], i + 1, t.visits);
        hide Below, Once, Within, UnderSome, Untouched, Traverse;
        var all := TraverseAll(f, v, f.rank[p], ns, h).visits;
        assert all == TraverseAll(f, v, f.rank[p], ns[1..], t.visits).visits;
        forall j | |h| <= j < |all| ensures UnderSome(f, ns, all[j].node) {
          if j < |t.visits| {
            assert all[j] == t.visits[j];
          } else {
            UnderRest(f, ns, all[j].node);
          }
        }
      }
    }
  }

  /** Every walk: only nodes of the subtree, none twice in the same direction. */
  lemma WalkStaysInside(f: Forest, v: Visitor, root: Node)
    requires Shaped(f) && root in f.nodes
    ensures var t := Traverse(f, v, root, []).visits; Once(t) && forall j :: 0 <= j < |t| ==> Below(f, root, t[j].node)
  {
    TraverseOnce(f, v, root, []);
  }

  // ----- The plain walk ------------------------------------------------------------------------------

  /** Entry, children, exit; a leaf once. */
  ghost function Tour(f: Forest, n: Node): seq<Visit>
    requires Shaped(f) && n in f.nodes
    decreases f.rank[n], 1, 0
  {
    if n.IsContainer() then
      assert forall c :: c in f.kids[n] ==> Child(f, n, c);
      [Visit(n, true)] + TourAll(f, f.rank[n], f.kids[n]) + [Visit(n, false)]
    else [Visit(n, true)]
  }

  ghost function TourAll(f: Forest, bound: nat, ns: seq<Node>): seq<Visit>
    requires Shaped(f) && forall c :: c in ns ==> c in f.nodes && f.rank[c] < bound
    decreases bound, 0, |ns|
  {
    if ns == [] then [] else Tour(f, ns[0]) + TourAll(f, bound, ns[1..])
  }

  /** A visitor that always goes on sees the whole tour. */
  lemma {:induction false} PlainWalk(f: Forest, v: Visitor, n: Node, h: seq<Visit>)
    requires Shaped(f) && n in f.nodes && forall g :: v(g) == GoToNext
    ensures Traverse(f, v, n, h) == Trace(h + Tour(f, n), false)
    decreases f.rank[n], 1, 0
  {
    if n.IsContainer() {
      assert forall c :: c in f.kids[n] ==> Child(f, n, c);
      PlainWalks(f, v, f.rank[n], f.kids[n], h + [Visit(n, true)]);
    }
  }

  lemma {:induction false} PlainWalks(f: Forest, v: Visitor, bound: nat, ns: seq<Node>, h: seq<Visit>)
    requires Shaped(f) && (forall c :: c in ns ==> c in f.nodes && f.rank[c] < bound) && forall g :: v(g) == GoToNext
    ensures TraverseAll(f, v, bound, ns, h) == Trace(h + TourAll(f, bound, ns), false)
    decreases bound, 0, |ns|
  {
    if ns == [] {
      assert h + TourAll(f, bound, ns) == h;
    } else {
      hide Traverse, Tour;
      PlainWalk(f, v, ns[0], h);
      PlainWalks(f, v, bound, ns[1..], h + Tour(f, ns[0]));
      assert h + Tour(f, ns[0]) + TourAll(f, bound, ns[1..]) == h + TourAll(f, bound, ns);
    }
  }
}
