/**
 The Markdown syntax tree of blackfriday/node.go: nodes with parent, sibling and child pointers,
 edited in place.

 A Forest is the value the pointers stand for: each node's list of children.  Its ranks witness
 that no node is below itself.  Linked says that the pointers of the heap agree with a forest.
 */
module SyntaxTree {
  datatype NodeType =
    | Document | BlockQuote | List | Item | Paragraph | Heading | HorizontalRule
    | Emph | Strong | Del | Link | Image | Text | HTMLBlock | CodeBlock
    | Softbreak | Hardbreak | Code | HTMLSpan
    | Table | TableCell | TableHead | TableBody | TableRow

  datatype Forest = Forest(nodes: set<Node>, kids: map<Node, seq<Node>>, rank: map<Node, nat>)

  // ----- Forests as values --------------------------------------------------------------------

  ghost predicate Distinct(s: seq<Node>) {
    forall i, j :: 0 <= i < j < |s| ==> s[i] != s[j]
  }

  ghost predicate Child(f: Forest, p: Node, c: Node) {
    p in f.kids && c in f.kids[p]
  }

  ghost predicate Sound(f: Forest) {
    && f.kids.Keys == f.nodes && f.rank.Keys == f.nodes
    && (forall p :: p in f.kids ==> Distinct(f.kids[p]))
    && (forall p :: p in f.kids ==> forall c :: c in f.kids[p] ==> c in f.nodes)
  }

  ghost predicate Descends(f: Forest)
    requires Sound(f)
  {
    forall p, c {:trigger Child(f, p, c)} :: p in f.nodes && c in f.nodes && Child(f, p, c) ==> f.rank[c] < f.rank[p]
  }

  ghost predicate OneParent(f: Forest) {
    forall p, q, c {:trigger Child(f, p, c), Child(f, q, c)} ::
      p in f.nodes && q in f.nodes && c in f.nodes && Child(f, p, c) && Child(f, q, c) ==> p == q
  }

  /** Children are nodes, in one list and at one place of it, and of lower rank. */
  ghost predicate Shaped(f: Forest) {
    Sound(f) && Descends(f) && OneParent(f)
  }

  /** n is a or a descendant of a. */
  ghost predicate Below(f: Forest, a: Node, n: Node)
    requires Shaped(f) && a in f.nodes
    decreases f.rank[a]
  {
    a == n || exists c {:trigger Child(f, a, c)} {:trigger Below(f, c, n)} ::
      c in f.nodes && Child(f, a, c) && Below(f, c, n)
  }

  function IndexOf(s: seq<Node>, x: Node): (i: nat)
    requires x in s
    ensures i < |s| && s[i] == x
  {
    if s[0] == x then 0 else IndexOf(s[1..], x) + 1
  }

  function Removed(s: seq<Node>, x: Node): seq<Node>
    requires x in s
  {
    var i := IndexOf(s, x);
    s[..i] + s[i + 1..]
  }

  /** The forest once n has left the list of its parent p. */
  ghost function Without(f: Forest, p: Node?, n: Node): Forest
    requires p != null ==> Child(f, p, n)
  {
    if p == null then f else Forest(f.nodes, f.kids[p := Removed(f.kids[p], n)], f.rank)
  }

  function Inserted(s: seq<Node>, k: nat, x: Node): seq<Node>
    requires k <= |s|
  {
    s[..k] + [x] + s[k..]
  }

  /** Ranks with room for s under p: p and the nodes above it move up. */
  ghost function Raised(f: Forest, p: Node, s: Node): map<Node, nat>
    requires Shaped(f) && p in f.nodes && s in f.nodes
  {
    map m | m in f.nodes :: if Below(f, m, p) then f.rank[m] + f.rank[s] + 1 else f.rank[m]
  }

  /** The forest with the orphan s put at place k among the children of p. */
  ghost function Attached(f: Forest, p: Node, k: nat, s: Node): Forest
    requires Shaped(f) && p in f.nodes && s in f.nodes && k <= |f.kids[p]|
  {
    Forest(f.nodes, f.kids[p := Inserted(f.kids[p], k, s)], Raised(f, p, s))
  }

  ghost predicate Orphan(f: Forest, s: Node) {
    forall p {:trigger Child(f, p, s)} :: p in f.nodes ==> !Child(f, p, s)
  }

  lemma DistinctIndex(s: seq<Node>, i: nat)
    requires Distinct(s) && i < |s|
    ensures IndexOf(s, s[i]) == i
  {}

  lemma RemovedElements(s: seq<Node>, x: Node)
    requires Distinct(s) && x in s
    ensures Distinct(Removed(s, x))
    ensures forall c :: c in Removed(s, x) <==> c in s && c != x
  {
    var i := IndexOf(s, x);
    var r := Removed(s, x);
    forall c | c in s && c != x ensures c in r {
      var j := IndexOf(s, c);
      assert c == r[if j < i then j else j - 1];
    }
  }

  lemma InsertedElements(s: seq<Node>, k: nat, x: Node)
    requires Distinct(s) && x !in s && k <= |s|
    ensures Distinct(Inserted(s, k, x))
    ensures forall c :: c in Inserted(s, k, x) <==> c in s || c == x
  {
    var r := Inserted(s, k, x);
    assert r[k] == x;
    forall c | c in s ensures c in r {
      var j := IndexOf(s, c);
      assert c == r[if j < k then j else j + 1];
    }
  }

  lemma ChildWithout(f: Forest, p: Node, n: Node)
    requires Sound(f) && Child(f, p, n) && OneParent(f)
    ensures forall q, c :: Child(Without(f, p, n), q, c) <==> Child(f, q, c) && c != n
    ensures Sound(Without(f, p, n))
  {
    RemovedElements(f.kids[p], n);
    hide Distinct, Removed;
  }

  /** Leaving a list keeps the forest a forest and makes the node an orphan. */
  lemma WithoutShaped(f: Forest, p: Node, n: Node)
    requires Shaped(f) && Child(f, p, n)
    ensures Shaped(Without(f, p, n)) && Orphan(Without(f, p, n), n)
  {
    ChildWithout(f, p, n);
    hide Sound, Child, Removed;
  }

  /** Fewer edges, fewer descendants. */
  lemma {:induction false} BelowShrinks(f: Forest, p: Node, s: Node, a: Node, n: Node)
    requires Shaped(f) && Child(f, p, s) && a in f.nodes
    requires Shaped(Without(f, p, s)) && Below(Without(f, p, s), a, n)
    ensures Below(f, a, n)
    decreases f.rank[a]
  {
    var g := Without(f, p, s);
    if a != n {
      var c :| c in g.nodes && Child(g, a, c) && Below(g, c, n);
      ChildWithout(f, p, s);
      hide Removed, Distinct;
      BelowShrinks(f, p, s, c, n);
    }
  }

  lemma ChildAttached(f: Forest, p: Node, k: nat, s: Node)
    requires Shaped(f) && p in f.nodes && s in f.nodes && k <= |f.kids[p]| && Orphan(f, s)
    ensures forall q, c :: Child(Attached(f, p, k, s), q, c) <==> Child(f, q, c) || (q == p && c == s)
    ensures Sound(Attached(f, p, k, s))
  {
    assert !Child(f, p, s);
    InsertedElements(f.kids[p], k, s);
    hide Distinct, Inserted, Below, Descends, OneParent, Orphan;
  }

  /** Taking in an orphan that p is not below keeps the forest a forest. */
  lemma AttachedShaped(f: Forest, p: Node, k: nat, s: Node)
    requires Shaped(f) && p in f.nodes && s in f.nodes && k <= |f.kids[p]|
    requires Orphan(f, s) && !Below(f, s, p)
    ensures Shaped(Attached(f, p, k, s))
  {
    ChildAttached(f, p, k, s);
    RaisedDescends(f, p, s);
    hide Sound, Child, Inserted, Below;
  }

  lemma RaisedDescends(f: Forest, p: Node, s: Node)
    requires Shaped(f) && p in f.nodes && s in f.nodes && !Below(f, s, p)
    ensures Raised(f, p, s)[s] < Raised(f, p, s)[p]
    ensures forall q, c :: Child(f, q, c) ==> Raised(f, p, s)[c] < Raised(f, p, s)[q]
  {
    hide Distinct, OneParent;
    forall q, c | Child(f, q, c) ensures Raised(f, p, s)[c] < Raised(f, p, s)[q] {
      assert Below(f, c, p) ==> Below(f, q, p);
    }
  }

  lemma {:induction false} BelowIsLower(f: Forest, a: Node, n: Node)
    requires Shaped(f) && a in f.nodes && Below(f, a, n)
    ensures n in f.nodes && (n == a || f.rank[n] < f.rank[a])
    decreases f.rank[a]
  {
    if a != n {
      var c :| c in f.nodes && Child(f, a, c) && Below(f, c, n);
      BelowIsLower(f, c, n);
    }
  }

  /** No node is below one of its children: there are no cycles. */
  lemma NoCycles(f: Forest, p: Node, c: Node)
    requires Shaped(f) && Child(f, p, c)
    ensures !Below(f, c, p)
  {
    if Below(f, c, p) {
      BelowIsLower(f, c, p);
    }
  }

  // ----- Pointers ----------------------------------------------------------------------------------

  /** The five pointer fields of a set of nodes. */
  datatype Links = Links(parent: Field, first: Field, last: Field, prev: Field, next: Field)

  type Field = map<Node, Node?>

  function Get(m: Field, n: Node?): Node? {
    if n != null && n in m then m[n] else null
  }

  function At(s: seq<Node>, i: int): Node? {
    if 0 <= i < |s| then s[i] else null
  }

  /** The pointers of p and of its children spell the list s. */
  ghost predicate Chained(l: Links, p: Node, s: seq<Node>) {
    && Get(l.first, p) == At(s, 0) && Get(l.last, p) == At(s, |s| - 1)
    && forall i {:trigger s[i]} :: 0 <= i < |s| ==> InChain(l, p, s, i)
  }

  ghost predicate InChain(l: Links, p: Node, s: seq<Node>, i: nat)
    requires i < |s|
  {
    Get(l.parent, s[i]) == p && Get(l.prev, s[i]) == At(s, i - 1) && Get(l.next, s[i]) == At(s, i + 1)
  }

  /** A node without a parent has no siblings; one with a parent is in its list. */
  ghost predicate Placed(f: Forest, l: Links, n: Node) {
    var p := Get(l.parent, n);
    if p == null then Get(l.prev, n) == null && Get(l.next, n) == null else Child(f, p, n)
  }

  /** The pointers agree with the forest. */
  ghost predicate Linked(f: Forest, l: Links)
    requires Sound(f)
  {
    && (forall p :: p in f.nodes ==> Chained(l, p, f.kids[p]))
    && (forall n :: n in f.nodes ==> Placed(f, l, n))
  }

  /** A node's neighbours are those beside it in its parent's list. */
  lemma Neighbours(f: Forest, l: Links, n: Node)
    requires Shaped(f) && Linked(f, l) && n in f.nodes && Get(l.parent, n) != null
    ensures Child(f, Get(l.parent, n), n) && Get(l.parent, n) in f.nodes
    ensures var p := Get(l.parent, n); var s := f.kids[p]; InChain(l, p, s, IndexOf(s, n))
  {
    assert Placed(f, l, n);
    assert Chained(l, Get(l.parent, n), f.kids[Get(l.parent, n)]);
  }

  /** k is l with n cut out, pointer by pointer. */
  ghost predicate IsCut(nodes: set<Node>, l: Links, k: Links, n: Node) {
    forall m :: m in nodes ==> CutAt(l, k, n, m)
  }

  ghost predicate CutAt(l: Links, k: Links, n: Node, m: Node) {
    var p, a, b := Get(l.parent, n), Get(l.prev, n), Get(l.next, n);
    && Get(k.parent, m) == (if m == n then null else Get(l.parent, m))
    && Get(k.first, m) == (if m == p && a == null then b else Get(l.first, m))
    && Get(k.last, m) == (if m == p && b == null then a else Get(l.last, m))
    && Get(k.prev, m) == (if m == n then null else if m == b then a else Get(l.prev, m))
    && Get(k.next, m) == (if m == n then null else if m == a then b else Get(l.next, m))
  }

  lemma CutOthers(f: Forest, l: Links, k: Links, n: Node, q: Node)
    requires Shaped(f) && Linked(f, l) && n in f.nodes && q in f.nodes && q != Get(l.parent, n)
               && IsCut(f.nodes, l, k, n)
    ensures Chained(k, q, f.kids[q])
  {
    hide Get, Distinct;
    var s := f.kids[q];
    assert Chained(l, q, s);
    AlienCut(f, l, n, q);
    forall i | 0 <= i < |s| ensures InChain(k, q, s, i) {
      assert InChain(l, q, s, i);
      assert Child(f, q, s[i]);
      assert CutAt(l, k, n, s[i]);
    }
    assert CutAt(l, k, n, q);
  }

  lemma ParentIs(f: Forest, l: Links, p: Node, c: Node)
    requires Sound(f) && Linked(f, l) && Child(f, p, c)
    ensures Get(l.parent, c) == p
  {
    assert Chained(l, p, f.kids[p]) && InChain(l, p, f.kids[p], IndexOf(f.kids[p], c));
  }

  /** n and its neighbours are in no list but that of n's parent. */
  lemma AlienCut(f: Forest, l: Links, n: Node, q: Node)
    requires Shaped(f) && Linked(f, l) && n in f.nodes && q in f.nodes && q != Get(l.parent, n)
    ensures forall c :: c in f.kids[q] ==> c != n && c != Get(l.prev, n) && c != Get(l.next, n)
  {
    hide Distinct;
    var p := Get(l.parent, n);
    assert Placed(f, l, n);
    if p != null {
      Neighbours(f, l, n);
      assert Child(f, p, n);
      assert Get(l.prev, n) != null ==> Child(f, p, Get(l.prev, n));
      assert Get(l.next, n) != null ==> Child(f, p, Get(l.next, n));
    }
    forall c | c in f.kids[q] ensures c != n && c != Get(l.prev, n) && c != Get(l.next, n) {
      assert Child(f, q, c);
      ParentIs(f, l, q, c);
    }
  }

  lemma RemovedAt(s: seq<Node>, n: Node, j: int)
    requires n in s
    ensures At(Removed(s, n), j) == if j < IndexOf(s, n) then At(s, j) else At(s, j + 1)
    ensures |Removed(s, n)| == |s| - 1
  {}

  lemma CutListAt(l: Links, k: Links, p: Node, s: seq<Node>, n: Node, j: nat)
    requires n in s && Distinct(s) && InChain(l, p, s, IndexOf(s, n)) && j < |s| - 1
    requires var o := if j < IndexOf(s, n) then j else j + 1; InChain(l, p, s, o) && CutAt(l, k, n, s[o])
    ensures |Removed(s, n)| == |s| - 1 && InChain(k, p, Removed(s, n), j)
  {
    hide Get, Removed, IndexOf;
    var i := IndexOf(s, n);
    RemovedAt(s, n, j - 1);
    RemovedAt(s, n, j);
    RemovedAt(s, n, j + 1);
  }

  /** The ends of the list. */
  lemma CutListEnds(l: Links, k: Links, p: Node, s: seq<Node>, n: Node)
    requires n in s && InChain(l, p, s, IndexOf(s, n)) && CutAt(l, k, n, p)
    requires Get(l.first, p) == At(s, 0) && Get(l.last, p) == At(s, |s| - 1)
    ensures var r := Removed(s, n); Get(k.first, p) == At(r, 0) && Get(k.last, p) == At(r, |r| - 1)
  {
    hide Get, Removed, IndexOf;
    RemovedAt(s, n, 0);
    RemovedAt(s, n, |s| - 2);
  }

  lemma CutChain(l: Links, k: Links, p: Node, s: seq<Node>, n: Node)
    requires n in s && Distinct(s) && Chained(l, p, s) && CutAt(l, k, n, p)
    requires forall o :: 0 <= o < |s| ==> CutAt(l, k, n, s[o])
    ensures Chained(k, p, Removed(s, n))
  {
    hide Get, Removed, IndexOf, Distinct, CutAt, InChain;
    var i, r := IndexOf(s, n), Removed(s, n);
    assert s[i] == n;
    CutListEnds(l, k, p, s, n);
    RemovedAt(s, n, 0);
    forall j | 0 <= j < |r| ensures InChain(k, p, r, j) {
      var o := if j < i then j else j + 1;
      assert CutAt(l, k, n, s[o]);
      CutListAt(l, k, p, s, n, j);
    }
  }

  lemma CutList(f: Forest, l: Links, k: Links, n: Node)
    requires Shaped(f) && Linked(f, l) && n in f.nodes && Get(l.parent, n) != null && IsCut(f.nodes, l, k, n)
    ensures var p := Get(l.parent, n); Child(f, p, n) && Chained(k, p, Removed(f.kids[p], n))
  {
    hide Get, Removed, IndexOf, Distinct, CutAt, InChain;
    Neighbours(f, l, n);
    var p := Get(l.parent, n);
    assert Chained(l, p, f.kids[p]);
    hide Chained;
    CutChain(l, k, p, f.kids[p], n);
  }

  /** Cutting a node out of the pointers takes it out of the forest. */
  lemma CutIsWithout(f: Forest, l: Links, k: Links, n: Node)
    requires Shaped(f) && Linked(f, l) && n in f.nodes && IsCut(f.nodes, l, k, n)
    ensures Placed(f, l, n)
    ensures var g := Without(f, Get(l.parent, n), n); Shaped(g) && Orphan(g, n) && Linked(g, k)
  {
    assert Placed(f, l, n);
    var p := Get(l.parent, n);
    if p == null {
      AloneIsOrphan(f, l, n);
    } else {
      WithoutShaped(f, p, n);
      CutList(f, l, k, n);
    }
    var g := Without(f, p, n);
    forall q | q in f.nodes ensures Chained(k, q, g.kids[q]) {
      if q != p {
        CutOthers(f, l, k, n, q);
      }
    }
    forall m | m in f.nodes ensures Placed(g, k, m) {
      CutPlaced(f, l, k, n, m);
    }
  }

  lemma AloneIsOrphan(f: Forest, l: Links, n: Node)
    requires Shaped(f) && Linked(f, l) && n in f.nodes && Get(l.parent, n) == null
    ensures Orphan(f, n)
  {
    hide Distinct, Placed;
    forall q | q in f.nodes ensures !Child(f, q, n) {
      if Child(f, q, n) {
        ParentIs(f, l, q, n);
      }
    }
  }

  lemma CutPlaced(f: Forest, l: Links, k: Links, n: Node, m: Node)
    requires Shaped(f) && Linked(f, l) && n in f.nodes && m in f.nodes && IsCut(f.nodes, l, k, n) && Placed(f, l, n)
    ensures Placed(Without(f, Get(l.parent, n), n), k, m)
  {
    hide Distinct, Get, Chained;
    var p := Get(l.parent, n);
    assert Placed(f, l, m) && CutAt(l, k, n, m);
    if p != null {
      ChildWithout(f, p, n);
      Neighbours(f, l, n);
      Beside(l, p, f.kids[p], n);
    }
  }

  lemma Beside(l: Links, p: Node, s: seq<Node>, n: Node)
    requires n in s && InChain(l, p, s, IndexOf(s, n)) && Chained(l, p, s)
    ensures Get(l.prev, n) != null ==> Get(l.parent, Get(l.prev, n)) == p
    ensures Get(l.next, n) != null ==> Get(l.parent, Get(l.next, n)) == p
  {
    var i := IndexOf(s, n);
    assert i > 0 ==> InChain(l, p, s, i - 1);
    assert i + 1 < |s| ==> InChain(l, p, s, i + 1);
  }

  // Putting in.

  /** k is l with s put under p, between a and b. */
  ghost predicate IsPut(nodes: set<Node>, l: Links, k: Links, p: Node, a: Node?, s: Node, b: Node?) {
    forall m :: m in nodes ==> PutAt(l, k, p, a, s, b, m)
  }

  ghost predicate PutAt(l: Links, k: Links, p: Node, a: Node?, s: Node, b: Node?, m: Node) {
    && Get(k.parent, m) == (if m == s then p else Get(l.parent, m))
    && Get(k.first, m) == (if m == p && a == null then s else Get(l.first, m))
    && Get(k.last, m) == (if m == p && b == null then s else Get(l.last, m))
    && Get(k.prev, m) == (if m == s then a else if m == b then s else Get(l.prev, m))
    && Get(k.next, m) == (if m == s then b else if m == a then s else Get(l.next, m))
  }

  lemma InsertedAt(s: seq<Node>, i: nat, x: Node, j: int)
    requires i <= |s|
    ensures At(Inserted(s, i, x), j) == if j < i then At(s, j) else if j == i then x else At(s, j - 1)
    ensures |Inserted(s, i, x)| == |s| + 1
  {}

  lemma PutListAt(l: Links, k: Links, p: Node, s: seq<Node>, i: nat, x: Node, j: nat)
    requires Distinct(s) && x !in s && i <= |s| && j <= |s|
    requires j != i ==> InChain(l, p, s, if j < i then j else j - 1)
    requires PutAt(l, k, p, At(s, i - 1), x, At(s, i), if j < i then s[j] else if j == i then x else s[j - 1])
    ensures |Inserted(s, i, x)| == |s| + 1 && InChain(k, p, Inserted(s, i, x), j)
  {
    hide Get, Inserted;
    InsertedAt(s, i, x, j - 1);
    InsertedAt(s, i, x, j);
    InsertedAt(s, i, x, j + 1);
  }

  lemma PutList(f: Forest, l: Links, k: Links, p: Node, i: nat, x: Node)
    requires Shaped(f) && Linked(f, l) && p in f.nodes && x in f.nodes && i <= |f.kids[p]| && Orphan(f, x)
    requires IsPut(f.nodes, l, k, p, At(f.kids[p], i - 1), x, At(f.kids[p], i))
    ensures Chained(k, p, Inserted(f.kids[p], i, x))
  {
    hide Get, Inserted, Distinct;
    var s := f.kids[p];
    var r := Inserted(s, i, x);
    assert !Child(f, p, x);
    assert Chained(l, p, s);
    assert PutAt(l, k, p, At(s, i - 1), x, At(s, i), p);
    InsertedAt(s, i, x, 0);
    InsertedAt(s, i, x, |s|);
    hide PutAt, InChain;
    forall j | 0 <= j < |r| ensures InChain(k, p, r, j) {
      assert j < i ==> InChain(l, p, s, j);
      assert j > i ==> InChain(l, p, s, j - 1);
      assert PutAt(l, k, p, At(s, i - 1), x, At(s, i), if j < i then s[j] else if j == i then x else s[j - 1]);
      PutListAt(l, k, p, s, i, x, j);
    }
  }

  lemma PutOthers(f: Forest, l: Links, k: Links, p: Node, i: nat, x: Node, q: Node)
    requires Shaped(f) && Linked(f, l) && p in f.nodes && x in f.nodes && i <= |f.kids[p]| && Orphan(f, x)
    requires IsPut(f.nodes, l, k, p, At(f.kids[p], i - 1), x, At(f.kids[p], i)) && q in f.nodes && q != p
    ensures Chained(k, q, f.kids[q])
  {
    hide Get, Distinct;
    var s, a, b := f.kids[q], At(f.kids[p], i - 1), At(f.kids[p], i);
    assert Chained(l, q, s);
    assert !Child(f, q, x);
    assert (a != null ==> Child(f, p, a)) && (b != null ==> Child(f, p, b));
    forall j | 0 <= j < |s| ensures InChain(k, q, s, j) {
      assert InChain(l, q, s, j);
      assert Child(f, q, s[j]);
      assert PutAt(l, k, p, a, x, b, s[j]);
    }
    assert PutAt(l, k, p, a, x, b, q);
  }

  lemma PutPlaced(f: Forest, l: Links, k: Links, p: Node, i: nat, x: Node, m: Node)
    requires Shaped(f) && Linked(f, l) && p in f.nodes && x in f.nodes && i <= |f.kids[p]| && Orphan(f, x)
    requires IsPut(f.nodes, l, k, p, At(f.kids[p], i - 1), x, At(f.kids[p], i)) && m in f.nodes
    ensures Placed(Attached(f, p, i, x), k, m)
  {
    hide Distinct, Get, Raised;
    var a, b := At(f.kids[p], i - 1), At(f.kids[p], i);
    ChildAttached(f, p, i, x);
    assert Placed(f, l, m) && PutAt(l, k, p, a, x, b, m);
    assert Chained(l, p, f.kids[p]);
    assert a != null ==> InChain(l, p, f.kids[p], i - 1);
    assert b != null ==> InChain(l, p, f.kids[p], i);
  }

  /** Putting an orphan between two neighbours of a list inserts it there. */
  lemma PutIsAttached(f: Forest, l: Links, k: Links, p: Node, i: nat, x: Node)
    requires Shaped(f) && Linked(f, l) && p in f.nodes && x in f.nodes && i <= |f.kids[p]|
    requires Orphan(f, x) && !Below(f, x, p)
    requires IsPut(f.nodes, l, k, p, At(f.kids[p], i - 1), x, At(f.kids[p], i))
    ensures var g := Attached(f, p, i, x); Shaped(g) && Linked(g, k)
  {
    AttachedShaped(f, p, i, x);
    PutList(f, l, k, p, i, x);
    var g := Attached(f, p, i, x);
    forall q | q in f.nodes ensures Chained(k, q, g.kids[q]) {
      if q != p {
        PutOthers(f, l, k, p, i, x, q);
      }
    }
    forall m | m in f.nodes ensures Placed(g, k, m) {
      PutPlaced(f, l, k, p, i, x, m);
    }
  }

  /** Edges of f that the insertion does not touch are edges of whatever forest the pointers spell. */
  lemma EdgeCarries(f: Forest, l: Links, g: Forest, k: Links, p: Node, a: Node?, x: Node, b: Node?, y: Node, c: Node)
    requires Shaped(f) && Linked(f, l) && Shaped(g) && Linked(g, k) && g.nodes == f.nodes && Orphan(f, x)
    requires IsPut(f.nodes, l, k, p, a, x, b) && y in f.nodes && c in f.nodes && Child(f, y, c)
    ensures Child(g, y, c)
  {
    hide Distinct, Chained, Get, Descends, OneParent;
    ParentIs(f, l, y, c);
    assert PutAt(l, k, p, a, x, b, c) && Placed(g, k, c);
  }

  lemma SelfBelow(f: Forest, n: Node)
    requires Shaped(f) && n in f.nodes
    ensures Below(f, n, n)
  {}

  lemma {:induction false} BelowCarries(f: Forest, l: Links, g: Forest, k: Links, p: Node, a: Node?, x: Node, b: Node?,
    y: Node)
    requires Shaped(f) && Linked(f, l) && Shaped(g) && Linked(g, k) && g.nodes == f.nodes && Orphan(f, x)
    requires IsPut(f.nodes, l, k, p, a, x, b) && y in f.nodes && p in f.nodes && Below(f, y, p)
    ensures Below(g, y, p)
    decreases f.rank[y]
  {
    hide Linked, IsPut, Orphan, Distinct, OneParent, Child;
    if y == p {
      SelfBelow(g, p);
    } else {
      var c :| c in f.nodes && Child(f, y, c) && Below(f, c, p);
      EdgeCarries(f, l, g, k, p, a, x, b, y, c);
      BelowCarries(f, l, g, k, p, a, x, b, c);
    }
  }

  /** Putting a node under itself or under one of its descendants leaves pointers that spell no forest. */
  lemma PutMakesCycle(f: Forest, l: Links, g: Forest, k: Links, p: Node, a: Node?, x: Node, b: Node?)
    requires Shaped(f) && Linked(f, l) && Shaped(g) && g.nodes == f.nodes && Orphan(f, x)
    requires IsPut(f.nodes, l, k, p, a, x, b) && x in f.nodes && p in f.nodes && Below(f, x, p)
    ensures !Linked(g, k)
  {
    if Linked(g, k) {
      BelowCarries(f, l, g, k, p, a, x, b, x);
      hide Distinct, Chained, Get;
      assert PutAt(l, k, p, a, x, b, x) && Placed(g, k, x);
      NoCycles(g, p, x);
    }
  }

  /** Inserting an orphan leaves a forest exactly when its new parent is not below it. */
  lemma PutIsForestExactly(f: Forest, l: Links, k: Links, p: Node, i: nat, x: Node)
    requires Shaped(f) && Linked(f, l) && p in f.nodes && x in f.nodes && i <= |f.kids[p]| && Orphan(f, x)
    requires IsPut(f.nodes, l, k, p, At(f.kids[p], i - 1), x, At(f.kids[p], i))
    ensures (exists g: Forest :: g.nodes == f.nodes && Shaped(g) && Linked(g, k)) <==> !Below(f, x, p)
  {
    if !Below(f, x, p) {
      PutIsAttached(f, l, k, p, i, x);
      assert Attached(f, p, i, x).nodes == f.nodes;
    }
    if g: Forest :| g.nodes == f.nodes && Shaped(g) && Linked(g, k) {
      if Below(f, x, p) {
        PutMakesCycle(f, l, g, k, p, At(f.kids[p], i - 1), x, At(f.kids[p], i));
      }
    }
  }

  // ----- The heap ---------------------------------------------------------------------------------

  ghost function Now(nodes: set<Node>): Links
    reads nodes
  {
    Links(
      map n | n in nodes :: n.parent,
      map n | n in nodes :: n.firstChild,
      map n | n in nodes :: n.lastChild,
      map n | n in nodes :: n.prev,
      map n | n in nodes :: n.next)
  }

  /** What a field of l holds is what the heap holds. */
  ghost predicate Shows(l: Links, m: Node)
    reads m
  {
    && Get(l.parent, m) == m.parent && Get(l.first, m) == m.firstChild && Get(l.last, m) == m.lastChild
    && Get(l.prev, m) == m.prev && Get(l.next, m) == m.next
  }

  lemma NowShows(nodes: set<Node>)
    ensures forall m :: m in nodes ==> Shows(Now(nodes), m)
  {}

  ghost predicate WellFormed(f: Forest)
    reads f.nodes
  {
    Shaped(f) && Linked(f, Now(f.nodes))
  }

  class Node {
    const kind: NodeType
    var parent: Node?
    var firstChild: Node?
    var lastChild: Node?
    var prev: Node?
    var next: Node?

    constructor (kind: NodeType)
      ensures this.kind == kind && parent == firstChild == lastChild == prev == next == null
    {
      this.kind := kind;
      parent, firstChild, lastChild, prev, next := null, null, null, null, null;
    }

    predicate IsContainer() {
      match kind
      case Document | BlockQuote | List | Item | Paragraph | Heading | Emph | Strong | Del | Link | Image
         | Table | TableHead | TableBody | TableRow | TableCell => true
      case _ => false
    }

    /** The kinds without children. */
    lemma LeafKinds()
      ensures !IsContainer() <==>
                kind in {HorizontalRule, Text, HTMLBlock, CodeBlock, Softbreak, Hardbreak, Code, HTMLSpan}
    {}

    ghost predicate Near(nodes: set<Node>)
      reads this
    {
      && this in nodes && (parent != null ==> parent in nodes)
      && (prev != null ==> prev in nodes) && (next != null ==> next in nodes)
    }

    /** The pointer surgery of Unlink. */
    method CutOut(ghost nodes: set<Node>)
      requires Near(nodes) && prev != this && next != this
      modifies nodes
      ensures forall m :: m in nodes ==> Cut(m)
    {
      if prev != null {
        prev.next := next;
      } else if parent != null {
        parent.firstChild := next;
      }
      if next != null {
        next.prev := prev;
      } else if parent != null {
        parent.lastChild := prev;
      }
      parent := null;
      next := null;
      prev := null;
    }

    /** The pointers of m after this node was cut out. */
    twostate predicate Cut(m: Node)
      reads this, m
    {
      && m.parent == (if m == this then null else old(m.parent))
      && m.firstChild == (if m == old(parent) && old(prev) == null then old(next) else old(m.firstChild))
      && m.lastChild == (if m == old(parent) && old(next) == null then old(prev) else old(m.lastChild))
      && m.prev == (if m == this then null else if m == old(next) then old(prev) else old(m.prev))
      && m.next == (if m == this then null else if m == old(prev) then old(next) else old(m.next))
    }

    method CutLinks(ghost nodes: set<Node>)
      requires Near(nodes) && prev != this && next != this
      modifies nodes
      ensures IsCut(nodes, old(Now(nodes)), Now(nodes), this) && parent == prev == next == null
    {
      hide Now, Get;
      NowShows(nodes);
      CutOut(nodes);
      NowShows(nodes);
      forall m | m in nodes ensures CutAt(old(Now(nodes)), Now(nodes), this, m) {
        assert Cut(m) && old(Shows(Now(nodes), m)) && old(Shows(Now(nodes), this)) && Shows(Now(nodes), m);
      }
    }

    /** Removes this node, with everything below it, from the list of its parent. */
    method Unlink(ghost f: Forest)
      requires WellFormed(f) && this in f.nodes
      modifies f.nodes
      ensures old(parent) == null || Child(f, old(parent), this)
      ensures WellFormed(Without(f, old(parent), this)) && Orphan(Without(f, old(parent), this), this)
      ensures parent == prev == next == null
    {
      hide Shaped, Linked, Orphan, Now;
      InForest(f, this);
      NowShows(f.nodes);
      assert Shows(Now(f.nodes), this);
      CutLinks(f.nodes);
      CutIsWithout(f, old(Now(f.nodes)), Now(f.nodes), this);
    }

    /** The pointer surgery that puts this orphan under p between a and b. */
    twostate predicate PutIn(p: Node, a: Node?, b: Node?, m: Node)
      reads this, m
    {
      && m.parent == (if m == this then p else old(m.parent))
      && m.firstChild == (if m == p && a == null then this else old(m.firstChild))
      && m.lastChild == (if m == p && b == null then this else old(m.lastChild))
      && m.prev == (if m == this then a else if m == b then this else old(m.prev))
      && m.next == (if m == this then b else if m == a then this else old(m.next))
    }

    method PutLast(child: Node, ghost nodes: set<Node>)
      requires Near(nodes) && child in nodes && child != this && child.parent == child.prev == child.next == null
      requires lastChild != null ==> lastChild in nodes && lastChild != child && lastChild.next == null
      requires lastChild == null <==> firstChild == null
      modifies nodes
      ensures forall m :: m in nodes ==> child.PutIn(this, old(lastChild), null, m)
    {
      child.parent := this;
      if lastChild != null {
        lastChild.next := child;
        child.prev := lastChild;
        lastChild := child;
      } else {
        firstChild := child;
        lastChild := child;
      }
    }

    method PutBefore(sibling: Node, ghost nodes: set<Node>)
      requires Near(nodes) && sibling in nodes && sibling != this
                 && sibling.parent == sibling.prev == sibling.next == null
      requires parent != null && prev != sibling && prev != this && parent != sibling
      modifies nodes
      ensures forall m :: m in nodes ==> sibling.PutIn(old(parent), old(prev), this, m)
    {
      sibling.prev := prev;
      if sibling.prev != null {
        sibling.prev.next := sibling;
      }
      sibling.next := this;
      prev := sibling;
      sibling.parent := parent;
      if sibling.prev == null {
        sibling.parent.firstChild := sibling;
      }
    }

    method LinkLast(child: Node, ghost nodes: set<Node>)
      requires Near(nodes) && child in nodes && child != this && child.parent == child.prev == child.next == null
      requires lastChild != null ==> lastChild in nodes && lastChild != child && lastChild.next == null
      requires lastChild == null <==> firstChild == null
      modifies nodes
      ensures IsPut(nodes, old(Now(nodes)), Now(nodes), this, old(lastChild), child, null)
    {
      hide Now, Get;
      NowShows(nodes);
      PutLast(child, nodes);
      NowShows(nodes);
      forall m | m in nodes ensures PutAt(old(Now(nodes)), Now(nodes), this, old(lastChild), child, null, m) {
        assert child.PutIn(this, old(lastChild), null, m) && old(Shows(Now(nodes), m)) && Shows(Now(nodes), m);
      }
    }

    method LinkBefore(sibling: Node, ghost nodes: set<Node>)
      requires Near(nodes) && sibling in nodes && sibling != this
                 && sibling.parent == sibling.prev == sibling.next == null
      requires parent != null && prev != sibling && prev != this && parent != sibling
      modifies nodes
      ensures IsPut(nodes, old(Now(nodes)), Now(nodes), old(parent), old(prev), sibling, this)
    {
      hide Now, Get;
      NowShows(nodes);
      PutBefore(sibling, nodes);
      NowShows(nodes);
      forall m | m in nodes ensures PutAt(old(Now(nodes)), Now(nodes), old(parent), old(prev), sibling, this, m) {
        assert sibling.PutIn(old(parent), old(prev), this, m) && old(Shows(Now(nodes), m)) && Shows(Now(nodes), m);
      }
    }

    /** AppendChild once the child is an orphan. */
    method Adopt(child: Node, ghost f: Forest)
      requires WellFormed(f) && this in f.nodes && child in f.nodes && Orphan(f, child) && !Below(f, child, this)
      modifies f.nodes
      ensures WellFormed(Attached(f, this, |f.kids[this]|, child))
    {
      hide Descends, OneParent, Distinct, Linked, Orphan, Below, Now, Raised, IsPut, Inserted;
      SelfBelow(f, child);
      InForest(f, this);
      OrphanAlone(f, child);
      EndsOf(f, this);
      LinkLast(child, f.nodes);
      PutIsAttached(f, old(Now(f.nodes)), Now(f.nodes), this, |f.kids[this]|, child);
    }

    /** InsertBefore once the sibling is an orphan. */
    method TakeBefore(sibling: Node, ghost f: Forest)
      requires WellFormed(f) && this in f.nodes && sibling in f.nodes && Orphan(f, sibling) && sibling != this
      requires parent != null && Child(f, parent, this) && parent in f.nodes && !Below(f, sibling, parent)
      modifies f.nodes
      ensures WellFormed(Attached(f, old(parent), IndexOf(f.kids[old(parent)], this), sibling))
    {
      hide Descends, OneParent, Distinct, Linked, Orphan, Below, Now, Raised, IsPut, IndexOf, Inserted;
      SelfBelow(f, sibling);
      InForest(f, this);
      OrphanAlone(f, sibling);
      SiblingOf(f, this);
      ghost var p := parent;
      LinkBefore(sibling, f.nodes);
      PutIsAttached(f, old(Now(f.nodes)), Now(f.nodes), p, IndexOf(f.kids[p], this), sibling);
    }

    /** Makes child, with everything below it, the last child of this node. */
    method AppendChild(child: Node, ghost f: Forest)
      requires WellFormed(f) && this in f.nodes && child in f.nodes && !Below(f, child, this)
      modifies f.nodes
      ensures old(child.parent) == null || Child(f, old(child.parent), child)
      ensures var g := Without(f, old(child.parent), child);
              Shaped(g) && WellFormed(Attached(g, this, |g.kids[this]|, child))
    {
      hide Linked, Orphan, Below, Now, Raised, Removed, Child, Sound, Descends, OneParent;
      child.Unlink(f);
      ghost var g := Without(f, old(child.parent), child);
      StillNotBelow(f, old(child.parent), child, this);
      Adopt(child, g);
    }

    /** Makes sibling, with everything below it, the child just before this node. */
    method InsertBefore(sibling: Node, ghost f: Forest)
      requires WellFormed(f) && this in f.nodes && sibling in f.nodes && parent != null && !Below(f, sibling, this)
      modifies f.nodes
      ensures Child(f, old(parent), this)
      ensures old(sibling.parent) == null || Child(f, old(sibling.parent), sibling)
      ensures var g := Without(f, old(sibling.parent), sibling);
              Shaped(g) && Child(g, old(parent), this)
                && WellFormed(Attached(g, old(parent), IndexOf(g.kids[old(parent)], this), sibling))
    {
      hide Linked, Orphan, Below, Now, Raised, Removed, Sound, Descends, OneParent, IndexOf;
      ghost var p := parent;
      SiblingOf(f, this);
      SelfBelow(f, sibling);
      AboveParent(f, sibling, p, this);
      sibling.Unlink(f);
      ghost var g := Without(f, old(sibling.parent), sibling);
      StillNotBelow(f, old(sibling.parent), sibling, p);
      StillChild(f, old(sibling.parent), sibling, p, this);
      ParentOf(g, p, this);
      TakeBefore(sibling, g);
    }
  }

  lemma {:induction false} AboveParent(f: Forest, a: Node, p: Node, c: Node)
    requires Shaped(f) && a in f.nodes && p in f.nodes && Child(f, p, c) && !Below(f, a, c)
    ensures !Below(f, a, p)
    decreases f.rank[a]
  {
    hide OneParent, Distinct;
    if a == p {
      SelfBelow(f, c);
    } else if Below(f, a, p) {
      var d :| d in f.nodes && Child(f, a, d) && Below(f, d, p);
      AboveParent(f, d, p, c);
    }
  }

  lemma StillChild(f: Forest, q: Node?, s: Node, p: Node, c: Node)
    requires Shaped(f) && (q != null ==> Child(f, q, s)) && Child(f, p, c) && c != s
    ensures Child(Without(f, q, s), p, c)
  {
    if q != null {
      ChildWithout(f, q, s);
    }
  }

  lemma ParentOf(f: Forest, p: Node, c: Node)
    requires WellFormed(f) && Child(f, p, c)
    ensures c in f.nodes && p in f.nodes && c.parent == p
  {
    hide Descends, OneParent, Distinct;
    NowShows(f.nodes);
    assert Shows(Now(f.nodes), c);
    ParentIs(f, Now(f.nodes), p, c);
  }

  lemma OrphanAlone(f: Forest, n: Node)
    requires WellFormed(f) && n in f.nodes && Orphan(f, n)
    ensures n.parent == n.prev == n.next == null
    ensures forall m :: m in f.nodes ==> m.lastChild != n && m.prev != n
  {
    hide Descends, OneParent, Distinct, Now;
    NowShows(f.nodes);
    var l := Now(f.nodes);
    assert Shows(l, n) && Placed(f, l, n);
    forall m | m in f.nodes ensures m.lastChild != n && m.prev != n {
      assert Shows(l, m) && Placed(f, l, m) && Chained(l, m, f.kids[m]);
      assert !Child(f, m, n);
      if m.parent != null {
        Neighbours(f, l, m);
        assert !Child(f, m.parent, n);
      }
    }
  }

  lemma EndsOf(f: Forest, n: Node)
    requires WellFormed(f) && n in f.nodes
    ensures var s := f.kids[n];
            && n.firstChild == At(s, 0) && n.lastChild == At(s, |s| - 1)
            && (s != [] ==> n.lastChild in f.nodes && n.lastChild.next == null)
  {
    hide Descends, OneParent, Distinct, Now;
    NowShows(f.nodes);
    var l, s := Now(f.nodes), f.kids[n];
    assert Shows(l, n) && Chained(l, n, s);
    if s != [] {
      var last := s[|s| - 1];
      assert last in f.nodes && Shows(l, last) && InChain(l, n, s, |s| - 1);
    }
  }

  lemma SiblingOf(f: Forest, n: Node)
    requires WellFormed(f) && n in f.nodes && n.parent != null
    ensures Child(f, n.parent, n) && n.parent in f.nodes
    ensures var s := f.kids[n.parent]; n.prev == At(s, IndexOf(s, n) - 1) && n.next == At(s, IndexOf(s, n) + 1)
  {
    NowShows(f.nodes);
    assert Shows(Now(f.nodes), n);
    Neighbours(f, Now(f.nodes), n);
  }

  lemma StillNotBelow(f: Forest, p: Node?, s: Node, n: Node)
    requires Shaped(f) && s in f.nodes && (p != null ==> Child(f, p, s)) && !Below(f, s, n)
    ensures Shaped(Without(f, p, s)) && !Below(Without(f, p, s), s, n)
  {
    if p != null {
      WithoutShaped(f, p, s);
      if Below(Without(f, p, s), s, n) {
        BelowShrinks(f, p, s, s, n);
      }
    }
  }

  lemma InForest(f: Forest, n: Node)
    requires WellFormed(f) && n in f.nodes
    ensures n.Near(f.nodes) && n.prev != n && n.next != n
    ensures n.parent == null ==> n.prev == null && n.next == null
  {
    var l := Now(f.nodes);
    NowShows(f.nodes);
    assert Shows(l, n) && Placed(f, l, n);
    if n.parent != null {
      Neighbours(f, l, n);
      assert Distinct(f.kids[n.parent]);
    }
  }
}
