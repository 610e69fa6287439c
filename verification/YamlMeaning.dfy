/**
 What a YAML node tree means when it is decoded into untyped Go values: a reference
 semantics without counters and without the shared `mergedFields` set.

 A mapping first binds its own keys, a later key of equal value replacing an earlier one.
 Keys of merge sources come after that, in the order of the sources, each source followed by
 its own merges; of these bindings the first for a key counts.  Decoder.dfy shows that
 go-yaml/decode.go computes this.
 */
module YamlMeaning {
  import opened Wrappers
  import opened YamlTree

  /** Resolved scalars; everything that is neither null nor a string is Other. */
  datatype Atom = Null | Str(s: string) | Other(repr: string)

  datatype Value = Leaf(a: Atom) | List(vs: seq<Value>) | Dict(m: map<Atom, Value>)

  /** Fail: decoding panics.  Skip: decoding reports false and sets nothing. */
  datatype Outcome = Fail | Skip | Good(v: Value)

  /** What is decoded into: an interface, or the string key of a map[string]interface{}. */
  datatype Target = Any | Text

  /**
   The surroundings of a decode: what each alias node stands for, how a scalar resolves (None
   when resolve fails), the text it gives to a string, and whether its short tag is !!str or !!merge.
   */
  datatype Doc = Doc(targets: map<nat, Node>, resolve: Node -> Option<Atom>, text: Node -> string,
    stringy: Node -> bool)

  /** A scalar tagged !!str or !!merge resolves to its text. */
  ghost predicate Typed(d: Doc) {
    forall n :: d.stringy(n) ==> d.resolve(n) == Some(Str(d.text(n)))
  }

  /** Aliases that may still be entered. */
  ghost function Room(d: Doc, p: set<nat>): nat {
    |d.targets.Keys - p|
  }

  lemma RoomShrinks(d: Doc, p: set<nat>, id: nat)
    requires id in d.targets && id !in p
    ensures Room(d, p + {id}) < Room(d, p)
  {
    var k := d.targets.Keys;
    assert k - p == (k - (p + {id})) + {id};
  }

  function KindOf(n: Node): nat {
    if n.Scalar? then 0 else if n.Sequence? then 1 else if n.Mapping? then 2 else 3
  }

  function ValueOf(n: Node): string {
    match n case Scalar(_, _, v, _, _) => v case Alias(_, v, _) => v case _ => ""
  }

  /** The source's test for repeated keys looks at kind and text only. */
  predicate SameKey(a: Node, b: Node) {
    KindOf(a) == KindOf(b) && ValueOf(a) == ValueOf(b)
  }

  predicate HasRepeatedKey(pairs: seq<Pair>) {
    exists i, j :: 0 <= i < j < |pairs| && SameKey(pairs[i].key, pairs[j].key)
  }

  /** The string map test: the key's own short tag, or the one of what it stands for. */
  predicate StringKey(d: Doc, n: Node) {
    match n
    case Scalar(_, _, _, _, _) => d.stringy(n)
    case Alias(id, _, _) => id in d.targets && d.targets[id].Scalar? && d.stringy(d.targets[id])
    case _ => false
  }

  predicate IsStringMap(d: Doc, pairs: seq<Pair>) {
    forall i :: 0 <= i < |pairs| ==> StringKey(d, pairs[i].key)
  }

  function KeyTarget(text: bool): Target {
    if text then Text else Any
  }

  /** A key bound to a value not yet decoded: the node and the aliases entered on the way to it. */
  datatype Pending = Pending(key: Atom, inside: set<nat>, node: Node)

  /** Decoding s is a smaller task than decoding n inside p. */
  ghost predicate Lower(d: Doc, p: set<nat>, n: Node, s: Pending) {
    (s.inside == p && s.node < n) || Room(d, s.inside) < Room(d, p)
  }

  ghost predicate AllLower(d: Doc, p: set<nat>, n: Node, ps: seq<Pending>) {
    forall i :: 0 <= i < |ps| ==> Lower(d, p, n, ps[i])
  }

  function KeysOf(ps: seq<Pending>): set<Atom> {
    set s | s in ps :: s.key
  }

  /** Of the bindings q, the first for each key that is not already taken. */
  function Choose(taken: set<Atom>, q: seq<Pending>): (r: seq<Pending>)
    ensures forall s :: s in r ==> s in q
  {
    if q == [] then []
    else
      var front, s := q[..|q| - 1], q[|q| - 1];
      var r := Choose(taken, front);
      if s.key in taken || s.key in KeysOf(front) then r else r + [s]
  }

  /** The short tag of a value that was passed over is !!null: a mapping with repeated keys can be tagged so. */
  predicate NullTagged(d: Doc, n: Node) {
    || (n.Mapping? && ShortTag(n.tag) == NULL_TAG)
    || (n.Alias? && n.id in d.targets && d.targets[n.id].Mapping? && ShortTag(d.targets[n.id].tag) == NULL_TAG)
  }

  /** What binding k to a value that decoded to o makes of m: a value passed over leaves at most a null. */
  function Bind(m: map<Atom, Value>, k: Atom, o: Outcome, nullTagged: bool): Option<map<Atom, Value>> {
    match o
    case Fail => None
    case Skip => Some(if nullTagged && k !in m then m[k := Leaf(Null)] else m)
    case Good(v) => Some(m[k := v])
  }

  function DenoteScalar(d: Doc, n: Node, t: Target): Outcome {
    match d.resolve(n)
    case None => Fail
    case Some(a) =>
      if t == Any then Good(Leaf(a))
      else if a == Null then Skip
      else Good(Leaf(Str(d.text(n))))
  }

  ghost function Denote(d: Doc, p: set<nat>, n: Node, t: Target): Outcome
    decreases Room(d, p), n, 9, 0
  {
    match n
    case Alias(id, _, _) =>
      if id !in d.targets || id in p then Fail
      else
        RoomShrinks(d, p, id);
        Denote(d, p + {id}, d.targets[id], t)
    case Scalar(_, _, _, _, _) => DenoteScalar(d, n, t)
    case Sequence(_, _, _, _, items) =>
      if t == Text then Skip
      else (match Elements(d, p, n, |items|)
        case None => Fail
        case Some(vs) => Good(List(vs)))
    case Mapping(_, _, _, _, pairs) =>
      if t == Text || HasRepeatedKey(pairs) then Skip
      else match Bindings(d, p, n)
        case None => Fail
        case Some(ps) => match Bound(d, p, n, ps, |ps|)
          case None => Fail
          case Some(m) => Good(Dict(m))
  }

  /** The values of the first k items that decode. */
  ghost function Elements(d: Doc, p: set<nat>, n: Node, k: nat): Option<seq<Value>>
    requires n.Sequence? && k <= |n.items|
    decreases Room(d, p), n, 1, k
  {
    if k == 0 then Some([])
    else match Elements(d, p, n, k - 1)
      case None => None
      case Some(vs) => match Denote(d, p, n.items[k - 1], Any)
        case Fail => None
        case Skip => Some(vs)
        case Good(v) => Some(vs + [v])
  }

  /** A mapping key must be a scalar; None: decoding fails, Some(None): the pair is passed over. */
  function KeyAtom(o: Outcome): Option<Option<Atom>> {
    match o
    case Fail => None
    case Skip => Some(None)
    case Good(Leaf(a)) => Some(Some(a))
    case Good(_) => None
  }

  /** The bindings of the first k pairs of a mapping, merge keys left aside. */
  ghost function Own(d: Doc, p: set<nat>, n: Node, text: bool, k: nat): (r: Option<seq<Pending>>)
    requires n.Mapping? && k <= |n.pairs|
    ensures r.Some? ==> AllLower(d, p, n, r.value)
    decreases Room(d, p), n, 1, k
  {
    if k == 0 then Some([])
    else match Own(d, p, n, text, k - 1)
      case None => None
      case Some(ps) =>
        if IsMerge(n.pairs[k - 1].key) then Some(ps)
        else match KeyAtom(Denote(d, p, n.pairs[k - 1].key, KeyTarget(text)))
          case None => None
          case Some(None) => Some(ps)
          case Some(Some(a)) => Some(ps + [Pending(a, p, n.pairs[k - 1].value)])
  }

  /** The value of the last merge key among the first k pairs. */
  function MergeValue(pairs: seq<Pair>, k: nat): (r: Option<Node>)
    requires k <= |pairs|
    ensures r.Some? ==> exists i :: 0 <= i < |pairs| && r.value == pairs[i].value
  {
    if k == 0 then None
    else if IsMerge(pairs[k - 1].key) then Some(pairs[k - 1].value)
    else MergeValue(pairs, k - 1)
  }

  /** The keys no merge source may bind: all keys of the mapping itself, the merge key included. */
  ghost function Taken(d: Doc, p: set<nat>, n: Node, k: nat): Option<set<Atom>>
    requires n.Mapping? && k <= |n.pairs|
    decreases Room(d, p), n, 1, k
  {
    if k == 0 then Some({})
    else match Taken(d, p, n, k - 1)
      case None => None
      case Some(s) => match KeyAtom(Denote(d, p, n.pairs[k - 1].key, Any))
        case None => None
        case Some(None) => Some(s)
        case Some(Some(a)) => Some(s + {a})
  }

  /** All bindings of one merge source, its own merges after its own keys. */
  ghost function SourceMap(d: Doc, p: set<nat>, n: Node, text: bool): (r: Option<seq<Pending>>)
    requires n.Mapping?
    ensures r.Some? ==> AllLower(d, p, n, r.value)
    decreases Room(d, p), n, 3, 0
  {
    if HasRepeatedKey(n.pairs) then Some([])
    else match Own(d, p, n, text, |n.pairs|)
      case None => None
      case Some(ps) => match MergeValue(n.pairs, |n.pairs|)
        case None => Some(ps)
        case Some(m) =>
          match Sources(d, p, m, text)
          case None => None
          case Some(qs) => Some(ps + qs)
  }

  /** One merge source: a mapping, or an alias of a mapping. */
  ghost function Source(d: Doc, p: set<nat>, m: Node, text: bool): (r: Option<seq<Pending>>)
    ensures r.Some? ==> AllLower(d, p, m, r.value)
    decreases Room(d, p), m, 4, 0
  {
    match m
    case Mapping(_, _, _, _, _) => SourceMap(d, p, m, text)
    case Alias(id, _, _) =>
      if id !in d.targets || id in p || !d.targets[id].Mapping? then None
      else
        RoomShrinks(d, p, id);
        SourceMap(d, p + {id}, d.targets[id], text)
    case _ => None
  }

  ghost function SourceList(d: Doc, p: set<nat>, m: Node, text: bool, k: nat): (r: Option<seq<Pending>>)
    requires m.Sequence? && k <= |m.items|
    ensures r.Some? ==> AllLower(d, p, m, r.value)
    decreases Room(d, p), m, 1, k
  {
    if k == 0 then Some([])
    else match SourceList(d, p, m, text, k - 1)
      case None => None
      case Some(ps) => match Source(d, p, m.items[k - 1], text)
        case None => None
        case Some(qs) => Some(ps + qs)
  }

  /** What stands after a merge key: one source or a sequence of them. */
  ghost function Sources(d: Doc, p: set<nat>, m: Node, text: bool): (r: Option<seq<Pending>>)
    ensures r.Some? ==> AllLower(d, p, m, r.value)
    decreases Room(d, p), m, 5, 0
  {
    if m.Sequence? then SourceList(d, p, m, text, |m.items|) else Source(d, p, m, text)
  }

  lemma ChooseLower(d: Doc, p: set<nat>, n: Node, m: Node, taken: set<Atom>, q: seq<Pending>)
    requires m < n && AllLower(d, p, m, q)
    ensures AllLower(d, p, n, Choose(taken, q))
  {
    var r := Choose(taken, q);
    forall i | 0 <= i < |r|
      ensures Lower(d, p, n, r[i])
    {
      assert r[i] in q;
    }
  }

  /** The bindings that count: all own keys in order, then the first of each other key. */
  ghost function Bindings(d: Doc, p: set<nat>, n: Node): (r: Option<seq<Pending>>)
    requires n.Mapping?
    ensures r.Some? ==> AllLower(d, p, n, r.value)
    decreases Room(d, p), n, 6, 0
  {
    var text, k := IsStringMap(d, n.pairs), |n.pairs|;
    match Own(d, p, n, text, k)
    case None => None
    case Some(own) => match MergeValue(n.pairs, k)
      case None => Some(own)
      case Some(m) => match Taken(d, p, n, k)
        case None => None
        case Some(taken) => match Sources(d, p, m, text)
          case None => None
          case Some(q) =>
            ChooseLower(d, p, n, m, taken, q);
            Some(own + Choose(taken, q))
  }

  /** The map after the first k bindings. */
  ghost function Bound(d: Doc, p: set<nat>, n: Node, ps: seq<Pending>, k: nat): Option<map<Atom, Value>>
    requires k <= |ps| && AllLower(d, p, n, ps)
    decreases Room(d, p), n, 1, k
  {
    if k == 0 then Some(map[])
    else match Bound(d, p, n, ps, k - 1)
      case None => None
      case Some(m) =>
        Bind(m, ps[k - 1].key, Denote(d, ps[k - 1].inside, ps[k - 1].node, Any), NullTagged(d, ps[k - 1].node))
  }

  // ----- The same map, without the bookkeeping that makes Bound well-founded -------------

  /** The map after binding the first k of ps. */
  ghost function Apply(d: Doc, ps: seq<Pending>, k: nat): Option<map<Atom, Value>>
    requires k <= |ps|
  {
    if k == 0 then Some(map[])
    else match Apply(d, ps, k - 1)
      case None => None
      case Some(m) =>
        Bind(m, ps[k - 1].key, Denote(d, ps[k - 1].inside, ps[k - 1].node, Any), NullTagged(d, ps[k - 1].node))
  }

  ghost function ApplyAll(d: Doc, ps: seq<Pending>): Option<map<Atom, Value>> {
    Apply(d, ps, |ps|)
  }

  lemma {:induction false} BoundIsApply(d: Doc, p: set<nat>, n: Node, ps: seq<Pending>, k: nat)
    requires k <= |ps| && AllLower(d, p, n, ps)
    ensures Bound(d, p, n, ps, k) == Apply(d, ps, k)
  {
    if k > 0 {
      hide Denote, Bind, NullTagged;
      BoundIsApply(d, p, n, ps, k - 1);
    }
  }

  lemma {:induction false} ApplyPrefix(d: Doc, ps: seq<Pending>, qs: seq<Pending>, k: nat)
    requires k <= |ps|
    ensures Apply(d, ps + qs, k) == Apply(d, ps, k)
  {
    if k > 0 {
      ApplyPrefix(d, ps, qs, k - 1);
    }
  }

  /** One more binding. */
  lemma ApplyMore(d: Doc, ps: seq<Pending>, s: Pending)
    ensures ApplyAll(d, ps + [s]) ==
            match ApplyAll(d, ps)
            case None => None
            case Some(m) => Bind(m, s.key, Denote(d, s.inside, s.node, Any), NullTagged(d, s.node))
  {
    ApplyPrefix(d, ps, [s], |ps|);
  }

  /** A binding that fails spoils every longer list. */
  lemma {:induction false} ApplyFails(d: Doc, ps: seq<Pending>, qs: seq<Pending>)
    requires ApplyAll(d, ps) == None
    ensures ApplyAll(d, ps + qs) == None
  {
    if qs == [] {
      assert ps + qs == ps;
    } else {
      var front, s := qs[..|qs| - 1], qs[|qs| - 1];
      ApplyFails(d, ps, front);
      assert ps + qs == (ps + front) + [s];
      ApplyMore(d, ps + front, s);
    }
  }

  lemma DenoteMapping(d: Doc, p: set<nat>, n: Node)
    requires n.Mapping? && !HasRepeatedKey(n.pairs)
    ensures Denote(d, p, n, Any) ==
            match Bindings(d, p, n)
            case None => Fail
            case Some(ps) => match ApplyAll(d, ps) case None => Fail case Some(m) => Good(Dict(m))
  {
    match Bindings(d, p, n) {
      case None =>
      case Some(ps) => BoundIsApply(d, p, n, ps, |ps|);
    }
  }

  // ----- Own keys and sources grow by prefixes ----------------------------------------------

  lemma {:induction false} OwnExtends(d: Doc, p: set<nat>, n: Node, text: bool, k: nat, l: nat)
    requires n.Mapping? && k <= l <= |n.pairs|
    ensures Own(d, p, n, text, k) == None ==> Own(d, p, n, text, l) == None
    ensures Own(d, p, n, text, l).Some? ==>
              Own(d, p, n, text, k).Some? && Own(d, p, n, text, k).value <= Own(d, p, n, text, l).value
    decreases l
  {
    if k < l {
      OwnExtends(d, p, n, text, k, l - 1);
    }
  }

  lemma OwnStep(d: Doc, p: set<nat>, s: Node, text: bool, i: nat)
    requires s.Mapping? && i < |s.pairs| && !IsMerge(s.pairs[i].key)
    ensures Own(d, p, s, text, i + 1) ==
            match Own(d, p, s, text, i)
            case None => None
            case Some(ps) => match KeyAtom(Denote(d, p, s.pairs[i].key, KeyTarget(text)))
              case None => None
              case Some(None) => Some(ps)
              case Some(Some(a)) => Some(ps + [Pending(a, p, s.pairs[i].value)])
  {}

  /** The bindings of a mapping begin with its own keys. */
  lemma BindingsBegin(d: Doc, p: set<nat>, n: Node, k: nat)
    requires n.Mapping? && k <= |n.pairs|
    ensures Bindings(d, p, n).Some? ==>
              var own := Own(d, p, n, IsStringMap(d, n.pairs), k); own.Some? && own.value <= Bindings(d, p, n).value
  {
    hide Denote, IsStringMap;
    OwnExtends(d, p, n, IsStringMap(d, n.pairs), k, |n.pairs|);
  }

  /** A failure among the own keys or their values is a failure of the mapping. */
  lemma OwnFails(d: Doc, p: set<nat>, n: Node, k: nat)
    requires n.Mapping? && !HasRepeatedKey(n.pairs) && k <= |n.pairs|
    requires var own := Own(d, p, n, IsStringMap(d, n.pairs), k); own == None || ApplyAll(d, own.value) == None
    ensures Denote(d, p, n, Any) == Fail
  {
    hide Denote, ApplyAll, HasRepeatedKey, IsStringMap;
    var text, l := IsStringMap(d, n.pairs), |n.pairs|;
    DenoteMapping(d, p, n);
    BindingsBegin(d, p, n, k);
    hide Own, Bindings;
    match Bindings(d, p, n) {
      case None =>
      case Some(ps) =>
        var own := Own(d, p, n, text, k).value;
        assert ps == own + ps[|own|..];
        ApplyFails(d, own, ps[|own|..]);
    }
  }

  lemma KeysMore(ps: seq<Pending>, s: Pending)
    ensures KeysOf(ps + [s]) == KeysOf(ps) + {s.key}
  {
    assert forall x :: x in ps + [s] <==> x in ps || x == s;
    forall a
      ensures a in KeysOf(ps + [s]) <==> a in KeysOf(ps) || a == s.key
    {
      if a in KeysOf(ps) {
        var x :| x in ps && x.key == a;
        assert x in ps + [s];
      } else if a == s.key {
        assert s in ps + [s];
      }
    }
  }

  lemma KeysConcat(ps: seq<Pending>, qs: seq<Pending>)
    ensures KeysOf(ps + qs) == KeysOf(ps) + KeysOf(qs)
  {
    assert forall x :: x in ps + qs <==> x in ps || x in qs;
  }

  /** One more binding of a source. */
  lemma ChooseMore(taken: set<Atom>, q: seq<Pending>, s: Pending)
    ensures Choose(taken, q + [s]) ==
            if s.key in taken || s.key in KeysOf(q) then Choose(taken, q) else Choose(taken, q) + [s]
  {
    assert (q + [s])[..|q|] == q;
  }

  lemma {:induction false} ChooseExtends(taken: set<Atom>, q: seq<Pending>, r: seq<Pending>)
    ensures Choose(taken, q) <= Choose(taken, q + r)
  {
    if r == [] {
      assert q + r == q;
    } else {
      var front, s := r[..|r| - 1], r[|r| - 1];
      ChooseExtends(taken, q, front);
      assert q + r == (q + front) + [s];
      ChooseMore(taken, q + front, s);
    }
  }

  /** A binding that counts and fails spoils the map, whatever sources follow. */
  lemma ChosenFails(d: Doc, own: seq<Pending>, taken: set<Atom>, q: seq<Pending>, r: seq<Pending>)
    requires q <= r && ApplyAll(d, own + Choose(taken, q)) == None
    ensures ApplyAll(d, own + Choose(taken, r)) == None
  {
    var rest := r[|q|..];
    assert r == q + rest;
    ChooseExtends(taken, q, rest);
    var a, b := Choose(taken, q), Choose(taken, r);
    assert own + b == (own + a) + b[|a|..];
    ApplyFails(d, own + a, b[|a|..]);
  }
}
