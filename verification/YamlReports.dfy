/**
 How a decoder follows the log of a visit: it makes the calls of the log and ends with its error,
 or the ratio test stops it on the way.  The lemmas here are the steps, one for each place where a
 log is put together.
 */
module YamlReports {
  import opened Wrappers
  import opened YamlTree
  import opened YamlMeaning
  import opened YamlGraph
  import opened YamlErrors

  /** Calls, before and after a visit that ended with e; the log says what was to be done. */
  predicate Reports(e: Error, before: seq<bool>, after: seq<bool>, log: Log) {
    if e == Excessive then before < after <= before + log.calls
    else e == log.e && after == before + log.calls
  }

  lemma NothingDone(x: seq<bool>, e: Error)
    requires e != Excessive
    ensures Reports(e, x, x, Failed(e)) && Reports(NoError, x, x, QUIET)
  {
    assert x + [] == x;
  }

  /** The second of two visits, after the first succeeded. */
  lemma Follows(e: Error, x: seq<bool>, y: seq<bool>, z: seq<bool>, a: Log, b: Log)
    requires Reports(NoError, x, y, a) && Reports(e, y, z, b)
    ensures Reports(e, x, z, Then(a, b))
  {
    assert x + a.calls + b.calls == x + (a.calls + b.calls);
  }

  /** A first visit that fails is all there is. */
  lemma Stops(e: Error, x: seq<bool>, y: seq<bool>, a: Log, b: Log)
    requires Reports(e, x, y, a) && e != NoError
    ensures Reports(e, x, y, Then(a, b))
  {
    assert x + a.calls + b.calls == x + (a.calls + b.calls);
  }

  lemma Quiet(a: Log)
    ensures Then(a, QUIET) == a
  {}

  /** The call itself: the ratio test stops it, or what follows decides. */
  lemma Calls(p: set<nat>, e: Error, x: seq<bool>, y: seq<bool>, rest: Log)
    ensures Reports(Excessive, x, x + [p != {}], Then(Called(p), rest))
    ensures Reports(e, x + [p != {}], y, rest) ==> Reports(e, x, y, Then(Called(p), rest))
  {
    assert x + [p != {}] + rest.calls == x + ([p != {}] + rest.calls);
    if Reports(e, x + [p != {}], y, rest) {
      Follows(e, x, x + [p != {}], y, Called(p), rest);
    }
  }

  // ----- Single nodes -------------------------------------------------------------------------

  lemma NodeCall(d: Doc, p: set<nat>, n: Node, t: Target, e: Error, x: seq<bool>, y: seq<bool>)
    ensures Reports(Excessive, x, x + [p != {}], LogOf(d, p, n, t))
    ensures Reports(e, x + [p != {}], y, Visit(d, p, n, t)) ==> Reports(e, x, y, LogOf(d, p, n, t))
  {
    hide Visit, Reports;
    Calls(p, e, x, y, Visit(d, p, n, t));
  }

  lemma VisitAtOnce(d: Doc, p: set<nat>, n: Node, t: Target, x: seq<bool>)
    ensures n.Scalar? ==> Reports(if d.resolve(n).None? then BadScalar else NoError, x, x, Visit(d, p, n, t))
    ensures n.Sequence? && t == Text ==> Reports(NoError, x, x, Visit(d, p, n, t))
    ensures n.Mapping? && (t == Text || HasRepeatedKey(n.pairs)) ==> Reports(NoError, x, x, Visit(d, p, n, t))
  {
    NothingDone(x, BadScalar);
    hide Reports;
  }

  lemma VisitAlias(d: Doc, p: set<nat>, n: Node, t: Target, e: Error, x: seq<bool>, y: seq<bool>)
    requires n.Alias?
    ensures n.id !in d.targets ==> Reports(NoTarget, x, x, Visit(d, p, n, t))
    ensures n.id in d.targets && n.id in p ==> Reports(SelfContaining, x, x, Visit(d, p, n, t))
    ensures n.id in d.targets && n.id !in p && Reports(e, x, y, LogOf(d, p + {n.id}, d.targets[n.id], t)) ==>
              Reports(e, x, y, Visit(d, p, n, t))
  {
    NothingDone(x, NoTarget);
    NothingDone(x, SelfContaining);
    hide Reports;
  }

  // ----- Sequences ------------------------------------------------------------------------------

  lemma NoItemYet(d: Doc, p: set<nat>, n: Node, x: seq<bool>)
    requires n.Sequence?
    ensures Reports(NoError, x, x, ItemsLog(d, p, n, 0))
  {
    NothingDone(x, NoError);
  }

  lemma ItemReported(d: Doc, p: set<nat>, n: Node, i: nat, e: Error, x: seq<bool>, y: seq<bool>, z: seq<bool>)
    requires n.Sequence? && i < |n.items|
    requires Reports(NoError, x, y, ItemsLog(d, p, n, i)) && Reports(e, y, z, LogOf(d, p, n.items[i], Any))
    ensures Reports(e, x, z, ItemsLog(d, p, n, i + 1))
  {
    hide LogOf, Reports;
    Follows(e, x, y, z, ItemsLog(d, p, n, i), LogOf(d, p, n.items[i], Any));
  }

  /** An error ends the sequence; without one, its last item does. */
  lemma {:induction false} SequenceReported(
    d: Doc, p: set<nat>, n: Node, k: nat, e: Error, x: seq<bool>, y: seq<bool>)
    requires n.Sequence? && k <= |n.items| && Reports(e, x, y, ItemsLog(d, p, n, k))
    requires e != NoError || k == |n.items|
    ensures Reports(e, x, y, Visit(d, p, n, Any))
    decreases |n.items| - k
  {
    hide LogOf, Reports;
    if k < |n.items| {
      Stops(e, x, y, ItemsLog(d, p, n, k), LogOf(d, p, n.items[k], Any));
      SequenceReported(d, p, n, k + 1, e, x, y);
    }
  }

  // ----- Pairs of a mapping -----------------------------------------------------------------------

  lemma KeyReported(d: Doc, p: set<nat>, n: Node, text: bool, i: nat, e: Error, x: seq<bool>, y: seq<bool>)
    requires n.Mapping? && i < |n.pairs| && Reports(e, x, y, LogOf(d, p, n.pairs[i].key, KeyTarget(text)))
    ensures e != NoError ==> Reports(e, x, y, KeyLog(d, p, n, text, i))
    ensures e == NoError ==>
              var k := KeyAtom(Denote(d, p, n.pairs[i].key, KeyTarget(text)));
              Reports(if k == None then BadKey else NoError, x, y, KeyLog(d, p, n, text, i))
  {
    hide LogOf, Denote, Reports;
    var log := LogOf(d, p, n.pairs[i].key, KeyTarget(text));
    NothingDone(y, BadKey);
    if e != NoError {
      Stops(e, x, y, log, QUIET);
      Stops(e, x, y, log, Failed(BadKey));
    } else {
      Follows(BadKey, x, y, y, log, Failed(BadKey));
      Follows(NoError, x, y, y, log, QUIET);
    }
  }

  lemma PairPassed(d: Doc, p: set<nat>, n: Node, text: bool, i: nat, e: Error, x: seq<bool>, y: seq<bool>)
    requires n.Mapping? && i < |n.pairs| && Reports(e, x, y, KeyLog(d, p, n, text, i))
    ensures e != NoError ==> Reports(e, x, y, PairLog(d, p, n, text, i))
    ensures e == NoError && KeyAtom(Denote(d, p, n.pairs[i].key, KeyTarget(text))) == Some(None) ==>
              Reports(NoError, x, y, PairLog(d, p, n, text, i))
  {
    hide LogOf, Denote, Reports, KeyLog;
    var log, value := KeyLog(d, p, n, text, i), LogOf(d, p, n.pairs[i].value, Any);
    Quiet(log);
    if e != NoError {
      Stops(e, x, y, log, value);
    }
  }

  lemma ValueReported(
    d: Doc, p: set<nat>, n: Node, text: bool, i: nat, e: Error, x: seq<bool>, y: seq<bool>, z: seq<bool>)
    requires n.Mapping? && i < |n.pairs| && Reports(NoError, x, y, KeyLog(d, p, n, text, i))
    requires KeyAtom(Denote(d, p, n.pairs[i].key, KeyTarget(text))) != Some(None)
    requires Reports(e, y, z, LogOf(d, p, n.pairs[i].value, Any))
    ensures Reports(e, x, z, PairLog(d, p, n, text, i))
  {
    hide LogOf, Denote, Reports, KeyLog;
    Follows(e, x, y, z, KeyLog(d, p, n, text, i), LogOf(d, p, n.pairs[i].value, Any));
  }

  lemma NoPairYet(d: Doc, p: set<nat>, n: Node, text: bool, x: seq<bool>)
    requires n.Mapping?
    ensures Reports(NoError, x, x, PairsLog(d, p, n, text, 0))
  {
    NothingDone(x, NoError);
  }

  lemma MergeKeyReported(d: Doc, p: set<nat>, n: Node, text: bool, i: nat, x: seq<bool>, y: seq<bool>)
    requires n.Mapping? && i < |n.pairs| && IsMerge(n.pairs[i].key)
    requires Reports(NoError, x, y, PairsLog(d, p, n, text, i))
    ensures Reports(NoError, x, y, PairsLog(d, p, n, text, i + 1))
  {
    hide IsMerge, Reports;
  }

  lemma PairReported(
    d: Doc, p: set<nat>, n: Node, text: bool, i: nat, e: Error, x: seq<bool>, y: seq<bool>, z: seq<bool>)
    requires n.Mapping? && i < |n.pairs| && !IsMerge(n.pairs[i].key)
    requires Reports(NoError, x, y, PairsLog(d, p, n, text, i)) && Reports(e, y, z, PairLog(d, p, n, text, i))
    ensures Reports(e, x, z, PairsLog(d, p, n, text, i + 1))
  {
    hide IsMerge, Reports, PairLog;
    Follows(e, x, y, z, PairsLog(d, p, n, text, i), PairLog(d, p, n, text, i));
  }

  lemma {:induction false} PairsFail(
    d: Doc, p: set<nat>, n: Node, text: bool, k: nat, e: Error, x: seq<bool>, y: seq<bool>)
    requires n.Mapping? && k <= |n.pairs| && Reports(e, x, y, PairsLog(d, p, n, text, k)) && e != NoError
    ensures Reports(e, x, y, PairsLog(d, p, n, text, |n.pairs|))
    decreases |n.pairs| - k
  {
    hide IsMerge, Reports, PairLog;
    if k < |n.pairs| {
      Stops(e, x, y, PairsLog(d, p, n, text, k), PairLog(d, p, n, text, k));
      PairsFail(d, p, n, text, k + 1, e, x, y);
    }
  }

  /** An error among the pairs ends the mapping. */
  lemma MappingFails(d: Doc, p: set<nat>, n: Node, k: nat, e: Error, x: seq<bool>, y: seq<bool>)
    requires n.Mapping? && !HasRepeatedKey(n.pairs) && k <= |n.pairs| && e != NoError
    requires Reports(e, x, y, PairsLog(d, p, n, IsStringMap(d, n.pairs), k))
    ensures Reports(e, x, y, Visit(d, p, n, Any))
  {
    MappingFirst(d, p, n);
    hide IsStringMap, HasRepeatedKey, Visit, Reports, PairsLog, MergeLog;
    var text := IsStringMap(d, n.pairs);
    PairsFail(d, p, n, text, k, e, x, y);
    Stops(e, x, y, PairsLog(d, p, n, text, |n.pairs|), MergeLog(d, p, n));
  }

  /** Without a merge, so does its last pair. */
  lemma MappingEnds(d: Doc, p: set<nat>, n: Node, x: seq<bool>, y: seq<bool>)
    requires n.Mapping? && !HasRepeatedKey(n.pairs) && !HasMerge(n.pairs)
    requires Reports(NoError, x, y, PairsLog(d, p, n, IsStringMap(d, n.pairs), |n.pairs|))
    ensures Reports(NoError, x, y, Visit(d, p, n, Any))
  {
    MappingFirst(d, p, n);
    hide IsStringMap, HasRepeatedKey, Visit, Reports, PairsLog, MergeValue;
    Quiet(PairsLog(d, p, n, IsStringMap(d, n.pairs), |n.pairs|));
  }

  // ----- Merges ---------------------------------------------------------------------------------------

  lemma NoKeyYet(d: Doc, p: set<nat>, n: Node, x: seq<bool>)
    requires n.Mapping?
    ensures Reports(NoError, x, x, TakenLog(d, p, n, 0))
  {
    NothingDone(x, NoError);
  }

  lemma TakenReported(d: Doc, p: set<nat>, n: Node, i: nat, e: Error, x: seq<bool>, y: seq<bool>, z: seq<bool>)
    requires n.Mapping? && i < |n.pairs|
    requires Reports(NoError, x, y, TakenLog(d, p, n, i)) && Reports(e, y, z, KeyLog(d, p, n, false, i))
    ensures Reports(e, x, z, TakenLog(d, p, n, i + 1))
  {
    hide KeyLog, Reports;
    Follows(e, x, y, z, TakenLog(d, p, n, i), KeyLog(d, p, n, false, i));
  }

  lemma {:induction false} TakenFail(d: Doc, p: set<nat>, n: Node, k: nat, e: Error, x: seq<bool>, y: seq<bool>)
    requires n.Mapping? && k <= |n.pairs| && Reports(e, x, y, TakenLog(d, p, n, k)) && e != NoError
    ensures Reports(e, x, y, TakenLog(d, p, n, |n.pairs|))
    decreases |n.pairs| - k
  {
    hide KeyLog, Reports;
    if k < |n.pairs| {
      Stops(e, x, y, TakenLog(d, p, n, k), KeyLog(d, p, n, false, k));
      TakenFail(d, p, n, k + 1, e, x, y);
    }
  }

  /** What the merge of a mapping ends with, after its pairs. */
  lemma MergeReported(d: Doc, p: set<nat>, n: Node, e: Error, x: seq<bool>, y: seq<bool>, z: seq<bool>)
    requires n.Mapping? && !HasRepeatedKey(n.pairs)
    requires Reports(NoError, x, y, PairsLog(d, p, n, IsStringMap(d, n.pairs), |n.pairs|))
    requires Reports(e, y, z, MergeLog(d, p, n))
    ensures Reports(e, x, z, Visit(d, p, n, Any))
  {
    MappingFirst(d, p, n);
    hide IsStringMap, HasRepeatedKey, Visit, Reports, PairsLog, MergeLog;
    Follows(e, x, y, z, PairsLog(d, p, n, IsStringMap(d, n.pairs), |n.pairs|), MergeLog(d, p, n));
  }

  lemma MergeStops(d: Doc, p: set<nat>, n: Node, e: Error, x: seq<bool>, y: seq<bool>)
    requires n.Mapping? && HasMerge(n.pairs) && Reports(e, x, y, TakenLog(d, p, n, |n.pairs|)) && e != NoError
    ensures Reports(e, x, y, MergeLog(d, p, n))
  {
    hide IsStringMap, MergeValue, Reports, TakenLog, SourcesLog, TakenKeys;
    var mv := MergeValue(n.pairs, |n.pairs|).value;
    Stops(e, x, y, TakenLog(d, p, n, |n.pairs|),
      SourcesLog(d, p, mv, IsStringMap(d, n.pairs), TakenKeys(d, p, n)));
  }

  lemma MergeEnds(
    d: Doc, p: set<nat>, n: Node, mv: Node, taken: set<Atom>, e: Error, x: seq<bool>, y: seq<bool>, z: seq<bool>)
    requires n.Mapping? && MergeValue(n.pairs, |n.pairs|) == Some(mv) && Taken(d, p, n, |n.pairs|) == Some(taken)
    requires Reports(NoError, x, y, TakenLog(d, p, n, |n.pairs|))
    requires Reports(e, y, z, SourcesLog(d, p, mv, IsStringMap(d, n.pairs), taken))
    ensures Reports(e, x, z, MergeLog(d, p, n))
  {
    hide IsStringMap, MergeValue, Reports, TakenLog, SourcesLog, Taken;
    Follows(e, x, y, z, TakenLog(d, p, n, |n.pairs|), SourcesLog(d, p, mv, IsStringMap(d, n.pairs), taken));
  }

  lemma SourcePairPassed(
    d: Doc, p: set<nat>, s: Node, text: bool, fields: set<Atom>, i: nat, ps: seq<Pending>, e: Error,
    x: seq<bool>, y: seq<bool>)
    requires s.Mapping? && i < |s.pairs| && Reports(e, x, y, KeyLog(d, p, s, text, i))
    requires Own(d, p, s, text, i) == Some(ps)
    ensures e != NoError ==> Reports(e, x, y, SourcePairLog(d, p, s, text, fields, i))
    ensures e == NoError ==>
              match KeyAtom(Denote(d, p, s.pairs[i].key, KeyTarget(text)))
              case Some(Some(a)) =>
                a in fields + KeysOf(ps) ==> Reports(NoError, x, y, SourcePairLog(d, p, s, text, fields, i))
              case _ => Reports(NoError, x, y, SourcePairLog(d, p, s, text, fields, i))
  {
    hide Denote, Own, KeyLog, LogOf, Reports;
    Quiet(KeyLog(d, p, s, text, i));
    if e != NoError {
      Stops(e, x, y, KeyLog(d, p, s, text, i), LogOf(d, p, s.pairs[i].value, Any));
    }
  }

  lemma SourceValueReported(
    d: Doc, p: set<nat>, s: Node, text: bool, fields: set<Atom>, i: nat, ps: seq<Pending>, a: Atom, e: Error,
    x: seq<bool>, y: seq<bool>, z: seq<bool>)
    requires s.Mapping? && i < |s.pairs| && Reports(NoError, x, y, KeyLog(d, p, s, text, i))
    requires Own(d, p, s, text, i) == Some(ps)
    requires KeyAtom(Denote(d, p, s.pairs[i].key, KeyTarget(text))) == Some(Some(a)) && a !in fields + KeysOf(ps)
    requires Reports(e, y, z, LogOf(d, p, s.pairs[i].value, Any))
    ensures Reports(e, x, z, SourcePairLog(d, p, s, text, fields, i))
  {
    hide Denote, Own, KeyLog, LogOf, Reports;
    Follows(e, x, y, z, KeyLog(d, p, s, text, i), LogOf(d, p, s.pairs[i].value, Any));
  }

  lemma NoSourcePairYet(d: Doc, p: set<nat>, s: Node, text: bool, fields: set<Atom>, x: seq<bool>)
    requires s.Mapping?
    ensures Reports(NoError, x, x, SourcePairsLog(d, p, s, text, fields, 0))
  {
    NothingDone(x, NoError);
  }

  lemma SourceMergeKeyReported(
    d: Doc, p: set<nat>, s: Node, text: bool, fields: set<Atom>, i: nat, x: seq<bool>, y: seq<bool>)
    requires s.Mapping? && i < |s.pairs| && IsMerge(s.pairs[i].key)
    requires Reports(NoError, x, y, SourcePairsLog(d, p, s, text, fields, i))
    ensures Reports(NoError, x, y, SourcePairsLog(d, p, s, text, fields, i + 1))
  {
    hide IsMerge, Reports;
  }

  lemma SourcePairReported(
    d: Doc, p: set<nat>, s: Node, text: bool, fields: set<Atom>, i: nat, e: Error,
    x: seq<bool>, y: seq<bool>, z: seq<bool>)
    requires s.Mapping? && i < |s.pairs| && !IsMerge(s.pairs[i].key)
    requires Reports(NoError, x, y, SourcePairsLog(d, p, s, text, fields, i))
    requires Reports(e, y, z, SourcePairLog(d, p, s, text, fields, i))
    ensures Reports(e, x, z, SourcePairsLog(d, p, s, text, fields, i + 1))
  {
    hide IsMerge, Reports, SourcePairLog;
    Follows(e, x, y, z, SourcePairsLog(d, p, s, text, fields, i), SourcePairLog(d, p, s, text, fields, i));
  }

  lemma {:induction false} SourcePairsFail(
    d: Doc, p: set<nat>, s: Node, text: bool, fields: set<Atom>, k: nat, e: Error, x: seq<bool>, y: seq<bool>)
    requires s.Mapping? && k <= |s.pairs| && e != NoError
    requires Reports(e, x, y, SourcePairsLog(d, p, s, text, fields, k))
    ensures Reports(e, x, y, IntoLog(d, p, s, text, fields))
    decreases |s.pairs| - k
  {
    hide IsMerge, Reports, SourcePairLog, SourceMergeLog;
    var log := SourcePairsLog(d, p, s, text, fields, k);
    if k < |s.pairs| {
      Stops(e, x, y, log, SourcePairLog(d, p, s, text, fields, k));
      SourcePairsFail(d, p, s, text, fields, k + 1, e, x, y);
    } else {
      Stops(e, x, y, log, SourceMergeLog(d, p, s, text, fields));
    }
  }

  lemma SourceEnds(d: Doc, p: set<nat>, s: Node, text: bool, fields: set<Atom>, x: seq<bool>, y: seq<bool>)
    requires s.Mapping? && !HasMerge(s.pairs)
    requires Reports(NoError, x, y, SourcePairsLog(d, p, s, text, fields, |s.pairs|))
    ensures Reports(NoError, x, y, IntoLog(d, p, s, text, fields))
  {
    hide Reports, SourcePairsLog, MergeValue;
    Quiet(SourcePairsLog(d, p, s, text, fields, |s.pairs|));
  }

  lemma SourceMerges(
    d: Doc, p: set<nat>, s: Node, text: bool, fields: set<Atom>, mv: Node, ps: seq<Pending>, e: Error,
    x: seq<bool>, y: seq<bool>, z: seq<bool>)
    requires s.Mapping? && MergeValue(s.pairs, |s.pairs|) == Some(mv) && Own(d, p, s, text, |s.pairs|) == Some(ps)
    requires Reports(NoError, x, y, SourcePairsLog(d, p, s, text, fields, |s.pairs|))
    requires Reports(e, y, z, SourcesLog(d, p, mv, text, fields + KeysOf(ps)))
    ensures Reports(e, x, z, IntoLog(d, p, s, text, fields))
  {
    hide Reports, SourcePairsLog, MergeValue, Own, SourcesLog;
    Follows(e, x, y, z, SourcePairsLog(d, p, s, text, fields, |s.pairs|),
      SourcesLog(d, p, mv, text, fields + KeysOf(ps)));
  }

  lemma SourceMapCall(
    d: Doc, p: set<nat>, s: Node, text: bool, fields: set<Atom>, e: Error, x: seq<bool>, y: seq<bool>)
    requires s.Mapping?
    ensures Reports(Excessive, x, x + [p != {}], SourceMapLog(d, p, s, text, fields))
    ensures HasRepeatedKey(s.pairs) ==> Reports(NoError, x, x + [p != {}], SourceMapLog(d, p, s, text, fields))
    ensures !HasRepeatedKey(s.pairs) && Reports(e, x + [p != {}], y, IntoLog(d, p, s, text, fields)) ==>
              Reports(e, x, y, SourceMapLog(d, p, s, text, fields))
  {
    hide Reports, HasRepeatedKey, IntoLog;
    NothingDone(x + [p != {}], NoError);
    Calls(p, NoError, x, x + [p != {}], QUIET);
    Calls(p, e, x, y, IntoLog(d, p, s, text, fields));
  }

  lemma SourceAtOnce(d: Doc, p: set<nat>, s: Node, text: bool, fields: set<Atom>, x: seq<bool>)
    requires !s.Mapping? && (s.Alias? ==> s.id in d.targets && !d.targets[s.id].Mapping?)
    ensures Reports(WantMap, x, x, SourceLog(d, p, s, text, fields))
  {
    NothingDone(x, WantMap);
    hide Reports;
  }

  lemma SourceIsMap(d: Doc, p: set<nat>, s: Node, text: bool, fields: set<Atom>)
    requires s.Mapping?
    ensures SourceLog(d, p, s, text, fields) == SourceMapLog(d, p, s, text, fields)
  {
    hide SourceMapLog;
  }

  lemma SourceAliasCall(
    d: Doc, p: set<nat>, s: Node, text: bool, fields: set<Atom>, e: Error, x: seq<bool>, y: seq<bool>)
    requires s.Alias? && (s.id in d.targets ==> d.targets[s.id].Mapping?)
    ensures Reports(Excessive, x, x + [p != {}], SourceLog(d, p, s, text, fields))
    ensures s.id !in d.targets ==> Reports(NoTarget, x, x + [p != {}], SourceLog(d, p, s, text, fields))
    ensures s.id in d.targets && s.id in p ==>
              Reports(SelfContaining, x, x + [p != {}], SourceLog(d, p, s, text, fields))
    ensures s.id in d.targets && s.id !in p ==>
              Reports(e, x + [p != {}], y, SourceMapLog(d, p + {s.id}, d.targets[s.id], text, fields)) ==>
                Reports(e, x, y, SourceLog(d, p, s, text, fields))
  {
    hide Reports, SourceMapLog;
    var made := x + [p != {}];
    if s.id !in d.targets {
      NothingDone(made, NoTarget);
      Calls(p, NoTarget, x, made, Failed(NoTarget));
    } else if s.id in p {
      NothingDone(made, SelfContaining);
      Calls(p, SelfContaining, x, made, Failed(SelfContaining));
    } else {
      Calls(p, e, x, y, SourceMapLog(d, p + {s.id}, d.targets[s.id], text, fields));
    }
  }

  lemma NoListYet(d: Doc, p: set<nat>, m: Node, text: bool, fields: set<Atom>, x: seq<bool>)
    requires m.Sequence?
    ensures Reports(NoError, x, x, ListLog(d, p, m, text, fields, 0))
  {
    NothingDone(x, NoError);
  }

  lemma SourceReported(
    d: Doc, p: set<nat>, m: Node, text: bool, fields: set<Atom>, i: nat, r: seq<Pending>, e: Error,
    x: seq<bool>, y: seq<bool>, z: seq<bool>)
    requires m.Sequence? && i < |m.items| && SourceList(d, p, m, text, i) == Some(r)
    requires Reports(NoError, x, y, ListLog(d, p, m, text, fields, i))
    requires Reports(e, y, z, SourceLog(d, p, m.items[i], text, fields + KeysOf(r)))
    ensures Reports(e, x, z, ListLog(d, p, m, text, fields, i + 1))
  {
    hide SourceList, SourceLog, Reports;
    Follows(e, x, y, z, ListLog(d, p, m, text, fields, i), SourceLog(d, p, m.items[i], text, fields + KeysOf(r)));
  }

  /** An error ends the list of sources; without one, its last does. */
  lemma {:induction false} ListReported(
    d: Doc, p: set<nat>, m: Node, text: bool, fields: set<Atom>, k: nat, e: Error, x: seq<bool>, y: seq<bool>)
    requires m.Sequence? && k <= |m.items| && (e != NoError || k == |m.items|)
    requires Reports(e, x, y, ListLog(d, p, m, text, fields, k))
    ensures Reports(e, x, y, SourcesLog(d, p, m, text, fields))
    decreases |m.items| - k
  {
    hide SourceList, SourceLog, Reports;
    if k < |m.items| {
      Stops(e, x, y, ListLog(d, p, m, text, fields, k),
        SourceLog(d, p, m.items[k], text, FieldsAfter(fields, SourceList(d, p, m, text, k))));
      ListReported(d, p, m, text, fields, k + 1, e, x, y);
    }
  }

  lemma OneSource(d: Doc, p: set<nat>, m: Node, text: bool, fields: set<Atom>)
    requires !m.Sequence?
    ensures SourcesLog(d, p, m, text, fields) == SourceLog(d, p, m, text, fields)
  {
    hide SourceLog;
  }

  /** Taken keys grow with the bindings of the sources. */
  lemma FieldsGrow(taken: set<Atom>, q: seq<Pending>, r: seq<Pending>)
    ensures taken + KeysOf(q + r) == taken + KeysOf(q) + KeysOf(r)
  {
    KeysConcat(q, r);
  }
}
