/**
 ensureUniqueHeadingID (blackfriday/html.go:251-268): heading IDs that are never given twice,
 from a map of the IDs given so far to a counter each.
 */
module HeadingIds {
  type Counters = map<string, int>

  /** The keys of at least this length; each failed candidate leaves one of them behind. */
  function Longer(m: Counters, length: nat): set<string> {
    set k | k in m && |k| >= length
  }

  lemma Fewer(a: set<string>, b: set<string>)
    requires a <= b
    ensures |a| <= |b|
  {
    assert b == a + (b - a);
  }

  lemma LongerShrinks(m: Counters, id: string, length: nat)
    requires id in m && length > |id|
    ensures |Longer(m, length)| < |Longer(m, |id|)|
  {
    assert Longer(m, length) <= Longer(m, |id|) - {id};
    Fewer(Longer(m, length), Longer(m, |id|) - {id});
  }

  function Numbered(itoa: int -> string, m: Counters, id: string): string
    requires id in m
  {
    id + "-" + itoa(m[id] + 1)
  }

  /** The ID given: the first free one among id, id-n, id-1, id-1-n', id-1-1 and so on. */
  function Given(itoa: int -> string, m: Counters, id: string): string
    decreases |Longer(m, |id|)|
  {
    if id !in m then id
    else if Numbered(itoa, m, id) !in m then Numbered(itoa, m, id)
    else
      LongerShrinks(m, id, |id + "-1"|);
      Given(itoa, m, id + "-1")
  }

  /** The counters afterwards: the new ID at zero, and the ID it was numbered from one higher. */
  function Recorded(itoa: int -> string, m: Counters, id: string): Counters
    decreases |Longer(m, |id|)|
  {
    if id !in m then m[id := 0]
    else if Numbered(itoa, m, id) !in m then m[id := m[id] + 1][Numbered(itoa, m, id) := 0]
    else
      LongerShrinks(m, id, |id + "-1"|);
      Recorded(itoa, m, id + "-1")
  }

  /** Fresh, and an extension of the ID asked for; that very one if it was free. */
  lemma {:induction false} GivenIsFresh(itoa: int -> string, m: Counters, id: string)
    ensures Given(itoa, m, id) !in m && id <= Given(itoa, m, id) && (id !in m ==> Given(itoa, m, id) == id)
    decreases |Longer(m, |id|)|
  {
    if id in m && Numbered(itoa, m, id) in m {
      LongerShrinks(m, id, |id + "-1"|);
      GivenIsFresh(itoa, m, id + "-1");
    }
  }

  // ----- The same ID again and again ------------------------------------------------------------------

  /** The counters after n requests for the same ID, starting with none. */
  function Repeated(itoa: int -> string, id: string, n: nat): Counters {
    if n == 0 then map[] else Recorded(itoa, Repeated(itoa, id, n - 1), id)
  }

  ghost predicate Injective(itoa: int -> string) {
    forall a, b :: itoa(a) == itoa(b) ==> a == b
  }

  lemma Suffix(id: string, a: string, b: string)
    requires id + "-" + a == id + "-" + b
    ensures a == b
  {
    assert a == (id + "-" + a)[|id| + 1..] && b == (id + "-" + b)[|id| + 1..];
  }

  lemma {:induction false} RepeatedKeys(itoa: int -> string, id: string, n: nat)
    requires Injective(itoa) && n > 0
    ensures var m := Repeated(itoa, id, n);
            id in m && m[id] == n - 1 && forall k :: k >= n ==> id + "-" + itoa(k) !in m
  {
    if n > 1 {
      RepeatedKeys(itoa, id, n - 1);
      var before := Repeated(itoa, id, n - 1);
      assert Numbered(itoa, before, id) == id + "-" + itoa(n - 1);
      forall k | k >= n
        ensures id + "-" + itoa(k) !in Repeated(itoa, id, n)
      {
        if id + "-" + itoa(k) == id + "-" + itoa(n - 1) {
          Suffix(id, itoa(k), itoa(n - 1));
        }
      }
    } else {
      assert Repeated(itoa, id, 1) == map[id := 0];
    }
  }

  /** One ID asked for over and over is given as id, id-1, id-2 and so on. */
  lemma RepeatsAreNumbered(itoa: int -> string, id: string, n: nat)
    requires Injective(itoa)
    ensures Given(itoa, Repeated(itoa, id, n), id) == if n == 0 then id else id + "-" + itoa(n)
  {
    if n > 0 {
      RepeatedKeys(itoa, id, n);
    }
  }

  class Renderer {
    const itoa: int -> string
    var headingIds: Counters

    constructor (itoa: int -> string)
      ensures this.itoa == itoa && headingIds == map[]
    {
      this.itoa, headingIds := itoa, map[];
    }

    method EnsureUniqueHeadingId(asked: string) returns (id: string)
      modifies this`headingIds
      ensures id == Given(itoa, old(headingIds), asked) && headingIds == Recorded(itoa, old(headingIds), asked)
      ensures id !in old(headingIds) && asked <= id && headingIds.Keys == old(headingIds.Keys) + {id}
                && headingIds[id] == 0
    {
      id := asked;
      ghost var m := headingIds;
      GivenIsFresh(itoa, m, asked);
      while id in headingIds
        invariant headingIds.Keys == m.Keys
        invariant id in m ==> headingIds == m
        invariant Given(itoa, m, asked) == if id in m then Given(itoa, m, id) else id
        invariant Recorded(itoa, m, asked) == if id in m then Recorded(itoa, m, id) else headingIds[id := 0]
        decreases |Longer(m, |id|)|
      {
        var count := headingIds[id];
        var tmp := id + "-" + itoa(count + 1);
        LongerShrinks(m, id, |id + "-1"|);
        LongerShrinks(m, id, |tmp|);
        if tmp !in headingIds {
          headingIds := headingIds[id := count + 1];
          id := tmp;
        } else {
          id := id + "-1";
          assert id !in m ==> Given(itoa, m, id) == id;
        }
      }
      if id !in headingIds {
        headingIds := headingIds[id := 0];
      }
    }
  }

  /** Any number of requests: the IDs are distinct, and the map holds exactly them. */
  method GiveAll(itoa: int -> string, asked: seq<string>) returns (ids: seq<string>, used: set<string>)
    ensures |ids| == |asked| && used == set k | k in ids
    ensures forall i :: 0 <= i < |ids| ==> asked[i] <= ids[i]
    ensures forall i, j :: 0 <= i < j < |ids| ==> ids[i] != ids[j]
  {
    var renderer := new Renderer(itoa);
    ids := [];
    for i := 0 to |asked|
      invariant |ids| == i && renderer.itoa == itoa
      invariant renderer.headingIds.Keys == set k | k in ids
      invariant forall k :: 0 <= k < i ==> asked[k] <= ids[k]
      invariant forall k, l :: 0 <= k < l < i ==> ids[k] != ids[l]
    {
      var id := renderer.EnsureUniqueHeadingId(asked[i]);
      assert forall k :: 0 <= k < |ids| ==> ids[k] in ids;
      ids := ids + [id];
    }
    used := renderer.headingIds.Keys;
  }
}
