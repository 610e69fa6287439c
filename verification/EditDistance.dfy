/**
 ld (cobra/cobra.go:192-223), the distance behind command suggestions: a table filled by
 columns, with a recurrence that does not look for a minimum where two characters match.

 The yardstick is the edit script.  The distance of two strings is the cost of a cheapest
 script that turns one into the other.
 */
module EditDistance {

  datatype Edit<C> = Keep(c: C) | Substitute(a: C, b: C) | Insert(c: C) | Delete(c: C)

  function Read<C>(x: Edit<C>): seq<C> {
    match x
    case Keep(c) => [c]
    case Substitute(a, _) => [a]
    case Insert(_) => []
    case Delete(c) => [c]
  }

  function Written<C>(x: Edit<C>): seq<C> {
    match x
    case Keep(c) => [c]
    case Substitute(_, b) => [b]
    case Insert(c) => [c]
    case Delete(_) => []
  }

  function Price<C>(x: Edit<C>): nat {
    if x.Keep? then 0 else 1
  }

  function Init<T>(s: seq<T>): seq<T>
    requires s != []
  {
    s[..|s| - 1]
  }

  function Last<T>(s: seq<T>): T
    requires s != []
  {
    s[|s| - 1]
  }

  function Source<C>(script: seq<Edit<C>>): seq<C> {
    if script == [] then [] else Source(Init(script)) + Read(Last(script))
  }

  function Target<C>(script: seq<Edit<C>>): seq<C> {
    if script == [] then [] else Target(Init(script)) + Written(Last(script))
  }

  function Cost<C>(script: seq<Edit<C>>): nat {
    if script == [] then 0 else Cost(Init(script)) + Price(Last(script))
  }

  /** d is what a cheapest script from s to t costs. */
  ghost predicate IsDistance<C(!new)>(s: seq<C>, t: seq<C>, d: nat) {
    && (exists e: seq<Edit<C>> :: Source(e) == s && Target(e) == t && Cost(e) == d)
    && (forall e: seq<Edit<C>> :: Source(e) == s && Target(e) == t ==> d <= Cost(e))
  }

  function Min(a: nat, b: nat): nat {
    if a < b then a else b
  }

  /** The recurrence of the table. */
  function Lev<C(==)>(s: seq<C>, t: seq<C>): nat
    decreases |s| + |t|
  {
    if s == [] then |t|
    else if t == [] then |s|
    else if Last(s) == Last(t) then Lev(Init(s), Init(t))
    else 1 + Min(Min(Lev(Init(s), t), Lev(s, Init(t))), Lev(Init(s), Init(t)))
  }

  lemma Grown<T>(s: seq<T>, x: T)
    ensures Init(s + [x]) == s && Last(s + [x]) == x && s + [] == s
  {}

  lemma Rejoin<T>(s: seq<T>)
    ensures s != [] ==> s == Init(s) + [Last(s)]
    ensures s + [] == s
  {}

  lemma {:induction false} Symmetric<C>(s: seq<C>, t: seq<C>)
    ensures Lev(s, t) == Lev(t, s)
    decreases |s| + |t|
  {
    if s != [] && t != [] {
      Symmetric(Init(s), Init(t));
      Symmetric(Init(s), t);
      Symmetric(s, Init(t));
    }
  }

  /** One more character changes the recurrence by at most one: the shortcut loses nothing. */
  lemma {:induction false} Close<C>(s: seq<C>, t: seq<C>, a: C)
    ensures Lev(s + [a], t) <= Lev(s, t) + 1 && Lev(s, t) <= Lev(s + [a], t) + 1
    decreases |s| + |t|
  {
    Grown(s, a);
    if t != [] {
      var t', b := Init(t), Last(t);
      assert t == t' + [b];
      Symmetric(s, t);
      Symmetric(s, t');
      Close(t', s, b);
      Close(s, t', a);
    }
  }

  /** No script is cheaper than the recurrence says. */
  lemma {:induction false} NoneCheaper<C>(e: seq<Edit<C>>)
    ensures Lev(Source(e), Target(e)) <= Cost(e)
    decreases |e|
  {
    if e != [] {
      var s, t := Source(Init(e)), Target(Init(e));
      NoneCheaper(Init(e));
      match Last(e) {
        case Keep(c) => Grown(s, c); Grown(t, c);
        case Substitute(a, b) => Grown(s, a); Grown(t, b);
        case Insert(c) => Close(t, s, c); Symmetric(s, t); Symmetric(s, t + [c]); Rejoin(s);
        case Delete(c) => Close(s, t, c); Rejoin(t);
      }
    }
  }

  /** The last step of a cheapest script. */
  function LastEdit<C(==)>(s: seq<C>, t: seq<C>): Edit<C>
    requires s != [] || t != []
  {
    if s == [] then Insert(Last(t))
    else if t == [] then Delete(Last(s))
    else if Last(s) == Last(t) then Keep(Last(s))
    else if Lev(s, t) == 1 + Lev(Init(s), t) then Delete(Last(s))
    else if Lev(s, t) == 1 + Lev(s, Init(t)) then Insert(Last(t))
    else Substitute(Last(s), Last(t))
  }

  lemma LastEditFits<C>(s: seq<C>, t: seq<C>)
    requires s != [] || t != []
    ensures var x := LastEdit(s, t);
            && |Read(x)| <= |s| && |Written(x)| <= |t| && |Read(x)| + |Written(x)| > 0
            && s == s[..|s| - |Read(x)|] + Read(x) && t == t[..|t| - |Written(x)|] + Written(x)
            && Lev(s, t) == Lev(s[..|s| - |Read(x)|], t[..|t| - |Written(x)|]) + Price(x)
  {
    assert s[..|s|] == s && t[..|t|] == t;
  }

  /** A script that costs what the recurrence says. */
  function Cheapest<C(==)>(s: seq<C>, t: seq<C>): (e: seq<Edit<C>>)
    decreases |s| + |t|
  {
    if s == [] && t == [] then []
    else
      var x := LastEdit(s, t);
      LastEditFits(s, t);
      Cheapest(s[..|s| - |Read(x)|], t[..|t| - |Written(x)|]) + [x]
  }

  lemma OneMore<C>(e: seq<Edit<C>>, x: Edit<C>)
    ensures Source(e + [x]) == Source(e) + Read(x) && Target(e + [x]) == Target(e) + Written(x)
              && Cost(e + [x]) == Cost(e) + Price(x)
  {
    Grown(e, x);
  }

  /** What the last step of a cheapest script leaves to do. */
  lemma Fronts<C>(s: seq<C>, t: seq<C>) returns (s': seq<C>, t': seq<C>, x: Edit<C>)
    requires s != [] || t != []
    ensures s == s' + Read(x) && t == t' + Written(x) && |s'| + |t'| < |s| + |t|
    ensures Cheapest(s, t) == Cheapest(s', t') + [x] && Lev(s, t) == Lev(s', t') + Price(x)
  {
    hide Lev, LastEdit, Read, Written;
    LastEditFits(s, t);
    x := LastEdit(s, t);
    s', t' := s[..|s| - |Read(x)|], t[..|t| - |Written(x)|];
  }

  lemma Nothing<C>()
    ensures Source<C>([]) == [] && Target<C>([]) == [] && Cost<C>([]) == 0
    ensures Cheapest<C>([], []) == [] && Lev<C>([], []) == 0
  {}

  lemma {:induction false} CheapestFits<C>(s: seq<C>, t: seq<C>)
    ensures var e := Cheapest(s, t); Source(e) == s && Target(e) == t && Cost(e) == Lev(s, t)
    decreases |s| + |t|
  {
    hide *;
    if s == [] && t == [] {
      Nothing<C>();
    } else {
      var s', t', x := Fronts(s, t);
      CheapestFits(s', t');
      OneMore(Cheapest(s', t'), x);
    }
  }

  /** The recurrence is the distance. */
  lemma LevIsDistance<C(!new)>(s: seq<C>, t: seq<C>)
    ensures IsDistance(s, t, Lev(s, t))
  {
    CheapestFits(s, t);
    forall e: seq<Edit<C>> | Source(e) == s && Target(e) == t ensures Lev(s, t) <= Cost(e) {
      NoneCheaper(e);
    }
  }

  // ----- A metric ---------------------------------------------------------------------------------

  lemma {:induction false} FreeIsEqual<C>(e: seq<Edit<C>>)
    requires Cost(e) == 0
    ensures Source(e) == Target(e)
  {
    if e != [] {
      FreeIsEqual(Init(e));
    }
  }

  lemma {:induction false} SelfIsZero<C>(s: seq<C>)
    ensures Lev(s, s) == 0
  {
    if s != [] {
      SelfIsZero(Init(s));
    }
  }

  lemma ZeroOnlyOnEqual<C>(s: seq<C>, t: seq<C>)
    ensures Lev(s, t) == 0 <==> s == t
  {
    CheapestFits(s, t);
    if Lev(s, t) == 0 {
      FreeIsEqual(Cheapest(s, t));
    }
    SelfIsZero(s);
  }

  /** x writes the character that y reads. */
  function Both<C(==)>(x: Edit<C>, y: Edit<C>): seq<Edit<C>>
    requires !x.Delete? && !y.Insert?
  {
    match y
    case Keep(_) => [x]
    case Delete(c) => if x.Insert? then [] else [Delete(if x.Keep? then x.c else x.a)]
    case Substitute(_, b) => [if x.Insert? then Insert(b) else Substitute(if x.Keep? then x.c else x.a, b)]
  }

  /** One script after another. */
  function Compose<C(==)>(d: seq<Edit<C>>, e: seq<Edit<C>>): seq<Edit<C>>
    decreases |d| + |e|
  {
    if d == [] then e
    else if Last(d).Delete? then Compose(Init(d), e) + [Last(d)]
    else if e == [] then d
    else if Last(e).Insert? then Compose(d, Init(e)) + [Last(e)]
    else Compose(Init(d), Init(e)) + Both(Last(d), Last(e))
  }

  /** A script in terms of all but its last edit. */
  lemma Ends<C>(e: seq<Edit<C>>)
    ensures e == [] ==> Source(e) == [] && Target(e) == [] && Cost(e) == 0
    ensures e != [] ==>
              && Source(e) == Source(Init(e)) + Read(Last(e)) && Target(e) == Target(Init(e)) + Written(Last(e))
              && Cost(e) == Cost(Init(e)) + Price(Last(e)) && |Init(e)| < |e|
  {}

  lemma DeleteWritesNothing<C>(t: seq<C>, x: Edit<C>)
    requires x.Delete?
    ensures t + Written(x) == t
  {}

  lemma InsertReadsNothing<C>(s: seq<C>, x: Edit<C>)
    requires x.Insert?
    ensures s + Read(x) == s
  {}

  lemma WritesSomething<C>(t: seq<C>, x: Edit<C>)
    requires !x.Delete?
    ensures t + Written(x) != []
  {}

  lemma ComposeStep<C>(d: seq<Edit<C>>, e: seq<Edit<C>>)
    ensures Compose(d, e) ==
            if d == [] then e
            else if Last(d).Delete? then Compose(Init(d), e) + [Last(d)]
            else if e == [] then d
            else if Last(e).Insert? then Compose(d, Init(e)) + [Last(e)]
            else Compose(Init(d), Init(e)) + Both(Last(d), Last(e))
  {}

  lemma Meet<C>(d: seq<Edit<C>>, e: seq<Edit<C>>)
    requires d != [] && e != [] && !Last(d).Delete? && !Last(e).Insert? && Target(d) == Source(e)
    ensures Target(Init(d)) == Source(Init(e)) && Written(Last(d)) == Read(Last(e))
  {
    Grown(Target(Init(d)), Written(Last(d))[0]);
    Grown(Source(Init(e)), Read(Last(e))[0]);
  }

  lemma BothFits<C>(r: seq<Edit<C>>, x: Edit<C>, y: Edit<C>)
    requires !x.Delete? && !y.Insert? && Written(x) == Read(y)
    ensures var all := r + Both(x, y);
            Source(all) == Source(r) + Read(x) && Target(all) == Target(r) + Written(y)
              && Cost(all) <= Cost(r) + Price(x) + Price(y)
  {
    hide Source, Target, Cost;
    if x.Insert? && y.Delete? {
      Rejoin(r);
      Rejoin(Source(r));
      Rejoin(Target(r));
    } else {
      OneMore(r, Both(x, y)[0]);
    }
  }

  lemma {:induction false} ComposeFits<C>(d: seq<Edit<C>>, e: seq<Edit<C>>)
    requires Target(d) == Source(e)
    ensures var r := Compose(d, e); Source(r) == Source(d) && Target(r) == Target(e) && Cost(r) <= Cost(d) + Cost(e)
    decreases |d| + |e|
  {
    hide *;
    ComposeStep(d, e);
    Ends(d);
    Ends(e);
    if d == [] {
    } else if Last(d).Delete? {
      DeleteWritesNothing(Target(Init(d)), Last(d));
      ComposeFits(Init(d), e);
      OneMore(Compose(Init(d), e), Last(d));
      DeleteWritesNothing(Target(Compose(Init(d), e)), Last(d));
    } else if e == [] {
      WritesSomething(Target(Init(d)), Last(d));
      assert false;
    } else if Last(e).Insert? {
      InsertReadsNothing(Source(Init(e)), Last(e));
      ComposeFits(d, Init(e));
      OneMore(Compose(d, Init(e)), Last(e));
      InsertReadsNothing(Source(Compose(d, Init(e))), Last(e));
    } else {
      Meet(d, e);
      ComposeFits(Init(d), Init(e));
      BothFits(Compose(Init(d), Init(e)), Last(d), Last(e));
    }
  }

  lemma Triangle<C>(s: seq<C>, t: seq<C>, u: seq<C>)
    ensures Lev(s, u) <= Lev(s, t) + Lev(t, u)
  {
    CheapestFits(s, t);
    CheapestFits(t, u);
    ComposeFits(Cheapest(s, t), Cheapest(t, u));
    NoneCheaper(Compose(Cheapest(s, t), Cheapest(t, u)));
  }

  // ----- The table ---------------------------------------------------------------------------------

  lemma Cell<C>(s: seq<C>, t: seq<C>, i: nat, j: nat)
    requires 0 < i <= |s| && 0 < j <= |t|
    ensures Lev(s[..i], t[..j]) ==
            if s[i - 1] == t[j - 1] then Lev(s[..i - 1], t[..j - 1])
            else 1 + Min(Min(Lev(s[..i - 1], t[..j]), Lev(s[..i], t[..j - 1])), Lev(s[..i - 1], t[..j - 1]))
  {
    assert Init(s[..i]) == s[..i - 1] && Init(t[..j]) == t[..j - 1];
  }

  lemma Borders<C>(s: seq<C>, t: seq<C>)
    ensures forall k :: 0 <= k <= |s| ==> Lev(s[..k], t[..0]) == k
    ensures forall l :: 0 <= l <= |t| ==> Lev(s[..0], t[..l]) == l
  {}

  method Ld(word: string, other: string, ignoreCase: bool, toLower: string -> string) returns (distance: int)
    ensures var s, t := if ignoreCase then toLower(word) else word, if ignoreCase then toLower(other) else other;
            distance >= 0 && IsDistance(s, t, distance) && distance == Lev(s, t)
  {
    hide Lev, IsDistance;
    var s, t := word, other;
    if ignoreCase {
      s, t := toLower(s), toLower(t);
    }
    var d := new int[|s| + 1, |t| + 1];
    for i := 0 to |s| + 1
      invariant forall k :: 0 <= k < i ==> d[k, 0] == k
    {
      d[i, 0] := i;
    }
    for j := 0 to |t| + 1
      invariant forall k :: 0 <= k <= |s| ==> d[k, 0] == k
      invariant forall k :: 0 <= k < j ==> d[0, k] == k
    {
      d[0, j] := j;
    }
    Borders(s, t);
    for j := 1 to |t| + 1
      invariant forall l :: 0 <= l <= |t| ==> d[0, l] == Lev(s[..0], t[..l])
      invariant forall k, l :: 0 <= k <= |s| && 0 <= l < j ==> d[k, l] == Lev(s[..k], t[..l])
    {
      for i := 1 to |s| + 1
        invariant forall l :: 0 <= l <= |t| ==> d[0, l] == Lev(s[..0], t[..l])
        invariant forall k, l :: 0 <= k <= |s| && 0 <= l < j ==> d[k, l] == Lev(s[..k], t[..l])
        invariant forall k :: 0 <= k < i ==> d[k, j] == Lev(s[..k], t[..j])
      {
        Cell(s, t, i, j);
        if s[i - 1] == t[j - 1] {
          d[i, j] := d[i - 1, j - 1];
        } else {
          var min := d[i - 1, j];
          if d[i, j - 1] < min {
            min := d[i, j - 1];
          }
          if d[i - 1, j - 1] < min {
            min := d[i - 1, j - 1];
          }
          d[i, j] := min + 1;
        }
      }
    }
    assert s[..|s|] == s && t[..|t|] == t;
    LevIsDistance(s, t);
    return d[|s|, |t|];
  }
}
