/**
 The test against excessive aliasing (go-yaml/decode.go:455-491): which share of all unmarshal
 calls may be made inside aliases.
 */
module AliasRatio {
  const RANGE_LOW := 400000
  const RANGE_HIGH := 4000000

  lemma Interpolation(n: nat)
    requires RANGE_LOW <= n <= RANGE_HIGH
    ensures 0.0 <= (n - RANGE_LOW) as real / (RANGE_HIGH - RANGE_LOW) as real <= 1.0
  {
    var x := (n - RANGE_LOW) as real;
    assert 0.0 <= x <= 3600000.0;
  }

  /** allowedAliasRatio, over the rationals. */
  function AllowedAliasRatio(decodeCount: nat): (r: real)
    ensures 0.10 <= r <= 0.99
  {
    if decodeCount <= RANGE_LOW then 0.99
    else if decodeCount >= RANGE_HIGH then 0.10
    else
      Interpolation(decodeCount);
      0.99 - 0.89 * ((decodeCount - RANGE_LOW) as real / (RANGE_HIGH - RANGE_LOW) as real)
  }

  /** How many of n decodes may be driven by aliases. */
  function AllowedAliases(n: nat): real {
    n as real * AllowedAliasRatio(n)
  }

  lemma Expand(x: real, y: real)
    requires 3600000.0 * y == x - 400000.0
    ensures 360000000.0 * (x * (0.99 - 0.89 * y)) == x * (392000000.0 - 89.0 * x)
  {
    assert 360000000.0 * (0.99 - 0.89 * y) == 392000000.0 - 89.0 * x;
    assert 360000000.0 * (x * (0.99 - 0.89 * y)) == x * (360000000.0 * (0.99 - 0.89 * y));
  }

  lemma {:induction false} Product(a: nat, b: int)
    ensures (a * b) as real == a as real * b as real
  {
    if a > 0 {
      Product(a - 1, b);
      assert a * b == (a - 1) * b + b;
      assert a as real == (a - 1) as real + 1.0;
    } else {
      assert a * b == 0;
    }
  }

  /** The allowance as a polynomial. */
  lemma Allowance(n: nat)
    requires RANGE_LOW < n < RANGE_HIGH
    ensures 360000000.0 * AllowedAliases(n) == (n * (392000000 - 89 * n)) as real
  {
    var x, y := n as real, (n - RANGE_LOW) as real / (RANGE_HIGH - RANGE_LOW) as real;
    assert 3600000.0 * y == x - 400000.0;
    Expand(x, y);
    assert (392000000 - 89 * n) as real == 392000000.0 - 89.0 * x;
    Product(n, 392000000 - 89 * n);
  }

  lemma Factors(n: int)
    ensures 144000000000000 - n * (392000000 - 89 * n) == (4000000 - n) * (36000000 - 89 * n)
    ensures n * (392000000 - 89 * n) - 142560000000000 == (n - 400000) * (356400000 - 89 * n)
  {
    var square := n * n;
    assert n * (392000000 - 89 * n) == 392000000 * n - 89 * square;
    assert (4000000 - n) * (36000000 - 89 * n) == 144000000000000 - 392000000 * n + 89 * square;
    assert (n - 400000) * (356400000 - 89 * n) == 392000000 * n - 89 * square - 142560000000000;
  }

  lemma Sign(a: int, b: int)
    requires a > 0
    ensures a * b >= 0 <==> b >= 0
  {}

  /** It is above the band between its roots, 404494.38 and 4000000, and never below it. */
  lemma Parabola(n: nat)
    requires RANGE_LOW < n < RANGE_HIGH
    ensures n * (392000000 - 89 * n) <= 144000000000000 <==> n <= 404494
    ensures n * (392000000 - 89 * n) >= 142560000000000
  {
    Factors(n);
    Sign(4000000 - n, 36000000 - 89 * n);
    Sign(n - 400000, 356400000 - 89 * n);
  }

  /** Between the ends of the range the allowance leaves the band that a comment announces for it. */
  lemma AllowanceBand(n: nat)
    ensures 396000.0 <= AllowedAliases(n) <= 400000.0 <==> 400000 <= n <= 404494 || n == 4000000
  {
    if RANGE_LOW < n < RANGE_HIGH {
      Allowance(n);
      Parabola(n);
    }
  }

  /** One million decodes may be driven by aliases more than twice as often as announced. */
  lemma AllowanceExceedsBand()
    ensures AllowedAliases(1000000) > 841666.0
  {
    Allowance(1000000);
  }

  /** The test at the head of unmarshal. */
  predicate TooMany(aliasCount: nat, decodeCount: nat) {
    && aliasCount > 100
    && decodeCount > 1000
    && aliasCount as real / decodeCount as real > AllowedAliasRatio(decodeCount)
  }

  lemma Scaled(a: real, n: real, r: real)
    requires n > 0.0 && a / n <= r
    ensures a <= r * n
  {
    assert a == a / n * n;
  }

  /** What the test bounds: the calls outside aliases are at least a hundredth of all calls. */
  lemma WorkBound(aliasCount: nat, decodeCount: nat, direct: nat)
    requires !TooMany(aliasCount, decodeCount)
    requires decodeCount <= aliasCount + direct && direct > 0
    ensures decodeCount <= 1000 || decodeCount <= 100 * direct
  {
    if decodeCount > 1000 && aliasCount > 100 {
      var a, n := aliasCount as real, decodeCount as real;
      assert a / n <= 0.99;
      Scaled(a, n, 0.99);
      assert n <= a + direct as real;
    }
  }

  lemma Ratio(a: real, n: real, r: real)
    requires n > 0.0
    ensures a / n > r <==> a > n * r
  {
    assert a == a / n * n;
  }

  /** The test in whole numbers, without division. */
  lemma TooManyExactly(a: nat, n: nat)
    ensures TooMany(a, n) <==>
              && a > 100 && n > 1000
              && if n <= 400000 then 100 * a > 99 * n
                 else if n < 4000000 then 360000000 * a > n * (392000000 - 89 * n)
                 else 10 * a > n
  {
    if n > 0 {
      Ratio(a as real, n as real, AllowedAliasRatio(n));
      if RANGE_LOW < n < RANGE_HIGH {
        Allowance(n);
        hide AllowedAliasRatio;
        assert 360000000.0 * a as real == (360000000 * a) as real;
      }
    }
  }

  /** Whatever the number of calls, more than a tenth of them are inside aliases when the test fails. */
  lemma TooManyMeans(a: nat, n: nat)
    requires TooMany(a, n)
    ensures n > 1000 && a > 100 && 10 * a > n
  {
    Ratio(a as real, n as real, 0.10);
    hide AllowedAliasRatio;
  }

  // ----- The test over a whole run ------------------------------------------------------------

  /** How many of these calls are made inside aliases. */
  function Aliased(calls: seq<bool>): (r: nat)
    ensures r <= |calls|
  {
    if calls == [] then 0
    else Aliased(calls[..|calls| - 1]) + if calls[|calls| - 1] then 1 else 0
  }

  /** The test stops a run that would make these calls. */
  ghost predicate Excess(calls: seq<bool>) {
    exists k :: 0 <= k <= |calls| && TooMany(Aliased(calls[..k]), k)
  }

  /** The counters after these calls; the last of them is the first to fail the test, or none does. */
  ghost predicate Tallied(made: seq<bool>, aliasCount: nat, decodeCount: nat, over: bool) {
    && decodeCount == |made| && aliasCount == Aliased(made)
    && (forall k :: 0 <= k < |made| ==> !TooMany(Aliased(made[..k]), k))
    && (over <==> TooMany(aliasCount, decodeCount))
  }

  lemma TalliedMore(made: seq<bool>, a: nat, n: nat, b: bool)
    requires Tallied(made, a, n, false)
    ensures var a' := a + if b then 1 else 0; Tallied(made + [b], a', n + 1, TooMany(a', n + 1))
  {
    hide TooMany;
    var more := made + [b];
    assert more[..|made|] == made;
    forall k | 0 <= k < |more|
      ensures !TooMany(Aliased(more[..k]), k)
    {
      assert more[..k] == made[..k];
      if k == |made| {
        assert made[..k] == made;
      }
    }
  }

  /** A run stops early exactly if its calls are in excess. */
  lemma TalliedDecides(made: seq<bool>, a: nat, n: nat, over: bool, calls: seq<bool>)
    requires Tallied(made, a, n, over) && if over then made <= calls else made == calls
    ensures over <==> Excess(calls)
  {
    hide TooMany, Aliased;
    assert made[..|made|] == made == calls[..|made|];
    if !over {
      forall k | 0 <= k <= |calls|
        ensures !TooMany(Aliased(calls[..k]), k)
      {
        if k < |made| {
          assert !TooMany(Aliased(made[..k]), k);
        }
      }
    }
  }

  lemma {:induction false} AliasedPrefix(calls: seq<bool>, k: nat)
    requires k <= |calls|
    ensures Aliased(calls[..k]) <= Aliased(calls)
  {
    if k < |calls| {
      var front := calls[..|calls| - 1];
      assert front[..k] == calls[..k];
      AliasedPrefix(front, k);
    } else {
      assert calls[..k] == calls;
    }
  }

  /** A run of at most a thousand calls, or of at most a hundred inside aliases, never stops early. */
  lemma ShortRunsPass(calls: seq<bool>)
    requires |calls| <= 1000 || Aliased(calls) <= 100
    ensures !Excess(calls)
  {
    forall k | 0 <= k <= |calls|
      ensures !TooMany(Aliased(calls[..k]), k)
    {
      AliasedPrefix(calls, k);
    }
  }
}
