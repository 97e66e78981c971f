/** What becomes of an integer that is cast to a 64-bit float: 53 significant bits, rounded to nearest,
    ties to even. There is no limit on the exponent: no integer of JSON comes near it. */
module Doubles {
  const LIMIT := 0x20_0000_0000_0000

  function Pow2(n: nat): (p: nat)
    ensures p >= 1
  {
    if n == 0 then 1 else 2 * Pow2(n - 1)
  }

  /** How many bits of `m` do not fit. */
  function Scale(m: nat): nat {
    if m < LIMIT then 0 else 1 + Scale(m / 2)
  }

  function Nearest(m: nat): nat {
    var u := Pow2(Scale(m));
    var q, r := m / u, m % u;
    if 2 * r < u || (2 * r == u && q % 2 == 0) then q * u else (q + 1) * u
  }

  function Double(i: int): int {
    if i >= 0 then Nearest(i) else -(Nearest(-i) as int)
  }

  predicate Spells(i: int, m: int, e: nat) {
    -LIMIT < m < LIMIT && i == m * Pow2(e)
  }

  /** Some float has exactly this value. */
  ghost predicate IsDouble(i: int) {
    exists m, e: nat :: Spells(i, m, e)
  }

  lemma {:induction false} Pow2Splits(a: nat, b: nat)
    ensures Pow2(a + b) == Pow2(a) * Pow2(b)
    decreases a
  {
    if a > 0 {
      Pow2Splits(a - 1, b);
      calc {
        Pow2(a + b);
        2 * (Pow2(a - 1) * Pow2(b));
        Pow2(a) * Pow2(b);
      }
    }
  }

  /** The significand has 53 bits when anything is cut off. */
  lemma {:induction false} ScaleFits(m: nat)
    ensures m < LIMIT * Pow2(Scale(m))
    ensures Scale(m) > 0 ==> LIMIT / 2 * Pow2(Scale(m)) <= m
  {
    if m >= LIMIT {
      ScaleFits(m / 2);
      assert Pow2(Scale(m)) == 2 * Pow2(Scale(m / 2));
    }
  }

  lemma TimesLess(a: int, b: int, p: nat)
    requires a <= b
    ensures a * p <= b * p
  {
  }

  lemma TimesGrows(a: int, b: int, p: int)
    requires p >= 1 && a * p < b * p
    ensures a < b
  {
    if b <= a {
      TimesLess(b, a, p);
    }
  }

  /** On a finer scale 53 bits do not reach that far. */
  lemma FinerIsSmaller(k: int, e: nat, s: nat)
    requires k < LIMIT && e < s
    ensures k * Pow2(e) < LIMIT / 2 * Pow2(s)
  {
    var p, n := Pow2(e), s - 1 - e;
    Pow2Splits(n, e);
    TimesLess(1, Pow2(n), p);
    assert Pow2(n + e) >= p && Pow2(s) == 2 * Pow2(n + e);
    TimesLess(k, LIMIT - 1, p);
  }

  lemma Regroup(a: int, b: int, c: int)
    ensures a * (b * c) == a * b * c
  {
  }

  /** A float this large is a multiple of what the last bit is worth. */
  lemma FloatsAreMultiples(m: nat, d: nat, k: int, e: nat) returns (t: int)
    requires Spells(d, k, e) && LIMIT / 2 * Pow2(Scale(m)) <= d
    ensures d == t * Pow2(Scale(m))
  {
    var s := Scale(m);
    if e < s {
      FinerIsSmaller(k, e, s);
      assert false;
    }
    Pow2Splits(e - s, s);
    t := k * Pow2(e - s);
    Regroup(k, Pow2(e - s), Pow2(s));
  }

  /** Either of the two neighbours of `m` on its own scale is a float. */
  lemma NeighbourIsDouble(m: nat, q: nat)
    requires m / Pow2(Scale(m)) <= q <= m / Pow2(Scale(m)) + 1
    ensures IsDouble(q * Pow2(Scale(m)))
  {
    var s := Scale(m);
    var u := Pow2(s);
    ScaleFits(m);
    assert m / u * u <= m;
    TimesGrows(m / u, LIMIT, u);
    if q < LIMIT {
      assert Spells(q * u, q, s);
    } else {
      assert Pow2(s + 1) == 2 * u;
      assert Spells(q * u, LIMIT / 2, s + 1);
    }
  }

  lemma Quotient(m: nat, u: nat)
    requires u > 0
    ensures m == m / u * u + m % u && (m / u + 1) * u == m / u * u + u
  {
  }

  /** No float lies strictly between those two. */
  lemma NothingBetween(m: nat, d: int)
    requires IsDouble(d)
    ensures var u := Pow2(Scale(m)); d <= m / u * u || (m / u + 1) * u <= d
  {
    var u := Pow2(Scale(m));
    var q := m / u;
    assert Scale(m) == 0 ==> u == 1;
    if q * u < d < (q + 1) * u {
      if Scale(m) == 0 {
        assert false;
      } else {
        var k, e: nat :| Spells(d, k, e);
        LeastQuotient(m);
        var t := FloatsAreMultiples(m, d, k, e);
        TimesGrows(q, t, u);
        TimesGrows(t, q + 1, u);
        assert false;
      }
    }
  }

  lemma LeastQuotient(m: nat)
    requires Scale(m) > 0
    ensures var u := Pow2(Scale(m)); LIMIT / 2 * u <= m / u * u
  {
    var u := Pow2(Scale(m));
    var q := m / u;
    ScaleFits(m);
    Quotient(m, u);
    TimesGrows(LIMIT / 2, q + 1, u);
    TimesLess(LIMIT / 2, q, u);
  }

  function Distance(a: int, b: int): nat {
    if a <= b then b - a else a - b
  }

  predicate Twice(i: int, u: int, h: int) {
    i == 2 * h * u
  }

  /** Of two neighbours `u` apart, the one that the even significand belongs to. */
  ghost predicate Even(i: int, u: int) {
    exists h: int :: Twice(i, u, h)
  }

  /** The rule, between two neighbours: nothing outside them is nearer, and nothing else as near but at
      the half-way point. */
  lemma PicksNearer(lo: int, u: int, r: int, even: bool, d: int)
    requires 0 <= r < u && (d <= lo || lo + u <= d)
    ensures var n := if 2 * r < u || (2 * r == u && even) then lo else lo + u;
      && Distance(n, lo + r) <= Distance(d, lo + r)
      && (d != n && Distance(n, lo + r) == Distance(d, lo + r) ==> 2 * r == u)
  {
  }

  lemma HalfWayIsEven(q: nat, u: int)
    ensures Even(if q % 2 == 0 then q * u else (q + 1) * u, u)
  {
    var n := if q % 2 == 0 then q else q + 1;
    assert n == 2 * (n / 2);
    assert Twice(n * u, u, n / 2);
  }

  lemma NearestSplits(m: nat) returns (lo: int, r: int, even: bool)
    ensures var u := Pow2(Scale(m));
      && m == lo + r && 0 <= r < u && lo == m / u * u && lo + u == (m / u + 1) * u
      && Nearest(m) == (if 2 * r < u || (2 * r == u && even) then lo else lo + u)
      && Even(if even then lo else lo + u, u)
  {
    var u := Pow2(Scale(m));
    var q := m / u;
    Quotient(m, u);
    HalfWayIsEven(q, u);
    lo, r, even := q * u, m % u, q % 2 == 0;
  }

  lemma NearestIsNearest(m: nat, d: int)
    requires IsDouble(d)
    ensures Distance(Nearest(m), m) <= Distance(d, m)
    ensures d != Nearest(m) && Distance(Nearest(m), m) == Distance(d, m) ==> Even(Nearest(m), Pow2(Scale(m)))
  {
    hide IsDouble, Even, Scale, Pow2, Nearest;
    var lo, r, even := NearestSplits(m);
    NothingBetween(m, d);
    PicksNearer(lo, Pow2(Scale(m)), r, even, d);
  }

  lemma Negated(i: int)
    ensures IsDouble(i) ==> IsDouble(-i)
  {
    if IsDouble(i) {
      var m, e: nat :| Spells(i, m, e);
      assert Spells(-i, -m, e);
    }
  }

  lemma NearestIsDouble(m: nat)
    ensures IsDouble(Nearest(m))
  {
    var u := Pow2(Scale(m));
    var q := m / u;
    NeighbourIsDouble(m, q);
    NeighbourIsDouble(m, q + 1);
  }

  lemma NegatedEven(i: int, u: int)
    ensures Even(i, u) ==> Even(-i, u)
  {
    if Even(i, u) {
      var h: int :| Twice(i, u, h);
      assert Twice(-i, u, -h);
    }
  }

  /** The cast gives the nearest float there is, and of two equally near ones the even one. */
  lemma CastRoundsToNearest(i: int, d: int)
    requires IsDouble(d)
    ensures IsDouble(Double(i)) && Distance(Double(i), i) <= Distance(d, i)
    ensures d != Double(i) && Distance(Double(i), i) == Distance(d, i) ==>
      Even(Double(i), Pow2(Scale(Distance(i, 0))))
  {
    hide IsDouble, Even, Nearest, Scale, Pow2;
    if i >= 0 {
      NearestIsDouble(i);
      NearestIsNearest(i, d);
    } else {
      Negated(d);
      NearestIsDouble(-i);
      Negated(Nearest(-i));
      NearestIsNearest(-i, -d);
      NegatedEven(Nearest(-i), Pow2(Scale(-i)));
    }
  }

  /** The cast keeps the number exactly when the number is 53 bits and a power of two. */
  lemma ExactIffDouble(i: int)
    ensures Double(i) == i <==> IsDouble(i)
  {
    if IsDouble(i) {
      CastRoundsToNearest(i, i);
    } else {
      assert IsDouble(0) by { assert Spells(0, 0, 0); }
      CastRoundsToNearest(i, 0);
    }
  }

  /** 53 bits are always enough, and the next integer is the first that is lost. */
  lemma SmallIsDouble(i: int)
    requires -LIMIT <= i <= LIMIT
    ensures IsDouble(i)
  {
    if i == LIMIT {
      assert Pow2(1) == 2 && Spells(i, LIMIT / 2, 1);
    } else if i == -LIMIT {
      assert Pow2(1) == 2 && Spells(i, -(LIMIT / 2), 1);
    } else {
      assert Pow2(0) == 1 && Spells(i, i, 0);
    }
  }

  lemma FirstLostInteger()
    ensures Double(LIMIT + 1) == LIMIT && !IsDouble(LIMIT + 1)
  {
    assert (LIMIT + 1) / 2 == LIMIT / 2 && Scale(LIMIT / 2) == 0;
    assert Scale(LIMIT + 1) == 1 && Pow2(1) == 2;
    ExactIffDouble(LIMIT + 1);
  }
}
