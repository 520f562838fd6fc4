/** The few functions on reals that every part uses, and facts about division and products,
    each small enough for the solver. */
module RealFacts {
  function Abs(x: real): real { if x < 0.0 then -x else x }
  function Max(x: real, y: real): real { if x < y then y else x }
  function Min(x: real, y: real): real { if x < y then x else y }

  function Sum(xs: seq<real>): real { if xs == [] then 0.0 else Sum(xs[..|xs| - 1]) + xs[|xs| - 1] }

  lemma QuotientSign(x: real, y: real)
    requires x >= 0.0 && y > 0.0
    ensures x / y >= 0.0
  {
  }

  lemma ProductSign(x: real, y: real)
    requires x >= 0.0 && y >= 0.0
    ensures x * y >= 0.0
  {
  }

  lemma ProductNonZero(x: real, y: real)
    requires x != 0.0 && y != 0.0
    ensures x * y != 0.0
  {
  }

  /** A quotient is the number that multiplies back. */
  lemma QuotientIs(x: real, y: real, q: real)
    requires y != 0.0 && q * y == x
    ensures x / y == q
  {
    assert x / y * y == x;
    assert (x / y - q) * y == 0.0;
  }

  lemma QuotientIff(x: real, y: real, q: real)
    requires y != 0.0
    ensures q == x / y <==> q * y == x
  {
    if q * y == x {
      QuotientIs(x, y, q);
    }
  }

  lemma SmallerDivisor(x: real, y: real, z: real)
    requires x > 0.0 && 0.0 < y < z
    ensures x / z < x / y
  {
    var small, large := x / z, x / y;
    assert small * z == x && large * y == x;
    assert (large - small) * y == small * (z - y);
  }

  lemma RatioOfQuotients(x: real, y: real, z: real)
    requires x > 0.0 && y > 0.0 && z > 0.0
    ensures x / y > 0.0
    ensures (x / z) / (x / y) == y / z
  {
    var a, b, r := x / y, x / z, y / z;
    assert a * y == x && b * z == x && r * z == y;
    assert a * r * z == b * z by { assert a * r * z == a * (r * z); }
    assert (a * r - b) * z == 0.0;
    QuotientIs(b, a, r);
  }

  lemma Complement(x: real, y: real, z: real)
    requires z != 0.0 && x + y == z
    ensures x / z == 1.0 - y / z
  {
    var q := y / z;
    assert q * z == y;
    assert (1.0 - q) * z == z - q * z;
    QuotientIs(x, z, 1.0 - q);
  }

  lemma QuotientAbove(x: real, y: real, t: real)
    requires y > 0.0
    ensures x / y > t <==> x > t * y
  {
    var q := x / y;
    assert q * y == x;
    assert (q - t) * y == x - t * y;
  }

  lemma QuotientBound(x: real, c: real, t: real)
    requires c > 0.0
    ensures x / c <= t <==> x <= t * c
  {
    var q := x / c;
    assert q * c == x;
    assert (t - q) * c == t * c - x;
  }
}
