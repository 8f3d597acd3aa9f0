/** Facts of integer and real arithmetic that the solver does not find on its own:
    products with a symbolic factor keep an order, and Euclidean remainders are
    unique. */
module Arith {

  lemma MulAtLeast(d: int, u: int)
    requires d >= 1 && u > 0
    ensures d * u >= u
  {
    var k := d - 1;
    assert d * u == k * u + u;
    assert k * u >= 0;
  }

  /** `a == q * u + r` with `0 <= r < |u|` fixes Dafny's (Euclidean) `a % u`. */
  lemma ModUnique(a: int, u: int, q: int, r: int)
    requires u != 0 && 0 <= r < (if u > 0 then u else -u) && a == q * u + r
    ensures a % u == r
  {
    var q2 := a / u;
    var r2 := a % u;
    var m := if u > 0 then u else -u;
    var p := if u > 0 then q else -q;
    var p2 := if u > 0 then q2 else -q2;
    assert a == p * m + r;
    assert a == p2 * m + r2;
    assert (p - p2) * m == r2 - r;
    if p > p2 {
      MulAtLeast(p - p2, m);
    } else if p < p2 {
      assert (p2 - p) * m == r - r2;
      MulAtLeast(p2 - p, m);
    }
  }

  lemma MultipleOfUnit(c: int, unit: int)
    requires unit != 0
    ensures (unit * c) % unit == 0
  {
    ModUnique(unit * c, unit, c, 0);
  }

  lemma MulMonotone(a: int, b: int, u: int)
    requires u > 0 && a <= b
    ensures u * a <= u * b
  {
    assert u * b - u * a == u * (b - a);
  }

  lemma RealProductNonNegative(a: real, b: real)
    requires a >= 0.0 && b >= 0.0
    ensures a * b >= 0.0
  {
  }

  /** The amount of money that `count` funds of `unit` each represent. */
  function Amount(count: real, unit: int): real
  {
    count * unit as real
  }

  lemma AmountOfCount(c: int, u: int)
    ensures Amount(c as real, u) == (u * c) as real
  {
  }

  lemma AmountStrict(a: real, b: real, u: int)
    requires a < b && u > 0
    ensures Amount(a, u) < Amount(b, u)
  {
  }

  lemma AmountShift(x: real, u: int)
    ensures Amount(x - 1.0, u) == Amount(x, u) - u as real
    ensures Amount(x + 1.0, u) == Amount(x, u) + u as real
  {
  }

  /** A count within one of `x`, times a positive unit, lies within one unit of `x`
      units. */
  lemma ScaledWithinOne(x: real, c: int, u: int, b: int)
    requires x - 1.0 < c as real < x + 1.0 && u > 0 && b == u * c
    ensures Amount(x, u) - u as real < b as real
    ensures b as real < Amount(x, u) + u as real
  {
    AmountOfCount(c, u);
    AmountStrict(x - 1.0, c as real, u);
    AmountStrict(c as real, x + 1.0, u);
    AmountShift(x, u);
  }
}
