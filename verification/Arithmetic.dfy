/** Facts about products and quotients of variables, one at a time. */
module Arithmetic {
  lemma MulNonNegative(a: int, b: int)
    requires 0 <= a && 0 <= b
    ensures 0 <= a * b
  {
  }

  lemma MulDistributes(a: int, b: int, c: int)
    ensures (a + b) * c == a * c + b * c
  {
  }

  lemma MulMonotone(a: int, b: int, c: int, d: int)
    requires 0 <= a <= b && 0 <= c <= d
    ensures a * c <= b * d
  {
    assert b * d - a * c == (b - a) * c + b * (d - c);
    MulNonNegative(b - a, c);
    MulNonNegative(b, d - c);
  }

  lemma MulAwayFromZero(k: int, d: int)
    requires 0 < d
    ensures k >= 1 ==> k * d >= d
    ensures k <= -1 ==> k * d <= -d
  {
  }

  lemma QuotientUnique(a: int, d: int, q: int, r: int)
    requires 0 < d && 0 <= r < d && a == q * d + r
    ensures a / d == q && a % d == r
  {
    MulDistributes(a / d, -q, d);
    MulAwayFromZero(a / d - q, d);
  }

  lemma DivShift(a: int, d: int)
    requires 0 < d <= a
    ensures a / d == (a - d) / d + 1
  {
    MulDistributes((a - d) / d, 1, d);
    QuotientUnique(a, d, (a - d) / d + 1, (a - d) % d);
  }

  lemma DivMonotone(a: int, b: int, d: int)
    requires 0 < d && a <= b
    ensures a / d <= b / d
  {
    MulDistributes(a / d, -(b / d), d);
    MulAwayFromZero(a / d - b / d, d);
  }

  /** The first multiple of d beyond a. */
  lemma NextMultiple(a: int, d: int)
    requires 0 < d
    ensures a < (a / d + 1) * d <= a + d
  {
    MulDistributes(a / d, 1, d);
  }

  /** A product stays within a bound exactly while one factor stays within the quotient. */
  lemma ProductWithin(a: nat, d: nat, bound: nat)
    requires d > 0
    ensures a * d <= bound <==> a <= bound / d
  {
    var q := bound / d;
    if a <= q {
      MulMonotone(a, q, d, d);
    } else {
      MulMonotone(q + 1, a, d, d);
      MulDistributes(q, 1, d);
    }
  }
}
