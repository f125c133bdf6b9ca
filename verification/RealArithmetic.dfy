/** Mixing two values, and small facts about products and quotients of reals. */
module RealArithmetic {

  /** From a towards b by the fraction f. */
  function Mix(a: real, b: real, f: real): real {
    a + f * (b - a)
  }

  lemma ProductNonNegative(a: real, b: real)
    requires a >= 0.0 && b >= 0.0
    ensures a * b >= 0.0
  {
  }

  /** A share of a non-negative amount lies between nothing and all of it. */
  lemma ShareBounds(t: real, h: real)
    requires 0.0 <= t <= 1.0 && h >= 0.0
    ensures 0.0 <= t * h <= h
  {
    ProductNonNegative(t, h);
    ProductNonNegative(1.0 - t, h);
    assert (1.0 - t) * h == h - t * h;
  }

  lemma ProductMonotone(a: real, b: real, c: real)
    requires a <= b && c >= 0.0
    ensures a * c <= b * c
  {
    ProductNonNegative(b - a, c);
    assert (b - a) * c == b * c - a * c;
  }

  lemma ProductStrictlyMonotone(a: real, b: real, c: real)
    requires a < b && c > 0.0
    ensures a * c < b * c
  {
    assert (b - a) * c > 0.0;
    assert (b - a) * c == b * c - a * c;
  }

  /** Comparing a quotient is comparing the numerator with the product. */
  lemma QuotientCompare(a: real, b: real, c: real)
    requires b > 0.0
    ensures a / b <= c <==> a <= c * b
    ensures a / b < c <==> a < c * b
    ensures a / b == c <==> a == c * b
  {
    var q := a / b;
    assert q * b == a;
    if q < c {
      ProductStrictlyMonotone(q, c, b);
    } else if c < q {
      ProductStrictlyMonotone(c, q, b);
    }
  }

  lemma QuotientDifference(a: real, b: real, d: real)
    requires d > 0.0
    ensures a / d - b / d == (a - b) / d
  {
  }

  lemma QuotientInUnit(a: real, b: real)
    requires 0.0 <= a <= b && b > 0.0
    ensures 0.0 <= a / b <= 1.0
  {
    QuotientCompare(a, b, 1.0);
    QuotientCompare(a, b, 0.0);
  }

  lemma {:induction false} RealOfProduct(a: nat, b: nat)
    ensures (a * b) as real == a as real * b as real
  {
    if a > 0 {
      RealOfProduct(a - 1, b);
      assert a * b == (a - 1) * b + b;
      assert a as real * b as real == (a - 1) as real * b as real + b as real;
    }
  }

  lemma NatProductLeq(a: nat, b: nat, c: nat)
    requires a <= b
    ensures a * c <= b * c
  {
    assert (b - a) * c >= 0;
  }
}
