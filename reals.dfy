/** Sign facts about products and quotients of reals that the solver does not find alone. */
module Reals {
  /**
   * `a * b`. Definitions that multiply two variables call this function
   * rather than use `*`, so the solver meets the product only where a proof
   * unfolds it.
   */
  function Mul(a: real, b: real): real {
    a * b
  }

  lemma MulNonneg(x: real, y: real)
    requires x >= 0.0 && y >= 0.0
    ensures x * y >= 0.0
  {
  }

  lemma MulPos(x: real, y: real)
    requires x > 0.0 && y > 0.0
    ensures x * y > 0.0
  {
  }

  lemma PosFactor(x: real, y: real)
    requires y > 0.0 && x * y > 0.0
    ensures x > 0.0
  {
    if x <= 0.0 {
      MulNonneg(-x, y);
    }
  }

  lemma DivBetween(a: real, den: real, u: real)
    requires den > 0.0 && 0.0 < a < u * den
    ensures 0.0 < a / den < u
  {
    var s := a / den;
    assert s * den == a;
    PosFactor(s, den);
    assert (u - s) * den == u * den - a;
    PosFactor(u - s, den);
  }

  lemma DivLess(a1: real, d1: real, a2: real, d2: real)
    requires d1 > 0.0 && d2 > 0.0 && a1 * d2 < a2 * d1
    ensures a1 / d1 < a2 / d2
  {
    var s1, s2 := a1 / d1, a2 / d2;
    assert s1 * d1 == a1;
    assert s2 * d2 == a2;
    MulPos(d1, d2);
    assert (s2 - s1) * (d1 * d2) == a2 * d1 - a1 * d2;
    PosFactor(s2 - s1, d1 * d2);
  }

  lemma NonnegFactor(x: real, y: real)
    requires y > 0.0 && x * y >= 0.0
    ensures x >= 0.0
  {
    if x < 0.0 {
      MulPos(-x, y);
    }
  }

  /** A quotient by a positive whole lies between the bounds its numerator is scaled between. */
  lemma QuotientBetween(num: real, s: real, lo: real, hi: real)
    requires s > 0.0 && lo * s <= num <= hi * s
    ensures lo <= num / s <= hi
  {
    var q := num / s;
    assert q * s == num;
    assert (q - lo) * s == num - lo * s;
    NonnegFactor(q - lo, s);
    assert (hi - q) * s == hi * s - num;
    NonnegFactor(hi - q, s);
  }

  /** Two quotients of the same non-negative numerator sum to zero only when it is zero. */
  lemma QuotientSumZero(h: real, a: real, b: real)
    requires h >= 0.0 && a > 0.0 && b > 0.0
    ensures h / a + h / b == 0.0 <==> h == 0.0
  {
    if h > 0.0 {
      var x, y := h / a, h / b;
      assert x * a == h;
      PosFactor(x, a);
      assert y * b == h;
      PosFactor(y, b);
    }
  }

  lemma MulLess(a: real, b: real, c: real)
    requires a < b && c > 0.0
    ensures a * c < b * c
  {
    MulPos(b - a, c);
    assert (b - a) * c == b * c - a * c;
  }

  /** Multiplying by a positive factor keeps the order of two reals. */
  lemma ScaleOrder(c: real, a: real, b: real)
    requires c > 0.0
    ensures Mul(a, c) >= Mul(b, c) <==> a >= b
  {
    if a > b {
      MulLess(b, a, c);
    } else if a < b {
      MulLess(a, b, c);
    }
  }

  /** A quotient of a part by a positive whole lies in `[0, 1]`; it is `0` or `1` only at the ends. */
  lemma FracBounds(a: real, b: real)
    requires b > 0.0 && 0.0 <= a <= b
    ensures 0.0 <= a / b <= 1.0
    ensures a / b == 1.0 <==> a == b
    ensures a / b == 0.0 <==> a == 0.0
  {
    var s := a / b;
    assert s * b == a;
    if s < 0.0 {
      MulPos(-s, b);
    }
    if s > 1.0 {
      MulPos(s - 1.0, b);
    }
    if s < 1.0 && a == b {
      MulPos(1.0 - s, b);
    }
    if s > 0.0 && a == 0.0 {
      MulPos(s, b);
    }
  }
}
