/** Facts about products and quotients, stated one at a time to keep nonlinear reasoning out of other proofs. */
module Arithmetic {
  import opened Machine


  lemma MulMonotone(x: int, y: int, d: int)
    requires x <= y && 0 <= d
    ensures x * d <= y * d
  {
    assert 0 <= (y - x) * d;
  }

  lemma CancelFactor(x: int, y: int, d: int)
    requires 0 < d && x * d < (y + 1) * d
    ensures x <= y
  {
    if x > y {
      MulMonotone(y + 1, x, d);
      assert false;
    }
  }

  lemma DivMod(a: int, d: int)
    requires 0 < d
    ensures (a / d) * d <= a < (a / d + 1) * d
  {
    assert a == d * (a / d) + a % d;
  }

  // q is the quotient of a by d when a lies in the d-wide interval starting at q * d
  lemma QuotientIs(a: int, d: int, q: int)
    requires 0 < d && q * d <= a < (q + 1) * d
    ensures a / d == q
  {
    DivMod(a, d);
    CancelFactor(a / d, q, d);
    CancelFactor(q, a / d, d);
  }

  lemma QuotientMonotone(a: int, b: int, d: int)
    requires a <= b && 0 < d
    ensures a / d <= b / d
  {
    DivMod(a, d);
    DivMod(b, d);
    CancelFactor(a / d, b / d, d);
  }

  lemma QuotientNonNegative(a: int, d: int)
    requires 0 <= a && 0 < d
    ensures 0 <= a / d <= a
  {
    DivMod(a, d);
    CancelFactor(0, a / d, d);
    MulMonotone(1, d, a / d);
  }

  lemma HalvedQuotient(m: int, d: int)
    requires 0 < d
    ensures 2 * (m / (d * 2)) <= m / d
  {
    var q := m / (d * 2);
    DivMod(m, d * 2);
    assert q * (d * 2) == (2 * q) * d;
    DivMod(m, d);
    CancelFactor(2 * q, m / d, d);
  }

  /** Truncating division gives the quotient of the magnitudes, rounded down, with the sign of the dividend. */
  lemma TruncatesTowardZero(a: int, b: int)
    requires b > 0
    ensures var q := TruncDiv(a, b);
            if a >= 0 then q >= 0 && q * b <= a < (q + 1) * b else q <= 0 && (q - 1) * b < a <= q * b
  {
    var magnitude := if a >= 0 then a else -a;
    DivMod(magnitude, b);
    QuotientNonNegative(magnitude, b);
    if a < 0 {
      Negated(magnitude / b, b);
    }
  }

  lemma Negated(q: int, b: int)
    ensures (-q) * b == -(q * b) && (-q - 1) * b == -((q + 1) * b)
  {
  }
}
