/** The few facts about products and quotients that the solver does not find by itself. */
module Arith {

  lemma SubMul(a: int, b: int, c: int)
    ensures a * c - b * c == (a - b) * c
  {
  }

  lemma ScaleLe(a: int, b: int, c: nat)
    requires a <= b
    ensures a * c <= b * c && c * a <= c * b
  {
    SubMul(b, a, c);
  }

  lemma ScaleLt(a: int, b: int, c: nat)
    requires a < b && c > 0
    ensures a * c < b * c
  {
    ScaleLe(a + 1, b, c);
    assert (a + 1) * c == a * c + c;
  }

  lemma MulLe(a: nat, b: nat, c: nat, d: nat)
    requires a <= b && c <= d
    ensures a * c <= b * d
  {
    ScaleLe(a, b, c);
    ScaleLe(c, d, b);
  }

  lemma CancelRight(a: int, b: int, c: nat)
    requires c > 0 && a * c <= b * c
    ensures a <= b
  {
    if a > b {
      ScaleLt(b, a, c);
    }
  }

  /** `q` is at most the quotient exactly when its multiple is at most the dividend. */
  lemma AtMostQuotient(q: int, a: int, b: nat)
    requires b > 0
    ensures q <= a / b <==> q * b <= a
  {
    assert a == a / b * b + a % b;
    if q <= a / b {
      ScaleLe(q, a / b, b);
    } else {
      ScaleLe(a / b + 1, q, b);
      assert (a / b + 1) * b == a / b * b + b;
    }
  }

  lemma FloorDivMonotone(a: int, b: nat, c: int, d: nat)
    requires b > 0 && d > 0 && a * d <= c * b
    ensures a / b <= c / d
  {
    var q := a / b;
    AtMostQuotient(q, a, b);
    ScaleLe(q * b, a, d);
    assert (q * b) * d == (q * d) * b;
    CancelRight(q * d, c, b);
    AtMostQuotient(q, c, d);
  }

  lemma DivShift(a: int, k: int, b: nat)
    requires b > 0
    ensures (a + k * b) / b == a / b + k
  {
    AtMostQuotient(a / b + k, a + k * b, b);
    AtMostQuotient(a / b, a, b);
    AtMostQuotient(a / b + 1, a, b);
    AtMostQuotient(a / b + k + 1, a + k * b, b);
    assert (a / b + k) * b == a / b * b + k * b;
    assert (a / b + k + 1) * b == (a / b + 1) * b + k * b;
  }

  lemma QuotientRange(a: nat, b: nat)
    requires b > 0
    ensures 0 <= a / b <= a
  {
    AtMostQuotient(0, a, b);
    ScaleLe(1, b, a);
    FloorDivMonotone(a, b, a, 1);
  }

  lemma QuotientsAdd(a: nat, b: nat, c: nat)
    requires c > 0
    ensures a / c + b / c <= (a + b) / c
  {
    AtMostQuotient(a / c, a, c);
    AtMostQuotient(b / c, b, c);
    assert (a / c + b / c) * c == a / c * c + b / c * c;
    AtMostQuotient(a / c + b / c, a + b, c);
  }

  lemma Distribute(a: int, b: int, c: int)
    ensures (a + b) * c == a * c + b * c && c * (a + b) == c * a + c * b
  {
  }

  lemma QuotientBounds(a: int, b: nat)
    requires b > 0
    ensures a / b * b <= a < a / b * b + b
  {
    AtMostQuotient(a / b, a, b);
    AtMostQuotient(a / b + 1, a, b);
    Distribute(a / b, 1, b);
  }
}
