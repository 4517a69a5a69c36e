/**
 * Facts about real multiplication and division that the score proofs
 * use. The solver needs them spelled out because they are non-linear.
 */
module Arith {

  lemma MulLess(a: real, b: real, m: real)
    requires a < b && m > 0.0
    ensures m * a < m * b
  {
  }

  lemma MulDiv(a: real, m: real, d: real)
    requires d != 0.0
    ensures (a * m) / d == m * (a / d)
  {
  }

  lemma DivDecreasing(c: real, x: real, y: real)
    requires c > 0.0 && 0.0 < x < y
    ensures c / y < c / x
  {
  }

  lemma DivSum(a: real, b: real, d: real)
    requires d != 0.0
    ensures a / d + b / d == (a + b) / d
  {
  }

  lemma DivLessOne(num: real, den: real)
    requires num > 0.0 && den > 0.0
    ensures num / den > 0.0
    ensures num / den < 1.0 <==> num < den
  {
    var q := num / den;
    assert q * den == num;
    if q < 1.0 {
      MulLess(q, 1.0, den);
    } else if num < den {
      if q > 1.0 { MulLess(1.0, q, den); }
    }
  }

  lemma DivBounds(a: real, d: real)
    requires d > 0.0 && 0.0 <= a <= d
    ensures 0.0 <= a / d <= 1.0
    ensures a / d == 0.0 <==> a == 0.0
    ensures a / d == 1.0 <==> a == d
  {
  }

  lemma DivMonotone(a: real, b: real, d: real)
    requires d > 0.0
    ensures a < b <==> a / d < b / d
  {
  }
}
