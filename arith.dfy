/** Integer arithmetic as C# performs it on `int` (without the 32-bit wrap-around). */
module Arith {

  /** C#'s `a / d` for a positive divisor: the quotient is truncated toward zero. */
  function TruncDiv(a: int, d: int): (q: int)
    requires d > 0
    ensures a >= 0 ==> 0 <= q && q * d <= a < q * d + d
    ensures a < 0 ==> q <= 0 && q * d - d < a <= q * d
  {
    var b := if a >= 0 then a else -a;
    assert b == d * (b / d) + b % d && 0 <= b % d < d;
    if a >= 0 then b / d else -(b / d)
  }

  /** Scaling by a non-negative factor keeps order. */
  lemma MulMonotone(k: int, a: int, b: int)
    requires k >= 0 && a <= b
    ensures k * a <= k * b
  {
    assert k * b - k * a == k * (b - a);
  }

  /** A multiple of a positive number below that number has a non-positive factor. */
  lemma FactorBelowOne(d: int, k: int)
    requires d > 0 && d * k < d
    ensures k <= 0
  {
  }

  /** Euclidean division by a positive divisor is monotone in the dividend. */
  lemma DivMonotone(a: int, b: int, d: int)
    requires d > 0 && a <= b
    ensures a / d <= b / d
  {
    var qa, qb := a / d, b / d;
    var ra, rb := a % d, b % d;
    assert a == d * qa + ra && 0 <= ra < d;
    assert b == d * qb + rb && 0 <= rb < d;
    assert d * (qa - qb) == (a - ra) - (b - rb);
    FactorBelowOne(d, qa - qb);
  }

  /** Truncating division is monotone in the dividend too. */
  lemma TruncDivMonotone(a: int, b: int, d: int)
    requires d > 0 && a <= b
    ensures TruncDiv(a, d) <= TruncDiv(b, d)
  {
    if a >= 0 {
      DivMonotone(a, b, d);
    } else if b < 0 {
      DivMonotone(-b, -a, d);
    }
  }
}
