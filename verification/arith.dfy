/** Integer arithmetic with C++ semantics. */
module Arith {

  /** C++ `/` on `int`: the quotient is truncated toward zero, unlike Dafny's
      Euclidean division, which floors for a positive divisor. */
  function TruncDiv(a: int, d: int): (q: int)
    requires d > 0
    ensures a >= 0 ==> 0 <= q && q * d <= a < (q + 1) * d
    ensures a < 0 ==> q <= 0 && -q * d <= -a < (-q + 1) * d
  {
    if a >= 0 then DivBounds(a, d); a / d
    else DivBounds(-a, d); -((-a) / d)
  }

  /** The quotient and remainder of Euclidean division of a natural by a
      positive divisor bracket the dividend. */
  lemma DivBounds(n: int, d: int)
    requires n >= 0 && d > 0
    ensures 0 <= n / d && (n / d) * d <= n < (n / d + 1) * d
  {
    assert n == d * (n / d) + n % d;
    assert (n / d + 1) * d == (n / d) * d + d;
  }

  /** Truncation is symmetric about zero. */
  lemma TruncDivNegate(a: int, d: int)
    requires d > 0
    ensures TruncDiv(-a, d) == -TruncDiv(a, d)
  {
  }

  /** Truncating division by a positive divisor is monotone. */
  lemma TruncDivMonotone(a: int, b: int, d: int)
    requires d > 0
    requires a <= b
    ensures TruncDiv(a, d) <= TruncDiv(b, d)
  {
    if 0 <= a {
      DivMonotone(a, b, d);
    } else if b < 0 {
      DivMonotone(-b, -a, d);
    }
  }

  /** Euclidean division of naturals by a positive divisor is monotone. */
  lemma DivMonotone(x: int, y: int, d: int)
    requires 0 <= x <= y && d > 0
    ensures x / d <= y / d
  {
    var qx, qy := x / d, y / d;
    if qx > qy {
      MulMonotone(qy + 1, qx, d);
      assert false;
    }
  }

  lemma MulMonotone(m: int, n: int, d: int)
    requires m <= n && d > 0
    ensures d * m <= d * n
  {
    assert d * n - d * m == d * (n - m);
  }

}
