/** C++ integer semantics that Dafny's unbounded, Euclidean integers do not give
    for free: `/` on `int` rounds toward zero, and a conversion to an unsigned
    32-bit integer wraps modulo 2^32. */
module CInt {

  const UINT32_LIMIT: int := 0x1_0000_0000

  /** The values of C's `Uint32`. */
  type Uint32 = x: int | 0 <= x < UINT32_LIMIT

  /** C++ `a / d` on `int` for a positive divisor: the quotient rounded toward
      zero, so the remainder `a - q * d` takes the sign of the dividend. */
  function TruncDiv(a: int, d: int): (q: int)
    requires d > 0
    ensures a >= 0 ==> 0 <= a - q * d < d
    ensures a < 0 ==> -d < a - q * d <= 0
  {
    if a >= 0 then a / d else -((-a) / d)
  }

  /** Rounding toward zero is symmetric: negating the dividend negates the quotient. */
  lemma TruncDivNegate(a: int, d: int)
    requires d > 0
    ensures TruncDiv(-a, d) == -TruncDiv(a, d)
  {
  }

  /** On a non-negative dividend C++ and Dafny agree; on a negative dividend that
      the divisor does not divide, C++ rounds one step higher than Dafny's
      Euclidean `/`. */
  lemma TruncDivVersusEuclidean(a: int, d: int)
    requires d > 0
    ensures a >= 0 ==> TruncDiv(a, d) == a / d
    ensures a < 0 && a % d != 0 ==> TruncDiv(a, d) == a / d + 1
    ensures a < 0 && a % d == 0 ==> TruncDiv(a, d) == a / d
  {
    if a < 0 {
      var q, r := (-a) / d, (-a) % d;
      assert -a == q * d + r && 0 <= r < d;
      if r == 0 {
        EuclideanUnique(a, d, -q, 0);
      } else {
        EuclideanUnique(a, d, -q - 1, d - r);
      }
    }
  }

  /** Dafny's `/` and `%` are the only quotient and remainder with 0 <= r < d. */
  lemma EuclideanUnique(a: int, d: int, q: int, r: int)
    requires d > 0 && 0 <= r < d && a == q * d + r
    ensures a / d == q && a % d == r
  {
    var q', r' := a / d, a % d;
    assert a == q' * d + r' && 0 <= r' < d;
    if q > q' {
      MulMonotone(q - q', d);
    } else if q < q' {
      MulMonotone(q' - q, d);
    }
  }

  lemma MulMonotone(k: int, d: int)
    requires k >= 1 && d > 0
    ensures k * d >= d
  {
  }

  /** C's conversion of an `int` to an unsigned 32-bit integer: the value modulo
      2^32 (Dafny's `%` is never negative, which is exactly this wrap). */
  function ToUint32(i: int): (u: Uint32)
    ensures 0 <= i < UINT32_LIMIT ==> u == i
    ensures (i - u) % UINT32_LIMIT == 0
  {
    i % UINT32_LIMIT
  }
}
