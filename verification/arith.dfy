/** Facts about Euclidean division with a positive divisor, which agrees
    with Python's `//` and `%` there. */
module Arith {
  lemma ModMultiple(k: int, d: int)
    requires d > 0
    ensures (k * d) % d == 0
  {
    DivModUnique(k * d, d, k, 0);
  }

  /** Euclidean division has one quotient and remainder. */
  lemma DivModUnique(x: int, d: int, q: int, r: int)
    requires d > 0 && 0 <= r < d && x == q * d + r
    ensures x / d == q && x % d == r
  {
    var q0, r0 := x / d, x % d;
    assert x == q0 * d + r0;
    assert (q - q0) * d == r0 - r;
    if q > q0 {
      MulAtLeast(q - q0, d);
    } else if q < q0 {
      MulAtLeast(q0 - q, d);
    }
  }

  lemma MulAtLeast(m: int, d: int)
    requires m >= 1 && d > 0
    ensures m * d >= d
  {
    assert m * d == (m - 1) * d + d;
  }

  lemma MulDivCancel(a: int, n: int)
    requires n > 0
    ensures a * n / n == a
  {
    DivModUnique(a * n, n, a, 0);
  }

  /** A floor average of values in [0, 255] is in [0, 255]. */
  lemma FloorAverageBelow(sum: int, n: int)
    requires n > 0 && 0 <= sum <= 255 * n
    ensures 0 <= sum / n <= 255
  {
    var q := sum / n;
    assert sum == q * n + sum % n;
    assert (q - 255) * n <= 0;
  }

  /** One more copy of `a`. */
  lemma MulSucc(a: int, n: int)
    ensures a * (n + 1) == a * n + a
  {
  }
}
