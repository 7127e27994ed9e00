/** Small facts about Euclidean division by a positive divisor. */
module Arith {

  /** The quotient and remainder of a division are unique. */
  lemma DivUnique(n: int, d: int, q: int, r: int)
    requires d >= 1 && 0 <= r < d && n == q * d + r
    ensures n / d == q && n % d == r
  {
    var q', r' := n / d, n % d;
    assert n == q' * d + r';
    if q' < q {
      assert q * d - q' * d == (q - q') * d;
      MulAtLeast(q - q', d);
    } else if q' > q {
      assert q' * d - q * d == (q' - q) * d;
      MulAtLeast(q' - q, d);
    }
  }

  lemma MulAtLeast(a: int, d: int)
    requires a >= 1 && d >= 1
    ensures a * d >= d
  {
  }

  /** Taking one divisor's worth off the dividend takes one off the quotient. */
  lemma DivStep(n: int, d: int)
    requires d >= 1 && n >= d
    ensures n / d == 1 + (n - d) / d
    ensures n / d * d == d + (n - d) / d * d
  {
    var q, r := (n - d) / d, (n - d) % d;
    assert n == (q + 1) * d + r;
    DivUnique(n, d, q + 1, r);
  }

  /** A dividend below the divisor has quotient 0. */
  lemma DivSmall(n: int, d: int)
    requires d >= 1 && 0 <= n < d
    ensures n / d == 0 && n / d * d == 0
  {
    DivUnique(n, d, 0, n);
  }

  /** The part of the dividend the quotient accounts for leaves less than one divisor. */
  lemma DivRemainder(n: int, d: int)
    requires d >= 1 && n >= 0
    ensures 0 <= n - n / d * d < d
  {
  }
}
