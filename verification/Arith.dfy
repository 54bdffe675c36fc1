/** Facts about multiplication and remainders that the solver needs spelled out. */
module Arith {

  lemma MulMonotone(a: nat, b: int, c: int)
    requires b <= c
    ensures a * b <= a * c
  {
    assert a * (c - b) >= 0;
    assert a * c == a * b + a * (c - b);
  }

  // Quotient and remainder are determined by x == d * q + r.
  lemma DivModUnique(x: int, d: int, q: int, r: int)
    requires d > 0 && x == d * q + r && 0 <= r < d
    ensures x / d == q && x % d == r
  {
    var q', r' := x / d, x % d;
    assert x == d * q' + r';
    assert d * q == d * q' + d * (q - q');
    if q' < q {
      MulMonotone(d, 1, q - q');
    } else if q < q' {
      MulMonotone(d, q - q', -1);
    }
  }

  lemma ModSmall(x: int, d: int)
    requires 0 <= x < d
    ensures x % d == x && x / d == 0
  {
    DivModUnique(x, d, 0, x);
  }

  lemma ModOnce(x: int, d: int)
    requires 0 < d <= x < 2 * d
    ensures x % d == x - d
  {
    DivModUnique(x, d, 1, x - d);
  }

  // Adding a multiple of the divisor keeps the remainder.
  lemma ModShift(x: int, d: int, k: int)
    requires d > 0
    ensures (x + d * k) % d == x % d
    ensures (x + d * k) / d == x / d + k
  {
    assert x == d * (x / d) + x % d;
    assert d * (x / d + k) == d * (x / d) + d * k;
    DivModUnique(x + d * k, d, x / d + k, x % d);
  }
}
