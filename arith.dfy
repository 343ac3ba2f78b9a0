/**
 * Facts about Dafny's Euclidean division that the solver does not find on
 * its own once a divisor is a variable.
 */
module Arith {

  lemma MulAtLeast(d: int, k: int)
    requires d > 0 && k >= 1
    ensures d * k >= d
  {
  }

  /** Quotient and remainder are the only pair with `y == d * q + r` and `0 <= r < d`. */
  lemma DivModUnique(d: int, y: int, q: int, r: int)
    requires d > 0 && 0 <= r < d && y == d * q + r
    ensures y / d == q && y % d == r
  {
    var q', r' := y / d, y % d;
    assert y == d * q' + r';
    assert d * (q - q') == r' - r by { assert d * q - d * q' == d * (q - q'); }
    if q - q' >= 1 {
      MulAtLeast(d, q - q');
    } else if q' - q >= 1 {
      MulAtLeast(d, q' - q);
    }
  }

  /** Adding a multiple of `d` does not change the remainder. */
  lemma ModShift(x: int, d: int, k: int)
    requires d > 0
    ensures (x + d * k) % d == x % d
  {
    assert x == d * (x / d) + x % d;
    assert x + d * k == d * (x / d + k) + x % d;
    DivModUnique(d, x + d * k, x / d + k, x % d);
  }
}
