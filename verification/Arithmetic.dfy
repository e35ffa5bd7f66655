/** Facts about multiplication and division that the solver needs spelled out. */
module Arithmetic {

  lemma ProductAtLeast(k: int, n: nat)
    requires k >= 1
    ensures k * n >= n
  {
  }

  /** Quotient and remainder are determined by the division equation. */
  lemma DivisionIsUnique(x: int, q: int, r: int, n: nat)
    requires n > 0 && x == q * n + r && 0 <= r < n
    ensures x / n == q && x % n == r
  {
    var d, m := x / n, x % n;
    assert x == d * n + m;
    assert (q - d) * n == m - r;
    assert (d - q) * n == r - m;
    if q > d { ProductAtLeast(q - d, n); }
    if d > q { ProductAtLeast(d - q, n); }
  }

  /** Reducing a summand first does not change a sum modulo `m`. */
  lemma ModOfSum(a: int, b: int, m: nat)
    requires m > 0
    ensures (a + b % m) % m == (a + b) % m
    ensures (a - b % m) % m == (a - b) % m
  {
    var q := b / m;
    assert b == q * m + b % m;
    var x, y := a + b % m, a - b % m;
    assert x == x / m * m + x % m;
    assert y == y / m * m + y % m;
    assert a + b == (x / m + q) * m + x % m;
    assert a - b == (y / m - q) * m + y % m;
    DivisionIsUnique(a + b, x / m + q, x % m, m);
    DivisionIsUnique(a - b, y / m - q, y % m, m);
  }

  lemma ModOfDifference(a: int, b: int, m: nat)
    requires m > 0
    ensures (a % m - b % m) % m == (a - b) % m
  {
    ModOfSum(a % m, b, m);
    ModOfSum(-b, a, m);
  }
}
