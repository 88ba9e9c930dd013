/** Facts about Euclidean division that the solver does not find on its own. */
module Arith {

  lemma MulNonneg(x: int, y: int)
    requires x >= 0 && y >= 0
    ensures x * y >= 0
  {
  }

  /** A quotient and remainder that rebuild a are the ones `/` and `%` compute. */
  lemma DivModUnique(a: int, m: int, q: int, r: int)
    requires m > 0 && 0 <= r < m && a == q * m + r
    ensures a / m == q && a % m == r
  {
    var d := a / m - q;
    assert d * m == r - a % m;
    if d >= 1 {
      MulNonneg(d - 1, m);
    } else if d <= -1 {
      MulNonneg(-d - 1, m);
    }
  }

  lemma ModShift(k: nat, m: nat)
    requires m > 0
    ensures (k + m) % m == k % m
  {
    DivModUnique(k + m, m, k / m + 1, k % m);
  }

  lemma MulDivCancel(a: nat, b: nat)
    requires b > 0
    ensures a * b / b == a
  {
    DivModUnique(a * b, b, a, 0);
  }
}
