/** The ceiling of a real number, as math.ceil computes it. */
module Rounding {
  function Ceil(x: real): (n: int)
    ensures n as real - 1.0 < x <= n as real
  {
    -(-x).Floor
  }

  lemma CeilIs(x: real, n: int)
    requires n as real - 1.0 < x <= n as real
    ensures Ceil(x) == n
  {
  }

  lemma CeilMonotone(x: real, y: real)
    requires x <= y
    ensures Ceil(x) <= Ceil(y)
  {
  }

  /** An integer is below a real number exactly when it is below its ceiling. */
  lemma BelowCeil(n: int, x: real)
    ensures n as real < x <==> n < Ceil(x)
  {
  }

  lemma MulMonotone(a: real, x: real, y: real)
    requires a >= 0.0 && x <= y
    ensures a * x <= a * y
  {
  }

  lemma MulStrict(a: real, x: real, y: real)
    requires a > 0.0
    ensures x < y <==> a * x < a * y
  {
  }

  lemma DivLess(a: real, r: real, d: real)
    requires r > 0.0
    ensures a / r < d <==> a < r * d
  {
    var q := a / r;
    assert q * r == a;
    if q < d {
      assert q * r < d * r;
    } else {
      MulMonotone(r, d, q);
    }
  }
}
