/**
 * Facts about natural-number multiplication, division and remainder that the
 * offset and index computations of the samples rest on.
 */
module Arith {

  /** (b + d) * n == b * n + d * n, and d * n >= n when d >= 1. */
  lemma MulSplit(b: nat, d: nat, n: nat)
    ensures (b + d) * n == b * n + d * n
    ensures d >= 1 ==> d * n >= n
  {
  }

  /** Multiplying by the same factor keeps the order; strictly when the factor is positive. */
  lemma MulMonotone(a: nat, b: nat, c: nat)
    requires a <= b
    ensures a * c <= b * c
    ensures a < b && c > 0 ==> a * c < b * c
  {
    MulSplit(a, b - a, c);
  }

  /** Division with remainder has one answer: a == q * n + r with r < n gives a / n == q and a % n == r. */
  lemma DivModUnique(a: nat, n: nat, q: nat, r: nat)
    requires 0 < n && r < n && a == q * n + r
    ensures a / n == q && a % n == r
  {
    var q', r' := a / n, a % n;
    assert a == q' * n + r';
    if q' < q {
      MulSplit(q', q - q', n);
      assert false;
    } else if q < q' {
      MulSplit(q, q' - q, n);
      assert false;
    }
  }

  /** The remainder part alone: a == q * n + r with r < n gives a % n == r. */
  lemma ModUnique(a: nat, n: nat, q: nat, r: nat)
    requires 0 < n && r < n && a == q * n + r
    ensures a % n == r
  {
    DivModUnique(a, n, q, r);
  }
}
