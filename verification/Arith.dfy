// Division facts that the solver does not find on its own.
module Arith {

  lemma MulMonotone(a: int, b: int, k: nat)
    ensures a <= b ==> a * k <= b * k
  {
  }

  /** A number written as q * d + r with 0 <= r < d has quotient q and remainder r. */
  lemma DivMod(q: int, r: nat, d: nat)
    requires r < d
    ensures (q * d + r) / d == q && (q * d + r) % d == r
  {
    var n := q * d + r;
    var q', r' := n / d, n % d;
    assert n == q' * d + r' && 0 <= r' < d;
    MulMonotone(q' + 1, q, d);
    MulMonotone(q + 1, q', d);
  }

  lemma DivDiv(n: nat, a: nat, b: nat)
    requires 0 < a && 0 < b
    ensures 0 < a * b && n / (a * b) == n / a / b
  {
    var q, r := n / a, n % a;
    var k, m := q / b, q % b;
    assert q == k * b + m && n == q * a + r;
    assert q * a == (k * b) * a + m * a;
    assert (k * b) * a == k * (a * b);
    assert n == k * (a * b) + (m * a + r);
    MulMonotone(m + 1, b, a);
    assert m * a + r < b * a;
    assert b * a == a * b;
    DivMod(k, m * a + r, a * b);
  }
}
