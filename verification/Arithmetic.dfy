/** Multiplication and division facts that address and residue arithmetic needs. */
module Arithmetic {

  lemma MulMono(a: int, b: int, n: nat)
    requires a <= b
    ensures a * n <= b * n
  {
    assert b * n - a * n == (b - a) * n;
    MulNonNegative(b - a, n);
  }

  lemma MulSucc(a: int, n: int)
    ensures (a + 1) * n == a * n + n
  {
  }

  lemma MulNonNegative(a: nat, b: nat)
    ensures a * b >= 0
  {
  }

  lemma DivMod(x: nat, n: nat)
    requires n > 0
    ensures x == (x / n) * n + x % n && 0 <= x % n < n && x / n >= 0
  {
  }

  lemma ModPlus(x: nat, n: nat)
    requires n > 0
    ensures (x + n) % n == x % n
  {
    DivMod(x, n);
    assert (x / n + 1) * n == (x / n) * n + n;
    DivUnique(x + n, n, x / n + 1, x % n);
  }

  lemma DivUnique(x: nat, n: nat, q: nat, r: nat)
    requires n > 0 && x == q * n + r && r < n
    ensures x % n == r && x / n == q
  {
    var q', r' := x / n, x % n;
    DivMod(x, n);
    MulSucc(q, n);
    MulSucc(q', n);
    if q < q' {
      MulMono(q + 1, q', n);
    } else if q' < q {
      MulMono(q' + 1, q, n);
    }
  }
}
