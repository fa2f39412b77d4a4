/** Division with remainder, kept apart because products of variables are hard for the solver. */
module Arithmetic {

  lemma {:induction false} ProductGrows(a: int, b: int, n: nat)
    requires a <= b
    ensures a * n <= b * n
    decreases n
  {
    if n > 0 {
      ProductGrows(a, b, n - 1);
      assert a * n == a * (n - 1) + a && b * n == b * (n - 1) + b;
    }
  }

  /** Products by a positive number keep the order. */
  lemma ProductOrder(a: int, b: int, n: nat)
    requires n > 0
    ensures a * n < b * n <==> a < b
  {
    if a < b {
      ProductGrows(a + 1, b, n);
      assert (a + 1) * n == a * n + n;
    } else {
      ProductGrows(b, a, n);
    }
  }

  /** One row more. */
  lemma NextMultiple(a: int, n: nat)
    ensures (a + 1) * n == a * n + n
  {
  }

  lemma DivMod(x: int, n: nat)
    requires n > 0
    ensures x == (x / n) * n + x % n && 0 <= x % n < n
  {
  }

  /** The quotient and the remainder are unique. */
  lemma DivIs(x: int, n: nat, q: int, r: nat)
    requires n > 0 && r < n && x == q * n + r
    ensures x / n == q && x % n == r
  {
    var d := x / n;
    DivMod(x, n);
    ProductOrder(d, q + 1, n);
    ProductOrder(q, d + 1, n);
    assert (q + 1) * n == q * n + n && (d + 1) * n == d * n + n;
  }
}
