/** Facts about products and remainders that the other modules need. */
module Arithmetic {

  lemma {:induction false} ProductOrder(a: int, b: int, m: int)
    requires m >= 0
    ensures a <= b ==> a * m <= b * m
    ensures a < b ==> a * m + m <= b * m
    decreases m
  {
    if m > 0 {
      ProductOrder(a, b, m - 1);
      assert a * m == a * (m - 1) + a && b * m == b * (m - 1) + b;
    }
  }

  lemma ProductAssociates(a: int, b: int, c: int)
    ensures a * (b * c) == a * b * c
  {
  }

  lemma DivisionUnique(n: int, q: int, d: int, r: int)
    requires 0 <= r < d && n == q * d + r
    ensures n / d == q && n % d == r
  {
    var p := n / d;
    assert n == p * d + n % d;
    ProductOrder(p, q, d);
    ProductOrder(q, p, d);
  }
}
