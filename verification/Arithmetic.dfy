/** Facts about products, quotients and remainders. */
module Arithmetic {

  lemma MultipleOfN(n: int, d: int)
    requires n >= 0
    ensures d >= 1 ==> n * d >= n
    ensures d <= -1 ==> n * d <= -n
  {
  }

  lemma DivModUnique(x: nat, n: nat, q: nat, r: nat)
    requires r < n && x == n * q + r
    ensures x / n == q && x % n == r
  {
    var q', r' := x / n, x % n;
    assert n * (q' - q) == n * q' - n * q == r - r';
    MultipleOfN(n, q' - q);
  }

  lemma Distributes(a: int, b: int, c: int)
    ensures a * (b + c) == a * b + a * c
  {
  }

  lemma ProductsAscend(n: nat, a: int, b: int)
    ensures a <= b ==> n * a <= n * b
    ensures a < b ==> n * a + n <= n * b
  {
    Distributes(n, a, b - a);
    if a < b {
      MultipleOfN(n, b - a);
    }
  }

  lemma SmallQuotient(x: nat, n: nat, m: nat)
    requires x < n * m
    ensures n > 0 && x / n < m
  {
    assert n > 0;
    ProductsAscend(n, m, x / n);
    assert x == n * (x / n) + x % n;
  }

  lemma SumOfForms(n: int, p: int, q: int, r: int, s: int)
    ensures (n * p + r) + (n * q + s) == n * (p + q) + (r + s)
    ensures (n * p + r) + (n * q + s) == n * (p + q + 1) + (r + s - n)
  {
    Distributes(n, p, q);
    Distributes(n, p + q, 1);
  }

  lemma QuotientOfForms(x: nat, y: nat, n: nat, p: nat, q: nat, r: nat, s: nat)
    requires x == n * p + r && y == n * q + s && r < n && s < n
    ensures p + q <= (x + y) / n <= p + q + 1
  {
    SumOfForms(n, p, q, r, s);
    if r + s < n {
      DivModUnique(x + y, n, p + q, r + s);
    } else {
      DivModUnique(x + y, n, p + q + 1, r + s - n);
    }
  }

  lemma QuotientOfSum(x: nat, y: nat, n: nat)
    requires n > 0
    ensures x / n + y / n <= (x + y) / n <= x / n + y / n + 1
  {
    QuotientOfForms(x, y, n, x / n, y / n, x % n, y % n);
  }

  lemma SameSplit(x: int, y: int, n: int)
    requires n > 0 && x / n == y / n && x % n == y % n
    ensures x == y
  {
  }
}
