/** Small facts about division and multiplication that several models share. */
module Arith {

  lemma DivIs(n: int, k: int, a: int)
    requires k >= 1 && k * a <= n < k * a + k
    ensures n / k == a
    ensures n % k == n - k * a
  {
    var q, r := n / k, n % k;
    assert n == k * q + r;
    assert k * (a + 1) == k * a + k;
    assert k * (q + 1) == k * q + k;
    if q > a {
      MulMono(k, a + 1, q);
    } else if q < a {
      MulMono(k, q + 1, a);
    }
  }

  lemma MulMono(k: int, a: int, b: int)
    requires k >= 0 && a <= b
    ensures k * a <= k * b
  {
  }

  lemma DivMod(n: int, k: int)
    requires k >= 1
    ensures n == k * (n / k) + n % k
    ensures 0 <= n % k < k
  {
  }

  lemma Commute(a: int, b: int)
    ensures a * b == b * a
  {
  }

  lemma Distribute(a: int, b: int, c: int)
    ensures a * (b + c) == a * b + a * c
  {
  }
}
