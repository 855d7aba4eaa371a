/** Facts about division that the solver does not find by itself. */
module Arithmetic {

  function CeilDiv(n: nat, d: nat): (q: nat)
    requires d > 0
    ensures n <= q * d < n + d
  {
    (n + d - 1) / d
  }

  lemma SmallMultiple(k: int, d: nat)
    requires k * d < d && k * d + d > 0
    ensures k == 0
  {
  }

  lemma NotPositive(k: int, d: nat)
    requires k * d < d
    ensures k <= 0
  {
  }

  lemma QuotientUnique(n: nat, d: nat, q: nat)
    requires d > 0 && q * d <= n < q * d + d
    ensures n / d == q && n % d == n - q * d
  {
    var p := n / d;
    assert p * d <= n < p * d + d;
    SmallMultiple(p - q, d);
  }

  lemma ModuloShift(n: nat, d: nat)
    requires 0 < d <= n
    ensures (n - d) % d == n % d
  {
    var q := n / d;
    QuotientUnique(n - d, d, q - 1);
  }

  lemma CeilDivStep(n: nat, d: nat)
    requires d > 0
    ensures CeilDiv(0, d) == 0 && (0 < n <= d ==> CeilDiv(n, d) == 1)
    ensures n > d ==> CeilDiv(n, d) == 1 + CeilDiv(n - d, d)
  {
    QuotientUnique(d - 1, d, 0);
    if 0 < n <= d {
      QuotientUnique(n + d - 1, d, 1);
    } else if n > d {
      var q := CeilDiv(n - d, d);
      assert (1 + q) * d == d + q * d;
      QuotientUnique(n + d - 1, d, 1 + q);
    }
  }

  lemma CeilDivSum(a: nat, b: nat, d: nat)
    requires d > 0
    ensures CeilDiv(a + b, d) <= CeilDiv(a, d) + CeilDiv(b, d)
    ensures a % d == 0 ==> CeilDiv(a + b, d) == CeilDiv(a, d) + CeilDiv(b, d)
  {
    var p, q, s := CeilDiv(a, d), CeilDiv(b, d), CeilDiv(a + b, d);
    CompareQuotients(a, b, d, p, q, s);
    if a % d == 0 {
      CompareExact(a, b, d, a / d, q, s);
      QuotientUnique(a + d - 1, d, a / d);
    }
  }

  lemma CompareQuotients(a: nat, b: nat, d: nat, p: nat, q: nat, s: nat)
    requires d > 0 && a <= p * d && b <= q * d && s * d < a + b + d
    ensures s <= p + q
  {
    assert (s - p - q) * d == s * d - p * d - q * d;
    NotPositive(s - p - q, d);
  }

  lemma CompareExact(a: nat, b: nat, d: nat, p: nat, q: nat, s: nat)
    requires d > 0 && a == p * d && q * d < b + d && a + b <= s * d
    ensures p + q <= s
  {
    assert (p + q - s) * d == p * d + q * d - s * d;
    NotPositive(p + q - s, d);
  }
}
