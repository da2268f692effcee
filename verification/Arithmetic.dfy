/** Integer arithmetic that several modules share. */
module Arithmetic {

  function Min(a: int, b: int): int {
    if a <= b then a else b
  }

  function Max(a: int, b: int): int {
    if a >= b then a else b
  }

  lemma Distribute(x: int, y: int, c: int)
    ensures (x + y) * c == x * c + y * c
    ensures y >= 0 && c >= 0 ==> y * c >= 0
  {
  }

  lemma MulMono(a: int, b: int, c: int)
    requires c >= 0
    ensures a <= b ==> a * c <= b * c
    ensures a < b ==> a * c + c <= b * c
  {
    Distribute(a, b - a, c);
    if a < b { Distribute(1, b - a - 1, c); }
  }

  /** A quotient is in a range that its multiples bound. */
  lemma QuotientBetween(n: nat, c: nat, low: nat, high: nat)
    requires c > 0 && low * c <= n < (high + 1) * c
    ensures low <= n / c <= high
  {
    var q := n / c;
    assert n == q * c + n % c && n % c < c;
    assert (q + 1) * c == q * c + c;
    if q > high { MulMono(high + 1, q, c); }
    if q < low { MulMono(q + 1, low, c); }
  }

  lemma Regroup(x: int, y: int, z: int)
    ensures (x * y) * z == x * (z * y)
  {
  }

  /** Dividing twice is dividing by the product. */
  lemma DivideTwice(n: nat, a: nat, b: nat)
    requires a > 0 && b > 0
    ensures a * b > 0 && (n / a) / b == n / (a * b)
  {
    var m, q := n / a, (n / a) / b;
    Quotient(n, a);
    Quotient(m, b);
    MulMono(1, b, a);
    MulMono(q * b, m, a);
    MulMono(m + 1, (q + 1) * b, a);
    Regroup(q, b, a);
    Regroup(q + 1, b, a);
    Distribute(m, 1, a);
    QuotientBetween(n, a * b, q, q);
  }

  lemma Quotient(n: nat, c: nat)
    requires c > 0
    ensures (n / c) * c <= n < (n / c + 1) * c
  {
    assert n == (n / c) * c + n % c;
    Distribute(n / c, 1, c);
  }
}
