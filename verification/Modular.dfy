// Remainders by a divisor that is not a constant.
module Modular {

  lemma MulAtLeast(n: int, k: int)
    requires n > 0 && k >= 1
    ensures n * k >= n
  {
  }

  /** Quotient and remainder are unique. */
  lemma {:induction false} DivModUnique(x: int, n: int, q: int, r: int)
    requires n > 0 && 0 <= r < n && x == n * q + r
    ensures x % n == r && x / n == q
  {
    var p, s := x / n, x % n;
    assert x == n * p + s;
    assert n * (p - q) == r - s;
    assert n * (q - p) == s - r;
    if p > q {
      MulAtLeast(n, p - q);
    } else if p < q {
      MulAtLeast(n, q - p);
    }
  }

  lemma ModSmall(r: nat, n: nat)
    requires r < n
    ensures r % n == r
  {
    DivModUnique(r, n, 0, r);
  }

  lemma ModWrap(r: nat, n: nat)
    requires r < n
    ensures (r + n) % n == r
  {
    DivModUnique(r + n, n, 1, r);
  }

  /** Adding multiples of the divisor changes nothing. */
  lemma {:induction false} ModShift(x: int, k: int, n: int)
    requires n > 0
    ensures (x + n * k) % n == x % n
  {
    var q, r := x / n, x % n;
    assert x + n * k == n * (q + k) + r;
    DivModUnique(x + n * k, n, q + k, r);
  }
}
