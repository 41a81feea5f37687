/** Remainders by a positive number: just what ring indices and windows need.
 */
module Modular {
  lemma {:induction false} MulLower(k: int, q: int)
    requires k >= 1 && q >= 0
    ensures k * q >= q
    decreases k
  {
    if k > 1 {
      MulLower(k - 1, q);
      assert k * q == (k - 1) * q + q;
    }
  }

  lemma ZeroMul(k: int, q: int, r: int)
    requires q > 0 && k * q == r && -q < r < q
    ensures k == 0
  {
    if k >= 1 {
      MulLower(k, q);
    } else if k <= -1 {
      assert (-k) * q == -(k * q);
      MulLower(-k, q);
    }
  }

  /** Quotient and remainder are the only such pair. */
  lemma DivModUnique(n: int, q: int, a: int, b: int)
    requires q > 0 && n == a * q + b && 0 <= b < q
    ensures n / q == a && n % q == b
  {
    var x, y := n / q, n % q;
    assert n == x * q + y;
    assert (x - a) * q == x * q - a * q;
    ZeroMul(x - a, q, b - y);
  }

  lemma SmallMod(n: int, q: int)
    requires 0 <= n < q
    ensures n % q == n && n / q == 0
  {
    DivModUnique(n, q, 0, n);
  }

  lemma ModStep(n: int, q: int)
    requires q > 0
    ensures (n + q) % q == n % q && (n + q) / q == n / q + 1
  {
    var a, b := n / q, n % q;
    assert n == a * q + b;
    assert (a + 1) * q == a * q + q;
    DivModUnique(n + q, q, a + 1, b);
  }

  /** Adding a multiple changes no remainder. */
  lemma ModMultiple(n: int, k: int, q: int)
    requires q > 0
    ensures (n + k * q) % q == n % q && (n + k * q) / q == n / q + k
  {
    var a, b := n / q, n % q;
    assert n == a * q + b;
    assert (a + k) * q == a * q + k * q;
    DivModUnique(n + k * q, q, a + k, b);
  }

  /** A remainder by a multiple of `q` keeps the remainder by `q`. */
  lemma ModMod(n: int, m: int, q: int)
    requires q > 0 && m > 0 && m % q == 0
    ensures n % m % q == n % q
  {
    var k, j := n / m, m / q;
    assert m == j * q;
    assert n % m == n - k * m;
    assert k * m == k * (j * q) == (k * j) * q;
    ModMultiple(n % m, k * j, q);
  }

  /** Two numbers less than `q` apart leave different remainders. */
  lemma NearDiffer(a: int, b: int, q: int)
    requires q > 0 && a < b < a + q
    ensures a % q != b % q
  {
    if a % q == b % q {
      var x, y := a / q, b / q;
      assert a == x * q + a % q && b == y * q + b % q;
      assert (y - x) * q == y * q - x * q;
      ZeroMul(y - x, q, b - a);
    }
  }
}
