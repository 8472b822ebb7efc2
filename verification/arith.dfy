/** Division facts that the other modules share. */
module Arith {
  lemma AtLeastOnce(k: int, n: int)
    requires k >= 1 && n >= 0
    ensures k * n >= n
  {
    assert k * n == (k - 1) * n + n;
  }

  lemma Scaled(a: int, b: int, n: nat)
    requires a <= b
    ensures a * n <= b * n
  {
    assert b * n == a * n + (b - a) * n;
  }

  /** Quotient and remainder are determined by `x == q * n + r`. */
  lemma DivMod(x: int, n: int, q: int, r: int)
    requires n > 0 && x == q * n + r && 0 <= r < n
    ensures x / n == q && x % n == r
  {
    var d := x / n - q;
    assert x == x / n * n + x % n;
    assert d * n == x / n * n - q * n;
    if d >= 1 { AtLeastOnce(d, n); } else if d <= -1 { AtLeastOnce(-d, n); }
  }

  /** One past a residue. */
  lemma NextMod(a: int, n: int)
    requires n > 0
    ensures (a % n + 1) % n == (a + 1) % n
  {
    var q, r := a / n, a % n;
    assert a == q * n + r;
    if r + 1 < n {
      DivMod(a + 1, n, q, r + 1);
      DivMod(r + 1, n, 0, r + 1);
    } else {
      assert (q + 1) * n == q * n + n;
      DivMod(a + 1, n, q + 1, 0);
      DivMod(n, n, 1, 0);
    }
  }

  /** A whole turn. */
  lemma WrapMod(a: int, n: int)
    requires n > 0
    ensures (a + n) % n == a % n
  {
    var q, r := a / n, a % n;
    assert a == q * n + r;
    assert (q + 1) * n == q * n + n;
    DivMod(a + n, n, q + 1, r);
  }

  /** Two numbers less than `n` apart with the same residue are the same. */
  lemma SameMod(a: int, b: int, n: int)
    requires n > 0 && a % n == b % n && a <= b < a + n
    ensures a == b
  {
    var q, r := a / n, a % n;
    assert a == q * n + r;
    if r + (b - a) < n {
      DivMod(b, n, q, r + (b - a));
    } else {
      assert (q + 1) * n == q * n + n;
      DivMod(b, n, q + 1, r + (b - a) - n);
    }
  }
}
