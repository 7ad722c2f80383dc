/** Remainders: positions in a ring. */
module Ring {

  lemma AtLeast(x: int, n: nat)
    requires x >= 1
    ensures x * n >= n
  {
    if x > 1 {
      AtLeast(x - 1, n);
      assert x * n == (x - 1) * n + n;
    }
  }

  lemma MulDiff(p: int, q: int, n: int)
    ensures (p - q) * n == p * n - q * n && (q - p) * n == q * n - p * n
  {
  }

  /** A remainder is determined by what it multiplies back to. */
  lemma Remainder(a: int, q: int, r: nat, n: nat)
    requires r < n && a == q * n + r
    ensures a % n == r
  {
    var p := a / n;
    MulDiff(p, q, n);
    if p > q { AtLeast(p - q, n); }
    if q > p { AtLeast(q - p, n); }
  }

  lemma Wraps(a: int, n: nat)
    requires n > 0
    ensures (a + n) % n == a % n
  {
    var q := a / n;
    assert (q + 1) * n == q * n + n;
    Remainder(a + n, q + 1, a % n, n);
  }

  /** Whole turns do not matter, in either direction. */
  lemma WholeTurns(a: int, q: int, n: nat)
    requires n > 0
    ensures (a + q * n) % n == a % n
  {
    var p := a / n;
    assert (p + q) * n == p * n + q * n;
    Remainder(a + q * n, p + q, a % n, n);
  }

  lemma RoundTheRing(a: int, d: int, n: nat)
    requires n > 0
    ensures (a + d) % n == (a + d % n) % n
  {
    var q := d / n;
    assert d == q * n + d % n;
    WholeTurns(a + d % n, q, n);
  }

  lemma Small(d: nat, n: nat)
    requires d < n
    ensures d % n == d
  {
    Remainder(d, 0, d, n);
  }

  /** The remainder as C computes it: truncated towards zero, negative for a negative dividend. */
  function TruncMod(a: int, n: nat): (r: int)
    requires n > 0
    ensures 0 <= r ==> r == a % n
    ensures r < 0 <==> a < 0 && a % n != 0
  {
    if a >= 0 || a % n == 0 then a % n else a % n - n
  }
}
