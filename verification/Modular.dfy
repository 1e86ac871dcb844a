/** Division with remainder by a number that is not a constant. */
module Modular {

  lemma Multiple(d: int, n: int, e: int)
    requires d * n == e && -n < e < n
    ensures d == 0
  {
  }

  lemma QuotientIs(x: int, q: int, r: int, n: int)
    requires 0 <= r < n && x == q * n + r
    ensures x / n == q && x % n == r
  {
    var q', r' := x / n, x % n;
    assert x == n * q' + r';
    Unique(q, q', r, r', n);
  }

  lemma Unique(q: int, q': int, r: int, r': int, n: int)
    requires 0 <= r < n && 0 <= r' < n && q * n + r == n * q' + r'
    ensures q == q' && r == r'
  {
    assert (q - q') * n == q * n - q' * n;
    Multiple(q - q', n, r' - r);
  }

  /** How many times a countdown from `p` still passes a multiple of `n`, zero left out. */
  function Laps(p: nat, n: nat): nat
    requires n > 0
  {
    p / n
  }

  lemma SameLap(p: nat, n: nat)
    requires n > 0 && p % n != 0
    ensures p > 0 && Laps(p - 1, n) == Laps(p, n)
  {
    var q, r := p / n, p % n;
    assert p == n * q + r;
    QuotientIs(p - 1, q, r - 1, n);
  }

  lemma LapLength(p: nat, p': nat, n: nat)
    requires n > 0 && Laps(p, n) == Laps(p', n)
    ensures p - p' < n
  {
    assert p == n * (p / n) + p % n && p' == n * (p' / n) + p' % n;
  }
}
