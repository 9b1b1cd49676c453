/** Rounding up to a multiple. */
module Rounding {

  lemma Distributes(m: int, p: int, q: int)
    ensures m * (p - q) == m * p - m * q
  {
  }

  lemma AtLeast(m: int, e: int)
    requires m > 0 && e >= 1
    ensures m * e >= m
  {
    assert m * e == m * (e - 1) + m;
  }

  /** Multiples of m in the order of what they are multiplied by. */
  lemma Order(m: int, p: int, q: int)
    requires m > 0 && m * p < m * q + m
    ensures p <= q
  {
    if p > q {
      Distributes(m, p, q);
      AtLeast(m, p - q);
    }
  }

  lemma ModOf(x: int, m: int, q: int, r: int)
    requires m > 0 && x == m * q + r && 0 <= r < m
    ensures x % m == r && x / m == q
  {
    var p := x / m;
    assert x == m * p + x % m;
    Order(m, p, q);
    Order(m, q, p);
  }

  function RoundUp(x: int, m: int): int
    requires m > 0
  {
    (x + m - 1) - (x + m - 1) % m
  }

  lemma DownMultiple(z: int, m: int)
    requires m > 0
    ensures z - z % m == m * (z / m) && (z - z % m) % m == 0
  {
    ModOf(m * (z / m), m, z / m, 0);
  }

  /** The least multiple of m that is not below x. */
  lemma RoundUpIs(x: int, m: int)
    requires m > 0
    ensures x <= RoundUp(x, m) < x + m && RoundUp(x, m) % m == 0
  {
    DownMultiple(x + m - 1, m);
  }

  lemma RoundDownMono(a: int, b: int, m: int)
    requires m > 0 && a <= b
    ensures a - a % m <= b - b % m
  {
    var p, q := a / m, b / m;
    DownMultiple(a, m);
    DownMultiple(b, m);
    Order(m, p, q);
    Scaled(m, p, q);
  }

  lemma Scaled(m: int, p: int, q: int)
    requires m > 0 && p <= q
    ensures m * p <= m * q
  {
    if p < q {
      Distributes(m, q, p);
      AtLeast(m, q - p);
    }
  }

  lemma RoundUpMono(x: int, y: int, m: int)
    requires m > 0 && x <= y
    ensures RoundUp(x, m) <= RoundUp(y, m)
  {
    RoundDownMono(x + m - 1, y + m - 1, m);
  }

  /** One more unit. */
  lemma RoundUpNext(x: int, m: int)
    requires m > 0
    ensures RoundUp(x + m, m) == RoundUp(x, m) + m
  {
    var z := x + m - 1;
    var q := z / m;
    assert z == m * q + z % m;
    assert m * (q + 1) == m * q + m;
    ModOf(z + m, m, q + 1, z % m);
  }
}
