/** Multiples and remainders, for the session counter and the colour quantisation. */
module Arith {

  lemma MulAtLeast(k: int, m: int)
    requires m >= 1 && k >= 1
    ensures k * m >= m
  {
    assert k * m == (k - 1) * m + m;
  }

  /** The only multiple of `m` strictly between `-m` and `m` is zero. */
  lemma SmallMultiple(k: int, m: int, x: int)
    requires m >= 1 && k * m == x && -m < x < m
    ensures k == 0
  {
    if k >= 1 {
      MulAtLeast(k, m);
    } else if k <= -1 {
      MulAtLeast(-k, m);
    }
  }

  /** `a % m == r` for any `a == q * m + r` with `0 <= r < m`. */
  lemma ModOfDecomposition(a: int, m: int, q: int, r: int)
    requires m >= 1 && 0 <= r < m && a == q * m + r
    ensures a % m == r
  {
    var q', r' := a / m, a % m;
    assert a == q' * m + r';
    assert (q - q') * m == q * m - q' * m;
    SmallMultiple(q - q', m, r' - r);
  }
}
