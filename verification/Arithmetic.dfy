/** Products, quotients and remainders. */
module Arithmetic {

  lemma {:induction false} MulAtLeast(d: int, m: nat)
    ensures d >= 1 ==> d * m >= m
    ensures d <= -1 ==> d * m + m <= 0
    decreases if d < 0 then -d else d
  {
  }

  lemma ModUnique(x: int, q: int, r: nat, m: nat)
    requires r < m && x == q * m + r
    ensures x % m == r
  {
    var q', r' := x / m, x % m;
    assert x == q' * m + r';
    assert (q - q') * m == r' - r;
    MulAtLeast(q - q', m);
  }

  /** The difference of two remainders, brought back into range, is the remainder of the difference. */
  lemma ModDifference(t0: nat, t1: nat, m: nat)
    requires m > 0 && t0 <= t1
    ensures var d := t1 % m - t0 % m; (if d < 0 then d + m else d) == (t1 - t0) % m
  {
    var d := t1 % m - t0 % m;
    assert t1 - t0 == (t1 / m - t0 / m) * m + d;
    if d < 0 {
      assert t1 - t0 == (t1 / m - t0 / m - 1) * m + (d + m);
      ModUnique(t1 - t0, t1 / m - t0 / m - 1, d + m, m);
    } else {
      ModUnique(t1 - t0, t1 / m - t0 / m, d, m);
    }
  }

  lemma ModSum(a: nat, b: nat, m: nat)
    requires m > 0
    ensures (a % m + b) % m == (a + b) % m
  {
    assert a + b == (a / m + (a % m + b) / m) * m + (a % m + b) % m;
    ModUnique(a + b, a / m + (a % m + b) / m, (a % m + b) % m, m);
  }

  lemma DivMonotone(a: nat, b: nat, m: nat)
    requires a <= b && m > 0
    ensures a / m <= b / m
  {
    MulAtLeast(a / m - b / m, m);
    assert (a / m - b / m) * m == a - a % m - (b - b % m);
  }

  lemma MulMonotone(a: nat, b: nat, c: nat, d: nat)
    requires a <= b && c <= d
    ensures a * c <= b * d
  {
  }

  lemma DivBounds(a: nat, m: nat)
    requires m > 0
    ensures a / m * m <= a < a / m * m + m
  {
  }
}
