/** Division with remainder by a positive number that is not a constant. */
module Arith {

  lemma MulNonNegative(a: int, b: int)
    requires a >= 0 && b >= 0
    ensures a * b >= 0
  {
  }

  lemma SmallMultiple(d: int, g: int)
    requires g > 0 && -g < d * g < g
    ensures d == 0
  {
    if d >= 1 {
      assert d * g == (d - 1) * g + g;
      MulNonNegative(d - 1, g);
    }
    if d <= -1 {
      assert d * g == -((-d - 1) * g) - g;
      MulNonNegative(-d - 1, g);
    }
  }

  lemma DivModUnique(x: int, g: int, q: int, r: int)
    requires 0 <= r < g && x == q * g + r
    ensures x / g == q && x % g == r
  {
    var q1, r1 := x / g, x % g;
    assert x == q1 * g + r1;
    assert (q1 - q) * g == q1 * g - q * g;
    SmallMultiple(q1 - q, g);
  }

  lemma AddModulus(x: int, g: int)
    requires g > 0
    ensures (x + g) % g == x % g && (x + g) / g == x / g + 1
  {
    var q, r := x / g, x % g;
    assert (q + 1) * g == q * g + g;
    DivModUnique(x + g, g, q + 1, r);
  }

  /** Counting on by one within, or round, a cycle of length `k`. */
  lemma NextRemainder(n: nat, k: nat)
    requires k > 0
    ensures n % k + 1 < k ==> (n + 1) % k == n % k + 1 && (n + 1) / k == n / k
    ensures n % k + 1 == k ==> (n + 1) % k == 0 && (n + 1) / k == n / k + 1
  {
    var q, r := n / k, n % k;
    if r + 1 < k {
      DivModUnique(n + 1, k, q, r + 1);
    } else {
      assert (q + 1) * k == q * k + k;
      DivModUnique(n + 1, k, q + 1, 0);
    }
  }

  lemma DivNonNegative(x: nat, g: nat)
    requires g > 0
    ensures x / g >= 0
  {
  }

  /** Remainders of a number and of its half. */
  lemma HalfModulus(x: nat, m: nat)
    requires m > 0
    ensures x % (2 * m) == 2 * (x / 2 % m) + x % 2
  {
    var h := x / 2;
    var q, r := h / m, h % m;
    assert h == q * m + r;
    assert q * (2 * m) == 2 * (q * m);
    DivModUnique(x, 2 * m, q, 2 * r + x % 2);
  }

  /** A remainder may be taken in two steps. */
  lemma ModOfMod(x: int, a: nat, b: nat)
    requires a > 0 && b > 0
    ensures a * b > 0 && x % (a * b) % a == x % a
  {
    MulNonNegative(a - 1, b - 1);
    assert a * b == (a - 1) * (b - 1) + a + b - 1;
    var q, r := x / (a * b), x % (a * b);
    var q1, r1 := r / a, r % a;
    assert x == q * (a * b) + r && r == q1 * a + r1;
    assert q * (a * b) == q * b * a;
    assert (q * b + q1) * a == q * b * a + q1 * a;
    DivModUnique(x, a, q * b + q1, r1);
  }

  /** Numbers less than `m` apart have different remainders. */
  lemma RemaindersApart(x: int, y: int, m: nat)
    requires x < y < x + m
    ensures x % m != y % m
  {
    if x % m == y % m {
      var d := y / m - x / m;
      assert y - x == y / m * m - x / m * m == d * m;
      SmallMultiple(d, m);
    }
  }
}
