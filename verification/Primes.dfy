/** The bucket count of a session table: the least prime above the configured length. */
module Primes {
  import Arith

  predicate Divides(d: int, n: int)
    requires d != 0
  {
    n % d == 0
  }

  ghost predicate IsPrime(n: int) {
    n >= 2 && forall j {:trigger Divides(j, n)} :: 2 <= j < n ==> !Divides(j, n)
  }

  // ---------------------------------------------------------------- Euclid's argument

  function Factorial(n: nat): (r: nat)
    ensures r >= 1
  {
    if n == 0 then 1 else
      Arith.MulNonNegative(n - 1, Factorial(n - 1) - 1);
      assert n * Factorial(n - 1) == (n - 1) * (Factorial(n - 1) - 1) + Factorial(n - 1) + (n - 1);
      n * Factorial(n - 1)
  }

  lemma MultipleIsDivided(d: int, q: int)
    requires d > 0
    ensures Divides(d, q * d)
  {
    Arith.DivModUnique(q * d, d, q, 0);
  }

  lemma {:induction false} FactorialDivided(d: int, n: nat)
    requires 1 <= d <= n
    ensures Divides(d, Factorial(n))
  {
    if d == n {
      assert Factorial(n) == Factorial(n - 1) * d;
      MultipleIsDivided(d, Factorial(n - 1));
    } else {
      FactorialDivided(d, n - 1);
      var q := Factorial(n - 1) / d;
      assert Factorial(n - 1) == q * d;
      assert Factorial(n) == n * q * d;
      MultipleIsDivided(d, n * q);
    }
  }

  /** A number without divisors below `d` that `d` divides: `d` is prime. */
  lemma {:induction false} LeastDivisor(m: int, d: int) returns (p: int)
    requires 2 <= d <= m
    requires forall j {:trigger Divides(j, m)} :: 2 <= j < d ==> !Divides(j, m)
    ensures d <= p <= m && Divides(p, m) && IsPrime(p)
    decreases m - d
  {
    if Divides(d, m) {
      p := d;
      forall j | 2 <= j < d ensures !Divides(j, d) {
        if Divides(j, d) {
          var p, q := d / j, m / d;
          assert d == p * j && m == q * d;
          assert m == q * p * j;
          MultipleIsDivided(j, q * p);
        }
      }
    } else {
      if d == m {
        MultipleIsDivided(d, 1);
      }
      p := LeastDivisor(m, d + 1);
    }
  }

  /** There is always a larger prime. */
  lemma PrimeAbove(n: nat) returns (p: int)
    ensures p > n && IsPrime(p)
  {
    p := LeastDivisor(Factorial(n) + 1, 2);
    if p <= n {
      FactorialDivided(p, n);
      var q := Factorial(n) / p;
      assert Factorial(n) == q * p;
      Arith.DivModUnique(Factorial(n) + 1, p, q, 1);
    }
  }

  // ---------------------------------------------------------------- next_prime

  /** `next_prime`: the least prime above `x`; for a negative `x` the search stops at once. */
  method NextPrime(x: int) returns (r: int)
    ensures x >= 0 ==> x < r && IsPrime(r) && forall p :: x < p < r ==> !IsPrime(p)
    ensures x < 0 ==> r == x + 1
  {
    var i := if x == 0 then 1 else x;
    ghost var bound := 0;
    if x >= 0 { bound := PrimeAbove(i); }
    while i != 0
      invariant x < 0 ==> i == x
      invariant x >= 0 ==> x <= i < bound && 1 <= i && IsPrime(bound)
      invariant x >= 0 ==> forall p :: x < p <= i ==> !IsPrime(p)
      decreases if x >= 0 then bound - i else 0
    {
      i := i + 1;
      var f := true;
      var j := 2;
      while j < i
        invariant 2 <= j && (i >= 2 ==> j <= i)
        invariant f && forall d {:trigger Divides(d, i)} :: 2 <= d < j ==> !Divides(d, i)
      {
        if Divides(j, i) {
          f := false;
          break;
        }
        j := j + 1;
      }
      if f {
        return i;
      }
    }
    r := 0;
  }
}
