/** The counters that give each packet its addresses and ports: from the minimum to the maximum
    of a range, and round again. */
module AddressRange {
  import opened Common
  import Arith

  /** ++ on 32 bits. */
  function Increment(x: Word32): Word32 {
    if x + 1 == U32 then 0 else x + 1
  }

  /** GET_NEXT: back to the minimum after the maximum. */
  function Next(cur: Word32, min: Word32, max: Word32): Word32 {
    if cur == max then min else Increment(cur)
  }

  /** The counter after n packets. */
  ghost function Times(cur: Word32, min: Word32, max: Word32, n: nat): Word32 {
    if n == 0 then cur else Next(Times(cur, min, max, n - 1), min, max)
  }

  /** The value n above x, on 32 bits. */
  function Above(x: Word32, n: nat): Word32 {
    Unsigned32(x + n)
  }

  /** How many increments lead from x to y, on 32 bits. */
  function Distance(x: Word32, y: Word32): (d: Word32)
    ensures Above(x, d) == y
  {
    if x <= y then y - x else y - x + U32
  }

  lemma AboveSmall(x: Word32, n: nat)
    requires x + n < U32
    ensures Above(x, n) == x + n
  {
  }

  lemma AboveNext(x: Word32, n: nat)
    ensures Increment(Above(x, n)) == Above(x, n + 1)
  {
  }

  lemma AboveApart(x: Word32, y: Word32, n: nat)
    requires n < U32 && Above(x, n) == y
    ensures n == Distance(x, y)
  {
  }

  lemma {:induction false} CountsUp(cur: Word32, min: Word32, max: Word32, n: nat)
    requires n <= Distance(cur, max)
    ensures Times(cur, min, max, n) == Above(cur, n)
  {
    if n > 0 {
      CountsUp(cur, min, max, n - 1);
      AboveNext(cur, n - 1);
      if Above(cur, n - 1) == max {
        AboveApart(cur, max, n - 1);
      }
    }
  }

  lemma NextInRange(min: Word32, max: Word32, m: nat)
    ensures var k: nat := Distance(min, max) + 1;
      Next(Above(min, m % k), min, max) == Above(min, (m + 1) % k)
  {
    var k: nat := Distance(min, max) + 1;
    Arith.NextRemainder(m, k);
    AboveNext(min, m % k);
    if Above(min, m % k) == max {
      AboveApart(min, max, m % k);
    }
  }

  /**
    * The counter in closed form, wherever it starts and whatever the range: it counts up, round
    * the 32 bits if need be, until it meets the maximum, and from then on cycles from the minimum
    * to the maximum.
    */
  lemma {:induction false} Everywhere(cur: Word32, min: Word32, max: Word32, n: nat)
    ensures n <= Distance(cur, max) ==> Times(cur, min, max, n) == Above(cur, n)
    ensures n > Distance(cur, max) ==>
      Times(cur, min, max, n) == Above(min, (n - Distance(cur, max) - 1) % (Distance(min, max) + 1))
  {
    var d: nat, k: nat := Distance(cur, max), Distance(min, max) + 1;
    if n <= d {
      CountsUp(cur, min, max, n);
    } else if n == d + 1 {
      CountsUp(cur, min, max, d);
      Arith.DivModUnique(0, k, 0, 0);
    } else {
      Everywhere(cur, min, max, n - 1);
      NextInRange(min, max, n - d - 2);
    }
  }

  /** In range, the closed form needs no case distinction, and the counter never leaves the range. */
  lemma InRange(cur: Word32, min: Word32, max: Word32, n: nat)
    requires min <= cur <= max
    ensures min <= Times(cur, min, max, n) <= max
    ensures Times(cur, min, max, n) == min + (cur - min + n) % (max - min + 1)
  {
    var d: nat, k: nat := max - cur, max - min + 1;
    Everywhere(cur, min, max, n);
    if n <= d {
      AboveSmall(cur, n);
      Arith.DivModUnique(cur - min + n, k, 0, cur - min + n);
    } else {
      var m := n - d - 1;
      Arith.AddModulus(m, k);
      assert m + k == cur - min + n;
      AboveSmall(min, m % k);
    }
  }

  lemma OneStep(cur: Word32, min: Word32, max: Word32)
    requires min <= cur <= max
    ensures Next(cur, min, max) == min + (cur - min + 1) % (max - min + 1)
  {
    InRange(cur, min, max, 1);
    assert Times(cur, min, max, 1) == Next(Times(cur, min, max, 0), min, max);
  }

  /** Every value of the range comes exactly once in every period. */
  lemma EachOnce(cur: Word32, min: Word32, max: Word32, from: nat, v: Word32) returns (n: nat)
    requires min <= cur <= max && min <= v <= max
    ensures from <= n < from + (max - min + 1) && Times(cur, min, max, n) == v
    ensures forall m :: from <= m < from + (max - min + 1) && Times(cur, min, max, m) == v ==> m == n
  {
    var k := max - min + 1;
    var c := Times(cur, min, max, from);
    InRange(cur, min, max, from);
    var e := if c <= v then v - c else v - c + k;
    n := from + e;
    forall m | from <= m < from + k ensures Times(cur, min, max, m) == v <==> m == n {
      InRange(cur, min, max, m);
      Shifted(cur - min + from, k, m - from);
    }
  }

  /** Remainders of the numbers that follow x, within one period. */
  lemma Shifted(x: nat, k: nat, e: nat)
    requires e < k
    ensures (x + e) % k == if x % k + e < k then x % k + e else x % k + e - k
  {
    var q, r := x / k, x % k;
    if r + e < k {
      Arith.DivModUnique(x + e, k, q, r + e);
    } else {
      assert (q + 1) * k == q * k + k;
      Arith.DivModUnique(x + e, k, q + 1, r + e - k);
    }
  }
}
