/** The round-robin rule that assigns parsers to generators. */
module Routing {
  import opened Ledger
  import opened Pipeline
  import Arith

  /** How many parsers generator `i` feeds. */
  function Fed(c: Config, i: nat): nat
    requires c.Valid() && i < c.g
  {
    (c.p - 1 - i) / c.g + 1
  }

  /** The `r`-th of them. */
  function FedParser(c: Config, i: nat, r: nat): nat { i + c.g * r }

  /** The parser that generator `i` serves on its `n`-th send. */
  function Visit(c: Config, i: nat, n: nat): nat {
    if n == 0 then i else NextParser(c, i, Visit(c, i, n - 1))
  }

  lemma FedParserInRange(c: Config, i: nat, r: nat)
    requires c.Valid() && i < c.g
    ensures FedParser(c, i, r) < c.p <==> r < Fed(c, i)
    ensures FedParser(c, i, r) % c.g == i && FedParser(c, i, r) / c.g == r
  {
    Arith.DivModUnique(FedParser(c, i, r), c.g, r, i);
    var q := (c.p - 1 - i) / c.g;
    assert c.p - 1 - i == q * c.g + (c.p - 1 - i) % c.g;
    if r <= q {
      Arith.MulNonNegative(q - r, c.g);
      assert (q - r) * c.g == q * c.g - c.g * r;
    } else {
      Arith.MulNonNegative(r - q - 1, c.g);
      assert (r - q - 1) * c.g == c.g * r - q * c.g - c.g;
    }
  }

  /** The parsers with remainder `i` are exactly those that generator `i` feeds. */
  lemma FedExactly(c: Config, i: nat, j: nat)
    requires c.Valid() && i < c.g
    ensures j < c.p && j % c.g == i <==> j / c.g < Fed(c, i) && j == FedParser(c, i, j / c.g)
  {
    assert j == j / c.g * c.g + j % c.g;
    FedParserInRange(c, i, j / c.g);
  }

  /** The rule goes round the fed parsers in order. */
  lemma {:induction false} VisitCycles(c: Config, i: nat, n: nat)
    requires c.Valid() && i < c.g
    ensures Visit(c, i, n) == FedParser(c, i, n % Fed(c, i))
  {
    var K := Fed(c, i);
    if n == 0 {
      Arith.DivModUnique(0, K, 0, 0);
    } else {
      VisitCycles(c, i, n - 1);
      NextInCycle(c, i, n - 1);
    }
  }

  lemma NextInCycle(c: Config, i: nat, n: nat)
    requires c.Valid() && i < c.g
    ensures NextParser(c, i, FedParser(c, i, n % Fed(c, i))) == FedParser(c, i, (n + 1) % Fed(c, i))
  {
    var K := Fed(c, i);
    var r := n % K;
    Arith.NextRemainder(n, K);
    FedParserInRange(c, i, r + 1);
    assert FedParser(c, i, r + 1) == FedParser(c, i, r) + c.g;
  }

  lemma VisitedIsFed(c: Config, i: nat, n: nat)
    requires c.Valid() && i < c.g
    ensures Visit(c, i, n) < c.p && Visit(c, i, n) % c.g == i
  {
    VisitCycles(c, i, n);
    FedParserInRange(c, i, n % Fed(c, i));
  }

  lemma FedIsVisited(c: Config, i: nat, j: nat) returns (n: nat)
    requires c.Valid() && i < c.g && j < c.p && j % c.g == i
    ensures Visit(c, i, n) == j
  {
    Arith.DivNonNegative(j, c.g);
    n := j / c.g;
    FedExactly(c, i, j);
    VisitCycles(c, i, n);
    Arith.DivModUnique(n, Fed(c, i), 0, n);
  }

  /** Generator `i` serves parser `j` at some time if and only if `j` is `i` modulo `g`:
      every parser is served, and always by the same generator. */
  lemma VisitedExactly(c: Config, i: nat, j: nat)
    requires c.Valid() && i < c.g
    ensures (exists n :: Visit(c, i, n) == j) <==> j < c.p && j % c.g == i
  {
    if n :| Visit(c, i, n) == j {
      VisitedIsFed(c, i, n);
    }
    if j < c.p && j % c.g == i {
      var n := FedIsVisited(c, i, j);
    }
  }
}
