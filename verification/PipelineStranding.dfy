/** A generator that feeds too many parsers: none of them ever gets a batch together.

    Packets are dealt out in turn, so the queues of the parsers fill evenly.  If they can hold
    all packets of the generator and still be short of a batch each, no parser takes anything,
    no packet comes back, and every packet that is sent stays where it was sent. */
module PipelineStranding {
  import opened Common
  import opened Ledger
  import opened Pipeline
  import opened PipelineInvariant
  import opened PipelineSafety
  import opened PipelineTheorems
  import opened PipelineProgress
  import opened Routing
  import Arith

  // ---------------------------------------------------------------- shares

  /** How many of `n` packets dealt out in turn the `r`-th of `k` parsers has got. */
  function Load(n: nat, k: nat, r: nat): nat
    requires k > 0
  {
    if r < n % k then n / k + 1 else n / k
  }

  /** Dealt out evenly, the packets leave every queue short of a batch. */
  lemma LoadShort(k: nat, r: nat, n: nat, need: nat)
    requires k > 0 && r < k && need > 0 && k * (need - 1) >= n
    ensures Load(n, k, r) < need
  {
    var q, m := n / k, n % k;
    assert n == q * k + m;
    Arith.DivNonNegative(n, k);
    assert (q - need) * k == q * k - need * k && k * (need - 1) == need * k - k;
    if q >= need {
      Arith.MulNonNegative(q - need, k);
    }
    assert q == need - 1 ==> q * k == k * (need - 1);
  }

  /** How many of its first `n` packets generator `i` sends to parser `j`. */
  function Share(c: Config, i: nat, n: nat, j: nat): nat {
    if n == 0 then 0 else Share(c, i, n - 1, j) + if Visit(c, i, n - 1) == j then 1 else 0
  }

  lemma {:induction false} ShareIsLoad(c: Config, i: nat, n: nat, r: nat)
    requires c.Valid() && i < c.g && r < Fed(c, i)
    ensures Share(c, i, n, FedParser(c, i, r)) == Load(n, Fed(c, i), r)
  {
    if n == 0 {
      Arith.DivModUnique(0, Fed(c, i), 0, 0);
    } else {
      ShareIsLoad(c, i, n - 1, r);
      Arith.NextRemainder(n - 1, Fed(c, i));
      VisitCycles(c, i, n - 1);
      FedParserInRange(c, i, r);
      FedParserInRange(c, i, (n - 1) % Fed(c, i));
    }
  }

  lemma ShareShort(c: Config, i: nat, n: nat, j: nat)
    requires c.Valid() && i < c.g && Overfed(c, i) && n <= RING_CAPACITY && j < c.p && j % c.g == i
    ensures Share(c, i, n, j) < c.need
  {
    Arith.DivNonNegative(j, c.g);
    var r: nat := j / c.g;
    FedExactly(c, i, j);
    ShareIsLoad(c, i, n, r);
    LoadShort(Fed(c, i), r, n, c.need);
  }

  // ---------------------------------------------------------------- what every step keeps

  /** Where the packets of a generator are that has never got one back from a parser. */
  predicate Near(c: Config, i: nat, p: Place)
    requires c.Valid()
  {
    p == PacketPool(i) || p == GeneratorHand(i) || (p.ParserQueue? && p.i % c.g == i)
  }

  ghost predicate AllNear(c: Config, s: State, i: nat)
    requires c.Valid()
  {
    forall p: Place, k, x: Obj {:trigger Holds(s.at, p, k, x)} ::
      Holds(s.at, p, k, x) && x.Packet? && x.home == i ==> Near(c, i, p)
  }

  /** The round-robin index of a generator that has sent `n` packets. */
  predicate Turn(c: Config, g: Generator, i: nat, n: nat) {
    if g.pc.Sending? then g.pc.parser == Visit(c, i, n) && g.next == Visit(c, i, n + 1)
    else g.next == Visit(c, i, n)
  }

  ghost predicate Shares(c: Config, s: State, i: nat, n: nat)
    requires c.Valid() && |s.pars| == c.p
  {
    forall j {:trigger ParserQueue(j)} :: 0 <= j < c.p && j % c.g == i ==>
      s.pars[j].PIdle? && |At(s.at, ParserQueue(j))| == Share(c, i, n, j)
  }

  /** Generator `i` has sent `n` packets, and all of them are still queued. */
  ghost predicate Sent(c: Config, s: State, i: nat, n: nat) {
    && c.Valid() && i < c.g && |s.gens| == c.g && |s.pars| == c.p
    && AllNear(c, s, i) && Shares(c, s, i, n) && Turn(c, s.gens[i], i, n)
    && |At(s.at, PacketPool(i))| + |At(s.at, GeneratorHand(i))| + n == RING_CAPACITY
  }

  lemma SentUntouched(c: Config, s: State, i: nat, n: nat, t: Transfer, s': State)
    requires Sent(c, s, i, n) && Available(s.at, t) && s'.at == Carry(s.at, t)
    requires t.Transfer? ==> !Near(c, i, t.from) && !Near(c, i, t.to)
    requires |s'.gens| == c.g && |s'.pars| == c.p && s'.gens[i] == s.gens[i]
    requires forall j :: 0 <= j < c.p && j % c.g == i ==> s'.pars[j] == s.pars[j]
    ensures Sent(c, s', i, n)
  {
    CarryAt(s.at, t);
    forall p: Place, k, x: Obj | Holds(s'.at, p, k, x) && x.Packet? && x.home == i ensures Near(c, i, p) {
      CarryOrigin(s.at, t, p, k, x);
    }
    forall j | 0 <= j < c.p && j % c.g == i
      ensures s'.pars[j].PIdle? && |At(s'.at, ParserQueue(j))| == Share(c, i, n, j)
    {
      assert Near(c, i, ParserQueue(j));
    }
  }

  lemma MovesFar(c: Config, s: State, i: nat, a: Action)
    requires Inv(c, s) && i < c.g && AllNear(c, s, i) && Enabled(c, s, a)
    requires !(a.ByGenerator? && a.i == i) && !(a.ByParser? && a.j % c.g == i)
    ensures var t := Moves(c, s, a); t.Transfer? ==> !Near(c, i, t.from) && !Near(c, i, t.to)
  {
    match a
    case ByGenerator(h, g) =>
      assert GeneratorShape(c, s, h);
      if s.gens[h].pc.Returning? {
        GeneratorReturnsTo(c, s, h);
      }
    case ByParser(j, p) =>
      if s.pars[j].ReturningPackets? {
        ParserReturnsTo(c, s, j);
      }
    case ByManager(k, m) => ManagerFar(c, s, i, k, m);
    case BySweeper(w) =>
  }

  lemma ManagerFar(c: Config, s: State, i: nat, k: nat, m: ManagerAct)
    requires Inv(c, s) && i < c.g && AllNear(c, s, i) && ManagerEnabled(c, s, k, m)
    ensures var t := ManagerMoves(s, k, m); t.Transfer? ==> !Near(c, i, t.from) && !Near(c, i, t.to)
  {
    if s.mans[k].ReleasingPacket? {
      ManagerReturnsTo(c, s, k);
      var f := Hand(s, ManagerFlow(k));
      assert Holds(s.at, Carried(f), 0, PacketOf(s, f)) && Fits(c, Carried(f), PacketOf(s, f));
    }
  }

  /** A parser that is short of a batch can do nothing. */
  lemma ShortParser(c: Config, s: State, i: nat, n: nat, j: nat, p: ParserAct)
    requires Sent(c, s, i, n) && Overfed(c, i) && j % c.g == i
    ensures !ParserEnabled(c, s, j, p)
  {
    if ParserEnabled(c, s, j, p) {
      var _ := ParserQueue(j);
      ShareShort(c, i, n, j);
    }
  }

  /** The generator's own steps. */
  lemma OwnSent(c: Config, s: State, i: nat, n: nat, g: GeneratorAct)
    requires Inv(c, s) && Sent(c, s, i, n) && GeneratorEnabled(c, s, i, g)
    ensures Sent(c, GeneratorStep(c, s, i, g), i, if g.SendPacket? then n + 1 else n)
  {
    assert GeneratorShape(c, s, i);
    if s.gens[i].pc.Returning? {
      GeneratorReturnsTo(c, s, i);
    }
    var s', t := GeneratorStep(c, s, i, g), GeneratorMoves(s, i, g);
    forall p: Place, k, x: Obj | Holds(s'.at, p, k, x) && x.Packet? && x.home == i ensures Near(c, i, p) {
      CarryOrigin(s.at, t, p, k, x);
    }
    OwnShares(c, s, i, n, g);
    CarryLengths(s.at, GeneratorMoves(s, i, g));
  }

  lemma OwnShares(c: Config, s: State, i: nat, n: nat, g: GeneratorAct)
    requires c.Valid() && i < c.g == |s.gens| && |s.pars| == c.p && Shares(c, s, i, n) && Turn(c, s.gens[i], i, n) && GeneratorEnabled(c, s, i, g)
    requires g.GiveBack? ==> PoolOf(s, Hand(s, GeneratorHand(i))) == i
    ensures Shares(c, GeneratorStep(c, s, i, g), i, if g.SendPacket? then n + 1 else n)
  {
    var s' := GeneratorStep(c, s, i, g);
    CarryLengths(s.at, GeneratorMoves(s, i, g));
    forall j | 0 <= j < c.p && j % c.g == i
      ensures s'.pars[j].PIdle? && |At(s'.at, ParserQueue(j))| == Share(c, i, if g.SendPacket? then n + 1 else n, j)
    {
      var _ := ParserQueue(j);
    }
  }

  lemma StepSent(c: Config, s: State, i: nat, n: nat, a: Action) returns (n': nat)
    requires Inv(c, s) && Sent(c, s, i, n) && Overfed(c, i) && Enabled(c, s, a)
    ensures Sent(c, Step(c, s, a), i, n')
  {
    n' := n;
    if a.ByGenerator? && a.i == i {
      OwnSent(c, s, i, n, a.g);
      n' := if a.g.SendPacket? then n + 1 else n;
    } else if a.ByParser? && a.j % c.g == i {
      ShortParser(c, s, i, n, a.j, a.p);
    } else {
      MovesFar(c, s, i, a);
      // A step that leaves the places of the generator's packets alone.
      StepMoves(c, s, a);
      SentUntouched(c, s, i, n, Moves(c, s, a), Step(c, s, a));
    }
  }

  lemma {:induction false} RunSent(c: Config, s: State, i: nat, n: nat, acts: seq<Action>, t: State) returns (n': nat)
    requires Inv(c, s) && Sent(c, s, i, n) && Overfed(c, i) && IsRun(c, s, acts, t)
    ensures Sent(c, t, i, n')
    decreases |acts|
  {
    n' := n;
    if acts != [] {
      StepInv(c, s, acts[0]);
      n' := StepSent(c, s, i, n, acts[0]);
      n' := RunSent(c, Step(c, s, acts[0]), i, n', acts[1..], t);
    }
  }

  /** In every reachable state all packets of an overfed generator are in its pool, its hand or
      the queues, as many in each queue as were dealt out to it. */
  lemma OverfedSent(c: Config, t: State, i: nat) returns (n: nat)
    requires c.Valid() && i < c.g && Overfed(c, i) && Reachable(c, t)
    ensures Sent(c, t, i, n) && n <= RING_CAPACITY
  {
    var s, acts :| Init(c, s) && IsRun(c, s, acts, t);
    InitInv(c, s);
    InitPools(c, s);
    var _ := PacketPool(i);
    n := RunSent(c, s, i, 0, acts, t);
  }

  /** In no run whatever does a parser fed by an overfed generator take a batch: it is always
      idle, and always short of one. */
  lemma NeverABatch(c: Config, s: State, i: nat, j: nat)
    requires c.Valid() && i < c.g && Overfed(c, i) && Reachable(c, s) && j < c.p && j % c.g == i
    ensures |s.pars| == c.p && s.pars[j].PIdle? && |At(s.at, ParserQueue(j))| < c.need
    ensures forall p :: !ParserEnabled(c, s, j, p)
  {
    var n := OverfedSent(c, s, i);
    var _ := ParserQueue(j);
    ShareShort(c, i, n, j);
    forall p ensures !ParserEnabled(c, s, j, p) {
      ShortParser(c, s, i, n, j, p);
    }
  }
}
