/** The counts of the buckets while managers and sweeper run concurrently.

    A count goes up when a node has been linked, and down only once an unlinked node is back in
    its pool; so it is behind its list while a manager or the sweeper has that node in hand. */
module PipelineCounts {
  import opened Common
  import opened Ledger
  import opened Pipeline
  import opened PipelineInvariant
  import opened PipelineSafety
  import opened PipelineTheorems

  /** The 32-bit counts, by manager and bucket; all start at zero. */
  type Counts = map<(nat, nat), Word32>

  function CountAt(n: Counts, k: nat, b: nat): Word32 { if (k, b) in n then n[(k, b)] else 0 }

  function Changed(n: Counts, k: nat, b: nat, d: int): Counts {
    n[(k, b) := Unsigned32(CountAt(n, k, b) + d)]
  }

  function NextCounts(s: State, a: Action, n: Counts): Counts {
    if a.ByManager? && a.k < |s.mans| && a.m.LinkNode? && s.mans[a.k].Linking? then Changed(n, a.k, s.mans[a.k].b, 1)
    else if a.ByManager? && a.k < |s.mans| && a.m.ReturnEvicted? && s.mans[a.k].Evicted? then Changed(n, a.k, s.mans[a.k].b, -1)
    else if a.BySweeper? && a.w.SweepReturn? && s.sweeper.Unlinked? then Changed(n, s.sweeper.m, s.sweeper.b, -1)
    else n
  }

  // ---------------------------------------------------------------- what a count says

  /** Nodes that are out of the list of a bucket and not yet counted out. */
  function EvictedFrom(s: State, k: nat, b: nat): nat { if k < |s.mans| && s.mans[k] == Evicted(b) then 1 else 0 }

  function SweptFrom(s: State, k: nat, b: nat): nat { if s.sweeper.Unlinked? && s.sweeper.m == k && s.sweeper.b == b then 1 else 0 }

  /** The nodes of a bucket, in its list or not yet counted out. */
  function Present(s: State, k: nat, b: nat): nat {
    |At(s.at, Bucket(k, b))| + EvictedFrom(s, k, b) + SweptFrom(s, k, b)
  }

  predicate CountIs(s: State, n: Counts, k: nat, b: nat) { CountAt(n, k, b) == Present(s, k, b) }

  /** The node in the sweeper's hand belongs to the manager whose bucket it is working on. */
  predicate SweepsHome(s: State) {
    s.sweeper.Unlinked? ==> Hand(s, SweeperHand).home == s.sweeper.m
  }

  ghost predicate CountsRight(s: State, n: Counts) {
    SweepsHome(s) && forall k: nat, b: nat {:trigger CountIs(s, n, k, b)} :: CountIs(s, n, k, b)
  }

  // ---------------------------------------------------------------- every step keeps it

  /** The list of a bucket, what is out of it, and the node about to join it. */
  lemma ListBound(c: Config, s: State, k: nat, b: nat)
    requires Inv(c, s) && k < c.m
    ensures |At(s.at, Bucket(k, b))| + |At(s.at, ManagerSession(k))| <= SESSION_CAPACITY
  {
    Room(c, s.at, Bucket(k, b), ManagerSession(k), Session(k, 0));
  }

  /** Steps that change no count change neither the list nor what is out of it, or pass a node
      from one to the other. */
  lemma QuietCount(c: Config, s: State, a: Action, k: nat, b: nat)
    requires Enabled(c, s, a)
    requires !(a.ByManager? && (a.m.LinkNode? || a.m.ReturnEvicted?)) && !(a.BySweeper? && a.w.SweepReturn?)
    ensures Present(Step(c, s, a), k, b) == Present(s, k, b)
  {
    if a.ByManager? {
      QuietManager(c, s, a.k, a.m, k, b);
    } else if a.BySweeper? {
      QuietSweeper(c, s, a.w, k, b);
    } else if a.ByParser? {
      QuietParser(c, s, a.j, a.p, k, b);
    } else {
      QuietGenerator(c, s, a.i, a.g, k, b);
    }
  }

  lemma QuietSweeper(c: Config, s: State, a: SweeperAct, k: nat, b: nat)
    requires SweeperEnabled(c, s, a) && !a.SweepReturn?
    ensures Present(SweeperStep(c, s, a), k, b) == Present(s, k, b)
  {
    CarryLengths(s.at, SweeperMoves(s, a));
  }

  lemma QuietParser(c: Config, s: State, j: nat, a: ParserAct, k: nat, b: nat)
    requires ParserEnabled(c, s, j, a)
    ensures Present(ParserStep(c, s, j, a), k, b) == Present(s, k, b)
  {
    CarryLengths(s.at, ParserMoves(c, s, j, a));
  }

  lemma QuietGenerator(c: Config, s: State, i: nat, a: GeneratorAct, k: nat, b: nat)
    requires GeneratorEnabled(c, s, i, a)
    ensures Present(GeneratorStep(c, s, i, a), k, b) == Present(s, k, b)
  {
    CarryLengths(s.at, GeneratorMoves(s, i, a));
  }

  lemma QuietManager(c: Config, s: State, h: nat, a: ManagerAct, k: nat, b: nat)
    requires ManagerEnabled(c, s, h, a) && !a.LinkNode? && !a.ReturnEvicted?
    ensures var s' := ManagerStep(c, s, h, a);
      |At(s'.at, Bucket(k, b))| + EvictedFrom(s', k, b) == |At(s.at, Bucket(k, b))| + EvictedFrom(s, k, b)
      && s'.sweeper == s.sweeper
  {
    CarryLengths(s.at, ManagerMoves(s, h, a));
  }

  /** What the steps that change a count do to the lists and to what is out of them. */
  lemma LinkEffect(c: Config, s: State, h: nat, k: nat, b: nat)
    requires ManagerEnabled(c, s, h, LinkNode)
    ensures Present(ManagerStep(c, s, h, LinkNode), k, b) == Present(s, k, b) + (if k == h && b == s.mans[h].b then 1 else 0)
  {
    CarryLengths(s.at, ManagerMoves(s, h, LinkNode));
  }

  lemma EvictEffect(c: Config, s: State, h: nat, k: nat, b: nat)
    requires ManagerEnabled(c, s, h, ReturnEvicted)
    ensures Present(ManagerStep(c, s, h, ReturnEvicted), k, b) == Present(s, k, b) - (if k == h && b == s.mans[h].b then 1 else 0)
  {
    CarryLengths(s.at, ManagerMoves(s, h, ReturnEvicted));
  }

  lemma SweepEffect(c: Config, s: State, k: nat, b: nat)
    requires SweeperEnabled(c, s, SweepReturn)
    ensures Present(SweeperStep(c, s, SweepReturn), k, b) == Present(s, k, b) - (if k == s.sweeper.m && b == s.sweeper.b then 1 else 0)
  {
    CarryLengths(s.at, SweeperMoves(s, SweepReturn));
  }

  lemma ChangedCount(n: Counts, h: nat, b': nat, d: int, k: nat, b: nat)
    requires 0 <= CountAt(n, h, b') + d < U32
    ensures CountAt(Changed(n, h, b', d), k, b) == CountAt(n, k, b) + (if k == h && b == b' then d else 0)
  {
  }

  lemma LinkedCount(c: Config, s: State, n: Counts, h: nat, k: nat, b: nat)
    requires ManagerEnabled(c, s, h, LinkNode) && CountIs(s, n, k, b) && CountIs(s, n, h, s.mans[h].b) && |At(s.at, Bucket(h, s.mans[h].b))| <= SESSION_CAPACITY
    ensures CountIs(ManagerStep(c, s, h, LinkNode), NextCounts(s, ByManager(h, LinkNode), n), k, b)
  {
    LinkEffect(c, s, h, k, b);
    ChangedCount(n, h, s.mans[h].b, 1, k, b);
  }

  lemma EvictedCount(c: Config, s: State, n: Counts, h: nat, k: nat, b: nat)
    requires ManagerEnabled(c, s, h, ReturnEvicted) && CountIs(s, n, k, b) && CountIs(s, n, h, s.mans[h].b)
    ensures CountIs(ManagerStep(c, s, h, ReturnEvicted), NextCounts(s, ByManager(h, ReturnEvicted), n), k, b)
  {
    EvictEffect(c, s, h, k, b);
    ChangedCount(n, h, s.mans[h].b, -1, k, b);
  }

  lemma SweptCount(c: Config, s: State, n: Counts, k: nat, b: nat)
    requires SweeperEnabled(c, s, SweepReturn) && CountIs(s, n, k, b) && CountIs(s, n, s.sweeper.m, s.sweeper.b)
    ensures CountIs(SweeperStep(c, s, SweepReturn), NextCounts(s, BySweeper(SweepReturn), n), k, b)
  {
    SweepEffect(c, s, k, b);
    ChangedCount(n, s.sweeper.m, s.sweeper.b, -1, k, b);
  }

  lemma OneCount(c: Config, s: State, n: Counts, a: Action, k: nat, b: nat)
    requires Inv(c, s) && Enabled(c, s, a) && CountsRight(s, n)
    ensures CountIs(Step(c, s, a), NextCounts(s, a, n), k, b)
  {
    assert CountIs(s, n, k, b);
    if a.ByManager? && a.m.LinkNode? {
      assert CountIs(s, n, a.k, s.mans[a.k].b);
      ListBound(c, s, a.k, s.mans[a.k].b);
      LinkedCount(c, s, n, a.k, k, b);
    } else if a.ByManager? && a.m.ReturnEvicted? {
      assert CountIs(s, n, a.k, s.mans[a.k].b);
      EvictedCount(c, s, n, a.k, k, b);
    } else if a.BySweeper? && a.w.SweepReturn? {
      assert CountIs(s, n, s.sweeper.m, s.sweeper.b);
      SweptCount(c, s, n, k, b);
    } else {
      QuietCount(c, s, a, k, b);
    }
  }

  lemma SweepsHomeStill(c: Config, s: State, a: Action)
    requires Inv(c, s) && Enabled(c, s, a) && SweepsHome(s)
    ensures SweepsHome(Step(c, s, a))
  {
    if a.BySweeper? {
      SweeperComesHome(c, s, a.w);
    } else {
      StepMoves(c, s, a);
      CarryAt(s.at, Moves(c, s, a));
    }
  }

  lemma SweeperComesHome(c: Config, s: State, a: SweeperAct)
    requires Inv(c, s) && SweeperEnabled(c, s, a)
    ensures SweepsHome(SweeperStep(c, s, a))
  {
    var t := SweeperMoves(s, a);
    CarryAt(s.at, t);
    if a.SweepUnlink? {
      assert Holds(s.at, t.from, t.k, At(s.at, t.from)[t.k]);
    }
  }

  lemma CountsStep(c: Config, s: State, n: Counts, a: Action)
    requires Inv(c, s) && Enabled(c, s, a) && CountsRight(s, n)
    ensures CountsRight(Step(c, s, a), NextCounts(s, a, n))
  {
    SweepsHomeStill(c, s, a);
    forall k: nat, b: nat ensures CountIs(Step(c, s, a), NextCounts(s, a, n), k, b) {
      OneCount(c, s, n, a, k, b);
    }
  }

  lemma CountsStart(c: Config, s: State)
    requires c.Valid() && Init(c, s)
    ensures CountsRight(s, map[])
  {
    InitPools(c, s);
    forall k: nat, b: nat ensures CountIs(s, map[], k, b) {
      assert At(s.at, Bucket(k, b)) == [] && (k < |s.mans| ==> s.mans[k] == MIdle);
    }
  }

  /** The bucket's lock keeps manager and sweeper from being there both. */
  lemma OneIsOut(c: Config, s: State, k: nat, b: nat)
    requires Inv(c, s)
    ensures EvictedFrom(s, k, b) + SweptFrom(s, k, b) <= 1
  {
    if EvictedFrom(s, k, b) == 1 {
      assert HasLock(s.mans[k], b);
    }
  }

  // ---------------------------------------------------------------- the sum of the counts

  /** `hash_count`: the counts of the first `b` buckets. */
  function HashCount(n: Counts, k: nat, b: nat): nat {
    if b == 0 then 0 else HashCount(n, k, b - 1) + CountAt(n, k, b - 1)
  }

  function Lists(s: State, k: nat, b: nat): nat {
    if b == 0 then 0 else Lists(s, k, b - 1) + |At(s.at, Bucket(k, b - 1))|
  }

  /** Nodes of manager `k` that are out of one of its first `b` lists and not yet counted out. */
  function OutOfLists(s: State, k: nat, b: nat): nat {
    (if k < |s.mans| && s.mans[k].Evicted? && s.mans[k].b < b then 1 else 0)
    + (if s.sweeper.Unlinked? && s.sweeper.m == k && s.sweeper.b < b then 1 else 0)
  }

  lemma {:induction false} HashCountIsLists(s: State, n: Counts, k: nat, b: nat)
    requires CountsRight(s, n)
    ensures HashCount(n, k, b) == Lists(s, k, b) + OutOfLists(s, k, b)
  {
    if b > 0 {
      HashCountIsLists(s, n, k, b - 1);
      assert CountIs(s, n, k, b - 1);
    }
  }

  function Buckets(k: nat, b: nat): seq<Place> { seq(b, i requires 0 <= i < b => Bucket(k, i)) }

  lemma {:induction false} TotalConcat(l: Book, ps: seq<Place>, qs: seq<Place>)
    ensures Total(l, ps + qs) == Total(l, ps) + Total(l, qs)
  {
    if ps == [] {
      assert ps + qs == qs;
    } else {
      TotalConcat(l, ps[1..], qs);
      assert (ps + qs)[1..] == ps[1..] + qs;
    }
  }

  lemma {:induction false} TotalBuckets(s: State, k: nat, b: nat)
    ensures Total(s.at, Buckets(k, b)) == Lists(s, k, b)
  {
    if b > 0 {
      TotalBuckets(s, k, b - 1);
      var last := [Bucket(k, b - 1)];
      assert Buckets(k, b) == Buckets(k, b - 1) + last && last[1..] == [];
      TotalConcat(s.at, Buckets(k, b - 1), last);
    }
  }

  /** A new node that is not linked yet. */
  predicate HoldsNew(pc: ManagerPc) { HoldsNode(pc) && !pc.Evicted? }

  /** The counts of a manager's table, its pooled nodes and the new node in its hand add up to
      the 65536 allocated. */
  lemma CountsAddUp(c: Config, s: State, n: Counts, k: nat)
    requires c.Valid() && Reachable(c, s) && CountsRight(s, n) && k < c.m
    ensures |s.mans| == c.m
    ensures HashCount(n, k, c.buckets) + |At(s.at, SessionPool(k))| + (if HoldsNew(s.mans[k]) then 1 else 0) == SESSION_CAPACITY
  {
    ReachableInv(c, s);
    HashCountIsLists(s, n, k, c.buckets);
    SessionsConserved(c, s, k);
    SessionTotal(c, s, k);
    assert ManagerShape(s, k);
    assert s.mans[k].Evicted? ==> HasLock(s.mans[k], s.mans[k].b);
  }

  /** The places of a manager's nodes, added up. */
  lemma SessionTotal(c: Config, s: State, k: nat)
    requires Inv(c, s) && SweepsHome(s) && k < c.m
    ensures Total(s.at, SessionPlaces(c, s, k)) == |At(s.at, SessionPool(k))| + |At(s.at, ManagerSession(k))|
      + (if s.sweeper.Unlinked? && s.sweeper.m == k then 1 else 0) + Lists(s, k, c.buckets)
  {
    var two := [SessionPool(k), ManagerSession(k)];
    var sweeps := if Hand(s, SweeperHand).home == k && At(s.at, SweeperHand) != [] then [SweeperHand] else [];
    assert SessionPlaces(c, s, k) == two + sweeps + Buckets(k, c.buckets);
    TotalConcat(s.at, two + sweeps, Buckets(k, c.buckets));
    TotalConcat(s.at, two, sweeps);
    TotalBuckets(s, k, c.buckets);
    assert two[1..] == [ManagerSession(k)] && two[1..][1..] == [] && (sweeps != [] ==> sweeps[1..] == []);
  }
}
