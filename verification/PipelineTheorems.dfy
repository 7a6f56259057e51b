/** The pipeline's guarantees over ideal bounded queues, for every run.  PipelineRingTheorems
    carries them over to the rings of the program. */
module PipelineTheorems {
  import opened Common
  import opened Ledger
  import opened FlowKey
  import opened Pipeline
  import opened PipelineInvariant
  import opened PipelineSafety
  import opened PipelineSessions

  // ---------------------------------------------------------------- the invariant holds for ever

  lemma InitPools(c: Config, s: State)
    requires c.Valid() && Init(c, s)
    ensures forall p: Place {:trigger At(s.at, p)} :: !p.PacketPool? && !p.FlowPool? && !p.SessionPool? ==> At(s.at, p) == []
    ensures forall i {:trigger PacketPool(i)} :: 0 <= i < c.g ==> |At(s.at, PacketPool(i))| == RING_CAPACITY
  {
    forall p: Place | !p.PacketPool? && !p.FlowPool? && !p.SessionPool? ensures At(s.at, p) == [] {
      if At(s.at, p) != [] {
        assert Holds(s.at, p, 0, At(s.at, p)[0]);
      }
    }
    forall i | 0 <= i < c.g ensures |At(s.at, PacketPool(i))| == RING_CAPACITY {
      var last := Packet(i, RING_CAPACITY - 1);
      assert Holds(s.at, PacketPool(i), RING_CAPACITY - 1, last);
      if |At(s.at, PacketPool(i))| > RING_CAPACITY {
        assert Holds(s.at, PacketPool(i), RING_CAPACITY, At(s.at, PacketPool(i))[RING_CAPACITY]);
      }
    }
  }

  lemma InitThreads(c: Config, s: State)
    requires c.Valid() && Init(c, s)
    ensures Threads(c, s)
  {
    InitPools(c, s);
    forall i | 0 <= i < c.g ensures GeneratorShape(c, s, i) {
      assert s.gens[i] == Generator(Building(0), i);
      var _ := PacketPool(i);
    }
    forall j | 0 <= j < c.p ensures ParserShape(s, j) { var _ := s.pars[j]; }
    forall k | 0 <= k < c.m ensures ManagerShape(s, k) { var _ := s.mans[k]; }
  }

  lemma InitInv(c: Config, s: State)
    requires c.Valid() && Init(c, s)
    ensures Inv(c, s)
  {
    forall x | Real(c, x) ensures Somewhere(s.at, x) {
      assert Holds(s.at, PoolPlace(x, x.home), x.slot, x);
    }
    InitThreads(c, s);
    InitPools(c, s);
    forall p: Place, i, x: Obj | Holds(s.at, p, i, x) && x.Packet? ensures Raw(s, p, i) {
      assert s.gens[p.i] == Generator(Building(0), p.i);
    }
    forall k | 0 <= k < c.m ensures ManagerKnows(c, s, k) { var _ := s.mans[k]; }
    forall j | 0 <= j < |s.pars| ensures OffersRight(c, s, j) { var _ := s.pars[j]; }
  }

  lemma StepInv(c: Config, s: State, a: Action)
    requires Inv(c, s) && Enabled(c, s, a)
    ensures Inv(c, Step(c, s, a))
  {
    match a
    case ByGenerator(i, g) =>
      GeneratorSuits(c, s, i, g);
      CarrySound(c, s.at, GeneratorMoves(s, i, g));
      GeneratorThreads(c, s, i, g);
      GeneratorPointers(c, s, i, g);
      GeneratorCargo(c, s, i, g);
      GeneratorBatches(c, s, i, g);
      GeneratorSessions(c, s, i, g);
    case ByParser(j, p) =>
      ParserSuits(c, s, j, p);
      CarrySound(c, s.at, ParserMoves(c, s, j, p));
      ParserThreads(c, s, j, p);
      ParserPointers(c, s, j, p);
      ParserCargo(c, s, j, p);
      ParserBatches(c, s, j, p);
      ParserSessions(c, s, j, p);
    case ByManager(k, m) =>
      ManagerSuits(c, s, k, m);
      CarrySound(c, s.at, ManagerMoves(s, k, m));
      ManagerThreads(c, s, k, m);
      ManagerLocks(c, s, k, m);
      ManagerPointers(c, s, k, m);
      ManagerCargo(c, s, k, m);
      ManagerBatches(c, s, k, m);
      ManagerSessions(c, s, k, m);
    case BySweeper(w) => SweeperInv(c, s, w);
  }

  lemma SweeperInv(c: Config, s: State, a: SweeperAct)
    requires Inv(c, s) && SweeperEnabled(c, s, a)
    ensures Inv(c, SweeperStep(c, s, a))
  {
    SweeperSuits(c, s, a);
    CarrySound(c, s.at, SweeperMoves(s, a));
    SweeperThreads(c, s, a);
    SweeperLocks(c, s, a);
    SweeperPointers(c, s, a);
    SweeperCargo(c, s, a);
    SweeperBatches(c, s, a);
    SweeperSessions(c, s, a);
  }

  lemma {:induction false} RunInv(c: Config, s: State, acts: seq<Action>, t: State)
    requires Inv(c, s) && IsRun(c, s, acts, t)
    ensures Inv(c, t)
    decreases |acts|
  {
    if acts != [] {
      StepInv(c, s, acts[0]);
      RunInv(c, Step(c, s, acts[0]), acts[1..], t);
    }
  }

  lemma ReachableInv(c: Config, t: State)
    requires c.Valid() && Reachable(c, t)
    ensures Inv(c, t)
  {
    var s, acts :| Init(c, s) && IsRun(c, s, acts, t);
    InitInv(c, s);
    RunInv(c, s, acts, t);
  }

  // ---------------------------------------------------------------- ownership

  /** In every reachable state every object is in exactly one place, one that suits it. */
  lemma ExactlyOnePlace(c: Config, s: State, x: Obj)
    requires c.Valid() && Reachable(c, s) && Real(c, x)
    ensures exists p, i :: Holds(s.at, p, i, x) && Fits(c, p, x) && forall q, j :: Holds(s.at, q, j, x) ==> q == p && j == i
  {
    ReachableInv(c, s);
    assert Somewhere(s.at, x);
    var p, i :| Holds(s.at, p, i, x);
    assert Fits(c, p, x);
  }

  function Actor(a: Action): Thread {
    match a
    case ByGenerator(i, _) => Gen(i)
    case ByParser(j, _) => Par(j)
    case ByManager(k, _) => Man(k)
    case BySweeper(_) => Sweep
  }

  /** The places of which a thread is in exclusive possession: its hands, and the bucket
      whose lock it holds. */
  predicate OwnsPlace(s: State, th: Thread, p: Place) {
    match p
    case GeneratorHand(i) => th == Gen(i)
    case ParserPackets(j) => th == Par(j)
    case ParserFlows(j) => th == Par(j)
    case ManagerFlow(k) => th == Man(k)
    case ManagerSession(k) => th == Man(k)
    case SweeperHand => th == Sweep
    case Bucket(m, b) => (th == Man(m) && m < |s.mans| && HasLock(s.mans[m], b)) || (th == Sweep && SweeperHas(s, m, b))
    case _ => false
  }

  /** A thread owns what is in its places, and the packets of the flow items there. */
  ghost predicate Owns(s: State, th: Thread, x: Obj) {
    exists p, i {:trigger Holds(s.at, p, i, x)} :: Holds(s.at, p, i, x) &&
      (OwnsPlace(s, th, p) || (p.Carried? && OwnsDirectly(s, th, p.flow)))
  }

  ghost predicate OwnsDirectly(s: State, th: Thread, f: Obj) {
    exists q, j {:trigger Holds(s.at, q, j, f)} :: Holds(s.at, q, j, f) && OwnsPlace(s, th, q)
  }

  lemma OneOwner(c: Config, s: State, th: Thread, th': Thread, x: Obj)
    requires Inv(c, s) && Owns(s, th, x) && Owns(s, th', x)
    ensures th == th'
  {
    var p, i :| Holds(s.at, p, i, x) && (OwnsPlace(s, th, p) || (p.Carried? && OwnsDirectly(s, th, p.flow)));
    var p', i' :| Holds(s.at, p', i', x) && (OwnsPlace(s, th', p') || (p'.Carried? && OwnsDirectly(s, th', p'.flow)));
    if p.Carried? {
      OneDirectOwner(c, s, th, th', p.flow);
    } else {
      OneOwnerOfPlace(c, s, th, th', p);
    }
  }

  lemma OneOwnerOfPlace(c: Config, s: State, th: Thread, th': Thread, p: Place)
    requires Locks(c, s) && OwnsPlace(s, th, p) && OwnsPlace(s, th', p)
    ensures th == th'
  {
  }

  lemma OneDirectOwner(c: Config, s: State, th: Thread, th': Thread, f: Obj)
    requires Inv(c, s) && OwnsDirectly(s, th, f) && OwnsDirectly(s, th', f)
    ensures th == th'
  {
    var q, j :| Holds(s.at, q, j, f) && OwnsPlace(s, th, q);
    var q', j' :| Holds(s.at, q', j', f) && OwnsPlace(s, th', q');
  }

  /** The objects whose memory an action reads or writes (passing a pointer on is neither);
      PipelineFootprint proves that it depends on no other and changes no other.
      The walk over a bucket reads all its nodes, up to the next one that it unlinks or, with
      `SweepUnlock`, to the end. */
  predicate Touches(s: State, a: Action, x: Obj) {
    match a
    case ByGenerator(i, g) => (g.BuildPut? || g.Patch? || g.GiveBack?) && x == Hand(s, GeneratorHand(i))
    case ByParser(j, p) =>
      || (p.Fill? && (x in At(s.at, ParserFlows(j)) || x in At(s.at, ParserPackets(j))))
      || (p.RouteFlow? && x == Hand(s, ParserFlows(j)))
      || (p.ReturnPackets? && x == Hand(s, ParserPackets(j)))
    case ByManager(k, m) => k < |s.mans| && ManagerTouches(s, k, m, x)
    case BySweeper(w) =>
      || ((w.SweepUnlink? || w.SweepUnlock?) && s.sweeper.Walking? && x in At(s.at, Bucket(s.sweeper.m, s.sweeper.b)))
      || (w.SweepReturn? && x == Hand(s, SweeperHand))
  }

  predicate ManagerTouches(s: State, k: nat, a: ManagerAct, x: Obj)
    requires k < |s.mans|
  {
    var f, n := Hand(s, ManagerFlow(k)), Hand(s, ManagerSession(k));
    var bucket := if InSection(s.mans[k]) then At(s.at, Bucket(k, Section(s.mans[k]))) else [];
    match a
    case LockBucket => x == f
    case FindNone => x == f || x in bucket
    case FindAt(_) => x == f || x in bucket
    case CopyNew => x == f || x == PacketOf(s, f) || x == n
    case Append => x == f || x == PacketOf(s, f) || x in bucket
    case Evict => x == f || x in bucket
    case ReturnEvicted => x == n
    case ReleasePacket => x == f || x == PacketOf(s, f)
    case ReleaseFlow => x == f
    case LinkNode => x == n || x in bucket
    case _ => false
  }

  lemma OwnsHere(s: State, th: Thread, p: Place, x: Obj)
    requires OwnsPlace(s, th, p) && x in At(s.at, p)
    ensures Owns(s, th, x) && OwnsDirectly(s, th, x)
  {
    var i :| 0 <= i < |At(s.at, p)| && At(s.at, p)[i] == x;
    assert Holds(s.at, p, i, x);
  }

  lemma ManagerTouchesOwn(c: Config, s: State, k: nat, a: ManagerAct, x: Obj)
    requires Inv(c, s) && ManagerEnabled(c, s, k, a) && ManagerTouches(s, k, a, x)
    ensures Owns(s, Man(k), x)
  {
    var f, n := Hand(s, ManagerFlow(k)), Hand(s, ManagerSession(k));
    assert ManagerShape(s, k);
    if InSection(s.mans[k]) && x in At(s.at, Bucket(k, Section(s.mans[k]))) {
      OwnsHere(s, Man(k), Bucket(k, Section(s.mans[k])), x);
    } else if x in At(s.at, ManagerFlow(k)) {
      OwnsHere(s, Man(k), ManagerFlow(k), x);
    } else if x in At(s.at, ManagerSession(k)) {
      OwnsHere(s, Man(k), ManagerSession(k), x);
    } else {
      var f := Hand(s, ManagerFlow(k));
      assert ManagerShape(s, k);
      OwnsHere(s, Man(k), ManagerFlow(k), f);
      assert Holds(s.at, ManagerFlow(k), 0, f) && Fits(c, ManagerFlow(k), f) && CargoOf(s, f, true);
      assert Holds(s.at, Carried(f), 0, PacketOf(s, f));
    }
  }

  /** No step of a run touches an object that its thread does not own.  In particular a
      manager copies a payload while the packet is still its own. */
  lemma TouchesOwn(c: Config, s: State, a: Action, x: Obj)
    requires c.Valid() && Reachable(c, s) && Enabled(c, s, a) && Touches(s, a, x)
    ensures Owns(s, Actor(a), x)
  {
    ReachableInv(c, s);
    match a
    case ByGenerator(i, g) =>
      assert GeneratorShape(c, s, i);
      OwnsHere(s, Gen(i), GeneratorHand(i), x);
    case ByParser(j, p) =>
      assert ParserShape(s, j);
      if x in At(s.at, ParserFlows(j)) {
        OwnsHere(s, Par(j), ParserFlows(j), x);
      } else {
        OwnsHere(s, Par(j), ParserPackets(j), x);
      }
    case ByManager(k, m) => ManagerTouchesOwn(c, s, k, m, x);
    case BySweeper(w) =>
      if w.SweepReturn? {
        OwnsHere(s, Sweep, SweeperHand, x);
      } else {
        OwnsHere(s, Sweep, Bucket(s.sweeper.m, s.sweeper.b), x);
      }
  }

  /** Two threads that could step next never touch the same object: the pipeline is free of
      data races on packets, flow items and sessions. */
  lemma NoRace(c: Config, s: State, a: Action, b: Action, x: Obj)
    requires c.Valid() && Reachable(c, s) && Enabled(c, s, a) && Enabled(c, s, b) && Actor(a) != Actor(b)
    requires Touches(s, a, x)
    ensures !Touches(s, b, x)
  {
    if Touches(s, b, x) {
      TouchesOwn(c, s, a, x);
      TouchesOwn(c, s, b, x);
      ReachableInv(c, s);
      OneOwner(c, s, Actor(a), Actor(b), x);
    }
  }

  // ---------------------------------------------------------------- retry loops that never retry

  lemma Room(c: Config, l: Book, p: Place, q: Place, x: Obj)
    requires c.Valid() && Sound(c, l) && p != q && OnlyKin(l, [p, q], x)
    ensures |At(l, p)| + |At(l, q)| <= Capacity(x)
  {
    Bounded(c, l, [p, q], x);
    assert [p, q][1..] == [q] && [q][1..] == [];
    assert Total(l, [p, q]) == |At(l, p)| + Total(l, [q]);
  }

  /** A generator never finds its pool empty while building, its pool full, or a parser
      queue full. */
  lemma GeneratorNeverRetries(c: Config, s: State, i: nat)
    requires c.Valid() && Reachable(c, s) && i < c.g
    ensures |s.gens| == c.g
    ensures var pc := s.gens[i].pc;
      && (pc.Building? ==> GeneratorEnabled(c, s, i, BuildTake) && !GeneratorEnabled(c, s, i, BuildSkip))
      && (pc.BuildingOne? ==> forall key :: GeneratorEnabled(c, s, i, BuildPut(key)))
      && (pc.Sending? ==> GeneratorEnabled(c, s, i, SendPacket))
      && (pc.Returning? ==> GeneratorEnabled(c, s, i, GiveBack))
  {
    ReachableInv(c, s);
    GeneratorRooms(c, s, i);
    assert GeneratorShape(c, s, i);
    if s.gens[i].pc.Returning? {
      GeneratorReturnsTo(c, s, i);
    }
  }

  lemma GeneratorRooms(c: Config, s: State, i: nat)
    requires Inv(c, s) && i < c.g
    ensures |At(s.at, PacketPool(i))| + |At(s.at, GeneratorHand(i))| <= RING_CAPACITY
    ensures s.gens[i].pc.Sending? ==>
      |At(s.at, ParserQueue(s.gens[i].pc.parser))| + |At(s.at, GeneratorHand(i))| <= RING_CAPACITY
  {
    assert GeneratorShape(c, s, i);
    Room(c, s.at, PacketPool(i), GeneratorHand(i), Packet(i, 0));
    if s.gens[i].pc.Sending? {
      Room(c, s.at, ParserQueue(s.gens[i].pc.parser), GeneratorHand(i), Packet(i, 0));
    }
  }

  /** A parser never finds the packet pool or its flow pool without room for a batch. */
  lemma ParserNeverRetries(c: Config, s: State, j: nat)
    requires c.Valid() && Reachable(c, s) && j < c.p
    ensures |s.pars| == c.p
    ensures s.pars[j].ReturningPackets? ==> ParserEnabled(c, s, j, ReturnPackets)
    ensures s.pars[j].ReturningFlows? ==> ParserEnabled(c, s, j, ReturnFlows)
  {
    ReachableInv(c, s);
    if s.pars[j].ReturningPackets? {
      assert ParserShape(s, j);
      ParserReturnsTo(c, s, j);
    } else if s.pars[j].ReturningFlows? {
      assert ParserShape(s, j);
      Room(c, s.at, FlowPool(j), ParserFlows(j), Flow(j, 0));
    }
  }

  lemma ReleaseFlowRoom(c: Config, s: State, k: nat)
    requires Inv(c, s) && k < c.m && s.mans[k].ReleasingFlow?
    ensures ManagerEnabled(c, s, k, ReleaseFlow)
  {
    assert ManagerShape(s, k);
    var f := Hand(s, ManagerFlow(k));
    assert Holds(s.at, ManagerFlow(k), 0, f) && Fits(c, ManagerFlow(k), f);
    Room(c, s.at, FlowPool(f.home), ManagerFlow(k), f);
  }

  lemma ReturnEvictedRoom(c: Config, s: State, k: nat)
    requires Inv(c, s) && k < c.m && s.mans[k].Evicted?
    ensures ManagerEnabled(c, s, k, ReturnEvicted)
  {
    assert ManagerShape(s, k);
    var n := Hand(s, ManagerSession(k));
    assert Holds(s.at, ManagerSession(k), 0, n) && Fits(c, ManagerSession(k), n);
    Room(c, s.at, SessionPool(k), ManagerSession(k), n);
  }

  lemma ReleasePacketRoom(c: Config, s: State, k: nat)
    requires Inv(c, s) && k < c.m && s.mans[k].ReleasingPacket?
    ensures ManagerEnabled(c, s, k, ReleasePacket)
  {
    ManagerReturnsTo(c, s, k);
  }

  /** A manager never finds a pool full, whether it returns a packet, a flow item or a node. */
  lemma ManagerNeverRetries(c: Config, s: State, k: nat)
    requires c.Valid() && Reachable(c, s) && k < c.m
    ensures |s.mans| == c.m
    ensures s.mans[k].ReleasingPacket? ==> ManagerEnabled(c, s, k, ReleasePacket)
    ensures s.mans[k].ReleasingFlow? ==> ManagerEnabled(c, s, k, ReleaseFlow)
    ensures s.mans[k].Evicted? ==> ManagerEnabled(c, s, k, ReturnEvicted)
  {
    ReachableInv(c, s);
    if s.mans[k].ReleasingPacket? { ReleasePacketRoom(c, s, k); }
    if s.mans[k].ReleasingFlow? { ReleaseFlowRoom(c, s, k); }
    if s.mans[k].Evicted? { ReturnEvictedRoom(c, s, k); }
  }

  /** Nor does the sweeper. */
  lemma SweeperNeverRetries(c: Config, s: State)
    requires c.Valid() && Reachable(c, s) && s.sweeper.Unlinked?
    ensures SweeperEnabled(c, s, SweepReturn)
  {
    ReachableInv(c, s);
    var n := Hand(s, SweeperHand);
    assert Holds(s.at, SweeperHand, 0, n) && Fits(c, SweeperHand, n);
    Room(c, s.at, SessionPool(n.home), SweeperHand, n);
  }

  // ---------------------------------------------------------------- sessions

  /** Across all managers and buckets there is at most one live session per key. */
  lemma OneSessionPerKey(c: Config, s: State, p: Place, i: int, x: Obj, q: Place, j: int, y: Obj)
    requires c.Valid() && Reachable(c, s)
    requires p.Bucket? && q.Bucket? && Holds(s.at, p, i, x) && Holds(s.at, q, j, y) && KeyOf(s, x) == KeyOf(s, y)
    ensures p == q && x == y
  {
    ReachableInv(c, s);
  }

  /** The places that the session nodes of manager `k` can be in. */
  function SessionPlaces(c: Config, s: State, k: nat): seq<Place> {
    [SessionPool(k), ManagerSession(k)]
    + (if Hand(s, SweeperHand).home == k && At(s.at, SweeperHand) != [] then [SweeperHand] else [])
    + seq(c.buckets, b requires 0 <= b < c.buckets => Bucket(k, b))
  }

  /** Live sessions, pooled nodes and nodes in hand always add up to the 65536 allocated. */
  lemma SessionsConserved(c: Config, s: State, k: nat)
    requires c.Valid() && Reachable(c, s) && k < c.m
    ensures Total(s.at, SessionPlaces(c, s, k)) == SESSION_CAPACITY
  {
    ReachableInv(c, s);
    var ps := SessionPlaces(c, s, k);
    forall p, i, y | p in ps && Holds(s.at, p, i, y) ensures Kin(Session(k, 0), y) {
      assert Fits(c, p, y);
    }
    forall p, i, y | Holds(s.at, p, i, y) && Kin(Session(k, 0), y) ensures p in ps {
      assert Fits(c, p, y);
      SessionPlace(c, s, k, p, i, y);
    }
    Conserved(c, s.at, ps, Session(k, 0));
  }

  lemma SessionPlace(c: Config, s: State, k: nat, p: Place, i: int, y: Obj)
    requires c.Valid() && Threads(c, s) && Holds(s.at, p, i, y) && y.Session? && y.home == k && Fits(c, p, y)
    ensures p in SessionPlaces(c, s, k)
  {
    var ps := SessionPlaces(c, s, k);
    if p.Bucket? {
      var n := |ps| - c.buckets;
      assert ps[n + p.b] == p;
    } else if p.SweeperHand? {
      assert ps[2] == p;
    } else {
      assert ps[0] == SessionPool(k) && ps[1] == ManagerSession(k);
    }
  }

  // ---------------------------------------------------------------- queues

  lemma StepMoves(c: Config, s: State, a: Action)
    requires Enabled(c, s, a)
    ensures Possible(s.at, Moves(c, s, a)) && Step(c, s, a).at == Carry(s.at, Moves(c, s, a))
    ensures var t := Moves(c, s, a); !t.Stay? && IsRing(t.from) ==> t.k == 0 && t.n > 0
  {
  }

  /** Every step uses every queue and pool first-in first-out: it takes some objects from
      the front or adds some at the end. */
  lemma RingsAreFifo(c: Config, s: State, a: Action, p: Place)
    requires c.Valid() && Enabled(c, s, a) && IsRing(p)
    ensures At(s.at, p) <= At(Step(c, s, a).at, p)
      || exists n :: 0 < n <= |At(s.at, p)| && At(Step(c, s, a).at, p) == At(s.at, p)[n..]
  {
    StepMoves(c, s, a);
    var t := Moves(c, s, a);
    CarryAt(s.at, t);
    if !t.Stay? && p == t.from {
      assert At(Step(c, s, a).at, p) == At(s.at, p)[t.n..];
    }
  }

  /** A queue of a parser only ever holds packets of the one generator that feeds it, so a
      whole batch shares one home pool; and a flow item on its way to a manager describes
      the packet it carries and is on its way to the right one. */
  lemma QueuesAreRouted(c: Config, s: State, p: Place, i: int, x: Obj)
    requires c.Valid() && Reachable(c, s) && Holds(s.at, p, i, x)
    ensures p.ParserQueue? ==> x.Packet? && x.home == p.i % c.g && PoolOf(s, x) == x.home
    ensures p.ManagerQueue? ==>
      && x.Flow? && c.ManagerOf(KeyOf(s, x)) == p.i
      && At(s.at, Carried(x)) == [PacketOf(s, x)] && KeyOf(s, PacketOf(s, x)) == KeyOf(s, x)
  {
    ReachableInv(c, s);
    assert Fits(c, p, x);
  }

  /** The configuration of the program itself, with the two hashes that it uses. */
  function SourceConfig(g: nat, p: nat, m: nat, buckets: nat, need: nat): Config
    requires m > 0 && buckets > 0
  {
    Config(g, p, m, buckets, need, key => ManagerIndex(key, m), key => BucketIndex(key, buckets))
  }

  /** With these hashes, flow items and sessions are where the hashes say. */
  lemma SourceIsRouted(c: Config, s: State, p: Place, i: nat, x: Obj)
    requires c.Valid() && c == SourceConfig(c.g, c.p, c.m, c.buckets, c.need)
    requires Reachable(c, s) && Holds(s.at, p, i, x)
    ensures p.ManagerQueue? ==> ManagerIndex(KeyOf(s, x), c.m) == p.i
    ensures p.Bucket? ==> ManagerIndex(KeyOf(s, x), c.m) == p.i && BucketIndex(KeyOf(s, x), c.buckets) == p.b
  {
    ReachableInv(c, s);
    assert c.ManagerOf(KeyOf(s, x)) == ManagerIndex(KeyOf(s, x), c.m);
    assert c.BucketOf(KeyOf(s, x)) == BucketIndex(KeyOf(s, x), c.buckets);
  }
}
