/** A run that stops the program: one generator and one parser send new flows to the first manager
    until its session nodes are used up; the next flow makes it wait for a node, and the remaining
    packets come to rest in the rings before it. */
module PipelineExhaustion {
  import opened Common
  import opened Ledger
  import opened Pipeline
  import opened PipelineInvariant
  import opened PipelineSafety
  import opened PipelineProgress
  import opened PipelineWedge
  import opened PipelineStarvation
  import opened PipelineTrack
  import Ideal = PipelineTheorems

  ghost predicate Alone(c: Config) { c.Valid() && c.g == c.p == 1 }

  /** All packets are for the first manager. */
  ghost predicate ToFirst(c: Config, name: Naming) { forall n: nat :: n < NAMES ==> c.ManagerOf(name(n)) == 0 }

  // ---------------------------------------------------------------- the first manager

  function ManagerDoes(pc: ManagerPc): ManagerAct {
    match pc
    case MIdle => TakeFlow
    case Taken => GoDeep
    case Locking => LockBucket
    case Searching(_) => FindNone
    case WantingNode(_) => TakeNode
    case Copying(_) => CopyNew
    case ReleasingPacket(_) => ReleasePacket
    case ReleasingFlow(_) => ReleaseFlow
    case Linking(_) => LinkNode
    case _ => UnlockBucket
  }

  lemma FindsNone(c: Config, name: Naming, s: State, n: nat)
    requires Alone(c) && Inv(c, s) && FreshKeys(name, s, n) && s.mans[0].Searching?
    ensures ManagerEnabled(c, s, 0, FindNone)
  {
    // The packet in a manager's hands is in flight until it is copied.
    var f := Hand(s, ManagerFlow(0));
    assert ManagerShape(s, 0);
    assert Holds(s.at, ManagerFlow(0), 0, f) && Fits(c, ManagerFlow(0), f) && CargoOf(s, f, true);
    assert Holds(s.at, Carried(f), 0, PacketOf(s, f)) && Flying(s, Carried(f)) && Fits(c, Carried(f), PacketOf(s, f));
    assert Aloft(s, PacketOf(s, f)) && PacketOf(s, f).Packet? && KeyOf(s, f) == KeyOf(s, PacketOf(s, f));
    var b := s.mans[0].b;
    forall i | 0 <= i < |At(s.at, Bucket(0, b))| ensures !SameKey(s, 0, b, i) {
      var y := At(s.at, Bucket(0, b))[i];
      assert Holds(s.at, Bucket(0, b), i, y) && Flying(s, Bucket(0, b)) && Fits(c, Bucket(0, b), y);
      assert Aloft(s, y);
    }
  }

  /** What a manager gives back goes to the pools of the one generator and the one parser. */
  lemma ReleasesHome(c: Config, s: State)
    requires Alone(c) && Reachable(c, s) && |s.mans| == c.m
    ensures s.mans[0].ReleasingPacket? ==> ManagerEnabled(c, s, 0, ReleasePacket) && ManagerMoves(s, 0, ReleasePacket).to == PacketPool(0)
    ensures s.mans[0].ReleasingFlow? ==> ManagerEnabled(c, s, 0, ReleaseFlow) && ManagerMoves(s, 0, ReleaseFlow).to == FlowPool(0)
  {
    Ideal.ReachableInv(c, s);
    Ideal.ManagerNeverRetries(c, s, 0);
    if s.mans[0].ReleasingPacket? {
      ManagerReturnsTo(c, s, 0);
    } else if s.mans[0].ReleasingFlow? {
      assert ManagerShape(s, 0);
      assert Holds(s.at, ManagerFlow(0), 0, Hand(s, ManagerFlow(0)));
    }
  }

  lemma ManagerTurns(k: Track, k': Track, pc: ManagerPc, b: nat)
    requires ManagerGoes(k, k') && Plain(pc) == k.man && (InSection(pc) ==> b == Section(pc))
    ensures ManagerAt(pc, ManagerDoes(pc)) && Plain(ManagerNext(pc, b, ManagerDoes(pc))) == k'.man
    ensures k'.gen == k.gen && k'.par == k.par && k'.made == k.made && k'.steps == k.steps + 1
    ensures OnTheWay(ByManager(0, ManagerDoes(pc)))
  {
  }

  /** Steps that move nothing. */
  predicate Stands(pc: ManagerPc) { pc.Taken? || pc.Locking? || pc.Searching? || pc.Copying? || pc.Unlocking? }

  lemma ManagerShifts(c: Config, s: State, k: Track, k': Track)
    requires Alone(c) && AtWork(c, s, 0, k) && ManagerGoes(k, k')
    requires s.mans[0].ReleasingPacket? ==> ManagerMoves(s, 0, ReleasePacket).to == PacketPool(0)
    requires s.mans[0].ReleasingFlow? ==> ManagerMoves(s, 0, ReleaseFlow).to == FlowPool(0)
    ensures Changes(ManagerMoves(s, 0, ManagerDoes(s.mans[0])), 0, k, k')
  {
    if !Stands(s.mans[0]) {
      ManagerCarries(s, k, k');
    }
  }

  lemma ManagerCarries(s: State, k: Track, k': Track)
    requires |s.mans| > 0 && !Stands(s.mans[0]) && Plain(s.mans[0]) == k.man && ManagerGoes(k, k')
    requires s.mans[0].ReleasingPacket? ==> ManagerMoves(s, 0, ReleasePacket).to == PacketPool(0)
    requires s.mans[0].ReleasingFlow? ==> ManagerMoves(s, 0, ReleaseFlow).to == FlowPool(0)
    ensures Changes(ManagerMoves(s, 0, ManagerDoes(s.mans[0])), 0, k, k')
  {
  }

  lemma ManagerMay(c: Config, s: State, k: Track, k': Track)
    requires Alone(c) && AtWork(c, s, 0, k) && Lengths(s.at, 0, k) && ManagerGoes(k, k')
    requires var pc := s.mans[0]; pc.Locking? || pc.Searching? || pc.ReleasingPacket? || pc.ReleasingFlow? ==> ManagerEnabled(c, s, 0, ManagerDoes(pc))
    requires s.mans[0].Linking? ==> At(s.at, ManagerSession(0)) != []
    ensures ManagerEnabled(c, s, 0, ManagerDoes(s.mans[0]))
  {
  }

  lemma ManagerFollows(c: Config, name: Naming, s: State, k: Track, k': Track)
    requires Alone(c) && Reachable(c, s) && OnTheTrack(c, s, 0, k) && FreshKeys(name, s, k.made) && !Inside(s.sweeper) && ManagerGoes(k, k')
    ensures var a := ManagerDoes(s.mans[0]); ManagerEnabled(c, s, 0, a) && OnTheTrack(c, ManagerStep(c, s, 0, a), 0, k')
  {
    Ideal.ReachableInv(c, s);
    assert ManagerShape(s, 0);
    if s.mans[0].Locking? {
      var b := c.BucketOf(KeyOf(s, Hand(s, ManagerFlow(0))));
      assert !HasLock(s.mans[0], b);
      assert (0, b) !in s.locked;
    } else if s.mans[0].Searching? {
      FindsNone(c, name, s, k.made);
    } else {
      ReleasesHome(c, s);
    }
    ManagerMay(c, s, k, k');
    ManagerTurns(k, k', s.mans[0], CurrentBucket(c, s, 0));
    ManagerShifts(c, s, k, k');
    LengthsChange(s.at, ManagerMoves(s, 0, ManagerDoes(s.mans[0])), 0, k, k');
  }

  // ---------------------------------------------------------------- the run follows the track

  /** A step that gives a packet that it makes the next key, and keeps every packet on its way to become
      a session. */
  ghost predicate NamedStep(c: Config, name: Naming, s: State, n: nat, a: Action, s': State, n': nat) {
    Enabled(c, s, a) && OnTheWay(a) && StampsNext(name, a, n) && s' == Step(c, s, a) && n' == n + Stamps(a)
  }

  ghost predicate NamedRun(c: Config, name: Naming, s: State, n: nat, acts: seq<Action>, t: State, n': nat)
    decreases |acts|
  {
    if acts == [] then s == t && n == n'
    else exists s1, n1: nat :: NamedStep(c, name, s, n, acts[0], s1, n1) && NamedRun(c, name, s1, n1, acts[1..], t, n')
  }

  lemma {:induction false} NamedRunOn(c: Config, name: Naming, s: State, n: nat, acts: seq<Action>, t: State, n': nat, a: Action, t': State, n'': nat)
    requires NamedRun(c, name, s, n, acts, t, n') && NamedStep(c, name, t, n', a, t', n'')
    ensures NamedRun(c, name, s, n, acts + [a], t', n'')
    decreases |acts|
  {
    if acts == [] {
      assert (acts + [a])[1..] == [] && NamedRun(c, name, t', n'', [], t', n'');
    } else {
      var s1, n1: nat :| NamedStep(c, name, s, n, acts[0], s1, n1) && NamedRun(c, name, s1, n1, acts[1..], t, n');
      NamedRunOn(c, name, s1, n1, acts[1..], t, n', a, t', n'');
      assert (acts + [a])[1..] == acts[1..] + [a];
    }
  }

  lemma {:induction false} NamedIsRun(c: Config, name: Naming, s: State, n: nat, acts: seq<Action>, t: State, n': nat)
    requires NamedRun(c, name, s, n, acts, t, n')
    ensures IsRun(c, s, acts, t)
    decreases |acts|
  {
    if acts != [] {
      var s1, n1: nat :| NamedStep(c, name, s, n, acts[0], s1, n1) && NamedRun(c, name, s1, n1, acts[1..], t, n');
      NamedIsRun(c, name, s1, n1, acts[1..], t, n');
    }
  }

  ghost predicate RunsBy(c: Config, name: Naming, init: State, acts: seq<Action>, t: State, n: nat, steps: nat) {
    |acts| <= steps && NamedRun(c, name, init, 0, acts, t, n)
  }

  ghost predicate RunsTo(c: Config, name: Naming, init: State, t: State, n: nat, steps: nat) {
    exists acts :: RunsBy(c, name, init, acts, t, n, steps)
  }

  /** The other managers have nothing to do. */
  ghost predicate OthersWait(s: State) {
    forall h: nat {:trigger ManagerQueue(h)} :: 0 < h < |s.mans| ==> s.mans[h].MIdle? && At(s.at, ManagerQueue(h)) == []
  }

  ghost predicate Sees(c: Config, name: Naming, init: State, s: State, k: Track) {
    && RunsTo(c, name, init, s, k.made, k.steps) && Reachable(c, s) && s.sweeper == init.sweeper
    && OnTheTrack(c, s, 0, k) && FreshKeys(name, s, k.made) && OthersWait(s)
  }

  ghost predicate CanSee(c: Config, name: Naming, init: State, k: Track) { exists s :: Sees(c, name, init, s, k) }

  const LIMITS: Limits := Limits(NAMES, U32)

  /** Whose step leads on. */
  predicate LeadsTo(c: Config, s: State, a: Action, k: Track, k': Track) {
    && Enabled(c, s, a) && OnTheTrack(c, Step(c, s, a), 0, k') && OnTheWay(a)
    && k'.made == k.made + Stamps(a) && k'.steps == k.steps + 1
    && !a.BySweeper? && (a.ByManager? ==> a.k == 0) && (a.ByParser? && a.p.SendFlow? && s.pars[a.j].Offering? ==> s.pars[a.j].k == 0)
  }

  lemma GeneratorLeads(c: Config, name: Naming, s: State, k: Track, k': Track)
    requires Alone(c) && Reachable(c, s) && OnTheTrack(c, s, 0, k) && GeneratorGoes(0, k, k') && InLimits(k', LIMITS)
    ensures var a := ByGenerator(0, GeneratorDoes(name, k)); LeadsTo(c, s, a, k, k') && StampsNext(name, a, k.made)
  {
    GeneratorFollows(c, s, 0, name, k, k');
    GeneratorOnTheWay(name, k, k');
  }

  lemma GeneratorOnTheWay(name: Naming, k: Track, k': Track)
    requires GeneratorGoes(0, k, k') && InLimits(k', LIMITS)
    ensures var a := ByGenerator(0, GeneratorDoes(name, k));
      OnTheWay(a) && StampsNext(name, a, k.made) && k'.made == k.made + Stamps(a) && k'.steps == k.steps + 1
  {
  }

  lemma ParserLeads(c: Config, name: Naming, s: State, k: Track, k': Track)
    requires Alone(c) && ToFirst(c, name) && Reachable(c, s) && OnTheTrack(c, s, 0, k) && FreshKeys(name, s, k.made)
    requires ParserGoes(c.need, true, k, k') && !k.par.ReturningPackets?
    ensures LeadsTo(c, s, ByParser(0, ParserDoes(true, k.par)), k, k')
  {
    Ideal.ReachableInv(c, s);
    if s.pars[0].Handing? {
      // A packet in the parser's hands has one of the keys given.
      assert ParserShape(s, 0) && Matched(s, 0, 0);
      var x := At(s.at, ParserPackets(0))[0];
      assert Holds(s.at, ParserPackets(0), 0, x) && Flying(s, ParserPackets(0));
      assert Aloft(s, x);
    }
    ParserFollows(c, s, 0, true, k, k');
    assert OnTheWay(ByParser(0, ParserDoes(true, k.par))) && k'.made == k.made && k'.steps == k.steps + 1;
    assert k.par.Offering? ==> k.par.k == 0;
  }

  lemma ManagerLeads(c: Config, name: Naming, s: State, k: Track, k': Track)
    requires Alone(c) && Reachable(c, s) && OnTheTrack(c, s, 0, k) && FreshKeys(name, s, k.made) && !Inside(s.sweeper) && ManagerGoes(k, k')
    ensures LeadsTo(c, s, ByManager(0, ManagerDoes(s.mans[0])), k, k')
  {
    ManagerFollows(c, name, s, k, k');
    ManagerTurns(k, k', s.mans[0], CurrentBucket(c, s, 0));
  }

  lemma NextAction(c: Config, name: Naming, s: State, k: Track, k': Track) returns (a: Action)
    requires Alone(c) && ToFirst(c, name) && Reachable(c, s) && OnTheTrack(c, s, 0, k) && FreshKeys(name, s, k.made) && !Inside(s.sweeper)
    requires LeadsOn(c.need, true, 0, LIMITS, k, k') && !k.par.ReturningPackets?
    ensures LeadsTo(c, s, a, k, k') && StampsNext(name, a, k.made)
  {
    if GeneratorGoes(0, k, k') {
      GeneratorLeads(c, name, s, k, k');
      a := ByGenerator(0, GeneratorDoes(name, k));
    } else if ParserGoes(c.need, true, k, k') {
      ParserLeads(c, name, s, k, k');
      a := ByParser(0, ParserDoes(true, k.par));
    } else {
      ManagerLeads(c, name, s, k, k');
      a := ByManager(0, ManagerDoes(s.mans[0]));
    }
  }

  /** The other managers still have nothing to do. */
  lemma OthersStillWait(c: Config, s: State, a: Action, k: Track, k': Track)
    requires OthersWait(s) && LeadsTo(c, s, a, k, k')
    ensures OthersWait(Step(c, s, a)) && Step(c, s, a).sweeper == s.sweeper
  {
    OthersUntouched(c, s, a);
    Ideal.StepMoves(c, s, a);
    QueuesStayEmpty(s, Moves(c, s, a), Step(c, s, a));
  }

  lemma QueuesStayEmpty(s: State, t: Transfer, s': State)
    requires OthersWait(s) && Available(s.at, t) && s'.at == Carry(s.at, t) && (t.Transfer? ==> !(t.to.ManagerQueue? && t.to.i != 0))
    requires |s'.mans| == |s.mans| && forall h :: 0 < h < |s.mans| ==> s'.mans[h] == s.mans[h]
    ensures OthersWait(s')
  {
    CarryLengths(s.at, t);
    forall h: nat | 0 < h < |s'.mans| ensures s'.mans[h].MIdle? && At(s'.at, ManagerQueue(h)) == [] {
      var _ := At(s.at, ManagerQueue(h));
    }
  }

  lemma OthersUntouched(c: Config, s: State, a: Action)
    requires Enabled(c, s, a) && !a.BySweeper? && (a.ByManager? ==> a.k == 0)
    requires a.ByParser? && a.p.SendFlow? && s.pars[a.j].Offering? ==> s.pars[a.j].k == 0
    ensures Step(c, s, a).sweeper == s.sweeper && |Step(c, s, a).mans| == |s.mans|
    ensures forall h :: 0 < h < |s.mans| ==> Step(c, s, a).mans[h] == s.mans[h]
    ensures var t := Moves(c, s, a); t.Transfer? ==> !(t.to.ManagerQueue? && t.to.i != 0)
  {
  }

  /** A step along the track, and what stays true. */
  ghost predicate StepsTo(c: Config, name: Naming, s: State, k: Track, a: Action, s': State, k': Track) {
    && NamedStep(c, name, s, k.made, a, s', k'.made) && k'.steps == k.steps + 1
    && FreshKeys(name, s', k'.made) && Reachable(c, s') && OthersWait(s') && s'.sweeper == s.sweeper && OnTheTrack(c, s', 0, k')
  }

  lemma NextStep(c: Config, name: Naming, s: State, k: Track, k': Track) returns (a: Action, s': State)
    requires Alone(c) && ToFirst(c, name) && NoneAlike(name) && Reachable(c, s) && OnTheTrack(c, s, 0, k) && FreshKeys(name, s, k.made)
    requires !Inside(s.sweeper) && OthersWait(s) && LeadsOn(c.need, true, 0, LIMITS, k, k') && !k.par.ReturningPackets?
    ensures StepsTo(c, name, s, k, a, s', k')
  {
    a := NextAction(c, name, s, k, k');
    s' := Step(c, s, a);
    Ideal.ReachableInv(c, s);
    FreshKeysStep(name, c, s, k.made, a);
    ReachableStep(c, s, a, s');
    OthersStillWait(c, s, a, k, k');
  }

  lemma RunsAlong(c: Config, name: Naming, init: State, s: State, k: Track, a: Action, s': State, k': Track)
    requires RunsTo(c, name, init, s, k.made, k.steps) && StepsTo(c, name, s, k, a, s', k')
    ensures RunsTo(c, name, init, s', k'.made, k'.steps)
  {
    var acts :| RunsBy(c, name, init, acts, s, k.made, k.steps);
    NamedRunOn(c, name, init, 0, acts, s, k.made, a, s', k'.made);
    assert RunsBy(c, name, init, acts + [a], s', k'.made, k.steps + 1);
  }

  lemma TrackStep(c: Config, name: Naming, init: State, s: State, k: Track, k': Track) returns (s': State)
    requires Alone(c) && ToFirst(c, name) && NoneAlike(name) && AtStart(init.sweeper) && Sees(c, name, init, s, k)
    requires LeadsOn(c.need, true, 0, LIMITS, k, k') && !k.par.ReturningPackets?
    ensures Sees(c, name, init, s', k')
  {
    var a;
    a, s' := NextStep(c, name, s, k, k');
    RunsAlong(c, name, init, s, k, a, s', k');
  }

  lemma TrackOn(c: Config, name: Naming, init: State, k: Track, k': Track)
    requires Alone(c) && ToFirst(c, name) && NoneAlike(name) && AtStart(init.sweeper) && CanSee(c, name, init, k)
    requires LeadsOn(c.need, true, 0, LIMITS, k, k') && !k.par.ReturningPackets?
    ensures CanSee(c, name, init, k')
  {
    var s :| Sees(c, name, init, s, k);
    var s' := TrackStep(c, name, init, s, k, k');
  }

  lemma StaysDeep(need: nat, k: Track, k': Track)
    requires LeadsOn(need, true, 0, LIMITS, k, k') && !k.par.ReturningPackets?
    ensures !k'.par.ReturningPackets?
  {
  }

  lemma TrackClosed(c: Config, name: Naming, init: State)
    requires Alone(c) && ToFirst(c, name) && NoneAlike(name) && AtStart(init.sweeper)
    ensures Closed(c.need, true, 0, LIMITS, k => CanSee(c, name, init, k) && !k.par.ReturningPackets?)
  {
    forall k, k' | CanSee(c, name, init, k) && !k.par.ReturningPackets? && LeadsOn(c.need, true, 0, LIMITS, k, k')
      ensures CanSee(c, name, init, k') && !k'.par.ReturningPackets?
    {
      TrackOn(c, name, init, k, k');
      StaysDeep(c.need, k, k');
    }
  }

  // ---------------------------------------------------------------- where the run goes

  /** The parser has taken a batch of packets and of flow items and filled these. */
  function Loaded(k: Track): Track
    requires k.queue >= BATCH && k.flowPool >= BATCH
  {
    k.(par := Handing, queue := k.queue - BATCH, flowPool := k.flowPool - BATCH, packets := BATCH, flows := BATCH, steps := k.steps + 5)
  }

  lemma TakeBatches(need: nat, holds: Track -> bool, k: Track)
    requires Closed(need, true, 0, LIMITS, holds) && holds(k) && k.par.PIdle? && k.packets == k.flows == 0 && InLimits(k, LIMITS)
    requires BATCH <= need <= k.queue && need <= k.flowPool
    ensures holds(Loaded(k))
  {
    var k1 := k.(par := Got, queue := k.queue - BATCH, packets := BATCH, steps := k.steps + 1);
    var k2 := k1.(par := WantingFlows, steps := k.steps + 2);
    var k3 := k2.(par := GotFlows, flowPool := k.flowPool - BATCH, flows := BATCH, steps := k.steps + 3);
    var k4 := k3.(par := Filled, steps := k.steps + 4);
    assert LeadsOn(need, true, 0, LIMITS, k, k1);
    assert LeadsOn(need, true, 0, LIMITS, k1, k2);
    assert LeadsOn(need, true, 0, LIMITS, k2, k3);
    assert LeadsOn(need, true, 0, LIMITS, k3, k4);
    assert LeadsOn(need, true, 0, LIMITS, k4, Loaded(k));
  }

  /** The parser has handed `n` flow items to the manager's queue. */
  function HandedOn(k: Track, n: nat): Track
    requires n <= k.packets && n <= k.flows
  {
    k.(par := if n == k.flows then PIdle else Handing, packets := k.packets - n, flows := k.flows - n,
       managerQueue := k.managerQueue + n, steps := k.steps + 2 * n)
  }

  lemma {:induction false} HandMany(need: nat, holds: Track -> bool, k: Track, n: nat)
    requires Closed(need, true, 0, LIMITS, holds) && holds(k) && k.par.Handing? && InLimits(k, LIMITS)
    requires n <= k.packets == k.flows && k.flows > 0 && k.managerQueue + n <= RING_CAPACITY
    ensures holds(HandedOn(k, n))
  {
    if n == 0 {
      assert HandedOn(k, 0) == k;
    } else {
      HandMany(need, holds, k, n - 1);
      var k1 := HandedOn(k, n - 1).(par := Offering(0), packets := HandedOn(k, n - 1).packets - 1, steps := HandedOn(k, n - 1).steps + 1);
      assert LeadsOn(need, true, 0, LIMITS, HandedOn(k, n - 1), k1);
      assert LeadsOn(need, true, 0, LIMITS, k1, HandedOn(HandedOn(k, n - 1), 1));
      assert HandedOn(HandedOn(k, n - 1), 1) == HandedOn(k, n);
    }
  }

  /** The manager has taken up a flow item and finds no session for it. */
  function TakenUp(k: Track): Track
    requires k.managerQueue > 0
  {
    k.(man := WantingNode(0), managerQueue := k.managerQueue - 1, steps := k.steps + 4)
  }

  lemma TakeUp(need: nat, holds: Track -> bool, k: Track)
    requires Closed(need, true, 0, LIMITS, holds) && holds(k) && k.man.MIdle? && k.managerQueue > 0 && InLimits(k, LIMITS)
    ensures holds(TakenUp(k))
  {
    var k1 := k.(man := Taken, managerQueue := k.managerQueue - 1, steps := k.steps + 1);
    var k2 := k1.(man := Locking, steps := k.steps + 2);
    var k3 := k2.(man := Searching(0), steps := k.steps + 3);
    assert LeadsOn(need, true, 0, LIMITS, k, k1);
    assert LeadsOn(need, true, 0, LIMITS, k1, k2);
    assert LeadsOn(need, true, 0, LIMITS, k2, k3);
    assert LeadsOn(need, true, 0, LIMITS, k3, TakenUp(k));
  }

  /** The manager has made a session. */
  function FiledOne(k: Track): Track
    requires k.nodes > 0
  {
    k.(man := MIdle, nodes := k.nodes - 1, pool := k.pool + 1, poolPuts := k.poolPuts + 1, flowPool := k.flowPool + 1, steps := k.steps + 6)
  }

  lemma FileOne(need: nat, holds: Track -> bool, k: Track)
    requires Closed(need, true, 0, LIMITS, holds) && holds(k) && k.man == WantingNode(0) && k.nodes > 0 && InLimits(FiledOne(k), LIMITS)
    ensures holds(FiledOne(k))
  {
    var k1 := k.(man := Copying(0), nodes := k.nodes - 1, steps := k.steps + 1);
    var k2 := k1.(man := ReleasingPacket(Fresh(0)), steps := k.steps + 2);
    var k3 := k2.(man := ReleasingFlow(Fresh(0)), pool := k.pool + 1, poolPuts := k.poolPuts + 1, steps := k.steps + 3);
    var k4 := k3.(man := Linking(0), flowPool := k.flowPool + 1, steps := k.steps + 4);
    assert LeadsOn(need, true, 0, LIMITS, k, k1);
    assert LeadsOn(need, true, 0, LIMITS, k1, k2);
    assert LeadsOn(need, true, 0, LIMITS, k2, k3);
    assert LeadsOn(need, true, 0, LIMITS, k3, k4);
    LinkOne(need, holds, k4);
  }

  lemma LinkOne(need: nat, holds: Track -> bool, k: Track)
    requires Closed(need, true, 0, LIMITS, holds) && holds(k) && k.man == Linking(0) && InLimits(k, LIMITS)
    ensures holds(k.(man := MIdle, steps := k.steps + 2))
  {
    var k1 := k.(man := Unlocking(0), steps := k.steps + 1);
    assert LeadsOn(need, true, 0, LIMITS, k, k1);
    assert LeadsOn(need, true, 0, LIMITS, k1, k.(man := MIdle, steps := k.steps + 2));
  }

  /** `n` flow items of the manager's queue have become sessions. */
  function Settled(k: Track, n: nat): Track
    requires n <= k.managerQueue && n <= k.nodes
  {
    k.(managerQueue := k.managerQueue - n, nodes := k.nodes - n, pool := k.pool + n, poolPuts := k.poolPuts + n,
       flowPool := k.flowPool + n, steps := k.steps + 10 * n)
  }

  lemma {:induction false} FileMany(need: nat, holds: Track -> bool, k: Track, n: nat)
    requires Closed(need, true, 0, LIMITS, holds) && holds(k) && k.man.MIdle? && n <= k.managerQueue && n <= k.nodes && InLimits(Settled(k, n), LIMITS)
    ensures holds(Settled(k, n))
  {
    if n == 0 {
      assert Settled(k, 0) == k;
    } else {
      FileMany(need, holds, k, n - 1);
      TakeUp(need, holds, Settled(k, n - 1));
      FileOne(need, holds, TakenUp(Settled(k, n - 1)));
      assert FiledOne(TakenUp(Settled(k, n - 1))) == Settled(k, n);
    }
  }

  /** After `r` batches, 1024 times 64 in all. */
  function Cruising(need: nat, r: nat): Track
    requires BATCH <= need <= BATCH + 1 && r <= RING_CAPACITY
  {
    var extra := need - BATCH;
    BuiltTo(START, RING_CAPACITY).(
      pool := RING_CAPACITY - extra, queue := extra, nodes := SESSION_CAPACITY - BATCH * r, made := RING_CAPACITY + extra + BATCH * r,
      poolPuts := 2 * RING_CAPACITY + BATCH * r, queuePuts := extra + BATCH * r,
      steps := 2 * RING_CAPACITY + 4 * extra + 1029 * r)
  }

  /** One more batch of flow items is in the manager's queue. */
  function Brought(k: Track): Track
    requires k.pool >= BATCH && k.flowPool >= BATCH
  {
    HandedOn(Loaded(SentTo(k, BATCH)), BATCH)
  }

  lemma Bring(need: nat, holds: Track -> bool, r: nat)
    requires Closed(need, true, 0, LIMITS, holds) && BATCH <= need <= BATCH + 1 && r <= RING_CAPACITY && holds(Cruising(need, r))
    ensures holds(Brought(Cruising(need, r)))
  {
    var k := Cruising(need, r);
    SendMany(need, true, 0, LIMITS, holds, k, BATCH);
    TakeBatches(need, holds, SentTo(k, BATCH));
    HandMany(need, holds, Loaded(SentTo(k, BATCH)), BATCH);
  }

  lemma {:induction false} Rounds(need: nat, holds: Track -> bool, r: nat)
    requires Closed(need, true, 0, LIMITS, holds) && BATCH <= need <= BATCH + 1 && r <= RING_CAPACITY && holds(Cruising(need, 0))
    ensures holds(Cruising(need, r))
  {
    if r > 0 {
      Rounds(need, holds, r - 1);
      Bring(need, holds, r - 1);
      FileMany(need, holds, Brought(Cruising(need, r - 1)), BATCH);
      assert Settled(Brought(Cruising(need, r - 1)), BATCH) == Cruising(need, r);
    }
  }

  /** The nodes are used up, and the manager waits with the first flow item of one batch more. */
  function Exhausted(need: nat): Track
    requires BATCH <= need <= BATCH + 1
  {
    TakenUp(Brought(Cruising(need, RING_CAPACITY)))
  }

  lemma ToExhaustion(need: nat, holds: Track -> bool)
    requires Closed(need, true, 0, LIMITS, holds) && BATCH <= need <= BATCH + 1 && holds(START)
    ensures holds(Exhausted(need))
  {
    BuildMany(need, true, 0, LIMITS, holds, START, RING_CAPACITY);
    SendMany(need, true, 0, LIMITS, holds, BuiltTo(START, RING_CAPACITY), need - BATCH);
    assert SentTo(BuiltTo(START, RING_CAPACITY), need - BATCH) == Cruising(need, 0);
    Rounds(need, holds, RING_CAPACITY);
    Bring(need, holds, RING_CAPACITY);
    TakeUp(need, holds, Brought(Cruising(need, RING_CAPACITY)));
  }

  // ---------------------------------------------------------------- the rest comes to a stop

  /** With the manager waiting, `r` more batches of packets have gone into its queue. */
  function Piled(k: Track, r: nat): Track
    requires BATCH * r <= k.queue && BATCH * r <= k.flowPool
  {
    k.(queue := k.queue - BATCH * r, flowPool := k.flowPool - BATCH * r, managerQueue := k.managerQueue + BATCH * r, steps := k.steps + 133 * r)
  }

  lemma {:induction false} PileUp(need: nat, holds: Track -> bool, k: Track, r: nat)
    requires Closed(need, true, 0, LIMITS, holds) && holds(k) && k.par.PIdle? && k.packets == k.flows == 0 && InLimits(k, LIMITS)
    requires BATCH <= need && BATCH * r <= k.queue && BATCH * r <= k.flowPool && k.managerQueue + BATCH * r <= RING_CAPACITY
    requires r > 0 ==> k.queue - BATCH * (r - 1) >= need && k.flowPool - BATCH * (r - 1) >= need
    ensures holds(Piled(k, r))
  {
    if r == 0 {
      assert Piled(k, 0) == k;
    } else {
      PileUp(need, holds, k, r - 1);
      TakeBatches(need, holds, Piled(k, r - 1));
      HandMany(need, holds, Loaded(Piled(k, r - 1)), BATCH);
      assert HandedOn(Loaded(Piled(k, r - 1)), BATCH) == Piled(k, r);
    }
  }

  /** All packets are with the manager, in its queue or in a rest of the parser's queue that is short
      of a batch. */
  function AtRest(need: nat): Track
    requires BATCH <= need <= BATCH + 1
  {
    var k := Exhausted(need);
    Piled(SentTo(k, k.pool), 14 + (BATCH + 1 - need))
  }

  // ---------------------------------------------------------------- the start and the end

  lemma RunStarts(c: Config, name: Naming, pc: SweeperPc)
    requires Alone(c) && AtStart(pc)
    ensures CanSee(c, name, InitialState(c, pc), START)
  {
    var s := InitialState(c, pc);
    InitialStateIsInit(c, pc);
    FreshKeysStart(name, c, s);
    Ideal.InitPools(c, s);
    StartOnTrack(c, 0, pc);
    assert NamedRun(c, name, s, 0, [], s, 0) && RunsBy(c, name, s, [], s, 0, 0);
    assert Sees(c, name, s, s, START);
  }

  /** No thread can step. */
  ghost predicate Stopped(c: Config, s: State) { forall a :: !Enabled(c, s, a) }

  /** The sweeper has not been started, or it is about to enter the bucket that the first manager
      has locked. */
  predicate SweeperStops(s: State) {
    s.sweeper.Off? || (s.sweeper.SIdle? && s.sweeper.m == 0 && |s.mans| > 0 && s.mans[0] == WantingNode(s.sweeper.b))
  }

  /** Nothing is left to do but to wait. */
  predicate IsRest(need: nat, k: Track) {
    k.gen.GIdle? && k.pool == 0 && k.par.PIdle? && k.queue < need && k.man.WantingNode? && k.nodes == 0 && k.steps < 2_000_000
  }

  ghost predicate NothingToDo(c: Config, s: State) {
    && |s.gens| == c.g == 1 && s.gens[0].pc.GIdle? && At(s.at, PacketPool(0)) == []
    && |s.pars| == c.p == 1 && s.pars[0].PIdle? && |At(s.at, ParserQueue(0))| < c.need
    && |s.mans| == c.m > 0 && s.mans[0].WantingNode? && At(s.at, SessionPool(0)) == [] && OthersWait(s)
  }

  lemma NoneEnabled(c: Config, s: State, a: Action)
    requires c.Valid() && Reachable(c, s) && NothingToDo(c, s) && SweeperStops(s)
    ensures !Enabled(c, s, a)
  {
    match a
    case ByGenerator(i, g) => GeneratorsStopped(c, s, i, g);
    case ByParser(j, p) => ParsersStopped(c, s, j, p);
    case ByManager(h, m) => ManagersStopped(c, s, h, m);
    case BySweeper(w) => SweeperStopped(c, s, w);
  }

  lemma GeneratorsStopped(c: Config, s: State, i: nat, g: GeneratorAct)
    requires |s.gens| == c.g == 1 && s.gens[0].pc.GIdle? && At(s.at, PacketPool(0)) == []
    ensures !GeneratorEnabled(c, s, i, g)
  {
  }

  lemma ParsersStopped(c: Config, s: State, j: nat, p: ParserAct)
    requires |s.pars| == c.p == 1 && s.pars[0].PIdle? && |At(s.at, ParserQueue(0))| < c.need
    ensures !ParserEnabled(c, s, j, p)
  {
  }

  lemma ManagersStopped(c: Config, s: State, h: nat, m: ManagerAct)
    requires |s.mans| == c.m && OthersWait(s) && c.m > 0 && s.mans[0].WantingNode? && At(s.at, SessionPool(0)) == []
    ensures !ManagerEnabled(c, s, h, m)
  {
    if h > 0 {
      var _ := ManagerQueue(h);
    }
  }

  lemma SweeperStopped(c: Config, s: State, w: SweeperAct)
    requires c.Valid() && Reachable(c, s) && SweeperStops(s)
    ensures !SweeperEnabled(c, s, w)
  {
    Ideal.ReachableInv(c, s);
    if s.sweeper.SIdle? {
      assert HasLock(s.mans[0], s.sweeper.b);
    }
  }

  /** All of them go to the manager's first bucket too. */
  ghost predicate ToOneBucket(c: Config, name: Naming) { forall n: nat :: n < NAMES ==> c.BucketOf(name(n)) == 0 }

  /** From the start to a state in which no thread can step, all packets being somewhere in between. */
  lemma RunStops(c: Config, name: Naming, pc: SweeperPc) returns (acts: seq<Action>, s: State, n: nat)
    requires Alone(c) && ToFirst(c, name) && NoneAlike(name)
    requires pc == Off || (pc == SIdle(0, 0) && ToOneBucket(c, name))
    ensures |acts| < 2_000_000 && NamedRun(c, name, InitialState(c, pc), 0, acts, s, n)
    ensures Reachable(c, s) && Stopped(c, s) && |s.mans| == c.m && Starved(s, 0)
  {
    var init := InitialState(c, pc);
    RunStarts(c, name, pc);
    TrackClosed(c, name, init);
    ToRest(c.need, k => CanSee(c, name, init, k) && !k.par.ReturningPackets?);
    acts, s, n := EndsStopped(c, name, init);
  }

  lemma ToRest(need: nat, holds: Track -> bool)
    requires Closed(need, true, 0, LIMITS, holds) && BATCH <= need <= BATCH + 1 && holds(START)
    ensures holds(AtRest(need))
  {
    ToExhaustion(need, holds);
    var k := Exhausted(need);
    SendMany(need, true, 0, LIMITS, holds, k, k.pool);
    PileUp(need, holds, SentTo(k, k.pool), 14 + (BATCH + 1 - need));
  }

  lemma EndsStopped(c: Config, name: Naming, init: State) returns (acts: seq<Action>, s: State, n: nat)
    requires Alone(c) && CanSee(c, name, init, AtRest(c.need)) && (init.sweeper == Off || (init.sweeper == SIdle(0, 0) && ToOneBucket(c, name)))
    ensures |acts| < 2_000_000 && NamedRun(c, name, init, 0, acts, s, n)
    ensures Reachable(c, s) && Stopped(c, s) && |s.mans| == c.m && Starved(s, 0)
  {
    acts, s, n := SeenAtRest(c, name, init, AtRest(c.need));
  }

  lemma SeenAtRest(c: Config, name: Naming, init: State, k: Track) returns (acts: seq<Action>, s: State, n: nat)
    requires Alone(c) && CanSee(c, name, init, k) && IsRest(c.need, k)
    requires init.sweeper == Off || (init.sweeper == SIdle(0, 0) && ToOneBucket(c, name))
    ensures |acts| < 2_000_000 && NamedRun(c, name, init, 0, acts, s, n)
    ensures Reachable(c, s) && Stopped(c, s) && |s.mans| == c.m && Starved(s, 0)
  {
    s :| Sees(c, name, init, s, k);
    acts := RunOf(c, name, init, s, k.made, k.steps);
    n := k.made;
    StopsAtRest(c, name, s, k);
  }

  lemma RunOf(c: Config, name: Naming, init: State, s: State, n: nat, steps: nat) returns (acts: seq<Action>)
    requires RunsTo(c, name, init, s, n, steps)
    ensures |acts| <= steps && NamedRun(c, name, init, 0, acts, s, n)
  {
    acts :| RunsBy(c, name, init, acts, s, n, steps);
  }

  lemma StopsAtRest(c: Config, name: Naming, s: State, k: Track)
    requires Alone(c) && Reachable(c, s) && OnTheTrack(c, s, 0, k) && FreshKeys(name, s, k.made) && OthersWait(s) && IsRest(c.need, k)
    requires s.sweeper == Off || (s.sweeper == SIdle(0, 0) && ToOneBucket(c, name))
    ensures Stopped(c, s) && |s.mans| == c.m && Starved(s, 0)
  {
    if s.sweeper.SIdle? {
      Ideal.ReachableInv(c, s);
      // With the flow in the manager's hands goes the bucket that it is in.
      var f := Hand(s, ManagerFlow(0));
      assert ManagerShape(s, 0) && ManagerKnows(c, s, 0);
      assert Holds(s.at, ManagerFlow(0), 0, f) && Fits(c, ManagerFlow(0), f) && CargoOf(s, f, true);
      assert Holds(s.at, Carried(f), 0, PacketOf(s, f)) && Flying(s, Carried(f));
      assert Aloft(s, PacketOf(s, f));
    }
    forall a ensures !Enabled(c, s, a) {
      NoneEnabled(c, s, a);
    }
  }

}
