/** The bound of the progress theorem is exact: a generator that feeds more parsers can
    strand all its packets in queues too short for a batch, and never recovers. */
module PipelineWedge {
  import opened Common
  import opened Ledger
  import opened FlowKey
  import opened Pipeline
  import opened PipelineInvariant
  import opened PipelineSafety
  import opened PipelineTheorems
  import opened PipelineProgress
  import opened PipelineStranding

  // ---------------------------------------------------------------- shallow runs

  /** With `pipe_depth` below 5 a manager never looks at its session table. */
  predicate StaysShallow(pc: ManagerPc) {
    pc.MIdle? || pc.Taken? || ((pc.ReleasingPacket? || pc.ReleasingFlow?) && pc.mode.Shallow?)
  }

  ghost predicate ShallowRun(acts: seq<Action>) {
    forall n :: 0 <= n < |acts| ==> !(acts[n].ByManager? && acts[n].m.GoDeep?)
  }

  /** So in a run with `pipe_depth` below 5 no manager waits for a session node. */
  lemma {:induction false} ShallowNeverStarves(c: Config, s: State, acts: seq<Action>, t: State)
    requires IsRun(c, s, acts, t) && ShallowRun(acts)
    requires forall k {:trigger s.mans[k]} :: 0 <= k < |s.mans| ==> StaysShallow(s.mans[k])
    ensures |t.mans| == |s.mans| && forall k {:trigger t.mans[k]} :: 0 <= k < |t.mans| ==> StaysShallow(t.mans[k]) && !Starved(t, k)
    decreases |acts|
  {
    if acts != [] {
      var s' := Step(c, s, acts[0]);
      assert |s'.mans| == |s.mans|;
      forall k | 0 <= k < |s'.mans| ensures StaysShallow(s'.mans[k]) {
        assert StaysShallow(s.mans[k]);
      }
      ShallowNeverStarves(c, s', acts[1..], t);
    }
    forall k | 0 <= k < |t.mans| ensures StaysShallow(t.mans[k]) && !Starved(t, k) { var _ := t.mans[k]; }
  }

  /** A shallow manager that has something to do can do it, whatever the sweeper does. */
  lemma ShallowChoice(c: Config, s: State, k: nat) returns (a: ManagerAct)
    requires c.Valid() && Reachable(c, s) && k < c.m && |s.mans| == c.m && StaysShallow(s.mans[k])
    requires !(s.mans[k].MIdle? && At(s.at, ManagerQueue(k)) == [])
    ensures ManagerEnabled(c, s, k, a) && !a.GoDeep?
  {
    ReachableInv(c, s);
    ManagerNeverRetries(c, s, k);
    assert ManagerShape(s, k);
    a := if s.mans[k].MIdle? then TakeFlow
         else if s.mans[k].Taken? then StayShallow
         else if s.mans[k].ReleasingPacket? then ReleasePacket else ReleaseFlow;
  }

  /** Deadlock freedom: in every run with `pipe_depth` below 5, a generator that feeds few
      enough parsers, one of those parsers or a manager can take a step that keeps the run
      below that depth. */
  lemma ShallowProgress(c: Config, s0: State, acts: seq<Action>, s: State, i: nat) returns (a: Action)
    requires c.Valid() && Init(c, s0) && IsRun(c, s0, acts, s) && ShallowRun(acts)
    requires i < c.g && !Overfed(c, i)
    ensures Enabled(c, s, a) && Concerns(c, i, a) && ShallowRun(acts + [a])
  {
    assert Reachable(c, s);
    ShallowNeverStarves(c, s0, acts, s);
    if k: nat :| k < c.m && !(s.mans[k].MIdle? && At(s.at, ManagerQueue(k)) == []) {
      var _ := s.mans[k];
      var m := ShallowChoice(c, s, k);
      a := ByManager(k, m);
    } else {
      a := IdleManagersProgress(c, s, i);
    }
  }

  // ---------------------------------------------------------------- wedged generators

  /** Generator `i` waits; all its packets are in the queues of its parsers, which wait too. */
  ghost predicate Wedged(c: Config, s: State, i: nat)
    requires c.Valid() && i < c.g
  {
    && |s.gens| == c.g && |s.pars| == c.p
    && s.gens[i].pc.GIdle?
    && Total(s.at, FedQueues(c, i)) == RING_CAPACITY
    && forall j {:trigger ParserQueue(j)} :: 0 <= j < c.p && j % c.g == i ==>
         s.pars[j].PIdle? && |At(s.at, ParserQueue(j))| < c.need
  }

  /** All packets of a wedged generator are in those queues. */
  lemma WedgedElsewhere(c: Config, s: State, i: nat, p: Place, n: int, x: Obj)
    requires Inv(c, s) && i < c.g && Wedged(c, s, i)
    requires Holds(s.at, p, n, x) && x.Packet? && x.home == i
    ensures p in FedQueues(c, i)
  {
    var ps := FedQueues(c, i);
    FedQueuesDistinct(c, i);
    UnionSize(s.at, ps);
    FamilySize(x, RING_CAPACITY);
    forall y | y in Union(s.at, ps) ensures y in Family(x, RING_CAPACITY) {
      InUnion(s.at, ps, y);
      var q, m :| q in ps && Holds(s.at, q, m, y);
      assert Fits(c, q, y);
      InFedQueues(c, i, q.i);
    }
    SubsetEqual(Union(s.at, ps), Family(x, RING_CAPACITY));
    assert Fits(c, p, x);
    InUnion(s.at, ps, x);
  }

  lemma {:induction false} TotalSame(l: Book, l': Book, ps: seq<Place>)
    requires forall p :: p in ps ==> At(l', p) == At(l, p)
    ensures Total(l', ps) == Total(l, ps)
  {
    if ps != [] {
      TotalSame(l, l', ps[1..]);
    }
  }

  lemma FarUntouched(c: Config, s: State, i: nat, a: Action, j: nat)
    requires c.Valid() && Enabled(c, s, a) && j < |s.pars| && j % c.g == i && !(a.ByParser? && a.j % c.g == i)
    requires var t := Moves(c, s, a); t.Transfer? ==> !Near(c, i, t.from) && !Near(c, i, t.to)
    ensures j < |Step(c, s, a).pars| && Step(c, s, a).pars[j] == s.pars[j]
    ensures At(Step(c, s, a).at, ParserQueue(j)) == At(s.at, ParserQueue(j))
  {
    StepMoves(c, s, a);
    CarryAt(s.at, Moves(c, s, a));
    assert Near(c, i, ParserQueue(j));
  }

  /** A wedged generator stays wedged, whatever the other threads do. */
  lemma WedgedForever(c: Config, s: State, i: nat, a: Action)
    requires Inv(c, s) && i < c.g && Wedged(c, s, i) && Enabled(c, s, a)
    ensures Wedged(c, Step(c, s, a), i)
  {
    var s' := Step(c, s, a);
    StepInv(c, s, a);
    if a.ByGenerator? && a.i == i && At(s.at, PacketPool(i)) != [] {
      var x := At(s.at, PacketPool(i))[0];
      assert Holds(s.at, PacketPool(i), 0, x) && Fits(c, PacketPool(i), x);
      WedgedElsewhere(c, s, i, PacketPool(i), 0, x);
    }
    forall j | 0 <= j < c.p && j % c.g == i
      ensures s'.pars[j] == s.pars[j] && At(s'.at, ParserQueue(j)) == At(s.at, ParserQueue(j))
    {
      // No thread can touch the queues of a wedged generator.
      forall p: Place, k, x: Obj | Holds(s.at, p, k, x) && x.Packet? && x.home == i ensures Near(c, i, p) {
        WedgedElsewhere(c, s, i, p, k, x);
        InFedQueues(c, i, p.i);
      }
      if a.ByParser? {
        var _ := ParserQueue(a.j);
      }
      MovesFar(c, s, i, a);
      FarUntouched(c, s, i, a, j);
    }
    forall p | p in FedQueues(c, i) ensures At(s'.at, p) == At(s.at, p) {
      InFedQueues(c, i, p.i);
      var _ := ParserQueue(p.i);
    }
    TotalSame(s.at, s'.at, FedQueues(c, i));
  }

  // ---------------------------------------------------------------- a run into the wedge

  function PoolOfKind(x: Obj): seq<Obj> {
    seq(Capacity(x), n requires 0 <= n < Capacity(x) => x.(slot := n))
  }

  /** What is in the pools once they have all been filled. */
  function FullPools(c: Config): Book {
    var packets := map i | 0 <= i < c.g :: PacketPool(i) := PoolOfKind(Packet(i, 0));
    var flows := map j | 0 <= j < c.p :: FlowPool(j) := PoolOfKind(Flow(j, 0));
    var sessions := map k | 0 <= k < c.m :: SessionPool(k) := PoolOfKind(Session(k, 0));
    packets + flows + sessions
  }

  /** The state right after that. */
  function InitialState(c: Config, pc: SweeperPc): State {
    var owners := map j, n | 0 <= j < c.p && 0 <= n < RING_CAPACITY :: Flow(j, n) := j;
    State(FullPools(c),
          seq(c.g, i requires 0 <= i < c.g => Generator(Building(0), i)),
          seq(c.p, _ => PIdle), seq(c.m, _ => MIdle), pc, owners, map[], map[], {})
  }

  lemma FullPoolsAt(c: Config, p: Place)
    ensures At(FullPools(c), p) == match p
      case PacketPool(h) => if h < c.g then PoolOfKind(Packet(h, 0)) else []
      case FlowPool(h) => if h < c.p then PoolOfKind(Flow(h, 0)) else []
      case SessionPool(h) => if h < c.m then PoolOfKind(Session(h, 0)) else []
      case _ => []
  {
  }

  /** Initial states exist. */
  lemma InitialStateIsInit(c: Config, pc: SweeperPc)
    requires c.Valid() && AtStart(pc)
    ensures Init(c, InitialState(c, pc)) && Reachable(c, InitialState(c, pc))
  {
    var s := InitialState(c, pc);
    forall p, i, x ensures Holds(s.at, p, i, x) <==> Real(c, x) && p == PoolPlace(x, x.home) && i == x.slot {
      FullPoolsAt(c, p);
    }
    assert IsRun(c, s, [], s);
  }

  lemma {:induction false} RunOn(c: Config, s: State, acts: seq<Action>, t: State, a: Action)
    requires IsRun(c, s, acts, t) && Enabled(c, t, a)
    ensures IsRun(c, s, acts + [a], Step(c, t, a))
    decreases |acts|
  {
    if acts == [] {
      assert [a][1..] == [];
      assert IsRun(c, Step(c, t, a), [], Step(c, t, a));
    } else {
      RunOn(c, Step(c, s, acts[0]), acts[1..], t, a);
      assert (acts + [a])[1..] == acts[1..] + [a];
    }
  }

  lemma ReachableStep(c: Config, s: State, a: Action, s': State)
    requires Reachable(c, s) && Enabled(c, s, a) && s' == Step(c, s, a)
    ensures Reachable(c, s')
  {
    var s0, acts :| Init(c, s0) && IsRun(c, s0, acts, s);
    RunOn(c, s0, acts, s, a);
  }

  /** The state can be reached, and from `init` in at most `n` steps. */
  ghost predicate ReachedIn(c: Config, init: State, t: State, n: nat) {
    Reachable(c, t) && exists acts :: |acts| <= n && IsRun(c, init, acts, t)
  }

  lemma ReachedStep(c: Config, init: State, t: State, a: Action, n: nat)
    requires ReachedIn(c, init, t, n) && Enabled(c, t, a)
    ensures ReachedIn(c, init, Step(c, t, a), n + 1)
  {
    var acts :| |acts| <= n && IsRun(c, init, acts, t);
    RunOn(c, init, acts, t, a);
    assert |acts + [a]| <= n + 1;
    var s0, acts0 :| Init(c, s0) && IsRun(c, s0, acts0, t);
    RunOn(c, s0, acts0, t, a);
  }

  /** A step of generator `i`. */
  lemma GoOn(c: Config, init: State, s: State, i: nat, a: GeneratorAct, n: nat) returns (s': State)
    requires ReachedIn(c, init, s, n) && GeneratorEnabled(c, s, i, a)
    ensures s' == GeneratorStep(c, s, i, a) && ReachedIn(c, init, s', n + 1)
  {
    ReachedStep(c, init, s, ByGenerator(i, a), n);
    s' := GeneratorStep(c, s, i, a);
  }

  /** Generator `i` has done `n` turns of its first pass over the pool. */
  ghost predicate Built(c: Config, init: State, s: State, i: nat, n: nat) {
    && c.Valid() && i < c.g && |s.gens| == c.g && n <= RING_CAPACITY && ReachedIn(c, init, s, 2 * n)
    && s.gens[i].pc == (if n == RING_CAPACITY then GIdle else Building(n))
    && |At(s.at, PacketPool(i))| == RING_CAPACITY
  }

  lemma BuildOne(c: Config, init: State, s: State, i: nat, n: nat) returns (s': State)
    requires Built(c, init, s, i, n) && n < RING_CAPACITY
    ensures Built(c, init, s', i, n + 1)
  {
    GeneratorNeverRetries(c, s, i);
    CarryLengths(s.at, GeneratorMoves(s, i, BuildTake));
    var s1 := GoOn(c, init, s, i, BuildTake, 2 * n);
    s' := PutOne(c, init, s1, i, n);
  }

  lemma PutOne(c: Config, init: State, s: State, i: nat, n: nat) returns (s': State)
    requires c.Valid() && i < c.g && |s.gens| == c.g && n < RING_CAPACITY && ReachedIn(c, init, s, 2 * n + 1)
    requires s.gens[i].pc == BuildingOne(n) && |At(s.at, PacketPool(i))| == RING_CAPACITY - 1
    ensures Built(c, init, s', i, n + 1)
  {
    var put := BuildPut(Key(0, 0, 0, 0, 0));
    GeneratorNeverRetries(c, s, i);
    CarryLengths(s.at, GeneratorMoves(s, i, put));
    s' := GoOn(c, init, s, i, put, 2 * n + 1);
  }

  lemma {:induction false} BuildAll(c: Config, init: State, i: nat, n: nat) returns (s: State)
    requires Built(c, init, init, i, 0) && n <= RING_CAPACITY
    ensures Built(c, init, s, i, n)
  {
    s := init;
    if n > 0 {
      s := BuildAll(c, init, i, n - 1);
      s := BuildOne(c, init, s, i, n - 1);
    }
  }

  /** ... and has sent `n` packets since. */
  ghost predicate Dealt(c: Config, init: State, s: State, i: nat, n: nat) {
    && c.Valid() && i < c.g && |s.gens| == c.g && n <= RING_CAPACITY && ReachedIn(c, init, s, 2 * RING_CAPACITY + 4 * n)
    && s.gens[i].pc.GIdle? && |At(s.at, PacketPool(i))| == RING_CAPACITY - n
  }

  lemma DealOne(c: Config, init: State, s: State, i: nat, n: nat) returns (s': State)
    requires Dealt(c, init, s, i, n) && n < RING_CAPACITY
    ensures Dealt(c, init, s', i, n + 1)
  {
    TakeEffect(c, s, i);
    var s1 := GoOn(c, init, s, i, TakePacket, 2 * RING_CAPACITY + 4 * n);
    s' := PatchAndDeliver(c, init, s1, i, n);
  }

  lemma TakeEffect(c: Config, s: State, i: nat)
    requires i < c.g == |s.gens| && s.gens[i].pc.GIdle? && At(s.at, PacketPool(i)) != []
    ensures GeneratorEnabled(c, s, i, TakePacket)
    ensures var s' := GeneratorStep(c, s, i, TakePacket);
      |s'.gens| == c.g && s'.gens[i].pc.Held? && |At(s'.at, PacketPool(i))| == |At(s.at, PacketPool(i))| - 1
  {
    CarryLengths(s.at, GeneratorMoves(s, i, TakePacket));
  }

  lemma PatchAndDeliver(c: Config, init: State, s: State, i: nat, n: nat) returns (s': State)
    requires c.Valid() && i < c.g && |s.gens| == c.g && n < RING_CAPACITY && ReachedIn(c, init, s, 2 * RING_CAPACITY + 4 * n + 1)
    requires s.gens[i].pc.Held? && |At(s.at, PacketPool(i))| == RING_CAPACITY - n - 1
    ensures Dealt(c, init, s', i, n + 1)
  {
    var k := 2 * RING_CAPACITY + 4 * n + 1;
    var s1 := GoOn(c, init, s, i, Patch(Key(0, 0, 0, 0, 0)), k);
    var s2 := GoOn(c, init, s1, i, Forward, k + 1);
    s' := Deliver(c, init, s2, i, n);
  }

  lemma Deliver(c: Config, init: State, s: State, i: nat, n: nat) returns (s': State)
    requires c.Valid() && i < c.g && |s.gens| == c.g && n < RING_CAPACITY && ReachedIn(c, init, s, 2 * RING_CAPACITY + 4 * n + 3)
    requires s.gens[i].pc.Sending? && |At(s.at, PacketPool(i))| == RING_CAPACITY - n - 1
    ensures Dealt(c, init, s', i, n + 1)
  {
    GeneratorNeverRetries(c, s, i);
    CarryLengths(s.at, GeneratorMoves(s, i, SendPacket));
    s' := GoOn(c, init, s, i, SendPacket, 2 * RING_CAPACITY + 4 * n + 3);
  }

  lemma {:induction false} DealAll(c: Config, init: State, i: nat, n: nat) returns (s: State)
    requires Built(c, init, init, i, 0) && n <= RING_CAPACITY
    ensures Dealt(c, init, s, i, n)
  {
    if n == 0 {
      s := BuildAll(c, init, i, RING_CAPACITY);
    } else {
      s := DealAll(c, init, i, n - 1);
      s := DealOne(c, init, s, i, n - 1);
    }
  }

  lemma WedgeNeedsRoom(c: Config, s: State, i: nat)
    requires c.Valid() && i < c.g && Wedged(c, s, i)
    ensures Overfed(c, i)
  {
    forall j | 0 <= j < c.p && j % c.g == i ensures |At(s.at, ParserQueue(j))| < c.need { var _ := ParserQueue(j); }
    ShortQueues(c, s.at, i);
  }

  /** An overfed generator that sends all it can runs into the wedge within 6144 steps. */
  lemma OverfedWedges(c: Config, init: State, i: nat) returns (s: State)
    requires c.Valid() && i < c.g && Overfed(c, i) && Init(c, init)
    ensures ReachedIn(c, init, s, 6 * RING_CAPACITY) && Wedged(c, s, i)
  {
    assert IsRun(c, init, [], init);
    InitPools(c, init);
    var _ := PacketPool(i);
    s := DealAll(c, init, i, RING_CAPACITY);
    // An overfed generator that has emptied its pool is wedged.
    ReachableInv(c, s);
    assert GeneratorShape(c, s, i);
    var n := OverfedSent(c, s, i);
    forall j: nat | j < c.p && j % c.g == i ensures s.pars[j].PIdle? && |At(s.at, ParserQueue(j))| < c.need {
      NeverABatch(c, s, i, j);
    }
    var ps := FedQueues(c, i);
    FedQueuesDistinct(c, i);
    forall p, n, y | Holds(s.at, p, n, y) && Kin(Packet(i, 0), y) ensures p in ps {
      assert Near(c, i, p) && Fits(c, p, y);
      InFedQueues(c, i, p.i);
    }
    forall p, n, y | p in ps && Holds(s.at, p, n, y) ensures Kin(Packet(i, 0), y) {
      assert Fits(c, p, y);
      InFedQueues(c, i, p.i);
    }
    Conserved(c, s.at, ps, Packet(i, 0));
  }

  lemma ShortOfABatch(k: nat, need: nat)
    ensures need == BATCH ==> (k * (need - 1) >= RING_CAPACITY <==> k > 16)
    ensures need == BATCH + 1 ==> (k * (need - 1) >= RING_CAPACITY <==> k > 15)
  {
  }
}
