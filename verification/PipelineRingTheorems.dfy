/** The pipeline's guarantees over the rings themselves: over every run in which no batch has
    written back a counter that lost its upper half, such as any run in which the rings that
    batches are used on have carried fewer than 2^32 objects. */
module PipelineRingTheorems {
  import opened Common
  import opened Ledger
  import opened FlowKey
  import opened Pipeline
  import opened PipelineInvariant
  import opened PipelineProgress
  import PipelineStranding
  import opened PipelineWedge
  import opened PipelineRings
  import opened Routing
  import Ideal = PipelineTheorems
  import Ring
  import RingBatch

  // ---------------------------------------------------------------- initial states

  /** A new ring of `n` cells into which these objects were put one after the other. */
  ghost predicate JustFilled(r: Cells, n: nat, xs: seq<Obj>) {
    Ring.IsCapacity(n) && exists cells: seq<Obj> :: |cells| == n && r == FilledFrom(cells, xs)
  }

  ghost function FilledFrom(cells: seq<Obj>, xs: seq<Obj>): Cells
    requires Ring.IsCapacity(|cells|)
  {
    RingBatch.PutAll(Ring.State(cells, 0, 0), xs).0
  }

  /** Every ring has been filled with what the book says, and nothing is anywhere else. */
  ghost predicate FilledWith(m: Machine, l: Book) {
    && m.s.at == map[] && (forall p :: p in m.rings ==> IsRing(p))
    && (forall p {:trigger RingAt(m, p)} :: IsRing(p) ==>
          JustFilled(RingAt(m, p), Size(p), At(l, p)) && CarriedBy(m, p) == |At(l, p)|)
  }

  /** Every pool has been filled to capacity, and the threads start. */
  ghost predicate RingInit(c: Config, m: Machine) {
    FilledWith(m, FullPools(c)) && Init(c, m.s.(at := FullPools(c)))
  }

  /** A state of a run whose batches have not outlived their 32-bit locals. */
  ghost predicate Healthy(c: Config, m: Machine) {
    c.Valid() && exists m0, acts :: RingInit(c, m0) && HealthyRun(c, m0, acts, m)
  }

  ghost predicate HealthyRun(c: Config, m0: Machine, acts: seq<Action>, m: Machine) {
    RingRun(c, m0, acts, m) && WholeRun(c, m0, acts)
  }

  lemma FilledIs(r: Cells, n: nat, xs: seq<Obj>)
    requires JustFilled(r, n, xs) && |xs| <= n
    ensures Ring.Valid(r) && |r.cells| == n && Ring.Contents(r) == xs && r.enq == |xs| && r.deq == 0
  {
    var cells: seq<Obj> :| |cells| == n && r == FilledFrom(cells, xs);
    var e := Ring.State(cells, 0, 0);
    Ring.CapacityBound(n);
    RingBatch.PutAllAppends(e, xs);
    RingBatch.PutAllIs(e, xs);
    assert Ring.Contents(e) == [];
  }

  /** A book of rings that hold no more than they can. */
  ghost predicate OfRings(l: Book) {
    forall p {:trigger At(l, p)} :: if IsRing(p) then |At(l, p)| <= Size(p) else At(l, p) == []
  }

  lemma FullPoolsOfRings(c: Config)
    ensures OfRings(FullPools(c))
  {
    forall p ensures if IsRing(p) then |At(FullPools(c), p)| <= Size(p) else At(FullPools(c), p) == [] {
      FullPoolsAt(c, p);
    }
  }

  lemma FilledGood(m: Machine, l: Book)
    requires FilledWith(m, l) && OfRings(l)
    ensures Good(m) && Counted(m)
    ensures forall p {:trigger At(View(m).at, p)} :: At(View(m).at, p) == At(l, p)
  {
    forall p | IsRing(p)
      ensures Ring.Valid(RingAt(m, p)) && |RingAt(m, p).cells| == Size(p)
      ensures Ring.Contents(RingAt(m, p)) == At(l, p)
      ensures RingAt(m, p).enq == CarriedBy(m, p) && RingAt(m, p).deq == 0
    {
      FilledIs(RingAt(m, p), Size(p), At(l, p));
    }
    forall p ensures At(View(m).at, p) == At(l, p) {
      ViewAt(m, p);
    }
  }

  lemma InitRefines(c: Config, m: Machine)
    requires c.Valid() && RingInit(c, m)
    ensures Good(m) && Counted(m) && Init(c, View(m))
  {
    FullPoolsOfRings(c);
    FilledGood(m, FullPools(c));
    // Only what is where counts, not how the book is kept.
    forall p, i, x ensures Holds(View(m).at, p, i, x) <==> Real(c, x) && p == PoolPlace(x, x.home) && i == x.slot {
      assert Holds(View(m).at, p, i, x) <==> Holds(m.s.(at := FullPools(c)).at, p, i, x);
    }
    forall x: Obj | Real(c, x) && x.Flow? ensures PoolOf(View(m), x) == x.home {
      assert PoolOf(m.s.(at := FullPools(c)), x) == PoolOf(View(m), x);
    }
  }

  // ---------------------------------------------------------------- refinement

  lemma IdealRun(c: Config, m0: Machine, acts: seq<Action>, m: Machine)
    requires c.Valid() && RingInit(c, m0) && HealthyRun(c, m0, acts, m)
    ensures Good(m0) && Good(m) && Init(c, View(m0)) && IsRun(c, View(m0), acts, View(m))
  {
    InitRefines(c, m0);
    RunRefines(c, m0, acts, m);
  }

  /** The machine over the rings refines the pipeline over ideal queues. */
  lemma Refines(c: Config, m: Machine)
    requires Healthy(c, m)
    ensures Good(m) && Reachable(c, View(m))
  {
    var m0, acts :| RingInit(c, m0) && HealthyRun(c, m0, acts, m);
    IdealRun(c, m0, acts, m);
  }

  /** Any state reached with fewer than 2^32 objects through each ring that batches are used on. */
  lemma FewIsHealthy(c: Config, m0: Machine, acts: seq<Action>, m: Machine)
    requires c.Valid() && RingInit(c, m0) && RingRun(c, m0, acts, m) && CarriedFew(m)
    ensures Healthy(c, m)
  {
    InitRefines(c, m0);
    FewIsWhole(c, m0, acts, m);
    assert HealthyRun(c, m0, acts, m);
  }

  /** A step leads to such a state again, exactly if it leaves every ring in order. */
  lemma HealthyOn(c: Config, m: Machine, a: Action)
    requires Healthy(c, m) && CanStep(c, m, a)
    ensures Whole(c, m, a) ==> Healthy(c, Stepped(c, m, a))
    ensures !Whole(c, m, a) ==> !InOrder(Stepped(c, m, a))
  {
    Refines(c, m);
    InOrderIff(c, m, a);
    if Whole(c, m, a) {
      HealthyStep(c, m, a, Stepped(c, m, a));
    }
  }

  lemma HealthyStep(c: Config, m: Machine, a: Action, m': Machine)
    requires Healthy(c, m) && IsStep(c, m, a, m')
    ensures Healthy(c, m')
  {
    var m0, acts :| RingInit(c, m0) && HealthyRun(c, m0, acts, m);
    RunOneMore(c, m0, acts, m, a, m');
    assert HealthyRun(c, m0, acts + [a], m');
  }

  ghost predicate IsStep(c: Config, m: Machine, a: Action, m': Machine) {
    CanStep(c, m, a) && Whole(c, m, a) && m' == Stepped(c, m, a)
  }

  lemma {:induction false} RunOneMore(c: Config, m: Machine, acts: seq<Action>, m1: Machine, a: Action, m': Machine)
    requires HealthyRun(c, m, acts, m1) && IsStep(c, m1, a, m')
    ensures HealthyRun(c, m, acts + [a], m')
    decreases |acts|
  {
    if acts == [] {
      assert (acts + [a])[1..] == [] && (acts + [a])[0] == a;
      assert RingRun(c, m', [], m') && WholeRun(c, m', []);
    } else {
      RunOneMore(c, Stepped(c, m, acts[0]), acts[1..], m1, a, m');
      assert (acts + [a])[1..] == acts[1..] + [a];
    }
  }

  /** So the pipeline's invariant holds of what is in the rings and everywhere else. */
  lemma HealthyInv(c: Config, m: Machine)
    requires Healthy(c, m)
    ensures Good(m) && Inv(c, View(m))
  {
    Refines(c, m);
    Ideal.ReachableInv(c, View(m));
  }

  // ---------------------------------------------------------------- ownership

  /** Every object is in exactly one place, one that suits it: an array cell of one ring that is
      in use, one bucket, or one thread's hands. */
  lemma ExactlyOnePlace(c: Config, m: Machine, x: Obj)
    requires Healthy(c, m) && Real(c, x)
    ensures InOrder(m)
    ensures exists p, i :: Holds(View(m).at, p, i, x) && Fits(c, p, x) && forall q, j :: Holds(View(m).at, q, j, x) ==> q == p && j == i
  {
    Refines(c, m);
    Ideal.ExactlyOnePlace(c, View(m), x);
  }

  /** No step touches an object that its thread does not own. */
  lemma TouchesOwn(c: Config, m: Machine, a: Action, x: Obj)
    requires Healthy(c, m) && InOrder(m) && CanStep(c, m, a) && Ideal.Touches(View(m), a, x)
    ensures Ideal.Owns(View(m), Ideal.Actor(a), x)
  {
    Refines(c, m);
    CanStepIff(c, m, a);
    Ideal.TouchesOwn(c, View(m), a, x);
  }

  /** Two threads that could step next never touch the same object. */
  lemma NoRace(c: Config, m: Machine, a: Action, b: Action, x: Obj)
    requires Healthy(c, m) && InOrder(m) && CanStep(c, m, a) && CanStep(c, m, b) && Ideal.Actor(a) != Ideal.Actor(b)
    requires Ideal.Touches(View(m), a, x)
    ensures !Ideal.Touches(View(m), b, x)
  {
    Refines(c, m);
    CanStepIff(c, m, a);
    CanStepIff(c, m, b);
    Ideal.NoRace(c, View(m), a, b, x);
  }

  // ---------------------------------------------------------------- retry loops that never retry

  /** What is enabled over ideal queues is accepted by the rings. */
  lemma NotRefused(c: Config, m: Machine, a: Action)
    requires c.Valid() && Good(m) && Enabled(c, View(m), a)
    ensures CanStep(c, m, a)
  {
    CanStepIff(c, m, a);
  }

  /** Whatever a generator is about to do with a ring is accepted at once: a parser's queue, or
      its own pool to which a packet returns, is never full, and its pool is not empty while it
      builds.  The one exception is the empty pool it waits for in its main loop. */
  lemma GeneratorNeverRetries(c: Config, m: Machine, i: nat, a: GeneratorAct)
    requires Healthy(c, m) && GeneratorGuard(c, m.s, i, a) && !a.TakePacket?
    ensures CanStep(c, m, ByGenerator(i, a)) <==> !a.BuildSkip?
  {
    Refines(c, m);
    Ideal.GeneratorNeverRetries(c, View(m), i);
    ViewAlike(m);
    GeneratorAlike(c, m.s, View(m), i, a);
    CanStepIff(c, m, ByGenerator(i, a));
  }

  /** A parser never finds the packet pool or its flow pool without room for the batch that it
      returns. */
  lemma ParserNeverRetries(c: Config, m: Machine, j: nat, a: ParserAct)
    requires Healthy(c, m) && ParserGuard(c, m.s, j, a) && (a.ReturnPackets? || a.ReturnFlows?)
    ensures CanStep(c, m, ByParser(j, a))
  {
    Refines(c, m);
    Ideal.ParserNeverRetries(c, View(m), j);
    NotRefused(c, m, ByParser(j, a));
  }

  /** A manager never finds a pool full, whether it returns a packet, a flow item or a node. */
  lemma ManagerNeverRetries(c: Config, m: Machine, k: nat, a: ManagerAct)
    requires Healthy(c, m) && ManagerGuard(c, m.s, k, a) && (a.ReleasePacket? || a.ReleaseFlow? || a.ReturnEvicted?)
    ensures CanStep(c, m, ByManager(k, a))
  {
    Refines(c, m);
    Ideal.ManagerNeverRetries(c, View(m), k);
    NotRefused(c, m, ByManager(k, a));
  }

  /** Nor does the sweeper. */
  lemma SweeperNeverRetries(c: Config, m: Machine, a: SweeperAct)
    requires Healthy(c, m) && SweeperGuard(c, m.s, a) && a.SweepReturn?
    ensures CanStep(c, m, BySweeper(a))
  {
    Refines(c, m);
    Ideal.SweeperNeverRetries(c, View(m));
    NotRefused(c, m, BySweeper(a));
  }

  // ---------------------------------------------------------------- sessions and queues

  /** Across all managers and buckets there is at most one live session per key. */
  lemma OneSessionPerKey(c: Config, m: Machine, p: Place, i: int, x: Obj, q: Place, j: int, y: Obj)
    requires Healthy(c, m) && p.Bucket? && q.Bucket? && Holds(m.s.at, p, i, x) && Holds(m.s.at, q, j, y)
    requires KeyOf(m.s, x) == KeyOf(m.s, y)
    ensures p == q && x == y
  {
    Refines(c, m);
    ViewAt(m, p);
    ViewAt(m, q);
    Ideal.OneSessionPerKey(c, View(m), p, i, x, q, j, y);
  }

  /** Live sessions, nodes in the ring of the pool and nodes in hand add up to the 65536 allocated. */
  lemma SessionsConserved(c: Config, m: Machine, k: nat)
    requires Healthy(c, m) && k < c.m
    ensures InOrder(m) && Total(View(m).at, Ideal.SessionPlaces(c, View(m), k)) == SESSION_CAPACITY
  {
    Refines(c, m);
    Ideal.SessionsConserved(c, View(m), k);
  }

  /** Every step takes objects from the front of a ring's contents or adds them at the end. */
  lemma RingsAreFifo(c: Config, m: Machine, a: Action, p: Place)
    requires Healthy(c, m) && CanStep(c, m, a) && Whole(c, m, a) && IsRing(p)
    ensures var r, r' := RingAt(m, p), RingAt(Stepped(c, m, a), p);
      && Ring.Valid(r) && Ring.Valid(r')
      && (|| Ring.Contents(r) <= Ring.Contents(r')
          || exists n :: 0 < n <= |Ring.Contents(r)| && Ring.Contents(r') == Ring.Contents(r)[n..])
  {
    Refines(c, m);
    StepRefines(c, m, a);
    ViewAt(m, p);
    ViewAt(Stepped(c, m, a), p);
    Ideal.RingsAreFifo(c, View(m), a, p);
  }

  /** What is in the ring of a parser or manager belongs there: packets of the one generator that
      feeds the parser, which lead home, and flow items with the packets they describe. */
  lemma QueuesAreRouted(c: Config, m: Machine, p: Place, i: nat)
    requires Healthy(c, m) && InOrder(m) && IsRing(p) && i < |Ring.Contents(RingAt(m, p))|
    ensures var s, x := View(m), Ring.Contents(RingAt(m, p))[i];
      && (p.ParserQueue? ==> x.Packet? && x.home == p.i % c.g && PoolOf(s, x) == x.home)
      && (p.ManagerQueue? ==>
            && x.Flow? && c.ManagerOf(KeyOf(s, x)) == p.i
            && At(s.at, Carried(x)) == [PacketOf(s, x)] && KeyOf(s, PacketOf(s, x)) == KeyOf(s, x))
  {
    Refines(c, m);
    ViewAt(m, p);
    Ideal.QueuesAreRouted(c, View(m), p, i, Ring.Contents(RingAt(m, p))[i]);
  }

  /** With the program's own hashes, queued flow items and live sessions are where those say. */
  lemma SourceIsRouted(c: Config, m: Machine, p: Place, i: nat, x: Obj)
    requires Healthy(c, m) && c == Ideal.SourceConfig(c.g, c.p, c.m, c.buckets, c.need)
    requires InOrder(m) && Holds(View(m).at, p, i, x)
    ensures p.ManagerQueue? ==> ManagerIndex(KeyOf(View(m), x), c.m) == p.i
    ensures p.Bucket? ==> ManagerIndex(KeyOf(View(m), x), c.m) == p.i && BucketIndex(KeyOf(View(m), x), c.buckets) == p.b
  {
    Refines(c, m);
    Ideal.SourceIsRouted(c, View(m), p, i, x);
  }

  // ---------------------------------------------------------------- progress

  /** Deadlock freedom: in every run with `pipe_depth` below 5, a generator that feeds few enough
      parsers, one of those parsers or a manager finds its ring operation accepted. */
  lemma ShallowProgress(c: Config, m0: Machine, acts: seq<Action>, m: Machine, i: nat) returns (a: Action)
    requires c.Valid() && RingInit(c, m0) && HealthyRun(c, m0, acts, m) && ShallowRun(acts)
    requires i < c.g && !Overfed(c, i)
    ensures CanStep(c, m, a) && Concerns(c, i, a) && ShallowRun(acts + [a])
  {
    IdealRun(c, m0, acts, m);
    var s0, s := View(m0), View(m);
    a := PipelineWedge.ShallowProgress(c, s0, acts, s, i);
    NotRefused(c, m, a);
  }

  /** Of the parsers that an overfed generator feeds, none ever takes a batch, or does anything
      else, in any run. */
  lemma NeverABatch(c: Config, m: Machine, i: nat, j: nat, a: ParserAct)
    requires Healthy(c, m) && i < c.g && Overfed(c, i) && j < c.p && j % c.g == i
    ensures !CanStep(c, m, ByParser(j, a))
  {
    Refines(c, m);
    PipelineStranding.NeverABatch(c, View(m), i, j);
    CanStepIff(c, m, ByParser(j, a));
  }

  // ---------------------------------------------------------------- the wedge is really reached

  /** New rings, filled from a book. */
  ghost function FillRings(s: State): Machine {
    Machine(s.(at := map[]),
            map p | p in s.at && Ring.IsCapacity(Size(p)) :: FilledFrom(EmptyRing(Size(p)).cells, s.at[p]),
            map p | p in s.at :: |s.at[p]|)
  }

  /** New rings can be filled from any book that fits them. */
  lemma Fill(s: State) returns (m: Machine)
    ensures m.s == s.(at := map[]) && (forall p :: p in m.rings <==> p in s.at) && (forall p :: p in m.carried <==> p in s.at)
    ensures forall p {:trigger RingAt(m, p)} :: IsRing(p) ==>
      JustFilled(RingAt(m, p), Size(p), At(s.at, p)) && CarriedBy(m, p) == |At(s.at, p)|
  {
    m := FillRings(s);
    forall p | IsRing(p) ensures JustFilled(RingAt(m, p), Size(p), At(s.at, p)) && CarriedBy(m, p) == |At(s.at, p)| {
      assert Ring.Pow2(10) == 1024;
      assert Ring.Pow2(16) == 65536;
      var cells := EmptyRing(Size(p)).cells;
      assert RingAt(FillRings(s), p) == FilledFrom(cells, At(s.at, p));
    }
    forall p ensures p in m.rings <==> p in s.at {
      assert Ring.Pow2(10) == 1024;
      assert Ring.Pow2(16) == 65536;
    }
  }

  lemma FilledView(m: Machine, l: Book)
    requires FilledWith(m, l) && OfRings(l) && forall p :: p in m.rings <==> p in l
    ensures Good(m) && Counted(m) && View(m).at == l
  {
    FilledGood(m, l);
    forall p | p in l ensures View(m).at[p] == l[p] {
      assert At(View(m).at, p) == At(l, p);
    }
  }

  lemma InitialMachine(c: Config, pc: SweeperPc) returns (m: Machine)
    requires c.Valid() && AtStart(pc)
    ensures RingInit(c, m) && Good(m) && Counted(m) && View(m) == InitialState(c, pc)
    ensures forall p :: CarriedBy(m, p) <= SESSION_CAPACITY
  {
    InitialStateIsInit(c, pc);
    FullPoolsOfRings(c);
    forall p | p in FullPools(c) ensures IsRing(p) { FullPoolsAt(c, p); }
    m := MachineOf(InitialState(c, pc));
  }

  lemma MachineOf(s: State) returns (m: Machine)
    requires OfRings(s.at) && forall p :: p in s.at ==> IsRing(p)
    ensures FilledWith(m, s.at) && Good(m) && Counted(m) && View(m) == s && m.s.(at := s.at) == s
    ensures forall p :: CarriedBy(m, p) <= SESSION_CAPACITY
  {
    m := Fill(s);
    assert FilledWith(m, s.at);
    forall p ensures CarriedBy(m, p) <= SESSION_CAPACITY {
      if p in m.carried {
        var _ := RingAt(m, p);
        assert |At(s.at, p)| <= Size(p);
      }
    }
    FilledView(m, s.at);
  }

  /** A run over ideal queues that is short enough is a run over the rings. */
  lemma {:induction false} RunRealized(c: Config, m: Machine, acts: seq<Action>, t: State) returns (m': Machine)
    requires c.Valid() && Good(m) && Counted(m) && IsRun(c, View(m), acts, t)
    requires forall p :: CarriedBy(m, p) + BATCH * |acts| < U32
    ensures RingRun(c, m, acts, m') && WholeRun(c, m, acts) && Good(m') && View(m') == t
    decreases |acts|
  {
    m' := m;
    if acts != [] {
      CanStepIff(c, m, acts[0]);
      var m1 := Stepped(c, m, acts[0]);
      forall p ensures CarriedBy(m1, p) + BATCH * |acts[1..]| < U32 {
        // Each step puts at most one batch into a ring.
        MovesShaped(c, m.s, acts[0]);
        assert CarriedBy(Stepped(c, m, acts[0]), p) <= CarriedBy(m, p) + BATCH;
      }
      FewStep(c, m, acts[0]);
      StepRefines(c, m, acts[0]);
      m' := RunRealized(c, m1, acts[1..], t);
    }
  }

  ghost predicate CanWedge(c: Config, i: nat)
    requires c.Valid() && i < c.g
  {
    exists m :: Healthy(c, m) && InOrder(m) && Wedged(c, View(m), i)
  }

  lemma OverfedWedges(c: Config, i: nat) returns (m: Machine)
    requires c.Valid() && i < c.g && Overfed(c, i)
    ensures Healthy(c, m) && InOrder(m) && Wedged(c, View(m), i)
  {
    var m0 := InitialMachine(c, Off);
    InitialStateIsInit(c, Off);
    var t := PipelineWedge.OverfedWedges(c, View(m0), i);
    var acts :| |acts| <= 6 * RING_CAPACITY && IsRun(c, View(m0), acts, t);
    m := RunRealized(c, m0, acts, t);
    assert HealthyRun(c, m0, acts, m);
  }

  /** The exact bound, over the rings: a generator can get wedged if and only if the queues it
      feeds, each one packet short of a batch, have room for all its packets. */
  lemma WedgeIff(c: Config, i: nat)
    requires c.Valid() && i < c.g
    ensures CanWedge(c, i) <==> Overfed(c, i)
  {
    if CanWedge(c, i) {
      var m :| Healthy(c, m) && InOrder(m) && Wedged(c, View(m), i);
      WedgeNeedsRoom(c, View(m), i);
    }
    if Overfed(c, i) {
      var m := OverfedWedges(c, i);
    }
  }

  /** In parsers per generator: more than 16 with the Intel ring, more than 15 with the TileGX
      ring, whose batch test asks for one object more. */
  lemma WedgeBound(c: Config, i: nat)
    requires c.Valid() && i < c.g
    ensures c.need == BATCH ==> (CanWedge(c, i) <==> Fed(c, i) > 16)
    ensures c.need == BATCH + 1 ==> (CanWedge(c, i) <==> Fed(c, i) > 15)
  {
    WedgeIff(c, i);
    ShortOfABatch(Fed(c, i), c.need);
  }

  /** A wedged generator stays wedged for as long as the rings are in order, whatever happens. */
  lemma WedgedForever(c: Config, m: Machine, i: nat, a: Action)
    requires Healthy(c, m) && InOrder(m) && i < c.g && Wedged(c, View(m), i)
    requires CanStep(c, m, a) && Whole(c, m, a)
    ensures InOrder(Stepped(c, m, a)) && Wedged(c, View(Stepped(c, m, a)), i)
  {
    HealthyInv(c, m);
    StepRefines(c, m, a);
    PipelineWedge.WedgedForever(c, View(m), i, a);
  }
}
