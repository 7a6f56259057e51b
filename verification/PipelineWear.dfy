/** The hypothesis that batches write back whole counters is needed: a run that wears the counter of
    a packet pool out.

    With `pipe_depth` at 2 a generator sends packets to its one parser, which returns them in
    batches.  When 2^32 packets have come back to the pool, the batch that writes the counter
    back cuts it to zero; the ring then looks overfull, and the parser spins on its next batch. */
module PipelineWear {
  import opened Common
  import opened Ledger
  import opened FlowKey
  import opened Pipeline
  import opened PipelineInvariant
  import opened PipelineWedge
  import opened PipelineTrack
  import opened PipelineRings
  import opened PipelineRingTheorems
  import Ideal = PipelineTheorems
  import Arith
  import Ring
  import RingBatch

  // ---------------------------------------------------------------- runs at depth 2

  /** The tests of `pipe_depth` go as they do at depth 2. */
  predicate AtTwo(a: Action) { !(a.ByGenerator? && a.g.Keep?) && !(a.ByParser? && a.p.GoFlows?) }

  ghost predicate RunAtTwo(c: Config, m: Machine, acts: seq<Action>, m': Machine) {
    RingRun(c, m, acts, m') && forall n :: 0 <= n < |acts| ==> AtTwo(acts[n])
  }

  ghost predicate ReachedAtTwo(c: Config, m: Machine) {
    exists m0, acts :: RingInit(c, m0) && RunAtTwo(c, m0, acts, m)
  }

  ghost predicate IsNext(c: Config, m: Machine, a: Action, m': Machine) {
    CanStep(c, m, a) && m' == Stepped(c, m, a)
  }

  lemma {:induction false} RingRunOn(c: Config, m: Machine, acts: seq<Action>, m1: Machine, a: Action, m': Machine)
    requires RingRun(c, m, acts, m1) && IsNext(c, m1, a, m')
    ensures RingRun(c, m, acts + [a], m')
    decreases |acts|
  {
    if acts == [] {
      assert (acts + [a])[1..] == [] && RingRun(c, m', [], m');
    } else {
      RingRunOn(c, Stepped(c, m, acts[0]), acts[1..], m1, a, m');
      assert (acts + [a])[1..] == acts[1..] + [a];
    }
  }

  lemma RunAtTwoOn(c: Config, m0: Machine, acts: seq<Action>, m: Machine, a: Action, m': Machine)
    requires RunAtTwo(c, m0, acts, m) && IsNext(c, m, a, m') && AtTwo(a)
    ensures RunAtTwo(c, m0, acts + [a], m')
  {
    RingRunOn(c, m0, acts, m, a, m');
  }

  lemma ReachedOn(c: Config, m: Machine, a: Action, m': Machine)
    requires ReachedAtTwo(c, m) && IsNext(c, m, a, m') && AtTwo(a)
    ensures ReachedAtTwo(c, m')
  {
    var m0, acts :| RingInit(c, m0) && RunAtTwo(c, m0, acts, m);
    RunAtTwoOn(c, m0, acts, m, a, m');
  }

  // ---------------------------------------------------------------- steps that still go well

  ghost predicate GoingWell(c: Config, m: Machine) {
    Healthy(c, m) && ReachedAtTwo(c, m) && Good(m) && Counted(m)
  }

  /** What a transfer puts into a ring. */
  function Adds(t: Transfer, p: Place): nat { if t.Transfer? && p == t.to && IsRing(p) then t.n else 0 }

  lemma CarriesExactly(c: Config, m: Machine, a: Action, m': Machine)
    requires IsNext(c, m, a, m')
    ensures forall p {:trigger CarriedBy(m', p)} :: CarriedBy(m', p) == CarriedBy(m, p) + Adds(Moves(c, m.s, a), p)
  {
    MovesShaped(c, m.s, a);
  }

  ghost predicate StaysFew(m: Machine, t: Transfer) {
    forall p {:trigger CarriedBy(m, p)} :: BatchTaken(p) || BatchPut(p) ==> CarriedBy(m, p) + Adds(t, p) < U32
  }

  /** The machine has the state `s` in its rings and elsewhere. */
  ghost predicate Shows(m: Machine, s: State) { InOrder(m) && View(m) == s }

  lemma NextFor(c: Config, m: Machine, s: State, a: Action) returns (m': Machine)
    requires c.Valid() && Good(m) && Shows(m, s) && Enabled(c, s, a)
    ensures IsNext(c, m, a, m') && Guard(c, s, a) && Moves(c, m.s, a) == Moves(c, s, a)
  {
    CanStepIff(c, m, a);
    ViewAlike(m);
    ControlAlike(c, m.s, s, a);
    m' := Stepped(c, m, a);
  }

  lemma GoesWell(c: Config, m: Machine, s: State, a: Action) returns (m': Machine)
    requires GoingWell(c, m) && Shows(m, s) && Enabled(c, s, a) && AtTwo(a) && StaysFew(m, Moves(c, s, a))
    ensures GoingWell(c, m') && Shows(m', Step(c, s, a))
    ensures forall p {:trigger CarriedBy(m', p)} :: CarriedBy(m', p) == CarriedBy(m, p) + Adds(Moves(c, s, a), p)
  {
    m' := NextFor(c, m, s, a);
    CarriesExactly(c, m, a, m');
    forall p | BatchTaken(p) || BatchPut(p) ensures CarriedBy(m', p) < U32 {
      var _ := CarriedBy(m, p);
    }
    FewStep(c, m, a);
    StepRefines(c, m, a);
    HealthyStep(c, m, a, m');
    ReachedOn(c, m, a, m');
  }

  // ---------------------------------------------------------------- a generator and its one parser

  ghost predicate HasCarried(m: Machine, i: nat, k: Track) {
    && CarriedBy(m, PacketPool(i)) == k.poolPuts && CarriedBy(m, ParserQueue(i)) == k.queuePuts
    && forall p {:trigger CarriedBy(m, p)} :: p != PacketPool(i) && p != ParserQueue(i) ==> CarriedBy(m, p) <= SESSION_CAPACITY
  }

  ghost predicate Tracks(c: Config, m: Machine, s: State, i: nat, k: Track) {
    GoingWell(c, m) && Shows(m, s) && OnTheTrack(c, s, i, k) && HasCarried(m, i, k)
  }

  /** The track can be followed up to here. */
  ghost predicate CanTrack(c: Config, i: nat, k: Track) {
    exists m, s :: Tracks(c, m, s, i, k)
  }

  /** Keys are of no consequence here. */
  function AnyName(): nat -> Key { n => Key(0, 0, 0, 0, 0) }

  /** No counter reaches 2^32. */
  const FEW: Limits := Limits(U64, U32)

  /** The transfer fills no ring but these two, and these by what the track says. */
  predicate FillsOwn(t: Transfer, i: nat, k: Track, k': Track) {
    && (t.Transfer? && IsRing(t.to) ==> t.to == PacketPool(i) || t.to == ParserQueue(i))
    && k'.poolPuts == k.poolPuts + Adds(t, PacketPool(i)) && k'.queuePuts == k.queuePuts + Adds(t, ParserQueue(i))
  }

  /** A point on a track at depth 2. */
  predicate AtDepthTwo(k: Track) { k.par.PIdle? || k.par.Got? || k.par == ReturningPackets(false) }

  lemma ParserFills(c: Config, s: State, i: nat, k: Track, k': Track)
    requires AtWork(c, s, i, k) && AtDepthTwo(k) && ParserGoes(c.need, false, k, k')
    requires k.par.ReturningPackets? ==> ParserMoves(c, s, i, ReturnPackets) == Transfer(ParserPackets(i), 0, BATCH, PacketPool(i))
    ensures FillsOwn(ParserMoves(c, s, i, ParserDoes(false, k.par)), i, k, k') && AtTwo(ByParser(i, ParserDoes(false, k.par)))
  {
  }

  lemma FollowTrack(c: Config, s: State, i: nat, k: Track, k': Track) returns (a: Action)
    requires c.Valid() && Reachable(c, s) && OnTheTrack(c, s, i, k) && i + c.g >= c.p && AtDepthTwo(k)
    requires GeneratorGoes(i, k, k') || ParserGoes(c.need, false, k, k')
    ensures Enabled(c, s, a) && AtTwo(a) && FillsOwn(Moves(c, s, a), i, k, k') && OnTheTrack(c, Step(c, s, a), i, k')
  {
    if GeneratorGoes(i, k, k') {
      GeneratorFollows(c, s, i, AnyName(), k, k');
      GeneratorFills(c, s, i, k, k');
      a := ByGenerator(i, GeneratorDoes(AnyName(), k));
    } else {
      ParserReturns(c, s, i);
      ParserFollows(c, s, i, false, k, k');
      ParserFills(c, s, i, k, k');
      a := ByParser(i, ParserDoes(false, k.par));
    }
  }

  lemma GeneratorFills(c: Config, s: State, i: nat, k: Track, k': Track)
    requires AtWork(c, s, i, k) && GeneratorGoes(i, k, k')
    ensures FillsOwn(GeneratorMoves(s, i, GeneratorDoes(AnyName(), k)), i, k, k')
  {
  }

  lemma CarriedOn(m: Machine, m': Machine, i: nat, k: Track, t: Transfer, k': Track)
    requires HasCarried(m, i, k) && FillsOwn(t, i, k, k')
    requires forall p {:trigger CarriedBy(m', p)} :: CarriedBy(m', p) == CarriedBy(m, p) + Adds(t, p)
    ensures HasCarried(m', i, k')
  {
    forall p | p != PacketPool(i) && p != ParserQueue(i) ensures CarriedBy(m', p) <= SESSION_CAPACITY {
      var _ := CarriedBy(m, p);
    }
  }

  lemma CarriedStaysFew(m: Machine, i: nat, k: Track, t: Transfer, k': Track)
    requires HasCarried(m, i, k) && FillsOwn(t, i, k, k') && InLimits(k', FEW)
    ensures StaysFew(m, t)
  {
  }

  lemma TrackReachable(c: Config, m: Machine, s: State)
    requires GoingWell(c, m) && Shows(m, s)
    ensures c.Valid() && Reachable(c, s)
  {
    Refines(c, m);
  }

  /** The rings follow the track. */
  lemma WearStep(c: Config, m: Machine, s: State, i: nat, k: Track, k': Track) returns (m': Machine, s': State)
    requires Tracks(c, m, s, i, k) && AtDepthTwo(k) && i + c.g >= c.p && LeadsOn(c.need, false, i, FEW, k, k')
    ensures Tracks(c, m', s', i, k')
  {
    TrackReachable(c, m, s);
    var a := FollowTrack(c, s, i, k, k');
    var t := Moves(c, s, a);
    CarriedStaysFew(m, i, k, t, k');
    m' := GoesWell(c, m, s, a);
    s' := Step(c, s, a);
    CarriedOn(m, m', i, k, t, k');
  }

  lemma WearOn(c: Config, i: nat, k: Track, k': Track)
    requires CanTrack(c, i, k) && AtDepthTwo(k) && i + c.g >= c.p && LeadsOn(c.need, false, i, FEW, k, k')
    ensures CanTrack(c, i, k')
  {
    var m, s :| Tracks(c, m, s, i, k);
    var m', s' := WearStep(c, m, s, i, k, k');
  }

  lemma StaysAtDepthTwo(need: nat, i: nat, k: Track, k': Track)
    requires AtDepthTwo(k) && LeadsOn(need, false, i, FEW, k, k')
    ensures AtDepthTwo(k')
  {
  }

  lemma WearClosed(c: Config, i: nat)
    requires i + c.g >= c.p
    ensures Closed(c.need, false, i, FEW, k => CanTrack(c, i, k) && AtDepthTwo(k))
  {
    forall k, k' | CanTrack(c, i, k) && AtDepthTwo(k) && LeadsOn(c.need, false, i, FEW, k, k') ensures CanTrack(c, i, k') && AtDepthTwo(k') {
      WearOn(c, i, k, k');
      StaysAtDepthTwo(c.need, i, k, k');
    }
  }

  // ---------------------------------------------------------------- where the track goes

  /** The parser takes a batch and is about to return it. */
  function TakenBack(k: Track): Track
    requires k.queue >= BATCH
  {
    k.(par := ReturningPackets(false), queue := k.queue - BATCH, packets := BATCH, steps := k.steps + 2)
  }

  /** At the start of round `r`: the queue holds enough for a batch to be taken. */
  function Circulating(need: nat, r: nat): Track
    requires BATCH <= need <= BATCH + 1
  {
    BuiltTo(START, RING_CAPACITY).(
      pool := RING_CAPACITY - need, queue := need, made := RING_CAPACITY + need + BATCH * r,
      poolPuts := 2 * RING_CAPACITY + BATCH * r, queuePuts := need + BATCH * r,
      steps := 2 * RING_CAPACITY + 4 * need + 259 * r)
  }

  /** In round `r`, before the parser returns its batch; another batch is in the queue. */
  function LastHalf(need: nat, r: nat): Track
    requires BATCH <= need <= BATCH + 1
  {
    TakenBack(SentTo(Circulating(need, r), BATCH))
  }

  lemma HalfRound(need: nat, i: nat, holds: Track -> bool, r: nat)
    requires Closed(need, false, i, FEW, holds) && BATCH <= need <= BATCH + 1 && holds(Circulating(need, r)) && 2 * RING_CAPACITY + BATCH * r < U32
    ensures holds(LastHalf(need, r))
  {
    var k := Circulating(need, r);
    SendMany(need, false, i, FEW, holds, k, BATCH);
    var k1 := SentTo(k, BATCH).(par := Got, queue := SentTo(k, BATCH).queue - BATCH, packets := BATCH, steps := SentTo(k, BATCH).steps + 1);
    assert LeadsOn(need, false, i, FEW, SentTo(k, BATCH), k1);
    assert LeadsOn(need, false, i, FEW, k1, TakenBack(SentTo(k, BATCH)));
  }

  lemma {:induction false} WearRounds(need: nat, i: nat, holds: Track -> bool, r: nat)
    requires Closed(need, false, i, FEW, holds) && BATCH <= need <= BATCH + 1 && holds(Circulating(need, 0)) && 2 * RING_CAPACITY + BATCH * r < U32
    ensures holds(Circulating(need, r))
  {
    if r > 0 {
      WearRounds(need, i, holds, r - 1);
      HalfRound(need, i, holds, r - 1);
      assert LeadsOn(need, false, i, FEW, LastHalf(need, r - 1), Circulating(need, r));
    }
  }

  /** The round whose batch brings the counter of the pool to 2^32. */
  const LAST: nat := 67108831

  lemma ToTheEnd(need: nat, i: nat, holds: Track -> bool)
    requires Closed(need, false, i, FEW, holds) && BATCH <= need <= BATCH + 1 && holds(START)
    ensures holds(LastHalf(need, LAST)) && LastHalf(need, LAST).poolPuts + BATCH == U32
  {
    BuildMany(need, false, i, FEW, holds, START, RING_CAPACITY);
    SendMany(need, false, i, FEW, holds, BuiltTo(START, RING_CAPACITY), need);
    assert SentTo(BuiltTo(START, RING_CAPACITY), need) == Circulating(need, 0);
    WearRounds(need, i, holds, LAST);
    HalfRound(need, i, holds, LAST);
  }

  // ---------------------------------------------------------------- the start and the end of the run

  lemma TrackStarts(c: Config, i: nat)
    requires c.Valid() && i < c.g
    ensures CanTrack(c, i, START)
  {
    var m := InitialMachine(c, Off);
    var s := InitialState(c, Off);
    assert HealthyRun(c, m, [], m) && RunAtTwo(c, m, [], m);
    StartCarried(c, m, i);
    StartOnTrack(c, i, Off);
    assert Tracks(c, m, s, i, START);
  }

  lemma StartCarried(c: Config, m: Machine, i: nat)
    requires c.Valid() && i < c.g && RingInit(c, m)
    ensures CarriedBy(m, PacketPool(i)) == RING_CAPACITY && CarriedBy(m, ParserQueue(i)) == 0
  {
    FullPoolsAt(c, PacketPool(i));
    FullPoolsAt(c, ParserQueue(i));
    var _, _ := RingAt(m, PacketPool(i)), RingAt(m, ParserQueue(i));
  }

  /** The counters of a ring, by what it has carried and what is in it. */
  lemma CountersOf(m: Machine, s: State, p: Place)
    requires Good(m) && Counted(m) && Shows(m, s) && (BatchTaken(p) || BatchPut(p)) && CarriedBy(m, p) >= |At(s.at, p)|
    ensures var r := RingAt(m, p);
      && Ring.Valid(r) && |r.cells| == Size(p) && Ring.Contents(r) == At(s.at, p)
      && r.enq == CarriedBy(m, p) && r.deq == CarriedBy(m, p) - |At(s.at, p)|
  {
    ViewAt(m, p);
    var r := RingAt(m, p);
    assert |Ring.Contents(r)| == Ring.Len(r);
  }

  /** The pool's ring, as the last batch leaves it: the counter is cut, and the ring looks overfull. */
  lemma Cut(r: Cells, xs: seq<Obj>)
    requires Ring.Valid(r) && |r.cells| == RING_CAPACITY && |xs| == BATCH && |Ring.Contents(r)| + BATCH <= RING_CAPACITY
    requires r.enq == U32 - BATCH && U32 - RING_CAPACITY <= r.deq <= r.enq
    ensures var (r', ok) := Store(r, xs); ok && |r'.cells| == RING_CAPACITY && r'.enq == 0 && r'.deq == r.deq
  {
    StoreBatch(r, xs);
    StoreShape(r, xs);
    RingBatch.TruncSum(r.enq, BATCH);
  }

  lemma Overfull(r: Cells, xs: seq<Obj>)
    requires Ring.IsCapacity(|r.cells|) && |r.cells| == RING_CAPACITY && |xs| == BATCH
    requires r.enq == 0 && U32 - RING_CAPACITY <= r.deq < U32
    ensures !Store(r, xs).1
  {
  }

  /** The pool of generator `i` is broken, and its parser `i` still has a batch in its queue. */
  ghost predicate Broken(c: Config, m: Machine, i: nat, xs: seq<Obj>) {
    var r, q := RingAt(m, PacketPool(i)), RingAt(m, ParserQueue(i));
    && c.Valid() && i < c.p && i < |m.s.pars|
    && Ring.IsCapacity(|r.cells|) && |r.cells| == RING_CAPACITY && r.enq == 0 && U32 - RING_CAPACITY <= r.deq < U32
    && Ring.Valid(q) && q.deq + BATCH < U32 && Ring.Contents(q) == xs && |xs| >= c.need
    && (forall x :: x in xs ==> PoolOf(m.s, x) == i)
    && At(m.s.at, ParserPackets(i)) == []
  }

  lemma ReturnEffect(c: Config, m: Machine, i: nat, m': Machine)
    requires IsNext(c, m, ByParser(i, ReturnPackets), m')
    requires Moves(c, m.s, ByParser(i, ReturnPackets)) == Transfer(ParserPackets(i), 0, BATCH, PacketPool(i))
    requires |At(m.s.at, ParserPackets(i))| == BATCH && Ring.IsCapacity(|RingAt(m, PacketPool(i)).cells|)
    ensures i < |m'.s.pars| && m'.s.pool == m.s.pool && At(m'.s.at, ParserPackets(i)) == []
    ensures m.s.pars[i] == ReturningPackets(false) ==> m'.s.pars[i] == PIdle
    ensures RingAt(m', PacketPool(i)) == Store(RingAt(m, PacketPool(i)), At(m.s.at, ParserPackets(i))).0
    ensures RingAt(m', ParserQueue(i)) == RingAt(m, ParserQueue(i))
  {
    var xs := At(m.s.at, ParserPackets(i));
    assert xs[0..BATCH] == xs && xs[..0] + xs[BATCH..] == [];
  }

  lemma LastStep(c: Config, m: Machine, s: State, i: nat, k: Track) returns (m': Machine)
    requires Tracks(c, m, s, i, k) && k.par == ReturningPackets(false)
    ensures IsNext(c, m, ByParser(i, ReturnPackets), m') && ReachedAtTwo(c, m')
    ensures Moves(c, m.s, ByParser(i, ReturnPackets)) == Transfer(ParserPackets(i), 0, BATCH, PacketPool(i))
  {
    TrackReachable(c, m, s);
    ParserReturns(c, s, i);
    m' := NextFor(c, m, s, ByParser(i, ReturnPackets));
    ReachedOn(c, m, ByParser(i, ReturnPackets), m');
  }

  lemma BreaksRing(c: Config, m: Machine, s: State, i: nat, m': Machine)
    requires c.Valid() && Good(m) && Counted(m) && Shows(m, s) && Reachable(c, s)
    requires HasCarried(m, i, LastHalf(c.need, LAST)) && OnTheTrack(c, s, i, LastHalf(c.need, LAST))
    requires |At(m.s.at, ParserPackets(i))| == BATCH
    requires i < |m'.s.pars| && m'.s.pool == m.s.pool && At(m'.s.at, ParserPackets(i)) == []
    requires Ring.IsCapacity(|RingAt(m, PacketPool(i)).cells|)
    requires RingAt(m', PacketPool(i)) == Store(RingAt(m, PacketPool(i)), At(m.s.at, ParserPackets(i))).0
    requires RingAt(m', ParserQueue(i)) == RingAt(m, ParserQueue(i))
    ensures Broken(c, m', i, At(s.at, ParserQueue(i)))
  {
    // The two rings before the last batch.
    CountersOf(m, s, PacketPool(i));
    CountersOf(m, s, ParserQueue(i));
    Cut(RingAt(m, PacketPool(i)), At(m.s.at, ParserPackets(i)));
    // Packets that wait for a parser know the pool they come from.
    Arith.DivModUnique(i, c.g, 0, i);
    forall x | x in At(s.at, ParserQueue(i)) ensures PoolOf(s, x) == i {
      var n :| 0 <= n < |At(s.at, ParserQueue(i))| && At(s.at, ParserQueue(i))[n] == x;
      Ideal.QueuesAreRouted(c, s, ParserQueue(i), n, x);
    }
    forall x | x in At(s.at, ParserQueue(i)) ensures PoolOf(m'.s, x) == i {
      assert PoolOf(s, x) == i;
    }
  }

  lemma LastEffect(c: Config, m: Machine, s: State, i: nat, k: Track, m': Machine)
    requires Tracks(c, m, s, i, k) && k.par == ReturningPackets(false) && IsNext(c, m, ByParser(i, ReturnPackets), m')
    requires Moves(c, m.s, ByParser(i, ReturnPackets)) == Transfer(ParserPackets(i), 0, BATCH, PacketPool(i))
    ensures |At(m.s.at, ParserPackets(i))| == BATCH && Ring.IsCapacity(|RingAt(m, PacketPool(i)).cells|)
    ensures i < |m'.s.pars| && m'.s.pars[i].PIdle? && m'.s.pool == m.s.pool && At(m'.s.at, ParserPackets(i)) == []
    ensures RingAt(m', PacketPool(i)) == Store(RingAt(m, PacketPool(i)), At(m.s.at, ParserPackets(i))).0
    ensures RingAt(m', ParserQueue(i)) == RingAt(m, ParserQueue(i))
  {
    TrackReachable(c, m, s);
    Ideal.ReachableInv(c, s);
    assert ParserShape(s, i);
    ViewAt(m, ParserPackets(i));
    ReturnEffect(c, m, i, m');
  }

  /** The last batch. */
  lemma LastReturn(c: Config, i: nat) returns (m': Machine, xs: seq<Obj>)
    requires c.Valid() && CanTrack(c, i, LastHalf(c.need, LAST))
    ensures Broken(c, m', i, xs) && m'.s.pars[i].PIdle? && ReachedAtTwo(c, m')
  {
    var k := LastHalf(c.need, LAST);
    var m, s :| Tracks(c, m, s, i, k);
    m' := LastStep(c, m, s, i, k);
    LastEffect(c, m, s, i, k, m');
    TrackReachable(c, m, s);
    BreaksRing(c, m, s, i, m');
    xs := At(s.at, ParserQueue(i));
  }

  // ---------------------------------------------------------------- the next batch is refused

  lemma TakesOneMore(c: Config, m: Machine, i: nat, xs: seq<Obj>) returns (m': Machine)
    requires Broken(c, m, i, xs) && m.s.pars[i].PIdle?
    ensures IsNext(c, m, ByParser(i, TakeBatch), m') && i < |m'.s.pars| && m'.s.pars[i].Got? && m'.s.pool == m.s.pool
    ensures RingAt(m', PacketPool(i)) == RingAt(m, PacketPool(i)) && At(m'.s.at, ParserPackets(i)) == xs[..BATCH]
  {
    FetchBatch(c, RingAt(m, ParserQueue(i)));
    m' := Stepped(c, m, ByParser(i, TakeBatch));
  }

  lemma Turns(c: Config, m: Machine, i: nat) returns (m': Machine)
    requires c.Valid() && i < c.p && i < |m.s.pars| && m.s.pars[i].Got?
    ensures IsNext(c, m, ByParser(i, NoFlows), m')
    ensures m'.rings == m.rings && m'.s == m.s.(pars := m.s.pars[i := ReturningPackets(false)])
  {
    m' := Stepped(c, m, ByParser(i, NoFlows));
  }

  /** At depth 2, with a parser of its own, a generator's pool wears out: a run over the rings leads to
      a state in which the parser is refused the room for the batch it returns. */
  lemma WearsOut(c: Config, i: nat) returns (m: Machine)
    requires c.Valid() && i < c.g && i + c.g >= c.p
    ensures ReachedAtTwo(c, m) && ParserGuard(c, m.s, i, ReturnPackets) && !CanStep(c, m, ByParser(i, ReturnPackets))
  {
    TrackStarts(c, i);
    WearClosed(c, i);
    ToTheEnd(c.need, i, k => CanTrack(c, i, k) && AtDepthTwo(k));
    m := Wears(c, i);
  }

  lemma Wears(c: Config, i: nat) returns (m: Machine)
    requires c.Valid() && CanTrack(c, i, LastHalf(c.need, LAST))
    ensures ReachedAtTwo(c, m) && ParserGuard(c, m.s, i, ReturnPackets) && !CanStep(c, m, ByParser(i, ReturnPackets))
  {
    var m1, xs := LastReturn(c, i);
    var m2, m3 := NextRefused(c, m1, i, xs);
    ReachedOn(c, m1, ByParser(i, TakeBatch), m2);
    ReachedOn(c, m2, ByParser(i, NoFlows), m3);
    m := m3;
  }

  lemma NextRefused(c: Config, m: Machine, i: nat, xs: seq<Obj>) returns (m': Machine, m'': Machine)
    requires Broken(c, m, i, xs) && m.s.pars[i].PIdle?
    ensures IsNext(c, m, ByParser(i, TakeBatch), m') && IsNext(c, m', ByParser(i, NoFlows), m'')
    ensures ParserGuard(c, m''.s, i, ReturnPackets) && !CanStep(c, m'', ByParser(i, ReturnPackets))
  {
    m' := TakesOneMore(c, m, i, xs);
    m'' := Turns(c, m', i);
    assert xs[..BATCH][0] in xs;
    if CanStep(c, m'', ByParser(i, ReturnPackets)) {
      assert Slice(m''.s.at, Moves(c, m''.s, ByParser(i, ReturnPackets))) == xs[..BATCH];
      Overfull(RingAt(m'', PacketPool(i)), xs[..BATCH]);
    }
  }
}
