/** A track along which one generator, its parser and the first manager can be led, step by step,
    whatever else there is: what they are at, and how many objects are in their rings and hands. */
module PipelineTrack {
  import opened Common
  import opened Ledger
  import opened FlowKey
  import opened Pipeline
  import opened PipelineSafety
  import opened PipelineTheorems
  import opened PipelineWedge
  import Arith

  /** `man` leaves open which bucket the manager is in; `made` counts the packets that the generator
      has built or stamped, `poolPuts` and `queuePuts` what has been put into the packet pool and into
      the parser's queue, and `steps` all steps. */
  datatype Track = Track(
    gen: GeneratorPc, par: ParserPc, man: ManagerPc,
    pool: nat, queue: nat, packets: nat, flows: nat, flowPool: nat, managerQueue: nat, nodes: nat,
    made: nat, poolPuts: nat, queuePuts: nat, steps: nat)

  /** The program counter with its bucket struck out. */
  function Plain(pc: ManagerPc): ManagerPc {
    match pc
    case MIdle => MIdle
    case Taken => Taken
    case Locking => Locking
    case Searching(_) => Searching(0)
    case WantingNode(_) => WantingNode(0)
    case Copying(_) => Copying(0)
    case Found(_, _) => Found(0, 0)
    case Evicted(_) => Evicted(0)
    case ReleasingPacket(mode) => ReleasingPacket(PlainMode(mode))
    case ReleasingFlow(mode) => ReleasingFlow(PlainMode(mode))
    case Linking(_) => Linking(0)
    case Unlocking(_) => Unlocking(0)
  }

  function PlainMode(mode: Mode): Mode {
    match mode
    case Shallow => Shallow
    case Fresh(_) => Fresh(0)
    case Known(_) => Known(0)
  }

  predicate OnTheTrack(c: Config, s: State, i: nat, k: Track) { AtWork(c, s, i, k) && Lengths(s.at, i, k) }

  predicate AtWork(c: Config, s: State, i: nat, k: Track) {
    && |s.gens| == c.g && |s.pars| == c.p && |s.mans| == c.m > 0 && i < c.g && i < c.p
    && s.gens[i] == Generator(k.gen, i) && s.pars[i] == k.par && Plain(s.mans[0]) == k.man
  }

  predicate Lengths(l: Book, i: nat, k: Track) {
    && |At(l, PacketPool(i))| == k.pool && |At(l, ParserQueue(i))| == k.queue
    && |At(l, ParserPackets(i))| == k.packets && |At(l, ParserFlows(i))| == k.flows
    && |At(l, FlowPool(i))| == k.flowPool && |At(l, ManagerQueue(0))| == k.managerQueue
    && |At(l, SessionPool(0))| == k.nodes
  }

  /** How a transfer changes the length of a place. */
  function Change(t: Transfer, p: Place): int {
    if t.Stay? then 0 else (if p == t.to then t.n else 0) - (if p == t.from then t.n else 0)
  }

  predicate Changes(t: Transfer, i: nat, k: Track, k': Track) {
    && k'.pool == k.pool + Change(t, PacketPool(i)) && k'.queue == k.queue + Change(t, ParserQueue(i))
    && k'.packets == k.packets + Change(t, ParserPackets(i)) && k'.flows == k.flows + Change(t, ParserFlows(i))
    && k'.flowPool == k.flowPool + Change(t, FlowPool(i)) && k'.managerQueue == k.managerQueue + Change(t, ManagerQueue(0))
    && k'.nodes == k.nodes + Change(t, SessionPool(0))
  }

  lemma LengthsChange(l: Book, t: Transfer, i: nat, k: Track, k': Track)
    requires Lengths(l, i, k) && Available(l, t) && Changes(t, i, k, k')
    ensures Lengths(Carry(l, t), i, k')
  {
    CarryLengths(l, t);
  }

  // ---------------------------------------------------------------- where the track goes

  predicate GeneratorGoes(i: nat, k: Track, k': Track) {
    var k1 := k.(steps := k.steps + 1);
    match k.gen
    case Building(done) => k.pool > 0 && k' == k1.(gen := BuildingOne(done), pool := k.pool - 1)
    case BuildingOne(done) =>
      k' == k1.(gen := if done + 1 == RING_CAPACITY then GIdle else Building(done + 1), pool := k.pool + 1,
                made := k.made + 1, poolPuts := k.poolPuts + 1)
    case GIdle => k.pool > 0 && k' == k1.(gen := Held, pool := k.pool - 1)
    case Held => k' == k1.(gen := Patched, made := k.made + 1)
    case Patched => k' == k1.(gen := Sending(i))
    case Sending(j) => j == i && k' == k1.(gen := GIdle, queue := k.queue + 1, queuePuts := k.queuePuts + 1)
    case Returning => false
  }

  /** With `pipe_depth` at 2 the parser returns a batch at once, at 5 it hands it on. */
  predicate ParserGoes(need: nat, deep: bool, k: Track, k': Track) {
    var k1 := k.(steps := k.steps + 1);
    match k.par
    case PIdle => BATCH <= need <= k.queue && k' == k1.(par := Got, queue := k.queue - BATCH, packets := k.packets + BATCH)
    case Got => k' == k1.(par := if deep then WantingFlows else ReturningPackets(false))
    case WantingFlows => BATCH <= need <= k.flowPool && k' == k1.(par := GotFlows, flowPool := k.flowPool - BATCH, flows := k.flows + BATCH)
    case GotFlows => k.flows == k.packets && k' == k1.(par := Filled)
    case Filled => k' == k1.(par := Handing)
    case Handing => k.packets > 0 && k' == k1.(par := Offering(0), packets := k.packets - 1)
    case Offering(j) =>
      && j == 0 && k.flows > 0 && k.managerQueue < RING_CAPACITY
      && k' == k1.(par := if k.flows == 1 then PIdle else Handing, flows := k.flows - 1, managerQueue := k.managerQueue + 1)
    case ReturningPackets(withFlows) =>
      && !withFlows && k.packets >= BATCH
      && k' == k1.(par := PIdle, packets := k.packets - BATCH, pool := k.pool + BATCH, poolPuts := k.poolPuts + BATCH)
    case ReturningFlows => false
  }

  /** The manager never finds a session. */
  predicate ManagerGoes(k: Track, k': Track) {
    var k1 := k.(steps := k.steps + 1);
    match k.man
    case MIdle => k.managerQueue > 0 && k' == k1.(man := Taken, managerQueue := k.managerQueue - 1)
    case Taken => k' == k1.(man := Locking)
    case Locking => k' == k1.(man := Searching(0))
    case Searching(_) => k' == k1.(man := WantingNode(0))
    case WantingNode(_) => k.nodes > 0 && k' == k1.(man := Copying(0), nodes := k.nodes - 1)
    case Copying(_) => k' == k1.(man := ReleasingPacket(Fresh(0)))
    case ReleasingPacket(mode) =>
      mode == Fresh(0) && k' == k1.(man := ReleasingFlow(Fresh(0)), pool := k.pool + 1, poolPuts := k.poolPuts + 1)
    case ReleasingFlow(mode) => mode == Fresh(0) && k' == k1.(man := Linking(0), flowPool := k.flowPool + 1)
    case Linking(_) => k' == k1.(man := Unlocking(0))
    case Unlocking(_) => k' == k1.(man := MIdle)
    case Found(_, _) => false
    case Evicted(_) => false
  }

  /** How far the track may be followed. */
  datatype Limits = Limits(made: nat, puts: nat)

  predicate InLimits(k: Track, l: Limits) { k.made <= l.made && k.poolPuts < l.puts && k.queuePuts < l.puts }

  /** The next point of the track. */
  predicate LeadsOn(need: nat, deep: bool, i: nat, l: Limits, k: Track, k': Track) {
    InLimits(k', l) && (GeneratorGoes(i, k, k') || ParserGoes(need, deep, k, k') || (deep && ManagerGoes(k, k')))
  }

  // ---------------------------------------------------------------- the generator and the parser go there

  /** What the generator does next; packet number `n` gets the key `name(n)`. */
  function GeneratorDoes(name: nat -> Key, k: Track): GeneratorAct {
    match k.gen
    case Building(_) => BuildTake
    case BuildingOne(_) => BuildPut(name(k.made))
    case GIdle => TakePacket
    case Held => Patch(name(k.made))
    case Patched => Forward
    case Sending(_) => SendPacket
    case Returning => GiveBack
  }

  function ParserDoes(deep: bool, pc: ParserPc): ParserAct {
    match pc
    case PIdle => TakeBatch
    case Got => if deep then GoFlows else NoFlows
    case WantingFlows => TakeFlows
    case GotFlows => Fill
    case Filled => GoManagers
    case Handing => RouteFlow
    case Offering(_) => SendFlow
    case ReturningPackets(_) => ReturnPackets
    case ReturningFlows => ReturnFlows
  }

  lemma GeneratorFollows(c: Config, s: State, i: nat, name: nat -> Key, k: Track, k': Track)
    requires c.Valid() && Reachable(c, s) && OnTheTrack(c, s, i, k) && i + c.g >= c.p && GeneratorGoes(i, k, k')
    ensures GeneratorEnabled(c, s, i, GeneratorDoes(name, k)) && OnTheTrack(c, GeneratorStep(c, s, i, GeneratorDoes(name, k)), i, k')
    ensures Changes(GeneratorMoves(s, i, GeneratorDoes(name, k)), i, k, k')
  {
    GeneratorNeverRetries(c, s, i);
    GeneratorThere(c, s, i, name, k, k');
    GeneratorShifts(c, s, i, name, k, k');
    LengthsChange(s.at, GeneratorMoves(s, i, GeneratorDoes(name, k)), i, k, k');
  }

  lemma GeneratorThere(c: Config, s: State, i: nat, name: nat -> Key, k: Track, k': Track)
    requires AtWork(c, s, i, k) && i + c.g >= c.p && GeneratorGoes(i, k, k') && GeneratorEnabled(c, s, i, GeneratorDoes(name, k))
    ensures AtWork(c, GeneratorStep(c, s, i, GeneratorDoes(name, k)), i, k')
  {

  }

  lemma GeneratorShifts(c: Config, s: State, i: nat, name: nat -> Key, k: Track, k': Track)
    requires AtWork(c, s, i, k) && GeneratorGoes(i, k, k')
    ensures Changes(GeneratorMoves(s, i, GeneratorDoes(name, k)), i, k, k')
  {
  }

  lemma ParserFollows(c: Config, s: State, i: nat, deep: bool, k: Track, k': Track)
    requires c.Valid() && Reachable(c, s) && OnTheTrack(c, s, i, k) && ParserGoes(c.need, deep, k, k')
    requires k.par.Handing? ==> c.ManagerOf(KeyOf(s, Hand(s, ParserFlows(i)))) == 0
    ensures ParserEnabled(c, s, i, ParserDoes(deep, k.par)) && OnTheTrack(c, ParserStep(c, s, i, ParserDoes(deep, k.par)), i, k')
    ensures Changes(ParserMoves(c, s, i, ParserDoes(deep, k.par)), i, k, k')
  {
    ParserReturns(c, s, i);
    ParserTurns(c, s, i, deep, k, k');
    ParserShifts(c, s, i, deep, k, k');
    ParserMay(c, s, i, deep, k, k');
    LengthsChange(s.at, ParserMoves(c, s, i, ParserDoes(deep, k.par)), i, k, k');
  }

  /** A batch of packets goes back to the generator's pool. */
  lemma ParserReturns(c: Config, s: State, i: nat)
    requires c.Valid() && Reachable(c, s) && i < c.g && i < c.p && i < |s.pars|
    ensures s.pars[i].ReturningPackets? ==>
      ParserEnabled(c, s, i, ReturnPackets) && ParserMoves(c, s, i, ReturnPackets) == Transfer(ParserPackets(i), 0, BATCH, PacketPool(i))
  {
    if s.pars[i].ReturningPackets? {
      ParserNeverRetries(c, s, i);
      ReachableInv(c, s);
      ParserReturnsTo(c, s, i);
      Arith.DivModUnique(i, c.g, 0, i);
    }
  }

  lemma ParserTurns(c: Config, s: State, i: nat, deep: bool, k: Track, k': Track)
    requires c.Valid() && Lengths(s.at, i, k) && ParserGoes(c.need, deep, k, k')
    requires k.par.Handing? ==> c.ManagerOf(KeyOf(s, Hand(s, ParserFlows(i)))) == 0
    ensures ParserAt(k.par, ParserDoes(deep, k.par)) && ParserNext(c, s, k.par, i, ParserDoes(deep, k.par)) == k'.par
    ensures k'.gen == k.gen && k'.man == k.man
  {
  }

  lemma ParserShifts(c: Config, s: State, i: nat, deep: bool, k: Track, k': Track)
    requires AtWork(c, s, i, k) && ParserGoes(c.need, deep, k, k')
    requires k.par.ReturningPackets? ==> ParserMoves(c, s, i, ReturnPackets) == Transfer(ParserPackets(i), 0, BATCH, PacketPool(i))
    ensures Changes(ParserMoves(c, s, i, ParserDoes(deep, k.par)), i, k, k')
  {
  }

  lemma ParserMay(c: Config, s: State, i: nat, deep: bool, k: Track, k': Track)
    requires c.Valid() && AtWork(c, s, i, k) && Lengths(s.at, i, k) && ParserGoes(c.need, deep, k, k')
    requires k.par.ReturningPackets? ==> ParserEnabled(c, s, i, ReturnPackets)
    ensures ParserEnabled(c, s, i, ParserDoes(deep, k.par))
  {
  }

  // ---------------------------------------------------------------- following the track

  /** A property of points that holds wherever the track goes. */
  ghost predicate Closed(need: nat, deep: bool, i: nat, l: Limits, holds: Track -> bool) {
    forall k, k' {:trigger LeadsOn(need, deep, i, l, k, k')} :: holds(k) && LeadsOn(need, deep, i, l, k, k') ==> holds(k')
  }

  /** The generator has made `n` turns of its first pass. */
  function BuiltTo(k: Track, n: nat): Track {
    k.(gen := if n == RING_CAPACITY then GIdle else Building(n), made := k.made + n, poolPuts := k.poolPuts + n, steps := k.steps + 2 * n)
  }

  lemma {:induction false} BuildMany(need: nat, deep: bool, i: nat, l: Limits, holds: Track -> bool, k: Track, n: nat)
    requires Closed(need, deep, i, l, holds) && holds(k) && k.gen == Building(0) && n <= RING_CAPACITY && k.pool > 0
    requires InLimits(BuiltTo(k, n), l)
    ensures holds(BuiltTo(k, n))
  {
    if n == 0 {
      assert BuiltTo(k, 0) == k;
    } else {
      BuildMany(need, deep, i, l, holds, k, n - 1);
      var k0 := BuiltTo(k, n - 1);
      var k1 := k0.(gen := BuildingOne(n - 1), pool := k.pool - 1, steps := k0.steps + 1);
      assert LeadsOn(need, deep, i, l, k0, k1);
      assert LeadsOn(need, deep, i, l, k1, BuiltTo(k, n));
    }
  }

  /** The generator has sent `n` more packets. */
  function SentTo(k: Track, n: nat): Track
    requires n <= k.pool
  {
    k.(pool := k.pool - n, queue := k.queue + n, made := k.made + n, queuePuts := k.queuePuts + n, steps := k.steps + 4 * n)
  }

  lemma {:induction false} SendMany(need: nat, deep: bool, i: nat, l: Limits, holds: Track -> bool, k: Track, n: nat)
    requires Closed(need, deep, i, l, holds) && holds(k) && k.gen.GIdle? && n <= k.pool && InLimits(SentTo(k, n), l)
    ensures holds(SentTo(k, n))
  {
    if n == 0 {
      assert SentTo(k, 0) == k;
    } else {
      SendMany(need, deep, i, l, holds, k, n - 1);
      var k1 := SentTo(k, n - 1).(gen := Held, pool := SentTo(k, n - 1).pool - 1, steps := SentTo(k, n - 1).steps + 1);
      var k2 := k1.(gen := Patched, made := SentTo(k, n - 1).made + 1, steps := SentTo(k, n - 1).steps + 2);
      var k3 := k2.(gen := Sending(i), steps := SentTo(k, n - 1).steps + 3);
      assert LeadsOn(need, deep, i, l, SentTo(k, n - 1), k1);
      assert LeadsOn(need, deep, i, l, k1, k2);
      assert LeadsOn(need, deep, i, l, k2, k3);
      assert LeadsOn(need, deep, i, l, k3, SentTo(SentTo(k, n - 1), 1));
      assert SentTo(SentTo(k, n - 1), 1) == SentTo(k, n);
    }
  }

  const START: Track :=
    Track(Building(0), PIdle, MIdle, RING_CAPACITY, 0, 0, 0, RING_CAPACITY, 0, SESSION_CAPACITY, 0, RING_CAPACITY, 0, 0)

  lemma StartOnTrack(c: Config, i: nat, pc: SweeperPc)
    requires c.Valid() && i < c.g
    ensures OnTheTrack(c, InitialState(c, pc), i, START)
  {
    FullPoolsAt(c, PacketPool(i));
    FullPoolsAt(c, ParserQueue(i));
    FullPoolsAt(c, ParserPackets(i));
    FullPoolsAt(c, ParserFlows(i));
    FullPoolsAt(c, FlowPool(i));
    FullPoolsAt(c, ManagerQueue(0));
    FullPoolsAt(c, SessionPool(0));
  }
}
