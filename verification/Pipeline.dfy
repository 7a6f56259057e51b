/** The generator, parser and manager loops and the session sweeper, as one state machine.

    A step is what one thread does between two accesses to shared memory.  `pipe_depth`
    is reloaded while the threads run, so each test of it may go either way.  A loop that
    retries a ring operation is a step that is not enabled until the operation succeeds. */
module Pipeline {
  import opened Common
  import opened Ledger
  import opened FlowKey

  const BATCH: nat := 64

  datatype GeneratorPc =
    | Building(done: nat)      // make_all_packet, between two packets
    | BuildingOne(done: nat)   // make_all_packet, with a packet taken out
    | GIdle | Held | Patched
    | Sending(parser: nat)
    | Returning

  datatype Generator = Generator(pc: GeneratorPc, next: nat)

  datatype ParserPc =
    | PIdle | Got | WantingFlows | GotFlows | Filled
    | Handing                  // about to hash the next flow item
    | Offering(k: nat)         // spinning on the queue of manager k
    | ReturningPackets(withFlows: bool)
    | ReturningFlows

  /** What a manager still has to do once packet and flow item are released. */
  datatype Mode = Shallow | Fresh(b: nat) | Known(b: nat)

  datatype ManagerPc =
    | MIdle | Taken | Locking
    | Searching(b: nat)
    | WantingNode(b: nat)
    | Copying(b: nat)
    | Found(b: nat, pos: nat)
    | Evicted(b: nat)
    | ReleasingPacket(mode: Mode)
    | ReleasingFlow(mode: Mode)
    | Linking(b: nat)
    | Unlocking(b: nat)

  /** The sweeper is only started if `pipe_depth` is above 4 at the time.  It goes through the buckets
      of all managers in order, and over and over; `kept` counts the nodes of its bucket that it has
      passed and left there. */
  datatype SweeperPc =
    | Off
    | SIdle(m: nat, b: nat)    // about to lock this bucket
    | Walking(m: nat, b: nat, kept: nat)
    | Unlinked(m: nat, b: nat, kept: nat)

  /** `pool`, `packet` and `key` are the fields that the objects themselves carry: the pool
      to go back to, the packet of a flow item, and the connection a packet, flow item or
      session is about. */
  datatype State = State(
    at: Book,
    gens: seq<Generator>,
    pars: seq<ParserPc>,
    mans: seq<ManagerPc>,
    sweeper: SweeperPc,
    pool: map<Obj, nat>,
    packet: map<Obj, Obj>,
    key: map<Obj, Key>,
    locked: set<(nat, nat)>)

  datatype GeneratorAct =
    | BuildTake | BuildSkip | BuildPut(built: Key)
    | TakePacket | Patch(stamp: Key) | Forward | Keep | SendPacket | GiveBack

  datatype ParserAct =
    | TakeBatch | GoFlows | NoFlows | TakeFlows | Fill | GoManagers | NoManagers | RouteFlow | SendFlow
    | ReturnPackets | ReturnFlows

  datatype ManagerAct =
    | TakeFlow | GoDeep | StayShallow | LockBucket | FindNone | FindAt(pos: nat)
    | TakeNode | CopyNew | Append | Evict | ReturnEvicted
    | ReleasePacket | ReleaseFlow | LinkNode | UnlockBucket

  datatype SweeperAct = SweepLock | SweepUnlink(pos: nat) | SweepReturn | SweepUnlock

  datatype Thread = Gen(i: nat) | Par(j: nat) | Man(k: nat) | Sweep

  datatype Action =
    | ByGenerator(i: nat, g: GeneratorAct)
    | ByParser(j: nat, p: ParserAct)
    | ByManager(k: nat, m: ManagerAct)
    | BySweeper(w: SweeperAct)

  // ---------------------------------------------------------------- fields of objects

  function PoolOf(s: State, x: Obj): nat { if x in s.pool then s.pool[x] else 0 }

  function PacketOf(s: State, f: Obj): Obj { if f in s.packet then s.packet[f] else Packet(0, 0) }

  function KeyOf(s: State, x: Obj): Key { if x in s.key then s.key[x] else Key(0, 0, 0, 0, 0) }

  /** The ring that a pool pointer of an object of this kind designates. */
  function PoolPlace(x: Obj, n: nat): Place {
    match x
    case Packet(_, _) => PacketPool(n)
    case Flow(_, _) => FlowPool(n)
    case Session(_, _) => SessionPool(n)
  }

  function Hand(s: State, p: Place): Obj {
    if At(s.at, p) == [] then Packet(0, 0) else At(s.at, p)[0]
  }

  // ---------------------------------------------------------------- ring operations

  /** What an action moves: `n` objects from position `k` of one place to the end of another. */
  datatype Transfer = Stay | Transfer(from: Place, k: nat, n: nat, to: Place)

  /** Rings are bounded; hands and lists are not. */
  predicate RoomFor(l: Book, p: Place, n: nat) {
    match p
    case SessionPool(_) => |At(l, p)| + n <= SESSION_CAPACITY
    case PacketPool(_) => |At(l, p)| + n <= RING_CAPACITY
    case FlowPool(_) => |At(l, p)| + n <= RING_CAPACITY
    case ParserQueue(_) => |At(l, p)| + n <= RING_CAPACITY
    case ManagerQueue(_) => |At(l, p)| + n <= RING_CAPACITY
    case _ => true
  }

  predicate Available(l: Book, t: Transfer) {
    t.Stay? || (t.from != t.to && t.k + t.n <= |At(l, t.from)|)
  }

  /** The source has the objects and the target has room for them. */
  predicate Possible(l: Book, t: Transfer) {
    Available(l, t) && (t.Stay? || RoomFor(l, t.to, t.n))
  }

  function Carry(l: Book, t: Transfer): Book
    requires Available(l, t)
  {
    if t.Stay? then l else Move(l, t.from, t.k, t.n, t.to)
  }

  // ---------------------------------------------------------------- generator

  /** The round-robin choice of the next parser. */
  function NextParser(c: Config, i: nat, cur: nat): nat {
    if cur + c.g < c.p then cur + c.g else i
  }

  function GeneratorMoves(s: State, i: nat, a: GeneratorAct): Transfer
    requires i < |s.gens|
  {
    match a
    case BuildTake => Transfer(PacketPool(i), 0, 1, GeneratorHand(i))
    case BuildPut(_) => Transfer(GeneratorHand(i), 0, 1, PacketPool(i))
    case TakePacket => Transfer(PacketPool(i), 0, 1, GeneratorHand(i))
    case SendPacket =>
      if s.gens[i].pc.Sending? then Transfer(GeneratorHand(i), 0, 1, ParserQueue(s.gens[i].pc.parser)) else Stay
    case GiveBack => Transfer(GeneratorHand(i), 0, 1, PacketPool(PoolOf(s, Hand(s, GeneratorHand(i)))))
    case _ => Stay
  }

  predicate GeneratorAt(pc: GeneratorPc, a: GeneratorAct) {
    match a
    case BuildTake => pc.Building?
    case BuildSkip => pc.Building?
    case BuildPut(_) => pc.BuildingOne?
    case TakePacket => pc.GIdle?
    case Patch(_) => pc.Held?
    case Forward => pc.Patched?
    case Keep => pc.Patched?
    case SendPacket => pc.Sending?
    case GiveBack => pc.Returning?
  }

  /** Whether the thread is at the action, whatever the rings say. */
  predicate GeneratorGuard(c: Config, s: State, i: nat, a: GeneratorAct) {
    i < c.g && i < |s.gens| && GeneratorAt(s.gens[i].pc, a)
  }

  predicate GeneratorEnabled(c: Config, s: State, i: nat, a: GeneratorAct) {
    && GeneratorGuard(c, s, i, a) && Possible(s.at, GeneratorMoves(s, i, a))
    && (a.BuildSkip? ==> At(s.at, PacketPool(i)) == [])
  }

  function GeneratorNext(c: Config, i: nat, was: Generator, a: GeneratorAct): Generator {
    match a
    case BuildTake => if was.pc.Building? then was.(pc := BuildingOne(was.pc.done)) else was
    case BuildSkip => BuiltOne(was)
    case BuildPut(_) => BuiltOne(was)
    case TakePacket => was.(pc := Held)
    case Patch(_) => was.(pc := Patched)
    case Forward => Generator(Sending(was.next), NextParser(c, i, was.next))
    case Keep => was.(pc := Returning)
    case SendPacket => was.(pc := GIdle)
    case GiveBack => was.(pc := GIdle)
  }

  /** make_all_packet goes round the pool once. */
  function BuiltOne(was: Generator): Generator {
    if was.pc.Building? || was.pc.BuildingOne? then
      was.(pc := if was.pc.done + 1 == RING_CAPACITY then GIdle else Building(was.pc.done + 1))
    else was
  }

  /** What a step changes besides the places. */
  function GeneratorControl(c: Config, s: State, i: nat, a: GeneratorAct): State
    requires i < |s.gens|
  {
    var x := Hand(s, GeneratorHand(i));
    s.(gens := s.gens[i := GeneratorNext(c, i, s.gens[i], a)],
       pool := if a.BuildPut? then s.pool[x := i] else s.pool,
       key := match a case BuildPut(built) => s.key[x := built] case Patch(stamp) => s.key[x := stamp] case _ => s.key)
  }

  function GeneratorStep(c: Config, s: State, i: nat, a: GeneratorAct): State
    requires GeneratorEnabled(c, s, i, a)
  {
    GeneratorControl(c, s, i, a).(at := Carry(s.at, GeneratorMoves(s, i, a)))
  }

  // ---------------------------------------------------------------- parser

  function ParserMoves(c: Config, s: State, j: nat, a: ParserAct): Transfer
    requires j < |s.pars|
  {
    match a
    case TakeBatch => Transfer(ParserQueue(j), 0, BATCH, ParserPackets(j))
    case TakeFlows => Transfer(FlowPool(j), 0, BATCH, ParserFlows(j))
    case RouteFlow => Transfer(ParserPackets(j), 0, 1, Carried(Hand(s, ParserFlows(j))))
    case SendFlow => if s.pars[j].Offering? then Transfer(ParserFlows(j), 0, 1, ManagerQueue(s.pars[j].k)) else Stay
    case ReturnPackets => Transfer(ParserPackets(j), 0, BATCH, PacketPool(PoolOf(s, Hand(s, ParserPackets(j)))))
    case ReturnFlows => Transfer(ParserFlows(j), 0, BATCH, FlowPool(j))
    case _ => Stay
  }

  predicate ParserAt(pc: ParserPc, a: ParserAct) {
    match a
    case TakeBatch => pc.PIdle?
    case GoFlows => pc.Got?
    case NoFlows => pc.Got?
    case TakeFlows => pc.WantingFlows?
    case Fill => pc.GotFlows?
    case GoManagers => pc.Filled?
    case NoManagers => pc.Filled?
    case RouteFlow => pc.Handing?
    case SendFlow => pc.Offering?
    case ReturnPackets => pc.ReturningPackets?
    case ReturnFlows => pc.ReturningFlows?
  }

  predicate ParserGuard(c: Config, s: State, j: nat, a: ParserAct) {
    && j < c.p && j < |s.pars| && c.m > 0 && ParserAt(s.pars[j], a)
    && (a.Fill? ==> |At(s.at, ParserFlows(j))| == |At(s.at, ParserPackets(j))|)
  }

  /** A batch is only taken from a ring that holds at least `c.need` objects. */
  predicate ParserEnabled(c: Config, s: State, j: nat, a: ParserAct) {
    && ParserGuard(c, s, j, a) && Possible(s.at, ParserMoves(c, s, j, a))
    && (a.TakeBatch? ==> |At(s.at, ParserQueue(j))| >= c.need)
    && (a.TakeFlows? ==> |At(s.at, FlowPool(j))| >= c.need)
  }

  function ParserNext(c: Config, s: State, was: ParserPc, j: nat, a: ParserAct): ParserPc
    requires c.m > 0
  {
    match a
    case TakeBatch => Got
    case GoFlows => WantingFlows
    case NoFlows => ReturningPackets(false)
    case TakeFlows => GotFlows
    case Fill => Filled
    case GoManagers => Handing
    case NoManagers => ReturningPackets(true)
    case RouteFlow => Offering(c.ManagerOf(KeyOf(s, Hand(s, ParserFlows(j)))))
    case SendFlow => if |At(s.at, ParserFlows(j))| == 1 then PIdle else Handing
    case ReturnPackets => if was.ReturningPackets? && was.withFlows then ReturningFlows else PIdle
    case ReturnFlows => PIdle
  }

  /** `make_flow_item_tcp` on the whole batch: field of flow item `n` := value `n`. */
  function FillAll<T>(m: map<Obj, T>, flows: seq<Obj>, values: seq<T>): map<Obj, T>
    requires |flows| == |values|
  {
    if flows == [] then m
    else FillAll(m, flows[..|flows| - 1], values[..|values| - 1])[flows[|flows| - 1] := values[|values| - 1]]
  }

  function KeysOf(s: State, xs: seq<Obj>): seq<Key> {
    seq(|xs|, n requires 0 <= n < |xs| => KeyOf(s, xs[n]))
  }

  function ParserControl(c: Config, s: State, j: nat, a: ParserAct): State
    requires j < |s.pars| && c.m > 0
    requires a.Fill? ==> |At(s.at, ParserFlows(j))| == |At(s.at, ParserPackets(j))|
  {
    var packets, flows := At(s.at, ParserPackets(j)), At(s.at, ParserFlows(j));
    s.(pars := s.pars[j := ParserNext(c, s, s.pars[j], j, a)],
       packet := if a.Fill? then FillAll(s.packet, flows, packets) else s.packet,
       key := if a.Fill? then FillAll(s.key, flows, KeysOf(s, packets)) else s.key)
  }

  function ParserStep(c: Config, s: State, j: nat, a: ParserAct): State
    requires ParserEnabled(c, s, j, a)
  {
    ParserControl(c, s, j, a).(at := Carry(s.at, ParserMoves(c, s, j, a)))
  }

  // ---------------------------------------------------------------- manager

  function ManagerMoves(s: State, k: nat, a: ManagerAct): Transfer
    requires k < |s.mans|
  {
    var pc, f, n := s.mans[k], Hand(s, ManagerFlow(k)), Hand(s, ManagerSession(k));
    match a
    case TakeFlow => Transfer(ManagerQueue(k), 0, 1, ManagerFlow(k))
    case TakeNode => Transfer(SessionPool(k), 0, 1, ManagerSession(k))
    case Evict => if pc.Found? then Transfer(Bucket(k, pc.b), pc.pos, 1, ManagerSession(k)) else Stay
    case ReturnEvicted => Transfer(ManagerSession(k), 0, 1, SessionPool(PoolOf(s, n)))
    case ReleasePacket => Transfer(Carried(f), 0, 1, PacketPool(PoolOf(s, PacketOf(s, f))))
    case ReleaseFlow => Transfer(ManagerFlow(k), 0, 1, FlowPool(PoolOf(s, f)))
    case LinkNode => if pc.Linking? then Transfer(ManagerSession(k), 0, 1, Bucket(k, pc.b)) else Stay
    case _ => Stay
  }

  predicate SameKey(s: State, k: nat, b: nat, i: int)
    requires 0 <= i < |At(s.at, Bucket(k, b))|
  {
    KeyOf(s, At(s.at, Bucket(k, b))[i]) == KeyOf(s, Hand(s, ManagerFlow(k)))
  }

  /** The program counter at which a manager performs the action. */
  predicate ManagerAt(pc: ManagerPc, a: ManagerAct) {
    match a
    case TakeFlow => pc.MIdle?
    case GoDeep => pc.Taken?
    case StayShallow => pc.Taken?
    case LockBucket => pc.Locking?
    case FindNone => pc.Searching?
    case FindAt(_) => pc.Searching?
    case TakeNode => pc.WantingNode?
    case CopyNew => pc.Copying?
    case Append => pc.Found?
    case Evict => pc.Found?
    case ReturnEvicted => pc.Evicted?
    case ReleasePacket => pc.ReleasingPacket?
    case ReleaseFlow => pc.ReleasingFlow?
    case LinkNode => pc.Linking?
    case UnlockBucket => pc.Unlocking?
  }

  predicate ManagerGuard(c: Config, s: State, k: nat, a: ManagerAct) {
    && k < c.m && k < |s.mans| && c.buckets > 0
    && ManagerAt(s.mans[k], a)
    && match a
       case LockBucket => (k, c.BucketOf(KeyOf(s, Hand(s, ManagerFlow(k))))) !in s.locked
       case FindNone =>
         var b := s.mans[k].b;
         forall i :: 0 <= i < |At(s.at, Bucket(k, b))| ==> !SameKey(s, k, b, i)
       case FindAt(pos) =>
         var b := s.mans[k].b;
         && pos < |At(s.at, Bucket(k, b))| && SameKey(s, k, b, pos)
         && forall i :: 0 <= i < pos ==> !SameKey(s, k, b, i)
       case _ => true
  }

  predicate ManagerEnabled(c: Config, s: State, k: nat, a: ManagerAct) {
    ManagerGuard(c, s, k, a) && Possible(s.at, ManagerMoves(s, k, a))
  }

  function ManagerNext(was: ManagerPc, b: nat, a: ManagerAct): ManagerPc {
    match a
    case TakeFlow => Taken
    case GoDeep => Locking
    case StayShallow => ReleasingPacket(Shallow)
    case LockBucket => Searching(b)
    case FindNone => WantingNode(b)
    case FindAt(pos) => Found(b, pos)
    case TakeNode => Copying(b)
    case CopyNew => ReleasingPacket(Fresh(b))
    case Append => ReleasingPacket(Known(b))
    case Evict => Evicted(b)
    case ReturnEvicted => ReleasingPacket(Known(b))
    case ReleasePacket => if was.ReleasingPacket? then ReleasingFlow(was.mode) else was
    case ReleaseFlow =>
      if !was.ReleasingFlow? then was
      else (match was.mode case Shallow => MIdle case Fresh(_) => Linking(b) case Known(_) => Unlocking(b))
    case LinkNode => Unlocking(b)
    case UnlockBucket => MIdle
  }

  /** The manager holds the lock of one of its buckets. */
  predicate InSection(pc: ManagerPc) {
    match pc
    case MIdle => false
    case Taken => false
    case Locking => false
    case ReleasingPacket(mode) => !mode.Shallow?
    case ReleasingFlow(mode) => !mode.Shallow?
    case _ => true
  }

  /** ... namely of this one. */
  function Section(pc: ManagerPc): nat
    requires InSection(pc)
  {
    if pc.ReleasingPacket? || pc.ReleasingFlow? then pc.mode.b else pc.b
  }

  /** The bucket that the manager works on, or is about to. */
  function CurrentBucket(c: Config, s: State, k: nat): nat
    requires k < |s.mans| && c.buckets > 0
  {
    if InSection(s.mans[k]) then Section(s.mans[k]) else c.BucketOf(KeyOf(s, Hand(s, ManagerFlow(k))))
  }

  function ManagerControl(c: Config, s: State, k: nat, a: ManagerAct): State
    requires k < |s.mans| && c.buckets > 0
  {
    var b := CurrentBucket(c, s, k);
    var f, n := Hand(s, ManagerFlow(k)), Hand(s, ManagerSession(k));
    s.(mans := s.mans[k := ManagerNext(s.mans[k], b, a)],
       pool := if a.CopyNew? then s.pool[n := k] else s.pool,
       key := if a.CopyNew? then s.key[n := KeyOf(s, f)] else s.key,
       locked := if a.LockBucket? then s.locked + {(k, b)} else if a.UnlockBucket? then s.locked - {(k, b)} else s.locked)
  }

  function ManagerStep(c: Config, s: State, k: nat, a: ManagerAct): State
    requires ManagerEnabled(c, s, k, a)
  {
    ManagerControl(c, s, k, a).(at := Carry(s.at, ManagerMoves(s, k, a)))
  }

  // ---------------------------------------------------------------- sweeper

  function SweeperMoves(s: State, a: SweeperAct): Transfer {
    match a
    case SweepUnlink(pos) =>
      if s.sweeper.Walking? then Transfer(Bucket(s.sweeper.m, s.sweeper.b), pos, 1, SweeperHand) else Stay
    case SweepReturn => Transfer(SweeperHand, 0, 1, SessionPool(PoolOf(s, Hand(s, SweeperHand))))
    case _ => Stay
  }

  predicate SweeperAt(pc: SweeperPc, a: SweeperAct) {
    match a
    case SweepLock => pc.SIdle?
    case SweepUnlink(_) => pc.Walking?
    case SweepReturn => pc.Unlinked?
    case SweepUnlock => pc.Walking?
  }

  predicate SweeperGuard(c: Config, s: State, a: SweeperAct) {
    && SweeperAt(s.sweeper, a)
    && (a.SweepLock? ==> (s.sweeper.m, s.sweeper.b) !in s.locked)
    && (a.SweepUnlink? ==> a.pos >= s.sweeper.kept)
  }

  predicate SweeperEnabled(c: Config, s: State, a: SweeperAct) {
    SweeperGuard(c, s, a) && Possible(s.at, SweeperMoves(s, a))
  }

  /** The bucket after bucket `b` of manager `m`. */
  function NextBucket(c: Config, m: nat, b: nat): SweeperPc {
    if b + 1 < c.buckets then SIdle(m, b + 1) else if m + 1 < c.m then SIdle(m + 1, 0) else SIdle(0, 0)
  }

  function SweeperControl(c: Config, s: State, a: SweeperAct): State
    requires SweeperAt(s.sweeper, a)
  {
    match a
    case SweepLock => s.(locked := s.locked + {(s.sweeper.m, s.sweeper.b)}, sweeper := Walking(s.sweeper.m, s.sweeper.b, 0))
    case SweepUnlink(pos) => s.(sweeper := Unlinked(s.sweeper.m, s.sweeper.b, pos))
    case SweepReturn => s.(sweeper := Walking(s.sweeper.m, s.sweeper.b, s.sweeper.kept))
    case SweepUnlock =>
      s.(locked := s.locked - {(s.sweeper.m, s.sweeper.b)}, sweeper := NextBucket(c, s.sweeper.m, s.sweeper.b))
  }

  function SweeperStep(c: Config, s: State, a: SweeperAct): State
    requires SweeperEnabled(c, s, a)
  {
    SweeperControl(c, s, a).(at := Carry(s.at, SweeperMoves(s, a)))
  }

  // ---------------------------------------------------------------- whole system

  predicate IsRing(p: Place) {
    p.PacketPool? || p.FlowPool? || p.SessionPool? || p.ParserQueue? || p.ManagerQueue?
  }

  predicate Guard(c: Config, s: State, a: Action) {
    match a
    case ByGenerator(i, g) => GeneratorGuard(c, s, i, g)
    case ByParser(j, p) => ParserGuard(c, s, j, p)
    case ByManager(k, m) => ManagerGuard(c, s, k, m)
    case BySweeper(w) => SweeperGuard(c, s, w)
  }

  /** What any action moves. */
  function Moves(c: Config, s: State, a: Action): Transfer
    requires Guard(c, s, a)
  {
    match a
    case ByGenerator(i, g) => GeneratorMoves(s, i, g)
    case ByParser(j, p) => ParserMoves(c, s, j, p)
    case ByManager(k, m) => ManagerMoves(s, k, m)
    case BySweeper(w) => SweeperMoves(s, w)
  }

  /** What any action changes besides the places. */
  function Control(c: Config, s: State, a: Action): State
    requires Guard(c, s, a)
  {
    match a
    case ByGenerator(i, g) => GeneratorControl(c, s, i, g)
    case ByParser(j, p) => ParserControl(c, s, j, p)
    case ByManager(k, m) => ManagerControl(c, s, k, m)
    case BySweeper(w) => SweeperControl(c, s, w)
  }

  predicate Enabled(c: Config, s: State, a: Action) {
    match a
    case ByGenerator(i, g) => GeneratorEnabled(c, s, i, g)
    case ByParser(j, p) => ParserEnabled(c, s, j, p)
    case ByManager(k, m) => ManagerEnabled(c, s, k, m)
    case BySweeper(w) => SweeperEnabled(c, s, w)
  }

  function Step(c: Config, s: State, a: Action): State
    requires Enabled(c, s, a)
  {
    match a
    case ByGenerator(i, g) => GeneratorStep(c, s, i, g)
    case ByParser(j, p) => ParserStep(c, s, j, p)
    case ByManager(k, m) => ManagerStep(c, s, k, m)
    case BySweeper(w) => SweeperStep(c, s, w)
  }

  /** The sweeper has not been started, or is about to enter the first bucket. */
  predicate AtStart(pc: SweeperPc) { pc == Off || pc == SIdle(0, 0) }

  /** Every pool is filled exactly to the capacity of its ring; all else is empty, and
      whatever the memory of the objects holds is arbitrary except the pool of a flow item. */
  ghost predicate Init(c: Config, s: State) {
    && |s.gens| == c.g && |s.pars| == c.p && |s.mans| == c.m
    && (forall i :: 0 <= i < c.g ==> s.gens[i] == Generator(Building(0), i))
    && (forall j :: 0 <= j < c.p ==> s.pars[j] == PIdle)
    && (forall k :: 0 <= k < c.m ==> s.mans[k] == MIdle)
    && AtStart(s.sweeper) && s.locked == {}
    && (forall p, i, x {:trigger Holds(s.at, p, i, x)} ::
          Holds(s.at, p, i, x) <==> Real(c, x) && p == PoolPlace(x, x.home) && i == x.slot)
    && (forall x: Obj {:trigger PoolOf(s, x)} :: Real(c, x) && x.Flow? ==> PoolOf(s, x) == x.home)
  }

  ghost predicate IsRun(c: Config, s: State, acts: seq<Action>, t: State)
    decreases |acts|
  {
    if acts == [] then s == t
    else Enabled(c, s, acts[0]) && IsRun(c, Step(c, s, acts[0]), acts[1..], t)
  }

  /** `t` can be reached from some initial state. */
  ghost predicate Reachable(c: Config, t: State) {
    exists s, acts :: Init(c, s) && IsRun(c, s, acts, t)
  }
}
