/** What every step of the pipeline keeps. */
module PipelineInvariant {
  import opened Common
  import opened Ledger
  import opened FlowKey
  import opened Pipeline

  // ---------------------------------------------------------------- threads and their hands

  predicate GeneratorShape(c: Config, s: State, i: nat)
    requires c.Valid() && i < |s.gens|
  {
    var hand := |At(s.at, GeneratorHand(i))|;
    var pool := |At(s.at, PacketPool(i))|;
    s.gens[i].next < c.p && s.gens[i].next % c.g == i &&
    match s.gens[i].pc
    case Building(done) => done < RING_CAPACITY && hand == 0 && pool == RING_CAPACITY
    case BuildingOne(done) => done < RING_CAPACITY && hand == 1 && pool + 1 == RING_CAPACITY
    case GIdle => hand == 0
    case Held => hand == 1
    case Patched => hand == 1
    case Sending(j) => hand == 1 && j < c.p && j % c.g == i
    case Returning => hand == 1
  }

  predicate ParserShape(s: State, j: nat)
    requires j < |s.pars|
  {
    var packets := |At(s.at, ParserPackets(j))|;
    var flows := |At(s.at, ParserFlows(j))|;
    match s.pars[j]
    case PIdle => packets == 0 && flows == 0
    case Got => packets == BATCH && flows == 0
    case WantingFlows => packets == BATCH && flows == 0
    case GotFlows => packets == BATCH && flows == BATCH
    case Filled => packets == BATCH && flows == BATCH
    case Handing => packets == flows && 0 < flows <= BATCH
    case Offering(k) => packets + 1 == flows <= BATCH
    case ReturningPackets(withFlows) => packets == BATCH && flows == if withFlows then BATCH else 0
    case ReturningFlows => packets == 0 && flows == BATCH
  }

  predicate HoldsFlow(pc: ManagerPc) { !pc.MIdle? && !pc.Linking? && !pc.Unlocking? }

  predicate HoldsNode(pc: ManagerPc) {
    || pc.Copying? || pc.Evicted? || pc.Linking?
    || ((pc.ReleasingPacket? || pc.ReleasingFlow?) && pc.mode.Fresh?)
  }

  predicate HasLock(pc: ManagerPc, b: nat) { InSection(pc) && Section(pc) == b }

  /** The sweeper is in a bucket and holds its lock. */
  predicate Inside(pc: SweeperPc) { pc.Walking? || pc.Unlinked? }

  predicate SweeperHas(s: State, m: nat, b: nat) {
    Inside(s.sweeper) && s.sweeper.m == m && s.sweeper.b == b
  }

  predicate ManagerShape(s: State, k: nat)
    requires k < |s.mans|
  {
    && |At(s.at, ManagerFlow(k))| == (if HoldsFlow(s.mans[k]) then 1 else 0)
    && |At(s.at, ManagerSession(k))| == (if HoldsNode(s.mans[k]) then 1 else 0)
  }

  ghost predicate Threads(c: Config, s: State)
    requires c.Valid()
  {
    && |s.gens| == c.g && |s.pars| == c.p && |s.mans| == c.m
    && (forall i {:trigger s.gens[i]} :: 0 <= i < c.g ==> GeneratorShape(c, s, i))
    && (forall j {:trigger s.pars[j]} :: 0 <= j < c.p ==> ParserShape(s, j))
    && (forall k {:trigger s.mans[k]} :: 0 <= k < c.m ==> ManagerShape(s, k))
    && |At(s.at, SweeperHand)| == (if s.sweeper.Unlinked? then 1 else 0)
  }

  /** A bucket lock is held by the bucket's manager or by the sweeper, never by both. */
  ghost predicate Locks(c: Config, s: State) {
    && |s.mans| == c.m
    && (!s.sweeper.Off? ==> s.sweeper.m < c.m && s.sweeper.b < c.buckets)
    && (forall k, b: nat {:trigger HasLock(s.mans[k], b)} ::
          0 <= k < c.m && HasLock(s.mans[k], b) ==> b < c.buckets && !SweeperHas(s, k, b))
    && (forall k: nat, b: nat {:trigger (k, b) in s.locked} ::
          (k, b) in s.locked <==> (k < c.m && HasLock(s.mans[k], b)) || SweeperHas(s, k, b))
  }

  // ---------------------------------------------------------------- pointers inside objects

  /** Packets that make_all_packet has not yet written. */
  predicate Raw(s: State, p: Place, i: int) {
    || (p.PacketPool? && p.i < |s.gens| && (s.gens[p.i].pc.Building? || s.gens[p.i].pc.BuildingOne?)
        && i + s.gens[p.i].pc.done < |At(s.at, p)|)
    || (p.GeneratorHand? && p.i < |s.gens| && s.gens[p.i].pc.BuildingOne?)
  }

  /** Sessions whose pool pointer make_new_session has written. */
  predicate Stamped(s: State, p: Place) {
    || p.Bucket? || p.SweeperHand?
    || (p.ManagerSession? && p.i < |s.mans| && !s.mans[p.i].Copying?)
  }

  ghost predicate FlowPointers(c: Config, s: State) {
    forall x: Obj {:trigger PoolOf(s, x)} :: Real(c, x) && x.Flow? ==> PoolOf(s, x) == x.home
  }

  ghost predicate PacketPointers(s: State) {
    forall p: Place, i, x: Obj {:trigger Holds(s.at, p, i, x)} ::
      Holds(s.at, p, i, x) && x.Packet? && !Raw(s, p, i) ==> PoolOf(s, x) == x.home
  }

  ghost predicate SessionPointers(s: State) {
    forall p: Place, i, x: Obj {:trigger Holds(s.at, p, i, x)} ::
      Holds(s.at, p, i, x) && x.Session? && Stamped(s, p) ==> PoolOf(s, x) == x.home
  }

  /** Pool pointers lead home. */
  ghost predicate Pointers(c: Config, s: State) {
    FlowPointers(c, s) && PacketPointers(s) && SessionPointers(s)
  }

  /** Positions where a flow item has its packet with it. */
  predicate Carrying(s: State, p: Place, i: int) {
    || p.ManagerQueue?
    || (p.ManagerFlow? && p.i < |s.mans| && !s.mans[p.i].ReleasingFlow?)
    || (p.ParserFlows? && p.i < |s.pars| && s.pars[p.i].Offering? && i == 0)
  }

  /** A flow item on its way to or through a manager owns the packet it points to, and
      describes it truly; everywhere else it owns none. */
  predicate CargoOf(s: State, f: Obj, carrying: bool) {
    if carrying then At(s.at, Carried(f)) == [PacketOf(s, f)] && KeyOf(s, f) == KeyOf(s, PacketOf(s, f))
    else At(s.at, Carried(f)) == []
  }

  ghost predicate Cargo(s: State) {
    forall p: Place, i, f: Obj {:trigger Holds(s.at, p, i, f)} ::
      Holds(s.at, p, i, f) && f.Flow? ==> CargoOf(s, f, Carrying(s, p, i))
  }

  /** A filled batch: flow item `n` points to packet `n` and describes it truly; `sent`
      counts a flow item at the front that already has its packet with it. */
  predicate Matched(s: State, j: nat, sent: nat) {
    var packets, flows := At(s.at, ParserPackets(j)), At(s.at, ParserFlows(j));
    |packets| + sent == |flows| &&
    forall n :: 0 <= n < |packets| ==>
      PacketOf(s, flows[n + sent]) == packets[n] && KeyOf(s, flows[n + sent]) == KeyOf(s, packets[n])
  }

  ghost predicate Batches(c: Config, s: State) {
    |s.pars| == c.p &&
    forall j {:trigger s.pars[j]} :: 0 <= j < c.p ==>
      (s.pars[j].Filled? || s.pars[j].Handing? ==> Matched(s, j, 0)) && (s.pars[j].Offering? ==> Matched(s, j, 1))
  }

  // ---------------------------------------------------------------- sessions and keys

  /** A parser that offers a flow item to a manager offers it to the right one. */
  ghost predicate OffersRight(c: Config, s: State, j: nat)
    requires c.Valid() && j < |s.pars|
  {
    s.pars[j].Offering? ==> s.pars[j].k == c.ManagerOf(KeyOf(s, Hand(s, ParserFlows(j))))
  }

  /** Flow items and sessions are where their key's hashes say. */
  ghost predicate Routed(c: Config, s: State)
    requires c.Valid()
  {
    && (forall p: Place, i, x: Obj {:trigger Holds(s.at, p, i, x)} ::
          Holds(s.at, p, i, x) && x.Flow? && (p.ManagerQueue? || p.ManagerFlow?) ==>
          c.ManagerOf(KeyOf(s, x)) == p.i)
    && (forall j {:trigger s.pars[j]} :: 0 <= j < |s.pars| ==> OffersRight(c, s, j))
    && (forall p: Place, i, x: Obj {:trigger Holds(s.at, p, i, x)} ::
          Holds(s.at, p, i, x) && p.Bucket? ==>
          c.ManagerOf(KeyOf(s, x)) == p.i && c.BucketOf(KeyOf(s, x)) == p.b)
  }

  ghost predicate NoSessionFor(s: State, p: Place, key: Key) {
    forall i, x {:trigger Holds(s.at, p, i, x)} :: Holds(s.at, p, i, x) ==> KeyOf(s, x) != key
  }

  /** What a manager inside a critical section knows about the bucket. */
  ghost predicate BucketFacts(c: Config, s: State, k: nat)
    requires c.Valid() && k < |s.mans|
  {
    var f := Hand(s, ManagerFlow(k));
    match s.mans[k]
    case WantingNode(b) => NoSessionFor(s, Bucket(k, b), KeyOf(s, f))
    case Copying(b) => NoSessionFor(s, Bucket(k, b), KeyOf(s, f))
    case Found(b, pos) => pos < |At(s.at, Bucket(k, b))| && KeyOf(s, At(s.at, Bucket(k, b))[pos]) == KeyOf(s, f)
    case ReleasingPacket(mode) => mode.Fresh? ==> NewNode(c, s, k, mode.b)
    case ReleasingFlow(mode) => mode.Fresh? ==> NewNode(c, s, k, mode.b)
    case Linking(b) => NewNode(c, s, k, b)
    case _ => true
  }

  ghost predicate ManagerKnows(c: Config, s: State, k: nat)
    requires c.Valid() && k < |s.mans|
  {
    && (InSection(s.mans[k]) && HoldsFlow(s.mans[k]) ==>
          c.BucketOf(KeyOf(s, Hand(s, ManagerFlow(k)))) == Section(s.mans[k]))
    && BucketFacts(c, s, k)
  }

  /** The node in the manager's hand may join bucket `b`. */
  ghost predicate NewNode(c: Config, s: State, k: nat, b: nat)
    requires c.Valid()
  {
    var key := KeyOf(s, Hand(s, ManagerSession(k)));
    c.ManagerOf(key) == k && c.BucketOf(key) == b && NoSessionFor(s, Bucket(k, b), key)
  }

  /** A bucket never holds two sessions of one key. */
  ghost predicate OnePerKey(s: State) {
    forall p: Place, i, j, x, y {:trigger Holds(s.at, p, i, x), Holds(s.at, p, j, y)} ::
      p.Bucket? && Holds(s.at, p, i, x) && Holds(s.at, p, j, y) && KeyOf(s, x) == KeyOf(s, y) ==> x == y
  }

  ghost predicate Sessions(c: Config, s: State)
    requires c.Valid()
  {
    && Routed(c, s) && OnePerKey(s) && |s.mans| == c.m
    && forall k {:trigger s.mans[k]} :: 0 <= k < c.m ==> ManagerKnows(c, s, k)
  }

  ghost predicate Inv(c: Config, s: State) {
    && c.Valid() && Sound(c, s.at) && Threads(c, s) && Locks(c, s)
    && Pointers(c, s) && Cargo(s) && Batches(c, s) && Sessions(c, s)
  }
}
