/** Every step of every thread keeps the pipeline invariant. */
module PipelineSafety {
  import opened Common
  import opened Ledger
  import opened Pipeline
  import opened PipelineInvariant
  import Arith

  // ---------------------------------------------------------------- transfers

  lemma CarryAt(l: Book, t: Transfer)
    requires Available(l, t)
    ensures var l' := Carry(l, t);
      && (t.Stay? ==> l' == l)
      && (!t.Stay? ==>
            && At(l', t.from) == At(l, t.from)[..t.k] + At(l, t.from)[t.k + t.n..]
            && At(l', t.to) == At(l, t.to) + At(l, t.from)[t.k..t.k + t.n]
            && forall p {:trigger At(l', p)} :: p != t.from && p != t.to ==> At(l', p) == At(l, p))
  {
    if !t.Stay? {
      MoveAt(l, t.from, t.k, t.n, t.to);
    }
  }

  function OriginOf(l: Book, t: Transfer, p: Place, i: int): (Place, int) {
    if t.Stay? then (p, i) else Origin(l, t.from, t.k, t.n, t.to, p, i)
  }

  lemma CarryOrigin(l: Book, t: Transfer, p: Place, i: int, x: Obj)
    requires Available(l, t) && Holds(Carry(l, t), p, i, x)
    ensures Holds(l, OriginOf(l, t, p, i).0, OriginOf(l, t, p, i).1, x)
  {
    if !t.Stay? {
      MoveOrigin(l, t.from, t.k, t.n, t.to, p, i, x);
    }
  }

  lemma Elementwise(l: Book, p: Place)
    ensures forall i :: 0 <= i < |At(l, p)| ==> Holds(l, p, i, At(l, p)[i])
  {
  }

  // ---------------------------------------------------------------- exactly one place

  /** The objects that move are allowed where they go. */
  ghost predicate Suits(c: Config, l: Book, t: Transfer)
    requires c.Valid() && Available(l, t)
  {
    t.Stay? || forall i :: t.k <= i < t.k + t.n ==> Fits(c, t.to, At(l, t.from)[i])
  }

  lemma GeneratorSuits(c: Config, s: State, i: nat, a: GeneratorAct)
    requires c.Valid() && Sound(c, s.at) && Threads(c, s) && Pointers(c, s)
    requires GeneratorEnabled(c, s, i, a)
    ensures Suits(c, s.at, GeneratorMoves(s, i, a))
  {
    assert GeneratorShape(c, s, i);
    Elementwise(s.at, GeneratorHand(i));
    Elementwise(s.at, PacketPool(i));
  }

  lemma ParserSuits(c: Config, s: State, j: nat, a: ParserAct)
    requires c.Valid() && Sound(c, s.at) && Threads(c, s) && Pointers(c, s) && Routed(c, s)
    requires ParserEnabled(c, s, j, a)
    ensures Suits(c, s.at, ParserMoves(c, s, j, a))
  {
    assert ParserShape(s, j);
    var t := ParserMoves(c, s, j, a);
    if !t.Stay? {
      Elementwise(s.at, t.from);
      Elementwise(s.at, ParserFlows(j));
    }
  }

  lemma ManagerSuits(c: Config, s: State, k: nat, a: ManagerAct)
    requires c.Valid() && Sound(c, s.at) && Threads(c, s) && Pointers(c, s) && Cargo(s) && Locks(c, s)
    requires ManagerEnabled(c, s, k, a)
    ensures Suits(c, s.at, ManagerMoves(s, k, a))
  {
    assert ManagerShape(s, k);
    var t := ManagerMoves(s, k, a);
    if !t.Stay? {
      Elementwise(s.at, t.from);
      if a.ReleasePacket? {
        Elementwise(s.at, ManagerFlow(k));
      } else if a.LinkNode? {
        assert HasLock(s.mans[k], s.mans[k].b);
      }
    }
  }

  lemma SweeperSuits(c: Config, s: State, a: SweeperAct)
    requires c.Valid() && Sound(c, s.at) && Pointers(c, s)
    requires SweeperEnabled(c, s, a)
    ensures Suits(c, s.at, SweeperMoves(s, a))
  {
    var t := SweeperMoves(s, a);
    if !t.Stay? {
      Elementwise(s.at, t.from);
    }
  }

  lemma CarrySound(c: Config, l: Book, t: Transfer)
    requires c.Valid() && Sound(c, l) && Available(l, t) && Suits(c, l, t)
    ensures Sound(c, Carry(l, t))
  {
    if !t.Stay? {
      MoveSound(c, l, t.from, t.k, t.n, t.to);
    }
  }

  // ---------------------------------------------------------------- there is room to come home

  /** Packets of generator `i` outside its pool and hand leave that much room in the pool. */
  lemma PacketRoom(c: Config, l: Book, i: nat, p: Place)
    requires c.Valid() && Sound(c, l)
    requires p != PacketPool(i) && p != GeneratorHand(i)
    requires forall n :: 0 <= n < |At(l, p)| ==> At(l, p)[n].Packet? && At(l, p)[n].home == i
    ensures |At(l, PacketPool(i))| + |At(l, GeneratorHand(i))| + |At(l, p)| <= RING_CAPACITY
  {
    var ps := [PacketPool(i), GeneratorHand(i), p];
    forall q, n, y | q in ps && Holds(l, q, n, y) ensures Kin(Packet(i, 0), y) {
      assert Fits(c, q, y);
    }
    Bounded(c, l, ps, Packet(i, 0));
    assert Total(l, ps[1..][1..]) == |At(l, ps[2])| + Total(l, ps[1..][1..][1..]);
  }

  // ---------------------------------------------------------------- hands match program counters

  lemma CarryLengths(l: Book, t: Transfer)
    requires Available(l, t)
    ensures var l' := Carry(l, t);
      && (t.Stay? ==> forall p {:trigger At(l', p)} :: |At(l', p)| == |At(l, p)|)
      && (!t.Stay? ==>
            && |At(l', t.from)| == |At(l, t.from)| - t.n
            && |At(l', t.to)| == |At(l, t.to)| + t.n
            && forall p {:trigger At(l', p)} :: p != t.from && p != t.to ==> |At(l', p)| == |At(l, p)|)
  {
    CarryAt(l, t);
  }

  /** The place is shared, or it is a hand of this thread. */
  predicate Within(p: Place, th: Thread) {
    match p
    case GeneratorHand(i) => th == Gen(i)
    case ParserPackets(j) => th == Par(j)
    case ParserFlows(j) => th == Par(j)
    case ManagerFlow(k) => th == Man(k)
    case ManagerSession(k) => th == Man(k)
    case SweeperHand => th == Sweep
    case _ => true
  }

  predicate IsBuilding(s: State, i: nat)
    requires i < |s.gens|
  {
    s.gens[i].pc.Building? || s.gens[i].pc.BuildingOne?
  }

  /** The transfer stays out of other threads' hands and of pools still being built. */
  predicate Proper(c: Config, s: State, t: Transfer, th: Thread)
    requires |s.gens| == c.g
  {
    t.Stay? ||
    (&& Within(t.from, th) && Within(t.to, th)
     && (t.from.PacketPool? && t.from.i < c.g && IsBuilding(s, t.from.i) ==> th == Gen(t.from.i))
     && (t.to.PacketPool? && t.to.i < c.g && IsBuilding(s, t.to.i) ==> th == Gen(t.to.i)))
  }

  predicate OthersIdle(s: State, s': State, th: Thread) {
    && |s'.gens| == |s.gens| && |s'.pars| == |s.pars| && |s'.mans| == |s.mans|
    && (forall i {:trigger s'.gens[i]} :: 0 <= i < |s.gens| && th != Gen(i) ==> s'.gens[i] == s.gens[i])
    && (forall j {:trigger s'.pars[j]} :: 0 <= j < |s.pars| && th != Par(j) ==> s'.pars[j] == s.pars[j])
    && (forall k {:trigger s'.mans[k]} :: 0 <= k < |s.mans| && th != Man(k) ==> s'.mans[k] == s.mans[k])
    && (th != Sweep ==> s'.sweeper == s.sweeper)
  }

  predicate OwnShape(c: Config, s: State, th: Thread)
    requires c.Valid() && |s.gens| == c.g && |s.pars| == c.p && |s.mans| == c.m
  {
    match th
    case Gen(i) => i < c.g && GeneratorShape(c, s, i)
    case Par(j) => j < c.p && ParserShape(s, j)
    case Man(k) => k < c.m && ManagerShape(s, k)
    case Sweep => |At(s.at, SweeperHand)| == (if s.sweeper.Unlinked? then 1 else 0)
  }

  /** Whoever acts, the other threads' hands still match their program counters. */
  lemma OthersKeepShape(c: Config, s: State, s': State, t: Transfer, th: Thread)
    requires c.Valid() && Threads(c, s) && Available(s.at, t) && s'.at == Carry(s.at, t)
    requires Proper(c, s, t, th) && OthersIdle(s, s', th) && OwnShape(c, s', th)
    ensures Threads(c, s')
  {
    CarryLengths(s.at, t);
    forall i | 0 <= i < c.g && th != Gen(i) ensures GeneratorShape(c, s', i) {
      assert GeneratorShape(c, s, i) && s'.gens[i] == s.gens[i];
    }
    forall j | 0 <= j < c.p && th != Par(j) ensures ParserShape(s', j) {
      assert ParserShape(s, j) && s'.pars[j] == s.pars[j];
    }
    ManagersKeepShape(c, s, s', t, th);
    forall i | 0 <= i < c.g ensures GeneratorShape(c, s', i) { var _ := s'.gens[i]; }
    forall j | 0 <= j < c.p ensures ParserShape(s', j) { var _ := s'.pars[j]; }
    forall k | 0 <= k < c.m ensures ManagerShape(s', k) { var _ := s'.mans[k]; }
  }

  lemma ManagersKeepShape(c: Config, s: State, s': State, t: Transfer, th: Thread)
    requires c.Valid() && Threads(c, s) && Available(s.at, t) && s'.at == Carry(s.at, t)
    requires Proper(c, s, t, th) && OthersIdle(s, s', th)
    ensures forall k {:trigger s'.mans[k]} :: 0 <= k < c.m && th != Man(k) ==> ManagerShape(s', k)
  {
    CarryLengths(s.at, t);
    forall k | 0 <= k < c.m && th != Man(k) ensures ManagerShape(s', k) {
      assert ManagerShape(s, k) && s'.mans[k] == s.mans[k];
    }
  }

  /** A packet in the hand of a generator past building is the generator's own. */
  lemma GeneratorReturnsTo(c: Config, s: State, i: nat)
    requires c.Valid() && Sound(c, s.at) && Threads(c, s) && Pointers(c, s)
    requires i < c.g && s.gens[i].pc.Returning?
    ensures PoolOf(s, Hand(s, GeneratorHand(i))) == i
  {
    assert GeneratorShape(c, s, i);
    assert Holds(s.at, GeneratorHand(i), 0, Hand(s, GeneratorHand(i)));
  }

  lemma GeneratorThreads(c: Config, s: State, i: nat, a: GeneratorAct)
    requires c.Valid() && Sound(c, s.at) && Threads(c, s) && Pointers(c, s)
    requires GeneratorEnabled(c, s, i, a)
    ensures Threads(c, GeneratorStep(c, s, i, a))
  {
    assert GeneratorShape(c, s, i);
    CarryLengths(s.at, GeneratorMoves(s, i, a));
    // The round-robin rule keeps generator `i` within the parsers that are `i` modulo `g`.
    Arith.AddModulus(s.gens[i].next, c.g);
    Arith.DivModUnique(i, c.g, 0, i);
    if a.GiveBack? { GeneratorReturnsTo(c, s, i); }
    OthersKeepShape(c, s, GeneratorStep(c, s, i, a), GeneratorMoves(s, i, a), Gen(i));
  }

  /** A batch of packets goes back to the one generator that feeds this parser, and there
      is room for it: a generator that is still building has all its packets at home. */
  lemma ParserReturnsTo(c: Config, s: State, j: nat)
    requires c.Valid() && Sound(c, s.at) && Threads(c, s) && Pointers(c, s)
    requires j < c.p && s.pars[j].ReturningPackets?
    ensures PoolOf(s, Hand(s, ParserPackets(j))) == j % c.g < c.g
    ensures !IsBuilding(s, j % c.g)
    ensures |At(s.at, PacketPool(j % c.g))| + BATCH <= RING_CAPACITY
  {
    assert ParserShape(s, j);
    Elementwise(s.at, ParserPackets(j));
    PacketRoom(c, s.at, j % c.g, ParserPackets(j));
    assert GeneratorShape(c, s, j % c.g);
  }

  lemma ParserOwnShape(c: Config, s: State, j: nat, a: ParserAct)
    requires c.Valid() && Threads(c, s)
    requires ParserEnabled(c, s, j, a)
    ensures ParserShape(ParserStep(c, s, j, a), j)
  {
    assert ParserShape(s, j);
    CarryLengths(s.at, ParserMoves(c, s, j, a));
  }

  lemma ParserThreads(c: Config, s: State, j: nat, a: ParserAct)
    requires c.Valid() && Sound(c, s.at) && Threads(c, s) && Pointers(c, s)
    requires ParserEnabled(c, s, j, a)
    ensures Threads(c, ParserStep(c, s, j, a))
  {
    ParserOwnShape(c, s, j, a);
    if a.ReturnPackets? { ParserReturnsTo(c, s, j); }
    OthersKeepShape(c, s, ParserStep(c, s, j, a), ParserMoves(c, s, j, a), Par(j));
  }

  /** The packet that a manager releases comes with the flow item, and its home has room. */
  lemma ManagerReturnsTo(c: Config, s: State, k: nat)
    requires c.Valid() && Sound(c, s.at) && Threads(c, s) && Pointers(c, s) && Cargo(s)
    requires k < c.m && s.mans[k].ReleasingPacket?
    ensures var f := Hand(s, ManagerFlow(k));
      var h := PacketOf(s, f).home;
      && At(s.at, Carried(f)) == [PacketOf(s, f)]
      && PoolOf(s, PacketOf(s, f)) == h < c.g && !IsBuilding(s, h)
      && |At(s.at, PacketPool(h))| < RING_CAPACITY
  {
    var f := Hand(s, ManagerFlow(k));
    var x := PacketOf(s, f);
    assert ManagerShape(s, k);
    assert Holds(s.at, ManagerFlow(k), 0, f) && Carrying(s, ManagerFlow(k), 0);
    assert Fits(c, ManagerFlow(k), f);
    assert Holds(s.at, Carried(f), 0, x);
    assert Fits(c, Carried(f), x);
    PacketRoom(c, s.at, x.home, Carried(f));
    assert GeneratorShape(c, s, x.home);
  }

  /** Which actions fill and empty the manager's hands. */
  lemma ManagerHands(was: ManagerPc, b: nat, a: ManagerAct)
    requires ManagerAt(was, a)
    ensures var now := ManagerNext(was, b, a);
      && (a.TakeFlow? ==> !HoldsFlow(was) && HoldsFlow(now))
      && (a.ReleaseFlow? ==> HoldsFlow(was) && !HoldsFlow(now))
      && (!a.TakeFlow? && !a.ReleaseFlow? ==> (HoldsFlow(now) <==> HoldsFlow(was)))
      && (a.TakeNode? || a.Evict? ==> !HoldsNode(was) && HoldsNode(now))
      && (a.ReturnEvicted? || a.LinkNode? ==> HoldsNode(was) && !HoldsNode(now))
      && (!a.TakeNode? && !a.Evict? && !a.ReturnEvicted? && !a.LinkNode? ==> (HoldsNode(now) <==> HoldsNode(was)))
  {
  }

  /** A manager stays out of other threads' hands and of pools that are being built. */
  lemma ManagerStaysOut(c: Config, s: State, k: nat, a: ManagerAct)
    requires c.Valid() && Sound(c, s.at) && Threads(c, s) && Pointers(c, s) && Cargo(s)
    requires ManagerEnabled(c, s, k, a)
    ensures Proper(c, s, ManagerMoves(s, k, a), Man(k))
  {
    if a.ReleasePacket? { ManagerReturnsTo(c, s, k); }
  }

  lemma ManagerThreads(c: Config, s: State, k: nat, a: ManagerAct)
    requires c.Valid() && Sound(c, s.at) && Threads(c, s) && Pointers(c, s) && Cargo(s)
    requires ManagerEnabled(c, s, k, a)
    ensures Threads(c, ManagerStep(c, s, k, a))
  {
    assert ManagerShape(s, k);
    CarryLengths(s.at, ManagerMoves(s, k, a));
    ManagerHands(s.mans[k], CurrentBucket(c, s, k), a);
    assert ManagerShape(ManagerStep(c, s, k, a), k);
    ManagerStaysOut(c, s, k, a);
    OthersKeepShape(c, s, ManagerStep(c, s, k, a), ManagerMoves(s, k, a), Man(k));
  }

  lemma SweeperThreads(c: Config, s: State, a: SweeperAct)
    requires c.Valid() && Threads(c, s)
    requires SweeperEnabled(c, s, a)
    ensures Threads(c, SweeperStep(c, s, a))
  {
    CarryLengths(s.at, SweeperMoves(s, a));
    OthersKeepShape(c, s, SweeperStep(c, s, a), SweeperMoves(s, a), Sweep);
  }

  // ---------------------------------------------------------------- locks exclude

  lemma SectionKept(was: ManagerPc, b: nat, a: ManagerAct)
    requires ManagerAt(was, a) && (InSection(was) ==> b == Section(was))
    ensures var now := ManagerNext(was, b, a);
      && (a.LockBucket? ==> !InSection(was) && InSection(now))
      && (a.UnlockBucket? ==> InSection(was) && !InSection(now))
      && (!a.LockBucket? && !a.UnlockBucket? ==> (InSection(now) <==> InSection(was)))
      && (InSection(now) ==> Section(now) == b)
  {
  }

  lemma ManagerLocks(c: Config, s: State, k: nat, a: ManagerAct)
    requires c.Valid() && Locks(c, s) && ManagerEnabled(c, s, k, a)
    ensures Locks(c, ManagerStep(c, s, k, a))
  {
    SectionKept(s.mans[k], CurrentBucket(c, s, k), a);
    var s' := ManagerStep(c, s, k, a);
    assert forall m :: 0 <= m < c.m && m != k ==> s'.mans[m] == s.mans[m];
    assert InSection(s.mans[k]) ==> HasLock(s.mans[k], Section(s.mans[k]));
  }

  lemma SweeperLocks(c: Config, s: State, a: SweeperAct)
    requires c.Valid() && Locks(c, s) && SweeperEnabled(c, s, a)
    ensures Locks(c, SweeperStep(c, s, a))
  {
  }

  // ---------------------------------------------------------------- pool pointers lead home

  /** Actions of other threads do not make a raw packet look built. */
  lemma RawBack(c: Config, s: State, s': State, t: Transfer, th: Thread, p: Place, i: int, x: Obj)
    requires |s.gens| == c.g && s'.gens == s.gens && Available(s.at, t) && s'.at == Carry(s.at, t)
    requires Proper(c, s, t, th) && !th.Gen?
    requires Holds(s'.at, p, i, x) && !Raw(s', p, i)
    ensures var (q, j) := OriginOf(s.at, t, p, i); Holds(s.at, q, j, x) && !Raw(s, q, j)
  {
    CarryOrigin(s.at, t, p, i, x);
    CarryLengths(s.at, t);
  }

  /** The objects that arrive at a place whose sessions are stamped come from such a place. */
  lemma StampedBack(s: State, s': State, t: Transfer, p: Place, i: int, x: Obj)
    requires Available(s.at, t) && s'.at == Carry(s.at, t)
    requires Holds(s'.at, p, i, x) && Stamped(s', p)
    requires Stamped(s, p) || (!t.Stay? && p == t.to && At(s.at, p) == [])
    requires !t.Stay? && p == t.to ==> Stamped(s, t.from)
    ensures var (q, j) := OriginOf(s.at, t, p, i); Holds(s.at, q, j, x) && Stamped(s, q)
  {
    CarryOrigin(s.at, t, p, i, x);
  }

  lemma {:induction false} GeneratorRawBack(c: Config, s: State, h: nat, a: GeneratorAct, p: Place, i: int, x: Obj)
    requires c.Valid() && Sound(c, s.at) && Threads(c, s) && Pointers(c, s)
    requires GeneratorEnabled(c, s, h, a)
    requires var s' := GeneratorStep(c, s, h, a); Holds(s'.at, p, i, x) && !Raw(s', p, i)
    ensures var (q, j) := OriginOf(s.at, GeneratorMoves(s, h, a), p, i);
      Holds(s.at, q, j, x) && (!Raw(s, q, j) || (a.BuildPut? && x == Hand(s, GeneratorHand(h))))
  {
    assert GeneratorShape(c, s, h);
    if a.GiveBack? { GeneratorReturnsTo(c, s, h); }
    CarryOrigin(s.at, GeneratorMoves(s, h, a), p, i, x);
    CarryLengths(s.at, GeneratorMoves(s, h, a));
  }

  lemma GeneratorPointers(c: Config, s: State, h: nat, a: GeneratorAct)
    requires c.Valid() && Sound(c, s.at) && Threads(c, s) && Pointers(c, s)
    requires GeneratorEnabled(c, s, h, a)
    ensures Pointers(c, GeneratorStep(c, s, h, a))
  {
    var s' := GeneratorStep(c, s, h, a);
    var y := Hand(s, GeneratorHand(h));
    assert GeneratorShape(c, s, h);
    assert a.BuildPut? ==> Holds(s.at, GeneratorHand(h), 0, y) && Fits(c, GeneratorHand(h), y);
    forall x: Obj | Real(c, x) && x.Flow? ensures PoolOf(s', x) == x.home {
      assert PoolOf(s, x) == x.home;
    }
    forall p: Place, i, x: Obj | Holds(s'.at, p, i, x) && x.Packet? && !Raw(s', p, i)
      ensures PoolOf(s', x) == x.home
    {
      GeneratorRawBack(c, s, h, a, p, i, x);
    }
    forall p: Place, i, x: Obj | Holds(s'.at, p, i, x) && x.Session? && Stamped(s', p)
      ensures PoolOf(s', x) == x.home
    {
      StampedBack(s, s', GeneratorMoves(s, h, a), p, i, x);
    }
  }

  /** Threads other than generators leave the pool pointers of packets as they should be. */
  lemma OthersPacketPointers(c: Config, s: State, s': State, t: Transfer, th: Thread)
    requires PacketPointers(s) && |s.gens| == c.g && s'.gens == s.gens && Available(s.at, t) && s'.at == Carry(s.at, t)
    requires Proper(c, s, t, th) && !th.Gen?
    requires forall x: Obj {:trigger PoolOf(s', x)} :: x.Packet? ==> PoolOf(s', x) == PoolOf(s, x)
    ensures PacketPointers(s')
  {
    forall p: Place, i, x: Obj | Holds(s'.at, p, i, x) && x.Packet? && !Raw(s', p, i)
      ensures PoolOf(s', x) == x.home
    {
      RawBack(c, s, s', t, th, p, i, x);
    }
  }

  lemma ParserPointers(c: Config, s: State, j: nat, a: ParserAct)
    requires c.Valid() && Sound(c, s.at) && Threads(c, s) && Pointers(c, s)
    requires ParserEnabled(c, s, j, a)
    ensures Pointers(c, ParserStep(c, s, j, a))
  {
    var s' := ParserStep(c, s, j, a);
    var t := ParserMoves(c, s, j, a);
    if a.ReturnPackets? { ParserReturnsTo(c, s, j); }
    assert forall x: Obj :: PoolOf(s', x) == PoolOf(s, x);
    OthersPacketPointers(c, s, s', t, Par(j));
    forall p: Place, i, x: Obj | Holds(s'.at, p, i, x) && x.Session? && Stamped(s', p)
      ensures PoolOf(s', x) == x.home
    {
      StampedBack(s, s', t, p, i, x);
    }
  }

  lemma ManagerSessionPointers(c: Config, s: State, k: nat, a: ManagerAct)
    requires c.Valid() && AllFit(c, s.at) && Threads(c, s) && SessionPointers(s)
    requires ManagerEnabled(c, s, k, a)
    ensures SessionPointers(ManagerStep(c, s, k, a))
  {
    var s' := ManagerStep(c, s, k, a);
    var n := Hand(s, ManagerSession(k));
    assert ManagerShape(s, k);
    assert a.CopyNew? ==> Holds(s.at, ManagerSession(k), 0, n) && Fits(c, ManagerSession(k), n);
    forall p: Place, i, x: Obj | Holds(s'.at, p, i, x) && x.Session? && Stamped(s', p)
      ensures PoolOf(s', x) == x.home
    {
      if a.CopyNew? && p == ManagerSession(k) {
        assert x == n;
      } else {
        StampedBack(s, s', ManagerMoves(s, k, a), p, i, x);
      }
    }
  }

  lemma ManagerPointers(c: Config, s: State, k: nat, a: ManagerAct)
    requires c.Valid() && Sound(c, s.at) && Threads(c, s) && Pointers(c, s) && Cargo(s)
    requires ManagerEnabled(c, s, k, a)
    ensures Pointers(c, ManagerStep(c, s, k, a))
  {
    var s' := ManagerStep(c, s, k, a);
    var n := Hand(s, ManagerSession(k));
    assert ManagerShape(s, k);
    assert a.CopyNew? ==> Holds(s.at, ManagerSession(k), 0, n) && Fits(c, ManagerSession(k), n);
    if a.ReleasePacket? { ManagerReturnsTo(c, s, k); }
    assert forall x: Obj :: !x.Session? ==> PoolOf(s', x) == PoolOf(s, x);
    OthersPacketPointers(c, s, s', ManagerMoves(s, k, a), Man(k));
    ManagerSessionPointers(c, s, k, a);
  }

  lemma SweeperPointers(c: Config, s: State, a: SweeperAct)
    requires c.Valid() && Threads(c, s) && Pointers(c, s)
    requires SweeperEnabled(c, s, a)
    ensures Pointers(c, SweeperStep(c, s, a))
  {
    var s' := SweeperStep(c, s, a);
    var t := SweeperMoves(s, a);
    assert forall x: Obj :: PoolOf(s', x) == PoolOf(s, x);
    OthersPacketPointers(c, s, s', t, Sweep);
    forall p: Place, i, x: Obj | Holds(s'.at, p, i, x) && x.Session? && Stamped(s', p)
      ensures PoolOf(s', x) == x.home
    {
      StampedBack(s, s', t, p, i, x);
    }
  }

  // ---------------------------------------------------------------- flow items carry their packets

  /** A flow item that the step neither rewrites nor relieves of its packet. */
  lemma CargoKept(s: State, s': State, t: Transfer, p: Place, i: int, f: Obj)
    requires Cargo(s) && Available(s.at, t) && s'.at == Carry(s.at, t)
    requires Holds(s'.at, p, i, f) && f.Flow?
    requires var (q, j) := OriginOf(s.at, t, p, i); Carrying(s', p, i) <==> Carrying(s, q, j)
    requires t.Stay? || (t.from != Carried(f) && t.to != Carried(f))
    requires PacketOf(s', f) == PacketOf(s, f) || !Carrying(s', p, i)
    requires KeyOf(s', f) == KeyOf(s, f) || !Carrying(s', p, i)
    requires KeyOf(s', PacketOf(s, f)) == KeyOf(s, PacketOf(s, f)) || !Carrying(s', p, i)
    ensures CargoOf(s', f, Carrying(s', p, i))
  {
    CarryOrigin(s.at, t, p, i, f);
    CarryAt(s.at, t);
  }

  /** The packet a flow item carries is in nobody's hand. */
  lemma CarriedApart(c: Config, s: State, p: Place, i: int, f: Obj, q: Place, j: int, y: Obj)
    requires c.Valid() && Sound(c, s.at) && Cargo(s) && Holds(s.at, p, i, f) && f.Flow? && Carrying(s, p, i)
    requires Holds(s.at, q, j, y) && !q.Carried?
    ensures PacketOf(s, f) != y && PacketOf(s, f).Packet?
  {
    assert Holds(s.at, Carried(f), 0, PacketOf(s, f));
  }

  lemma GeneratorCargo(c: Config, s: State, h: nat, a: GeneratorAct)
    requires c.Valid() && Sound(c, s.at) && Threads(c, s) && Cargo(s)
    requires GeneratorEnabled(c, s, h, a)
    ensures Cargo(GeneratorStep(c, s, h, a))
  {
    var s' := GeneratorStep(c, s, h, a);
    var t := GeneratorMoves(s, h, a);
    var y := Hand(s, GeneratorHand(h));
    assert GeneratorShape(c, s, h);
    assert a.BuildPut? || a.Patch? ==> Holds(s.at, GeneratorHand(h), 0, y) && Fits(c, GeneratorHand(h), y);
    forall p: Place, i, f: Obj | Holds(s'.at, p, i, f) && f.Flow? ensures CargoOf(s', f, Carrying(s', p, i)) {
      var s', t := GeneratorStep(c, s, h, a), GeneratorMoves(s, h, a);
      CarryOrigin(s.at, t, p, i, f);
      var (q, j) := OriginOf(s.at, t, p, i);
      if Carrying(s, q, j) && (a.BuildPut? || a.Patch?) {
        CarriedApart(c, s, q, j, f, GeneratorHand(h), 0, Hand(s, GeneratorHand(h)));
      }
      CargoKept(s, s', t, p, i, f);
    }
  }

  lemma {:induction false} FillAllGet<T>(m: map<Obj, T>, flows: seq<Obj>, values: seq<T>)
    requires |flows| == |values| && Distinct(flows)
    ensures forall n {:trigger flows[n]} :: 0 <= n < |flows| ==>
      flows[n] in FillAll(m, flows, values) && FillAll(m, flows, values)[flows[n]] == values[n]
    ensures forall x {:trigger FillAll(m, flows, values)[x]} {:trigger x in FillAll(m, flows, values)} :: x !in flows ==>
      (x in FillAll(m, flows, values) <==> x in m) && (x in m ==> FillAll(m, flows, values)[x] == m[x])
  {
    if flows != [] {
      var d := |flows| - 1;
      FillAllGet(m, flows[..d], values[..d]);
      assert forall n :: 0 <= n < d ==> flows[..d][n] == flows[n] && flows[n] != flows[d];
      assert forall x :: x in flows ==> x in flows[..d] || x == flows[d];
    }
  }

  lemma DistinctAt(l: Book, p: Place)
    requires Unique(l)
    ensures Distinct(At(l, p))
  {
    forall i, j | 0 <= i < j < |At(l, p)| ensures At(l, p)[i] != At(l, p)[j] {
      assert Holds(l, p, i, At(l, p)[i]) && Holds(l, p, j, At(l, p)[j]);
    }
  }

  /** What filling a batch does to the fields of all objects. */
  lemma FillEffect(c: Config, s: State, j: nat)
    requires Unique(s.at) && ParserEnabled(c, s, j, Fill)
    ensures var s' := ParserStep(c, s, j, Fill);
      var packets, flows := At(s.at, ParserPackets(j)), At(s.at, ParserFlows(j));
      && (forall n {:trigger flows[n]} :: 0 <= n < |flows| ==>
            PacketOf(s', flows[n]) == packets[n] && KeyOf(s', flows[n]) == KeyOf(s, packets[n]))
      && (forall x {:trigger KeyOf(s', x)} :: x !in flows ==> KeyOf(s', x) == KeyOf(s, x))
      && (forall x {:trigger PacketOf(s', x)} :: x !in flows ==> PacketOf(s', x) == PacketOf(s, x))
  {
    var packets, flows := At(s.at, ParserPackets(j)), At(s.at, ParserFlows(j));
    DistinctAt(s.at, ParserFlows(j));
    FillAllGet(s.packet, flows, packets);
    FillAllGet(s.key, flows, KeysOf(s, packets));
  }

  lemma FillCargo(c: Config, s: State, j: nat)
    requires c.Valid() && Sound(c, s.at) && Threads(c, s) && Cargo(s)
    requires ParserEnabled(c, s, j, Fill)
    ensures Cargo(ParserStep(c, s, j, Fill))
  {
    var s' := ParserStep(c, s, j, Fill);
    var flows := At(s.at, ParserFlows(j));
    FillEffect(c, s, j);
    forall p: Place, i, f: Obj | Holds(s'.at, p, i, f) && f.Flow? ensures CargoOf(s', f, Carrying(s', p, i)) {
      assert Holds(s.at, p, i, f);
      if Carrying(s, p, i) {
        Elementwise(s.at, ParserFlows(j));
        forall n | 0 <= n < |flows| ensures PacketOf(s, f) != flows[n] && f != flows[n] {
          CarriedApart(c, s, p, i, f, ParserFlows(j), n, flows[n]);
        }
      }
      CargoKept(s, s', Stay, p, i, f);
    }
  }

  /** Flow items go with their packets, except where a step is about just that. */
  lemma ParserCarrying(c: Config, s: State, j: nat, a: ParserAct, p: Place, i: int, f: Obj)
    requires c.Valid() && AllFit(c, s.at) && Threads(c, s)
    requires ParserEnabled(c, s, j, a)
    requires Holds(ParserStep(c, s, j, a).at, p, i, f) && f.Flow?
    requires a.RouteFlow? ==> p != ParserFlows(j) || i != 0
    ensures var (q, n) := OriginOf(s.at, ParserMoves(c, s, j, a), p, i);
      Holds(s.at, q, n, f) && (Carrying(ParserStep(c, s, j, a), p, i) <==> Carrying(s, q, n))
  {
    var t := ParserMoves(c, s, j, a);
    CarryOrigin(s.at, t, p, i, f);
    var (q, n) := OriginOf(s.at, t, p, i);
    assert Fits(c, q, f);
    assert ParserShape(s, j);
    if p != ParserFlows(j) && q == p {
      ParserCarryingStill(c, s, j, a, p, i, n);
    }
  }

  lemma ParserCarryingStill(c: Config, s: State, j: nat, a: ParserAct, p: Place, i: int, n: int)
    requires ParserEnabled(c, s, j, a) && p != ParserFlows(j) && (p.ParserFlows? ==> i == n)
    ensures Carrying(ParserStep(c, s, j, a), p, i) <==> Carrying(s, p, n)
  {
  }

  lemma ManagerCarrying(c: Config, s: State, k: nat, a: ManagerAct, p: Place, i: int, f: Obj)
    requires c.Valid() && AllFit(c, s.at) && Threads(c, s)
    requires ManagerEnabled(c, s, k, a)
    requires Holds(ManagerStep(c, s, k, a).at, p, i, f) && f.Flow?
    requires a.ReleasePacket? ==> p != ManagerFlow(k)
    ensures var (q, n) := OriginOf(s.at, ManagerMoves(s, k, a), p, i);
      Holds(s.at, q, n, f) && (Carrying(ManagerStep(c, s, k, a), p, i) <==> Carrying(s, q, n))
  {
    var t := ManagerMoves(s, k, a);
    CarryOrigin(s.at, t, p, i, f);
    var (q, n) := OriginOf(s.at, t, p, i);
    assert Fits(c, q, f);
    assert ManagerShape(s, k);
    if q == p {
      ManagerCarryingStill(c, s, k, a, p, i, n);
    }
  }

  lemma ManagerCarryingStill(c: Config, s: State, k: nat, a: ManagerAct, p: Place, i: int, n: int)
    requires ManagerEnabled(c, s, k, a) && (p.ParserFlows? ==> i == n)
    requires a.ReleasePacket? ==> p != ManagerFlow(k)
    requires p == ManagerFlow(k) ==> !a.TakeFlow? && !a.ReleaseFlow?
    ensures Carrying(ManagerStep(c, s, k, a), p, i) <==> Carrying(s, p, n)
  {
  }

  lemma RouteCargo(c: Config, s: State, j: nat)
    requires c.Valid() && Sound(c, s.at) && Threads(c, s) && Cargo(s) && Batches(c, s)
    requires ParserEnabled(c, s, j, RouteFlow)
    ensures Cargo(ParserStep(c, s, j, RouteFlow))
  {
    var s' := ParserStep(c, s, j, RouteFlow);
    var t := ParserMoves(c, s, j, RouteFlow);
    // The flow item about to be sent takes its packet along.
    var e := Hand(s, ParserFlows(j));
    assert ParserShape(s, j) && Matched(s, j, 0);
    assert Holds(s.at, ParserFlows(j), 0, e) && Fits(c, ParserFlows(j), e) && CargoOf(s, e, false);
    assert PacketOf(s, e) == At(s.at, ParserPackets(j))[0] && KeyOf(s, e) == KeyOf(s, PacketOf(s, e));
    CarryAt(s.at, ParserMoves(c, s, j, RouteFlow));
    forall p: Place, i, f: Obj | Holds(s'.at, p, i, f) && f.Flow? ensures CargoOf(s', f, Carrying(s', p, i)) {
      if p == ParserFlows(j) && i == 0 {
        CarryAt(s.at, t);
      } else {
        ParserCarrying(c, s, j, RouteFlow, p, i, f);
        CargoKept(s, s', t, p, i, f);
      }
    }
  }

  lemma ParserCargo(c: Config, s: State, j: nat, a: ParserAct)
    requires c.Valid() && Sound(c, s.at) && Threads(c, s) && Cargo(s) && Batches(c, s)
    requires ParserEnabled(c, s, j, a)
    ensures Cargo(ParserStep(c, s, j, a))
  {
    if a.Fill? {
      FillCargo(c, s, j);
    } else if a.RouteFlow? {
      RouteCargo(c, s, j);
    } else {
      var s' := ParserStep(c, s, j, a);
      var t := ParserMoves(c, s, j, a);
      assert ParserShape(s, j);
      forall p: Place, i, f: Obj | Holds(s'.at, p, i, f) && f.Flow? ensures CargoOf(s', f, Carrying(s', p, i)) {
        ParserCarrying(c, s, j, a, p, i, f);
        CargoKept(s, s', t, p, i, f);
      }
    }
  }

  lemma ReleaseCargo(c: Config, s: State, k: nat)
    requires c.Valid() && Sound(c, s.at) && Threads(c, s) && Cargo(s) && Pointers(c, s)
    requires ManagerEnabled(c, s, k, ReleasePacket)
    ensures Cargo(ManagerStep(c, s, k, ReleasePacket))
  {
    var s' := ManagerStep(c, s, k, ReleasePacket);
    var t := ManagerMoves(s, k, ReleasePacket);
    var e := Hand(s, ManagerFlow(k));
    ManagerReturnsTo(c, s, k);
    assert ManagerShape(s, k);
    assert Holds(s.at, ManagerFlow(k), 0, e);
    CarryAt(s.at, t);
    assert At(s'.at, Carried(e)) == [];
    forall p: Place, i, f: Obj | Holds(s'.at, p, i, f) && f.Flow? ensures CargoOf(s', f, Carrying(s', p, i)) {
      if p != ManagerFlow(k) {
        ManagerCarrying(c, s, k, ReleasePacket, p, i, f);
        CargoKept(s, s', t, p, i, f);
      }
    }
  }

  lemma ManagerCargo(c: Config, s: State, k: nat, a: ManagerAct)
    requires c.Valid() && Sound(c, s.at) && Threads(c, s) && Cargo(s) && Pointers(c, s)
    requires ManagerEnabled(c, s, k, a)
    ensures Cargo(ManagerStep(c, s, k, a))
  {
    if a.ReleasePacket? {
      ReleaseCargo(c, s, k);
    } else {
      var s' := ManagerStep(c, s, k, a);
      var t := ManagerMoves(s, k, a);
      var n := Hand(s, ManagerSession(k));
      assert ManagerShape(s, k);
      assert a.CopyNew? ==> Holds(s.at, ManagerSession(k), 0, n) && Fits(c, ManagerSession(k), n);
      forall p: Place, i, f: Obj | Holds(s'.at, p, i, f) && f.Flow? ensures CargoOf(s', f, Carrying(s', p, i)) {
        ManagerCarrying(c, s, k, a, p, i, f);
        var (q, j) := OriginOf(s.at, t, p, i);
        if a.CopyNew? && Carrying(s, q, j) {
          CarriedApart(c, s, q, j, f, ManagerSession(k), 0, n);
        }
        CargoKept(s, s', t, p, i, f);
      }
    }
  }

  lemma SweeperCargo(c: Config, s: State, a: SweeperAct)
    requires c.Valid() && Sound(c, s.at) && Cargo(s)
    requires SweeperEnabled(c, s, a)
    ensures Cargo(SweeperStep(c, s, a))
  {
    var s' := SweeperStep(c, s, a);
    var t := SweeperMoves(s, a);
    forall p: Place, i, f: Obj | Holds(s'.at, p, i, f) && f.Flow? ensures CargoOf(s', f, Carrying(s', p, i)) {
      CargoKept(s, s', t, p, i, f);
    }
  }

  // ---------------------------------------------------------------- batches stay matched

  /** Only this object's fields may change. */
  ghost predicate OnlyFieldsOf(s: State, s': State, y: Obj) {
    && (forall x {:trigger KeyOf(s', x)} :: x != y ==> KeyOf(s', x) == KeyOf(s, x))
    && (forall x {:trigger PacketOf(s', x)} :: PacketOf(s', x) == PacketOf(s, x))
  }

  lemma MatchedKept(s: State, s': State, j: nat, sent: nat, y: Obj)
    requires Matched(s, j, sent) && OnlyFieldsOf(s, s', y)
    requires At(s'.at, ParserPackets(j)) == At(s.at, ParserPackets(j)) && At(s'.at, ParserFlows(j)) == At(s.at, ParserFlows(j))
    requires y !in At(s.at, ParserPackets(j)) && y !in At(s.at, ParserFlows(j))
    ensures Matched(s', j, sent)
  {
  }

  /** An object that is elsewhere is not in this place. */
  lemma Absent(l: Book, p: Place, q: Place, i: int, y: Obj)
    requires Unique(l) && Holds(l, q, i, y) && p != q
    ensures y !in At(l, p)
  {
    forall n | 0 <= n < |At(l, p)| ensures At(l, p)[n] != y {
      assert Holds(l, p, n, At(l, p)[n]);
    }
  }

  /** Steps of other threads: at most the fields of one object in the acting thread's hand change. */
  lemma OthersBatches(c: Config, s: State, s': State, t: Transfer, th: Thread, q: Place, y: Obj)
    requires c.Valid() && Unique(s.at) && Batches(c, s) && Available(s.at, t) && s'.at == Carry(s.at, t)
    requires InReach(t, th) && !th.Par? && s'.pars == s.pars && OnlyFieldsOf(s, s', y)
    requires !q.ParserPackets? && !q.ParserFlows?
    requires s'.key == s.key || Holds(s.at, q, 0, y)
    ensures Batches(c, s')
  {
    CarryAt(s.at, t);
    forall j | 0 <= j < c.p
      ensures s'.pars[j].Filled? || s'.pars[j].Handing? ==> Matched(s', j, 0)
      ensures s'.pars[j].Offering? ==> Matched(s', j, 1)
    {
      var _ := s.pars[j];
      OneBatch(s, s', t, th, q, y, j);
    }
  }

  predicate InReach(t: Transfer, th: Thread) { t.Stay? || (Within(t.from, th) && Within(t.to, th)) }

  lemma OneBatch(s: State, s': State, t: Transfer, th: Thread, q: Place, y: Obj, j: nat)
    requires Unique(s.at) && Available(s.at, t) && s'.at == Carry(s.at, t)
    requires InReach(t, th) && th != Par(j) && OnlyFieldsOf(s, s', y)
    requires q != ParserPackets(j) && q != ParserFlows(j)
    requires s'.key == s.key || Holds(s.at, q, 0, y)
    ensures Matched(s, j, 0) ==> Matched(s', j, 0)
    ensures Matched(s, j, 1) ==> Matched(s', j, 1)
  {
    CarryAt(s.at, t);
    if s'.key != s.key {
      Absent(s.at, ParserPackets(j), q, 0, y);
      Absent(s.at, ParserFlows(j), q, 0, y);
      if Matched(s, j, 0) { MatchedKept(s, s', j, 0, y); }
      if Matched(s, j, 1) { MatchedKept(s, s', j, 1, y); }
    }
  }

  lemma GeneratorBatches(c: Config, s: State, h: nat, a: GeneratorAct)
    requires c.Valid() && Sound(c, s.at) && Threads(c, s) && Batches(c, s)
    requires GeneratorEnabled(c, s, h, a)
    ensures Batches(c, GeneratorStep(c, s, h, a))
  {
    var y := Hand(s, GeneratorHand(h));
    assert GeneratorShape(c, s, h);
    assert a.BuildPut? || a.Patch? ==> Holds(s.at, GeneratorHand(h), 0, y);
    OthersBatches(c, s, GeneratorStep(c, s, h, a), GeneratorMoves(s, h, a), Gen(h), GeneratorHand(h), y);
  }

  lemma ManagerBatches(c: Config, s: State, k: nat, a: ManagerAct)
    requires c.Valid() && Sound(c, s.at) && Threads(c, s) && Batches(c, s)
    requires ManagerEnabled(c, s, k, a)
    ensures Batches(c, ManagerStep(c, s, k, a))
  {
    // The only object whose fields a manager sets is the node in its hand.
    assert ManagerShape(s, k);
    OthersBatches(c, s, ManagerStep(c, s, k, a), ManagerMoves(s, k, a), Man(k), ManagerSession(k), Hand(s, ManagerSession(k)));
  }

  lemma SweeperBatches(c: Config, s: State, a: SweeperAct)
    requires c.Valid() && Unique(s.at) && Batches(c, s)
    requires SweeperEnabled(c, s, a)
    ensures Batches(c, SweeperStep(c, s, a))
  {
    OthersBatches(c, s, SweeperStep(c, s, a), SweeperMoves(s, a), Sweep, SweeperHand, Hand(s, SweeperHand));
  }

  /** The parser's own batch: filled by `Fill`, one packet shorter by `RouteFlow`, one flow
      item shorter by `SendFlow`. */
  lemma OwnBatch(c: Config, s: State, j: nat, a: ParserAct)
    requires c.Valid() && Sound(c, s.at) && Threads(c, s) && Batches(c, s)
    requires ParserEnabled(c, s, j, a)
    ensures var s' := ParserStep(c, s, j, a);
      && (s'.pars[j].Filled? || s'.pars[j].Handing? ==> Matched(s', j, 0))
      && (s'.pars[j].Offering? ==> Matched(s', j, 1))
  {
    assert ParserShape(s, j);
    match a
    case Fill => OwnFill(c, s, j);
    case RouteFlow => OwnRoute(c, s, j);
    case SendFlow => OwnSend(c, s, j);
    case _ =>
  }

  lemma OwnFill(c: Config, s: State, j: nat)
    requires c.Valid() && Sound(c, s.at) && ParserEnabled(c, s, j, Fill)
    ensures Matched(ParserStep(c, s, j, Fill), j, 0)
  {
    FillEffect(c, s, j);
    var s' := ParserStep(c, s, j, Fill);
    var packets, flows := At(s.at, ParserPackets(j)), At(s.at, ParserFlows(j));
    forall n | 0 <= n < |packets|
      ensures PacketOf(s', flows[n]) == packets[n] && KeyOf(s', flows[n]) == KeyOf(s', packets[n])
    {
      assert Holds(s.at, ParserPackets(j), n, packets[n]);
      Absent(s.at, ParserFlows(j), ParserPackets(j), n, packets[n]);
    }
  }

  lemma OwnSend(c: Config, s: State, j: nat)
    requires ParserEnabled(c, s, j, SendFlow) && Matched(s, j, 1)
    ensures Matched(ParserStep(c, s, j, SendFlow), j, 0)
  {
    CarryAt(s.at, ParserMoves(c, s, j, SendFlow));
    assert At(ParserStep(c, s, j, SendFlow).at, ParserFlows(j)) == At(s.at, ParserFlows(j))[1..];
  }

  lemma OwnRoute(c: Config, s: State, j: nat)
    requires ParserEnabled(c, s, j, RouteFlow) && Matched(s, j, 0)
    ensures Matched(ParserStep(c, s, j, RouteFlow), j, 1)
  {
    CarryAt(s.at, ParserMoves(c, s, j, RouteFlow));
    assert At(ParserStep(c, s, j, RouteFlow).at, ParserPackets(j)) == At(s.at, ParserPackets(j))[1..];
  }

  lemma ParserBatches(c: Config, s: State, j: nat, a: ParserAct)
    requires c.Valid() && Sound(c, s.at) && Threads(c, s) && Batches(c, s)
    requires ParserEnabled(c, s, j, a)
    ensures Batches(c, ParserStep(c, s, j, a))
  {
    var s' := ParserStep(c, s, j, a);
    OwnBatch(c, s, j, a);
    forall h | 0 <= h < c.p
      ensures s'.pars[h].Filled? || s'.pars[h].Handing? ==> Matched(s', h, 0)
      ensures s'.pars[h].Offering? ==> Matched(s', h, 1)
    {
      var _ := s.pars[h];
      if h != j && a.Fill? {
        FillEffect(c, s, j);
        Elementwise(s.at, ParserPackets(h));
        Elementwise(s.at, ParserFlows(h));
        var packets, flows := At(s.at, ParserPackets(h)), At(s.at, ParserFlows(h));
        forall n | 0 <= n < |packets| ensures packets[n] !in At(s.at, ParserFlows(j)) {
          Absent(s.at, ParserFlows(j), ParserPackets(h), n, packets[n]);
        }
        forall n | 0 <= n < |flows| ensures flows[n] !in At(s.at, ParserFlows(j)) {
          Absent(s.at, ParserFlows(j), ParserFlows(h), n, flows[n]);
        }
      } else if h != j {
        OneBatch(s, s', ParserMoves(c, s, j, a), Par(j), SweeperHand, Packet(0, 0), h);
      }
    }
  }

}
