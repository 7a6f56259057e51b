/** Packets and sessions in flight whose keys are all different.

    If every packet is stamped with a flow of its own, no manager ever finds a session, and every packet
    becomes one. */
module PipelineStarvation {
  import opened Ledger
  import opened FlowKey
  import opened Pipeline
  import opened PipelineInvariant
  import opened PipelineSafety
  import opened PipelineTheorems
  import opened PipelineBytes

  /** The key of the n-th packet that is made. */
  type Naming = nat -> Key

  /** So many packets have keys of their own. */
  const NAMES: nat := 0x2_0000

  ghost predicate NoneAlike(name: Naming) {
    forall n: nat, k: nat {:trigger name(n), name(k)} :: n < NAMES && k < NAMES && name(n) == name(k) ==> n == k
  }

  // ---------------------------------------------------------------- keys in flight

  /** The packet of this flow item has become a session. */
  predicate Copied(s: State, f: Obj) {
    |s.mans| > 0 && s.mans[0].ReleasingPacket? && At(s.at, ManagerFlow(0)) == [f]
  }

  /** Places of packets on their way, and of the sessions made from them. */
  predicate Flying(s: State, p: Place) {
    || (p.GeneratorHand? && p.i < |s.gens| && (s.gens[p.i].pc.Patched? || s.gens[p.i].pc.Sending?))
    || p.ParserQueue? || p.ParserPackets?
    || (p.Carried? && !Copied(s, p.flow))
    || LivePlace(s, p)
  }

  ghost predicate Aloft(s: State, x: Obj) {
    exists p, i {:trigger Holds(s.at, p, i, x)} :: Holds(s.at, p, i, x) && Flying(s, p)
  }

  ghost predicate Named(name: Naming, key: Key, n: nat) { exists j: nat :: j < n && j < NAMES && key == name(j) }

  /** Of the first `n` keys, each is in flight at most once, and nothing else is. */
  ghost predicate FreshKeys(name: Naming, s: State, n: nat) {
    && (forall x {:trigger Aloft(s, x)} :: Aloft(s, x) ==> Named(name, KeyOf(s, x), n))
    && (forall x, y {:trigger Aloft(s, x), Aloft(s, y)} :: Aloft(s, x) && Aloft(s, y) && KeyOf(s, x) == KeyOf(s, y) ==> x == y)
  }

  /** The steps of the run: every packet becomes a session of its own. */
  predicate OnTheWay(a: Action) {
    match a
    case ByGenerator(_, g) => !g.BuildSkip? && !g.Keep? && !g.GiveBack?
    case ByParser(_, p) => !p.NoFlows? && !p.NoManagers? && !p.ReturnPackets? && !p.ReturnFlows?
    case ByManager(k, m) =>
      k == 0 && !m.StayShallow? && !m.FindAt? && !m.Append? && !m.Evict? && !m.ReturnEvicted?
    case BySweeper(_) => false
  }

  /** What a step brings into the air, if anything. */
  ghost predicate TakesOff(s: State, a: Action, x: Obj) {
    || (a.ByGenerator? && a.g.Patch? && x == Hand(s, GeneratorHand(a.i)))
    || (Makes(a) && x == Node(s, a))
  }

  /** What flies after a step did so before, or where it came from. */
  predicate CameFlying(s: State, s': State, t: Transfer, p: Place) {
    Flying(s', p) ==> Flying(s, p) && (t.Transfer? && p == t.to ==> Flying(s, t.from))
  }

  lemma ManagersFlights(c: Config, s: State, a: ManagerAct, p: Place)
    requires ManagerEnabled(c, s, 0, a) && OnTheWay(ByManager(0, a))
    requires !(a.CopyNew? && p == ManagerSession(0)) && !(a.ReleasePacket? && p == Carried(Hand(s, ManagerFlow(0))))
    ensures CameFlying(s, ManagerStep(c, s, 0, a), ManagerMoves(s, 0, a), p)
  {
    if p.Carried? {
      // Packets that a manager does not hold.
      CarryAt(s.at, ManagerMoves(s, 0, a));
    }
  }

  /** The hand from which a packet or a node takes off. */
  predicate TakesOffFrom(a: Action, p: Place) {
    (a.ByGenerator? && a.g.Patch? && p == GeneratorHand(a.i)) || (Makes(a) && p == ManagerSession(0))
  }

  predicate Released(s: State, a: Action, p: Place) {
    a.ByManager? && a.m.ReleasePacket? && p == Carried(Hand(s, ManagerFlow(0)))
  }

  lemma AllFlights(c: Config, s: State, a: Action, p: Place)
    requires Enabled(c, s, a) && OnTheWay(a) && !TakesOffFrom(a, p) && !Released(s, a, p)
    ensures CameFlying(s, Step(c, s, a), Moves(c, s, a), p)
  {
    match a
    case ByGenerator(i, g) =>
      CarryAt(s.at, GeneratorMoves(s, i, g));
    case ByParser(j, q) =>
      if p.Carried? {
        CarryAt(s.at, ParserMoves(c, s, j, q));
      }
      assert CameFlying(s, ParserStep(c, s, j, q), ParserMoves(c, s, j, q), p);
    case ByManager(_, m) => ManagersFlights(c, s, m, p);
  }

  lemma InTheHand(c: Config, s: State, a: Action, p: Place, i: int, x: Obj)
    requires Inv(c, s) && Enabled(c, s, a) && OnTheWay(a) && TakesOffFrom(a, p) && Holds(Step(c, s, a).at, p, i, x)
    ensures TakesOff(s, a, x)
  {
    if a.ByGenerator? {
      assert GeneratorShape(c, s, a.i);
    } else {
      assert ManagerShape(s, 0);
    }
  }

  lemma AloftBefore(c: Config, s: State, a: Action, x: Obj)
    requires Inv(c, s) && Enabled(c, s, a) && OnTheWay(a) && Aloft(Step(c, s, a), x)
    ensures Aloft(s, x) || TakesOff(s, a, x)
  {
    var s' := Step(c, s, a);
    var p, i :| Holds(s'.at, p, i, x) && Flying(s', p);
    if a.ByManager? && a.m.ReleasePacket? {
      // A released packet is gone.
      ManagerReturnsTo(c, s, 0);
      CarryAt(s.at, ManagerMoves(s, 0, ReleasePacket));
    }
    if TakesOffFrom(a, p) {
      InTheHand(c, s, a, p, i, x);
    } else {
      AllFlights(c, s, a, p);
      StepMoves(c, s, a);
      CameAloft(s, s', Moves(c, s, a), p, i, x);
    }
  }

  lemma CameAloft(s: State, s': State, t: Transfer, p: Place, i: int, x: Obj)
    requires Available(s.at, t) && s'.at == Carry(s.at, t) && Holds(s'.at, p, i, x) && Flying(s', p) && CameFlying(s, s', t, p)
    ensures Aloft(s, x)
  {
    CarryOrigin(s.at, t, p, i, x);
    var (q, j) := OriginOf(s.at, t, p, i);
    assert Holds(s.at, q, j, x) && Flying(s, q);
  }

  // ---------------------------------------------------------------- keys stay fresh

  /** What is in flight keeps its key. */
  lemma AloftKeyKept(c: Config, s: State, a: Action, x: Obj)
    requires Inv(c, s) && Enabled(c, s, a) && OnTheWay(a) && Aloft(s, x) && Aloft(Step(c, s, a), x) && !TakesOff(s, a, x)
    ensures KeyOf(Step(c, s, a), x) == KeyOf(s, x)
  {
    var p, i :| Holds(s.at, p, i, x) && Flying(s, p);
    assert Fits(c, p, x);
    WrittenKinds(c, s, a);
    if Writes(a) && x == Hand(s, GeneratorHand(a.i)) {
      HandNotAloft(c, s, a.i, a.g);
    }
    KeyKept(c, s, a, x);
  }

  /** A packet that a generator has not stamped yet is not in flight. */
  lemma HandNotAloft(c: Config, s: State, i: nat, g: GeneratorAct)
    requires Inv(c, s) && GeneratorEnabled(c, s, i, g) && (g.BuildPut? || g.Patch?)
    ensures !Aloft(s, Hand(s, GeneratorHand(i)))
  {
    var x := Hand(s, GeneratorHand(i));
    assert GeneratorShape(c, s, i) && Holds(s.at, GeneratorHand(i), 0, x);
  }

  /** A session takes over the key of a packet that ends its flight. */
  lemma MadeFlight(c: Config, s: State)
    requires Inv(c, s) && ManagerEnabled(c, s, 0, CopyNew)
    ensures var s', x, f := ManagerStep(c, s, 0, CopyNew), Hand(s, ManagerSession(0)), Hand(s, ManagerFlow(0));
      && KeyOf(s', x) == KeyOf(s, PacketOf(s, f)) && Aloft(s, PacketOf(s, f)) && !Aloft(s', PacketOf(s, f))
  {
    var s', f := ManagerStep(c, s, 0, CopyNew), Hand(s, ManagerFlow(0));
    assert ManagerShape(s, 0);
    assert Holds(s.at, ManagerFlow(0), 0, f) && Fits(c, ManagerFlow(0), f) && CargoOf(s, f, true);
    assert Holds(s.at, Carried(f), 0, PacketOf(s, f)) && Flying(s, Carried(f));
    assert At(s.at, ManagerFlow(0)) == [f] && !Flying(s', Carried(f));
  }

  /** How many packets a step makes. */
  function Stamps(a: Action): nat { if Writes(a) then 1 else 0 }

  /** ... and that it gives each the next key. */
  predicate StampsNext(name: Naming, a: Action, n: nat) {
    Writes(a) ==> n < NAMES && (if a.g.BuildPut? then a.g.built else a.g.stamp) == name(n)
  }

  lemma StillDifferent(name: Naming, c: Config, s: State, n: nat, a: Action, x: Obj, y: Obj)
    requires NoneAlike(name) && Inv(c, s) && FreshKeys(name, s, n) && Enabled(c, s, a) && OnTheWay(a) && StampsNext(name, a, n)
    requires Aloft(Step(c, s, a), x) && Aloft(Step(c, s, a), y) && x != y && !TakesOff(s, a, y)
    ensures KeyOf(Step(c, s, a), x) != KeyOf(Step(c, s, a), y)
  {
    if !TakesOff(s, a, x) {
      AloftBefore(c, s, a, x);
      AloftBefore(c, s, a, y);
      AloftKeyKept(c, s, a, x);
      AloftKeyKept(c, s, a, y);
    } else if a.ByManager? {
      var a := ByManager(0, CopyNew);
      AloftBefore(c, s, a, y);
      AloftKeyKept(c, s, a, y);
      MadeFlight(c, s);
    } else {
      // A packet that is stamped with the next flow is unlike all others in flight.
      var a := ByGenerator(a.i, Patch(name(n)));
      AloftBefore(c, s, a, y);
      AloftKeyKept(c, s, a, y);
      assert Named(name, KeyOf(s, y), n);
      var j: nat :| j < n && j < NAMES && KeyOf(s, y) == name(j);
      if name(j) == name(n) {
        assert j == n;
      }
      assert Aloft(s, y) && KeyOf(GeneratorStep(c, s, a.i, Patch(name(n))), y) == KeyOf(s, y) != name(n);
    }
  }

  lemma FreshKeysStep(name: Naming, c: Config, s: State, n: nat, a: Action)
    requires NoneAlike(name) && Inv(c, s) && FreshKeys(name, s, n) && Enabled(c, s, a) && OnTheWay(a) && StampsNext(name, a, n)
    ensures FreshKeys(name, Step(c, s, a), n + Stamps(a))
  {
    var s' := Step(c, s, a);
    forall x | Aloft(s', x) ensures Named(name, KeyOf(s', x), n + Stamps(a)) {
      // What comes after something in flight: its key is one of those given.
      AloftBefore(c, s, a, x);
      if !TakesOff(s, a, x) {
        AloftKeyKept(c, s, a, x);
        assert Named(name, KeyOf(s, x), n);
      } else if a.ByManager? {
        MadeFlight(c, s);
        assert Named(name, KeyOf(s, PacketOf(s, Hand(s, ManagerFlow(0)))), n);
      } else {
        assert KeyOf(Step(c, s, a), x) == name(n);
      }
    }
    forall x, y | Aloft(s', x) && Aloft(s', y) && x != y ensures KeyOf(s', x) != KeyOf(s', y) {
      if TakesOff(s, a, y) {
        StillDifferent(name, c, s, n, a, y, x);
      } else {
        StillDifferent(name, c, s, n, a, x, y);
      }
    }
  }

  lemma FreshKeysStart(name: Naming, c: Config, s: State)
    requires c.Valid() && Init(c, s)
    ensures FreshKeys(name, s, 0)
  {
    InitPools(c, s);
  }
}
