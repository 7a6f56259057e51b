/** Every step keeps sessions where their keys hash to, and at most one per key. */
module PipelineSessions {
  import opened Ledger
  import opened FlowKey
  import opened Pipeline
  import opened PipelineInvariant
  import opened PipelineSafety

  /** Only objects at place `q` may get another key. */
  ghost predicate KeysKept(s: State, s': State, q: Place) {
    forall x {:trigger KeyOf(s', x)} :: KeyOf(s', x) == KeyOf(s, x) || x in At(s.at, q)
  }

  lemma AbsentKeyKept(s: State, s': State, q: Place, p: Place, i: int, x: Obj)
    requires Unique(s.at) && KeysKept(s, s', q) && Holds(s.at, p, i, x) && p != q
    ensures KeyOf(s', x) == KeyOf(s, x)
  {
    Absent(s.at, q, p, i, x);
  }

  // ---------------------------------------------------------------- routing by key

  /** An object that arrives at a manager or a bucket does so from a place that has it
      routed already, or with the right key. */
  ghost predicate RightKey(c: Config, s: State, p: Place, x: Obj)
    requires c.Valid()
  {
    && (x.Flow? && (p.ManagerQueue? || p.ManagerFlow?) ==> c.ManagerOf(KeyOf(s, x)) == p.i)
    && (p.Bucket? ==> c.ManagerOf(KeyOf(s, x)) == p.i && c.BucketOf(KeyOf(s, x)) == p.b)
  }

  lemma RoutedKept(c: Config, s: State, s': State, t: Transfer, q: Place)
    requires c.Valid() && Unique(s.at) && Routed(c, s) && Available(s.at, t) && s'.at == Carry(s.at, t)
    requires KeysKept(s, s', q) && !q.ManagerQueue? && !q.ManagerFlow? && !q.Bucket?
    requires t.Stay? || forall n :: t.k <= n < t.k + t.n ==> RightKey(c, s', t.to, At(s.at, t.from)[n])
    requires forall j {:trigger s'.pars[j]} :: 0 <= j < |s'.pars| ==> OffersRight(c, s', j)
    ensures Routed(c, s')
  {
    forall p: Place, i, x: Obj | Holds(s'.at, p, i, x) ensures RightKey(c, s', p, x) {
      CarryOrigin(s.at, t, p, i, x);
      var (p0, i0) := OriginOf(s.at, t, p, i);
      if p0 != q {
        AbsentKeyKept(s, s', q, p0, i0, x);
      }
    }
    forall j | 0 <= j < |s'.pars| ensures OffersRight(c, s', j) { var _ := s'.pars[j]; }
  }

  // ---------------------------------------------------------------- one session per key

  /** Buckets that only lose nodes keep at most one per key. */
  lemma OnePerKeyKept(s: State, s': State, t: Transfer, q: Place)
    requires Unique(s.at) && OnePerKey(s) && Available(s.at, t) && s'.at == Carry(s.at, t)
    requires KeysKept(s, s', q) && !q.Bucket? && (t.Stay? || !t.to.Bucket?)
    ensures OnePerKey(s')
  {
    forall p: Place, i, j, x, y | p.Bucket? && Holds(s'.at, p, i, x) && Holds(s'.at, p, j, y) && KeyOf(s', x) == KeyOf(s', y)
      ensures x == y
    {
      CarryOrigin(s.at, t, p, i, x);
      CarryOrigin(s.at, t, p, j, y);
      var (p0, i0) := OriginOf(s.at, t, p, i);
      var (p1, j0) := OriginOf(s.at, t, p, j);
      AbsentKeyKept(s, s', q, p0, i0, x);
      AbsentKeyKept(s, s', q, p1, j0, y);
    }
  }

  /** A new node joins a bucket that has no session of its key. */
  lemma OnePerKeyLinked(c: Config, s: State, k: nat)
    requires c.Valid() && Sessions(c, s) && Threads(c, s)
    requires ManagerEnabled(c, s, k, LinkNode)
    ensures OnePerKey(ManagerStep(c, s, k, LinkNode))
  {
    var s' := ManagerStep(c, s, k, LinkNode);
    var t := ManagerMoves(s, k, LinkNode);
    var n := Hand(s, ManagerSession(k));
    var b := s.mans[k].b;
    assert ManagerShape(s, k) && ManagerKnows(c, s, k);
    assert NoSessionFor(s, Bucket(k, b), KeyOf(s, n));
    forall p: Place, i, j, x, y | p.Bucket? && Holds(s'.at, p, i, x) && Holds(s'.at, p, j, y) && KeyOf(s', x) == KeyOf(s', y)
      ensures x == y
    {
      assert KeyOf(s, x) == KeyOf(s, y);
      CarryOrigin(s.at, t, p, i, x);
      CarryOrigin(s.at, t, p, j, y);
    }
  }

  // ---------------------------------------------------------------- what managers know

  lemma NoSessionKept(s: State, s': State, q: Place, p: Place, key: Key)
    requires Unique(s.at) && KeysKept(s, s', q) && p != q && NoSessionFor(s, p, key)
    requires At(s'.at, p) == At(s.at, p)
    ensures NoSessionFor(s', p, key)
  {
    forall i, x | Holds(s'.at, p, i, x) ensures KeyOf(s', x) != key {
      assert Holds(s.at, p, i, x);
      AbsentKeyKept(s, s', q, p, i, x);
    }
  }

  /** The knowledge of a manager survives steps that leave its hands, its bucket and the
      keys of what is there alone. */
  lemma KnowsKept(c: Config, s: State, s': State, q: Place, k: nat)
    requires c.Valid() && Unique(s.at) && k < |s.mans| && k < |s'.mans| && s'.mans[k] == s.mans[k]
    requires ManagerShape(s, k) && ManagerKnows(c, s, k) && KeysKept(s, s', q)
    requires q != ManagerFlow(k) && q != ManagerSession(k) && !q.Bucket?
    requires At(s'.at, ManagerFlow(k)) == At(s.at, ManagerFlow(k)) && At(s'.at, ManagerSession(k)) == At(s.at, ManagerSession(k))
    requires InSection(s.mans[k]) ==> At(s'.at, Bucket(k, Section(s.mans[k]))) == At(s.at, Bucket(k, Section(s.mans[k])))
    ensures ManagerKnows(c, s', k)
  {
    var f, n := Hand(s, ManagerFlow(k)), Hand(s, ManagerSession(k));
    var pc := s.mans[k];
    if HoldsFlow(pc) {
      assert Holds(s.at, ManagerFlow(k), 0, f);
      AbsentKeyKept(s, s', q, ManagerFlow(k), 0, f);
    }
    if HoldsNode(pc) {
      assert Holds(s.at, ManagerSession(k), 0, n);
      AbsentKeyKept(s, s', q, ManagerSession(k), 0, n);
    }
    if InSection(pc) {
      var p := Bucket(k, Section(pc));
      if pc.WantingNode? || pc.Copying? {
        NoSessionKept(s, s', q, p, KeyOf(s, f));
      } else if pc.Found? {
        assert Holds(s.at, p, pc.pos, At(s.at, p)[pc.pos]);
        AbsentKeyKept(s, s', q, p, pc.pos, At(s.at, p)[pc.pos]);
      } else if HoldsNode(pc) && !pc.Evicted? {
        assert NewNode(c, s, k, Section(pc));
        NoSessionKept(s, s', q, p, KeyOf(s, n));
      }
    }
  }

  /** All managers but the acting one. */
  lemma OthersKnow(c: Config, s: State, s': State, t: Transfer, th: Thread, q: Place)
    requires c.Valid() && Unique(s.at) && Threads(c, s) && Sessions(c, s) && Available(s.at, t) && s'.at == Carry(s.at, t)
    requires InReach(t, th) && |s'.mans| == c.m && KeysKept(s, s', q) && Within(q, th) && !q.Bucket?
    requires forall k {:trigger s'.mans[k]} :: 0 <= k < c.m && th != Man(k) ==> s'.mans[k] == s.mans[k]
    requires t.Stay? || !t.to.Bucket? || th == Man(t.to.i)
    requires t.Stay? || !t.from.Bucket? || th == Man(t.from.i) ||
      (th == Sweep && t.from.i < c.m && !HasLock(s.mans[t.from.i], t.from.b))
    requires !q.ManagerFlow? && (q.ManagerSession? ==> th == Man(q.i))
    ensures forall k {:trigger s'.mans[k]} :: 0 <= k < c.m && th != Man(k) ==> ManagerKnows(c, s', k)
  {
    CarryAt(s.at, t);
    forall k | 0 <= k < c.m && th != Man(k) ensures ManagerKnows(c, s', k) {
      assert ManagerShape(s, k) && ManagerKnows(c, s, k) && s'.mans[k] == s.mans[k];
      KnowsKept(c, s, s', q, k);
    }
  }

  lemma OffersKept(c: Config, s: State, s': State, t: Transfer, th: Thread, q: Place, j: nat)
    requires c.Valid() && Unique(s.at) && Threads(c, s) && Available(s.at, t) && s'.at == Carry(s.at, t)
    requires j < c.p == |s'.pars| && s'.pars[j] == s.pars[j] && OffersRight(c, s, j)
    requires InReach(t, th) && th != Par(j) && KeysKept(s, s', q) && q != ParserFlows(j)
    ensures OffersRight(c, s', j)
  {
    CarryAt(s.at, t);
    assert ParserShape(s, j);
    if s.pars[j].Offering? {
      var f := Hand(s, ParserFlows(j));
      assert Holds(s.at, ParserFlows(j), 0, f);
      AbsentKeyKept(s, s', q, ParserFlows(j), 0, f);
    }
  }

  /** Routing, for steps that bring nothing to a manager or a bucket. */
  lemma OthersRouted(c: Config, s: State, s': State, t: Transfer, th: Thread, q: Place)
    requires c.Valid() && Unique(s.at) && Threads(c, s) && Routed(c, s) && Available(s.at, t) && s'.at == Carry(s.at, t)
    requires InReach(t, th) && !th.Par? && s'.pars == s.pars && KeysKept(s, s', q)
    requires !q.ManagerQueue? && !q.ManagerFlow? && !q.Bucket? && !q.ParserFlows?
    requires t.Stay? || forall n :: t.k <= n < t.k + t.n ==> RightKey(c, s', t.to, At(s.at, t.from)[n])
    ensures Routed(c, s')
  {
    forall j | 0 <= j < |s'.pars| ensures OffersRight(c, s', j) {
      assert OffersRight(c, s, j) by { var _ := s.pars[j]; }
      OffersKept(c, s, s', t, th, q, j);
    }
    RoutedKept(c, s, s', t, q);
  }

  lemma GeneratorSessions(c: Config, s: State, h: nat, a: GeneratorAct)
    requires c.Valid() && Sound(c, s.at) && Threads(c, s) && Sessions(c, s)
    requires GeneratorEnabled(c, s, h, a)
    ensures Sessions(c, GeneratorStep(c, s, h, a))
  {
    var s' := GeneratorStep(c, s, h, a);
    var t := GeneratorMoves(s, h, a);
    var q := GeneratorHand(h);
    assert GeneratorShape(c, s, h);
    assert a.BuildPut? || a.Patch? ==> Hand(s, q) in At(s.at, q);
    assert KeysKept(s, s', q);
    OthersRouted(c, s, s', t, Gen(h), q);
    OnePerKeyKept(s, s', t, q);
    OthersKnow(c, s, s', t, Gen(h), q);
    forall k | 0 <= k < c.m ensures ManagerKnows(c, s', k) { var _ := s'.mans[k]; }
  }

  lemma SweeperSessions(c: Config, s: State, a: SweeperAct)
    requires c.Valid() && Sound(c, s.at) && Threads(c, s) && Locks(c, s) && Sessions(c, s)
    requires SweeperEnabled(c, s, a)
    ensures Sessions(c, SweeperStep(c, s, a))
  {
    var s' := SweeperStep(c, s, a);
    var t := SweeperMoves(s, a);
    OthersRouted(c, s, s', t, Sweep, SweeperHand);
    OnePerKeyKept(s, s', t, SweeperHand);
    OthersKnow(c, s, s', t, Sweep, SweeperHand);
    forall k | 0 <= k < c.m ensures ManagerKnows(c, s', k) { var _ := s'.mans[k]; }
  }

  lemma ParserKeysKept(c: Config, s: State, j: nat, a: ParserAct)
    requires c.Valid() && Sound(c, s.at) && ParserEnabled(c, s, j, a)
    ensures KeysKept(s, ParserStep(c, s, j, a), ParserFlows(j))
  {
    if a.Fill? {
      FillEffect(c, s, j);
    } else {
      assert ParserStep(c, s, j, a).key == s.key;
    }
  }

  lemma ParserRouted(c: Config, s: State, j: nat, a: ParserAct)
    requires c.Valid() && Sound(c, s.at) && Threads(c, s) && Routed(c, s)
    requires ParserEnabled(c, s, j, a)
    ensures Routed(c, ParserStep(c, s, j, a))
  {
    var s' := ParserStep(c, s, j, a);
    var t := ParserMoves(c, s, j, a);
    ParserKeysKept(c, s, j, a);
    assert ParserShape(s, j) && OffersRight(c, s, j);
    assert ParserShape(s, j);
    CarryAt(s.at, ParserMoves(c, s, j, a));
    forall h | 0 <= h < |s'.pars| ensures OffersRight(c, s', h) {
      if h != j {
        assert OffersRight(c, s, h) by { var _ := s.pars[h]; }
        OffersKept(c, s, s', t, Par(j), ParserFlows(j), h);
      }
    }
    RoutedKept(c, s, s', t, ParserFlows(j));
  }

  lemma ParserSessions(c: Config, s: State, j: nat, a: ParserAct)
    requires c.Valid() && Sound(c, s.at) && Threads(c, s) && Sessions(c, s)
    requires ParserEnabled(c, s, j, a)
    ensures Sessions(c, ParserStep(c, s, j, a))
  {
    var s' := ParserStep(c, s, j, a);
    var t := ParserMoves(c, s, j, a);
    ParserKeysKept(c, s, j, a);
    ParserRouted(c, s, j, a);
    OnePerKeyKept(s, s', t, ParserFlows(j));
    OthersKnow(c, s, s', t, Par(j), ParserFlows(j));
    forall k | 0 <= k < c.m ensures ManagerKnows(c, s', k) { var _ := s'.mans[k]; }
  }

  // ---------------------------------------------------------------- the manager's own steps

  lemma ManagerRightKey(c: Config, s: State, k: nat, a: ManagerAct)
    requires c.Valid() && AllFit(c, s.at) && Threads(c, s) && Sessions(c, s) && ManagerEnabled(c, s, k, a)
    ensures var t := ManagerMoves(s, k, a);
      t.Stay? || forall n :: t.k <= n < t.k + t.n ==> RightKey(c, ManagerStep(c, s, k, a), t.to, At(s.at, t.from)[n])
  {
    assert ManagerShape(s, k) && ManagerKnows(c, s, k);
    if a.TakeFlow? {
      Elementwise(s.at, ManagerQueue(k));
    }
  }

  lemma CopyKnowledge(c: Config, s: State, k: nat)
    requires c.Valid() && Sound(c, s.at) && Threads(c, s) && Sessions(c, s) && ManagerEnabled(c, s, k, CopyNew)
    ensures NewNode(c, ManagerStep(c, s, k, CopyNew), k, s.mans[k].b)
    ensures KeyOf(ManagerStep(c, s, k, CopyNew), Hand(s, ManagerFlow(k))) == KeyOf(s, Hand(s, ManagerFlow(k)))
  {
    var s' := ManagerStep(c, s, k, CopyNew);
    var f, n := Hand(s, ManagerFlow(k)), Hand(s, ManagerSession(k));
    var b := s.mans[k].b;
    assert ManagerShape(s, k) && ManagerKnows(c, s, k) && HasLock(s.mans[k], b);
    assert KeysKept(s, ManagerStep(c, s, k, CopyNew), ManagerSession(k)) by {
      assert ManagerShape(s, k);
      assert CopyNew.CopyNew? ==> Hand(s, ManagerSession(k)) in At(s.at, ManagerSession(k));
    }
    assert Holds(s.at, ManagerFlow(k), 0, f) && Fits(c, ManagerFlow(k), f);
    AbsentKeyKept(s, s', ManagerSession(k), ManagerFlow(k), 0, f);
    NoSessionKept(s, s', ManagerSession(k), Bucket(k, b), KeyOf(s, f));
  }

  /** The bucket in whose critical section the manager is stays the one of its flow item. */
  lemma SectionKnowledge(c: Config, s: State, k: nat, a: ManagerAct)
    requires c.Valid() && Sound(c, s.at) && Threads(c, s) && Sessions(c, s) && ManagerEnabled(c, s, k, a)
    ensures var s' := ManagerStep(c, s, k, a);
      InSection(s'.mans[k]) && HoldsFlow(s'.mans[k]) ==>
        c.BucketOf(KeyOf(s', Hand(s', ManagerFlow(k)))) == Section(s'.mans[k])
  {
    var b := CurrentBucket(c, s, k);
    assert ManagerShape(s, k) && ManagerKnows(c, s, k);
    SectionKept(s.mans[k], b, a);
    ManagerHands(s.mans[k], b, a);
    CarryAt(s.at, ManagerMoves(s, k, a));
    assert InSection(s.mans[k]) ==> HasLock(s.mans[k], b);
    if a.CopyNew? {
      CopyKnowledge(c, s, k);
    }
  }

  lemma ReleaseKnowledge(c: Config, s: State, s': State, k: nat, b: nat)
    requires c.Valid() && Unique(s.at) && NewNode(c, s, k, b) && s'.key == s.key
    requires At(s'.at, ManagerSession(k)) == At(s.at, ManagerSession(k)) && At(s'.at, Bucket(k, b)) == At(s.at, Bucket(k, b))
    ensures NewNode(c, s', k, b)
  {
    assert KeysKept(s, s', ManagerSession(k));
    NoSessionKept(s, s', ManagerSession(k), Bucket(k, b), KeyOf(s, Hand(s, ManagerSession(k))));
  }

  lemma ReleaseFacts(c: Config, s: State, k: nat, a: ManagerAct)
    requires c.Valid() && Unique(s.at) && ManagerEnabled(c, s, k, a) && BucketFacts(c, s, k)
    requires a.ReleasePacket? || a.ReleaseFlow?
    ensures BucketFacts(c, ManagerStep(c, s, k, a), k)
  {
    CarryAt(s.at, ManagerMoves(s, k, a));
    if s.mans[k].mode.Fresh? {
      ReleaseKnowledge(c, s, ManagerStep(c, s, k, a), k, s.mans[k].mode.b);
    }
  }

  lemma OwnFacts(c: Config, s: State, k: nat, a: ManagerAct)
    requires c.Valid() && Sound(c, s.at) && Threads(c, s) && Sessions(c, s) && ManagerEnabled(c, s, k, a)
    ensures BucketFacts(c, ManagerStep(c, s, k, a), k)
  {
    assert ManagerKnows(c, s, k);
    match a
    case CopyNew => CopyKnowledge(c, s, k);
    case FindNone =>
      var s', b := ManagerStep(c, s, k, FindNone), s.mans[k].b;
      assert s'.at == s.at && s'.key == s.key;
      forall i, x | Holds(s'.at, Bucket(k, b), i, x) ensures KeyOf(s', x) != KeyOf(s, Hand(s, ManagerFlow(k))) {
        assert !SameKey(s, k, b, i);
      }
    case TakeNode =>
      var s' := ManagerStep(c, s, k, TakeNode);
      CarryAt(s.at, ManagerMoves(s, k, TakeNode));
      assert KeysKept(s, s', ManagerSession(k));
      NoSessionKept(s, s', ManagerSession(k), Bucket(k, s.mans[k].b), KeyOf(s, Hand(s, ManagerFlow(k))));
    case ReleasePacket => ReleaseFacts(c, s, k, a);
    case ReleaseFlow => ReleaseFacts(c, s, k, a);
    case _ =>
  }

  lemma ManagerSessions(c: Config, s: State, k: nat, a: ManagerAct)
    requires c.Valid() && Sound(c, s.at) && Threads(c, s) && Sessions(c, s)
    requires ManagerEnabled(c, s, k, a)
    ensures Sessions(c, ManagerStep(c, s, k, a))
  {
    var s' := ManagerStep(c, s, k, a);
    var t := ManagerMoves(s, k, a);
    ManagerKeysKept(c, s, k, a);
    ManagerRightKey(c, s, k, a);
    OthersRouted(c, s, s', t, Man(k), ManagerSession(k));
    if a.LinkNode? {
      OnePerKeyLinked(c, s, k);
    } else {
      OnePerKeyKept(s, s', t, ManagerSession(k));
    }
    SectionKnowledge(c, s, k, a);
    OwnFacts(c, s, k, a);
    OthersKnow(c, s, s', t, Man(k), ManagerSession(k));
    forall h | 0 <= h < c.m ensures ManagerKnows(c, s', h) { var _ := s'.mans[h]; }
  }

  lemma ManagerKeysKept(c: Config, s: State, k: nat, a: ManagerAct)
    requires c.Valid() && Threads(c, s) && ManagerEnabled(c, s, k, a)
    ensures KeysKept(s, ManagerStep(c, s, k, a), ManagerSession(k))
  {
    assert ManagerShape(s, k);
    assert a.CopyNew? ==> Hand(s, ManagerSession(k)) in At(s.at, ManagerSession(k));
  }
}
