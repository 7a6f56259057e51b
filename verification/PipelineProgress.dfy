/** When the pipeline can come to a standstill.

    A parser takes packets in batches of 64, so packets can be stranded in queues that are
    too short for a batch.  A generator that feeds few enough parsers cannot lose all its
    packets that way; one that feeds more can, and then stops for ever. */
module PipelineProgress {
  import opened Common
  import opened Ledger
  import opened FlowKey
  import opened Pipeline
  import opened PipelineInvariant
  import opened PipelineTheorems
  import opened Routing

  // ---------------------------------------------------------------- what a thread can do next

  /** A step of generator `i`, of a parser that it feeds, or of a manager. */
  predicate Concerns(c: Config, i: nat, a: Action)
    requires c.Valid()
  {
    (a.ByGenerator? && a.i == i) || (a.ByParser? && a.j % c.g == i) || a.ByManager?
  }

  /** A manager waits for a session node and its pool has none. */
  predicate Starved(s: State, k: nat)
    requires k < |s.mans|
  {
    s.mans[k].WantingNode? && At(s.at, SessionPool(k)) == []
  }

  /** A generator only ever waits for an empty pool. */
  lemma GeneratorChoice(c: Config, s: State, i: nat) returns (a: GeneratorAct)
    requires c.Valid() && Reachable(c, s) && i < c.g && i < |s.gens|
    requires !(s.gens[i].pc.GIdle? && At(s.at, PacketPool(i)) == [])
    ensures GeneratorEnabled(c, s, i, a)
  {
    GeneratorNeverRetries(c, s, i);
    var key := Key(0, 0, 0, 0, 0);
    match s.gens[i].pc
    case Building(_) => a := BuildTake;
    case BuildingOne(_) => a := BuildPut(key);
    case GIdle => a := TakePacket;
    case Held => a := Patch(key);
    case Patched => a := Forward;
    case Sending(_) => a := SendPacket;
    case Returning => a := GiveBack;
  }

  /** A search always has an outcome. */
  lemma {:induction false} SearchEnds(c: Config, s: State, k: nat, n: nat) returns (a: ManagerAct)
    requires Inv(c, s) && k < c.m && s.mans[k].Searching?
    requires n <= |At(s.at, Bucket(k, s.mans[k].b))|
    requires forall i :: 0 <= i < n ==> !SameKey(s, k, s.mans[k].b, i)
    ensures ManagerEnabled(c, s, k, a)
    decreases |At(s.at, Bucket(k, s.mans[k].b))| - n
  {
    if n == |At(s.at, Bucket(k, s.mans[k].b))| {
      a := FindNone;
    } else if SameKey(s, k, s.mans[k].b, n) {
      a := FindAt(n);
    } else {
      a := SearchEnds(c, s, k, n + 1);
    }
  }

  lemma LockFree(c: Config, s: State, k: nat)
    requires Inv(c, s) && k < c.m && s.mans[k].Locking? && !Inside(s.sweeper)
    ensures ManagerEnabled(c, s, k, LockBucket)
  {
    var b := c.BucketOf(KeyOf(s, Hand(s, ManagerFlow(k))));
    assert !HasLock(s.mans[k], b);
    assert (k, b) !in s.locked;
  }

  /** A manager only waits for a flow item, for a lock that the sweeper holds, or for a node. */
  lemma ManagerChoice(c: Config, s: State, k: nat) returns (a: ManagerAct)
    requires c.Valid() && Reachable(c, s) && k < c.m && |s.mans| == c.m
    requires !Starved(s, k) && !Inside(s.sweeper) && !(s.mans[k].MIdle? && At(s.at, ManagerQueue(k)) == [])
    ensures ManagerEnabled(c, s, k, a)
  {
    ReachableInv(c, s);
    ManagerNeverRetries(c, s, k);
    assert ManagerShape(s, k);
    match s.mans[k]
    case MIdle => a := TakeFlow;
    case Taken => a := GoDeep;
    case Locking => LockFree(c, s, k); a := LockBucket;
    case Searching(_) => a := SearchEnds(c, s, k, 0);
    case WantingNode(_) => a := TakeNode;
    case Copying(_) => a := CopyNew;
    case Found(_, _) => a := Append;
    case Evicted(_) => a := ReturnEvicted;
    case ReleasingPacket(_) => a := ReleasePacket;
    case ReleasingFlow(_) => a := ReleaseFlow;
    case Linking(_) => a := LinkNode;
    case Unlocking(_) => a := UnlockBucket;
  }

  /** With its flow items all home and every manager queue empty, a parser only waits for
      packets. */
  lemma ParserChoice(c: Config, s: State, j: nat) returns (a: ParserAct)
    requires c.Valid() && Reachable(c, s) && j < c.p && |s.pars| == c.p && |s.mans| == c.m
    requires forall k :: 0 <= k < c.m ==> s.mans[k].MIdle? && At(s.at, ManagerQueue(k)) == []
    requires !(s.pars[j].PIdle? && |At(s.at, ParserQueue(j))| < c.need)
    ensures ParserEnabled(c, s, j, a)
  {
    ReachableInv(c, s);
    ParserNeverRetries(c, s, j);
    assert ParserShape(s, j) && OffersRight(c, s, j);
    match s.pars[j]
    case PIdle => a := TakeBatch;
    case Got => a := GoFlows;
    case WantingFlows => FlowsHome(c, s, j); a := TakeFlows;
    case GotFlows => a := Fill;
    case Filled => a := GoManagers;
    case Handing => a := RouteFlow;
    case Offering(_) => a := SendFlow;
    case ReturningPackets(_) => a := ReturnPackets;
    case ReturningFlows => a := ReturnFlows;
  }

  lemma FlowsHome(c: Config, s: State, j: nat)
    requires Inv(c, s) && j < c.p && At(s.at, ParserFlows(j)) == []
    requires forall k :: 0 <= k < c.m ==> s.mans[k].MIdle? && At(s.at, ManagerQueue(k)) == []
    ensures |At(s.at, FlowPool(j))| == RING_CAPACITY
  {
    var ps := [FlowPool(j)];
    forall p, i, y | Holds(s.at, p, i, y) && Kin(Flow(j, 0), y) ensures p in ps {
      assert Fits(c, p, y);
      assert p.ManagerFlow? ==> ManagerShape(s, p.i);
    }
    forall p, i, y | p in ps && Holds(s.at, p, i, y) ensures Kin(Flow(j, 0), y) {
      assert Fits(c, p, y);
    }
    Conserved(c, s.at, ps, Flow(j, 0));
    assert Total(s.at, ps[1..]) == 0;
  }

  // ---------------------------------------------------------------- progress

  /** The queues that generator `i` feeds have room for all its packets without any batch. */
  predicate Overfed(c: Config, i: nat)
    requires c.Valid() && i < c.g
  {
    Fed(c, i) * (c.need - 1) >= RING_CAPACITY
  }

  function FedQueues(c: Config, i: nat): seq<Place>
    requires c.Valid() && i < c.g
  {
    seq(Fed(c, i), r requires 0 <= r < Fed(c, i) => ParserQueue(FedParser(c, i, r)))
  }

  lemma {:induction false} TotalAtMost(l: Book, ps: seq<Place>, n: nat)
    requires forall p :: p in ps ==> |At(l, p)| <= n
    ensures Total(l, ps) <= |ps| * n
  {
    if ps != [] {
      TotalAtMost(l, ps[1..], n);
      assert |ps| * n == |ps[1..]| * n + n;
    }
  }

  lemma InFedQueues(c: Config, i: nat, j: nat)
    requires c.Valid() && i < c.g
    ensures ParserQueue(j) in FedQueues(c, i) <==> j < c.p && j % c.g == i
  {
    FedExactly(c, i, j);
    var ps := FedQueues(c, i);
    if j < c.p && j % c.g == i {
      assert ps[j / c.g] == ParserQueue(j);
    }
    if ParserQueue(j) in ps {
      var r :| 0 <= r < |ps| && ps[r] == ParserQueue(j);
      FedParserInRange(c, i, r);
    }
  }

  lemma FedQueuesDistinct(c: Config, i: nat)
    requires c.Valid() && i < c.g
    ensures Distinct(FedQueues(c, i))
  {
    var ps := FedQueues(c, i);
    forall r, r' | 0 <= r < r' < |ps| ensures ps[r] != ps[r'] {
      FedParserInRange(c, i, r);
      FedParserInRange(c, i, r');
    }
  }

  lemma NoCargo(c: Config, s: State, i: nat, f: Obj)
    requires Inv(c, s) && i < c.g && Real(c, f) && f.Flow? && f.home % c.g == i
    requires forall k :: 0 <= k < c.m ==> s.mans[k].MIdle? && At(s.at, ManagerQueue(k)) == []
    requires forall j {:trigger s.pars[j]} :: 0 <= j < c.p && j % c.g == i ==> s.pars[j].PIdle?
    ensures At(s.at, Carried(f)) == []
  {
    assert Somewhere(s.at, f);
    var q, j :| Holds(s.at, q, j, f);
    assert Fits(c, q, f);
    assert q.ManagerFlow? ==> ManagerShape(s, q.i);
    assert q.ParserFlows? ==> s.pars[q.i].PIdle?;
    assert !Carrying(s, q, j);
  }

  /** While the managers have nothing to do, a generator that feeds few enough parsers or one of
      those parsers can step: otherwise all its packets would be stranded in short queues. */
  lemma IdleManagersProgress(c: Config, s: State, i: nat) returns (a: Action)
    requires c.Valid() && Reachable(c, s) && i < c.g && !Overfed(c, i)
    requires |s.mans| == c.m && forall k :: 0 <= k < c.m ==> s.mans[k].MIdle? && At(s.at, ManagerQueue(k)) == []
    ensures Enabled(c, s, a) && Concerns(c, i, a) && !a.ByManager?
  {
    ReachableInv(c, s);
    if !(s.gens[i].pc.GIdle? && At(s.at, PacketPool(i)) == []) {
      var g := GeneratorChoice(c, s, i);
      a := ByGenerator(i, g);
    } else {
      var j := BusyParser(c, s, i);
      var p := ParserChoice(c, s, j);
      a := ByParser(j, p);
    }
  }

  /** Every parser that generator `i` feeds is idle and short of a batch. */
  ghost predicate AllShort(c: Config, s: State, i: nat)
    requires c.Valid() && |s.pars| == c.p
  {
    forall j {:trigger s.pars[j]} :: 0 <= j < c.p && j % c.g == i ==> s.pars[j].PIdle? && |At(s.at, ParserQueue(j))| < c.need
  }

  lemma BusyParser(c: Config, s: State, i: nat) returns (j: nat)
    requires Inv(c, s) && i < c.g && !Overfed(c, i) && s.gens[i].pc.GIdle? && At(s.at, PacketPool(i)) == []
    requires forall k :: 0 <= k < c.m ==> s.mans[k].MIdle? && At(s.at, ManagerQueue(k)) == []
    ensures j < c.p && j % c.g == i && !(s.pars[j].PIdle? && |At(s.at, ParserQueue(j))| < c.need)
  {
    if AllShort(c, s, i) {
      IdleStrands(c, s, i);
    } else {
      j :| 0 <= j < c.p && j % c.g == i && !(s.pars[j].PIdle? && |At(s.at, ParserQueue(j))| < c.need);
    }
  }

  /** Progress at any depth: as long as no manager has run out of session nodes and the sweeper
      is in no bucket, a generator that feeds few enough parsers, one of those, or a manager can
      step.  On Intel that is up to 16 parsers, on TileGX up to 15. */
  lemma Progress(c: Config, s: State, i: nat) returns (a: Action)
    requires c.Valid() && Reachable(c, s) && i < c.g && !Overfed(c, i)
    requires |s.mans| == c.m && !Inside(s.sweeper) && forall k :: 0 <= k < c.m ==> !Starved(s, k)
    ensures Enabled(c, s, a) && Concerns(c, i, a)
  {
    if k: nat :| k < c.m && !(s.mans[k].MIdle? && At(s.at, ManagerQueue(k)) == []) {
      var m := ManagerChoice(c, s, k);
      a := ByManager(k, m);
    } else {
      a := IdleManagersProgress(c, s, i);
    }
  }

  /** If everyone waits, the packets must all be stranded in short queues. */
  lemma IdleStrands(c: Config, s: State, i: nat)
    requires Inv(c, s) && i < c.g && s.gens[i].pc.GIdle? && At(s.at, PacketPool(i)) == []
    requires forall k :: 0 <= k < c.m ==> s.mans[k].MIdle? && At(s.at, ManagerQueue(k)) == []
    requires AllShort(c, s, i)
    ensures Overfed(c, i)
  {
    var ps := FedQueues(c, i);
    FedQueuesDistinct(c, i);
    assert GeneratorShape(c, s, i);
    forall p, n, y | Holds(s.at, p, n, y) && Kin(Packet(i, 0), y) ensures p in ps {
      assert Fits(c, p, y) && GeneratorShape(c, s, i);
      forall j | 0 <= j < c.p && j % c.g == i ensures At(s.at, ParserPackets(j)) == [] {
        assert ParserShape(s, j) && s.pars[j].PIdle?;
      }
      if p.ParserQueue? {
        InFedQueues(c, i, p.i);
      } else if p.Carried? {
        NoCargo(c, s, i, p.flow);
      }
    }
    forall p, n, y | p in ps && Holds(s.at, p, n, y) ensures Kin(Packet(i, 0), y) {
      assert Fits(c, p, y);
      InFedQueues(c, i, p.i);
    }
    Conserved(c, s.at, ps, Packet(i, 0));
    forall j | 0 <= j < c.p && j % c.g == i ensures |At(s.at, ParserQueue(j))| < c.need { var _ := s.pars[j]; }
    ShortQueues(c, s.at, i);
  }

  lemma ShortQueues(c: Config, l: Book, i: nat)
    requires c.Valid() && i < c.g
    requires forall j {:trigger ParserQueue(j)} :: 0 <= j < c.p && j % c.g == i ==> |At(l, ParserQueue(j))| < c.need
    ensures Total(l, FedQueues(c, i)) <= Fed(c, i) * (c.need - 1)
  {
    var ps := FedQueues(c, i);
    forall p | p in ps ensures |At(l, p)| <= c.need - 1 {
      InFedQueues(c, i, p.i);
      assert p == ParserQueue(p.i);
    }
    TotalAtMost(l, ps, c.need - 1);
  }
}
