/** The pipeline with its ring operations taken apart.

    A thread's operation on a ring is no longer one step: it checks the counters, reads or writes
    the slots one after the other, and publishes its counter, and any number of threads may be in
    the middle of an operation.  Senders that share a ring hold its mutex from the check to the
    publication; a parser's queue has one sender and no mutex.  Every state of such a run stands for
    a reachable state of the pipeline whose operations are single steps: each takes effect when it
    is published. */
module PipelineSplit {
  import opened Common
  import opened Ledger
  import opened Pipeline
  import opened PipelineInvariant
  import opened PipelineSafety
  import opened PipelineRings
  import opened PipelineRingTheorems
  import opened PipelineWedge
  import opened PipelineBytes
  import opened RingSteps
  import Ideal = PipelineTheorems
  import Ring

  /** An operation under way: the transfer that it was begun for, how many slots it has written, and
      what it has read. */
  datatype Pending = Pending(a: Action, t: Transfer, written: nat, read: seq<Obj>)

  datatype Split = Split(m: Machine, ops: map<Thread, Pending>)

  /** What can happen in between: a step that uses no ring, and the parts of one that does. */
  datatype Micro = Single(a: Action) | Begin(a: Action) | Write(th: Thread) | Read(th: Thread) | Publish(th: Thread)

  predicate Puts(t: Transfer) { t.Transfer? && IsRing(t.to) }

  predicate Gets(t: Transfer) { t.Transfer? && IsRing(t.from) }

  predicate UsesRing(t: Transfer) { Puts(t) || Gets(t) }

  // ---------------------------------------------------------------- micro steps

  /** The mutex of the ring's senders is free; a parser's queue has none. */
  predicate MutexFree(w: Split, t: Transfer) {
    Puts(t) && !t.to.ParserQueue? ==> forall th :: th in w.ops && Puts(w.ops[th].t) ==> w.ops[th].t.to != t.to
  }

  /** The check that begins an operation is the test of the whole operation. */
  ghost predicate CanBegin(c: Config, w: Split, a: Action) {
    && Ideal.Actor(a) !in w.ops && Guard(c, w.m.s, a)
    && var t := Moves(c, w.m.s, a);
    && UsesRing(t) && Accepted(c, w.m, t) && MutexFree(w, t)
  }

  predicate CanWrite(m: Machine, p: Pending) {
    && Puts(p.t) && !Gets(p.t) && p.written < p.t.n < U32 && p.t.k + p.t.n <= |At(m.s.at, p.t.from)|
    && |RingAt(m, p.t.to).cells| > 0
  }

  predicate CanRead(m: Machine, p: Pending) {
    && Gets(p.t) && |p.read| < p.t.n < U32 && |RingAt(m, p.t.from).cells| > 0
    && ReadOne(RingAt(m, p.t.from), |p.read|, p.t.n).Some?
  }

  predicate CanPublish(c: Config, m: Machine, p: Pending) {
    && UsesRing(p.t) && p.t.n < U32 && Guard(c, m.s, p.a)
    && if Gets(p.t) then |p.read| == p.t.n else p.written == p.t.n && p.t.k + p.t.n <= |At(m.s.at, p.t.from)|
  }

  function Written(m: Machine, p: Pending): Machine
    requires CanWrite(m, p)
  {
    m.(rings := m.rings[p.t.to := WriteOne(RingAt(m, p.t.to), Slice(m.s.at, p.t), p.written)])
  }

  function HasRead(m: Machine, p: Pending): Pending
    requires CanRead(m, p)
  {
    p.(read := p.read + [ReadOne(RingAt(m, p.t.from), |p.read|, p.t.n).value])
  }

  function HasWritten(p: Pending): Pending { p.(written := p.written + 1) }

  /** The counter is written back, what was read is in hand, what was written is out of hand, and the
      thread goes on. */
  function Published(c: Config, m: Machine, p: Pending): Machine
    requires CanPublish(c, m, p)
  {
    var t := p.t;
    if Gets(t) then
      var r := RingAt(m, t.from);
      m.(s := Control(c, m.s, p.a).(at := m.s.at[t.to := At(m.s.at, t.to) + p.read]),
         rings := m.rings[t.from := r.(deq := Advanced(r.deq, t.n))])
    else
      var r := RingAt(m, t.to);
      m.(s := Control(c, m.s, p.a).(at := m.s.at[t.from := At(m.s.at, t.from)[..t.k] + At(m.s.at, t.from)[t.k + t.n..]]),
         rings := m.rings[t.to := r.(enq := Advanced(r.enq, t.n))],
         carried := m.carried[t.to := CarriedBy(m, t.to) + t.n])
  }

  /** A micro step leads from one state to the other. */
  ghost predicate Leads(c: Config, w: Split, u: Micro, w': Split) {
    match u
    case Single(a) => Ideal.Actor(a) !in w.ops && CanStep(c, w.m, a) && !UsesRing(Moves(c, w.m.s, a)) && w' == w.(m := Stepped(c, w.m, a))
    case Begin(a) => CanBegin(c, w, a) && w' == w.(ops := w.ops[Ideal.Actor(a) := Pending(a, Moves(c, w.m.s, a), 0, [])])
    case Write(th) => th in w.ops && CanWrite(w.m, w.ops[th]) && w' == Split(Written(w.m, w.ops[th]), w.ops[th := HasWritten(w.ops[th])])
    case Read(th) => th in w.ops && CanRead(w.m, w.ops[th]) && w' == w.(ops := w.ops[th := HasRead(w.m, w.ops[th])])
    case Publish(th) => th in w.ops && CanPublish(c, w.m, w.ops[th]) && w' == Split(Published(c, w.m, w.ops[th]), w.ops - {th})
  }

  /** If it publishes a batch, that writes back a whole counter. */
  predicate WholeMicro(w: Split, u: Micro) { u.Publish? && u.th in w.ops ==> WritesBack(w.m, w.ops[u.th].t) }

  /** A run whose batches write back whole counters. */
  ghost predicate SplitRun(c: Config, w: Split, us: seq<Micro>, w': Split)
    decreases |us|
  {
    if us == [] then w == w'
    else exists w1 :: Leads(c, w, us[0], w1) && WholeMicro(w, us[0]) && SplitRun(c, w1, us[1..], w')
  }

  // ---------------------------------------------------------------- the invariant

  /** An operation under way is still the one its thread is at, would still be accepted, and what it has
      written and read is what it should be. */
  ghost predicate PendingRight(c: Config, m: Machine, th: Thread, p: Pending) {
    && InOrder(m)
    && Ideal.Actor(p.a) == th && Guard(c, m.s, p.a) && Moves(c, m.s, p.a) == p.t && UsesRing(p.t)
    && Takes(c, View(m).at, p.t)
    && (Gets(p.t) ==> p.read <= At(View(m).at, p.t.from) && |p.read| <= p.t.n)
    && (Puts(p.t) ==> p.t.k + p.t.n <= |At(m.s.at, p.t.from)| && Wrote(RingAt(m, p.t.to), Slice(m.s.at, p.t), p.written))
  }

  predicate OnePerRing(w: Split) {
    forall th, th' {:trigger w.ops[th], w.ops[th']} :: th in w.ops && th' in w.ops && th != th' ==> Apart(w.ops[th].t, w.ops[th'].t)
  }

  /** Not two senders, nor two receivers, on one ring. */
  predicate Apart(t: Transfer, t': Transfer) {
    && (Puts(t) && Puts(t') ==> t.to != t'.to)
    && (Gets(t) && Gets(t') ==> t.from != t'.from)
  }

  /** A ring of the configuration. */
  predicate IsOwn(c: Config, p: Place) {
    match p
    case PacketPool(i) => i < c.g
    case FlowPool(j) => j < c.p
    case SessionPool(k) => k < c.m
    case ParserQueue(j) => j < c.p
    case ManagerQueue(k) => k < c.m
    case _ => false
  }

  ghost predicate Allocated(c: Config, m: Machine) { forall p :: IsOwn(c, p) ==> p in m.rings }

  ghost predicate SplitInv(c: Config, w: Split) {
    && c.Valid() && Good(w.m) && Allocated(c, w.m) && Reachable(c, View(w.m)) && OnePerRing(w)
    && forall th {:trigger w.ops[th]} :: th in w.ops ==> PendingRight(c, w.m, th, w.ops[th])
  }

  // ---------------------------------------------------------------- who uses which ring

  /** Each ring has one receiver. */
  lemma OneReceiver(c: Config, s: State, a: Action, b: Action)
    requires Guard(c, s, a) && Guard(c, s, b) && Gets(Moves(c, s, a)) && Gets(Moves(c, s, b)) && Moves(c, s, a).from == Moves(c, s, b).from
    ensures Ideal.Actor(a) == Ideal.Actor(b)
  {
  }

  /** A parser's queue has one sender. */
  lemma OneSender(c: Config, s: State, a: Action, b: Action)
    requires Inv(c, s) && Guard(c, s, a) && Guard(c, s, b)
    requires Puts(Moves(c, s, a)) && Puts(Moves(c, s, b)) && Moves(c, s, a).to.ParserQueue? && Moves(c, s, a).to == Moves(c, s, b).to
    ensures Ideal.Actor(a) == Ideal.Actor(b)
  {
    assert GeneratorShape(c, s, a.i) && GeneratorShape(c, s, b.i);
  }

  // ---------------------------------------------------------------- what others cannot change

  /** The end of an operation on a ring that is not the ring. */
  function OtherEnd(t: Transfer): Place
    requires UsesRing(t)
  {
    if Gets(t) then t.to else t.from
  }

  /** The hands of a thread. */
  predicate IsHandOf(p: Place, th: Thread) {
    match p
    case GeneratorHand(i) => th == Gen(i)
    case ParserPackets(j) => th == Par(j)
    case ParserFlows(j) => th == Par(j)
    case ManagerFlow(k) => th == Man(k)
    case ManagerSession(k) => th == Man(k)
    case SweeperHand => th == Sweep
    case _ => false
  }

  lemma HandsStay(c: Config, s: State, b: Action, th: Thread, p: Place)
    requires Enabled(c, s, b) && Ideal.Actor(b) != th && IsHandOf(p, th)
    ensures At(Step(c, s, b).at, p) == At(s.at, p)
  {
    Ideal.StepMoves(c, s, b);
    CarryAt(s.at, Moves(c, s, b));
  }

  /** A thread only writes the pool and packet pointers of what is in its hands. */
  lemma PointersStay(c: Config, s: State, b: Action, p: Place, i: int, x: Obj)
    requires Inv(c, s) && Enabled(c, s, b) && Holds(s.at, p, i, x) && !IsHandOf(p, Ideal.Actor(b))
    ensures PoolOf(Step(c, s, b), x) == PoolOf(s, x) && PacketOf(Step(c, s, b), x) == PacketOf(s, x)
  {
    WrittenKinds(c, s, b);
    if Fills(b) {
      Absent(s.at, ParserFlows(b.j), p, i, x);
      FillEffect(c, s, b.j);
    } else {
      OnlyWritten(c, s, b, x);
    }
  }

  lemma OnlyWritten(c: Config, s: State, b: Action, x: Obj)
    requires Enabled(c, s, b) && !Fills(b) && !(Writes(b) && x == Hand(s, GeneratorHand(b.i))) && !(Makes(b) && x == Node(s, b))
    ensures PoolOf(Step(c, s, b), x) == PoolOf(s, x) && PacketOf(Step(c, s, b), x) == PacketOf(s, x)
  {
  }

  lemma PcStays(c: Config, s: State, b: Action, th: Thread)
    requires Enabled(c, s, b) && Ideal.Actor(b) != th
    ensures var s' := Step(c, s, b);
      && |s'.gens| == |s.gens| && |s'.pars| == |s.pars| && |s'.mans| == |s.mans|
      && (th.Gen? && th.i < |s.gens| ==> s'.gens[th.i] == s.gens[th.i])
      && (th.Par? && th.j < |s.pars| ==> s'.pars[th.j] == s.pars[th.j])
      && (th.Man? && th.k < |s.mans| ==> s'.mans[th.k] == s.mans[th.k])
      && (th.Sweep? ==> s'.sweeper == s.sweeper)
  {
    match b
    case ByGenerator(i, g) =>
    case ByParser(j, p) =>
    case ByManager(k, m) =>
    case BySweeper(w) =>
      assert OthersIdle(s, SweeperStep(c, s, w), Sweep);
  }

  /** What the thread holds at the front of a hand, and where that leads. */
  lemma FrontStays(c: Config, s: State, b: Action, th: Thread, p: Place)
    requires Inv(c, s) && Enabled(c, s, b) && Ideal.Actor(b) != th && IsHandOf(p, th)
    ensures Hand(Step(c, s, b), p) == Hand(s, p)
    ensures At(s.at, p) != [] ==> PoolOf(Step(c, s, b), Hand(s, p)) == PoolOf(s, Hand(s, p)) && PacketOf(Step(c, s, b), Hand(s, p)) == PacketOf(s, Hand(s, p))
  {
    HandsStay(c, s, b, th, p);
    if At(s.at, p) != [] {
      assert Holds(s.at, p, 0, Hand(s, p));
      PointersStay(c, s, b, p, 0, Hand(s, p));
    }
  }

  /** The packet that comes with a manager's flow item. */
  lemma CargoStays(c: Config, s: State, b: Action, k: nat)
    requires Inv(c, s) && Enabled(c, s, b) && k < c.m && s.mans[k].ReleasingPacket? && Ideal.Actor(b) != Man(k)
    ensures var f := Hand(s, ManagerFlow(k));
      && At(Step(c, s, b).at, Carried(f)) == At(s.at, Carried(f))
      && PoolOf(Step(c, s, b), PacketOf(s, f)) == PoolOf(s, PacketOf(s, f))
  {
    var f := Hand(s, ManagerFlow(k));
    assert ManagerShape(s, k);
    assert Holds(s.at, ManagerFlow(k), 0, f) && Fits(c, ManagerFlow(k), f) && CargoOf(s, f, true);
    assert Holds(s.at, Carried(f), 0, PacketOf(s, f));
    PointersStay(c, s, b, Carried(f), 0, PacketOf(s, f));
    CarriedStays(c, s, b, k, f);
  }

  lemma CarriedStays(c: Config, s: State, b: Action, k: nat, f: Obj)
    requires Inv(c, s) && Enabled(c, s, b) && Holds(s.at, ManagerFlow(k), 0, f) && Ideal.Actor(b) != Man(k)
    ensures At(Step(c, s, b).at, Carried(f)) == At(s.at, Carried(f))
  {
    var t := Moves(c, s, b);
    if b.ByParser? && b.p.RouteFlow? {
      assert ParserShape(s, b.j) && Holds(s.at, ParserFlows(b.j), 0, Hand(s, ParserFlows(b.j)));
    } else if b.ByManager? && b.m.ReleasePacket? {
      assert ManagerShape(s, b.k) && Holds(s.at, ManagerFlow(b.k), 0, Hand(s, ManagerFlow(b.k)));
    }
    assert t.Transfer? ==> t.from != Carried(f) && t.to != Carried(f);
    Ideal.StepMoves(c, s, b);
    CarryAt(s.at, t);
  }

  lemma ParserStable(c: Config, s: State, b: Action, j: nat, a: ParserAct)
    requires Inv(c, s) && Enabled(c, s, b) && Ideal.Actor(b) != Par(j) && ParserGuard(c, s, j, a) && UsesRing(ParserMoves(c, s, j, a))
    ensures var s' := Step(c, s, b);
      && ParserGuard(c, s', j, a) && ParserMoves(c, s', j, a) == ParserMoves(c, s, j, a)
      && At(s'.at, OtherEnd(ParserMoves(c, s, j, a))) == At(s.at, OtherEnd(ParserMoves(c, s, j, a)))
  {
    assert ParserShape(s, j);
    PcStays(c, s, b, Par(j));
    HandsStay(c, s, b, Par(j), ParserFlows(j));
    HandsStay(c, s, b, Par(j), ParserPackets(j));
    FrontStays(c, s, b, Par(j), ParserPackets(j));
  }

  lemma ManagerStable(c: Config, s: State, b: Action, k: nat, a: ManagerAct)
    requires Inv(c, s) && Enabled(c, s, b) && Ideal.Actor(b) != Man(k) && ManagerGuard(c, s, k, a) && UsesRing(ManagerMoves(s, k, a))
    ensures var s' := Step(c, s, b);
      && ManagerGuard(c, s', k, a) && ManagerMoves(s', k, a) == ManagerMoves(s, k, a)
      && At(s'.at, OtherEnd(ManagerMoves(s, k, a))) == At(s.at, OtherEnd(ManagerMoves(s, k, a)))
  {
    assert ManagerShape(s, k);
    PcStays(c, s, b, Man(k));
    HandsStay(c, s, b, Man(k), ManagerFlow(k));
    HandsStay(c, s, b, Man(k), ManagerSession(k));
    FrontStays(c, s, b, Man(k), ManagerFlow(k));
    FrontStays(c, s, b, Man(k), ManagerSession(k));
    if a.ReleasePacket? {
      CargoStays(c, s, b, k);
    }
  }

  /** A thread in the middle of an operation is not led astray by another one's step. */
  lemma Stable(c: Config, s: State, b: Action, a: Action)
    requires Inv(c, s) && Enabled(c, s, b) && Ideal.Actor(a) != Ideal.Actor(b) && Guard(c, s, a) && UsesRing(Moves(c, s, a))
    ensures var s' := Step(c, s, b);
      && Guard(c, s', a) && Moves(c, s', a) == Moves(c, s, a)
      && At(s'.at, OtherEnd(Moves(c, s, a))) == At(s.at, OtherEnd(Moves(c, s, a)))
  {
    match a
    case ByGenerator(i, g) =>
      assert GeneratorShape(c, s, i);
      PcStays(c, s, b, Gen(i));
      HandsStay(c, s, b, Gen(i), GeneratorHand(i));
      FrontStays(c, s, b, Gen(i), GeneratorHand(i));
    case ByParser(j, p) => ParserStable(c, s, b, j, p);
    case ByManager(k, m) => ManagerStable(c, s, b, k, m);
    case BySweeper(w) =>
      PcStays(c, s, b, Sweep);
      HandsStay(c, s, b, Sweep, SweeperHand);
      FrontStays(c, s, b, Sweep, SweeperHand);
  }

  /** Nor does it lose what its check found, if the other one uses another side of the ring. */
  lemma TakesStays(c: Config, l: Book, t: Transfer, b: Transfer)
    requires Takes(c, l, t) && UsesRing(t) && Shaped(t) && Shaped(b) && Available(l, b) && Apart(t, b)
    requires At(Carry(l, b), OtherEnd(t)) == At(l, OtherEnd(t))
    ensures Takes(c, Carry(l, b), t)
    ensures Gets(t) ==> At(l, t.from) <= At(Carry(l, b), t.from)
  {
    CarryAt(l, b);
  }

  // ---------------------------------------------------------------- publication is the whole operation

  lemma GetWhole(c: Config, r: Cells, n: nat)
    requires c.Valid() && Ring.Valid(r) && (n == 1 || (n == BATCH && r.deq + BATCH < U32)) && Fetch(c, r, n).Some?
    ensures n <= |Ring.Contents(r)| && Fetch(c, r, n) == Ring.Some((r.(deq := Advanced(r.deq, n)), Ring.Contents(r)[..n]))
  {
    if n == 1 {
      FetchOne(c, r);
    } else {
      FetchTest(c, r);
      FetchBatch(c, r);
    }
  }

  lemma GetIsTransfer(c: Config, m: Machine, t: Transfer, read: seq<Obj>)
    requires c.Valid() && Good(m) && Shaped(t) && Gets(t) && Takes(c, View(m).at, t) && WritesBack(m, t)
    requires read <= At(View(m).at, t.from) && |read| == t.n
    ensures Accepted(c, m, t) && Fetch(c, RingAt(m, t.from), t.n) == Ring.Some((RingAt(m, t.from).(deq := Advanced(RingAt(m, t.from).deq, t.n)), read))
  {
    AcceptedIff(c, m, t);
    ViewAt(m, t.from);
    GetWhole(c, RingAt(m, t.from), t.n);
    assert read == Ring.Contents(RingAt(m, t.from))[..t.n];
  }

  lemma PublishPut(c: Config, m: Machine, p: Pending)
    requires CanPublish(c, m, p) && Moves(c, m.s, p.a) == p.t && !Gets(p.t) && Accepted(c, m, p.t)
    requires Store(RingAt(m, p.t.to), Slice(m.s.at, p.t)) == (RingAt(m, p.t.to).(enq := Advanced(RingAt(m, p.t.to).enq, p.t.n)), true)
    ensures CanStep(c, m, p.a) && Published(c, m, p) == Stepped(c, m, p.a)
  {
    assert |Slice(m.s.at, p.t)| == p.t.n;
  }

  lemma PublishGet(c: Config, m: Machine, p: Pending)
    requires CanPublish(c, m, p) && Moves(c, m.s, p.a) == p.t && Gets(p.t) && Accepted(c, m, p.t)
    requires Fetch(c, RingAt(m, p.t.from), p.t.n) == Ring.Some((RingAt(m, p.t.from).(deq := Advanced(RingAt(m, p.t.from).deq, p.t.n)), p.read))
    ensures CanStep(c, m, p.a) && Published(c, m, p) == Stepped(c, m, p.a)
  {
    var t, r := p.t, RingAt(m, p.t.from);
    var r' := r.(deq := Advanced(r.deq, t.n));
    assert Transferred(c, m, t).rings == m.rings[t.from := r'];
    assert Transferred(c, m, t).s.at == m.s.at[t.to := At(m.s.at, t.to) + p.read];
    assert Transferred(c, m, t).carried == m.carried;
  }

  lemma PublishIsStep(c: Config, m: Machine, th: Thread, p: Pending)
    requires c.Valid() && Good(m) && PendingRight(c, m, th, p) && CanPublish(c, m, p) && WritesBack(m, p.t)
    ensures CanStep(c, m, p.a) && Whole(c, m, p.a) && Published(c, m, p) == Stepped(c, m, p.a)
  {
    MovesShaped(c, m.s, p.a);
    if Gets(p.t) {
      GetIsTransfer(c, m, p.t, p.read);
      PublishGet(c, m, p);
    } else {
      AcceptedIff(c, m, p.t);
      ViewAt(m, p.t.to);
      if |Slice(m.s.at, p.t)| == 1 {
        PutPublished(RingAt(m, p.t.to), Slice(m.s.at, p.t));
      } else {
        PutManyPublished(RingAt(m, p.t.to), Slice(m.s.at, p.t));
      }
      PublishPut(c, m, p);
    }
  }

  // ---------------------------------------------------------------- others in the middle of theirs

  /** A step that puts nothing into a ring leaves its slots and its sender's counter alone. */
  lemma SenderSideStays(c: Config, m: Machine, b: Action, p: Place)
    requires c.Valid() && Good(m) && CanStep(c, m, b) && Whole(c, m, b) && IsRing(p)
    requires var t := Moves(c, m.s, b); t.Transfer? ==> t.to != p
    ensures RingAt(Stepped(c, m, b), p).cells == RingAt(m, p).cells && RingAt(Stepped(c, m, b), p).enq == RingAt(m, p).enq
  {
    var t := Moves(c, m.s, b);
    MovesShaped(c, m.s, b);
    if t.Transfer? && IsRing(t.from) {
      GetWhole(c, RingAt(m, t.from), t.n);
    }
  }

  /** The guard and the transfer of an action, by the machine and by what it stands for. */
  lemma SameInView(c: Config, m: Machine, a: Action)
    requires InOrder(m)
    ensures Guard(c, View(m), a) <==> Guard(c, m.s, a)
    ensures Guard(c, m.s, a) ==> Moves(c, View(m), a) == Moves(c, m.s, a)
  {
    ViewAlike(m);
    ControlAlike(c, m.s, View(m), a);
  }

  lemma SlotsStay(m: Machine, t: Transfer, written: nat, m': Machine)
    requires Puts(t) && t.k + t.n <= |At(m.s.at, t.from)| && Wrote(RingAt(m, t.to), Slice(m.s.at, t), written)
    requires At(m'.s.at, t.from) == At(m.s.at, t.from)
    requires RingAt(m', t.to).cells == RingAt(m, t.to).cells && RingAt(m', t.to).enq == RingAt(m, t.to).enq
    ensures t.k + t.n <= |At(m'.s.at, t.from)| && Wrote(RingAt(m', t.to), Slice(m'.s.at, t), written)
  {
  }

  lemma PendingStays(c: Config, m: Machine, th: Thread, p: Pending, b: Action, m': Machine)
    requires c.Valid() && Good(m) && Reachable(c, View(m)) && PendingRight(c, m, th, p)
    requires CanStep(c, m, b) && Whole(c, m, b) && m' == Stepped(c, m, b) && Ideal.Actor(b) != th && Apart(p.t, Moves(c, m.s, b))
    ensures PendingRight(c, m', th, p)
  {
    Ideal.ReachableInv(c, View(m));
    StepRefines(c, m, b);
    SameInView(c, m, b);
    MovesShaped(c, m.s, p.a);
    SameInView(c, m, p.a);
    Stable(c, View(m), b, p.a);
    MovesShaped(c, View(m), p.a);
    MovesShaped(c, View(m), b);
    Ideal.StepMoves(c, View(m), b);
    TakesStays(c, View(m).at, p.t, Moves(c, View(m), b));
    if Puts(p.t) {
      ViewAt(m, p.t.from);
      ViewAt(m', p.t.from);
      SenderSideStays(c, m, b, p.t.to);
      SlotsStay(m, p.t, p.written, m');
    }
    SameInView(c, m', p.a);
  }

  // ---------------------------------------------------------------- every micro step

  lemma StepStays(c: Config, w: Split, b: Action, m': Machine, ops': map<Thread, Pending>)
    requires SplitInv(c, w) && CanStep(c, w.m, b) && Whole(c, w.m, b) && m' == Stepped(c, w.m, b)
    requires Ideal.Actor(b) !in ops' && forall th :: th in ops' ==> th in w.ops && ops'[th] == w.ops[th]
    requires forall th {:trigger w.ops[th]} :: th in ops' ==> Apart(w.ops[th].t, Moves(c, w.m.s, b))
    ensures SplitInv(c, Split(m', ops'))
  {
    StepRefines(c, w.m, b);
    ReachableStep(c, View(w.m), b, View(m'));
    forall th | th in ops' ensures PendingRight(c, m', th, ops'[th]) {
      var _ := w.ops[th];
      PendingStays(c, w.m, th, ops'[th], b, m');
    }
    forall th, th' | th in ops' && th' in ops' && th != th' ensures Apart(ops'[th].t, ops'[th'].t) {
      var _, _ := w.ops[th], w.ops[th'];
    }
  }

  lemma BegunRight(c: Config, m: Machine, a: Action)
    requires c.Valid() && Good(m) && Guard(c, m.s, a) && UsesRing(Moves(c, m.s, a)) && Accepted(c, m, Moves(c, m.s, a))
    ensures PendingRight(c, m, Ideal.Actor(a), Pending(a, Moves(c, m.s, a), 0, []))
  {
    var t := Moves(c, m.s, a);
    MovesShaped(c, m.s, a);
    AcceptedIff(c, m, t);
    if Puts(t) {
      ViewAt(m, t.to);
      Ring.CapacityBound(|RingAt(m, t.to).cells|);
    }
  }

  lemma BegunApart(c: Config, w: Split, a: Action, th: Thread)
    requires SplitInv(c, w) && CanBegin(c, w, a) && th in w.ops
    ensures Apart(Moves(c, w.m.s, a), w.ops[th].t)
  {
    var t, p := Moves(c, w.m.s, a), w.ops[th];
    if Gets(t) && Gets(p.t) && t.from == p.t.from {
      OneReceiver(c, w.m.s, a, p.a);
    } else if Puts(t) && Puts(p.t) && t.to == p.t.to && t.to.ParserQueue? {
      Ideal.ReachableInv(c, View(w.m));
      SameInView(c, w.m, a);
      SameInView(c, w.m, p.a);
      OneSender(c, View(w.m), a, p.a);
    }
  }

  lemma PrefixGrows<T>(xs: seq<T>, ys: seq<T>)
    requires xs <= ys && |xs| < |ys|
    ensures xs + [ys[|xs|]] <= ys
  {
  }

  lemma MovesSuit(c: Config, s: State, a: Action)
    requires Inv(c, s) && Enabled(c, s, a)
    ensures Available(s.at, Moves(c, s, a)) && Suits(c, s.at, Moves(c, s, a))
  {
    match a
    case ByGenerator(i, g) => GeneratorSuits(c, s, i, g);
    case ByParser(j, p) => ParserSuits(c, s, j, p);
    case ByManager(k, m) => ManagerSuits(c, s, k, m);
    case BySweeper(w) => SweeperSuits(c, s, w);
  }

  lemma PendingIntoOwn(c: Config, m: Machine, th: Thread, p: Pending)
    requires c.Valid() && Good(m) && Reachable(c, View(m)) && PendingRight(c, m, th, p) && Puts(p.t)
    ensures IsOwn(c, p.t.to)
  {
    Ideal.ReachableInv(c, View(m));
    SameInView(c, m, p.a);
    EnabledIs(c, View(m), p.a);
    // What is put goes into a ring of the configuration.
    var t := Moves(c, View(m), p.a);
    MovesSuit(c, View(m), p.a);
    MovesShaped(c, View(m), p.a);
    assert Fits(c, t.to, At(View(m).at, t.from)[t.k]);
  }

  lemma StillOnePerRing(w: Split, th: Thread, p: Pending, m': Machine)
    requires OnePerRing(w) && th in w.ops && p.t == w.ops[th].t
    ensures OnePerRing(Split(m', w.ops[th := p]))
  {
    var ops' := w.ops[th := p];
    forall th', th'' | th' in ops' && th'' in ops' && th' != th'' ensures Apart(ops'[th'].t, ops'[th''].t) {
      var _, _ := w.ops[th'], w.ops[th''];
    }
  }

  /** The writer itself. */
  lemma WriteOwn(c: Config, m: Machine, th: Thread, p: Pending, m': Machine)
    requires c.Valid() && Good(m) && Allocated(c, m) && Reachable(c, View(m)) && PendingRight(c, m, th, p) && CanWrite(m, p) && m' == Written(m, p)
    ensures Good(m') && View(m') == View(m) && PendingRight(c, m', th, HasWritten(p))
  {
    PendingIntoOwn(c, m, th, p);
    WrittenUnseen(c, m, th, p);
    WroteOne(c, m, th, p, m');
  }

  lemma WroteOne(c: Config, m: Machine, th: Thread, p: Pending, m': Machine)
    requires PendingRight(c, m, th, p) && Puts(p.t) && !Gets(p.t) && m'.s == m.s && InOrder(m') && View(m') == View(m)
    requires Wrote(RingAt(m', p.t.to), Slice(m'.s.at, p.t), p.written + 1)
    ensures PendingRight(c, m', th, HasWritten(p))
  {
  }

  /** Writing a slot changes nothing that anybody sees. */
  lemma WrittenUnseen(c: Config, m: Machine, th: Thread, p: Pending)
    requires c.Valid() && Good(m) && PendingRight(c, m, th, p) && CanWrite(m, p) && p.t.to in m.rings
    ensures var m', r' := Written(m, p), WriteOne(RingAt(m, p.t.to), Slice(m.s.at, p.t), p.written);
      && Good(m') && View(m') == View(m) && RingAt(m', p.t.to) == r' && Wrote(r', Slice(m.s.at, p.t), p.written + 1)
  {
    SlotKeeps(c, m, th, p);
    SlotUnseen(m, Written(m, p), p.t.to, WriteOne(RingAt(m, p.t.to), Slice(m.s.at, p.t), p.written));
  }

  lemma SlotKeeps(c: Config, m: Machine, th: Thread, p: Pending)
    requires c.Valid() && Good(m) && PendingRight(c, m, th, p) && CanWrite(m, p)
    ensures var r, r' := RingAt(m, p.t.to), WriteOne(RingAt(m, p.t.to), Slice(m.s.at, p.t), p.written);
      && Ring.Valid(r') && |r'.cells| == |r.cells| && r'.deq == r.deq && Ring.Valid(r) && Ring.Contents(r') == Ring.Contents(r)
      && Wrote(r', Slice(m.s.at, p.t), p.written + 1)
  {
    var r := RingAt(m, p.t.to);
    ViewAt(m, p.t.to);
    Ring.CapacityBound(|r.cells|);
    WriteKeeps(r, Slice(m.s.at, p.t), p.written);
  }

  lemma SlotUnseen(m: Machine, m': Machine, p: Place, r: Cells)
    requires Good(m) && p in m.rings && m' == m.(rings := m.rings[p := r])
    requires Ring.Valid(r) && |r.cells| == |RingAt(m, p).cells| && r.deq == RingAt(m, p).deq
    requires Ring.Valid(RingAt(m, p)) && Ring.Contents(r) == Ring.Contents(RingAt(m, p))
    ensures Good(m') && View(m') == View(m) && RingAt(m', p) == r
  {
    var _ := RingAt(m, p);
    OneRing(m, m', p, r);
    RingBookUpdate(m, m', p, r);
    assert RingBook(m)[p] == Ring.Contents(r);
    assert RingBook(m)[p := Ring.Contents(r)] == RingBook(m);
  }

  lemma WriteStays(c: Config, w: Split, th: Thread, w': Split)
    requires SplitInv(c, w) && th in w.ops && CanWrite(w.m, w.ops[th])
    requires w' == Split(Written(w.m, w.ops[th]), w.ops[th := HasWritten(w.ops[th])])
    ensures SplitInv(c, w')
  {
    var p := w.ops[th];
    WriteOwn(c, w.m, th, p, w'.m);
    forall th' | th' in w.ops && th' != th ensures PendingRight(c, w'.m, th', w.ops[th']) {
      assert Apart(w.ops[th].t, w.ops[th'].t);
      assert Puts(w.ops[th'].t) ==> RingAt(w'.m, w.ops[th'].t.to) == RingAt(w.m, w.ops[th'].t.to);
    }
    StillOnePerRing(w, th, w'.ops[th], w'.m);
    AllRight(c, w, th, w'.ops[th], w'.m);
  }

  lemma AllRight(c: Config, w: Split, th: Thread, p: Pending, m': Machine)
    requires c.Valid() && Good(m') && Allocated(c, w.m) && w.m.rings.Keys <= m'.rings.Keys && Reachable(c, View(m'))
    requires OnePerRing(Split(m', w.ops[th := p])) && PendingRight(c, m', th, p)
    requires forall th' {:trigger w.ops[th']} :: th' in w.ops && th' != th ==> PendingRight(c, m', th', w.ops[th'])
    ensures SplitInv(c, Split(m', w.ops[th := p]))
  {
    var ops' := w.ops[th := p];
    forall th' | th' in ops' ensures PendingRight(c, m', th', ops'[th']) {
      if th' != th {
        var _ := w.ops[th'];
      }
    }
  }

  lemma MicroInv(c: Config, w: Split, u: Micro, w': Split)
    requires SplitInv(c, w) && Leads(c, w, u, w') && WholeMicro(w, u)
    ensures SplitInv(c, w')
  {
    match u
    case Single(a) =>
      StepStays(c, w, a, w'.m, w'.ops);
    case Begin(a) =>
      BegunRight(c, w.m, a);
      var ops' := w.ops[Ideal.Actor(a) := w'.ops[Ideal.Actor(a)]];
      forall th, th' | th in ops' && th' in ops' && th != th' ensures Apart(ops'[th].t, ops'[th'].t) {
        if th == Ideal.Actor(a) {
          BegunApart(c, w, a, th');
        } else if th' == Ideal.Actor(a) {
          BegunApart(c, w, a, th);
        } else {
          var _, _ := w.ops[th], w.ops[th'];
        }
      }
      AllRight(c, w, Ideal.Actor(a), w'.ops[Ideal.Actor(a)], w.m);
    case Write(th) => WriteStays(c, w, th, w');
    case Read(th) =>
      ViewAt(w.m, w.ops[th].t.from);
      ReadsContents(RingAt(w.m, w.ops[th].t.from), |w.ops[th].read|, w.ops[th].t.n);
      PrefixGrows(w.ops[th].read, At(View(w.m).at, w.ops[th].t.from));
      StillOnePerRing(w, th, HasRead(w.m, w.ops[th]), w.m);
      AllRight(c, w, th, HasRead(w.m, w.ops[th]), w.m);
    case Publish(th) =>
      var p := w.ops[th];
      PublishIsStep(c, w.m, th, p);
      StepStays(c, w, p.a, w'.m, w'.ops);
  }

  lemma {:induction false} SplitRunInv(c: Config, w: Split, us: seq<Micro>, w': Split)
    requires SplitInv(c, w) && SplitRun(c, w, us, w')
    ensures SplitInv(c, w')
    decreases |us|
  {
    if us != [] {
      var w1 :| Leads(c, w, us[0], w1) && WholeMicro(w, us[0]) && SplitRun(c, w1, us[1..], w');
      MicroInv(c, w, us[0], w1);
      SplitRunInv(c, w1, us[1..], w');
    }
  }

  // ---------------------------------------------------------------- what holds with operations taken apart

  /** New rings, filled and all allocated, and nobody in the middle of anything. */
  ghost predicate SplitInit(c: Config, w: Split) { RingInit(c, w.m) && Allocated(c, w.m) && w.ops == map[] }

  function OwnRings(c: Config): set<Place> {
    (set i | 0 <= i < c.g :: PacketPool(i)) + (set j | 0 <= j < c.p :: FlowPool(j)) + (set k | 0 <= k < c.m :: SessionPool(k))
    + (set j | 0 <= j < c.p :: ParserQueue(j)) + (set k | 0 <= k < c.m :: ManagerQueue(k))
  }

  /** Such states exist. */
  lemma SplitStarts(c: Config, pc: SweeperPc) returns (w: Split)
    requires c.Valid() && AtStart(pc)
    ensures SplitInit(c, w)
  {
    var l := OwnBook(c);
    OwnBookAlike(c);
    InitialStateIsInit(c, pc);
    var m := MachineOf(InitialState(c, pc).(at := l));
    FilledAlike(m, l, FullPools(c));
    AllAllocated(c, m, l);
    w := Split(m, map[]);
  }

  lemma AllAllocated(c: Config, m: Machine, l: Book)
    requires c.Valid() && InOrder(m) && View(m).at == l && l.Keys == OwnRings(c)
    ensures Allocated(c, m)
  {
    forall p | IsOwn(c, p) ensures p in m.rings {
      assert p in l;
    }
  }

  function OwnBook(c: Config): Book { map p | p in OwnRings(c) :: At(FullPools(c), p) }

  lemma OwnBookAlike(c: Config)
    ensures forall p :: At(OwnBook(c), p) == At(FullPools(c), p)
    ensures OfRings(OwnBook(c)) && forall p :: p in OwnBook(c) ==> IsRing(p)
  {
    FullPoolsOfRings(c);
    forall p
      ensures At(OwnBook(c), p) == At(FullPools(c), p)
      ensures if IsRing(p) then |At(OwnBook(c), p)| <= Size(p) else At(OwnBook(c), p) == []
    {
      FullPoolsAt(c, p);
      var _ := At(FullPools(c), p);
    }
  }

  lemma FilledAlike(m: Machine, l: Book, l': Book)
    requires FilledWith(m, l) && forall p :: At(l', p) == At(l, p)
    ensures FilledWith(m, l')
  {
    forall p | IsRing(p) ensures JustFilled(RingAt(m, p), Size(p), At(l', p)) && CarriedBy(m, p) == |At(l', p)| {
      var _ := RingAt(m, p);
    }
  }

  ghost predicate SplitReached(c: Config, w: Split) {
    c.Valid() && exists w0, us :: SplitInit(c, w0) && SplitRun(c, w0, us, w)
  }

  /** Whatever threads are in the middle of, what is in the rings and elsewhere is a reachable state of the
      pipeline over ideal queues, whose operations are single steps: so all that holds there holds here. */
  lemma SplitRefines(c: Config, w: Split)
    requires SplitReached(c, w)
    ensures SplitInv(c, w) && Good(w.m) && Reachable(c, View(w.m)) && Inv(c, View(w.m))
  {
    var w0, us :| SplitInit(c, w0) && SplitRun(c, w0, us, w);
    InitRefines(c, w0.m);
    assert IsRun(c, View(w0.m), [], View(w0.m));
    SplitRunInv(c, w0, us, w);
    Ideal.ReachableInv(c, View(w.m));
  }

  /** What a thread is doing: the operation that it is in the middle of, or a step that it could begin. */
  ghost predicate Doing(c: Config, w: Split, a: Action) {
    if Ideal.Actor(a) in w.ops then w.ops[Ideal.Actor(a)].a == a else CanStep(c, w.m, a)
  }

  lemma DoingEnabled(c: Config, w: Split, a: Action)
    requires SplitInv(c, w) && Doing(c, w, a)
    ensures Enabled(c, View(w.m), a)
  {
    if Ideal.Actor(a) in w.ops {
      assert PendingRight(c, w.m, Ideal.Actor(a), w.ops[Ideal.Actor(a)]);
      SameInView(c, w.m, a);
      EnabledIs(c, View(w.m), a);
    } else {
      CanStepIff(c, w.m, a);
    }
  }

  /** Threads in the middle of operations do not touch the same packet, flow item or session either. */
  lemma SplitNoRace(c: Config, w: Split, a: Action, b: Action, x: Obj)
    requires SplitReached(c, w) && Doing(c, w, a) && Doing(c, w, b) && Ideal.Actor(a) != Ideal.Actor(b)
    requires InOrder(w.m) && Ideal.Touches(View(w.m), a, x)
    ensures !Ideal.Touches(View(w.m), b, x)
  {
    SplitRefines(c, w);
    DoingEnabled(c, w, a);
    DoingEnabled(c, w, b);
    Ideal.NoRace(c, View(w.m), a, b, x);
  }

  /** The ring and the slot of it that a thread writes or reads next. */
  predicate WritesSlot(m: Machine, p: Pending, ring: Place, slot: nat) {
    CanWrite(m, p) && ring == p.t.to && slot == SlotOf(RingAt(m, ring).enq, p.written, p.t.n, |RingAt(m, ring).cells|)
  }

  predicate ReadsSlot(m: Machine, p: Pending, ring: Place, slot: nat) {
    CanRead(m, p) && ring == p.t.from && slot == SlotOf(RingAt(m, ring).deq, |p.read|, p.t.n, |RingAt(m, ring).cells|)
  }

  /** No slot of any ring is written by one thread while another one reads or writes it, with all the senders
      and receivers that the ring has. */
  lemma NoSlotShared(c: Config, w: Split, th: Thread, th': Thread, ring: Place, slot: nat)
    requires SplitReached(c, w) && th in w.ops && th' in w.ops && th != th' && WritesSlot(w.m, w.ops[th], ring, slot)
    ensures !WritesSlot(w.m, w.ops[th'], ring, slot) && !ReadsSlot(w.m, w.ops[th'], ring, slot)
  {
    SplitRefines(c, w);
    assert Apart(w.ops[th].t, w.ops[th'].t);
    if ReadsSlot(w.m, w.ops[th'], ring, slot) {
      SenderAndReceiver(c, w.m, th, w.ops[th], th', w.ops[th'], ring);
    }
  }

  lemma SenderAndReceiver(c: Config, m: Machine, th: Thread, p: Pending, th': Thread, q: Pending, ring: Place)
    requires Good(m) && PendingRight(c, m, th, p) && PendingRight(c, m, th', q) && CanWrite(m, p) && CanRead(m, q) && ring == p.t.to == q.t.from
    ensures var r := RingAt(m, ring);
      |r.cells| > 0 && SlotOf(r.enq, p.written, p.t.n, |r.cells|) != SlotOf(r.deq, |q.read|, q.t.n, |r.cells|)
  {
    ViewAt(m, ring);
    SlotsApart(RingAt(m, ring), p.written, p.t.n, |q.read|, q.t.n);
  }

  /** An operation is refused at its check exactly if, in the state of the ideal pipeline that this one stands for,
      the step would not be enabled; only another sender's mutex can hold it up besides. */
  lemma BeginsIff(c: Config, w: Split, a: Action)
    requires SplitReached(c, w) && InOrder(w.m) && Ideal.Actor(a) !in w.ops && Guard(c, w.m.s, a) && UsesRing(Moves(c, w.m.s, a))
    ensures CanBegin(c, w, a) <==> Enabled(c, View(w.m), a) && MutexFree(w, Moves(c, w.m.s, a))
  {
    SplitRefines(c, w);
    BeginsAsStep(c, w, a);
  }

  lemma BeginsAsStep(c: Config, w: Split, a: Action)
    requires c.Valid() && Good(w.m) && Ideal.Actor(a) !in w.ops && Guard(c, w.m.s, a) && UsesRing(Moves(c, w.m.s, a))
    ensures CanBegin(c, w, a) <==> Enabled(c, View(w.m), a) && MutexFree(w, Moves(c, w.m.s, a))
  {
    CanStepIff(c, w.m, a);
  }
}
