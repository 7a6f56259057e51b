/** The pipeline over the rings themselves.

    Here a queue or pool is an array with two counters, and a thread uses it by the single and
    batch operations of the program, with their guards and their 32-bit locals.  As long as no
    batch writes back a counter that has lost its upper half, a run of this machine is a run of
    the pipeline over ideal bounded queues; and the first batch that does leaves its ring
    broken.  While a ring has carried fewer than 2^32 objects, none does. */
module PipelineRings {
  import opened Common
  import opened Ledger
  import opened Pipeline
  import Ring
  import RingBatch

  type Cells = Ring.State<Obj>

  /** `s.at` holds the places that are not rings; `carried` counts what has been put into each
      ring since it was initialised. */
  datatype Machine = Machine(s: State, rings: map<Place, Cells>, carried: map<Place, nat>)

  function Size(p: Place): nat { if p.SessionPool? then SESSION_CAPACITY else RING_CAPACITY }

  function EmptyRing(n: nat): Cells { Ring.State(seq(n, _ => Packet(0, 0)), 0, 0) }

  function RingAt(m: Machine, p: Place): Cells { if p in m.rings then m.rings[p] else EmptyRing(Size(p)) }

  function CarriedBy(m: Machine, p: Place): nat { if p in m.carried then m.carried[p] else 0 }

  /** The rings that batches are taken from, and the rings that they are put into. */
  predicate BatchTaken(p: Place) { p.ParserQueue? || p.FlowPool? }

  predicate BatchPut(p: Place) { p.FlowPool? || p.PacketPool? }

  // ---------------------------------------------------------------- steps

  /** Taking objects out of a ring: `dequeue` for one, `dequeue_multiple` for a batch. */
  ghost function Fetch(c: Config, r: Cells, n: Word32): Ring.Option<(Cells, seq<Obj>)>
    requires Ring.IsCapacity(|r.cells|)
  {
    if n == 1 then
      match Ring.Get(r)
      case (_, None) => Ring.None
      case (r', Some(x)) => Ring.Some((r', [x]))
    else if c.need == BATCH then RingBatch.GetMany(r, n)
    else RingBatch.GetManyTile(r, n)
  }

  /** Putting objects into a ring: `enqueue` for one, `enqueue_multiple` for a batch. */
  ghost function Store(r: Cells, xs: seq<Obj>): (Cells, bool)
    requires Ring.IsCapacity(|r.cells|) && |xs| < U32
  {
    if |xs| == 1 then Ring.Put(r, xs[0]) else RingBatch.PutMany(r, xs)
  }

  /** What a transfer takes from a place that is not a ring. */
  function Slice(l: Book, t: Transfer): seq<Obj>
    requires t.Transfer? && t.k + t.n <= |At(l, t.from)|
  {
    At(l, t.from)[t.k..t.k + t.n]
  }

  /** The ring operation of the transfer, if it has one, succeeds. */
  ghost predicate Accepted(c: Config, m: Machine, t: Transfer) {
    t.Stay? || (
      && t.from != t.to && t.n < U32
      && if IsRing(t.from) then
           && !IsRing(t.to) && Ring.IsCapacity(|RingAt(m, t.from).cells|)
           && Fetch(c, RingAt(m, t.from), t.n).Some?
         else
           && t.k + t.n <= |At(m.s.at, t.from)|
           && (IsRing(t.to) ==> Ring.IsCapacity(|RingAt(m, t.to).cells|) && Store(RingAt(m, t.to), Slice(m.s.at, t)).1))
  }

  ghost function Transferred(c: Config, m: Machine, t: Transfer): Machine
    requires Accepted(c, m, t)
  {
    if t.Stay? then m
    else if IsRing(t.from) then
      var (r, xs) := Fetch(c, RingAt(m, t.from), t.n).value;
      m.(s := m.s.(at := m.s.at[t.to := At(m.s.at, t.to) + xs]), rings := m.rings[t.from := r])
    else if IsRing(t.to) then
      var xs, rest := Slice(m.s.at, t), At(m.s.at, t.from)[..t.k] + At(m.s.at, t.from)[t.k + t.n..];
      m.(s := m.s.(at := m.s.at[t.from := rest]),
         rings := m.rings[t.to := Store(RingAt(m, t.to), xs).0],
         carried := m.carried[t.to := CarriedBy(m, t.to) + |xs|])
    else
      m.(s := m.s.(at := Move(m.s.at, t.from, t.k, t.n, t.to)))
  }

  /** The first pass over a pool skips a turn only if the dequeue is refused. */
  ghost predicate SkipsRightly(c: Config, m: Machine, a: Action) {
    a.ByGenerator? && a.g.BuildSkip? ==>
      var r := RingAt(m, PacketPool(a.i));
      Ring.IsCapacity(|r.cells|) && Fetch(c, r, 1).None?
  }

  ghost predicate CanStep(c: Config, m: Machine, a: Action) {
    Guard(c, m.s, a) && Accepted(c, m, Moves(c, m.s, a)) && SkipsRightly(c, m, a)
  }

  ghost function Stepped(c: Config, m: Machine, a: Action): Machine
    requires CanStep(c, m, a)
  {
    var m' := Transferred(c, m, Moves(c, m.s, a));
    m'.(s := Control(c, m.s, a).(at := m'.s.at))
  }

  ghost predicate RingRun(c: Config, m: Machine, acts: seq<Action>, m': Machine)
    decreases |acts|
  {
    if acts == [] then m == m'
    else CanStep(c, m, acts[0]) && RingRun(c, Stepped(c, m, acts[0]), acts[1..], m')
  }

  // ---------------------------------------------------------------- what a machine stands for

  /** Every ring is in order. */
  ghost predicate InOrder(m: Machine) {
    && (forall p {:trigger RingAt(m, p)} :: IsRing(p) ==> Ring.Valid(RingAt(m, p)) && |RingAt(m, p).cells| == Size(p))
    && (forall p :: p in m.rings ==> IsRing(p))
    && (forall p :: p in m.s.at ==> !IsRing(p))
  }

  /** ... and the counter that a batch reads has not outgrown its 32-bit local. */
  ghost predicate Good(m: Machine) {
    && InOrder(m)
    && forall p {:trigger RingAt(m, p)} :: BatchTaken(p) ==> RingAt(m, p).deq < U32
  }

  /** The counter that a batch writes back still fits its 32-bit local. */
  predicate WritesBack(m: Machine, t: Transfer) {
    t.Transfer? && t.n == BATCH ==>
      && (IsRing(t.from) ==> RingAt(m, t.from).deq + BATCH < U32)
      && (IsRing(t.to) ==> Ring.Add64(RingAt(m, t.to).enq, BATCH) < U32)
  }

  predicate Whole(c: Config, m: Machine, a: Action)
    requires Guard(c, m.s, a)
  {
    WritesBack(m, Moves(c, m.s, a))
  }

  /** The pipeline state with the contents of the rings in their places. */
  ghost function View(m: Machine): State
    requires InOrder(m)
  {
    m.s.(at := m.s.at + RingBook(m))
  }

  /** What is in the rings. */
  ghost function RingBook(m: Machine): Book
    requires InOrder(m)
  {
    map p | p in m.rings :: Ring.Contents(Ordered(m, p))
  }

  ghost function Ordered(m: Machine, p: Place): (r: Cells)
    requires InOrder(m) && p in m.rings
    ensures r == m.rings[p] && Ring.Valid(r)
  {
    RingAt(m, p)
  }

  lemma ViewAt(m: Machine, p: Place)
    requires InOrder(m)
    ensures IsRing(p) ==> At(View(m).at, p) == Ring.Contents(RingAt(m, p))
    ensures !IsRing(p) ==> At(View(m).at, p) == At(m.s.at, p)
  {
    var _ := RingAt(m, p);
  }

  // ---------------------------------------------------------------- ring operations on contents

  lemma FetchOne(c: Config, r: Cells)
    requires Ring.Valid(r)
    ensures Fetch(c, r, 1).Some? <==> Ring.Contents(r) != []
    ensures Fetch(c, r, 1).Some? ==>
      var (r', xs) := Fetch(c, r, 1).value;
      && Ring.Valid(r') && r'.cells == r.cells && r'.enq == r.enq
      && xs == Ring.Contents(r)[..1] && Ring.Contents(r') == Ring.Contents(r)[1..]
  {
    Ring.GetTakes(r);
  }

  /** The batch test of either platform, while the counter it reads fits 32 bits. */
  lemma FetchTest(c: Config, r: Cells)
    requires c.Valid() && Ring.Valid(r) && r.deq < U32
    ensures Fetch(c, r, BATCH).Some? <==> |Ring.Contents(r)| >= c.need
    ensures Fetch(c, r, BATCH).Some? ==> Fetch(c, r, BATCH) == RingBatch.GetMany(r, BATCH)
  {
    Ring.CapacityBound(|r.cells|);
  }

  /** A batch is taken exactly if the ring holds enough for it; it leaves the ring in order, less
      its oldest 64 objects, exactly if the counter it writes back fits 32 bits. */
  lemma FetchBatch(c: Config, r: Cells)
    requires c.Valid() && Ring.Valid(r) && r.deq < U32
    ensures Fetch(c, r, BATCH).Some? <==> |Ring.Contents(r)| >= c.need
    ensures Fetch(c, r, BATCH).Some? ==> (Ring.Valid(Fetch(c, r, BATCH).value.0) <==> r.deq + BATCH < U32)
    ensures Fetch(c, r, BATCH).Some? && r.deq + BATCH < U32 ==>
      var (r', xs) := Fetch(c, r, BATCH).value;
      && r'.cells == r.cells && r'.enq == r.enq && r'.deq == r.deq + BATCH
      && xs == Ring.Contents(r)[..BATCH] && Ring.Contents(r') == Ring.Contents(r)[BATCH..]
  {
    FetchTest(c, r);
    if Fetch(c, r, BATCH).Some? {
      RingBatch.GetManyValidIff(r, BATCH, Packet(0, 0));
      if r.deq + BATCH < U32 {
        RingBatch.GetManyExact(r, BATCH);
        RingBatch.GetAllTakes(r, BATCH);
        RingBatch.GetAllIs(r, BATCH);
      }
    }
  }

  /** A batch is put exactly if it fits; it leaves the ring in order, and longer by the batch,
      exactly if the counter it writes back fits 32 bits. */
  lemma StoreBatch(r: Cells, xs: seq<Obj>)
    requires Ring.Valid(r) && |xs| == BATCH
    ensures Store(r, xs).1 <==> |Ring.Contents(r)| + BATCH <= |r.cells|
    ensures Store(r, xs).1 ==> (Ring.Valid(Store(r, xs).0) <==> Ring.Add64(r.enq, BATCH) < U32)
    ensures Store(r, xs).1 && Ring.Add64(r.enq, BATCH) < U32 ==>
      var r' := Store(r, xs).0;
      && |r'.cells| == |r.cells| && r'.deq == r.deq && r'.enq == Ring.Add64(r.enq, BATCH)
      && Ring.Contents(r') == Ring.Contents(r) + xs
  {
    RingBatch.PutManyExact(r, xs);
    if Store(r, xs).1 {
      RingBatch.PutManyValidIff(r, xs);
      RingBatch.PutAllAppends(r, xs);
      RingBatch.PutAllIs(r, xs);
    }
  }

  // ---------------------------------------------------------------- transfers

  /** A transfer has at most one ring operation, and each ring is used in its own way. */
  predicate Shaped(t: Transfer) {
    t.Stay? || (
      && !(IsRing(t.from) && IsRing(t.to))
      && (IsRing(t.from) ==> t.k == 0 && t.n == if BatchTaken(t.from) then BATCH else 1)
      && (IsRing(t.to) ==> t.n == 1 || (t.n == BATCH && BatchPut(t.to)))
      && t.n <= BATCH)
  }

  lemma MovesShaped(c: Config, s: State, a: Action)
    requires Guard(c, s, a)
    ensures Shaped(Moves(c, s, a))
  {
  }

  ghost predicate Takes(c: Config, l: Book, t: Transfer) {
    Possible(l, t) && (t.Transfer? && IsRing(t.from) && t.n == BATCH ==> |At(l, t.from)| >= c.need)
  }

  lemma AcceptedIff(c: Config, m: Machine, t: Transfer)
    requires c.Valid() && Good(m) && Shaped(t)
    ensures Accepted(c, m, t) <==> Takes(c, View(m).at, t)
  {
    if t.Transfer? {
      ViewAt(m, t.from);
      ViewAt(m, t.to);
      if IsRing(t.from) {
        var r := RingAt(m, t.from);
        FetchOne(c, r);
        if t.n == BATCH {
          FetchBatch(c, r);
        }
      } else if IsRing(t.to) && t.k + t.n <= |At(m.s.at, t.from)| {
        var r, xs := RingAt(m, t.to), Slice(m.s.at, t);
        if t.n == 1 {
          Ring.PutAppends(r, xs[0]);
          assert xs == [xs[0]];
        } else {
          StoreBatch(r, xs);
        }
      }
    }
  }

  /** Two machines that agree on the other rings. */
  lemma OneRing(m: Machine, m': Machine, p: Place, r: Cells)
    requires Good(m) && IsRing(p) && m'.rings == m.rings[p := r] && |r.cells| == Size(p)
    requires forall q :: q in m'.s.at ==> !IsRing(q)
    ensures InOrder(m') <==> Ring.Valid(r)
    ensures Ring.Valid(r) && (BatchTaken(p) ==> r.deq < U32) ==> Good(m')
  {
    assert RingAt(m', p) == r;
    forall q | IsRing(q) && q != p ensures Ring.Valid(RingAt(m', q)) && |RingAt(m', q).cells| == Size(q) {
      assert RingAt(m', q) == RingAt(m, q);
    }
    forall q | BatchTaken(q) && q != p ensures RingAt(m', q).deq < U32 {
      assert RingAt(m', q) == RingAt(m, q);
    }
  }

  lemma RingBookUpdate(m: Machine, m': Machine, p: Place, r: Cells)
    requires InOrder(m) && InOrder(m') && m'.rings == m.rings[p := r] && Ring.Valid(r)
    ensures RingBook(m') == RingBook(m)[p := Ring.Contents(r)]
  {
    forall q | q in m'.rings ensures RingBook(m')[q] == RingBook(m)[p := Ring.Contents(r)][q] {
      if q != p {
        assert Ordered(m', q) == Ordered(m, q);
      }
    }
  }

  /** Updates of a merged book. */
  lemma MergeLeft(l: Book, r: Book, p: Place, xs: seq<Obj>)
    requires p !in r
    ensures l[p := xs] + r == (l + r)[p := xs]
  {
  }

  lemma MergeRight(l: Book, r: Book, p: Place, xs: seq<Obj>)
    ensures l + r[p := xs] == (l + r)[p := xs]
  {
  }

  lemma UpdateTwice(l: Book, p: Place, xs: seq<Obj>, q: Place, ys: seq<Obj>)
    requires p != q
    ensures l[p := xs][q := ys] == l[q := ys][p := xs]
  {
  }

  lemma TakenGood(c: Config, m: Machine, t: Transfer)
    requires c.Valid() && Good(m) && Shaped(t) && Accepted(c, m, t) && t.Transfer? && IsRing(t.from)
    ensures InOrder(Transferred(c, m, t)) <==> WritesBack(m, t)
    ensures WritesBack(m, t) ==> Good(Transferred(c, m, t))
    ensures WritesBack(m, t) ==>
      var (r', xs) := Fetch(c, RingAt(m, t.from), t.n).value;
      && Ring.Valid(r') && r'.enq == RingAt(m, t.from).enq && Ring.Contents(r') == Ring.Contents(RingAt(m, t.from))[t.n..]
      && t.n <= |Ring.Contents(RingAt(m, t.from))| && xs == Ring.Contents(RingAt(m, t.from))[..t.n]
  {
    var r := RingAt(m, t.from);
    if t.n == 1 {
      FetchOne(c, r);
    } else {
      FetchBatch(c, r);
    }
    OneRing(m, Transferred(c, m, t), t.from, Fetch(c, r, t.n).value.0);
  }

  lemma PutGood(c: Config, m: Machine, t: Transfer)
    requires c.Valid() && Good(m) && Shaped(t) && Accepted(c, m, t) && t.Transfer? && IsRing(t.to)
    ensures InOrder(Transferred(c, m, t)) <==> WritesBack(m, t)
    ensures WritesBack(m, t) ==> Good(Transferred(c, m, t))
    ensures WritesBack(m, t) ==>
      var r' := Store(RingAt(m, t.to), Slice(m.s.at, t)).0;
      && Ring.Valid(r') && Ring.Contents(r') == Ring.Contents(RingAt(m, t.to)) + Slice(m.s.at, t)
      && r'.enq == Ring.Add64(RingAt(m, t.to).enq, t.n)
  {
    var r, m', xs := RingAt(m, t.to), Transferred(c, m, t), Slice(m.s.at, t);
    if t.n == 1 {
      Ring.PutAppends(r, xs[0]);
      assert xs == [xs[0]];
    } else {
      StoreBatch(r, xs);
    }
    StoreShape(r, xs);
    OneRing(m, m', t.to, Store(r, xs).0);
  }

  lemma StoreShape(r: Cells, xs: seq<Obj>)
    requires Ring.Valid(r) && 0 < |xs| < U32
    ensures |Store(r, xs).0.cells| == |r.cells| && Store(r, xs).0.deq == r.deq
  {
    Ring.CellInRange(r);
  }

  lemma PutBook(l: Book, b: Book, t: Transfer, more: seq<Obj>)
    requires t.Transfer? && t.from !in b && Available(l, t) && Available(l + b, t)
    requires more == At(l + b, t.to) + Slice(l, t)
    ensures l[t.from := At(l, t.from)[..t.k] + At(l, t.from)[t.k + t.n..]] + b[t.to := more] == Carry(l + b, t)
  {
    var rest := At(l, t.from)[..t.k] + At(l, t.from)[t.k + t.n..];
    assert At(l + b, t.from) == At(l, t.from);
    MergeRight(l[t.from := rest], b, t.to, more);
    MergeLeft(l, b, t.from, rest);
  }

  lemma MovedElsewhere(c: Config, m: Machine, t: Transfer)
    requires c.Valid() && Good(m) && Shaped(t) && Accepted(c, m, t) && (t.Transfer? ==> !IsRing(t.from) && !IsRing(t.to))
    ensures Good(Transferred(c, m, t))
    ensures Available(View(m).at, t) && View(Transferred(c, m, t)).at == Carry(View(m).at, t)
  {
    AcceptedIff(c, m, t);
    var m' := Transferred(c, m, t);
    assert forall p :: RingAt(m', p) == RingAt(m, p);
    if t.Transfer? {
      ViewAt(m, t.from);
      ViewAt(m, t.to);
      MovedView(m, m', t);
    }
  }

  lemma MovedView(m: Machine, m': Machine, t: Transfer)
    requires InOrder(m) && InOrder(m') && RingBook(m') == RingBook(m) && t.Transfer? && !IsRing(t.from) && !IsRing(t.to)
    requires Available(m.s.at, t) && Available(View(m).at, t) && m'.s.at == Carry(m.s.at, t)
    requires At(View(m).at, t.from) == At(m.s.at, t.from) && At(View(m).at, t.to) == At(m.s.at, t.to)
    ensures View(m').at == Carry(View(m).at, t)
  {
    var rest, more := At(m.s.at, t.from)[..t.k] + At(m.s.at, t.from)[t.k + t.n..], At(m.s.at, t.to) + At(m.s.at, t.from)[t.k..t.k + t.n];
    assert At(m.s.at + RingBook(m), t.from) == At(m.s.at, t.from) && At(m.s.at + RingBook(m), t.to) == At(m.s.at, t.to);
    MergeLeft(m.s.at[t.from := rest], RingBook(m), t.to, more);
    MergeLeft(m.s.at, RingBook(m), t.from, rest);
  }

  /** An accepted transfer does to the contents of the rings what it does to ideal queues. */
  lemma TransferredIs(c: Config, m: Machine, t: Transfer)
    requires c.Valid() && Good(m) && Shaped(t) && Accepted(c, m, t) && WritesBack(m, t)
    ensures Good(Transferred(c, m, t))
    ensures Available(View(m).at, t) && View(Transferred(c, m, t)).at == Carry(View(m).at, t)
  {
    if t.Stay? {
      MovedElsewhere(c, m, t);
    } else if IsRing(t.from) {
      TakenGood(c, m, t);
      ViewAt(m, t.from);
      ViewAt(m, t.to);
      var (r', xs) := Fetch(c, RingAt(m, t.from), t.n).value;
      var l, b := m.s.at, RingBook(m);
      var rest, more := Ring.Contents(r'), At(l, t.to) + xs;
      RingBookUpdate(m, Transferred(c, m, t), t.from, r');
      MergeRight(l[t.to := more], b, t.from, rest);
      MergeLeft(l, b, t.to, more);
      UpdateTwice(l + b, t.to, more, t.from, rest);
      assert At(View(m).at, t.from)[..0] + At(View(m).at, t.from)[t.n..] == rest;
    } else if IsRing(t.to) {
      PutGood(c, m, t);
      ViewAt(m, t.from);
      ViewAt(m, t.to);
      RingBookUpdate(m, Transferred(c, m, t), t.to, Store(RingAt(m, t.to), Slice(m.s.at, t)).0);
      PutBook(m.s.at, RingBook(m), t, Ring.Contents(Store(RingAt(m, t.to), Slice(m.s.at, t)).0));
    } else {
      MovedElsewhere(c, m, t);
    }
  }

  // ---------------------------------------------------------------- control

  /** States that differ only in what is in the rings. */
  ghost predicate Alike(s: State, v: State) {
    && v == s.(at := v.at)
    && forall p {:trigger At(v.at, p)} {:trigger At(s.at, p)} :: !IsRing(p) ==> At(v.at, p) == At(s.at, p)
  }

  lemma ViewAlike(m: Machine)
    requires InOrder(m)
    ensures Alike(m.s, View(m))
  {
    forall p | !IsRing(p) ensures At(View(m).at, p) == At(m.s.at, p) {
      ViewAt(m, p);
    }
  }

  lemma GeneratorAlike(c: Config, s: State, v: State, i: nat, a: GeneratorAct)
    requires Alike(s, v)
    ensures GeneratorGuard(c, v, i, a) <==> GeneratorGuard(c, s, i, a)
    ensures GeneratorGuard(c, s, i, a) ==>
      && GeneratorMoves(v, i, a) == GeneratorMoves(s, i, a)
      && GeneratorControl(c, v, i, a) == GeneratorControl(c, s, i, a).(at := v.at)
  {
    assert Hand(v, GeneratorHand(i)) == Hand(s, GeneratorHand(i));
  }

  lemma ParserAlike(c: Config, s: State, v: State, j: nat, a: ParserAct)
    requires Alike(s, v)
    ensures ParserGuard(c, v, j, a) <==> ParserGuard(c, s, j, a)
    ensures ParserGuard(c, s, j, a) ==>
      && ParserMoves(c, v, j, a) == ParserMoves(c, s, j, a)
      && ParserControl(c, v, j, a) == ParserControl(c, s, j, a).(at := v.at)
  {
    assert At(v.at, ParserPackets(j)) == At(s.at, ParserPackets(j)) && At(v.at, ParserFlows(j)) == At(s.at, ParserFlows(j));
    var packets := At(s.at, ParserPackets(j));
    assert KeysOf(v, packets) == KeysOf(s, packets);
  }

  lemma ManagerAlike(c: Config, s: State, v: State, k: nat, a: ManagerAct)
    requires Alike(s, v)
    ensures ManagerGuard(c, v, k, a) <==> ManagerGuard(c, s, k, a)
    ensures ManagerGuard(c, s, k, a) ==>
      && ManagerMoves(v, k, a) == ManagerMoves(s, k, a)
      && ManagerControl(c, v, k, a) == ManagerControl(c, s, k, a).(at := v.at)
  {
    ManagerGuardAlike(c, s, v, k, a);
    var f, n := Hand(s, ManagerFlow(k)), Hand(s, ManagerSession(k));
    assert Hand(v, ManagerFlow(k)) == f && Hand(v, ManagerSession(k)) == n;
    assert KeyOf(v, f) == KeyOf(s, f) && PoolOf(v, n) == PoolOf(s, n) && PoolOf(v, f) == PoolOf(s, f);
    assert PacketOf(v, f) == PacketOf(s, f) && PoolOf(v, PacketOf(s, f)) == PoolOf(s, PacketOf(s, f));
  }

  lemma ManagerGuardAlike(c: Config, s: State, v: State, k: nat, a: ManagerAct)
    requires Alike(s, v)
    ensures ManagerGuard(c, v, k, a) <==> ManagerGuard(c, s, k, a)
  {
    assert At(v.at, ManagerFlow(k)) == At(s.at, ManagerFlow(k));
    if k < |s.mans| && s.mans[k].Searching? {
      var b := s.mans[k].b;
      assert At(v.at, Bucket(k, b)) == At(s.at, Bucket(k, b));
      assert forall i :: 0 <= i < |At(s.at, Bucket(k, b))| ==> SameKey(v, k, b, i) == SameKey(s, k, b, i);
    }
  }

  lemma ControlAlike(c: Config, s: State, v: State, a: Action)
    requires Alike(s, v)
    ensures Guard(c, v, a) <==> Guard(c, s, a)
    ensures Guard(c, s, a) ==> Moves(c, v, a) == Moves(c, s, a) && Control(c, v, a) == Control(c, s, a).(at := v.at)
  {
    match a
    case ByGenerator(i, g) => GeneratorAlike(c, s, v, i, g);
    case ByParser(j, p) => ParserAlike(c, s, v, j, p);
    case ByManager(k, m) => ManagerAlike(c, s, v, k, m);
    case BySweeper(w) =>
      assert Hand(v, SweeperHand) == Hand(s, SweeperHand);
  }

  // ---------------------------------------------------------------- steps and runs

  /** A step of the pipeline is its guard, its transfer and its control. */
  lemma EnabledIs(c: Config, s: State, a: Action)
    requires c.Valid()
    ensures Enabled(c, s, a) <==>
      && Guard(c, s, a) && Takes(c, s.at, Moves(c, s, a))
      && (a.ByGenerator? && a.g.BuildSkip? ==> At(s.at, PacketPool(a.i)) == [])
    ensures Enabled(c, s, a) ==> Step(c, s, a) == Control(c, s, a).(at := Carry(s.at, Moves(c, s, a)))
  {
  }

  /** Threads can step on the rings exactly if they can on ideal queues. */
  lemma CanStepIff(c: Config, m: Machine, a: Action)
    requires c.Valid() && Good(m)
    ensures CanStep(c, m, a) <==> Enabled(c, View(m), a)
  {
    ViewAlike(m);
    ControlAlike(c, m.s, View(m), a);
    EnabledIs(c, View(m), a);
    if Guard(c, m.s, a) {
      MovesShaped(c, m.s, a);
      AcceptedIff(c, m, Moves(c, m.s, a));
      if a.ByGenerator? && a.g.BuildSkip? {
        var _ := RingAt(m, PacketPool(a.i));
        FetchOne(c, RingAt(m, PacketPool(a.i)));
        ViewAt(m, PacketPool(a.i));
      }
    }
  }

  /** ... and the step has the same effect, if its batch, if any, writes back a whole counter. */
  lemma StepRefines(c: Config, m: Machine, a: Action)
    requires c.Valid() && Good(m) && CanStep(c, m, a) && Whole(c, m, a)
    ensures Good(Stepped(c, m, a))
    ensures Enabled(c, View(m), a) && View(Stepped(c, m, a)) == Step(c, View(m), a)
  {
    var t := Moves(c, m.s, a);
    var m', v := Transferred(c, m, t), View(m);
    CanStepIff(c, m, a);
    ViewAlike(m);
    ControlAlike(c, m.s, v, a);
    EnabledIs(c, v, a);
    MovesShaped(c, m.s, a);
    TransferredIs(c, m, t);
    SameRings(m', Stepped(c, m, a));
  }

  lemma SameRings(m: Machine, m': Machine)
    requires m'.rings == m.rings && m'.s.at == m.s.at
    ensures Good(m) ==> Good(m') && View(m').at == View(m).at
    ensures InOrder(m') <==> InOrder(m)
  {
    assert forall p :: RingAt(m', p) == RingAt(m, p);
    if Good(m) {
      assert forall p :: RingAt(m', p) == RingAt(m, p);
    }
  }

  /** If it does not, the ring is broken: the condition is exact. */
  lemma InOrderIff(c: Config, m: Machine, a: Action)
    requires c.Valid() && Good(m) && CanStep(c, m, a)
    ensures InOrder(Stepped(c, m, a)) <==> Whole(c, m, a)
  {
    var t := Moves(c, m.s, a);
    MovesShaped(c, m.s, a);
    SameRings(Transferred(c, m, t), Stepped(c, m, a));
    if t.Transfer? && IsRing(t.from) {
      TakenGood(c, m, t);
    } else if t.Transfer? && IsRing(t.to) {
      PutGood(c, m, t);
    } else {
      MovedElsewhere(c, m, t);
    }
  }

  /** Every batch of the run writes back a whole counter. */
  ghost predicate WholeRun(c: Config, m: Machine, acts: seq<Action>)
    decreases |acts|
  {
    acts == [] ||
    (CanStep(c, m, acts[0]) && Whole(c, m, acts[0]) && WholeRun(c, Stepped(c, m, acts[0]), acts[1..]))
  }

  lemma {:induction false} RunRefines(c: Config, m: Machine, acts: seq<Action>, m': Machine)
    requires c.Valid() && Good(m) && RingRun(c, m, acts, m') && WholeRun(c, m, acts)
    ensures Good(m') && IsRun(c, View(m), acts, View(m'))
    decreases |acts|
  {
    if acts != [] {
      StepRefines(c, m, acts[0]);
      RunRefines(c, Stepped(c, m, acts[0]), acts[1..], m');
    }
  }

  // ---------------------------------------------------------------- fewer than 2^32 objects

  /** The rings that batches are used on have carried fewer than 2^32 objects. */
  ghost predicate CarriedFew(m: Machine) {
    forall p {:trigger CarriedBy(m, p)} :: BatchTaken(p) || BatchPut(p) ==> CarriedBy(m, p) < U32
  }

  /** Up to then the counters of such a ring count what it has carried. */
  ghost predicate Counted(m: Machine) {
    forall p {:trigger RingAt(m, p)} :: BatchTaken(p) || BatchPut(p) ==> RingAt(m, p).enq == CarriedBy(m, p)
  }

  lemma {:induction false} RunCarriesMore(c: Config, m: Machine, acts: seq<Action>, m': Machine, p: Place)
    requires RingRun(c, m, acts, m')
    ensures CarriedBy(m, p) <= CarriedBy(m', p)
    decreases |acts|
  {
    if acts != [] {
      RunCarriesMore(c, Stepped(c, m, acts[0]), acts[1..], m', p);
    }
  }

  lemma CountedOn(c: Config, m: Machine, t: Transfer)
    requires c.Valid() && Good(m) && Counted(m) && Shaped(t) && Accepted(c, m, t) && WritesBack(m, t)
    requires CarriedFew(Transferred(c, m, t))
    ensures Counted(Transferred(c, m, t))
  {
    var m' := Transferred(c, m, t);
    if t.Transfer? && IsRing(t.from) {
      TakenGood(c, m, t);
      CountedStill(m, m', t.from, Fetch(c, RingAt(m, t.from), t.n).value.0, 0);
    } else if t.Transfer? && IsRing(t.to) {
      PutGood(c, m, t);
      var _ := CarriedBy(m', t.to);
      CountedStill(m, m', t.to, Store(RingAt(m, t.to), Slice(m.s.at, t)).0, t.n);
    } else {
      assert forall p :: RingAt(m', p) == RingAt(m, p) && CarriedBy(m', p) == CarriedBy(m, p);
    }
  }

  lemma CountedStill(m: Machine, m': Machine, p: Place, r: Cells, n: nat)
    requires Counted(m) && m'.rings == m.rings[p := r] && forall q :: CarriedBy(m', q) == CarriedBy(m, q) + (if q == p then n else 0)
    requires BatchTaken(p) || BatchPut(p) ==> r.enq == RingAt(m, p).enq + n
    ensures Counted(m')
  {
    forall q | BatchTaken(q) || BatchPut(q) ensures RingAt(m', q).enq == CarriedBy(m', q) {
      var _ := RingAt(m, q);
    }
  }

  lemma FewStep(c: Config, m: Machine, a: Action)
    requires c.Valid() && Good(m) && Counted(m) && CanStep(c, m, a) && CarriedFew(Stepped(c, m, a))
    ensures Whole(c, m, a) && Counted(Stepped(c, m, a))
  {
    var t := Moves(c, m.s, a);
    var m', m1 := Transferred(c, m, t), Stepped(c, m, a);
    assert forall p :: CarriedBy(m1, p) == CarriedBy(m', p) && RingAt(m1, p) == RingAt(m', p);
    MovesShaped(c, m.s, a);
    if t.Transfer? && t.n == BATCH {
      var m' := Transferred(c, m, t);
      if IsRing(t.from) {
        var r := RingAt(m, t.from);
        FetchTest(c, r);
        assert CarriedBy(m', t.from) == CarriedBy(m, t.from);
      } else if IsRing(t.to) {
        var _ := RingAt(m, t.to);
        assert CarriedBy(m', t.to) == CarriedBy(m, t.to) + BATCH;
      }
    }
    CountedOn(c, m, t);
  }

  /** While the rings that batches are used on have carried fewer than 2^32 objects, every batch
      writes back a whole counter. */
  lemma {:induction false} FewIsWhole(c: Config, m: Machine, acts: seq<Action>, m': Machine)
    requires c.Valid() && Good(m) && Counted(m) && RingRun(c, m, acts, m') && CarriedFew(m')
    ensures WholeRun(c, m, acts)
    decreases |acts|
  {
    if acts != [] {
      var m1 := Stepped(c, m, acts[0]);
      forall p | BatchTaken(p) || BatchPut(p) ensures CarriedBy(m1, p) < U32 {
        RunCarriesMore(c, m1, acts[1..], m', p);
        var _ := CarriedBy(m', p);
      }
      FewStep(c, m, acts[0]);
      StepRefines(c, m, acts[0]);
      FewIsWhole(c, m1, acts[1..], m');
    }
  }
}
