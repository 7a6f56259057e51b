/** One sender and one receiver on a ring, interleaved step by step without a lock.

    Each access to a shared counter or cell is a step of its own: the check that reads the
    other side's counter, every cell written or read, and the publication of the own
    counter.  Several senders behind the enqueue mutex are one sender in this sense. */
module RingProtocol {
  import opened Common
  import opened Ring
  import opened RingBatch
  import Arith

  /** `batch` marks the operations that copy their counter through a 32-bit local. */
  datatype Sender<T> = SenderIdle | Writing(xs: seq<T>, k: nat, batch: bool)

  datatype Receiver<T> = ReceiverIdle | Reading(n: Word32, acc: seq<T>, batch: bool)

  /** `sent` and `got` record what was published and taken so far; no step reads them. */
  datatype State<T> = State(
    cells: seq<T>, enq: Word64, deq: Word64,
    sender: Sender<T>, receiver: Receiver<T>,
    sent: seq<T>, got: seq<T>)

  datatype Action<T> =
    | CheckPut(x: T) | CheckPutMany(xs: seq<T>) | Write | PublishPut
    | CheckGet | CheckGetMany(n: Word32, tile: bool) | Read | PublishGet

  function SendSlot<T>(s: State<T>): nat
    requires |s.cells| > 0 && s.sender.Writing?
  {
    Slot(if s.sender.batch && s.sender.k < U32 then Add32(Trunc32(s.enq), s.sender.k) else s.enq, |s.cells|)
  }

  function ReceiveSlot<T>(s: State<T>): nat
    requires |s.cells| > 0 && s.receiver.Reading?
  {
    Slot(if s.receiver.batch && |s.receiver.acc| < U32 then Add32(Trunc32(s.deq), |s.receiver.acc|) else s.deq, |s.cells|)
  }

  ghost predicate Enabled<T(!new)>(s: State<T>, a: Action<T>) {
    |s.cells| > 0 &&
    match a
    case CheckPut(_) => s.sender.SenderIdle?
    case CheckPutMany(xs) => s.sender.SenderIdle? && |xs| < U32
    case Write => s.sender.Writing? && s.sender.k < |s.sender.xs| && SendSlot(s) < |s.cells|
    case PublishPut => s.sender.Writing? && s.sender.k == |s.sender.xs| < U32
    case CheckGet => s.receiver.ReceiverIdle?
    case CheckGetMany(_, _) => s.receiver.ReceiverIdle?
    case Read => s.receiver.Reading? && |s.receiver.acc| < s.receiver.n && ReceiveSlot(s) < |s.cells|
    case PublishGet => s.receiver.Reading? && |s.receiver.acc| == s.receiver.n
  }

  ghost function Next<T(!new)>(s: State<T>, a: Action<T>): State<T>
    requires Enabled(s, a)
  {
    match a
    case CheckPut(x) =>
      if Sub64(s.enq, s.deq) >= |s.cells| then s else s.(sender := Writing([x], 0, false))
    case CheckPutMany(xs) =>
      if Sub64(Add64(s.enq, |xs|), s.deq) > |s.cells| then s else s.(sender := Writing(xs, 0, true))
    case Write =>
      s.(cells := s.cells[SendSlot(s) := s.sender.xs[s.sender.k]], sender := s.sender.(k := s.sender.k + 1))
    case PublishPut =>
      s.(enq := if s.sender.batch then Add32(Trunc32(s.enq), |s.sender.xs|) else Add64(s.enq, 1),
         sender := SenderIdle, sent := s.sent + s.sender.xs)
    case CheckGet =>
      if s.enq == s.deq then s else s.(receiver := Reading(1, [], false))
    case CheckGetMany(n, tile) =>
      if (if tile then s.enq <= Add64(s.deq, n) else Add64(s.deq, n) > s.enq) then s
      else s.(receiver := Reading(n, [], true))
    case Read =>
      s.(receiver := s.receiver.(acc := s.receiver.acc + [s.cells[ReceiveSlot(s)]]))
    case PublishGet =>
      s.(deq := if s.receiver.batch then Add32(Trunc32(s.deq), s.receiver.n) else Add64(s.deq, 1),
         receiver := ReceiverIdle, got := s.got + s.receiver.acc)
  }

  ghost predicate Init<T>(s: State<T>) {
    && IsCapacity(|s.cells|) && s.enq == 0 && s.deq == 0
    && s.sender.SenderIdle? && s.receiver.ReceiverIdle? && s.sent == [] && s.got == []
  }

  ghost predicate IsRun<T(!new)>(s: State<T>, acts: seq<Action<T>>, t: State<T>)
    decreases |acts|
  {
    if acts == [] then s == t else Enabled(s, acts[0]) && IsRun(Next(s, acts[0]), acts[1..], t)
  }

  // ---------------------------------------------------------------- invariant

  /** The cell of the `e`-th element ever sent. */
  function CellOf(e: nat, n: nat): nat
    requires n > 0
  {
    Slot(e % U64, n)
  }

  lemma CellOfInRange(e: nat, n: nat)
    requires IsCapacity(n)
    ensures n > 0 && CellOf(e, n) < n
  {
    SlotIsRemainder(e % U64, n);
  }

  lemma CellOfApart(e: nat, f: nat, n: nat)
    requires IsCapacity(n) && e < f < e + n
    ensures n > 0 && CellOf(e, n) != CellOf(f, n)
  {
    CellOfRemainder(e, n);
    CellOfRemainder(f, n);
    Arith.RemaindersApart(e, f, n);
  }

  lemma CellOfRemainder(e: nat, n: nat)
    requires IsCapacity(n)
    ensures n > 0 && CellOf(e, n) == e % n
  {
    SlotIsRemainder(e % U64, n);
    Wrap64(e, n);
  }

  /** The 32-bit local finds the same cells. */
  lemma LocalCell(e: nat, x: Word64, k: nat, n: nat)
    requires IsCapacity(n) && x == e % U64 && k < U32
    ensures n > 0 && Slot(Add32(Trunc32(x), k), n) == CellOf(e + k, n)
  {
    BatchSlot(x, k, n);
    assert Add64(x, k) == (e + k) % U64;
  }

  /** Published elements that are not taken yet are intact, in their cells. */
  ghost predicate Intact<T>(s: State<T>)
    requires IsCapacity(|s.cells|)
  {
    CellsInRange(|s.cells|);
    forall e {:trigger CellOf(e, |s.cells|)} :: |s.got| <= e < |s.sent| ==> s.cells[CellOf(e, |s.cells|)] == s.sent[e]
  }

  lemma CellsInRange(n: nat)
    requires IsCapacity(n)
    ensures n > 0 && forall e: nat {:trigger CellOf(e, n)} :: CellOf(e, n) < n
  {
    CapacityBound(n);
    forall e: nat ensures CellOf(e, n) < n {
      CellOfInRange(e, n);
    }
  }

  /** The sender has room for its batch, and has written a prefix of it. */
  ghost predicate SenderOk<T>(s: State<T>)
    requires IsCapacity(|s.cells|)
  {
    CellsInRange(|s.cells|);
    s.sender.Writing? ==>
      && s.sender.k <= |s.sender.xs| < U32
      && |s.sent| + |s.sender.xs| <= |s.got| + |s.cells|
      && (!s.sender.batch ==> |s.sender.xs| == 1)
      && (forall j {:trigger s.sender.xs[j]} :: 0 <= j < s.sender.k ==>
            s.cells[CellOf(|s.sent| + j, |s.cells|)] == s.sender.xs[j])
  }

  /** The receiver reads published elements, in order. */
  ghost predicate ReceiverOk<T>(s: State<T>) {
    s.receiver.Reading? ==>
      && |s.got| + s.receiver.n <= |s.sent| && |s.receiver.acc| <= s.receiver.n
      && (!s.receiver.batch ==> s.receiver.n == 1)
      && s.receiver.acc == s.sent[|s.got|..|s.got| + |s.receiver.acc|]
  }

  ghost predicate Inv<T>(s: State<T>) {
    && IsCapacity(|s.cells|)
    && |s.got| <= |s.sent| <= |s.got| + |s.cells|
    && s.enq == |s.sent| % U64 && s.deq == |s.got| % U64
    && s.got == s.sent[..|s.got|]
    && Intact(s) && SenderOk(s) && ReceiverOk(s)
  }

  // ---------------------------------------------------------------- every step keeps it

  /** The counters' difference is the number of elements in the ring, across wrap-around. */
  lemma Distance<T>(s: State<T>)
    requires Inv(s)
    ensures Sub64(s.enq, s.deq) == |s.sent| - |s.got|
  {
    CapacityBound(|s.cells|);
  }

  lemma CheckPutInv<T(!new)>(s: State<T>, a: Action<T>)
    requires Inv(s) && Enabled(s, a) && (a.CheckPut? || a.CheckPutMany?)
    ensures Inv(Next(s, a))
  {
    Distance(s);
    CapacityBound(|s.cells|);
  }

  /** The cell that the sender writes belongs to no element that is still to be read. */
  lemma SendSlotIs<T(!new)>(s: State<T>)
    requires Inv(s) && s.sender.Writing? && s.sender.k < |s.sender.xs|
    ensures |s.cells| > 0 && SendSlot(s) == CellOf(|s.sent| + s.sender.k, |s.cells|) < |s.cells|
    ensures forall e {:trigger CellOf(e, |s.cells|)} :: |s.got| <= e < |s.sent| + s.sender.k ==> CellOf(e, |s.cells|) != SendSlot(s)
  {
    var n, w := |s.cells|, |s.sent| + s.sender.k;
    CellsInRange(n);
    if s.sender.batch {
      LocalCell(|s.sent|, s.enq, s.sender.k, n);
    }
    forall e: nat | |s.got| <= e < w ensures CellOf(e, n) != CellOf(w, n) {
      CellOfApart(e, w, n);
    }
  }

  lemma WriteInv<T(!new)>(s: State<T>)
    requires Inv(s) && Enabled(s, Write)
    ensures Inv(Next(s, Write))
  {
    SendSlotIs(s);
    var s' := Next(s, Write);
    var n := |s.cells|;
    assert |s'.cells| == n;
    CellsInRange(n);
    forall e: nat | |s.got| <= e < |s.sent| ensures s'.cells[CellOf(e, n)] == s'.sent[e] {
      assert CellOf(e, n) != SendSlot(s);
    }
    forall j | 0 <= j < s'.sender.k ensures s'.cells[CellOf(|s.sent| + j, n)] == s.sender.xs[j] {
      WrittenSoFar(s, j);
    }
  }

  lemma WrittenSoFar<T(!new)>(s: State<T>, j: nat)
    requires Inv(s) && Enabled(s, Write) && j <= s.sender.k
    ensures CellOf(|s.sent| + j, |s.cells|) < |s.cells|
    ensures s.cells[SendSlot(s) := s.sender.xs[s.sender.k]][CellOf(|s.sent| + j, |s.cells|)] == s.sender.xs[j]
  {
    SendSlotIs(s);
    CellsInRange(|s.cells|);
    assert j < s.sender.k ==> CellOf(|s.sent| + j, |s.cells|) != SendSlot(s);
  }

  /** How far a publication moves a counter. */
  lemma Published(e: nat, n: nat, batch: bool)
    requires batch ==> e + n < U32
    requires !batch ==> n == 1
    ensures (if batch then Add32(Trunc32(e % U64), n) else Add64(e % U64, 1)) == (e + n) % U64
  {
  }

  lemma PublishPutInv<T(!new)>(s: State<T>)
    requires Inv(s) && Enabled(s, PublishPut)
    requires s.sender.batch ==> |s.sent| + |s.sender.xs| < U32
    ensures Inv(Next(s, PublishPut))
  {
    var s' := Next(s, PublishPut);
    Published(|s.sent|, |s.sender.xs|, s.sender.batch);
    PublishPutIntact(s);
  }

  lemma PublishPutIntact<T(!new)>(s: State<T>)
    requires Inv(s) && Enabled(s, PublishPut)
    ensures Intact(Next(s, PublishPut))
  {
    var s' := Next(s, PublishPut);
    CellsInRange(|s.cells|);
    forall e: nat | |s.got| <= e < |s'.sent| ensures s'.cells[CellOf(e, |s.cells|)] == s'.sent[e] {
      if e >= |s.sent| {
        assert s.sender.xs[e - |s.sent|] == s'.sent[e];
      }
    }
  }

  lemma CheckGetInv<T(!new)>(s: State<T>, a: Action<T>)
    requires Inv(s) && Enabled(s, a) && (a.CheckGet? || a.CheckGetMany?)
    requires a.CheckGetMany? ==> |s.sent| < U32
    ensures Inv(Next(s, a))
  {
    Distance(s);
  }

  lemma ReceiveSlotIs<T(!new)>(s: State<T>)
    requires Inv(s) && s.receiver.Reading? && |s.receiver.acc| < s.receiver.n
    ensures |s.cells| > 0 && ReceiveSlot(s) == CellOf(|s.got| + |s.receiver.acc|, |s.cells|) < |s.cells|
  {
    CellsInRange(|s.cells|);
    if s.receiver.batch {
      LocalCell(|s.got|, s.deq, |s.receiver.acc|, |s.cells|);
    }
  }

  lemma ReadInv<T(!new)>(s: State<T>)
    requires Inv(s) && Enabled(s, Read)
    ensures Inv(Next(s, Read))
  {
    ReceiveSlotIs(s);
    var d, m := |s.got|, |s.receiver.acc|;
    assert s.sent[d..d + m + 1] == s.sent[d..d + m] + [s.sent[d + m]];
  }

  lemma PublishGetInv<T(!new)>(s: State<T>)
    requires Inv(s) && Enabled(s, PublishGet)
    requires s.receiver.batch ==> |s.sent| < U32
    ensures Inv(Next(s, PublishGet))
  {
    var d, m := |s.got|, |s.receiver.acc|;
    Published(d, m, s.receiver.batch);
    assert s.sent[..d + m] == s.sent[..d] + s.sent[d..d + m];
  }

  predicate IsBatch<T>(a: Action<T>) { a.CheckPutMany? || a.CheckGetMany? }

  /** No batch is under way. */
  predicate NoBatch<T>(s: State<T>) {
    && (s.sender.Writing? ==> !s.sender.batch)
    && (s.receiver.Reading? ==> !s.receiver.batch)
  }

  lemma StepInv<T(!new)>(s: State<T>, a: Action<T>)
    requires Inv(s) && Enabled(s, a)
    requires (NoBatch(s) && !IsBatch(a)) || |Next(s, a).sent| < U32
    ensures Inv(Next(s, a)) && |s.sent| <= |Next(s, a).sent|
    ensures NoBatch(s) && !IsBatch(a) ==> NoBatch(Next(s, a))
  {
    match a
    case CheckPut(_) => CheckPutInv(s, a);
    case CheckPutMany(_) => CheckPutInv(s, a);
    case Write => WriteInv(s);
    case PublishPut => PublishPutInv(s);
    case CheckGet => CheckGetInv(s, a);
    case CheckGetMany(_, _) => CheckGetInv(s, a);
    case Read => ReadInv(s);
    case PublishGet => PublishGetInv(s);
  }

  ghost predicate SinglesOnly<T(!new)>(acts: seq<Action<T>>) {
    forall n :: 0 <= n < |acts| ==> !IsBatch(acts[n])
  }

  lemma {:induction false} SentGrows<T(!new)>(s: State<T>, acts: seq<Action<T>>, t: State<T>)
    requires IsRun(s, acts, t)
    ensures |s.sent| <= |t.sent|
    decreases |acts|
  {
    if acts != [] {
      SentGrows(Next(s, acts[0]), acts[1..], t);
    }
  }

  lemma {:induction false} RunInv<T(!new)>(s: State<T>, acts: seq<Action<T>>, t: State<T>)
    requires Inv(s) && IsRun(s, acts, t)
    requires (NoBatch(s) && SinglesOnly(acts)) || |t.sent| < U32
    ensures Inv(t)
    decreases |acts|
  {
    if acts != [] {
      SentGrows(Next(s, acts[0]), acts[1..], t);
      StepInv(s, acts[0]);
      RunInv(Next(s, acts[0]), acts[1..], t);
    }
  }

  // ---------------------------------------------------------------- the guarantees

  lemma InitInv<T>(s: State<T>)
    requires Init(s)
    ensures Inv(s)
  {
    CellsInRange(|s.cells|);
  }

  /** In every interleaving -- of single operations for ever, or of any operations while
      fewer than 2^32 elements are sent -- the receiver gets a prefix of what was sent, in
      order, and the ring holds between 0 and its capacity. */
  lemma FifoUnderInterleaving<T(!new)>(s: State<T>, acts: seq<Action<T>>, t: State<T>)
    requires Init(s) && IsRun(s, acts, t)
    requires SinglesOnly(acts) || |t.sent| < U32
    ensures t.got <= t.sent && |t.sent| - |t.got| <= |t.cells|
    ensures Sub64(t.enq, t.deq) == |t.sent| - |t.got|
  {
    InitInv(s);
    RunInv(s, acts, t);
    Distance(t);
  }

  /** In every such interleaving the sender never writes the cell of an element that is
      still to be read, nor the cell that the receiver is reading. */
  lemma NeverOverwrites<T(!new)>(s: State<T>, acts: seq<Action<T>>, t: State<T>)
    requires Init(s) && IsRun(s, acts, t)
    requires SinglesOnly(acts) || |t.sent| < U32
    requires Enabled(t, Write)
    ensures forall e {:trigger CellOf(e, |t.cells|)} :: |t.got| <= e < |t.sent| ==> CellOf(e, |t.cells|) != SendSlot(t)
    ensures Enabled(t, Read) ==> ReceiveSlot(t) != SendSlot(t)
  {
    InitInv(s);
    RunInv(s, acts, t);
    SendSlotIs(t);
    if Enabled(t, Read) {
      ReceiveSlotIs(t);
    }
  }

  /** The queue that the outside world sees. */
  ghost function Queue<T>(s: State<T>): seq<T>
    requires |s.got| <= |s.sent|
  {
    s.sent[|s.got|..]
  }

  /** Each operation takes effect at its publication, as one atomic step of a bounded FIFO
      queue, and is refused exactly if that queue is too full or too empty at its check. */
  ghost predicate ActsAsQueue<T(!new)>(s: State<T>, a: Action<T>, s': State<T>)
    requires |s.got| <= |s.sent| && |s'.got| <= |s'.sent|
  {
    match a
    case PublishPut => s.sender.Writing? && Queue(s') == Queue(s) + s.sender.xs && |Queue(s')| <= |s.cells|
    case PublishGet => s.receiver.Reading? && Queue(s) == s.receiver.acc + Queue(s')
    case CheckPut(x) => Queue(s') == Queue(s) && (s'.sender.SenderIdle? <==> |Queue(s)| == |s.cells|)
    case CheckPutMany(xs) => Queue(s') == Queue(s) && (s'.sender.SenderIdle? <==> |Queue(s)| + |xs| > |s.cells|)
    case CheckGet => Queue(s') == Queue(s) && (s'.receiver.ReceiverIdle? <==> Queue(s) == [])
    case CheckGetMany(n, tile) => Queue(s') == Queue(s) &&
      (s'.receiver.ReceiverIdle? <==> if tile then |Queue(s)| <= n else |Queue(s)| < n)
    case _ => Queue(s') == Queue(s)
  }

  lemma CheckActs<T(!new)>(s: State<T>, a: Action<T>)
    requires Inv(s) && Enabled(s, a) && (a.CheckPut? || a.CheckPutMany? || a.CheckGet? || a.CheckGetMany?)
    requires (NoBatch(s) && !IsBatch(a)) || |Next(s, a).sent| < U32
    requires Inv(Next(s, a))
    ensures ActsAsQueue(s, a, Next(s, a))
  {
    Distance(s);
    CapacityBound(|s.cells|);
  }

  lemma Linearizes<T(!new)>(s: State<T>, a: Action<T>)
    requires Inv(s) && Enabled(s, a)
    requires (NoBatch(s) && !IsBatch(a)) || |Next(s, a).sent| < U32
    ensures Inv(Next(s, a)) && ActsAsQueue(s, a, Next(s, a))
  {
    StepInv(s, a);
    if a.CheckPut? || a.CheckPutMany? || a.CheckGet? || a.CheckGetMany? {
      CheckActs(s, a);
    } else {
      Distance(s);
      CapacityBound(|s.cells|);
    }
  }
}
