/** Batch operations of the ring queue, against repeated single operations. */
module RingBatch {
  import opened Common
  import opened Ring

  /** Assigning a 64-bit counter to a 32-bit variable. */
  function Trunc32(x: Word64): Word32 { x % U32 }

  function Add32(x: Word32, y: Word32): Word32 { if x + y < U32 then x + y else x + y - U32 }

  lemma TruncAdd(x: Word64, k: Word32)
    ensures Add32(Trunc32(x), k) == Trunc32(Add64(x, k))
  {
  }

  lemma TruncSum(x: Word64, k: Word32)
    ensures Add32(Trunc32(x), k) == (x + k) % U32
  {
  }

  lemma TruncSame(x: Word64)
    ensures Trunc32(x) == x <==> x < U32
  {
  }

  // ---------------------------------------------------------------- enqueue_multiple

  /** The loop of `enqueue_multiple`: `local` is the 32-bit copy of the counter. */
  ghost function WriteAll<T>(cells: seq<T>, local: Word32, xs: seq<T>): (r: seq<T>)
    requires IsCapacity(|cells|) && |xs| < U32
    ensures |r| == |cells|
  {
    if xs == [] then cells
    else
      var n := |xs| - 1;
      SlotIsRemainder(Add32(local, n), |cells|);
      WriteAll(cells, local, xs[..n])[Slot(Add32(local, n), |cells|) := xs[n]]
  }

  /** `enqueue_multiple`: writes the local counter back over the 64-bit one. */
  ghost function PutMany<T>(r: State<T>, xs: seq<T>): (State<T>, bool)
    requires IsCapacity(|r.cells|) && |xs| < U32
  {
    if Sub64(Add64(r.enq, |xs|), r.deq) > |r.cells| then (r, false)
    else (State(WriteAll(r.cells, Trunc32(r.enq), xs), Add32(Trunc32(r.enq), |xs|), r.deq), true)
  }

  /** One enqueue after the other. */
  ghost function PutAll<T>(r: State<T>, xs: seq<T>): (q: (State<T>, bool))
    requires Valid(r)
    ensures Valid(q.0)
  {
    if xs == [] then (r, true)
    else
      var (r1, ok1) := PutAll(r, xs[..|xs| - 1]);
      PutAppends(r1, xs[|xs| - 1]);
      var (r2, ok2) := Put(r1, xs[|xs| - 1]);
      (r2, ok1 && ok2)
  }

  /** Slot `k` of a batch, by the 32-bit and by the 64-bit counter. */
  lemma BatchSlot(x: Word64, k: nat, n: nat)
    requires IsCapacity(n) && k < U32
    ensures n > 0 && Slot(Add32(Trunc32(x), k), n) == Slot(Add64(x, k), n)
  {
    TruncSum(x, k);
    Slot64(x, k, n);
    Slot32(x + k, n);
  }

  lemma {:induction false} PutAllIs<T>(r: State<T>, xs: seq<T>)
    requires Valid(r) && Len(r) + |xs| <= |r.cells| && |xs| < U32
    ensures PutAll(r, xs) == (State(WriteAll(r.cells, Trunc32(r.enq), xs), Add64(r.enq, |xs|), r.deq), true)
  {
    if xs != [] {
      var n := |xs| - 1;
      PutAllIs(r, xs[..n]);
      BatchSlot(r.enq, n, |r.cells|);
      PutNext(r, WriteAll(r.cells, Trunc32(r.enq), xs[..n]), n, xs[n]);
    }
  }

  /** The enqueue after `n` others. */
  lemma PutNext<T>(r: State<T>, cells: seq<T>, n: Word32, x: T)
    requires Valid(r) && Len(r) + n < |r.cells| == |cells|
    ensures |cells| > 0 && Slot(Add64(r.enq, n), |cells|) < |cells|
    ensures Put(State(cells, Add64(r.enq, n), r.deq), x) ==
      (State(cells[Slot(Add64(r.enq, n), |cells|) := x], Add64(r.enq, n + 1), r.deq), true)
  {
    CapacityBound(|r.cells|);
    CellInRange(r);
  }

  /** Single enqueues append, as long as there is room. */
  lemma {:induction false} PutAllAppends<T>(r: State<T>, xs: seq<T>)
    requires Valid(r) && Len(r) + |xs| <= |r.cells|
    ensures PutAll(r, xs).1 && Contents(PutAll(r, xs).0) == Contents(r) + xs && |PutAll(r, xs).0.cells| == |r.cells|
  {
    if xs != [] {
      var n := |xs| - 1;
      PutAllAppends(r, xs[..n]);
      PutAppends(PutAll(r, xs[..n]).0, xs[n]);
      assert Contents(r) + xs == Contents(r) + xs[..n] + [xs[n]];
    }
  }

  /** A batch enqueue is refused exactly if the batch does not fit; an accepted one does
      what single enqueues do, in order, if and only if the advanced counter, wrapped to 64
      bits, still fits 32 bits. */
  lemma PutManyExact<T>(r: State<T>, xs: seq<T>)
    requires Valid(r) && |xs| < U32
    ensures Len(r) + |xs| > |r.cells| ==> PutMany(r, xs) == (r, false)
    ensures Len(r) + |xs| <= |r.cells| ==> PutMany(r, xs).1
    ensures Len(r) + |xs| <= |r.cells| ==> (PutMany(r, xs) == PutAll(r, xs) <==> Add64(r.enq, |xs|) < U32)
  {
    CapacityBound(|r.cells|);
    if Len(r) + |xs| <= |r.cells| {
      PutAllIs(r, xs);
      TruncAdd(r.enq, |xs|);
      TruncSame(Add64(r.enq, |xs|));
    }
  }

  /** The 32-bit local does break the queue: one element put in as a batch of one, when
      2^32 - 1 have gone through, leaves the counters 2^32 apart. */
  lemma PutManyBreaks()
    ensures var r := State([7, 7], U32 - 1, U32 - 1);
      Valid(r) && PutMany(r, [9]).1 && !Valid(PutMany(r, [9]).0)
  {
    var r := State([7, 7], U32 - 1, U32 - 1);
    assert Pow2(1) == 2;
    CapacityBound(2);
  }

  // ---------------------------------------------------------------- dequeue_multiple

  ghost function ReadAll<T>(cells: seq<T>, local: Word32, n: Word32): seq<T>
    requires IsCapacity(|cells|)
  {
    if n == 0 then []
    else
      SlotIsRemainder(Add32(local, n - 1), |cells|);
      ReadAll(cells, local, n - 1) + [cells[Slot(Add32(local, n - 1), |cells|)]]
  }

  ghost function TakeMany<T>(r: State<T>, n: Word32): (State<T>, seq<T>)
    requires IsCapacity(|r.cells|)
  {
    (r.(deq := Add32(Trunc32(r.deq), n)), ReadAll(r.cells, Trunc32(r.deq), n))
  }

  /** `dequeue_multiple` of the Intel ring. */
  ghost function GetMany<T>(r: State<T>, n: Word32): Option<(State<T>, seq<T>)>
    requires IsCapacity(|r.cells|)
  {
    if Add64(r.deq, n) > r.enq then None else Some(TakeMany(r, n))
  }

  /** `dequeue_multiple` of the TileGX ring. */
  ghost function GetManyTile<T>(r: State<T>, n: Word32): Option<(State<T>, seq<T>)>
    requires IsCapacity(|r.cells|)
  {
    if r.enq <= Add64(r.deq, n) then None else Some(TakeMany(r, n))
  }

  /** One dequeue after the other, if all succeed. */
  ghost function GetAll<T>(r: State<T>, n: nat): (q: Option<(State<T>, seq<T>)>)
    requires Valid(r)
    ensures q.Some? ==> Valid(q.value.0)
  {
    if n == 0 then Some((r, []))
    else match GetAll(r, n - 1)
      case None => None
      case Some((r1, xs)) =>
        GetTakes(r1);
        match Get(r1)
        case (_, None) => None
        case (r2, Some(x)) => Some((r2, xs + [x]))
  }

  lemma {:induction false} GetAllIs<T>(r: State<T>, n: Word32)
    requires Valid(r)
    ensures n > Len(r) ==> GetAll(r, n) == None
    ensures n <= Len(r) ==> GetAll(r, n) == Some((r.(deq := Add64(r.deq, n)), ReadAll(r.cells, Trunc32(r.deq), n)))
  {
    if n > 0 {
      GetAllIs(r, n - 1);
      if n - 1 <= Len(r) {
        BatchSlot(r.deq, n - 1, |r.cells|);
        GetNext(r, n - 1);
      }
    }
  }

  /** The dequeue after `n` others. */
  lemma GetNext<T>(r: State<T>, n: Word32)
    requires Valid(r) && n <= Len(r)
    ensures |r.cells| > 0 && Slot(Add64(r.deq, n), |r.cells|) < |r.cells|
    ensures Get(r.(deq := Add64(r.deq, n))) ==
      if n < Len(r) then (r.(deq := Add64(r.deq, n + 1)), Some(r.cells[Slot(Add64(r.deq, n), |r.cells|)]))
      else (r.(deq := Add64(r.deq, n)), None)
  {
    CapacityBound(|r.cells|);
    CellInRange(r);
  }

  /** Single dequeues take the oldest elements in order, as long as there are any. */
  lemma {:induction false} GetAllTakes<T>(r: State<T>, n: nat)
    requires Valid(r)
    ensures GetAll(r, n).Some? <==> n <= |Contents(r)|
    ensures n <= |Contents(r)| ==>
      GetAll(r, n).value.1 == Contents(r)[..n] && Contents(GetAll(r, n).value.0) == Contents(r)[n..]
  {
    if n > 0 {
      GetAllTakes(r, n - 1);
      if n - 1 <= |Contents(r)| {
        GetTakes(GetAll(r, n - 1).value.0);
      }
      if n <= |Contents(r)| {
        assert Contents(r)[..n] == Contents(r)[..n - 1] + [Contents(r)[n - 1]];
        assert Contents(r)[n - 1..][1..] == Contents(r)[n..];
      }
    }
  }

  /** An Intel batch dequeue agrees with single dequeues if and only if: the advanced
      counter fits 32 bits, where enough elements are there; and the comparison in the guard
      does not wrap, where they are not. */
  lemma GetManyExact<T>(r: State<T>, n: Word32)
    requires Valid(r)
    ensures GetMany(r, n) == GetAll(r, n) <==>
      if n <= Len(r) then Add64(r.deq, n) < U32 else r.deq + n < U64 || r.enq < r.deq
  {
    CapacityBound(|r.cells|);
    GetAllIs(r, n);
    TruncAdd(r.deq, n);
    TruncSame(Add64(r.deq, n));
  }

  /** A batch enqueue that fits leaves the ring in order if and only if the counter that it
      writes back has not lost its upper half. */
  lemma PutManyValidIff<T>(r: State<T>, xs: seq<T>)
    requires Valid(r) && |xs| < U32 && Len(r) + |xs| <= |r.cells|
    ensures PutMany(r, xs).1
    ensures Valid(PutMany(r, xs).0) <==> Add64(r.enq, |xs|) < U32
  {
    CapacityBound(|r.cells|);
    TruncAdd(r.enq, |xs|);
    TruncSame(Add64(r.enq, |xs|));
    CutApart(Add64(r.enq, |xs|), r.deq);
  }

  /** And so for a batch dequeue of elements that are there; otherwise the ring looks overfull,
      and every enqueue is refused. */
  lemma GetManyValidIff<T>(r: State<T>, n: Word32, x: T)
    requires Valid(r) && n <= Len(r) && GetMany(r, n).Some?
    ensures var r' := GetMany(r, n).value.0;
      && (Valid(r') <==> Add64(r.deq, n) < U32)
      && (!Valid(r') ==> Len(r') > |r'.cells| && Put(r', x) == (r', false))
  {
    CapacityBound(|r.cells|);
    TruncAdd(r.deq, n);
    TruncSame(Add64(r.deq, n));
    CutApart(r.enq, Add64(r.deq, n));
  }

  /** Counters less than 2^32 apart are 2^32 or more apart once one of them is cut. */
  lemma CutApart(e: Word64, d: Word64)
    requires Sub64(e, d) < U32
    ensures d >= U32 ==> Sub64(e, Trunc32(d)) >= U32
    ensures e >= U32 ==> Sub64(Trunc32(e), d) >= U32
  {
  }

  /** A parser queue that has carried 2^32 packets, 64 of which are there: the parser's batch
      leaves counters 2^32 apart, and the generator is refused from then on. */
  lemma GetManyBreaks()
    ensures var r := State(seq(RING_CAPACITY, _ => 7), U32, U32 - 64);
      && Valid(r) && GetMany(r, 64).Some? && !Valid(GetMany(r, 64).value.0)
      && !Put(GetMany(r, 64).value.0, 9).1
  {
    var r := State(seq(RING_CAPACITY, _ => 7), U32, U32 - 64);
    assert Pow2(10) == 1024;
    CapacityBound(1024);
    GetManyValidIff(r, 64, 9);
  }

  /** A ring that has carried fewer than 2^32 elements. */
  ghost predicate Young<T>(r: State<T>) { r.deq <= r.enq < U32 }

  /** On a young ring an Intel batch takes exactly the `n` oldest elements, and is refused
      exactly if there are fewer; a TileGX batch is also refused if it would empty the ring. */
  lemma YoungBatches<T>(r: State<T>, n: Word32)
    requires Valid(r) && Young(r)
    ensures GetMany(r, n) == GetAll(r, n)
    ensures GetManyTile(r, n) == if n < |Contents(r)| then GetAll(r, n) else None
    ensures GetMany(r, n).Some? <==> n <= |Contents(r)|
    ensures GetMany(r, n).Some? ==>
      && Young(GetMany(r, n).value.0) && Valid(GetMany(r, n).value.0)
      && GetMany(r, n).value.1 == Contents(r)[..n] && Contents(GetMany(r, n).value.0) == Contents(r)[n..]
  {
    GetAllIs(r, n);
    GetAllTakes(r, n);
    GetManyExact(r, n);
  }

  /** ... and a batch enqueue that keeps the ring young appends the batch, or is refused
      exactly if it does not fit. */
  lemma YoungAppends<T>(r: State<T>, xs: seq<T>)
    requires Valid(r) && Young(r) && r.enq + |xs| < U32
    ensures var (r', ok) := PutMany(r, xs);
      && (ok <==> |Contents(r)| + |xs| <= |r.cells|)
      && Valid(r') && Young(r') && |r'.cells| == |r.cells|
      && Contents(r') == if ok then Contents(r) + xs else Contents(r)
  {
    PutManyExact(r, xs);
    if Len(r) + |xs| <= |r.cells| {
      PutAllAppends(r, xs);
      PutAllIs(r, xs);
    }
  }
}
