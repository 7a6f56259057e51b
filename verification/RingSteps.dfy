/** A ring operation as it is carried out: slot by slot, and then the counter. */
module RingSteps {
  import opened Common
  import opened Ring
  import opened RingBatch

  /** The counter that an operation on `n` elements writes back: a batch keeps it in 32 bits. */
  function Advanced(count: Word64, n: Word32): Word64 {
    if n == 1 then Add64(count, 1) else Add32(Trunc32(count), n)
  }

  /** The slot of its element `j`. */
  function SlotOf(count: Word64, j: Word32, n: Word32, capacity: nat): nat
    requires capacity > 0
  {
    Slot(if n == 1 then count else Add32(Trunc32(count), j), capacity)
  }

  /** It is the slot of the counter's j-th successor, whatever the width. */
  lemma SlotIs(count: Word64, j: Word32, n: Word32, capacity: nat)
    requires IsCapacity(capacity) && j < n
    ensures capacity > 0 && SlotOf(count, j, n, capacity) == Slot(Add64(count, j), capacity) < capacity
  {
    CapacityBound(capacity);
    BatchSlot(count, j, capacity);
    SlotIsRemainder(Add64(count, j), capacity);
  }

  // ---------------------------------------------------------------- writing

  /** The sender has written its first `k` elements behind the last one in the ring. */
  ghost predicate Wrote<T>(r: State<T>, xs: seq<T>, k: nat) {
    && IsCapacity(|r.cells|) && k <= |xs| < U32 && |r.cells| > 0
    && forall j: nat {:trigger xs[j]} :: j < k ==>
         SlotOf(r.enq, j, |xs|, |r.cells|) < |r.cells| && r.cells[SlotOf(r.enq, j, |xs|, |r.cells|)] == xs[j]
  }

  function WriteOne<T>(r: State<T>, xs: seq<T>, k: nat): State<T>
    requires k < |xs| < U32 && |r.cells| > 0
  {
    var slot := SlotOf(r.enq, k, |xs|, |r.cells|);
    if slot < |r.cells| then r.(cells := r.cells[slot := xs[k]]) else r
  }

  /** Elements that fit do not get in each other's way, nor in that of those in the ring. */
  lemma FreeSlot<T>(r: State<T>, j: Word32, k: Word32)
    requires Valid(r) && j < k && k < Len(r) + |r.cells| && k < j + |r.cells|
    ensures |r.cells| > 0 && Slot(Add64(r.deq, j), |r.cells|) != Slot(Add64(r.deq, k), |r.cells|)
  {
    CapacityBound(|r.cells|);
    CellsApart(r.deq, j, k, |r.cells|);
  }

  lemma EnqSlot<T>(r: State<T>, k: Word32)
    requires Valid(r) && Len(r) + k < |r.cells| < U32
    ensures |r.cells| > 0 && Slot(Add64(r.enq, k), |r.cells|) == Slot(Add64(r.deq, Len(r) + k), |r.cells|)
  {
    CapacityBound(|r.cells|);
  }

  /** Writing a slot changes nothing that is in the ring, nor what was written before. */
  lemma WriteKeeps<T>(r: State<T>, xs: seq<T>, k: nat)
    requires Valid(r) && k < |xs| && Len(r) + |xs| <= |r.cells| && Wrote(r, xs, k)
    ensures var r' := WriteOne(r, xs, k);
      && Valid(r') && |r'.cells| == |r.cells| && r'.enq == r.enq && r'.deq == r.deq
      && Contents(r') == Contents(r) && Wrote(r', xs, k + 1)
  {
    var r', n := WriteOne(r, xs, k), |r.cells|;
    CapacityBound(n);
    SlotIs(r.enq, k, |xs|, n);
    EnqSlot(r, k);
    forall i | 0 <= i < Len(r) ensures Cell(r, i) < n && Contents(r')[i] == Contents(r)[i] {
      CellInRange(r);
      FreeSlot(r, i, Len(r) + k);
    }
    forall j: nat | j < k + 1 ensures SlotOf(r'.enq, j, |xs|, n) < n && r'.cells[SlotOf(r'.enq, j, |xs|, n)] == xs[j] {
      SlotIs(r.enq, j, |xs|, n);
      EnqSlot(r, j);
      if j < k {
        FreeSlot(r, Len(r) + j, Len(r) + k);
      }
    }
  }

  lemma {:induction false} AllWritten<T>(r: State<T>, xs: seq<T>, ys: seq<T>)
    requires Wrote(r, xs, |xs|) && |xs| > 1 && ys <= xs
    ensures WriteAll(r.cells, Trunc32(r.enq), ys) == r.cells
  {
    if ys != [] {
      var k := |ys| - 1;
      AllWritten(r, xs, ys[..k]);
      assert ys[k] == xs[k];
    }
  }

  /** Once all slots are written, publishing the counter completes the operation. */
  lemma PutPublished<T>(r: State<T>, xs: seq<T>)
    requires Valid(r) && |xs| == 1 && Len(r) < |r.cells| && Wrote(r, xs, 1)
    ensures Put(r, xs[0]) == (r.(enq := Advanced(r.enq, 1)), true)
  {
    CellInRange(r);
    assert r.cells[SlotOf(r.enq, 0, 1, |r.cells|)] == xs[0];
    assert r.cells[Slot(r.enq, |r.cells|) := xs[0]] == r.cells;
  }

  lemma PutManyPublished<T>(r: State<T>, xs: seq<T>)
    requires Valid(r) && 1 < |xs| < U32 && Len(r) + |xs| <= |r.cells| && Wrote(r, xs, |xs|)
    ensures PutMany(r, xs) == (r.(enq := Advanced(r.enq, |xs|)), true)
  {
    CapacityBound(|r.cells|);
    AllWritten(r, xs, xs);
  }

  /** A slot that is still to be written need not be as it was. */
  lemma {:induction false} Overwritten<T>(cells: seq<T>, cells': seq<T>, local: Word32, xs: seq<T>, q: nat)
    requires IsCapacity(|cells|) && |cells'| == |cells| && |xs| < U32 && q < |cells|
    requires cells'[q] == cells[q] || exists k: nat :: k < |xs| && Slot(Add32(local, k), |cells|) == q
    ensures WriteAll(cells', local, xs)[q] == WriteAll(cells, local, xs)[q]
  {
    if xs != [] {
      var n := |xs| - 1;
      SlotIsRemainder(Add32(local, n), |cells|);
      if Slot(Add32(local, n), |cells|) != q {
        Overwritten(cells, cells', local, xs[..n], q);
      }
    }
  }

  /** So writing a slot beforehand makes no difference to the whole operation. */
  lemma WriteAhead<T>(r: State<T>, xs: seq<T>, k: nat)
    requires Valid(r) && 1 < |xs| < U32 && k < |xs| && PutMany(r, xs).1
    ensures |r.cells| > 0 && PutMany(WriteOne(r, xs, k), xs) == PutMany(r, xs)
  {
    CapacityBound(|r.cells|);
    SlotIs(r.enq, k, |xs|, |r.cells|);
    var local := Trunc32(r.enq);
    var cells := r.cells[SlotOf(r.enq, k, |xs|, |r.cells|) := xs[k]];
    assert WriteOne(r, xs, k) == r.(cells := cells);
    forall q: nat | q < |r.cells| ensures WriteAll(cells, local, xs)[q] == WriteAll(r.cells, local, xs)[q] {
      assert cells[q] != r.cells[q] ==> Slot(Add32(local, k), |r.cells|) == q;
      Overwritten(r.cells, cells, local, xs, q);
    }
    assert WriteAll(cells, local, xs) == WriteAll(r.cells, local, xs);
  }

  // ---------------------------------------------------------------- reading

  function ReadOne<T>(r: State<T>, j: Word32, n: Word32): Option<T>
    requires |r.cells| > 0
  {
    var slot := SlotOf(r.deq, j, n, |r.cells|);
    if slot < |r.cells| then Some(r.cells[slot]) else None
  }

  /** Slot by slot the receiver reads the contents from the front. */
  lemma ReadsContents<T>(r: State<T>, j: Word32, n: Word32)
    requires Valid(r) && j < n && j < Len(r)
    ensures |r.cells| > 0 && ReadOne(r, j, n) == Some(Contents(r)[j])
  {
    CapacityBound(|r.cells|);
    CellInRange(r);
    SlotIs(r.deq, j, n, |r.cells|);
  }

  /** The sender never writes the slot that the receiver reads. */
  lemma SlotsApart<T>(r: State<T>, k: Word32, n: Word32, j: Word32, n': Word32)
    requires Valid(r) && k < n && Len(r) + n <= |r.cells| && j < n' && j < Len(r)
    ensures |r.cells| > 0 && SlotOf(r.enq, k, n, |r.cells|) != SlotOf(r.deq, j, n', |r.cells|)
  {
    CapacityBound(|r.cells|);
    SlotIs(r.enq, k, n, |r.cells|);
    SlotIs(r.deq, j, n', |r.cells|);
    EnqSlot(r, k);
    FreeSlot(r, j, Len(r) + k);
  }
}
