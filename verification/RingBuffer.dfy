/** The ring queue as the C structure: an array and two counters, updated in place. */
module RingBuffer {
  import opened Common
  import opened Ring
  import opened RingBatch

  class Queue<T(0)> {
    var cells: array<T>
    var enqueueCount: Word64
    var dequeueCount: Word64

    ghost function Abstract(): State<T>
      reads this, cells
    {
      State(cells[..], enqueueCount, dequeueCount)
    }

    ghost predicate Ok()
      reads this, cells
    {
      Valid(Abstract())
    }

    constructor (log2Entries: nat)
      requires log2Entries <= 30
      ensures Ok() && fresh(cells) && cells.Length == Pow2(log2Entries)
      ensures Contents(Abstract()) == [] && Young(Abstract())
    {
      cells := new T[Pow2(log2Entries)];
      enqueueCount, dequeueCount := 0, 0;
      new;
      assert IsCapacity(cells.Length);
    }

    method Enqueue(x: T) returns (ok: bool)
      requires Ok()
      modifies this`enqueueCount, cells
      ensures (Abstract(), ok) == old(Put(Abstract(), x))
      ensures Ok() && (ok <==> |old(Contents(Abstract()))| < cells.Length)
      ensures Contents(Abstract()) == old(Contents(Abstract())) + if ok then [x] else []
    {
      ghost var was := Abstract();
      PutAppends(was, x);
      CellInRange(was);
      if Sub64(enqueueCount, dequeueCount) >= cells.Length {
        ok := false;
      } else {
        var i := Slot(enqueueCount, cells.Length);
        cells[i] := x;
        enqueueCount := Add64(enqueueCount, 1);
        ok := true;
        assert cells[..] == was.cells[i := x];
      }
    }

    method EnqueueMultiple(xs: seq<T>) returns (ok: bool)
      requires Ok() && |xs| < U32
      modifies this`enqueueCount, cells
      ensures (Abstract(), ok) == old(PutMany(Abstract(), xs))
      ensures old(Young(Abstract())) && old(enqueueCount) + |xs| < U32 ==>
        && Ok() && Young(Abstract()) && (ok <==> |old(Contents(Abstract()))| + |xs| <= cells.Length)
        && Contents(Abstract()) == old(Contents(Abstract())) + if ok then xs else []
    {
      ghost var was := Abstract();
      if Young(was) && enqueueCount + |xs| < U32 {
        YoungAppends(was, xs);
      }
      CellInRange(was);
      if Sub64(Add64(enqueueCount, |xs|), dequeueCount) > cells.Length {
        ok := false;
      } else {
        var local: Word32 := Trunc32(enqueueCount);
        var n := 0;
        while n < |xs|
          invariant n <= |xs| && local == Add32(Trunc32(was.enq), n)
          invariant enqueueCount == was.enq && dequeueCount == was.deq
          invariant cells[..] == WriteAll(was.cells, Trunc32(was.enq), xs[..n])
        {
          SlotIsRemainder(local, cells.Length);
          var i := Slot(local, cells.Length);
          ghost var before := cells[..];
          cells[i] := xs[n];
          assert cells[..] == before[i := xs[n]];
          assert xs[..n + 1][..n] == xs[..n];
          local := Add32(local, 1);
          n := n + 1;
        }
        assert xs[..n] == xs;
        enqueueCount := local;
        ok := true;
      }
    }

    method Dequeue() returns (x: Option<T>)
      requires Ok()
      modifies this`dequeueCount
      ensures (Abstract(), x) == old(Get(Abstract()))
      ensures Ok() && (x.Some? <==> old(Contents(Abstract())) != [])
      ensures x.Some? ==> [x.value] + Contents(Abstract()) == old(Contents(Abstract()))
      ensures x.None? ==> Abstract() == old(Abstract())
    {
      ghost var was := Abstract();
      GetTakes(was);
      CellInRange(was);
      if enqueueCount == dequeueCount {
        x := None;
      } else {
        var i := Slot(dequeueCount, cells.Length);
        x := Some(cells[i]);
        dequeueCount := Add64(dequeueCount, 1);
      }
    }

    method CopyOut(n: Word32) returns (xs: seq<T>, local: Word32)
      requires Ok()
      ensures xs == ReadAll(cells[..], Trunc32(dequeueCount), n)
      ensures local == Add32(Trunc32(dequeueCount), n)
    {
      xs, local := [], Trunc32(dequeueCount);
      CellInRange(Abstract());
      for k := 0 to n
        invariant local == Add32(Trunc32(dequeueCount), k)
        invariant xs == ReadAll(cells[..], Trunc32(dequeueCount), k)
      {
        var i := Slot(local, cells.Length);
        xs := xs + [cells[i]];
        local := Add32(local, 1);
      }
    }

    /** The Intel form accepts a batch that empties the ring. */
    method DequeueMultiple(n: Word32) returns (r: Option<seq<T>>)
      requires Ok()
      modifies this`dequeueCount
      ensures match old(GetMany(Abstract(), n))
        case None => r == None && Abstract() == old(Abstract())
        case Some((now, xs)) => r == Some(xs) && Abstract() == now
      ensures old(Young(Abstract())) ==>
        && Ok() && Young(Abstract()) && (r.Some? <==> n <= |old(Contents(Abstract()))|)
        && (if r.Some? then r.value else []) + Contents(Abstract()) == old(Contents(Abstract()))
        && (r.Some? ==> |r.value| == n)
    {
      ghost var was := Abstract();
      if Young(was) {
        YoungBatches(was, n);
      }
      if Add64(dequeueCount, n) > enqueueCount {
        r := None;
      } else {
        var xs, local := CopyOut(n);
        dequeueCount := local;
        r := Some(xs);
      }
    }

    /** The TileGX form does not. */
    method DequeueMultipleTile(n: Word32) returns (r: Option<seq<T>>)
      requires Ok()
      modifies this`dequeueCount
      ensures match old(GetManyTile(Abstract(), n))
        case None => r == None && Abstract() == old(Abstract())
        case Some((now, xs)) => r == Some(xs) && Abstract() == now
      ensures old(Young(Abstract())) ==>
        && Ok() && Young(Abstract()) && (r.Some? <==> n < |old(Contents(Abstract()))|)
        && (if r.Some? then r.value else []) + Contents(Abstract()) == old(Contents(Abstract()))
        && (r.Some? ==> |r.value| == n)
    {
      ghost var was := Abstract();
      if Young(was) {
        YoungBatches(was, n);
      }
      if enqueueCount <= Add64(dequeueCount, n) {
        r := None;
      } else {
        var xs, local := CopyOut(n);
        dequeueCount := local;
        r := Some(xs);
      }
    }
  }
}
