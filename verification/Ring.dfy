/** The ring queue: a power-of-two array indexed by two free-running counters.

    The counters are 64 bits wide, but the batch operations copy them through a 32-bit
    local variable; both widths are modelled. */
module Ring {
  import opened Common
  import Arith

  datatype Option<+T> = None | Some(value: T)

  function Pow2(k: nat): (r: nat)
    ensures r > 0
  {
    if k == 0 then 1 else 2 * Pow2(k - 1)
  }

  /** Bitwise and of two natural numbers. */
  function And(x: nat, y: nat): nat {
    if x == 0 || y == 0 then 0 else (x % 2) * (y % 2) + 2 * And(x / 2, y / 2)
  }

  datatype State<T> = State(cells: seq<T>, enq: Word64, deq: Word64)

  // ---------------------------------------------------------------- single operations

  function Add64(x: Word64, y: Word64): Word64 { if x + y < U64 then x + y else x + y - U64 }

  function Sub64(x: Word64, y: Word64): Word64 { if x >= y then x - y else x - y + U64 }

  /** `enqueue_count - dequeue_count`. */
  function Len<T>(r: State<T>): nat { Sub64(r.enq, r.deq) }

  /** The slot that a counter designates: its low bits. */
  function Slot(count: nat, n: nat): nat
    requires n > 0
  {
    And(count, n - 1)
  }

  ghost predicate IsCapacity(n: nat) { exists k: nat :: k <= 30 && n == Pow2(k) }

  ghost predicate Valid<T>(r: State<T>) {
    IsCapacity(|r.cells|) && Len(r) <= |r.cells|
  }

  /** The cell that the `k`-th oldest element is in. */
  function Cell<T>(r: State<T>, k: Word64): nat
    requires |r.cells| > 0
  {
    Slot(Add64(r.deq, k), |r.cells|)
  }

  /** The queued elements, oldest first. */
  ghost function Contents<T>(r: State<T>): seq<T>
    requires Valid(r)
  {
    CellInRange(r);
    seq(Len(r), k requires 0 <= k < Len(r) => r.cells[Cell(r, k)])
  }

  /** `enqueue`: refused if full. */
  ghost function Put<T>(r: State<T>, x: T): (State<T>, bool)
    requires IsCapacity(|r.cells|)
  {
    CellInRange(r);
    if Len(r) >= |r.cells| then (r, false)
    else (State(r.cells[Slot(r.enq, |r.cells|) := x], Add64(r.enq, 1), r.deq), true)
  }

  /** `dequeue`: refused if empty. */
  ghost function Get<T>(r: State<T>): (State<T>, Option<T>)
    requires IsCapacity(|r.cells|)
  {
    CellInRange(r);
    if r.enq == r.deq then (r, None)
    else (r.(deq := Add64(r.deq, 1)), Some(r.cells[Slot(r.deq, |r.cells|)]))
  }

  lemma CellInRange<T>(r: State<T>)
    requires IsCapacity(|r.cells|)
    ensures |r.cells| > 0
    ensures forall count: nat {:trigger Slot(count, |r.cells|)} :: Slot(count, |r.cells|) < |r.cells|
  {
    CapacityBound(|r.cells|);
    forall count: nat ensures Slot(count, |r.cells|) < |r.cells| {
      SlotIsRemainder(count, |r.cells|);
    }
  }

  // ---------------------------------------------------------------- powers of two

  lemma {:induction false} Pow2Add(a: nat, b: nat)
    ensures Pow2(a + b) == Pow2(a) * Pow2(b)
  {
    if a > 0 {
      Pow2Add(a - 1, b);
    }
  }

  lemma Pow2Widths()
    ensures Pow2(30) * 4 == U32 && Pow2(32) == U32 && Pow2(64) == U64
  {
    assert Pow2(10) == 1024;
    Pow2Add(10, 10);
    Pow2Add(20, 10);
    assert Pow2(2) == 4;
    Pow2Add(30, 2);
    Pow2Add(32, 32);
  }

  lemma {:induction false} AndMask(x: nat, k: nat)
    ensures And(x, Pow2(k) - 1) == x % Pow2(k)
  {
    if k == 0 {
      assert Pow2(0) - 1 == 0;
    } else if x > 0 {
      var m := Pow2(k - 1);
      AndMask(x / 2, k - 1);
      Arith.HalfModulus(x, m);
      assert (2 * m - 1) / 2 == m - 1 && (2 * m - 1) % 2 == 1;
    } else {
      Arith.DivModUnique(0, Pow2(k), 0, 0);
    }
  }

  lemma {:induction false} Pow2Divides(k: nat, w: nat) returns (b: nat)
    requires k <= w
    ensures b > 0 && Pow2(k) * b == Pow2(w)
  {
    Pow2Add(k, w - k);
    b := Pow2(w - k);
  }

  /** Wrapping a counter at 64 bits does not change the slot it designates. */
  lemma Wrap64(x: int, n: nat)
    requires IsCapacity(n)
    ensures n > 0 && x % U64 % n == x % n
  {
    var k: nat :| k <= 30 && n == Pow2(k);
    var b := Pow2Divides(k, 64);
    Pow2Widths();
    Arith.ModOfMod(x, n, b);
  }

  lemma CapacityBound(n: nat)
    requires IsCapacity(n)
    ensures 0 < n < U32
  {
    var k: nat :| k <= 30 && n == Pow2(k);
    var b := Pow2Divides(k, 30);
    Pow2Widths();
    Arith.MulNonNegative(n, b - 1);
    assert n * b == n * (b - 1) + n;
  }

  lemma SlotIsRemainder(count: nat, n: nat)
    requires IsCapacity(n)
    ensures n > 0 && Slot(count, n) == count % n < n
  {
    CapacityBound(n);
    var k: nat :| k <= 30 && n == Pow2(k);
    AndMask(count, k);
  }

  /** Wrapping a counter at 64 bits does not change its slot. */
  lemma Slot64(x: Word64, y: Word64, n: nat)
    requires IsCapacity(n)
    ensures n > 0 && Slot(Add64(x, y), n) == (x + y) % n
  {
    Wrap64(x + y, n);
    SlotIsRemainder(Add64(x, y), n);
    assert Add64(x, y) == (x + y) % U64;
  }

  /** Nor does truncating it to 32 bits. */
  lemma Slot32(x: nat, n: nat)
    requires IsCapacity(n)
    ensures n > 0 && Slot(x % U32, n) == x % n
  {
    // Nor does truncating it to 32 bits.
    var k: nat :| k <= 30 && n == Pow2(k);
    var b := Pow2Divides(k, 32);
    Pow2Widths();
    Arith.ModOfMod(x, n, b);
    SlotIsRemainder(x % U32, n);
  }

  /** Fewer than `n` elements do not share a cell. */
  lemma CellsApart(d: Word64, k: Word64, l: Word64, n: nat)
    requires IsCapacity(n) && k < l < k + n
    ensures n > 0 && Slot(Add64(d, k), n) != Slot(Add64(d, l), n)
  {
    Slot64(d, k, n);
    Slot64(d, l, n);
    Arith.RemaindersApart(d + k, d + l, n);
  }

  // ---------------------------------------------------------------- a bounded queue

  /** A single enqueue appends, and is refused exactly if the queue is full: also while the
      64-bit counters wrap around. */
  lemma PutAppends<T>(r: State<T>, x: T)
    requires Valid(r)
    ensures var (r', ok) := Put(r, x);
      && (ok <==> |Contents(r)| < |r.cells|)
      && Valid(r') && |r'.cells| == |r.cells|
      && Contents(r') == if ok then Contents(r) + [x] else Contents(r)
  {
    CapacityBound(|r.cells|);
    CellInRange(r);
    var (r', ok) := Put(r, x);
    if ok {
      forall k | 0 <= k < Len(r') ensures Contents(r')[k] == (Contents(r) + [x])[k] {
        if k < Len(r) {
          CellsApart(r.deq, k, Len(r), |r.cells|);
        }
      }
    }
  }

  /** A single dequeue yields the oldest element, and is refused exactly if there is none. */
  lemma GetTakes<T>(r: State<T>)
    requires Valid(r)
    ensures var (r', x) := Get(r);
      && Valid(r') && r'.cells == r.cells
      && (Contents(r) == [] ==> x == None && r' == r)
      && (Contents(r) != [] ==> x == Some(Contents(r)[0]) && Contents(r') == Contents(r)[1..])
  {
    CapacityBound(|r.cells|);
    CellInRange(r);
    var (r', x) := Get(r);
    if r.enq != r.deq {
      forall k | 0 <= k < Len(r') ensures Contents(r')[k] == Contents(r)[1..][k] {
        assert Cell(r', k) == Cell(r, k + 1);
      }
    }
  }
}
