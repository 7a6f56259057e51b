/** Machine words, sizes and sequences that several parts of the model share. */
module Common {

  const U32: nat := 0x1_0000_0000
  const U64: nat := 0x1_0000_0000_0000_0000

  type Byte = x: nat | x < 0x100 witness 0
  type Word32 = x: nat | x < U32 witness 0
  type Word64 = x: nat | x < U64 witness 0

  /** A buffer size: a non-negative `int` of the configuration. */
  type BufferSize = x: nat | x < 0x8000_0000 witness 0

  /** An integer as an unsigned 32-bit variable keeps it. */
  function Unsigned32(x: int): Word32 {
    x % 0x1_0000_0000
  }

  /** The test for room in a session buffer, as the program makes it: on a sum of 32 bits. */
  predicate PassesTest(cur: nat, len: nat, size: BufferSize) {
    Unsigned32(cur + len) < size
  }

  /** Entries of the queues and of the packet and flow pools, and of a session pool. */
  const RING_CAPACITY: nat := 1024
  const SESSION_CAPACITY: nat := 65536

  ghost predicate Distinct<T>(s: seq<T>) {
    forall i, j :: 0 <= i < j < |s| ==> s[i] != s[j]
  }
}
