/**
  * The CRC loops of checksum.c and crc32.c, each proved to compute the bit-serial CRC, and
  * what that CRC is bound to detect.
  */
module Crc32 {
  import opened Common
  import CrcTable
  import opened Register
  import opened Crc

  /** The register of the loops, which starts from all ones. */
  function Running(c: bv32, message: seq<bv8>): bv32 {
    Feed(R, c, Bits(message))
  }

  lemma OneByte(b: bv8)
    ensures Bits([b]) == BitsOf(b)
  {
    assert Expand(BitsOf, [b]) == Expand(BitsOf, []) + BitsOf(b);
  }

  lemma NextByte(c: bv32, message: seq<bv8>, i: nat)
    requires i < |message|
    ensures Running(c, message[..i + 1]) == Running(Running(c, message[..i]), [message[i]])
  {
    assert message[..i + 1] == message[..i] + [message[i]];
    ExpandConcat(BitsOf, message[..i], [message[i]]);
    FeedConcat(R, c, Bits(message[..i]), Bits([message[i]]));
  }

  /** One table lookup takes the register through a whole byte. */
  lemma LookupIsEightBits(c: bv32, b: bv8)
    ensures Xor(c >> 8, CrcTable.Entry(Index(c, b))) == Running(c, [b])
  {
    OneByte(b);
    RegisterIsLawful();
    FeedIsPacked(R, c, BitsOf(b));
    PackByte(b);
    TableStep(c, b);
  }

  lemma Masked(c: bv32)
    ensures (c >> 8) & 0xFF_FFFF == c >> 8
  {
  }

  // ---- The loops ----------------------------------------------------------------------------

  /** The loop body of GetCRC32 and crc32_32. */
  method Absorb(data: bv32, b: bv8) returns (next: bv32)
    ensures next == Running(data, [b])
  {
    var t := Index(data, b);
    next := Xor((data >> 8) & 0xFF_FFFF, CrcTable.Entry(t));
    Masked(data);
    LookupIsEightBits(data, b);
  }

  method GetCRC32(buf: array<bv8>, len: nat) returns (crc: bv32)
    requires len <= buf.Length && len < U32
    ensures crc == Reference(0, buf[..len])
  {
    var data: bv32 := 0xFFFF_FFFF;
    var i := 0;
    while i != len
      invariant 0 <= i <= len
      invariant data == Running(ONES, buf[..len][..i])
    {
      NextByte(ONES, buf[..len], i);
      data := Absorb(data, buf[i]);
      i := i + 1;
    }
    Finished(data, buf[..len]);
    crc := !data;
  }

  /** The loops that start from all ones and invert at the end compute the CRC from seed 0. */
  lemma Finished(data: bv32, message: seq<bv8>)
    requires data == Running(ONES, message[..|message|])
    ensures !data == Reference(0, message)
  {
    assert message[..|message|] == message;
    assert Xor(0, ONES) == ONES;
  }

  /** The loop body of crc32, which adds the two halves the other way round. */
  method Lookup(crc: bv32, b: bv8) returns (next: bv32)
    ensures next == Running(crc, [b])
  {
    next := Xor(CrcTable.Entry(Index(crc, b)), crc >> 8);
    XorCommutes(CrcTable.Entry(Index(crc, b)), crc >> 8);
    LookupIsEightBits(crc, b);
  }

  method Crc32(crc0: bv32, buf: array<bv8>, size: nat) returns (crc: bv32)
    requires size <= buf.Length
    ensures crc == Reference(crc0, buf[..size])
  {
    crc := Xor(crc0, ONES);
    ghost var start := crc;
    var p := 0;
    while p < size
      invariant 0 <= p <= size
      invariant crc == Running(start, buf[..size][..p])
    {
      NextByte(start, buf[..size], p);
      crc := Lookup(crc, buf[p]);
      p := p + 1;
    }
    assert buf[..size][..size] == buf[..size];
    crc := Xor(crc, ONES);
  }

  /** bv8 k of a word in memory, on a little-endian machine. */
  function ByteOf(word: bv32, k: nat): bv8
    requires k < 4
  {
    match k
    case 0 => (word & 0xFF) as bv8
    case 1 => ((word >> 8) & 0xFF) as bv8
    case 2 => ((word >> 16) & 0xFF) as bv8
    case _ => ((word >> 24) & 0xFF) as bv8
  }

  /** The memory a buffer of words occupies. */
  function Memory(words: seq<bv32>): (bytes: seq<bv8>)
    ensures |bytes| == 4 * |words|
  {
    seq(4 * |words|, i requires 0 <= i < 4 * |words| => ByteOf(words[i / 4], i % 4))
  }

  /** The least significant byte of a word comes first: weighted by powers of 256 its four bytes
      in memory are the word. */
  lemma WordInMemory(words: seq<bv32>, k: nat)
    requires k < |words|
    ensures words[k] == (Memory(words)[4 * k] as bv32) + 0x100 * (Memory(words)[4 * k + 1] as bv32)
      + 0x1_0000 * (Memory(words)[4 * k + 2] as bv32) + 0x100_0000 * (Memory(words)[4 * k + 3] as bv32)
  {
    BytesOfWord(words[k]);
  }

  lemma BytesOfWord(word: bv32)
    ensures word == (ByteOf(word, 0) as bv32) + 0x100 * (ByteOf(word, 1) as bv32)
      + 0x1_0000 * (ByteOf(word, 2) as bv32) + 0x100_0000 * (ByteOf(word, 3) as bv32)
  {
  }

  /** buffer[i], where buffer is the word buffer seen as bytes. */
  method LoadByte(buf: array<bv32>, len: nat, i: nat) returns (b: bv8)
    requires len <= buf.Length && i < 4 * len
    ensures b == Memory(buf[..len])[i]
  {
    b := ByteOf(buf[i / 4], i % 4);
  }

  /** A count of bytes in a 32-bit variable. */
  function ByteCount(len: nat): (n: nat)
    ensures n <= 4 * len
    ensures n == 4 * len <==> 4 * len < U32
  {
    4 * len % U32
  }

  /**
    * crc32_32 on other than Tilera machines. The byte count is computed in 32 bits, so a buffer
    * of 2^30 words or more is only covered up to that count.
    */
  method Crc32Words(buf: array<bv32>, len: nat) returns (crc: bv32)
    requires len <= buf.Length && len < U32
    ensures crc == Reference(0, Memory(buf[..len])[..ByteCount(len)])
    ensures 4 * len < U32 ==> crc == Reference(0, Memory(buf[..len]))
  {
    var length := ByteCount(len);
    ghost var covered := Memory(buf[..len])[..length];
    assert 4 * len < U32 ==> covered == Memory(buf[..len]);
    var data: bv32 := 0xFFFF_FFFF;
    var i := 0;
    while i != length
      invariant 0 <= i <= length
      invariant data == Running(ONES, covered[..i])
    {
      NextByte(ONES, covered, i);
      var byte := LoadByte(buf, len, i);
      assert byte == covered[i];
      data := Absorb(data, byte);
      i := i + 1;
    }
    Finished(data, covered);
    crc := !data;
  }

  // ---- Chaining -----------------------------------------------------------------------------

  /** The CRC of one part seeds the CRC of the next, for every way of cutting a message. */
  lemma Chaining(seed: bv32, a: seq<bv8>, b: seq<bv8>)
    ensures Reference(Reference(seed, a), b) == Reference(seed, a + b)
  {
    ExpandConcat(BitsOf, a, b);
    FeedConcat(R, Xor(seed, ONES), Bits(a), Bits(b));
    XorTwice(ONES, Running(Xor(seed, ONES), a));
    XorCommutes(ONES, Running(Xor(seed, ONES), a));
    XorCommutes(ONES, Reference(seed, a));
  }

  // ---- Detection ----------------------------------------------------------------------------

  /** Equal outside a window of 32: the cut into a common front, two windows and a common back. */
  lemma Window(x: seq<bool>, y: seq<bool>, from: nat) returns (to: nat)
    requires |x| == |y| && x != y
    requires forall k :: 0 <= k < |x| && !(from <= k < from + 32) ==> x[k] == y[k]
    ensures from <= to <= |x| && to <= from + 32
    ensures x == x[..from] + x[from..to] + x[to..]
    ensures y == x[..from] + y[from..to] + x[to..]
  {
    assert from >= |x| ==> x == y;
    to := if from + 32 < |x| then from + 32 else |x|;
    assert y == y[..from] + y[from..to] + y[to..];
    assert x[..from] == y[..from] && x[to..] == y[to..];
  }

  /** Every burst error of at most 32 bits, at any bit position, changes the CRC. */
  lemma BurstDetected(seed: bv32, a: seq<bv8>, b: seq<bv8>, from: nat)
    requires |a| == |b| && a != b
    requires |Bits(a)| == |Bits(b)|
    requires forall k :: 0 <= k < |Bits(a)| && !(from <= k < from + 32) ==> Bits(a)[k] == Bits(b)[k]
    ensures Reference(seed, a) != Reference(seed, b)
  {
    BytesAreOctets();
    if Bits(a) == Bits(b) {
      ExpandInjective(BitsOf, a, b);
    } else {
      var to := Window(Bits(a), Bits(b), from);
      RegisterIsLawful();
      RegisterIsSpacious();
      WindowDetected(R, V, Xor(seed, ONES), Bits(a)[..from], Bits(a)[from..to], Bits(b)[from..to], Bits(a)[to..]);
      if Reference(seed, a) == Reference(seed, b) {
        XorCommutes(ONES, Running(Xor(seed, ONES), a));
        XorCommutes(ONES, Running(Xor(seed, ONES), b));
        XorTwice(ONES, Running(Xor(seed, ONES), a));
        XorTwice(ONES, Running(Xor(seed, ONES), b));
      }
    }
  }

  /** Messages that agree outside four consecutive bytes, and not inside, have different CRCs. */
  lemma FourBytesDetected(seed: bv32, a: seq<bv8>, b: seq<bv8>, from: nat)
    requires |a| == |b| && a != b
    requires forall i :: 0 <= i < |a| && !(from <= i < from + 4) ==> a[i] == b[i]
    ensures Reference(seed, a) != Reference(seed, b)
  {
    BytesAreOctets();
    ExpandLength(BitsOf, a);
    ExpandLength(BitsOf, b);
    forall k | 0 <= k < |Bits(a)| && !(8 * from <= k < 8 * from + 32) ensures Bits(a)[k] == Bits(b)[k] {
      ExpandAgrees(BitsOf, a, b, k);
    }
    BurstDetected(seed, a, b, 8 * from);
  }

  /** A change of one byte changes the CRC. */
  lemma OneByteDetected(seed: bv32, message: seq<bv8>, i: nat, b: bv8)
    requires i < |message| && message[i] != b
    ensures Reference(seed, message) != Reference(seed, message[i := b])
  {
    FourBytesDetected(seed, message, message[i := b], i);
  }

  // ---- Buffers of too many words ------------------------------------------------------------

  /** `Crc32Words` is right on every buffer of this many words. */
  ghost predicate RightOnAll(len: nat) {
    forall words: seq<bv32> :: |words| == len ==> Reference(0, Memory(words)[..ByteCount(len)]) == Reference(0, Memory(words))
  }

  /** Words of zeros, the last of which may be another. */
  function Zeros(len: nat, last: bv32): seq<bv32>
    requires len > 0
  {
    seq(len - 1, _ => 0) + [last]
  }

  lemma LastByteCounts(len: nat)
    requires len > 0
    ensures var a, b := Memory(Zeros(len, 0)), Memory(Zeros(len, 0x100_0000));
      |a| == |b| == 4 * len && a[..4 * len - 1] == b[..4 * len - 1] && Reference(0, a) != Reference(0, b)
  {
    var a, b, k := Memory(Zeros(len, 0)), Memory(Zeros(len, 0x100_0000)), 4 * len - 1;
    assert k / 4 == len - 1 && k % 4 == 3;
    assert a[k] == ByteOf(0, 3) && b[k] == ByteOf(0x100_0000, 3);
    forall i | 0 <= i < k ensures a[i] == b[i] {
      assert i / 4 < len - 1 || (i / 4 == len - 1 && i % 4 < 3);
    }
    FourBytesDetected(0, a, b, k);
  }

  /** The exact condition on the length alone: `Crc32Words`
      computes the CRC of every buffer of `len` words if and only if these are fewer than 2^30. */
  lemma RightOnAllIff(len: nat)
    ensures RightOnAll(len) <==> len < 0x4000_0000
  {
    if len < 0x4000_0000 {
      forall words: seq<bv32> | |words| == len ensures Memory(words)[..ByteCount(len)] == Memory(words) {
      }
    } else {
      var a, b, n := Memory(Zeros(len, 0)), Memory(Zeros(len, 0x100_0000)), ByteCount(len);
      LastByteCounts(len);
      assert a[..n] == a[..4 * len - 1][..n] && b[..n] == b[..4 * len - 1][..n];
    }
  }

  /** At 2^30 words the count is zero, and the result the CRC of nothing, whatever the buffer holds. */
  lemma NothingCovered(words: seq<bv32>)
    requires |words| == 0x4000_0000
    ensures ByteCount(|words|) == 0 && Reference(0, Memory(words)[..ByteCount(|words|)]) == Reference(0, []) == 0
  {
    assert Memory(words)[..0] == [];
  }

  /** The byte step loses neither the register nor the byte. */
  lemma ByteStepInjective(c: bv32, d: bv32, x: bv8, y: bv8)
    ensures Running(c, [x]) == Running(d, [x]) ==> c == d
    ensures Running(c, [x]) == Running(c, [y]) ==> x == y
  {
    RegisterIsLawful();
    if Running(c, [x]) == Running(d, [x]) {
      FeedReversible(R, c, d, Bits([x]));
    }
    if Running(c, [x]) == Running(c, [y]) {
      OneByte(x);
      OneByte(y);
      SameStateIff(R, c, BitsOf(x), BitsOf(y));
      PackByte(x);
      PackByte(y);
      Widened(x, y);
    }
  }
}
