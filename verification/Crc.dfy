/**
  * CRC-32 (section 8 of RFC 1952): the table-driven loops against the bit-serial register,
  * their chaining, and the errors they are bound to detect.
  */
module Crc {
  import CrcTable
  import opened Register

  // ---- The bit-serial register --------------------------------------------------------------

  /** One shift of the register, reducing by the reflected polynomial when a bit falls out. */
  function Shift(c: bv32): bv32 {
    if c & 1 == 1 then (c >> 1) ^ 0xEDB88320 else c >> 1
  }

  function Unshift(c: bv32): bv32 {
    if c & 0x8000_0000 != 0 then ((c ^ 0xEDB88320) << 1) | 1 else c << 1
  }

  function Xor(a: bv32, b: bv32): bv32 {
    a ^ b
  }

  function Bit(b: bool): bv32 {
    if b then 1 else 0
  }

  const R: Algebra<bv32> := Algebra(Shift, Unshift, Xor, Bit)

  const ONES: bv32 := 0xFFFF_FFFF

  /** The n lowest bits of a byte, least significant first. */
  function BitsFrom(b: bv8, n: nat): (bits: seq<bool>)
    ensures |bits| == n
    decreases n
  {
    if n == 0 then [] else [b & 1 == 1] + BitsFrom(b >> 1, n - 1)
  }

  function BitsOf(b: bv8): (bits: seq<bool>)
    ensures |bits| == 8
  {
    BitsFrom(b, 8)
  }

  function Bits(message: seq<bv8>): seq<bool> {
    Expand(BitsOf, message)
  }

  /** The CRC of a message, continuing from the CRC of what came before it. */
  function Reference(seed: bv32, message: seq<bv8>): bv32 {
    Xor(Feed(R, Xor(seed, ONES), Bits(message)), ONES)
  }

  // ---- The register obeys the laws ----------------------------------------------------------

  lemma XorShift(x: bv32, y: bv32)
    ensures (x ^ y) >> 1 == (x >> 1) ^ (y >> 1)
    ensures (x ^ y) & 1 == (x & 1) ^ (y & 1)
    ensures x & 1 == 0 || x & 1 == 1
  {
  }

  lemma XorLaws(a: bv32, b: bv32, p: bv32)
    ensures (a ^ b) ^ p == (a ^ p) ^ b
    ensures (a ^ b) ^ p == a ^ (b ^ p)
    ensures (a ^ p) ^ (b ^ p) == a ^ b
  {
  }

  lemma ShiftLinear(x: bv32, y: bv32)
    ensures Shift(Xor(x, y)) == Xor(Shift(x), Shift(y))
  {
    XorShift(x, y);
    XorShift(y, x);
    XorLaws(x >> 1, y >> 1, 0xEDB88320);
  }

  lemma OutAndBack(x: bv32)
    ensures x & 1 == 1 ==> ((((x >> 1) ^ 0xEDB88320) ^ 0xEDB88320) << 1) | 1 == x
    ensures x & 1 == 1 ==> ((x >> 1) ^ 0xEDB88320) & 0x8000_0000 != 0
    ensures x & 1 != 1 ==> (x >> 1) << 1 == x && (x >> 1) & 0x8000_0000 == 0
  {
  }

  lemma BackAndOut(x: bv32)
    ensures x & 0x8000_0000 != 0 ==> ((((x ^ 0xEDB88320) << 1) | 1) >> 1) ^ 0xEDB88320 == x
    ensures (((x ^ 0xEDB88320) << 1) | 1) & 1 == 1
    ensures x & 0x8000_0000 == 0 ==> (x << 1) >> 1 == x
    ensures (x << 1) & 1 == 0
  {
  }

  lemma ShiftReversible(x: bv32)
    ensures Unshift(Shift(x)) == x
  {
    OutAndBack(x);
  }

  lemma UnshiftReversible(x: bv32)
    ensures Shift(Unshift(x)) == x
  {
    if x & 0x8000_0000 != 0 {
      UnshiftHigh(x);
    } else {
      UnshiftLow(x);
    }
  }

  lemma UnshiftHigh(x: bv32)
    requires x & 0x8000_0000 != 0
    ensures Shift(Unshift(x)) == x
  {
    BackAndOut(x);
  }

  lemma UnshiftLow(x: bv32)
    requires x & 0x8000_0000 == 0
    ensures Shift(Unshift(x)) == x
  {
    BackAndOut(x);
  }

  lemma XorAssociates(x: bv32, y: bv32, z: bv32)
    ensures Xor(Xor(x, y), z) == Xor(x, Xor(y, z))
  {
    assert (x ^ y) ^ z == x ^ (y ^ z);
  }

  lemma XorCommutes(x: bv32, y: bv32)
    ensures Xor(x, y) == Xor(y, x)
  {
    assert x ^ y == y ^ x;
  }

  lemma XorTwice(x: bv32, y: bv32)
    ensures Xor(x, Xor(x, y)) == y
  {
    assert x ^ (x ^ y) == y;
  }

  lemma RegisterIsLawful()
    ensures Lawful(R)
  {
    forall x, y ensures LinearAt(R, x, y) { ShiftLinear(x, y); }
    forall x ensures ReversibleAt(R, x) { ShiftReversible(x); UnshiftReversible(x); }
    forall x, y, z ensures AssociativeAt(R, x, y, z) { XorAssociates(x, y, z); }
    forall x, y ensures CancelsAt(R, x, y) { XorTwice(x, y); }
    forall x, y ensures CommutesAt(R, x, y) { XorCommutes(x, y); }
  }

  // ---- The table entry is eight shifts ------------------------------------------------------

  function Shift8(c: bv32): bv32 {
    Shift(Shift(Shift(Shift(Shift(Shift(Shift(Shift(c))))))))
  }

  lemma EightShifts(c: bv32)
    ensures Shifts(R, c, 8) == Shift8(c)
  {
  }

  lemma FirstRow(column: bv4)
    ensures CrcTable.Cell(0, column) == Shift8(column as bv32)
  {
  }

  lemma FirstColumn(row: bv4)
    ensures CrcTable.Cell(row, 0) == Shift8((row as bv32) << 4)
  {
  }

  lemma RowsApart(row: bv4, column: bv4)
    ensures CrcTable.Cell(row, column) == Xor(CrcTable.Cell(row, 0), CrcTable.Cell(0, column))
  {
    match row
    case 0 => RowApart0(column);
    case 1 => RowApart1(column);
    case 2 => RowApart2(column);
    case 3 => RowApart3(column);
    case 4 => RowApart4(column);
    case 5 => RowApart5(column);
    case 6 => RowApart6(column);
    case 7 => RowApart7(column);
    case 8 => RowApart8(column);
    case 9 => RowApart9(column);
    case 10 => RowApart10(column);
    case 11 => RowApart11(column);
    case 12 => RowApart12(column);
    case 13 => RowApart13(column);
    case 14 => RowApart14(column);
    case _ => RowApart15(column);
  }

  lemma RowApart0(column: bv4)
    ensures CrcTable.Row0(column) == Xor(CrcTable.Row0(0), CrcTable.Row0(column))
  {
  }

  lemma RowApart1(column: bv4)
    ensures CrcTable.Row1(column) == Xor(CrcTable.Row1(0), CrcTable.Row0(column))
  {
  }

  lemma RowApart2(column: bv4)
    ensures CrcTable.Row2(column) == Xor(CrcTable.Row2(0), CrcTable.Row0(column))
  {
  }

  lemma RowApart3(column: bv4)
    ensures CrcTable.Row3(column) == Xor(CrcTable.Row3(0), CrcTable.Row0(column))
  {
  }

  lemma RowApart4(column: bv4)
    ensures CrcTable.Row4(column) == Xor(CrcTable.Row4(0), CrcTable.Row0(column))
  {
  }

  lemma RowApart5(column: bv4)
    ensures CrcTable.Row5(column) == Xor(CrcTable.Row5(0), CrcTable.Row0(column))
  {
  }

  lemma RowApart6(column: bv4)
    ensures CrcTable.Row6(column) == Xor(CrcTable.Row6(0), CrcTable.Row0(column))
  {
  }

  lemma RowApart7(column: bv4)
    ensures CrcTable.Row7(column) == Xor(CrcTable.Row7(0), CrcTable.Row0(column))
  {
  }

  lemma RowApart8(column: bv4)
    ensures CrcTable.Row8(column) == Xor(CrcTable.Row8(0), CrcTable.Row0(column))
  {
  }

  lemma RowApart9(column: bv4)
    ensures CrcTable.Row9(column) == Xor(CrcTable.Row9(0), CrcTable.Row0(column))
  {
  }

  lemma RowApart10(column: bv4)
    ensures CrcTable.Row10(column) == Xor(CrcTable.Row10(0), CrcTable.Row0(column))
  {
  }

  lemma RowApart11(column: bv4)
    ensures CrcTable.Row11(column) == Xor(CrcTable.Row11(0), CrcTable.Row0(column))
  {
  }

  lemma RowApart12(column: bv4)
    ensures CrcTable.Row12(column) == Xor(CrcTable.Row12(0), CrcTable.Row0(column))
  {
  }

  lemma RowApart13(column: bv4)
    ensures CrcTable.Row13(column) == Xor(CrcTable.Row13(0), CrcTable.Row0(column))
  {
  }

  lemma RowApart14(column: bv4)
    ensures CrcTable.Row14(column) == Xor(CrcTable.Row14(0), CrcTable.Row0(column))
  {
  }

  lemma RowApart15(column: bv4)
    ensures CrcTable.Row15(column) == Xor(CrcTable.Row15(0), CrcTable.Row0(column))
  {
  }

  lemma HighBytes(c: bv32)
    ensures Shift8(c & 0xFFFF_FF00) == c >> 8
  {
  }

  lemma Halves(t: bv8)
    ensures t as bv32 == Xor(((t >> 4) as bv4 as bv32) << 4, (t & 0xF) as bv4 as bv32)
  {
  }

  /** The index into the table: the low byte of the register with the message byte added in. */
  function Index(c: bv32, b: bv8): bv8 {
    (Xor(c, b as bv32) & 0xFF) as bv8
  }

  lemma LowByte(c: bv32, b: bv8)
    ensures Xor(c, b as bv32) == Xor(c & 0xFFFF_FF00, Index(c, b) as bv32)
  {
  }

  /** Every entry of the table is its own index shifted out through the register. */
  lemma TableIsShifted(t: bv8)
    ensures CrcTable.Entry(t) == Shifts(R, t as bv32, 8)
  {
    var row, column := (t >> 4) as bv4, (t & 0xF) as bv4;
    Halves(t);
    RowsApart(row, column);
    FirstRow(column);
    FirstColumn(row);
    ShiftsXor((row as bv32) << 4, column as bv32, 8);
    EightShifts((row as bv32) << 4);
    EightShifts(column as bv32);
  }

  lemma ShiftsXor(x: bv32, y: bv32, n: nat)
    ensures Shifts(R, Xor(x, y), n) == Xor(Shifts(R, x, n), Shifts(R, y, n))
  {
    RegisterIsLawful();
    ShiftsLinear(R, x, y, n);
  }

  /** One table lookup is eight bit steps. */
  lemma TableStep(c: bv32, b: bv8)
    ensures Xor(c >> 8, CrcTable.Entry(Index(c, b))) == Shifts(R, Xor(c, b as bv32), 8)
  {
    LowByte(c, b);
    TableIsShifted(Index(c, b));
    HighBytes(c);
    EightShifts(c & 0xFFFF_FF00);
    ShiftsXor(c & 0xFFFF_FF00, Index(c, b) as bv32, 8);
  }

  // ---- Up to 32 bits pack into one word without loss ----------------------------------------

  /** The largest word whose top k positions are clear. */
  function Limit(k: nat): bv32 {
    match k
    case 0 => 0xFFFF_FFFF
    case 1 => 0x7FFF_FFFF
    case 2 => 0x3FFF_FFFF
    case 3 => 0x1FFF_FFFF
    case 4 => 0x0FFF_FFFF
    case 5 => 0x07FF_FFFF
    case 6 => 0x03FF_FFFF
    case 7 => 0x01FF_FFFF
    case 8 => 0x00FF_FFFF
    case 9 => 0x007F_FFFF
    case 10 => 0x003F_FFFF
    case 11 => 0x001F_FFFF
    case 12 => 0x000F_FFFF
    case 13 => 0x0007_FFFF
    case 14 => 0x0003_FFFF
    case 15 => 0x0001_FFFF
    case 16 => 0x0000_FFFF
    case 17 => 0x0000_7FFF
    case 18 => 0x0000_3FFF
    case 19 => 0x0000_1FFF
    case 20 => 0x0000_0FFF
    case 21 => 0x0000_07FF
    case 22 => 0x0000_03FF
    case 23 => 0x0000_01FF
    case 24 => 0x0000_00FF
    case 25 => 0x0000_007F
    case 26 => 0x0000_003F
    case 27 => 0x0000_001F
    case 28 => 0x0000_000F
    case 29 => 0x0000_0007
    case 30 => 0x0000_0003
    case 31 => 0x0000_0001
    case _ => 0
  }

  function Odd(w: bv32): bool {
    w & 1 == 1
  }

  function Below(w: bv32, m: bv32): bool {
    w <= m
  }

  function Half(w: bv32): bv32 {
    w >> 1
  }

  lemma LimitHalves(k: nat)
    requires k < 32
    ensures Odd(Limit(k)) && Half(Limit(k)) == Limit(k + 1)
  {
    match k
    case 0 | 1 | 2 | 3 | 4 | 5 | 6 | 7 | 8 | 9 | 10 | 11 | 12 | 13 | 14 | 15 => {}
    case 16 | 17 | 18 | 19 | 20 | 21 | 22 | 23 | 24 | 25 | 26 | 27 | 28 | 29 | 30 => {}
    case _ => {}
  }

  lemma PackStep(w: bv32, m: bv32, b: bool)
    requires Odd(m) && Below(w, Half(m))
    ensures Below(Xor(Bit(b), Unshift(w)), m)
    ensures Odd(Xor(Bit(b), Unshift(w))) == b
  {
  }

  const V: Width<bv32> := Width(32, Odd, Below, Half, Limit)

  lemma RegisterIsSpacious()
    ensures Spacious(R, V)
  {
    forall b ensures BitAt(R, V, b) {}
    forall k: nat ensures HalvesAt(V, k) {
      if k < 32 {
        LimitHalves(k);
      }
    }
    forall w, m, b ensures PacksAt(R, V, w, m, b) {
      if Odd(m) && Below(w, Half(m)) {
        PackStep(w, m, b);
      }
    }
  }

  lemma LastBitOf(x: bv8)
    ensures Xor(Bit(x & 1 == 1), Unshift((x >> 1) as bv32)) == x as bv32
  {
  }

  /** x has no digit beyond the first n. */
  predicate Digits(x: bv8, n: nat) {
    if n == 0 then x == 0 else Digits(x >> 1, n - 1)
  }

  lemma {:induction false} PackDigits(x: bv8, n: nat)
    requires n > 0 && Digits(x, n)
    ensures Pack(R, BitsFrom(x, n)) == x as bv32
    decreases n
  {
    if n > 1 {
      PackDigits(x >> 1, n - 1);
      LastBitOf(x);
      assert BitsFrom(x, n)[1..] == BitsFrom(x >> 1, n - 1);
    } else {
      assert Digits(x >> 1, 0);
      assert x == if x & 1 == 1 then 1 else 0;
    }
  }

  lemma PackByte(b: bv8)
    ensures Pack(R, BitsOf(b)) == b as bv32
  {
    assert Digits(b, 8) by {
      assert Digits(b >> 6, 2);
      assert Digits(b >> 4, 4);
      assert Digits(b >> 2, 6);
    }
    PackDigits(b, 8);
  }

  lemma BytesAreOctets()
    ensures Octets(BitsOf)
  {
    forall x ensures OctetAt(BitsOf, x) {}
    forall x, y ensures DistinctAt(BitsOf, x, y) {
      PackByte(x);
      PackByte(y);
      Widened(x, y);
    }
  }

  lemma Widened(x: bv8, y: bv8)
    ensures x as bv32 == y as bv32 ==> x == y
  {
  }
}
