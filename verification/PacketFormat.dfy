/** The TCP packet in its buffer, byte by byte, and the flow a parser reads out of it. */
module PacketFormat {
  import opened Common
  import Arith
  import opened FlowKey
  import opened AddressRange

  /** What a generator's configuration keeps fixed. */
  datatype Config = Config(
    saddrMin: Word32, saddrMax: Word32, daddrMin: Word32, daddrMax: Word32,
    sportMin: Word32, sportMax: Word32, dportMin: Word32, dportMax: Word32,
    srcmac: seq<Byte>, dstmac: seq<Byte>, pktlen: nat, text: seq<Byte>)
  {
    /** MAC addresses have six bytes, the headers fit, and there is text to fill the payload with. */
    ghost predicate Valid() {
      && |srcmac| == 6 && |dstmac| == 6
      && pktlen >= 54
      && (pktlen > 54 ==> text != [])
    }
  }

  /** What it advances from packet to packet. */
  datatype Counters = Counters(saddr: Word32, daddr: Word32, sport: Word32, dport: Word32)

  function Advance(cfg: Config, c: Counters): Counters {
    Counters(Next(c.saddr, cfg.saddrMin, cfg.saddrMax), Next(c.daddr, cfg.daddrMin, cfg.daddrMax),
             Next(c.sport, cfg.sportMin, cfg.sportMax), Next(c.dport, cfg.dportMin, cfg.dportMax))
  }

  // ---- Bytes --------------------------------------------------------------------------------

  /** The k-th lowest byte of a word. */
  function Octet(v: Word32, k: nat): Byte
    requires k < 4
  {
    match k
    case 0 => v % 0x100
    case 1 => v / 0x100 % 0x100
    case 2 => v / 0x1_0000 % 0x100
    case _ => v / 0x100_0000
  }

  /** Network order, of a word and of the low half of a word. */
  function Network32(v: Word32): (s: seq<Byte>)
    ensures |s| == 4
  {
    [Octet(v, 3), Octet(v, 2), Octet(v, 1), Octet(v, 0)]
  }

  function Network16(v: Word32): (s: seq<Byte>)
    ensures |s| == 2
  {
    [Octet(v, 1), Octet(v, 0)]
  }

  /** A field read back as the little-endian machine sees it. */
  function Raw32(b0: Byte, b1: Byte, b2: Byte, b3: Byte): Word32 {
    b0 + 0x100 * b1 + 0x1_0000 * b2 + 0x100_0000 * b3
  }

  function Raw16(b0: Byte, b1: Byte): Word32 {
    b0 + 0x100 * b1
  }

  function RawAddress(v: Word32): Word32 {
    Raw32(Octet(v, 3), Octet(v, 2), Octet(v, 1), Octet(v, 0))
  }

  function RawPort(v: Word32): Word32 {
    Raw16(Octet(v, 1), Octet(v, 0))
  }

  // ---- The payload --------------------------------------------------------------------------

  /** The text over and over, cut at n bytes. */
  function Cyclic(text: seq<Byte>, n: nat): (r: seq<Byte>)
    requires n > 0 ==> text != []
    ensures |r| == n
    decreases n
  {
    if n <= |text| then text[..n] else text + Cyclic(text, n - |text|)
  }

  /** Where a tail of the payload is all that is left, one text further the next tail is. */
  lemma CyclicStep(whole: seq<Byte>, start: nat, text: seq<Byte>, n: nat)
    requires start + n == |whole| && 0 < |text| < n && whole[start..] == Cyclic(text, n)
    ensures whole[start + |text|..] == Cyclic(text, n - |text|)
    ensures whole[start..start + |text|] == text
  {
    assert whole[start..] == text + Cyclic(text, n - |text|);
    assert whole[start + |text|..] == whole[start..][|text|..];
    assert whole[start..start + |text|] == whole[start..][..|text|];
  }

  lemma {:induction false} CyclicAt(text: seq<Byte>, n: nat, k: nat)
    requires k < n && text != []
    ensures Cyclic(text, n)[k] == text[k % |text|]
    decreases n
  {
    if k >= |text| {
      CyclicAt(text, n - |text|, k - |text|);
      Arith.AddModulus(k - |text|, |text|);
    } else {
      Arith.DivModUnique(k, |text|, 0, k);
    }
  }

  // ---- Building and patching ----------------------------------------------------------------

  const PAY_LEN: nat := 2
  const IP_IDX: nat := 16
  const TCP_IDX: nat := 36
  const PAYLOAD: nat := 56

  /** A buffer holds a packet and the two bytes before it. */
  ghost predicate Roomy(cfg: Config, buf: seq<Byte>) {
    cfg.Valid() && |buf| >= cfg.pktlen + PAY_LEN
  }

  function TotalLength(cfg: Config): (s: seq<Byte>)
    ensures |s| == 2
  {
    var n := (cfg.pktlen - IP_IDX) % 0x1_0000;
    [n / 0x100, n % 0x100]
  }

  /** Setting the data offset keeps the other half of its byte. */
  function OffsetByte(was: Byte): Byte {
    0x50 + was % 16
  }

  /** What each layer leaves at position k of the buffer, where it found `was`. */
  function PayloadByte(cfg: Config, k: nat, was: Byte): Byte
    requires cfg.Valid()
  {
    if PAYLOAD <= k < cfg.pktlen + PAY_LEN then Cyclic(cfg.text, cfg.pktlen - 54)[k - PAYLOAD] else was
  }

  function PortByte(c: Counters, k: nat, was: Byte): Byte {
    if TCP_IDX <= k < TCP_IDX + 2 then Network16(c.sport)[k - TCP_IDX]
    else if TCP_IDX + 2 <= k < TCP_IDX + 4 then Network16(c.dport)[k - TCP_IDX - 2]
    else was
  }

  function TcpByte(c: Counters, k: nat, was: Byte): Byte {
    if k == TCP_IDX + 12 then OffsetByte(was) else PortByte(c, k, was)
  }

  function AddressByte(c: Counters, k: nat, was: Byte): Byte {
    if IP_IDX + 12 <= k < IP_IDX + 16 then Network32(c.saddr)[k - IP_IDX - 12]
    else if IP_IDX + 16 <= k < IP_IDX + 20 then Network32(c.daddr)[k - IP_IDX - 16]
    else was
  }

  function IpByte(cfg: Config, c: Counters, k: nat, was: Byte): Byte {
    if k == IP_IDX then 0x45
    else if IP_IDX + 2 <= k < IP_IDX + 4 then TotalLength(cfg)[k - IP_IDX - 2]
    else if k == IP_IDX + 8 then 64
    else if k == IP_IDX + 9 then 6
    else AddressByte(c, k, was)
  }

  function EthernetByte(cfg: Config, k: nat, was: Byte): Byte
    requires cfg.Valid()
  {
    if PAY_LEN <= k < PAY_LEN + 6 then cfg.dstmac[k - PAY_LEN]
    else if PAY_LEN + 6 <= k < PAY_LEN + 12 then cfg.srcmac[k - PAY_LEN - 6]
    else if k == PAY_LEN + 12 then 0x08
    else if k == PAY_LEN + 13 then 0x00
    else was
  }

  function BuiltByte(cfg: Config, c: Counters, k: nat, was: Byte): Byte
    requires cfg.Valid()
  {
    EthernetByte(cfg, k, IpByte(cfg, c, k, TcpByte(c, k, PayloadByte(cfg, k, was))))
  }

  function PatchedByte(c: Counters, k: nat, was: Byte): Byte {
    AddressByte(c, k, PortByte(c, k, was))
  }

  /** A whole packet written over a buffer, payload first and Ethernet header last. */
  function Rebuilt(cfg: Config, c: Counters, buf: seq<Byte>): (r: seq<Byte>)
    requires cfg.Valid()
    ensures |r| == |buf|
  {
    seq(|buf|, k requires 0 <= k < |buf| => BuiltByte(cfg, c, k, buf[k]))
  }

  /** The short cut: only the ports and addresses. */
  function Patched(c: Counters, buf: seq<Byte>): (r: seq<Byte>)
    ensures |r| == |buf|
  {
    seq(|buf|, k requires 0 <= k < |buf| => PatchedByte(c, k, buf[k]))
  }

  /** The buffer holds a packet built for these counters, or patched to them since. */
  ghost predicate Carries(cfg: Config, c: Counters, buf: seq<Byte>) {
    && Roomy(cfg, buf)
    && forall k :: 0 <= k < |buf| ==> HasByte(cfg, c, k, buf[k])
  }

  ghost predicate HasByte(cfg: Config, c: Counters, k: nat, b: Byte)
    requires cfg.Valid()
  {
    b == BuiltByte(cfg, c, k, b)
  }

  /** Whatever the buffer held, it now carries the packet. */
  lemma RebuiltCarries(cfg: Config, c: Counters, buf: seq<Byte>)
    requires Roomy(cfg, buf)
    ensures Carries(cfg, c, Rebuilt(cfg, c, buf))
  {
    forall k | 0 <= k < |buf| ensures HasByte(cfg, c, k, Rebuilt(cfg, c, buf)[k]) {
    }
  }

  /** Patching a packet is building it again from the same counters, byte for byte. */
  lemma PatchedIsRebuilt(cfg: Config, c: Counters, d: Counters, buf: seq<Byte>)
    requires Carries(cfg, c, buf)
    ensures Patched(d, buf) == Rebuilt(cfg, d, buf)
    ensures Carries(cfg, d, Patched(d, buf))
  {
    forall k | 0 <= k < |buf| ensures Patched(d, buf)[k] == Rebuilt(cfg, d, buf)[k] {
    }
    RebuiltCarries(cfg, d, buf);
  }

  /** The bytes that neither the ports nor the addresses occupy are those of a built packet. */
  ghost predicate Framed(cfg: Config, buf: seq<Byte>) {
    && Roomy(cfg, buf)
    && forall k :: 0 <= k < |buf| && !(IP_IDX + 12 <= k < TCP_IDX + 4) ==>
         HasByte(cfg, Counters(0, 0, 0, 0), k, buf[k])
  }

  /** The short cut is right on exactly the buffers that a build has framed before. */
  lemma PatchedIsRebuiltIff(cfg: Config, d: Counters, buf: seq<Byte>)
    requires Roomy(cfg, buf)
    ensures Patched(d, buf) == Rebuilt(cfg, d, buf) <==> Framed(cfg, buf)
  {
    if Framed(cfg, buf) {
      forall k | 0 <= k < |buf| ensures Patched(d, buf)[k] == Rebuilt(cfg, d, buf)[k] {
      }
    }
    if Patched(d, buf) == Rebuilt(cfg, d, buf) {
      forall k | 0 <= k < |buf| && !(IP_IDX + 12 <= k < TCP_IDX + 4)
        ensures HasByte(cfg, Counters(0, 0, 0, 0), k, buf[k])
      {
        assert Patched(d, buf)[k] == Rebuilt(cfg, d, buf)[k];
      }
    }
  }

  /** The packet on the wire, which starts at byte 2 of the buffer: the Ethernet header, version
      and length of the IP header, its time to live and protocol, the addresses and the ports
      with the most significant byte first, the data offset of the TCP header, and the text. */
  lemma WireLayout(cfg: Config, c: Counters, buf: seq<Byte>)
    requires Carries(cfg, c, buf)
    ensures |buf| >= 56 && buf[2..8] == cfg.dstmac && buf[8..14] == cfg.srcmac && buf[14..16] == [0x08, 0x00]
    ensures var b: seq<int> := buf; b[16] == 0x45 && 0x100 * b[18] + b[19] == (cfg.pktlen - 16) % 0x1_0000
    ensures buf[24] == 64 && buf[25] == 6 && buf[48] / 16 == 5
    ensures var b: seq<int> := buf;
      && 0x100_0000 * b[28] + 0x1_0000 * b[29] + 0x100 * b[30] + b[31] == c.saddr
      && 0x100_0000 * b[32] + 0x1_0000 * b[33] + 0x100 * b[34] + b[35] == c.daddr
      && 0x100 * b[36] + b[37] == c.sport % 0x1_0000
      && 0x100 * b[38] + b[39] == c.dport % 0x1_0000
    ensures forall k :: 56 <= k < cfg.pktlen + 2 ==> buf[k] == cfg.text[(k - 56) % |cfg.text|]
  {
    forall k | 56 <= k < cfg.pktlen + 2 ensures buf[k] == cfg.text[(k - 56) % |cfg.text|] {
      assert HasByte(cfg, c, k, buf[k]);
      CyclicAt(cfg.text, cfg.pktlen - 54, k - 56);
    }
    assert HasByte(cfg, c, 16, buf[16]) && HasByte(cfg, c, 18, buf[18]) && HasByte(cfg, c, 19, buf[19]);
    assert HasByte(cfg, c, 24, buf[24]) && HasByte(cfg, c, 25, buf[25]) && HasByte(cfg, c, 48, buf[48]);
    assert HasByte(cfg, c, 28, buf[28]) && HasByte(cfg, c, 29, buf[29]) && HasByte(cfg, c, 30, buf[30]) && HasByte(cfg, c, 31, buf[31]);
    assert HasByte(cfg, c, 32, buf[32]) && HasByte(cfg, c, 33, buf[33]) && HasByte(cfg, c, 34, buf[34]) && HasByte(cfg, c, 35, buf[35]);
    assert HasByte(cfg, c, 36, buf[36]) && HasByte(cfg, c, 37, buf[37]) && HasByte(cfg, c, 38, buf[38]) && HasByte(cfg, c, 39, buf[39]);
    Digits(c.saddr);
    Digits(c.daddr);
    Digits(c.sport);
    Digits(c.dport);
  }

  /** Building leaves the other header bytes as they were, and everything behind the packet;
      patching leaves all but addresses and ports. */
  lemma RestKept(cfg: Config, c: Counters, buf: seq<Byte>, k: nat)
    requires Roomy(cfg, buf) && k < |buf|
    ensures k in {0, 1, 17, 20, 21, 22, 23, 26, 27} || 40 <= k < 48 || 49 <= k < 56 || k >= cfg.pktlen + 2 ==>
      Rebuilt(cfg, c, buf)[k] == buf[k]
    ensures Rebuilt(cfg, c, buf)[48] % 16 == buf[48] % 16
    ensures k < 28 || 40 <= k ==> Patched(c, buf)[k] == buf[k]
  {
  }

  // ---- Parsing ------------------------------------------------------------------------------

  /** Where the TCP header starts, going by the header length in the IP header. */
  function TcpStart(data: seq<Byte>): nat
    requires |data| > IP_IDX
  {
    IP_IDX + data[IP_IDX] % 16 * 4
  }

  /** The headers a parser reads are inside the buffer. */
  ghost predicate Readable(data: seq<Byte>) {
    |data| >= TCP_IDX && |data| > TcpStart(data) + 12
  }

  function HeaderEnd(data: seq<Byte>): nat
    requires Readable(data)
  {
    TcpStart(data) + data[TcpStart(data) + 12] / 16 * 4
  }

  function Larger(a: Word32, b: Word32): Word32 {
    if a >= b then a else b
  }

  function Smaller(a: Word32, b: Word32): Word32 {
    if a >= b then b else a
  }

  function OrderedKey(protocol: Byte, a: Word32, b: Word32, p: Word32, q: Word32): Key {
    Key(protocol, Larger(a, b), Smaller(a, b), Larger(p, q), Smaller(p, q))
  }

  function KeyOf(data: seq<Byte>): Key
    requires Readable(data)
  {
    var tcp := TcpStart(data);
    OrderedKey(data[25],
               Raw32(data[28], data[29], data[30], data[31]), Raw32(data[32], data[33], data[34], data[35]),
               Raw16(data[tcp], data[tcp + 1]), Raw16(data[tcp + 2], data[tcp + 3]))
  }

  /** What a parser reads, in plain numbers: the larger address and the larger port come first, each
      with its least significant byte first, and the payload starts behind both headers. */
  lemma ReadsHeaders(data: seq<Byte>)
    requires Readable(data)
    ensures var (b: seq<int>, k, tcp) := (data, KeyOf(data), 16 + data[16] % 16 * 4);
      && k.protocol == b[25] && k.upperIp >= k.lowerIp && k.upperPort >= k.lowerPort
      && {k.upperIp, k.lowerIp} == {b[28] + 0x100 * b[29] + 0x1_0000 * b[30] + 0x100_0000 * b[31],
                                    b[32] + 0x100 * b[33] + 0x1_0000 * b[34] + 0x100_0000 * b[35]}
      && {k.upperPort, k.lowerPort} == {b[tcp] + 0x100 * b[tcp + 1], b[tcp + 2] + 0x100 * b[tcp + 3]}
      && HeaderEnd(data) == tcp + b[tcp + 12] / 16 * 4
  {
  }

  /** Payload bytes by the packet's length, which leaves out the two bytes in front; unsigned. */
  function PayloadLength(data: seq<Byte>, length: int): nat
    requires Readable(data)
  {
    Unsigned32(length - HeaderEnd(data) + PAY_LEN)
  }

  /** A packet shorter than its headers say: its payload length wraps to almost 2^32. */
  lemma LongPayload(data: seq<Byte>)
    requires |data| >= 56 && data[IP_IDX] == 0x45 && data[TCP_IDX + 12] == 0xF0
    ensures Readable(data) && PayloadLength(data, 54) == U32 - 40
  {
  }

  // ---- What the parser finds in a built packet ----------------------------------------------

  lemma KeyOfBuilt(cfg: Config, c: Counters, buf: seq<Byte>)
    requires Carries(cfg, c, buf)
    ensures Readable(buf) && HeaderEnd(buf) == PAYLOAD
    ensures KeyOf(buf) == OrderedKey(6, RawAddress(c.saddr), RawAddress(c.daddr), RawPort(c.sport), RawPort(c.dport))
  {
    assert HasByte(cfg, c, 16, buf[16]) && HasByte(cfg, c, 25, buf[25]) && HasByte(cfg, c, 48, buf[48]);
    forall k | 28 <= k < 40 ensures buf[k] == PatchedByte(c, k, buf[k]) {
      assert HasByte(cfg, c, k, buf[k]);
    }
    assert TcpStart(buf) == TCP_IDX;
    assert buf[28..32][0] == buf[28] && buf[28..32][1] == buf[29] && buf[28..32][2] == buf[30] && buf[28..32][3] == buf[31];
    assert buf[32..36][0] == buf[32] && buf[32..36][1] == buf[33] && buf[32..36][2] == buf[34] && buf[32..36][3] == buf[35];
    assert buf[36..38][0] == buf[36] && buf[36..38][1] == buf[37];
    assert buf[38..40][0] == buf[38] && buf[38..40][1] == buf[39];
  }

  lemma LengthOfBuilt(data: seq<Byte>, pktlen: nat)
    requires Readable(data) && HeaderEnd(data) == PAYLOAD && 54 <= pktlen < 0x8000_0000
    ensures PayloadLength(data, pktlen) == pktlen - 54
  {
  }

  /** Every packet a generator sends is read back as it was made. */
  lemma ParseOfBuilt(cfg: Config, c: Counters, buf: seq<Byte>)
    requires Carries(cfg, c, buf) && cfg.pktlen < 0x8000_0000
    ensures Readable(buf) && HeaderEnd(buf) == PAYLOAD
    ensures KeyOf(buf) == OrderedKey(6, RawAddress(c.saddr), RawAddress(c.daddr), RawPort(c.sport), RawPort(c.dport))
    ensures PayloadLength(buf, cfg.pktlen) == cfg.pktlen - 54
    ensures buf[PAYLOAD..cfg.pktlen + PAY_LEN] == Cyclic(cfg.text, cfg.pktlen - 54)
  {
    KeyOfBuilt(cfg, c, buf);
    LengthOfBuilt(buf, cfg.pktlen);
    var payload, text := buf[PAYLOAD..cfg.pktlen + PAY_LEN], Cyclic(cfg.text, cfg.pktlen - 54);
    forall k | 0 <= k < |payload| ensures payload[k] == text[k] {
      assert HasByte(cfg, c, PAYLOAD + k, buf[PAYLOAD + k]);
    }
  }

  /** The same two things, in either order. */
  predicate SamePair(a: Word32, b: Word32, c: Word32, d: Word32) {
    (a == c && b == d) || (a == d && b == c)
  }

  lemma OrderedPair(a: Word32, b: Word32, c: Word32, d: Word32)
    ensures Larger(a, b) == Larger(c, d) && Smaller(a, b) == Smaller(c, d) <==> SamePair(a, b, c, d)
  {
  }

  /** A key forgets the direction and nothing else. */
  lemma SameKeyIff(x: Byte, a: Word32, b: Word32, p: Word32, q: Word32, y: Byte, c: Word32, d: Word32, r: Word32, s: Word32)
    ensures OrderedKey(x, a, b, p, q) == OrderedKey(y, c, d, r, s)
       <==> x == y && SamePair(a, b, c, d) && SamePair(p, q, r, s)
  {
    OrderedPair(a, b, c, d);
    OrderedPair(p, q, r, s);
  }

  /** The part of a port counter that goes on the wire. */
  function Wire(port: Word32): Word32 {
    port % 0x1_0000
  }

  /** A number determines its four digits. */
  lemma DigitsUnique(a0: Byte, a1: Byte, a2: Byte, a3: Byte, b0: Byte, b1: Byte, b2: Byte, b3: Byte)
    requires Raw32(a0, a1, a2, a3) == Raw32(b0, b1, b2, b3)
    ensures a0 == b0 && a1 == b1 && a2 == b2 && a3 == b3
  {
    assert a0 - b0 == 0x100 * (b1 + 0x100 * b2 + 0x1_0000 * b3 - a1 - 0x100 * a2 - 0x1_0000 * a3);
    assert a1 - b1 == 0x100 * (b2 + 0x100 * b3 - a2 - 0x100 * a3);
    assert a2 - b2 == 0x100 * (b3 - a3);
  }

  lemma Digits(x: Word32)
    ensures x == Raw32(Octet(x, 0), Octet(x, 1), Octet(x, 2), Octet(x, 3))
    ensures Wire(x) == Raw16(Octet(x, 0), Octet(x, 1))
  {
    assert x / 0x1_0000 == x / 0x100 / 0x100 && x / 0x100_0000 == x / 0x1_0000 / 0x100;
    assert x % 0x1_0000 == x - x / 0x1_0000 * 0x1_0000;
  }

  lemma RawAddressInjective(x: Word32, y: Word32)
    ensures RawAddress(x) == RawAddress(y) <==> x == y
  {
    if RawAddress(x) == RawAddress(y) {
      DigitsUnique(Octet(x, 3), Octet(x, 2), Octet(x, 1), Octet(x, 0), Octet(y, 3), Octet(y, 2), Octet(y, 1), Octet(y, 0));
      Digits(x);
      Digits(y);
    }
  }

  lemma RawPortInjective(x: Word32, y: Word32)
    ensures RawPort(x) == RawPort(y) <==> Wire(x) == Wire(y)
  {
    Digits(x);
    Digits(y);
    if RawPort(x) == RawPort(y) {
      DigitsUnique(Octet(x, 1), Octet(x, 0), 0, 0, Octet(y, 1), Octet(y, 0), 0, 0);
    }
    if Wire(x) == Wire(y) {
      DigitsUnique(Octet(x, 0), Octet(x, 1), 0, 0, Octet(y, 0), Octet(y, 1), 0, 0);
    }
  }

  /** Two packets belong to one session exactly when they join the same two end points. */
  lemma SameFlowIff(cfg: Config, c: Counters, a: seq<Byte>, cfg': Config, d: Counters, b: seq<Byte>)
    requires Carries(cfg, c, a) && Carries(cfg', d, b)
    ensures Readable(a) && Readable(b)
    ensures KeyOf(a) == KeyOf(b)
       <==> SamePair(c.saddr, c.daddr, d.saddr, d.daddr)
            && SamePair(Wire(c.sport), Wire(c.dport), Wire(d.sport), Wire(d.dport))
  {
    KeyOfBuilt(cfg, c, a);
    KeyOfBuilt(cfg', d, b);
    SameKeyIff(6, RawAddress(c.saddr), RawAddress(c.daddr), RawPort(c.sport), RawPort(c.dport),
               6, RawAddress(d.saddr), RawAddress(d.daddr), RawPort(d.sport), RawPort(d.dport));
    RawAddressInjective(c.saddr, d.saddr);
    RawAddressInjective(c.daddr, d.daddr);
    RawAddressInjective(c.saddr, d.daddr);
    RawAddressInjective(c.daddr, d.saddr);
    RawPortInjective(c.sport, d.sport);
    RawPortInjective(c.dport, d.dport);
    RawPortInjective(c.sport, d.dport);
    RawPortInjective(c.dport, d.sport);
  }

  /** Both directions of a connection reach the same manager and the same bucket. */
  lemma BothDirections(cfg: Config, c: Counters, a: seq<Byte>, cfg': Config, b: seq<Byte>, managers: nat, buckets: nat)
    requires Carries(cfg, c, a) && Carries(cfg', Counters(c.daddr, c.saddr, c.dport, c.sport), b)
    requires managers > 0 && buckets > 0
    ensures Readable(a) && Readable(b) && KeyOf(a) == KeyOf(b)
    ensures ManagerIndex(KeyOf(a), managers) == ManagerIndex(KeyOf(b), managers)
    ensures BucketIndex(KeyOf(a), buckets) == BucketIndex(KeyOf(b), buckets)
  {
    SameFlowIff(cfg, c, a, cfg', Counters(c.daddr, c.saddr, c.dport, c.sport), b);
  }
}
