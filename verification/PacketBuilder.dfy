/** The generator's packet writer: the full build, its short cut, and the parser that reads it. */
module PacketBuilder {
  import opened Common
  import opened FlowKey
  import opened AddressRange
  import opened PacketFormat

  class Packet {
    const data: array<Byte>
    var length: int

    constructor (size: nat)
      ensures fresh(data) && data.Length == size
    {
      data := new Byte[size](_ => 0);
      length := 0;
    }
  }

  /** A copy of bytes into a buffer. */
  method CopyInto(a: array<Byte>, at: nat, src: seq<Byte>)
    requires at + |src| <= a.Length
    modifies a
    ensures forall k :: 0 <= k < a.Length ==>
      a[k] == if at <= k < at + |src| then src[k - at] else old(a[k])
  {
    var i := 0;
    while i < |src|
      invariant 0 <= i <= |src|
      invariant forall k :: 0 <= k < a.Length ==>
        a[k] == if at <= k < at + i then src[k - at] else old(a[k])
    {
      a[at + i] := src[i];
      i := i + 1;
    }
  }

  /** A generator's own copy of the configuration: fixed ranges and four running counters. */
  class Settings {
    const cfg: Config
    var saddrCur: Word32
    var daddrCur: Word32
    var sportCur: Word32
    var dportCur: Word32

    constructor (cfg: Config, c: Counters)
      ensures this.cfg == cfg && Now() == c
    {
      this.cfg := cfg;
      saddrCur, daddrCur, sportCur, dportCur := c.saddr, c.daddr, c.sport, c.dport;
    }

    function Now(): Counters
      reads this
    {
      Counters(saddrCur, daddrCur, sportCur, dportCur)
    }

    method NextSrcIp() returns (r: Word32)
      modifies this`saddrCur
      ensures r == saddrCur == Next(old(saddrCur), cfg.saddrMin, cfg.saddrMax)
      ensures cfg.saddrMin <= old(saddrCur) <= cfg.saddrMax ==>
        r == cfg.saddrMin + (old(saddrCur) - cfg.saddrMin + 1) % (cfg.saddrMax - cfg.saddrMin + 1)
    {
      if cfg.saddrMin <= saddrCur <= cfg.saddrMax {
        OneStep(saddrCur, cfg.saddrMin, cfg.saddrMax);
      }
      if saddrCur == cfg.saddrMax {
        saddrCur := cfg.saddrMin;
      } else {
        saddrCur := Increment(saddrCur);
      }
      r := saddrCur;
    }

    method NextDstIp() returns (r: Word32)
      modifies this`daddrCur
      ensures r == daddrCur == Next(old(daddrCur), cfg.daddrMin, cfg.daddrMax)
      ensures cfg.daddrMin <= old(daddrCur) <= cfg.daddrMax ==>
        r == cfg.daddrMin + (old(daddrCur) - cfg.daddrMin + 1) % (cfg.daddrMax - cfg.daddrMin + 1)
    {
      if cfg.daddrMin <= daddrCur <= cfg.daddrMax {
        OneStep(daddrCur, cfg.daddrMin, cfg.daddrMax);
      }
      if daddrCur == cfg.daddrMax {
        daddrCur := cfg.daddrMin;
      } else {
        daddrCur := Increment(daddrCur);
      }
      r := daddrCur;
    }

    method NextSrcPort() returns (r: Word32)
      modifies this`sportCur
      ensures r == sportCur == Next(old(sportCur), cfg.sportMin, cfg.sportMax)
      ensures cfg.sportMin <= old(sportCur) <= cfg.sportMax ==>
        r == cfg.sportMin + (old(sportCur) - cfg.sportMin + 1) % (cfg.sportMax - cfg.sportMin + 1)
    {
      if cfg.sportMin <= sportCur <= cfg.sportMax {
        OneStep(sportCur, cfg.sportMin, cfg.sportMax);
      }
      if sportCur == cfg.sportMax {
        sportCur := cfg.sportMin;
      } else {
        sportCur := Increment(sportCur);
      }
      r := sportCur;
    }

    method NextDstPort() returns (r: Word32)
      modifies this`dportCur
      ensures r == dportCur == Next(old(dportCur), cfg.dportMin, cfg.dportMax)
      ensures cfg.dportMin <= old(dportCur) <= cfg.dportMax ==>
        r == cfg.dportMin + (old(dportCur) - cfg.dportMin + 1) % (cfg.dportMax - cfg.dportMin + 1)
    {
      if cfg.dportMin <= dportCur <= cfg.dportMax {
        OneStep(dportCur, cfg.dportMin, cfg.dportMax);
      }
      if dportCur == cfg.dportMax {
        dportCur := cfg.dportMin;
      } else {
        dportCur := Increment(dportCur);
      }
      r := dportCur;
    }

    /** The text copied until the payload is full; the first copy repeats when the text is longer. */
    method PopPayload(data: array<Byte>)
      requires Roomy(cfg, data[..])
      modifies data
      ensures forall k :: 0 <= k < data.Length ==> data[k] == PayloadByte(cfg, k, old(data[k]))
    {
      var text := cfg.text;
      var i, j := |text|, cfg.pktlen - 54;
      ghost var whole := Cyclic(text, j);
      if i > j {
        CopyInto(data, PAYLOAD, text[..j]);
      }
      var start := 0;
      while j > i
        invariant 0 <= j && 0 <= start && start + j == cfg.pktlen - 54
        invariant j > 0 ==> i > 0
        invariant whole[start..] == Cyclic(text, j)
        invariant forall k :: 0 <= k < PAYLOAD || cfg.pktlen + PAY_LEN <= k < data.Length ==> data[k] == old(data[k])
        invariant forall k :: PAYLOAD <= k < PAYLOAD + start ==> data[k] == whole[k - PAYLOAD]
        decreases j
      {
        CyclicStep(whole, start, text, j);
        CopyInto(data, PAYLOAD + start, text);
        assert forall k :: start <= k < start + i ==> whole[k] == whole[start..start + i][k - start];
        start := start + i;
        j := j - i;
      }
      ghost var rest := whole[start..];
      assert rest == text[..j] && forall k :: start <= k < |whole| ==> whole[k] == rest[k - start];
      CopyInto(data, PAYLOAD + start, text[..j]);
    }

    method PopTransmissionTcp(data: array<Byte>)
      requires data.Length >= PAYLOAD
      modifies data, this`sportCur, this`dportCur
      ensures Now() == Advance(cfg, old(Now())).(saddr := old(saddrCur), daddr := old(daddrCur))
      ensures forall k :: 0 <= k < data.Length ==> data[k] == TcpByte(Now(), k, old(data[k]))
    {
      var source := NextSrcPort();
      CopyInto(data, TCP_IDX, Network16(source));
      var dest := NextDstPort();
      CopyInto(data, TCP_IDX + 2, Network16(dest));
      data[TCP_IDX + 12] := OffsetByte(data[TCP_IDX + 12]);
    }

    method PopIpLayerTcp(data: array<Byte>)
      requires data.Length >= PAYLOAD
      modifies data, this`saddrCur, this`daddrCur
      ensures Now() == Advance(cfg, old(Now())).(sport := old(sportCur), dport := old(dportCur))
      ensures forall k :: 0 <= k < data.Length ==> data[k] == IpByte(cfg, Now(), k, old(data[k]))
    {
      data[IP_IDX] := 0x45;
      CopyInto(data, IP_IDX + 2, TotalLength(cfg));
      data[IP_IDX + 8] := 64;
      data[IP_IDX + 9] := 6;
      var source := NextSrcIp();
      CopyInto(data, IP_IDX + 12, Network32(source));
      var dest := NextDstIp();
      CopyInto(data, IP_IDX + 16, Network32(dest));
    }

    method PopDatalink(data: array<Byte>)
      requires data.Length >= PAYLOAD && cfg.Valid()
      modifies data
      ensures forall k :: 0 <= k < data.Length ==> data[k] == EthernetByte(cfg, k, old(data[k]))
    {
      CopyInto(data, PAY_LEN, cfg.dstmac);
      CopyInto(data, PAY_LEN + 6, cfg.srcmac);
      CopyInto(data, PAY_LEN + 12, [0x08, 0x00]);
    }

    method GeneratorTcpPacket(packet: Packet)
      requires Roomy(cfg, packet.data[..])
      modifies packet.data, this`saddrCur, this`daddrCur, this`sportCur, this`dportCur
      ensures Now() == Advance(cfg, old(Now()))
      ensures Made(cfg, Now(), packet.data[..], old(packet.data[..]))
    {
      ghost var before := packet.data[..];
      PopPayload(packet.data);
      PopTransmissionTcp(packet.data);
      PopIpLayerTcp(packet.data);
      PopDatalink(packet.data);
      RebuiltCarries(cfg, Now(), before);
    }

    /**
      * What the generator's main loop does to each packet it takes. On any buffer that was built
      * before it is a full rebuild.
      */
    method PatchPacket(packet: Packet)
      requires packet.data.Length >= PAYLOAD
      modifies packet.data, this`saddrCur, this`daddrCur, this`sportCur, this`dportCur
      ensures Now() == Advance(cfg, old(Now()))
      ensures packet.data[..] == Patched(Now(), old(packet.data[..]))
      ensures Framed(cfg, old(packet.data[..])) ==>
        Made(cfg, Now(), packet.data[..], old(packet.data[..]))
    {
      ghost var before := packet.data[..];
      var source := NextSrcPort();
      CopyInto(packet.data, TCP_IDX, Network16(source));
      var dest := NextDstPort();
      CopyInto(packet.data, TCP_IDX + 2, Network16(dest));
      var saddr := NextSrcIp();
      CopyInto(packet.data, 28, Network32(saddr));
      var daddr := NextDstIp();
      CopyInto(packet.data, 32, Network32(daddr));
      if Framed(cfg, before) {
        PatchedIsRebuiltIff(cfg, Now(), before);
        RebuiltCarries(cfg, Now(), before);
      }
    }

    /** One turn of the first pass, which leaves the other packets of the pool alone. */
    method MakePacket(packet: Packet, ghost pool: seq<Packet>, ghost i: nat)
      requires Roomy(cfg, packet.data[..])
      requires Separate(pool) && i < |pool| && packet == pool[i]
      modifies packet`length, packet.data, this`saddrCur, this`daddrCur, this`sportCur, this`dportCur
      ensures Now() == Advance(cfg, old(Now())) && packet.length == cfg.pktlen
      ensures Made(cfg, Now(), packet.data[..], old(packet.data[..]))
      ensures Contents(pool) == old(Contents(pool))[i := packet.data[..]]
      ensures forall j :: 0 <= j < |pool| && j != i ==> pool[j].length == old(pool[j].length)
    {
      packet.length := cfg.pktlen;
      GeneratorTcpPacket(packet);
    }

    /**
      * The first pass: as many packets as the pool holds are taken, built and put back. The pool
      * comes round to its first order with every packet built, each from the next counters.
      */
    method MakeAllPackets(pool: seq<Packet>) returns (after: seq<Packet>)
      requires cfg.Valid() && |pool| == RING_CAPACITY && Separate(pool)
      requires forall i :: 0 <= i < |pool| ==> Roomy(cfg, Contents(pool)[i])
      modifies set p | p in pool :: p`length
      modifies set p | p in pool :: p.data
      modifies this`saddrCur, this`daddrCur, this`sportCur, this`dportCur
      ensures after == pool
      ensures Now() == After(cfg, old(Now()), RING_CAPACITY)
      ensures forall i :: 0 <= i < |pool| ==> pool[i].length == cfg.pktlen
      ensures MadeUpTo(cfg, old(Now()), RING_CAPACITY, Contents(pool), old(Contents(pool)))
    {
      after := pool;
      ghost var was := Contents(pool);
      ghost var start := Now();
      var i := 0;
      while i < RING_CAPACITY
        invariant 0 <= i <= RING_CAPACITY
        invariant after == pool[i..] + pool[..i]
        invariant Now() == After(cfg, start, i)
        invariant forall j :: 0 <= j < i ==> pool[j].length == cfg.pktlen
        invariant MadeUpTo(cfg, start, i, Contents(pool), was)
      {
        Rotated(pool, i);
        var packet := after[0];
        after := after[1..] + [packet];
        ghost var before := Contents(pool);
        MakePacket(packet, pool, i);
        MadeOneMore(cfg, start, i, before, was, Contents(pool)[i]);
        i := i + 1;
      }
    }
  }

  ghost predicate Separate(pool: seq<Packet>) {
    forall i, j :: 0 <= i < j < |pool| ==> pool[i] != pool[j] && pool[i].data != pool[j].data
  }

  ghost function Contents(pool: seq<Packet>): (r: seq<seq<Byte>>)
    reads set p | p in pool :: p.data
    ensures |r| == |pool| && forall i :: 0 <= i < |pool| ==> r[i] == pool[i].data[..]
  {
    seq(|pool|, i requires 0 <= i < |pool| reads (set p | p in pool :: p.data) => pool[i].data[..])
  }

  /** `now` is the packet built over `was`. */
  ghost predicate Made(cfg: Config, c: Counters, now: seq<Byte>, was: seq<Byte>)
    requires cfg.Valid()
  {
    now == Rebuilt(cfg, c, was) && Carries(cfg, c, now)
  }

  /** The first i buffers are built, each from its own counters, and the others are as they were. */
  ghost predicate MadeUpTo(cfg: Config, c: Counters, i: nat, now: seq<seq<Byte>>, was: seq<seq<Byte>>)
    requires cfg.Valid()
  {
    && |now| == |was| >= i
    && (forall j :: 0 <= j < i ==> Made(cfg, After(cfg, c, j + 1), now[j], was[j]))
    && (forall j :: i <= j < |now| ==> now[j] == was[j])
  }

  lemma MadeOneMore(cfg: Config, c: Counters, i: nat, now: seq<seq<Byte>>, was: seq<seq<Byte>>, next: seq<Byte>)
    requires cfg.Valid() && i < |now| && MadeUpTo(cfg, c, i, now, was)
    requires Made(cfg, After(cfg, c, i + 1), next, now[i])
    ensures MadeUpTo(cfg, c, i + 1, now[i := next], was)
  {
  }

  lemma Rotated<T>(pool: seq<T>, i: nat)
    requires i < |pool|
    ensures (pool[i..] + pool[..i])[0] == pool[i]
    ensures (pool[i..] + pool[..i])[1..] + [pool[i]] == pool[i + 1..] + pool[..i + 1]
  {
  }

  /** The counters after n packets. */
  ghost function After(cfg: Config, c: Counters, n: nat): Counters {
    if n == 0 then c else Advance(cfg, After(cfg, c, n - 1))
  }

  /** The counters after n packets are four independent cycles. */
  lemma {:induction false} AfterIs(cfg: Config, c: Counters, n: nat)
    ensures After(cfg, c, n) == Counters(
      Times(c.saddr, cfg.saddrMin, cfg.saddrMax, n), Times(c.daddr, cfg.daddrMin, cfg.daddrMax, n),
      Times(c.sport, cfg.sportMin, cfg.sportMax, n), Times(c.dport, cfg.dportMin, cfg.dportMax, n))
  {
    if n > 0 {
      AfterIs(cfg, c, n - 1);
    }
  }

  // ---- A whole run of the generator ---------------------------------------------------------

  /** The packets sent when the pool's packets come back in the order `picks`. */
  ghost function SentByPatching(cfg: Config, c: Counters, bufs: seq<seq<Byte>>, picks: seq<nat>): seq<seq<Byte>>
    requires forall i :: 0 <= i < |picks| ==> picks[i] < |bufs|
    decreases |picks|
  {
    if picks == [] then []
    else
      var d := Advance(cfg, c);
      var b := Patched(d, bufs[picks[0]]);
      [b] + SentByPatching(cfg, d, bufs[picks[0] := b], picks[1..])
  }

  /** The same when every packet is built anew. */
  ghost function SentByBuilding(cfg: Config, c: Counters, bufs: seq<seq<Byte>>, picks: seq<nat>): seq<seq<Byte>>
    requires cfg.Valid() && forall i :: 0 <= i < |picks| ==> picks[i] < |bufs|
    decreases |picks|
  {
    if picks == [] then []
    else
      var d := Advance(cfg, c);
      var b := Rebuilt(cfg, d, bufs[picks[0]]);
      [b] + SentByBuilding(cfg, d, bufs[picks[0] := b], picks[1..])
  }

  /**
    * Once every packet of the pool has been built, the short cut sends the very packets that
    * building each one anew would send, for ever and in whatever order packets come back; each
    * carries its own counters.
    */
  lemma {:induction false} PatchingIsBuilding(cfg: Config, c: Counters, bufs: seq<seq<Byte>>, picks: seq<nat>)
    requires cfg.Valid() && forall i :: 0 <= i < |picks| ==> picks[i] < |bufs|
    requires forall i :: 0 <= i < |bufs| ==> Framed(cfg, bufs[i])
    ensures SentByPatching(cfg, c, bufs, picks) == SentByBuilding(cfg, c, bufs, picks)
    ensures |SentByPatching(cfg, c, bufs, picks)| == |picks|
    ensures forall i :: 0 <= i < |picks| ==> Carries(cfg, After(cfg, c, i + 1), SentByPatching(cfg, c, bufs, picks)[i])
    decreases |picks|
  {
    if picks != [] {
      var d := Advance(cfg, c);
      var buf := bufs[picks[0]];
      PatchedIsRebuiltIff(cfg, d, buf);
      RebuiltCarries(cfg, d, buf);
      var b := Patched(d, buf);
      forall k | 0 <= k < |b| && !(IP_IDX + 12 <= k < TCP_IDX + 4)
        ensures HasByte(cfg, Counters(0, 0, 0, 0), k, b[k])
      {
        assert HasByte(cfg, d, k, b[k]);
      }
      PatchingIsBuilding(cfg, d, bufs[picks[0] := b], picks[1..]);
      forall i | 0 <= i < |picks| ensures Carries(cfg, After(cfg, c, i + 1), SentByPatching(cfg, c, bufs, picks)[i]) {
        AfterFirst(cfg, c, i);
      }
    }
  }

  lemma {:induction false} AfterFirst(cfg: Config, c: Counters, n: nat)
    ensures After(cfg, c, n + 1) == After(cfg, Advance(cfg, c), n)
  {
    if n > 0 {
      AfterFirst(cfg, c, n - 1);
    } else {
      assert After(cfg, c, 0) == c;
    }
  }

  // ---- The parser ---------------------------------------------------------------------------

  method Order(a: Word32, b: Word32) returns (upper: Word32, lower: Word32)
    ensures upper >= lower && SamePair(upper, lower, a, b)
    ensures upper == Larger(a, b) && lower == Smaller(a, b)
  {
    if a >= b {
      upper, lower := a, b;
    } else {
      upper, lower := b, a;
    }
  }

  method MeasureHeaders(data: array<Byte>, length: int) returns (tcp: nat, headerLen: nat, payloadLen: nat)
    requires Readable(data[..])
    ensures tcp == TcpStart(data[..]) && headerLen == HeaderEnd(data[..])
    ensures payloadLen == PayloadLength(data[..], length)
  {
    var ihl := data[IP_IDX] % 16 * 4;
    tcp := PAY_LEN + 14 + ihl;
    var tcpLen := data[tcp + 12] / 16 * 4;
    headerLen := 14 + ihl + tcpLen + PAY_LEN;
    payloadLen := Unsigned32(length - headerLen + PAY_LEN);
  }

  method ReadEndpoints(data: array<Byte>, tcp: nat)
      returns (upperIp: Word32, lowerIp: Word32, upperPort: Word32, lowerPort: Word32)
    requires Readable(data[..]) && tcp == TcpStart(data[..])
    ensures Key(data[25], upperIp, lowerIp, upperPort, lowerPort) == KeyOf(data[..])
  {
    var saddr := Raw32(data[28], data[29], data[30], data[31]);
    var daddr := Raw32(data[32], data[33], data[34], data[35]);
    upperIp, lowerIp := Order(saddr, daddr);
    var source := Raw16(data[tcp], data[tcp + 1]);
    var dest := Raw16(data[tcp + 2], data[tcp + 3]);
    upperPort, lowerPort := Order(source, dest);
  }

  class FlowItem {
    var packet: Packet?
    var protocol: Byte
    var upperIp: Word32
    var lowerIp: Word32
    var upperPort: Word32
    var lowerPort: Word32
    var payload: nat       // where in the packet's data the payload starts
    var payloadLen: nat

    constructor () {
      packet := null;
      protocol, upperIp, lowerIp, upperPort, lowerPort, payload, payloadLen := 0, 0, 0, 0, 0, 0, 0;
    }

    method MakeFlowItemTcp(p: Packet)
      requires Readable(p.data[..])
      modifies this
      ensures packet == p
      ensures Key(protocol, upperIp, lowerIp, upperPort, lowerPort) == KeyOf(old(p.data[..]))
      ensures upperIp >= lowerIp && upperPort >= lowerPort
      ensures payload == HeaderEnd(old(p.data[..]))
      ensures payloadLen == PayloadLength(old(p.data[..]), old(p.length))
    {
      var tcp, start, len := MeasureHeaders(p.data, p.length);
      var ipHigh, ipLow, portHigh, portLow := ReadEndpoints(p.data, tcp);
      packet, protocol := p, p.data[25];
      upperIp, lowerIp, upperPort, lowerPort := ipHigh, ipLow, portHigh, portLow;
      payload, payloadLen := start, len;
    }
  }
}
