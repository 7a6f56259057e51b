/** From the generator's counters to the session buffers.

    The pipeline with the packets' bytes in it: generators build and patch them from their running
    counters, and the key and payload of a packet are what a parser reads out of those bytes.  In
    every reachable state each live session then belongs to the flow of some packet that has been
    made, and its buffer holds the configured payload over and over. */
module PipelinePackets {
  import opened Common
  import opened Ledger
  import opened FlowKey
  import opened Pipeline
  import opened PipelineInvariant
  import opened PipelineSafety
  import opened PipelineTheorems
  import opened PipelineBytes
  import Format = PacketFormat
  import Builder = PacketBuilder

  /** Every generator starts from its own copy of one configuration. */
  datatype Setup = Setup(c: Config, cfg: Format.Config, start: Format.Counters, size: BufferSize) {
    /** Lengths are non-negative `int`s, and a payload fits a session buffer. */
    ghost predicate Valid() {
      c.Valid() && cfg.Valid() && cfg.pktlen < 0x8000_0000 && cfg.pktlen - 54 <= size
    }

    /** The counters of the n-th packet of any generator. */
    ghost function Nth(n: nat): Format.Counters { Builder.After(cfg, start, n) }

    /** The flow of the n-th packet. */
    ghost function FlowOf(n: nat): Key {
      var d := Nth(n);
      Format.OrderedKey(6, Format.RawAddress(d.saddr), Format.RawAddress(d.daddr), Format.RawPort(d.sport), Format.RawPort(d.dport))
    }

    /** The payload of every packet. */
    ghost function Text(): Payload
      requires cfg.Valid()
    {
      Format.Cyclic(cfg.text, cfg.pktlen - 54)
    }
  }

  /** `bufs` is the memory of the packets, `now` each generator's counters, and `made` how many
      packets it has built or patched. */
  datatype Traffic = Traffic(e: Memory, bufs: map<Obj, seq<Byte>>, now: seq<Format.Counters>, made: seq<nat>)

  function Buffer(w: Traffic, x: Obj): seq<Byte> { if x in w.bufs then w.bufs[x] else [] }

  // ---------------------------------------------------------------- reading and writing packets

  /** What the parser makes of a packet's bytes. */
  ghost function KeyRead(buf: seq<Byte>): Key {
    if Format.Readable(buf) then Format.KeyOf(buf) else Key(0, 0, 0, 0, 0)
  }

  ghost function PayloadRead(u: Setup, buf: seq<Byte>): Payload {
    if Format.Readable(buf) && Format.HeaderEnd(buf) + Format.PayloadLength(buf, u.cfg.pktlen) <= |buf|
    then buf[Format.HeaderEnd(buf)..Format.HeaderEnd(buf) + Format.PayloadLength(buf, u.cfg.pktlen)]
    else []
  }

  /** What a generator writes into the packet in its hand: the first time all of it, later only
      the ports and addresses. */
  function Written(u: Setup, w: Traffic, i: nat, g: GeneratorAct): seq<Byte>
    requires i < |w.now| && u.cfg.Valid()
  {
    var d, buf := Format.Advance(u.cfg, w.now[i]), Buffer(w, Hand(w.e.s, GeneratorHand(i)));
    if g.BuildPut? then Format.Rebuilt(u.cfg, d, buf) else Format.Patched(d, buf)
  }

  /** The key that the pipeline files a packet under is the one in its bytes, and so is the
      payload. */
  ghost predicate Labelled(u: Setup, w: Traffic, a: Action, content: Payload) {
    Writes(a) ==>
      && a.i < |w.now| == |w.made| && u.cfg.Valid()
      && var buf := Written(u, w, a.i, a.g);
      && (a.g.BuildPut? ==> a.g.built == KeyRead(buf) && content == PayloadRead(u, buf))
      && (a.g.Patch? ==> a.g.stamp == KeyRead(buf))
  }

  ghost predicate Goes(u: Setup, w: Traffic, a: Action, content: Payload) {
    Allowed(u.c, u.size, w.e, a, content) && Labelled(u, w, a, content)
  }

  ghost function NextTraffic(u: Setup, w: Traffic, a: Action, content: Payload): Traffic
    requires Goes(u, w, a, content)
  {
    var e := Next(u.c, u.size, w.e, a, content);
    if Writes(a) then
      Traffic(e, w.bufs[Hand(w.e.s, GeneratorHand(a.i)) := Written(u, w, a.i, a.g)],
              w.now[a.i := Format.Advance(u.cfg, w.now[a.i])], w.made[a.i := w.made[a.i] + 1])
    else w.(e := e)
  }

  ghost predicate TrafficRun(u: Setup, w: Traffic, steps: seq<(Action, Payload)>, w': Traffic)
    decreases |steps|
  {
    if steps == [] then w == w'
    else
      && Goes(u, w, steps[0].0, steps[0].1)
      && TrafficRun(u, NextTraffic(u, w, steps[0].0, steps[0].1), steps[1..], w')
  }

  /** Packets have been allocated, nothing has been written. */
  ghost predicate TrafficInit(u: Setup, w: Traffic) {
    && MemoryInit(u.c, w.e)
    && |w.now| == |w.made| == u.c.g
    && (forall i :: 0 <= i < u.c.g ==> w.now[i] == u.start)
    && (forall i :: 0 <= i < u.c.g ==> w.made[i] == 0)
    && AllRoomy(u, w)
  }

  // ---------------------------------------------------------------- the invariant

  ghost predicate AllRoomy(u: Setup, w: Traffic) {
    forall x {:trigger Buffer(w, x)} :: Real(u.c, x) && x.Packet? ==> Format.Roomy(u.cfg, Buffer(w, x))
  }

  ghost predicate CountersRight(u: Setup, w: Traffic) {
    && |w.now| == |w.made| == u.c.g
    && forall i {:trigger w.now[i]} :: 0 <= i < u.c.g ==> w.now[i] == u.Nth(w.made[i])
  }

  /** The packet is the n-th of its generator. */
  ghost predicate IsNth(u: Setup, s: State, buf: seq<Byte>, x: Obj, n: nat) {
    Format.Carries(u.cfg, u.Nth(n), buf) && KeyOf(s, x) == u.FlowOf(n)
  }

  ghost predicate PacketRight(u: Setup, w: Traffic, x: Obj)
    requires u.cfg.Valid()
  {
    && x.Packet? && x.home < |w.made|
    && Lookup(w.e.data, x) == u.Text()
    && exists n: nat :: 1 <= n <= w.made[x.home] && IsNth(u, w.e.s, Buffer(w, x), x, n)
  }

  ghost predicate PacketsRight(u: Setup, w: Traffic)
    requires u.cfg.Valid()
  {
    forall x {:trigger x in w.e.data} :: x in w.e.data ==> PacketRight(u, w, x)
  }

  /** Packets that the first pass has reached have been built. */
  ghost predicate AllBuilt(s: State, data: map<Obj, Payload>) {
    forall p: Place, i, x: Obj {:trigger Holds(s.at, p, i, x)} :: Holds(s.at, p, i, x) && x.Packet? && !Raw(s, p, i) ==> x in data
  }

  /** Some packet of this flow has been made. */
  ghost predicate Generated(u: Setup, made: seq<nat>, key: Key) {
    exists i: nat, n: nat :: i < |made| && 1 <= n <= made[i] && key == u.FlowOf(n)
  }

  ghost predicate FlowsRight(u: Setup, w: Traffic)
    requires u.cfg.Valid()
  {
    forall f {:trigger f in w.e.parsed} :: f in w.e.parsed ==>
      f.Flow? && Generated(u, w.made, KeyOf(w.e.s, f)) && w.e.parsed[f] == u.Text()
  }

  ghost predicate AllText(u: Setup, ps: seq<Payload>)
    requires u.cfg.Valid()
  {
    ps != [] && (forall j :: 0 <= j < |ps| ==> ps[j] == u.Text()) && (|ps| > 1 ==> |Flat(ps)| < u.size)
  }

  ghost predicate LogRight(u: Setup, made: seq<nat>, log: Log)
    requires u.cfg.Valid()
  {
    forall key {:trigger key in log} :: key in log ==> Generated(u, made, key) && AllText(u, log[key])
  }

  ghost predicate TrafficInv(u: Setup, w: Traffic) {
    && u.Valid() && MemoryInv(u.c, u.size, w.e)
    && AllRoomy(u, w) && CountersRight(u, w) && AllBuilt(w.e.s, w.e.data)
    && PacketsRight(u, w) && FlowsRight(u, w) && LogRight(u, w.made, w.e.log)
  }

  // ---------------------------------------------------------------- a packet is read as it was made

  /** So a packet being written is the next one of its generator, and is read back as that. */
  lemma WrittenReads(u: Setup, w: Traffic, a: Action)
    requires TrafficInv(u, w) && Enabled(u.c, w.e.s, a) && Writes(a)
    ensures a.i < u.c.g == |w.now| == |w.made| && u.cfg.Valid()
    ensures var buf, n := Written(u, w, a.i, a.g), w.made[a.i] + 1;
      && Format.Carries(u.cfg, u.Nth(n), buf) && |buf| == |Buffer(w, Hand(w.e.s, GeneratorHand(a.i)))|
      && KeyRead(buf) == u.FlowOf(n) && PayloadRead(u, buf) == u.Text()
    ensures var x := Hand(w.e.s, GeneratorHand(a.i)); x.Packet? && x.home == a.i && (a.g.Patch? ==> Lookup(w.e.data, x) == u.Text())
  {
    // What a generator has in hand when it writes.
    var s, x := w.e.s, Hand(w.e.s, GeneratorHand(a.i));
    assert GeneratorShape(u.c, s, a.i);
    assert Holds(s.at, GeneratorHand(a.i), 0, x) && Fits(u.c, GeneratorHand(a.i), x);
    if a.g.Patch? {
      assert x in w.e.data && PacketRight(u, w, x);
      var n: nat :| 1 <= n <= w.made[x.home] && IsNth(u, s, Buffer(w, x), x, n);
    }
    NextReads(u, w, a.i, a.g);
    assert a.g.Patch? ==> PacketRight(u, w, Hand(w.e.s, GeneratorHand(a.i)));
  }

  lemma NextReads(u: Setup, w: Traffic, i: nat, g: GeneratorAct)
    requires u.Valid() && CountersRight(u, w) && i < u.c.g && (g.BuildPut? || g.Patch?)
    requires var x := Hand(w.e.s, GeneratorHand(i));
      && Format.Roomy(u.cfg, Buffer(w, x))
      && (g.Patch? ==> exists n: nat :: Format.Carries(u.cfg, u.Nth(n), Buffer(w, x)))
    ensures var buf, n := Written(u, w, i, g), w.made[i] + 1;
      && Format.Carries(u.cfg, u.Nth(n), buf) && |buf| == |Buffer(w, Hand(w.e.s, GeneratorHand(i)))|
      && KeyRead(buf) == u.FlowOf(n) && PayloadRead(u, buf) == u.Text()
  {
    // A build of any buffer, and a patch of a packet made before, leave the next packet.
    var buf, d := Buffer(w, Hand(w.e.s, GeneratorHand(i))), u.Nth(w.made[i] + 1);
    assert w.now[i] == u.Nth(w.made[i]) && d == Format.Advance(u.cfg, w.now[i]);
    if g.BuildPut? {
      Format.RebuiltCarries(u.cfg, d, buf);
    } else {
      var n: nat :| Format.Carries(u.cfg, u.Nth(n), buf);
      Format.PatchedIsRebuilt(u.cfg, u.Nth(n), d, buf);
    }
    Format.ParseOfBuilt(u.cfg, u.Nth(w.made[i] + 1), Written(u, w, i, g));
  }

  /** The limit on payloads holds by itself. */
  lemma PayloadFits(u: Setup, w: Traffic, i: nat, key: Key, content: Payload)
    requires TrafficInv(u, w) && Enabled(u.c, w.e.s, ByGenerator(i, BuildPut(key)))
    requires Labelled(u, w, ByGenerator(i, BuildPut(key)), content)
    ensures content == u.Text() && |content| <= u.size
  {
    WrittenReads(u, w, ByGenerator(i, BuildPut(key)));
  }

  // ---------------------------------------------------------------- what every step keeps

  /** What a step that writes changes, and that no other step changes any of it. */
  ghost predicate Follows(u: Setup, w: Traffic, a: Action, w': Traffic) {
    if Writes(a) then
      var x := Hand(w.e.s, GeneratorHand(a.i));
      && a.i < |w.now| == |w.made| && u.cfg.Valid()
      && w'.bufs == w.bufs[x := Written(u, w, a.i, a.g)]
      && w'.now == w.now[a.i := Format.Advance(u.cfg, w.now[a.i])] && w'.made == w.made[a.i := w.made[a.i] + 1]
    else w'.bufs == w.bufs && w'.now == w.now && w'.made == w.made
  }

  predicate NoFewer(made: seq<nat>, made': seq<nat>) {
    |made'| == |made| && forall i :: 0 <= i < |made| ==> made[i] <= made'[i]
  }

  lemma RoomyStep(u: Setup, w: Traffic, a: Action, w': Traffic)
    requires AllRoomy(u, w) && Follows(u, w, a, w')
    requires Writes(a) ==> |Written(u, w, a.i, a.g)| == |Buffer(w, Hand(w.e.s, GeneratorHand(a.i)))|
    ensures AllRoomy(u, w')
  {
    forall x | Real(u.c, x) && x.Packet? ensures Format.Roomy(u.cfg, Buffer(w', x)) {
      assert Format.Roomy(u.cfg, Buffer(w, x));
    }
  }

  /** A packet that no longer counts as raw was built before, or has just been built. */
  lemma NotRawBefore(c: Config, s: State, a: Action, p: Place, i: int, x: Obj)
    requires Inv(c, s) && Enabled(c, s, a)
    requires Holds(Step(c, s, a).at, p, i, x) && !Raw(Step(c, s, a), p, i)
    ensures (exists q, j :: Holds(s.at, q, j, x) && !Raw(s, q, j)) || (a.ByGenerator? && a.g.BuildPut? && x == Hand(s, GeneratorHand(a.i)))
  {
    var s' := Step(c, s, a);
    if a.ByGenerator? {
      GeneratorRawBack(c, s, a.i, a.g, p, i, x);
    } else {
      StepMoves(c, s, a);
      GeneratorsStay(c, s, a);
      // Nobody but its generator uses a pool that is still being built.
      if a.ByParser? {
        if a.p.ReturnPackets? { ParserReturnsTo(c, s, a.j); }
      } else if a.ByManager? {
        ManagerStaysOut(c, s, a.k, a.m);
      }
      assert Proper(c, s, Moves(c, s, a), Actor(a));
      RawBack(c, s, s', Moves(c, s, a), Actor(a), p, i, x);
    }
  }

  /** The parts of a step. */
  ghost predicate Steps(u: Setup, w: Traffic, a: Action, content: Payload, w': Traffic) {
    && Enabled(u.c, w.e.s, a) && Labelled(u, w, a, content) && Follows(u, w, a, w')
    && w'.e.s == Step(u.c, w.e.s, a) && w'.e.data == NextData(w.e, a, content)
    && w'.e.parsed == NextParsed(w.e, a) && w'.e.log == NextLog(w.e, a, u.size)
  }

  lemma PacketsStep(u: Setup, w: Traffic, a: Action, content: Payload, w': Traffic)
    requires TrafficInv(u, w) && Steps(u, w, a, content, w')
    ensures PacketsRight(u, w')
  {
    MadeMore(u, w, a, w');
    forall x | x in w'.e.data ensures PacketRight(u, w', x) {
      if Writes(a) && x == Hand(w.e.s, GeneratorHand(a.i)) {
        WrittenRight(u, w, a.i, a.g, content, w');
      } else {
        assert x in w.e.data && PacketRight(u, w, x);
        PacketKeyKept(u.c, w.e.s, a, x);
        OtherPacket(u, w, a, content, w', x);
      }
    }
  }

  lemma MadeMore(u: Setup, w: Traffic, a: Action, w': Traffic)
    requires Follows(u, w, a, w')
    ensures NoFewer(w.made, w'.made)
  {
  }

  lemma WrittenRight(u: Setup, w: Traffic, i: nat, g: GeneratorAct, content: Payload, w': Traffic)
    requires TrafficInv(u, w) && GeneratorEnabled(u.c, w.e.s, i, g) && (g.BuildPut? || g.Patch?)
    requires Labelled(u, w, ByGenerator(i, g), content) && Follows(u, w, ByGenerator(i, g), w')
    requires w'.e.s == GeneratorStep(u.c, w.e.s, i, g) && w'.e.data == NextData(w.e, ByGenerator(i, g), content)
    ensures PacketRight(u, w', Hand(w.e.s, GeneratorHand(i)))
  {
    var x := Hand(w.e.s, GeneratorHand(i));
    WrittenReads(u, w, ByGenerator(i, g));
    WrittenKey(u.c, w.e.s, i, g);
    PacketWritten(u, w, i, g, w', x);
  }

  lemma WrittenKey(c: Config, s: State, i: nat, g: GeneratorAct)
    requires GeneratorEnabled(c, s, i, g) && (g.BuildPut? || g.Patch?)
    ensures KeyOf(GeneratorStep(c, s, i, g), Hand(s, GeneratorHand(i))) == if g.BuildPut? then g.built else g.stamp
  {
  }

  /** A packet that has just been written is the next of its generator. */
  lemma PacketWritten(u: Setup, w: Traffic, i: nat, g: GeneratorAct, w': Traffic, x: Obj)
    requires u.Valid() && Follows(u, w, ByGenerator(i, g), w') && (g.BuildPut? || g.Patch?)
    requires x == Hand(w.e.s, GeneratorHand(i)) && x.Packet? && x.home == i
    requires Format.Carries(u.cfg, u.Nth(w.made[i] + 1), Written(u, w, i, g))
    requires KeyOf(w'.e.s, x) == u.FlowOf(w.made[i] + 1) && Lookup(w'.e.data, x) == u.Text()
    ensures PacketRight(u, w', x)
  {
    assert IsNth(u, w'.e.s, Buffer(w', x), x, w.made[i] + 1);
  }

  lemma PacketKeyKept(c: Config, s: State, a: Action, x: Obj)
    requires Inv(c, s) && Enabled(c, s, a) && x.Packet? && !(Writes(a) && x == Hand(s, GeneratorHand(a.i)))
    ensures KeyOf(Step(c, s, a), x) == KeyOf(s, x)
  {
    WrittenKinds(c, s, a);
    KeyKept(c, s, a, x);
  }

  lemma OtherPacket(u: Setup, w: Traffic, a: Action, content: Payload, w': Traffic, x: Obj)
    requires u.cfg.Valid() && PacketRight(u, w, x) && Follows(u, w, a, w') && NoFewer(w.made, w'.made)
    requires w'.e.data == NextData(w.e, a, content) && KeyOf(w'.e.s, x) == KeyOf(w.e.s, x)
    requires Writes(a) ==> x != Hand(w.e.s, GeneratorHand(a.i))
    ensures PacketRight(u, w', x)
  {
    // A packet that is not being written stays as it is.
    var n: nat :| 1 <= n <= w.made[x.home] && IsNth(u, w.e.s, Buffer(w, x), x, n);
    assert n <= w'.made[x.home] && IsNth(u, w'.e.s, Buffer(w', x), x, n);
  }

  // ---------------------------------------------------------------- flow items and the log

  lemma RightIsGenerated(u: Setup, w: Traffic, x: Obj)
    requires u.cfg.Valid() && PacketRight(u, w, x)
    ensures Generated(u, w.made, KeyOf(w.e.s, x))
  {
    var n: nat :| 1 <= n <= w.made[x.home] && IsNth(u, w.e.s, Buffer(w, x), x, n);
  }

  /** The flow item is one, and the packet it is made from has been made. */
  ghost predicate FilledWell(u: Setup, w: Traffic, f: Obj, x: Obj)
    requires u.cfg.Valid()
  {
    f.Flow? && Generated(u, w.made, KeyOf(w.e.s, x)) && Lookup(w.e.data, x) == u.Text()
  }

  lemma FilledAll(u: Setup, w: Traffic, j: nat, w': Traffic)
    requires u.cfg.Valid() && FlowsRight(u, w) && Unique(w.e.s.at) && ParserEnabled(u.c, w.e.s, j, Fill) && w'.made == w.made
    requires w'.e.s == ParserStep(u.c, w.e.s, j, Fill)
    requires w'.e.parsed == FillAll(w.e.parsed, At(w.e.s.at, ParserFlows(j)), PayloadsOf(w.e, At(w.e.s.at, ParserPackets(j))))
    requires var packets, flows := At(w.e.s.at, ParserPackets(j)), At(w.e.s.at, ParserFlows(j));
      forall n :: 0 <= n < |flows| ==> FilledWell(u, w, flows[n], packets[n])
    ensures FlowsRight(u, w')
  {
    var packets, flows := At(w.e.s.at, ParserPackets(j)), At(w.e.s.at, ParserFlows(j));
    FillEffect(u.c, w.e.s, j);
    DistinctAt(w.e.s.at, ParserFlows(j));
    FillAllGet(w.e.parsed, flows, PayloadsOf(w.e, packets));
    forall f | f in w'.e.parsed
      ensures f.Flow? && Generated(u, w'.made, KeyOf(w'.e.s, f)) && w'.e.parsed[f] == u.Text()
    {
      if f in flows {
        var n :| 0 <= n < |flows| && flows[n] == f;
        assert FilledWell(u, w, f, packets[n]);
      }
    }
  }

  lemma FlowsStep(u: Setup, w: Traffic, a: Action, content: Payload, w': Traffic)
    requires TrafficInv(u, w) && Steps(u, w, a, content, w')
    ensures FlowsRight(u, w')
  {
    if Fills(a) {
      var packets, flows := At(w.e.s.at, ParserPackets(a.j)), At(w.e.s.at, ParserFlows(a.j));
      forall n | 0 <= n < |flows| ensures FilledWell(u, w, flows[n], packets[n]) {
        var f := At(w.e.s.at, ParserFlows(a.j))[n];
        assert Holds(w.e.s.at, ParserFlows(a.j), n, f) && Fits(u.c, ParserFlows(a.j), f);
        // A packet in a parser's hands has been made.
        var x := At(w.e.s.at, ParserPackets(a.j))[n];
        assert Holds(w.e.s.at, ParserPackets(a.j), n, x) && Fits(u.c, ParserPackets(a.j), x);
        RightIsGenerated(u, w, At(w.e.s.at, ParserPackets(a.j))[n]);
      }
      FilledAll(u, w, a.j, w');
    } else {
      assert NoFewer(w.made, w'.made);
      forall f | f in w'.e.parsed
        ensures f.Flow? && Generated(u, w'.made, KeyOf(w'.e.s, f)) && w'.e.parsed[f] == u.Text()
      {
        WrittenKinds(u.c, w.e.s, a);
        KeyKept(u.c, w.e.s, a, f);
        var i: nat, n: nat :| i < |w.made| && 1 <= n <= w.made[i] && KeyOf(w.e.s, f) == u.FlowOf(n);
        assert i < |w'.made| && n <= w'.made[i];
      }
    }
  }

  /** Logging one more payload. */
  lemma LoggedRight(u: Setup, made: seq<nat>, log: Log, key: Key)
    requires u.cfg.Valid() && LogRight(u, made, log) && Generated(u, made, key)
    ensures LogRight(u, made, Logged(log, key, u.Text(), u.size))
  {
    if key in log {
      FlatAppend(log[key], u.Text());
    }
  }

  /** What a manager has in hand has been parsed. */
  lemma ManagerHas(u: Setup, w: Traffic, k: nat, a: ManagerAct)
    requires TrafficInv(u, w) && ManagerEnabled(u.c, w.e.s, k, a) && (a.CopyNew? || a.Append? || a.Evict?)
    ensures var f := Hand(w.e.s, ManagerFlow(k));
      f in w.e.parsed && Generated(u, w.made, KeyOf(w.e.s, f)) && Lookup(w.e.parsed, f) == u.Text()
  {
    var f := Hand(w.e.s, ManagerFlow(k));
    assert ManagerShape(w.e.s, k);
    assert Holds(w.e.s.at, ManagerFlow(k), 0, f) && Fits(u.c, ManagerFlow(k), f);
  }

  lemma LogStep(u: Setup, w: Traffic, a: Action, content: Payload, w': Traffic)
    requires TrafficInv(u, w) && Steps(u, w, a, content, w')
    ensures LogRight(u, w'.made, w'.e.log)
  {
    assert NoFewer(w.made, w'.made);
    if a.ByManager? && (a.m.CopyNew? || a.m.Append? || a.m.Evict?) {
      ManagerHas(u, w, a.k, a.m);
      LoggedRight(u, w.made, w.e.log, KeyOf(w.e.s, Hand(w.e.s, ManagerFlow(a.k))));
    }
    forall key | key in w'.e.log ensures Generated(u, w'.made, key) {
      var i: nat, n: nat :| i < |w.made| && 1 <= n <= w.made[i] && key == u.FlowOf(n);
      assert i < |w'.made| && n <= w'.made[i];
    }
    assert LogRight(u, w'.made, w'.e.log);
  }

  // ---------------------------------------------------------------- every run

  lemma StepParts(u: Setup, w: Traffic, a: Action, content: Payload, w': Traffic)
    requires TrafficInv(u, w) && Steps(u, w, a, content, w')
    ensures AllRoomy(u, w') && CountersRight(u, w') && AllBuilt(w'.e.s, w'.e.data)
  {
    if Writes(a) {
      WrittenReads(u, w, a);
    }
    forall i | 0 <= i < u.c.g ensures w'.now[i] == u.Nth(w'.made[i]) {
      assert w.now[i] == u.Nth(w.made[i]);
    }
    RoomyStep(u, w, a, w');
    forall p: Place, i, x: Obj | Holds(w'.e.s.at, p, i, x) && x.Packet? && !Raw(w'.e.s, p, i) ensures x in w'.e.data {
      NotRawBefore(u.c, w.e.s, a, p, i, x);
    }
  }

  lemma TrafficStep(u: Setup, w: Traffic, a: Action, content: Payload)
    requires TrafficInv(u, w) && Goes(u, w, a, content)
    ensures TrafficInv(u, NextTraffic(u, w, a, content))
  {
    var w' := NextTraffic(u, w, a, content);
    MemoryStep(u.c, u.size, w.e, a, content);
    StepParts(u, w, a, content, w');
    PacketsStep(u, w, a, content, w');
    FlowsStep(u, w, a, content, w');
    LogStep(u, w, a, content, w');
  }

  lemma {:induction false} TrafficRunInv(u: Setup, w: Traffic, steps: seq<(Action, Payload)>, w': Traffic)
    requires TrafficInv(u, w) && TrafficRun(u, w, steps, w')
    ensures TrafficInv(u, w')
    decreases |steps|
  {
    if steps != [] {
      TrafficStep(u, w, steps[0].0, steps[0].1);
      TrafficRunInv(u, NextTraffic(u, w, steps[0].0, steps[0].1), steps[1..], w');
    }
  }

  /** The memory of such a run is one of PipelineBytes. */
  lemma {:induction false} TrafficMemory(u: Setup, w: Traffic, steps: seq<(Action, Payload)>, w': Traffic)
    requires TrafficRun(u, w, steps, w')
    ensures MemoryRun(u.c, u.size, w.e, steps, w'.e)
    decreases |steps|
  {
    if steps != [] {
      TrafficMemory(u, NextTraffic(u, w, steps[0].0, steps[0].1), steps[1..], w');
    }
  }

  lemma TrafficStart(u: Setup, w: Traffic)
    requires u.Valid() && TrafficInit(u, w)
    ensures TrafficInv(u, w)
  {
    MemoryStart(u.c, u.size, w.e);
    forall p: Place, i, x: Obj | Holds(w.e.s.at, p, i, x) && x.Packet? ensures Raw(w.e.s, p, i) {
      assert w.e.s.gens[p.i] == Generator(Building(0), p.i);
    }
  }

  // ---------------------------------------------------------------- what sessions hold

  /** A text over and over. */
  function Repeated(text: Payload, n: nat): Payload {
    if n == 0 then [] else Repeated(text, n - 1) + text
  }

  /** The payload, at least once, and more than once only if that stays below the buffer's size. */
  ghost predicate TextOver(u: Setup, bytes: Payload)
    requires u.cfg.Valid()
  {
    exists n: nat :: n >= 1 && bytes == Repeated(u.Text(), n) && (n > 1 ==> |bytes| < u.size)
  }

  lemma {:induction false} FlatIsRepeated(ps: seq<Payload>, text: Payload)
    requires forall j :: 0 <= j < |ps| ==> ps[j] == text
    ensures Flat(ps) == Repeated(text, |ps|)
  {
    if ps != [] {
      FlatIsRepeated(ps[..|ps| - 1], text);
    }
  }

  /** From end to end, in every reachable state: a live session belongs to the flow of a packet that
      some generator has made, the n-th of its four counters' cycles; and its buffer holds the
      configured payload as often as it was added, at least once, and more than once only if
      that stays below the buffer's size. */
  lemma SessionsHoldText(u: Setup, w: Traffic, steps: seq<(Action, Payload)>, w': Traffic, x: Obj)
    requires u.Valid() && TrafficInit(u, w) && TrafficRun(u, w, steps, w') && Live(w'.e.s, x)
    ensures Generated(u, w'.made, KeyOf(w'.e.s, x))
    ensures TextOver(u, Lookup(w'.e.bytes, x))
  {
    TrafficStart(u, w);
    TrafficRunInv(u, w, steps, w');
    LogIsSessions(w'.e, u.size);
    var ps := w'.e.log[KeyOf(w'.e.s, x)];
    assert AllText(u, ps);
    FlatIsRepeated(ps, u.Text());
    assert |ps| >= 1 && Lookup(w'.e.bytes, x) == Repeated(u.Text(), |ps|);
  }

  /** What a parser reads out of the bytes of a packet in its hands is the packet's key and payload. */
  lemma ParserReads(u: Setup, w: Traffic, steps: seq<(Action, Payload)>, w': Traffic, j: nat, n: nat)
    requires u.Valid() && TrafficInit(u, w) && TrafficRun(u, w, steps, w') && n < |At(w'.e.s.at, ParserPackets(j))|
    ensures var x := At(w'.e.s.at, ParserPackets(j))[n];
      var buf := Buffer(w', x);
      && Format.Readable(buf) && Format.KeyOf(buf) == KeyOf(w'.e.s, x)
      && PayloadRead(u, buf) == Lookup(w'.e.data, x) == u.Text()
  {
    TrafficStart(u, w);
    TrafficRunInv(u, w, steps, w');
    // A packet in a parser's hands has been made.
    var x := At(w'.e.s.at, ParserPackets(j))[n];
    assert Holds(w'.e.s.at, ParserPackets(j), n, x) && Fits(u.c, ParserPackets(j), x);
    RightIsRead(u, w', At(w'.e.s.at, ParserPackets(j))[n]);
  }

  /** What a manager copies out of a packet are the bytes of its payload. */
  lemma ManagerCopies(u: Setup, w: Traffic, steps: seq<(Action, Payload)>, w': Traffic, k: nat, a: ManagerAct)
    requires u.Valid() && TrafficInit(u, w) && TrafficRun(u, w, steps, w')
    requires ManagerEnabled(u.c, w'.e.s, k, a) && (a.CopyNew? || a.Append?)
    ensures Incoming(w'.e, k) == PayloadRead(u, Buffer(w', PacketOf(w'.e.s, Hand(w'.e.s, ManagerFlow(k))))) == u.Text()
  {
    TrafficStart(u, w);
    TrafficRunInv(u, w, steps, w');
    ManagerCarries(u.c, w'.e.s, k);
    assert PacketOf(w'.e.s, Hand(w'.e.s, ManagerFlow(k))) in w'.e.data;
    RightIsRead(u, w', PacketOf(w'.e.s, Hand(w'.e.s, ManagerFlow(k))));
  }

  lemma ManagerCarries(c: Config, s: State, k: nat)
    requires Inv(c, s) && k < c.m && HoldsFlow(s.mans[k]) && !s.mans[k].ReleasingFlow?
    ensures var f := Hand(s, ManagerFlow(k)); Holds(s.at, Carried(f), 0, PacketOf(s, f)) && PacketOf(s, f).Packet?
  {
    var f := Hand(s, ManagerFlow(k));
    assert ManagerShape(s, k);
    assert Holds(s.at, ManagerFlow(k), 0, f) && Fits(c, ManagerFlow(k), f) && CargoOf(s, f, true);
    assert Holds(s.at, Carried(f), 0, PacketOf(s, f));
  }

  lemma RightIsRead(u: Setup, w: Traffic, x: Obj)
    requires u.Valid() && PacketRight(u, w, x)
    ensures Format.Readable(Buffer(w, x)) && Format.KeyOf(Buffer(w, x)) == KeyOf(w.e.s, x)
    ensures PayloadRead(u, Buffer(w, x)) == Lookup(w.e.data, x)
  {
    var n: nat :| 1 <= n <= w.made[x.home] && IsNth(u, w.e.s, Buffer(w, x), x, n);
    Format.ParseOfBuilt(u.cfg, u.Nth(n), Buffer(w, x));
  }
}
