/** The program at a standstill: states, reached over the rings, in which no thread can step.

    With one generator and one parser, flows that are all for the first manager bring it about,
    either if the sweeper has not been started, or if they all go to its first bucket and the
    sweeper is about to enter that.  The program's hashes let arbitrary packets do so for any numbers
    of managers and buckets; with one manager, the packets of a generator's own counters do. */
module PipelineStandstill {
  import opened Common
  import opened Ledger
  import opened FlowKey
  import opened Pipeline
  import opened PipelineProgress
  import opened PipelineWedge
  import opened PipelineRings
  import opened PipelineRingTheorems
  import opened PipelineBytes
  import opened PipelinePackets
  import opened PipelineRingBytes
  import opened PipelineStarvation
  import opened PipelineExhaustion
  import Ideal = PipelineTheorems
  import AddressRange
  import Format = PacketFormat
  import Builder = PacketBuilder

  // ---------------------------------------------------------------- over the rings

  /** The rings, too, let nobody step. */
  ghost predicate RingsStopped(c: Config, m: Machine) { forall a :: !CanStep(c, m, a) }

  ghost predicate Suitable(c: Config, name: Naming, pc: SweeperPc) {
    && Alone(c) && ToFirst(c, name) && NoneAlike(name)
    && (pc == Off || (pc == SIdle(0, 0) && ToOneBucket(c, name)))
  }

  /** Packets with keys of their own, all for the first manager, bring everything to a standstill. */
  lemma StandsStill(c: Config, name: Naming, pc: SweeperPc) returns (m0: Machine, acts: seq<Action>, m: Machine, n: nat)
    requires Suitable(c, name, pc)
    ensures RingInit(c, m0) && Good(m0) && View(m0) == InitialState(c, pc) && HealthyRun(c, m0, acts, m)
    ensures Good(m) && NamedRun(c, name, View(m0), 0, acts, View(m), n)
    ensures RingsStopped(c, m) && |m.s.mans| == c.m && Starved(View(m), 0)
  {
    m0 := InitialMachine(c, pc);
    var s;
    acts, s, n := RunStops(c, name, pc);
    NamedIsRun(c, name, View(m0), 0, acts, s, n);
    m := RunRealized(c, m0, acts, s);
    forall a ensures !CanStep(c, m, a) {
      CanStepIff(c, m, a);
    }
  }

  // ---------------------------------------------------------------- the program's own hashes

  /** Connections whose addresses and ports are all one number. */
  function SameWords(n: nat): Key {
    Key(n / 0x1_0000 % 0x100, n % 0x1_0000, n % 0x1_0000, n % 0x1_0000, n % 0x1_0000)
  }

  function SameNames(): Naming { (n: nat) => SameWords(n) }

  /** Both hashes send all these flows to the first bucket of the first manager. */
  lemma SourceIsOneWay(c: Config)
    requires c.Valid() && c == Ideal.SourceConfig(c.g, c.p, c.m, c.buckets, c.need)
    ensures ToFirst(c, SameNames()) && ToOneBucket(c, SameNames())
  {
    forall n: nat ensures c.ManagerOf(SameNames()(n)) == 0 && c.BucketOf(SameNames()(n)) == 0 {
      assert 0 % c.m == 0 && 0 % c.buckets == 0;
    }
  }

  /** With the program's own hashes, any numbers of managers and buckets, and the sweeper started or
      not, the program can come to a standstill. */
  lemma SourceStandsStill(c: Config, pc: SweeperPc) returns (m: Machine)
    requires Alone(c) && c == Ideal.SourceConfig(c.g, c.p, c.m, c.buckets, c.need) && AtStart(pc)
    ensures Healthy(c, m) && m.s.sweeper == pc && RingsStopped(c, m)
  {
    SameWordsApart();
    SourceIsOneWay(c);
    var m0, acts, n;
    m0, acts, m, n := StandsStill(c, SameNames(), pc);
    SweeperStays(c, SameNames(), View(m0), 0, acts, View(m), n);
  }

  lemma SameWordsApart()
    ensures NoneAlike(SameNames())
  {
    forall n: nat, k: nat | n < NAMES && k < NAMES && SameNames()(n) == SameNames()(k) ensures n == k {
      SameName(n);
      SameName(k);
      SameWordsDiffer(n, k);
    }
  }

  lemma SameName(n: nat)
    ensures SameNames()(n) == SameWords(n)
  {
  }

  lemma SameWordsDiffer(n: nat, k: nat)
    requires n < NAMES && k < NAMES && SameWords(n) == SameWords(k)
    ensures n == k
  {
    assert n == n / 0x1_0000 * 0x1_0000 + n % 0x1_0000 && k == k / 0x1_0000 * 0x1_0000 + k % 0x1_0000;
  }

  lemma {:induction false} SweeperStays(c: Config, name: Naming, s: State, n: nat, acts: seq<Action>, t: State, n': nat)
    requires NamedRun(c, name, s, n, acts, t, n')
    ensures t.sweeper == s.sweeper
    decreases |acts|
  {
    if acts != [] {
      var s1, n1: nat :| NamedStep(c, name, s, n, acts[0], s1, n1) && NamedRun(c, name, s1, n1, acts[1..], t, n');
      SweeperStays(c, name, s1, n1, acts[1..], t, n');
    }
  }

  // ---------------------------------------------------------------- a generator's own packets

  /** A configuration whose source addresses take 131072 values or more, with one destination address. */
  predicate ManySources(u: Setup) {
    && u.cfg.saddrMin <= u.start.saddr <= u.cfg.saddrMax && u.cfg.saddrMax - u.cfg.saddrMin + 1 >= NAMES
    && u.cfg.daddrMin == u.start.daddr == u.cfg.daddrMax
  }

  ghost function OwnNames(u: Setup): Naming { (n: nat) => u.FlowOf(n + 1) }

  lemma OwnAddressesDiffer(u: Setup, n: nat, k: nat)
    requires ManySources(u) && n < NAMES && k < NAMES && n != k
    ensures u.Nth(n + 1).saddr != u.Nth(k + 1).saddr && u.Nth(n + 1).daddr == u.Nth(k + 1).daddr
  {
    Builder.AfterIs(u.cfg, u.start, n + 1);
    AddressRange.InRange(u.start.daddr, u.cfg.daddrMin, u.cfg.daddrMax, n + 1);
    Builder.AfterIs(u.cfg, u.start, k + 1);
    AddressRange.InRange(u.start.daddr, u.cfg.daddrMin, u.cfg.daddrMax, k + 1);
    // Within one round of the range no value comes twice.
    var min, max := u.cfg.saddrMin, u.cfg.saddrMax;
    AddressRange.InRange(u.start.saddr, min, max, n + 1);
    var once := AddressRange.EachOnce(u.start.saddr, min, max, 1, AddressRange.Times(u.start.saddr, min, max, n + 1));
  }

  lemma OwnPair(u: Setup, n: nat, k: nat)
    requires ManySources(u) && n < NAMES && k < NAMES && OwnNames(u)(n) == OwnNames(u)(k)
    ensures n == k
  {
    if n != k {
      OwnAddressesDiffer(u, n, k);
      // Flows from different sources to one destination are different.
      var x, y := u.Nth(n + 1), u.Nth(k + 1);
      Format.OrderedPair(Format.RawAddress(x.saddr), Format.RawAddress(x.daddr), Format.RawAddress(y.saddr), Format.RawAddress(y.daddr));
      Format.RawAddressInjective(x.saddr, y.saddr);
    }
  }

  /** A run of this kind over the packets' bytes, whose keys are those that a parser reads out of them. */
  lemma {:induction false} OwnTraffic(u: Setup, w: Traffic, acts: seq<Action>, t: State, n: nat, n': nat)
      returns (steps: seq<(Action, Payload)>, w': Traffic)
    requires TrafficInv(u, w) && u.c.g == 1 && w.made == [n] && NamedRun(u.c, OwnNames(u), w.e.s, n, acts, t, n')
    ensures TrafficRun(u, w, steps, w') && Actions(steps) == acts && w'.e.s == t
    decreases |acts|
  {
    steps, w' := [], w;
    if acts != [] {
      var s1, n1: nat :| NamedStep(u.c, OwnNames(u), w.e.s, n, acts[0], s1, n1) && NamedRun(u.c, OwnNames(u), s1, n1, acts[1..], t, n');
      var content, w1 := OwnStep(u, w, n, acts[0], s1, n1);
      steps, w' := OwnTraffic(u, w1, acts[1..], t, n1, n');
      assert ([(acts[0], content)] + steps)[1..] == steps;
      steps := [(acts[0], content)] + steps;
    }
  }

  lemma OwnStep(u: Setup, w: Traffic, n: nat, a: Action, s1: State, n1: nat) returns (content: Payload, w1: Traffic)
    requires TrafficInv(u, w) && u.c.g == 1 && w.made == [n] && NamedStep(u.c, OwnNames(u), w.e.s, n, a, s1, n1)
    ensures Goes(u, w, a, content) && w1 == NextTraffic(u, w, a, content)
    ensures TrafficInv(u, w1) && w1.e.s == s1 && w1.made == [n1]
  {
    content := u.Text();
    OwnLabel(u, w, n, a, s1, n1, content);
    w1 := NextTraffic(u, w, a, content);
    TrafficStep(u, w, a, content);
    OwnCount(u, w, n, a, content);
  }

  /** The key that the run gives a packet is the one in its bytes. */
  lemma OwnLabel(u: Setup, w: Traffic, n: nat, a: Action, s1: State, n1: nat, content: Payload)
    requires TrafficInv(u, w) && u.c.g == 1 && w.made == [n] && NamedStep(u.c, OwnNames(u), w.e.s, n, a, s1, n1) && content == u.Text()
    ensures Labelled(u, w, a, content)
  {
    if Writes(a) {
      WrittenLabel(u, w, n, a, content);
    }
  }

  lemma WrittenLabel(u: Setup, w: Traffic, n: nat, a: Action, content: Payload)
    requires TrafficInv(u, w) && u.c.g == 1 && w.made == [n] && Enabled(u.c, w.e.s, a) && Writes(a) && content == u.Text()
    requires (if a.g.BuildPut? then a.g.built else a.g.stamp) == u.FlowOf(n + 1)
    ensures Labelled(u, w, a, content)
  {
    WrittenReads(u, w, a);
  }

  lemma OwnCount(u: Setup, w: Traffic, n: nat, a: Action, content: Payload)
    requires Goes(u, w, a, content) && w.made == [n]
    ensures NextTraffic(u, w, a, content).made == [n + Stamps(a)]
    ensures NextTraffic(u, w, a, content).e.s == Step(u.c, w.e.s, a)
  {
  }

  /** The memory before the start: packets as allocated, nothing written. */
  lemma FreshTraffic(u: Setup, s: State) returns (w: Traffic)
    requires u.Valid() && u.c.g == 1 && Init(u.c, s)
    ensures TrafficInit(u, w) && w.e.s == s
  {
    var empty := seq(u.cfg.pktlen + Format.PAY_LEN, _ => 0);
    var bufs := map n | 0 <= n < RING_CAPACITY :: Packet(0, n) := empty;
    w := Traffic(Memory(s, map[], map[], map[], map[]), bufs, [u.start], [0]);
  }

  /** With one generator, one parser and one manager, as configured by default, and `pipe_depth` raised to
      5 only after the start, a configuration of 131072 source addresses or more stops the program:
      bytes, parser and rings included. */
  lemma OwnPacketsStandStill(u: Setup) returns (m0: Machine, w0: Traffic, steps: seq<(Action, Payload)>, m: Machine, w: Traffic)
    requires u.Valid() && Alone(u.c) && u.c.m == 1 && ManySources(u)
    ensures RingInit(u.c, m0) && InOrder(m0) && TrafficInit(u, w0) && w0.e.s == View(m0) && m0.s.sweeper == Off
    ensures HealthyRun(u.c, m0, Actions(steps), m) && TrafficRun(u, w0, steps, w) && InOrder(m) && w.e.s == View(m)
    ensures RingsStopped(u.c, m)
  {
    OwnApart(u);
    var acts, n;
    m0, acts, m, n := StandsStill(u.c, OwnNames(u), Off);
    InitRefines(u.c, m0);
    w0 := FreshTraffic(u, View(m0));
    TrafficStart(u, w0);
    steps, w := OwnTraffic(u, w0, acts, View(m), 0, n);
  }

  /** Its packets belong to as many flows. */
  lemma OwnApart(u: Setup)
    requires ManySources(u)
    ensures NoneAlike(OwnNames(u))
  {
    forall n: nat, k: nat | n < NAMES && k < NAMES && OwnNames(u)(n) == OwnNames(u)(k) ensures n == k {
      OwnPair(u, n, k);
    }
  }
}
