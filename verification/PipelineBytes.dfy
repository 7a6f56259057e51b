/** What is in the sessions while the pipeline runs.

    Managers and the sweeper work on the buckets concurrently, and nodes are reused.  Beside the
    memory of packets and session buffers, a log records which payloads were added under each
    key since its session was created; in every reachable state the live sessions are exactly
    the keys of the log, and each buffer holds the logged payloads one after the other. */
module PipelineBytes {
  import opened Common
  import opened Ledger
  import opened FlowKey
  import opened Pipeline
  import opened PipelineInvariant
  import opened PipelineSafety
  import opened PipelineTheorems

  type Payload = seq<Byte>
  type Log = map<Key, seq<Payload>>

  /** `data` is the payload in a packet's memory, `bytes` what a session node's buffer holds, and
      `parsed` the payload that a flow item was made from. */
  datatype Memory = Memory(s: State, data: map<Obj, Payload>, bytes: map<Obj, Payload>, parsed: map<Obj, Payload>, log: Log)

  function Lookup(m: map<Obj, Payload>, x: Obj): Payload { if x in m then m[x] else [] }

  function Flat(ps: seq<Payload>): Payload {
    if ps == [] then [] else Flat(ps[..|ps| - 1]) + ps[|ps| - 1]
  }

  /** What adding a payload means: a new session, a longer one, or none. */
  function Logged(log: Log, key: Key, payload: Payload, size: BufferSize): Log {
    if key !in log then log[key := [payload]]
    else if |Flat(log[key])| + |payload| < size then log[key := log[key] + [payload]]
    else log - {key}
  }

  // ---------------------------------------------------------------- steps

  /** The payload that manager `k` reads through its flow item. */
  function Incoming(e: Memory, k: nat): Payload {
    Lookup(e.data, PacketOf(e.s, Hand(e.s, ManagerFlow(k))))
  }

  /** The node that manager `k` has found, or the sweeper is about to unlink. */
  function NodeAt(s: State, m: nat, b: nat, pos: nat): Obj {
    if pos < |At(s.at, Bucket(m, b))| then At(s.at, Bucket(m, b))[pos] else Session(0, 0)
  }

  function FoundNode(s: State, k: nat): Obj {
    if k < |s.mans| && s.mans[k].Found? then NodeAt(s, k, s.mans[k].b, s.mans[k].pos) else Session(0, 0)
  }

  /** The node that the action makes a session of, or that it extends, or whose session it ends. */
  function Node(s: State, a: Action): Obj {
    if a.ByManager? && a.m.CopyNew? then Hand(s, ManagerSession(a.k))
    else if a.ByManager? then FoundNode(s, a.k)
    else if a.BySweeper? && a.w.SweepUnlink? && s.sweeper.Walking? then NodeAt(s, s.sweeper.m, s.sweeper.b, a.w.pos)
    else Session(0, 0)
  }

  /** The test goes by the payload length in the flow item, not by the packet. */
  predicate HasRoom(e: Memory, a: Action, size: BufferSize)
    requires a.ByManager?
  {
    PassesTest(|Lookup(e.bytes, Node(e.s, a))|, |Lookup(e.parsed, Hand(e.s, ManagerFlow(a.k)))|, size)
  }

  /** Payloads fit a session buffer of `size` bytes; a found session is extended if there is
      room, and evicted otherwise. */
  predicate Allowed(c: Config, size: BufferSize, e: Memory, a: Action, content: Payload) {
    && Enabled(c, e.s, a)
    && (a.ByGenerator? && a.g.BuildPut? ==> |content| <= size)
    && (a.ByManager? && a.m.Append? ==> HasRoom(e, a, size))
    && (a.ByManager? && a.m.Evict? ==> !HasRoom(e, a, size))
  }

  function PayloadsOf(e: Memory, xs: seq<Obj>): seq<Payload> {
    seq(|xs|, n requires 0 <= n < |xs| => Lookup(e.data, xs[n]))
  }

  function NextData(e: Memory, a: Action, content: Payload): map<Obj, Payload> {
    if a.ByGenerator? && a.g.BuildPut? then e.data[Hand(e.s, GeneratorHand(a.i)) := content] else e.data
  }

  function NextParsed(e: Memory, a: Action): map<Obj, Payload> {
    if a.ByParser? && a.p.Fill? && |At(e.s.at, ParserFlows(a.j))| == |At(e.s.at, ParserPackets(a.j))| then
      FillAll(e.parsed, At(e.s.at, ParserFlows(a.j)), PayloadsOf(e, At(e.s.at, ParserPackets(a.j))))
    else e.parsed
  }

  /** A new session takes the incoming payload, a found one is extended by it. */
  function NextBytes(e: Memory, a: Action): map<Obj, Payload> {
    if a.ByManager? && a.m.CopyNew? then e.bytes[Node(e.s, a) := Incoming(e, a.k)]
    else if a.ByManager? && a.m.Append? then e.bytes[Node(e.s, a) := Lookup(e.bytes, Node(e.s, a)) + Incoming(e, a.k)]
    else e.bytes
  }

  function NextLog(e: Memory, a: Action, size: BufferSize): Log {
    if a.ByManager? && (a.m.CopyNew? || a.m.Append? || a.m.Evict?) then LogOf(e, a.k, size)
    else if a.BySweeper? && a.w.SweepUnlink? then e.log - {KeyOf(e.s, Node(e.s, a))}
    else e.log
  }

  function Next(c: Config, size: BufferSize, e: Memory, a: Action, content: Payload): Memory
    requires Allowed(c, size, e, a, content)
  {
    Memory(Step(c, e.s, a), NextData(e, a, content), NextBytes(e, a), NextParsed(e, a), NextLog(e, a, size))
  }

  /** The log with what manager `k` adds: the key and payload its flow item was made with. */
  function LogOf(e: Memory, k: nat, size: BufferSize): Log {
    var f := Hand(e.s, ManagerFlow(k));
    Logged(e.log, KeyOf(e.s, f), Lookup(e.parsed, f), size)
  }

  ghost predicate MemoryRun(c: Config, size: BufferSize, e: Memory, acts: seq<(Action, Payload)>, e': Memory)
    decreases |acts|
  {
    if acts == [] then e == e'
    else
      && Allowed(c, size, e, acts[0].0, acts[0].1)
      && MemoryRun(c, size, Next(c, size, e, acts[0].0, acts[0].1), acts[1..], e')
  }

  /** Nothing has been built, parsed or filed yet; buffers hold anything. */
  ghost predicate MemoryInit(c: Config, e: Memory) {
    Init(c, e.s) && e.data == map[] && e.parsed == map[] && e.log == map[]
  }

  // ---------------------------------------------------------------- live sessions

  /** Where live sessions are: in the buckets, and in the hand of a manager that has filled a
      new one and not linked it yet. */
  predicate LivePlace(s: State, p: Place) {
    p.Bucket? || (p.ManagerSession? && p.i < |s.mans| && IsFresh(s.mans[p.i]))
  }

  predicate IsFresh(pc: ManagerPc) {
    pc.Linking? || ((pc.ReleasingPacket? || pc.ReleasingFlow?) && pc.mode.Fresh?)
  }

  ghost predicate Live(s: State, x: Obj) {
    exists p, i {:trigger Holds(s.at, p, i, x)} :: Holds(s.at, p, i, x) && LivePlace(s, p)
  }

  /** A live session is where the hashes of its key say. */
  lemma LiveRouted(c: Config, s: State, p: Place, i: int, x: Obj)
    requires Inv(c, s) && Holds(s.at, p, i, x) && LivePlace(s, p)
    ensures x.Session? && c.ManagerOf(KeyOf(s, x)) == p.i
    ensures p.Bucket? ==> c.BucketOf(KeyOf(s, x)) == p.b
    ensures p.ManagerSession? ==> p.i < c.m && i == 0 && Hand(s, p) == x
  {
    assert Fits(c, p, x);
    if p.ManagerSession? {
      assert ManagerShape(s, p.i) && ManagerKnows(c, s, p.i);
    }
  }

  // ---------------------------------------------------------------- which steps make and end sessions

  /** Actions that make a session, end one, or neither. */
  predicate Makes(a: Action) { a.ByManager? && a.m.CopyNew? }

  predicate Ends(a: Action) { (a.ByManager? && a.m.Evict?) || (a.BySweeper? && a.w.SweepUnlink?) }

  /** The actions that write into the packet in a generator's hand. */
  predicate Writes(a: Action) { a.ByGenerator? && (a.g.BuildPut? || a.g.Patch?) }

  predicate Fills(a: Action) { a.ByParser? && a.p.Fill? }

  /** The only keys that change are those of a packet being written, of a node being made a
      session, and of flow items being filled. */
  lemma KeyKept(c: Config, s: State, a: Action, x: Obj)
    requires Enabled(c, s, a)
    requires Writes(a) ==> x != Hand(s, GeneratorHand(a.i))
    requires Makes(a) ==> x != Node(s, a)
    requires Fills(a) ==> Unique(s.at) && x !in At(s.at, ParserFlows(a.j))
    ensures KeyOf(Step(c, s, a), x) == KeyOf(s, x)
  {
    if Fills(a) {
      FillEffect(c, s, a.j);
    }
  }

  /** Whose keys these are. */
  lemma WrittenKinds(c: Config, s: State, a: Action)
    requires Inv(c, s) && Enabled(c, s, a)
    ensures Writes(a) ==> Holds(s.at, GeneratorHand(a.i), 0, Hand(s, GeneratorHand(a.i))) && Hand(s, GeneratorHand(a.i)).Packet?
    ensures Makes(a) ==> Holds(s.at, ManagerSession(a.k), 0, Node(s, a)) && Node(s, a).Session?
    ensures Fills(a) ==> forall f :: f in At(s.at, ParserFlows(a.j)) ==> f.Flow?
  {
    if Writes(a) {
      assert GeneratorShape(c, s, a.i) && Holds(s.at, GeneratorHand(a.i), 0, Hand(s, GeneratorHand(a.i)));
    } else if Makes(a) {
      assert ManagerShape(s, a.k) && Holds(s.at, ManagerSession(a.k), 0, Node(s, a));
    } else if Fills(a) {
      Elementwise(s.at, ParserFlows(a.j));
    }
  }

  lemma SessionKeyKept(c: Config, s: State, a: Action, x: Obj)
    requires Inv(c, s) && Enabled(c, s, a) && x.Session? && !(Makes(a) && x == Node(s, a))
    ensures KeyOf(Step(c, s, a), x) == KeyOf(s, x)
  {
    WrittenKinds(c, s, a);
    KeyKept(c, s, a, x);
  }

  /** A transfer that stays away from live sessions. */
  lemma LiveQuiet(s: State, s': State, t: Transfer, x: Obj)
    requires Available(s.at, t) && s'.at == Carry(s.at, t) && s'.mans == s.mans
    requires t.Transfer? ==> !LivePlace(s, t.from) && !LivePlace(s, t.to)
    ensures Live(s', x) <==> Live(s, x)
  {
    CarryAt(s.at, t);
    forall p, i | Holds(s.at, p, i, x) && LivePlace(s, p) ensures Live(s', x) {
      assert Holds(s'.at, p, i, x);
    }
    forall p, i | Holds(s'.at, p, i, x) && LivePlace(s', p) ensures Live(s, x) {
      assert Holds(s.at, p, i, x);
    }
  }

  lemma PlaceStaysLive(c: Config, s: State, k: nat, a: ManagerAct, p: Place)
    requires ManagerEnabled(c, s, k, a) && !a.CopyNew? && !a.Evict? && LivePlace(s, p) && !(a.LinkNode? && p == ManagerSession(k))
    ensures LivePlace(ManagerStep(c, s, k, a), p)
    ensures var t := ManagerMoves(s, k, a); t.Transfer? ==> t.from != p
  {
  }

  lemma WasLive(c: Config, s: State, k: nat, a: ManagerAct, p: Place, i: int, x: Obj)
    requires ManagerEnabled(c, s, k, a) && !a.CopyNew? && !a.Evict?
    requires Holds(ManagerStep(c, s, k, a).at, p, i, x) && LivePlace(ManagerStep(c, s, k, a), p)
    ensures Live(s, x)
  {
    CarryOrigin(s.at, ManagerMoves(s, k, a), p, i, x);
  }

  /** A manager's steps other than making and ending sessions. */
  lemma LiveManager(c: Config, s: State, k: nat, a: ManagerAct, x: Obj)
    requires Inv(c, s) && ManagerEnabled(c, s, k, a) && !a.CopyNew? && !a.Evict?
    ensures Live(ManagerStep(c, s, k, a), x) <==> Live(s, x)
  {
    if Live(s, x) {
      var p, i :| Holds(s.at, p, i, x) && LivePlace(s, p);
      StaysLive(c, s, k, a, p, i, x);
    }
    var s' := ManagerStep(c, s, k, a);
    if Live(s', x) {
      var p, i :| Holds(s'.at, p, i, x) && LivePlace(s', p);
      WasLive(c, s, k, a, p, i, x);
    }
  }

  lemma StaysLive(c: Config, s: State, k: nat, a: ManagerAct, p: Place, i: int, x: Obj)
    requires Inv(c, s) && ManagerEnabled(c, s, k, a) && !a.CopyNew? && !a.Evict? && Holds(s.at, p, i, x) && LivePlace(s, p)
    ensures Live(ManagerStep(c, s, k, a), x)
  {
    var s', t := ManagerStep(c, s, k, a), ManagerMoves(s, k, a);
    assert ManagerShape(s, k);
    CarryAt(s.at, t);
    if a.LinkNode? && p == ManagerSession(k) {
      assert Holds(s'.at, t.to, |At(s.at, t.to)|, x);
    } else {
      PlaceStaysLive(c, s, k, a, p);
      assert Holds(s'.at, p, i, x);
    }
  }

  /** Making a session makes its node live, and no other. */
  lemma LiveMade(c: Config, s: State, k: nat, x: Obj)
    requires Inv(c, s) && ManagerEnabled(c, s, k, CopyNew)
    ensures Live(ManagerStep(c, s, k, CopyNew), x) <==> Live(s, x) || x == Hand(s, ManagerSession(k))
  {
    var s', n := ManagerStep(c, s, k, CopyNew), Hand(s, ManagerSession(k));
    assert ManagerShape(s, k);
    assert s'.at == s.at && Holds(s'.at, ManagerSession(k), 0, n) && LivePlace(s', ManagerSession(k));
    forall p, i | Holds(s.at, p, i, x) && LivePlace(s, p) ensures Live(s', x) {
      assert Holds(s'.at, p, i, x) && LivePlace(s', p);
    }
    forall p, i | Holds(s'.at, p, i, x) && LivePlace(s', p) ensures Live(s, x) || x == n {
      assert Holds(s.at, p, i, x);
    }
  }

  /** A node that leaves its bucket for a hand where nothing is live, and the rest stays. */
  lemma LiveEnded(s: State, s': State, t: Transfer, x: Obj)
    requires Unique(s.at) && Available(s.at, t) && t.Transfer? && t.from.Bucket? && t.n == 1 && s'.at == Carry(s.at, t)
    requires !LivePlace(s', t.to)
    requires forall p :: p != t.to ==> LivePlace(s', p) == LivePlace(s, p)
    requires !LivePlace(s, t.to)
    ensures Live(s', x) <==> Live(s, x) && x != At(s.at, t.from)[t.k]
  {
    var n := At(s.at, t.from)[t.k];
    CarryAt(s.at, t);
    assert Holds(s.at, t.from, t.k, n);
    forall p, i | Holds(s.at, p, i, x) && LivePlace(s, p) && x != n ensures Live(s', x) {
      assert Holds(s'.at, p, if p == t.from && i > t.k then i - 1 else i, x);
    }
    forall p, i | Holds(s'.at, p, i, x) && LivePlace(s', p) ensures Live(s, x) && x != n {
      assert Holds(s.at, p, if p == t.from && i >= t.k then i + 1 else i, x);
    }
  }

  lemma LiveEndedAfter(c: Config, s: State, a: Action, x: Obj)
    requires Inv(c, s) && Enabled(c, s, a) && Ends(a)
    ensures Live(Step(c, s, a), x) <==> Live(s, x) && x != Node(s, a)
  {
    StepMoves(c, s, a);
    LiveEnded(s, Step(c, s, a), Moves(c, s, a), x);
  }

  /** What any step does to the live sessions. */
  lemma LiveAfter(c: Config, s: State, a: Action, x: Obj)
    requires Inv(c, s) && Enabled(c, s, a)
    ensures Live(Step(c, s, a), x) <==>
      if Makes(a) then Live(s, x) || x == Node(s, a)
      else if Ends(a) then Live(s, x) && x != Node(s, a)
      else Live(s, x)
  {
    if Ends(a) {
      LiveEndedAfter(c, s, a, x);
    } else if Makes(a) {
      LiveMade(c, s, a.k, x);
    } else if a.ByManager? {
      LiveManager(c, s, a.k, a.m, x);
    } else {
      StepMoves(c, s, a);
      LiveQuiet(s, Step(c, s, a), Moves(c, s, a), x);
    }
  }

  // ---------------------------------------------------------------- sessions and their log

  predicate Agrees(key: Key, bytes: Payload, log: Log, size: BufferSize) {
    key in log && Flat(log[key]) == bytes && |bytes| <= size
  }

  /** Some live session has the key. */
  ghost predicate HasSession(live: iset<Obj>, key: Obj -> Key, k: Key) {
    exists x :: x in live && key(x) == k
  }

  /** No two live sessions have one key. */
  ghost predicate DifferentKeys(live: iset<Obj>, key: Obj -> Key) {
    forall x, y :: x in live && y in live && key(x) == key(y) ==> x == y
  }

  /** Sessions of different keys, whose buffers hold what is logged under their keys, and a log
      that has nothing else. */
  ghost predicate Corresponds(live: iset<Obj>, key: Obj -> Key, bytes: map<Obj, Payload>, log: Log, size: BufferSize) {
    && DifferentKeys(live, key)
    && (forall x :: x in live ==> Agrees(key(x), Lookup(bytes, x), log, size))
    && (forall k :: k in log ==> HasSession(live, key, k))
  }

  lemma CorrespondsStill(live: iset<Obj>, key: Obj -> Key, key': Obj -> Key, bytes: map<Obj, Payload>, log: Log, size: BufferSize)
    requires Corresponds(live, key, bytes, log, size)
    requires forall x :: x in live ==> key'(x) == key(x)
    ensures Corresponds(live, key', bytes, log, size)
  {
    forall k | k in log ensures HasSession(live, key', k) {
      assert HasSession(live, key, k);
    }
  }

  lemma CorrespondsLess(live: iset<Obj>, key: Obj -> Key, bytes: map<Obj, Payload>, log: Log, size: BufferSize, n: Obj)
    requires Corresponds(live, key, bytes, log, size) && n in live
    ensures Corresponds(live - iset{n}, key, bytes, log - {key(n)}, size)
  {
    forall k | k in log - {key(n)} ensures HasSession(live - iset{n}, key, k) {
      assert HasSession(live, key, k);
      var x :| x in live && key(x) == k;
      assert x in live - iset{n};
    }
  }

  lemma CorrespondsLonger(live: iset<Obj>, key: Obj -> Key, bytes: map<Obj, Payload>, log: Log, size: BufferSize, n: Obj, p: Payload)
    requires Corresponds(live, key, bytes, log, size) && n in live && |Lookup(bytes, n)| + |p| < size
    ensures Corresponds(live, key, bytes[n := Lookup(bytes, n) + p], Logged(log, key(n), p, size), size)
  {
    var log', bytes' := log[key(n) := log[key(n)] + [p]], bytes[n := Lookup(bytes, n) + p];
    assert Agrees(key(n), Lookup(bytes, n), log, size);
    assert Logged(log, key(n), p, size) == log';
    forall x | x in live ensures Agrees(key(x), Lookup(bytes', x), log', size) {
      FlatAppend(log[key(n)], p);
    }
    forall k | k in log' ensures HasSession(live, key, k) {
      assert k in log;
    }
  }

  lemma CorrespondsMore(live: iset<Obj>, key: Obj -> Key, key': Obj -> Key, bytes: map<Obj, Payload>, log: Log, size: BufferSize, n: Obj, p: Payload)
    requires Corresponds(live, key, bytes, log, size) && n !in live && |p| <= size
    requires forall x :: x in live ==> key'(x) == key(x) && key(x) != key'(n)
    ensures Corresponds(live + iset{n}, key', bytes[n := p], Logged(log, key'(n), p, size), size)
  {
    CorrespondsStill(live, key, key', bytes, log, size);
    assert key'(n) in log ==> HasSession(live, key', key'(n));
    forall x | x in live + iset{n} ensures Agrees(key'(x), Lookup(bytes[n := p], x), log[key'(n) := [p]], size) {
      MoreAgrees(live, key', bytes, log, size, n, p, x);
    }
    forall k | k in log[key'(n) := [p]] ensures HasSession(live + iset{n}, key', k) {
      MoreCovered(live, key', log, n, k);
    }
  }

  lemma MoreAgrees(live: iset<Obj>, key: Obj -> Key, bytes: map<Obj, Payload>, log: Log, size: BufferSize, n: Obj, p: Payload, x: Obj)
    requires x == n || (x in live && key(x) != key(n) && Agrees(key(x), Lookup(bytes, x), log, size))
    requires |p| <= size
    ensures Agrees(key(x), Lookup(bytes[n := p], x), log[key(n) := [p]], size)
  {
    FlatAppend([], p);
    assert [] + [p] == [p];
  }

  lemma MoreCovered(live: iset<Obj>, key: Obj -> Key, log: Log, n: Obj, k: Key)
    requires k == key(n) || (k in log && HasSession(live, key, k))
    ensures HasSession(live + iset{n}, key, k)
  {
    if k == key(n) {
      assert n in live + iset{n};
    } else {
      var x :| x in live && key(x) == k;
      assert x in live + iset{n};
    }
  }

  lemma FlatAppend(ps: seq<Payload>, p: Payload)
    ensures Flat(ps + [p]) == Flat(ps) + p
  {
    assert (ps + [p])[..|ps|] == ps;
  }

  ghost function LiveSet(s: State): iset<Obj> { iset x | Live(s, x) }

  ghost function KeyIn(s: State): Obj -> Key { x => KeyOf(s, x) }

  /** Live sessions and log entries correspond. */
  ghost predicate SessionsLogged(e: Memory, size: BufferSize) {
    Corresponds(LiveSet(e.s), KeyIn(e.s), e.bytes, e.log, size)
  }

  /** What a step does to the set of live sessions, and to their keys. */
  lemma LiveSetAfter(c: Config, s: State, a: Action)
    requires Inv(c, s) && Enabled(c, s, a)
    ensures LiveSet(Step(c, s, a)) ==
      if Makes(a) then LiveSet(s) + iset{Node(s, a)} else if Ends(a) then LiveSet(s) - iset{Node(s, a)} else LiveSet(s)
  {
    forall x ensures Live(Step(c, s, a), x) <==>
        if Makes(a) then Live(s, x) || x == Node(s, a) else if Ends(a) then Live(s, x) && x != Node(s, a) else Live(s, x)
    {
      LiveAfter(c, s, a, x);
    }
  }

  lemma LiveKeysAfter(c: Config, s: State, a: Action, x: Obj)
    requires Inv(c, s) && Enabled(c, s, a) && x in LiveSet(s) && !(Makes(a) && x == Node(s, a))
    ensures KeyIn(Step(c, s, a))(x) == KeyIn(s)(x)
  {
    var p, i :| Holds(s.at, p, i, x) && LivePlace(s, p);
    LiveRouted(c, s, p, i, x);
    SessionKeyKept(c, s, a, x);
  }

  // ---------------------------------------------------------------- payloads on their way

  /** Where flow items are once they have been made from a packet. */
  predicate InUse(s: State, p: Place) {
    || p.ManagerQueue? || p.ManagerFlow?
    || (p.ParserFlows? && p.i < |s.pars| && (s.pars[p.i].Filled? || s.pars[p.i].Handing? || s.pars[p.i].Offering?))
  }

  ghost predicate Parsed(e: Memory) {
    forall p: Place, i, f: Obj {:trigger Holds(e.s.at, p, i, f)} ::
      Holds(e.s.at, p, i, f) && f.Flow? && InUse(e.s, p) ==> f in e.parsed
  }

  /** The packet of a flow item still holds the payload that was parsed; it is past building. */
  predicate Unchanged(e: Memory, f: Obj) {
    var x := PacketOf(e.s, f);
    Lookup(e.data, x) == Lookup(e.parsed, f) && x.home < |e.s.gens| && !IsBuilding(e.s, x.home)
  }

  ghost predicate Payloads(e: Memory, size: BufferSize) {
    && Parsed(e)
    && (forall f {:trigger f in e.parsed} :: f in e.parsed ==> Unchanged(e, f))
    && (forall x {:trigger Lookup(e.data, x)} :: |Lookup(e.data, x)| <= size)
  }

  /** Building happens once. */
  lemma NeverBuildsAgain(c: Config, s: State, a: Action, h: nat)
    requires Enabled(c, s, a) && h < |s.gens| && !IsBuilding(s, h)
    ensures h < |Step(c, s, a).gens| && !IsBuilding(Step(c, s, a), h)
  {
    if !a.ByGenerator? {
      GeneratorsStay(c, s, a);
    }
  }

  lemma GeneratorsStay(c: Config, s: State, a: Action)
    requires Enabled(c, s, a) && !a.ByGenerator?
    ensures Step(c, s, a).gens == s.gens
  {
  }

  lemma ArrivesInUse(c: Config, s: State, a: Action)
    requires Enabled(c, s, a) && !Fills(a)
    ensures var t, s' := Moves(c, s, a), Step(c, s, a);
      && (forall p :: InUse(s', p) && !(t.Transfer? && p == t.to) ==> InUse(s, p))
      && (t.Transfer? && InUse(s', t.to) && (t.to.ManagerQueue? || t.to.ManagerFlow?) ==> InUse(s, t.from))
      && (t.Transfer? && t.to.ParserFlows? ==> !InUse(s', t.to))
  {
    // The threads behave differently here.
    match a
    case ByGenerator(_, _) =>
    case ByParser(_, _) =>
    case ByManager(_, _) =>
    case BySweeper(_) =>
  }

  lemma ParsedKept(c: Config, e: Memory, a: Action, e': Memory)
    requires Inv(c, e.s) && Parsed(e) && Enabled(c, e.s, a) && !Fills(a)
    requires e'.s == Step(c, e.s, a) && e'.parsed == e.parsed
    ensures Parsed(e')
  {
    forall p: Place, i, f: Obj | Holds(e'.s.at, p, i, f) && f.Flow? && InUse(e'.s, p) ensures f in e'.parsed {
      // A flow item in use was in use before, unless it has just been made.
      StepMoves(c, e.s, a);
      var t := Moves(c, e.s, a);
      CarryOrigin(e.s.at, t, p, i, f);
      var (q, j) := OriginOf(e.s.at, t, p, i);
      assert Fits(c, q, f);
      ArrivesInUse(c, e.s, a);
    }
  }

  // ---------------------------------------------------------------- what every step keeps

  ghost predicate MemoryInv(c: Config, size: BufferSize, e: Memory) {
    Inv(c, e.s) && Payloads(e, size) && SessionsLogged(e, size)
  }

  lemma BuiltPayloads(c: Config, size: BufferSize, e: Memory, i: nat, key: Key, content: Payload, e': Memory)
    requires Inv(c, e.s) && Payloads(e, size) && GeneratorEnabled(c, e.s, i, BuildPut(key)) && |content| <= size
    requires e'.s == GeneratorStep(c, e.s, i, BuildPut(key)) && e'.parsed == e.parsed
    requires e'.data == e.data[Hand(e.s, GeneratorHand(i)) := content]
    ensures Payloads(e', size)
  {
    var a, x := ByGenerator(i, BuildPut(key)), Hand(e.s, GeneratorHand(i));
    ParsedKept(c, e, a, e');
    assert GeneratorShape(c, e.s, i);
    assert Holds(e.s.at, GeneratorHand(i), 0, x) && Fits(c, GeneratorHand(i), x);
    forall f | f in e'.parsed ensures Unchanged(e', f) {
      assert Unchanged(e, f);
      NeverBuildsAgain(c, e.s, a, PacketOf(e.s, f).home);
    }
    assert forall y :: Lookup(e'.data, y) == if y == x then content else Lookup(e.data, y);
  }

  lemma FilledParsed(c: Config, e: Memory, j: nat, e': Memory)
    requires Parsed(e) && ParserEnabled(c, e.s, j, Fill) && e'.s == ParserStep(c, e.s, j, Fill)
    requires forall f :: f in e.parsed || f in At(e.s.at, ParserFlows(j)) ==> f in e'.parsed
    ensures Parsed(e')
  {
    forall p: Place, i, f: Obj | Holds(e'.s.at, p, i, f) && f.Flow? && InUse(e'.s, p) ensures f in e'.parsed {
      assert Holds(e.s.at, p, i, f);
    }
  }

  lemma FilledUnchanged(c: Config, e: Memory, j: nat, e': Memory, f: Obj)
    requires Inv(c, e.s) && ParserEnabled(c, e.s, j, Fill) && e'.s == ParserStep(c, e.s, j, Fill) && e'.data == e.data
    requires var flows := At(e.s.at, ParserFlows(j));
      forall n :: 0 <= n < |flows| ==> Lookup(e'.parsed, flows[n]) == Lookup(e.data, At(e.s.at, ParserPackets(j))[n])
    requires f !in At(e.s.at, ParserFlows(j)) ==> Lookup(e'.parsed, f) == Lookup(e.parsed, f) && Unchanged(e, f)
    ensures Unchanged(e', f)
  {
    var flows := At(e.s.at, ParserFlows(j));
    FillEffect(c, e.s, j);
    if f in flows {
      var n :| 0 <= n < |flows| && flows[n] == f;
      // A packet outside its pool and its generator's hand is past building.
      Elementwise(e.s.at, ParserPackets(j));
      PacketRoom(c, e.s.at, j % c.g, ParserPackets(j));
      assert GeneratorShape(c, e.s, j % c.g);
    }
  }

  lemma OtherPayloads(c: Config, size: BufferSize, e: Memory, a: Action, e': Memory)
    requires Inv(c, e.s) && Payloads(e, size) && Enabled(c, e.s, a) && !Fills(a)
    requires e'.s == Step(c, e.s, a) && e'.data == e.data && e'.parsed == e.parsed
    ensures Payloads(e', size)
  {
    ParsedKept(c, e, a, e');
    forall f | f in e'.parsed ensures Unchanged(e', f) {
      assert Unchanged(e, f);
      NeverBuildsAgain(c, e.s, a, PacketOf(e.s, f).home);
    }
  }

  /** A manager reads from the packet what its flow item was made with. */
  lemma ReadsParsed(c: Config, size: BufferSize, e: Memory, k: nat)
    requires Inv(c, e.s) && Payloads(e, size) && k < c.m && HoldsFlow(e.s.mans[k])
    ensures Incoming(e, k) == Lookup(e.parsed, Hand(e.s, ManagerFlow(k))) && |Incoming(e, k)| <= size
  {
    var f := Hand(e.s, ManagerFlow(k));
    assert ManagerShape(e.s, k);
    assert Holds(e.s.at, ManagerFlow(k), 0, f) && Fits(c, ManagerFlow(k), f);
    assert f in e.parsed && Unchanged(e, f);
  }

  /** No live session has the key for which a manager is about to make one. */
  lemma NewKey(c: Config, s: State, k: nat, x: Obj)
    requires Inv(c, s) && ManagerEnabled(c, s, k, CopyNew) && Live(s, x)
    ensures KeyOf(s, x) != KeyOf(s, Hand(s, ManagerFlow(k))) && x != Hand(s, ManagerSession(k))
  {
    var p, i :| Holds(s.at, p, i, x) && LivePlace(s, p);
    LiveRouted(c, s, p, i, x);
    var f, n := Hand(s, ManagerFlow(k)), Hand(s, ManagerSession(k));
    assert ManagerShape(s, k) && ManagerKnows(c, s, k);
    assert Holds(s.at, ManagerFlow(k), 0, f) && Fits(c, ManagerFlow(k), f);
    assert Holds(s.at, ManagerSession(k), 0, n);
  }

  lemma MadeSessions(c: Config, size: BufferSize, e: Memory, k: nat, e': Memory)
    requires MemoryInv(c, size, e) && ManagerEnabled(c, e.s, k, CopyNew)
    requires e'.s == ManagerStep(c, e.s, k, CopyNew)
    requires e'.bytes == e.bytes[Hand(e.s, ManagerSession(k)) := Incoming(e, k)] && e'.log == LogOf(e, k, size)
    ensures SessionsLogged(e', size)
  {
    var a, n := ByManager(k, CopyNew), Hand(e.s, ManagerSession(k));
    LiveSetAfter(c, e.s, a);
    ReadsParsed(c, size, e, k);
    forall x | x in LiveSet(e.s)
      ensures KeyIn(e'.s)(x) == KeyIn(e.s)(x) && KeyIn(e.s)(x) != KeyIn(e'.s)(n) && x != n
    {
      NewKey(c, e.s, k, x);
      LiveKeysAfter(c, e.s, a, x);
    }
    CorrespondsMore(LiveSet(e.s), KeyIn(e.s), KeyIn(e'.s), e.bytes, e.log, size, n, Incoming(e, k));
  }

  lemma KeysStill(c: Config, s: State, a: Action, live: iset<Obj>, bytes: map<Obj, Payload>, log: Log, size: BufferSize)
    requires Inv(c, s) && Enabled(c, s, a) && !Makes(a) && live <= LiveSet(s)
    requires Corresponds(live, KeyIn(s), bytes, log, size)
    ensures Corresponds(live, KeyIn(Step(c, s, a)), bytes, log, size)
  {
    forall x | x in live ensures KeyIn(Step(c, s, a))(x) == KeyIn(s)(x) {
      LiveKeysAfter(c, s, a, x);
    }
    CorrespondsStill(live, KeyIn(s), KeyIn(Step(c, s, a)), bytes, log, size);
  }

  lemma EndedSessions(c: Config, size: BufferSize, e: Memory, a: Action, e': Memory)
    requires Inv(c, e.s) && SessionsLogged(e, size) && Enabled(c, e.s, a) && Ends(a)
    requires e'.s == Step(c, e.s, a) && e'.bytes == e.bytes && e'.log == e.log - {KeyOf(e.s, Node(e.s, a))}
    ensures SessionsLogged(e', size)
  {
    var n := Node(e.s, a);
    LiveSetAfter(c, e.s, a);
    var t := Moves(c, e.s, a);
    assert Holds(e.s.at, t.from, t.k, Node(e.s, a));
    CorrespondsLess(LiveSet(e.s), KeyIn(e.s), e.bytes, e.log, size, n);
    KeysStill(c, e.s, a, LiveSet(e.s) - iset{n}, e.bytes, e'.log, size);
  }

  /** What a manager knows about the node it has found. */
  lemma FoundFacts(c: Config, s: State, k: nat)
    requires Inv(c, s) && k < c.m && s.mans[k].Found?
    ensures Live(s, FoundNode(s, k)) && KeyOf(s, FoundNode(s, k)) == KeyOf(s, Hand(s, ManagerFlow(k)))
  {
    assert ManagerKnows(c, s, k);
    assert Holds(s.at, Bucket(k, s.mans[k].b), s.mans[k].pos, FoundNode(s, k));
  }

  /** A session and a payload that both fit a buffer do not make the test wrap. */
  lemma TestHolds(cur: nat, len: nat, size: BufferSize)
    requires cur <= size && len <= size
    ensures PassesTest(cur, len, size) <==> cur + len < size
  {
  }

  lemma FoundFits(c: Config, size: BufferSize, e: Memory, k: nat)
    requires MemoryInv(c, size, e) && k < c.m && e.s.mans[k].Found?
    ensures PassesTest(|Lookup(e.bytes, FoundNode(e.s, k))|, |Lookup(e.parsed, Hand(e.s, ManagerFlow(k)))|, size)
       <==> |Lookup(e.bytes, FoundNode(e.s, k))| + |Incoming(e, k)| < size
  {
    var x := FoundNode(e.s, k);
    FoundFacts(c, e.s, k);
    ReadsParsed(c, size, e, k);
    assert x in LiveSet(e.s) && Agrees(KeyIn(e.s)(x), Lookup(e.bytes, x), e.log, size);
    TestHolds(|Lookup(e.bytes, x)|, |Incoming(e, k)|, size);
  }

  lemma EvictedLog(c: Config, size: BufferSize, e: Memory, k: nat)
    requires MemoryInv(c, size, e) && ManagerEnabled(c, e.s, k, Evict) && !HasRoom(e, ByManager(k, Evict), size)
    ensures LogOf(e, k, size) == e.log - {KeyOf(e.s, FoundNode(e.s, k))}
  {
    FoundFacts(c, e.s, k);
    ReadsParsed(c, size, e, k);
    FoundFits(c, size, e, k);
    TooLong(e, size, FoundNode(e.s, k), Incoming(e, k));
  }

  lemma TooLong(e: Memory, size: BufferSize, x: Obj, p: Payload)
    requires SessionsLogged(e, size) && x in LiveSet(e.s) && |Lookup(e.bytes, x)| + |p| >= size
    ensures Logged(e.log, KeyOf(e.s, x), p, size) == e.log - {KeyOf(e.s, x)}
  {
    assert KeyIn(e.s)(x) == KeyOf(e.s, x) && Agrees(KeyIn(e.s)(x), Lookup(e.bytes, x), e.log, size);
  }

  /** Every step keeps the correspondence, those of the sweeper included. */
  lemma MemoryStep(c: Config, size: BufferSize, e: Memory, a: Action, content: Payload)
    requires MemoryInv(c, size, e) && Allowed(c, size, e, a, content)
    ensures MemoryInv(c, size, Next(c, size, e, a, content))
  {
    StepInv(c, e.s, a);
    var e' := Next(c, size, e, a, content);
    if a.ByGenerator? && a.g.BuildPut? {
      BuiltPayloads(c, size, e, a.i, a.g.built, content, e');
    } else if a.ByParser? && a.p.Fill? {
      var packets, flows := At(e.s.at, ParserPackets(a.j)), At(e.s.at, ParserFlows(a.j));
      DistinctAt(e.s.at, ParserFlows(a.j));
      FillAllGet(e.parsed, flows, PayloadsOf(e, packets));
      forall f | f in e'.parsed ensures Unchanged(e', f) {
        FilledUnchanged(c, e, a.j, e', f);
      }
      FilledParsed(c, e, a.j, e');
    } else {
      OtherPayloads(c, size, e, a, e');
    }
    SessionsStep(c, size, e, a, content);
  }

  lemma SessionsStep(c: Config, size: BufferSize, e: Memory, a: Action, content: Payload)
    requires MemoryInv(c, size, e) && Allowed(c, size, e, a, content)
    ensures SessionsLogged(Next(c, size, e, a, content), size)
  {
    var e' := Next(c, size, e, a, content);
    if a.ByManager? && a.m.CopyNew? {
      MadeSessions(c, size, e, a.k, e');
    } else if a.ByManager? && a.m.Append? {
      FoundFacts(c, e.s, a.k);
      ReadsParsed(c, size, e, a.k);
      FoundFits(c, size, e, a.k);
      CorrespondsLonger(LiveSet(e.s), KeyIn(e.s), e.bytes, e.log, size, FoundNode(e.s, a.k), Incoming(e, a.k));
      LiveSetAfter(c, e.s, ByManager(a.k, Append));
      KeysStill(c, e.s, ByManager(a.k, Append), LiveSet(e.s), e'.bytes, e'.log, size);
    } else if a.ByManager? && a.m.Evict? {
      EvictedLog(c, size, e, a.k);
      EndedSessions(c, size, e, a, e');
    } else if Ends(a) {
      EndedSessions(c, size, e, a, e');
    } else {
      LiveSetAfter(c, e.s, a);
      KeysStill(c, e.s, a, LiveSet(e.s), e.bytes, e.log, size);
    }
  }

  lemma {:induction false} MemoryRunInv(c: Config, size: BufferSize, e: Memory, acts: seq<(Action, Payload)>, e': Memory)
    requires MemoryInv(c, size, e) && MemoryRun(c, size, e, acts, e')
    ensures MemoryInv(c, size, e')
    decreases |acts|
  {
    if acts != [] {
      MemoryStep(c, size, e, acts[0].0, acts[0].1);
      MemoryRunInv(c, size, Next(c, size, e, acts[0].0, acts[0].1), acts[1..], e');
    }
  }

  lemma MemoryStart(c: Config, size: BufferSize, e: Memory)
    requires c.Valid() && MemoryInit(c, e)
    ensures MemoryInv(c, size, e)
  {
    InitInv(c, e.s);
    InitPools(c, e.s);
    assert forall x :: x !in LiveSet(e.s);
  }

  /** In every reachable state, whatever the sweeper does meanwhile: the live sessions are those
      of the log, one for each key, and the buffer of each holds the payloads that its manager
      added since it was created, in order; it never overflows. */
  lemma SessionBytes(c: Config, size: BufferSize, e: Memory, acts: seq<(Action, Payload)>, e': Memory)
    requires c.Valid() && MemoryInit(c, e) && MemoryRun(c, size, e, acts, e')
    ensures forall x {:trigger Live(e'.s, x)} :: Live(e'.s, x) ==>
      && KeyOf(e'.s, x) in e'.log && Lookup(e'.bytes, x) == Flat(e'.log[KeyOf(e'.s, x)])
      && |Lookup(e'.bytes, x)| <= size
    ensures forall key :: key in e'.log ==> exists x :: Live(e'.s, x) && KeyOf(e'.s, x) == key
    ensures forall x, y :: Live(e'.s, x) && Live(e'.s, y) && KeyOf(e'.s, x) == KeyOf(e'.s, y) ==> x == y
  {
    MemoryStart(c, size, e);
    MemoryRunInv(c, size, e, acts, e');
    LogIsSessions(e', size);
  }

  lemma LogIsSessions(e: Memory, size: BufferSize)
    requires SessionsLogged(e, size)
    ensures forall x {:trigger Live(e.s, x)} :: Live(e.s, x) ==>
      && KeyOf(e.s, x) in e.log && Lookup(e.bytes, x) == Flat(e.log[KeyOf(e.s, x)])
      && |Lookup(e.bytes, x)| <= size
    ensures forall key :: key in e.log ==> exists x :: Live(e.s, x) && KeyOf(e.s, x) == key
    ensures forall x, y :: Live(e.s, x) && Live(e.s, y) && KeyOf(e.s, x) == KeyOf(e.s, y) ==> x == y
  {
    forall x | Live(e.s, x)
      ensures KeyOf(e.s, x) in e.log && Lookup(e.bytes, x) == Flat(e.log[KeyOf(e.s, x)]) && |Lookup(e.bytes, x)| <= size
    {
      assert x in LiveSet(e.s) && Agrees(KeyIn(e.s)(x), Lookup(e.bytes, x), e.log, size);
    }
    forall key | key in e.log ensures exists x :: Live(e.s, x) && KeyOf(e.s, x) == key {
      assert HasSession(LiveSet(e.s), KeyIn(e.s), key);
      var x :| x in LiveSet(e.s) && KeyIn(e.s)(x) == key;
    }
    forall x, y | Live(e.s, x) && Live(e.s, y) && KeyOf(e.s, x) == KeyOf(e.s, y) ensures x == y {
      assert x in LiveSet(e.s) && y in LiveSet(e.s) && KeyIn(e.s)(x) == KeyIn(e.s)(y);
    }
  }
}
