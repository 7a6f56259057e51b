/** What a step reads and writes is what `Touches` says.

    Two memories that differ in the fields of one object, in all of them or in some, are the same
    to every step that does not touch it: the step may be taken in both or in neither, it does the
    same to everything else, and it leaves that object as it was.  So ownership of what a step
    touches, which the other modules prove, is ownership of all that it reads and writes. */
module PipelineFootprint {
  import opened Common
  import opened Ledger
  import opened Pipeline
  import opened PipelineInvariant
  import opened PipelineSafety
  import opened PipelineTheorems
  import opened PipelineBytes
  import opened PipelinePackets
  import SessionList

  // ---------------------------------------------------------------- memories that differ in one object

  /** Two fields of all objects that agree except perhaps at `x`. */
  ghost predicate SameBut<T(!new)>(m: map<Obj, T>, n: map<Obj, T>, x: Obj) {
    forall y {:trigger y in m} {:trigger y in n} :: y != x ==> (y in m <==> y in n) && (y in m ==> m[y] == n[y])
  }

  /** A field of `x` that is the same in both, or missing in both. */
  ghost predicate SameAt<T(!new)>(m: map<Obj, T>, n: map<Obj, T>, x: Obj) {
    (x in m <==> x in n) && (x in m ==> m[x] == n[x])
  }

  ghost predicate StatesDiffer(s: State, t: State, x: Obj) {
    && t.at == s.at && t.gens == s.gens && t.pars == s.pars && t.mans == s.mans
    && t.sweeper == s.sweeper && t.locked == s.locked
    && SameBut(s.key, t.key, x) && SameBut(s.pool, t.pool, x) && SameBut(s.packet, t.packet, x)
  }

  /** All is the same but the key, pool, packet, payload, buffer and parsed payload of `x`. */
  ghost predicate DifferAt(e: Memory, d: Memory, x: Obj) {
    && StatesDiffer(e.s, d.s, x) && d.log == e.log
    && SameBut(e.data, d.data, x) && SameBut(e.bytes, d.bytes, x) && SameBut(e.parsed, d.parsed, x)
  }

  /** The fields of `x` are what they were. */
  ghost predicate StateKept(s: State, t: State, x: Obj) {
    SameAt(s.key, t.key, x) && SameAt(s.pool, t.pool, x) && SameAt(s.packet, t.packet, x)
  }

  ghost predicate Kept(e: Memory, d: Memory, x: Obj) {
    StateKept(e.s, d.s, x) && SameAt(e.data, d.data, x) && SameAt(e.bytes, d.bytes, x) && SameAt(e.parsed, d.parsed, x)
  }

  /** Two states come to differ in the fields of `x` alone, which are what they were. */
  ghost predicate ControlsDiffer(s: State, t: State, s': State, t': State, x: Obj) {
    StatesDiffer(s', t', x) && StateKept(s, s', x) && StateKept(t, t', x)
  }

  // ---------------------------------------------------------------- thread by thread

  lemma GeneratorFootprint(c: Config, s: State, t: State, i: nat, g: GeneratorAct, x: Obj)
    requires StatesDiffer(s, t, x) && !Touches(s, ByGenerator(i, g), x) && GeneratorGuard(c, s, i, g)
    ensures GeneratorMoves(t, i, g) == GeneratorMoves(s, i, g)
    ensures ControlsDiffer(s, t, GeneratorControl(c, s, i, g), GeneratorControl(c, t, i, g), x)
  {
  }

  lemma {:induction false} FillAllDiffers<T(!new)>(m: map<Obj, T>, n: map<Obj, T>, flows: seq<Obj>, values: seq<T>, x: Obj)
    requires SameBut(m, n, x) && |flows| == |values| && x !in flows
    ensures SameBut(FillAll(m, flows, values), FillAll(n, flows, values), x)
    ensures SameAt(m, FillAll(m, flows, values), x) && SameAt(n, FillAll(n, flows, values), x)
  {
    if flows != [] {
      var last := |flows| - 1;
      FillAllDiffers(m, n, flows[..last], values[..last], x);
    }
  }

  lemma ParserFootprint(c: Config, s: State, t: State, j: nat, p: ParserAct, x: Obj)
    requires StatesDiffer(s, t, x) && !Touches(s, ByParser(j, p), x) && ParserGuard(c, s, j, p)
    ensures ParserMoves(c, t, j, p) == ParserMoves(c, s, j, p)
    ensures ControlsDiffer(s, t, ParserControl(c, s, j, p), ParserControl(c, t, j, p), x)
  {
    if p.Fill? {
      var packets, flows := At(s.at, ParserPackets(j)), At(s.at, ParserFlows(j));
      assert KeysOf(s, packets) == KeysOf(t, packets);
      FillAllDiffers(s.packet, t.packet, flows, packets, x);
      FillAllDiffers(s.key, t.key, flows, KeysOf(s, packets), x);
    }
  }

  lemma ManagerGuardFootprint(c: Config, s: State, t: State, k: nat, m: ManagerAct, x: Obj)
    requires StatesDiffer(s, t, x) && !Touches(s, ByManager(k, m), x)
    ensures ManagerGuard(c, s, k, m) <==> ManagerGuard(c, t, k, m)
  {
    if k < |s.mans| && s.mans[k].Searching? && (m.FindNone? || m.FindAt?) {
      var b := s.mans[k].b;
      forall i | 0 <= i < |At(s.at, Bucket(k, b))| ensures SameKey(s, k, b, i) <==> SameKey(t, k, b, i) {
        assert At(s.at, Bucket(k, b))[i] in At(s.at, Bucket(k, b));
      }
    }
  }

  lemma ManagerMovesFootprint(c: Config, s: State, t: State, k: nat, m: ManagerAct, x: Obj)
    requires StatesDiffer(s, t, x) && !Touches(s, ByManager(k, m), x) && ManagerGuard(c, s, k, m)
    ensures ManagerMoves(t, k, m) == ManagerMoves(s, k, m)
  {
  }

  lemma CopyFootprint(c: Config, s: State, t: State, k: nat, x: Obj)
    requires StatesDiffer(s, t, x) && !Touches(s, ByManager(k, CopyNew), x) && ManagerGuard(c, s, k, CopyNew)
    ensures ControlsDiffer(s, t, ManagerControl(c, s, k, CopyNew), ManagerControl(c, t, k, CopyNew), x)
  {
  }

  lemma BucketFootprint(c: Config, s: State, t: State, k: nat, m: ManagerAct, x: Obj)
    requires StatesDiffer(s, t, x) && !Touches(s, ByManager(k, m), x) && ManagerGuard(c, s, k, m)
    ensures ManagerNext(s.mans[k], CurrentBucket(c, t, k), m) == ManagerNext(s.mans[k], CurrentBucket(c, s, k), m)
    ensures m.LockBucket? || m.UnlockBucket? ==> CurrentBucket(c, t, k) == CurrentBucket(c, s, k)
  {
  }

  lemma ManagerFootprint(c: Config, s: State, t: State, k: nat, m: ManagerAct, x: Obj)
    requires StatesDiffer(s, t, x) && !Touches(s, ByManager(k, m), x) && ManagerGuard(c, s, k, m)
    ensures ControlsDiffer(s, t, ManagerControl(c, s, k, m), ManagerControl(c, t, k, m), x)
  {
    if m.CopyNew? {
      CopyFootprint(c, s, t, k, x);
    } else {
      BucketFootprint(c, s, t, k, m, x);
    }
  }

  lemma SweeperFootprint(c: Config, s: State, t: State, w: SweeperAct, x: Obj)
    requires StatesDiffer(s, t, x) && !Touches(s, BySweeper(w), x) && SweeperGuard(c, s, w)
    ensures SweeperMoves(t, w) == SweeperMoves(s, w)
    ensures ControlsDiffer(s, t, SweeperControl(c, s, w), SweeperControl(c, t, w), x)
  {
  }

  lemma StateFootprint(c: Config, s: State, t: State, a: Action, x: Obj)
    requires StatesDiffer(s, t, x) && !Touches(s, a, x)
    ensures Guard(c, s, a) <==> Guard(c, t, a)
    ensures Guard(c, s, a) ==>
      && Moves(c, t, a) == Moves(c, s, a)
      && ControlsDiffer(s, t, Control(c, s, a), Control(c, t, a), x)
  {
    match a
    case ByGenerator(i, g) => if GeneratorGuard(c, s, i, g) { GeneratorFootprint(c, s, t, i, g, x); }
    case ByParser(j, p) => if ParserGuard(c, s, j, p) { ParserFootprint(c, s, t, j, p, x); }
    case ByManager(k, m) =>
      ManagerGuardFootprint(c, s, t, k, m, x);
      if ManagerGuard(c, s, k, m) {
        ManagerMovesFootprint(c, s, t, k, m, x);
        ManagerFootprint(c, s, t, k, m, x);
      }
    case BySweeper(w) => if SweeperGuard(c, s, w) { SweeperFootprint(c, s, t, w, x); }
  }

  // ---------------------------------------------------------------- payloads

  /** Two fields that come to differ at `x` alone, where they are what they were. */
  ghost predicate FieldsDiffer<T(!new)>(m: map<Obj, T>, n: map<Obj, T>, m': map<Obj, T>, n': map<Obj, T>, x: Obj) {
    SameBut(m', n', x) && SameAt(m, m', x) && SameAt(n, n', x)
  }

  /** Whom a manager reads a payload for, and which. */
  lemma IncomingFootprint(c: Config, size: BufferSize, e: Memory, d: Memory, a: Action, x: Obj)
    requires Inv(c, e.s) && DifferAt(e, d, x) && Enabled(c, e.s, a) && !Touches(e.s, a, x)
    requires a.ByManager? && (a.m.CopyNew? || a.m.Append? || a.m.Evict?)
    ensures Node(d.s, a) == Node(e.s, a) != x
    ensures Hand(d.s, ManagerFlow(a.k)) == Hand(e.s, ManagerFlow(a.k)) != x
    ensures !a.m.Evict? ==> Incoming(d, a.k) == Incoming(e, a.k)
    ensures LogOf(d, a.k, size) == LogOf(e, a.k, size)
  {
    assert ManagerKnows(c, e.s, a.k);
  }

  lemma ParsedFootprint(c: Config, e: Memory, d: Memory, a: Action, x: Obj)
    requires DifferAt(e, d, x) && Enabled(c, e.s, a) && !Touches(e.s, a, x)
    ensures FieldsDiffer(e.parsed, d.parsed, NextParsed(e, a), NextParsed(d, a), x)
  {
    if Fills(a) {
      var packets := At(e.s.at, ParserPackets(a.j));
      assert PayloadsOf(e, packets) == PayloadsOf(d, packets);
      FillAllDiffers(e.parsed, d.parsed, At(e.s.at, ParserFlows(a.j)), PayloadsOf(e, packets), x);
    }
  }

  lemma RoomFootprint(c: Config, size: BufferSize, e: Memory, d: Memory, a: Action, x: Obj)
    requires Inv(c, e.s) && DifferAt(e, d, x) && Enabled(c, e.s, a) && !Touches(e.s, a, x)
    requires a.ByManager? && (a.m.Append? || a.m.Evict?)
    ensures HasRoom(e, a, size) <==> HasRoom(d, a, size)
  {
    IncomingFootprint(c, size, e, d, a, x);
  }

  lemma BytesFootprint(c: Config, size: BufferSize, e: Memory, d: Memory, a: Action, x: Obj)
    requires Inv(c, e.s) && DifferAt(e, d, x) && Enabled(c, e.s, a) && !Touches(e.s, a, x)
    ensures FieldsDiffer(e.bytes, d.bytes, NextBytes(e, a), NextBytes(d, a), x)
  {
    if a.ByManager? && (a.m.CopyNew? || a.m.Append?) {
      IncomingFootprint(c, size, e, d, a, x);
    }
  }

  lemma LogFootprint(c: Config, size: BufferSize, e: Memory, d: Memory, a: Action, x: Obj)
    requires Inv(c, e.s) && DifferAt(e, d, x) && Enabled(c, e.s, a) && !Touches(e.s, a, x)
    ensures NextLog(e, a, size) == NextLog(d, a, size)
  {
    if a.ByManager? && (a.m.CopyNew? || a.m.Append? || a.m.Evict?) {
      IncomingFootprint(c, size, e, d, a, x);
    }
  }

  lemma DataFootprint(c: Config, e: Memory, d: Memory, a: Action, content: Payload, x: Obj)
    requires DifferAt(e, d, x) && !Touches(e.s, a, x)
    ensures FieldsDiffer(e.data, d.data, NextData(e, a, content), NextData(d, a, content), x)
  {
  }

  // ---------------------------------------------------------------- whole steps

  /** An action is enabled, and its step is made, by what it reads and by the places. */
  lemma EnabledByParts(c: Config, s: State, a: Action)
    ensures Enabled(c, s, a) <==> Guard(c, s, a) && Possible(s.at, Moves(c, s, a)) && Counted(c, s, a)
    ensures Enabled(c, s, a) ==> Step(c, s, a) == Control(c, s, a).(at := Carry(s.at, Moves(c, s, a)))
  {
  }

  /** What the rings must hold beside what is moved. */
  predicate Counted(c: Config, s: State, a: Action) {
    match a
    case ByGenerator(i, g) => g.BuildSkip? ==> At(s.at, PacketPool(i)) == []
    case ByParser(j, p) =>
      && (p.TakeBatch? ==> |At(s.at, ParserQueue(j))| >= c.need)
      && (p.TakeFlows? ==> |At(s.at, FlowPool(j))| >= c.need)
    case _ => true
  }

  lemma StepFootprint(c: Config, s: State, t: State, a: Action, x: Obj)
    requires StatesDiffer(s, t, x) && !Touches(s, a, x)
    ensures Enabled(c, s, a) <==> Enabled(c, t, a)
    ensures Enabled(c, s, a) ==> ControlsDiffer(s, t, Step(c, s, a), Step(c, t, a), x)
  {
    StateFootprint(c, s, t, a, x);
    EnabledByParts(c, s, a);
    EnabledByParts(c, t, a);
  }

  lemma AllowedFootprint(c: Config, size: BufferSize, e: Memory, d: Memory, a: Action, content: Payload, x: Obj)
    requires Inv(c, e.s) && DifferAt(e, d, x) && !Touches(e.s, a, x)
    ensures Allowed(c, size, e, a, content) <==> Allowed(c, size, d, a, content)
  {
    StepFootprint(c, e.s, d.s, a, x);
    if Enabled(c, e.s, a) && a.ByManager? && (a.m.Append? || a.m.Evict?) {
      RoomFootprint(c, size, e, d, a, x);
    }
  }

  /** The fields of an object that an action does not touch neither decide whether the action is
      taken, nor enter into anything that it computes, nor are changed by it. */
  lemma Footprint(c: Config, size: BufferSize, e: Memory, d: Memory, a: Action, content: Payload, x: Obj)
    requires Inv(c, e.s) && DifferAt(e, d, x) && !Touches(e.s, a, x)
    ensures Allowed(c, size, e, a, content) <==> Allowed(c, size, d, a, content)
    ensures Allowed(c, size, e, a, content) ==>
      var e', d' := Next(c, size, e, a, content), Next(c, size, d, a, content);
      DifferAt(e', d', x) && Kept(e, e', x) && Kept(d, d', x)
  {
    AllowedFootprint(c, size, e, d, a, content, x);
    if Allowed(c, size, e, a, content) {
      StepFootprint(c, e.s, d.s, a, x);
      DataFootprint(c, e, d, a, content, x);
      BytesFootprint(c, size, e, d, a, x);
      ParsedFootprint(c, e, d, a, x);
      LogFootprint(c, size, e, d, a, x);
      NextParts(c, size, e, d, a, content, x);
    }
  }

  lemma NextParts(c: Config, size: BufferSize, e: Memory, d: Memory, a: Action, content: Payload, x: Obj)
    requires Allowed(c, size, e, a, content) && Allowed(c, size, d, a, content)
    requires ControlsDiffer(e.s, d.s, Step(c, e.s, a), Step(c, d.s, a), x)
    requires FieldsDiffer(e.data, d.data, NextData(e, a, content), NextData(d, a, content), x)
    requires FieldsDiffer(e.bytes, d.bytes, NextBytes(e, a), NextBytes(d, a), x)
    requires FieldsDiffer(e.parsed, d.parsed, NextParsed(e, a), NextParsed(d, a), x)
    requires NextLog(e, a, size) == NextLog(d, a, size)
    ensures var e', d' := Next(c, size, e, a, content), Next(c, size, d, a, content);
      DifferAt(e', d', x) && Kept(e, e', x) && Kept(d, d', x)
  {
  }

  /** What a thread does not own is nothing to it: its next step would be the same, whatever the
      fields of that object hold, and leaves them alone. */
  lemma OnlyOwnMatters(c: Config, size: BufferSize, e: Memory, d: Memory, a: Action, content: Payload, x: Obj)
    requires c.Valid() && Reachable(c, e.s) && Allowed(c, size, e, a, content)
    requires DifferAt(e, d, x) && !Owns(e.s, Actor(a), x)
    ensures Allowed(c, size, d, a, content)
    ensures var e', d' := Next(c, size, e, a, content), Next(c, size, d, a, content);
      DifferAt(e', d', x) && Kept(e, e', x) && Kept(d, d', x)
  {
    if Touches(e.s, a, x) {
      TouchesOwn(c, e.s, a, x);
    }
    ReachableInv(c, e.s);
    Footprint(c, size, e, d, a, content, x);
  }

  // ---------------------------------------------------------------- bytes of packets

  ghost predicate TrafficsDiffer(w: Traffic, v: Traffic, x: Obj) {
    DifferAt(w.e, v.e, x) && SameBut(w.bufs, v.bufs, x) && v.now == w.now && v.made == w.made
  }

  lemma LabelsFootprint(u: Setup, w: Traffic, v: Traffic, a: Action, content: Payload, x: Obj)
    requires TrafficsDiffer(w, v, x) && !Touches(w.e.s, a, x)
    ensures Labelled(u, w, a, content) <==> Labelled(u, v, a, content)
    ensures Writes(a) && a.i < |w.now| && u.cfg.Valid() ==> Written(u, v, a.i, a.g) == Written(u, w, a.i, a.g)
    ensures Writes(a) ==> Hand(v.e.s, GeneratorHand(a.i)) == Hand(w.e.s, GeneratorHand(a.i)) != x
  {
    if Writes(a) {
      assert Buffer(v, Hand(v.e.s, GeneratorHand(a.i))) == Buffer(w, Hand(w.e.s, GeneratorHand(a.i)));
    }
  }

  lemma BuffersFootprint(u: Setup, w: Traffic, v: Traffic, a: Action, content: Payload, x: Obj)
    requires TrafficsDiffer(w, v, x) && !Touches(w.e.s, a, x) && Goes(u, w, a, content) && Goes(u, v, a, content)
    ensures var w', v' := NextTraffic(u, w, a, content), NextTraffic(u, v, a, content);
      FieldsDiffer(w.bufs, v.bufs, w'.bufs, v'.bufs, x) && v'.now == w'.now && v'.made == w'.made
  {
    LabelsFootprint(u, w, v, a, content, x);
  }

  /** The same with the bytes of the packets. */
  lemma TrafficFootprint(u: Setup, w: Traffic, v: Traffic, a: Action, content: Payload, x: Obj)
    requires Inv(u.c, w.e.s) && TrafficsDiffer(w, v, x) && !Touches(w.e.s, a, x)
    ensures Goes(u, w, a, content) <==> Goes(u, v, a, content)
    ensures Goes(u, w, a, content) ==>
      var w', v' := NextTraffic(u, w, a, content), NextTraffic(u, v, a, content);
      && TrafficsDiffer(w', v', x) && Kept(w.e, w'.e, x) && Kept(v.e, v'.e, x)
      && SameAt(w.bufs, w'.bufs, x) && SameAt(v.bufs, v'.bufs, x)
  {
    Footprint(u.c, u.size, w.e, v.e, a, content, x);
    LabelsFootprint(u, w, v, a, content, x);
    if Goes(u, w, a, content) {
      BuffersFootprint(u, w, v, a, content, x);
    }
  }

  // ---------------------------------------------------------------- time stamps

  /** `last` is when each session node was last stamped, and `clock` what the sweeper read when it
      came to its bucket. */
  datatype Timed = Timed(e: Memory, last: map<Obj, Word64>, clock: Word64)

  function LastOf(w: Timed, x: Obj): Word64 { if x in w.last then w.last[x] else 0 }

  /** The node at this place of the sweeper's bucket has expired. */
  predicate Stale(w: Timed, pos: nat, limit: Word64) {
    var s := w.e.s;
    && s.sweeper.Walking?
    && var n := NodeAt(s, s.sweeper.m, s.sweeper.b, pos);
       SessionList.Expired(LastOf(w, n), w.clock, limit)
  }

  /** The sweeper unlinks the first expired node that it comes to, and leaves the bucket when there
      is none. */
  predicate InTime(w: Timed, a: Action, limit: Word64) {
    a.BySweeper? && (a.w.SweepUnlink? || a.w.SweepUnlock?) && w.e.s.sweeper.Walking? ==>
      var n := if a.w.SweepUnlink? then a.w.pos else |At(w.e.s.at, Bucket(w.e.s.sweeper.m, w.e.s.sweeper.b))|;
      && (forall i :: w.e.s.sweeper.kept <= i < n ==> !Stale(w, i, limit))
      && (a.w.SweepUnlink? ==> Stale(w, n, limit))
  }

  predicate TimelyAllowed(c: Config, size: BufferSize, limit: Word64, w: Timed, a: Action, content: Payload) {
    Allowed(c, size, w.e, a, content) && InTime(w, a, limit)
  }

  function NextLast(w: Timed, a: Action, now: Word64): map<Obj, Word64> {
    if a.ByManager? && (a.m.CopyNew? || a.m.Append?) then w.last[Node(w.e.s, a) := now] else w.last
  }

  /** `now` is what the thread reads if it reads its clock. */
  function TimelyNext(c: Config, size: BufferSize, limit: Word64, w: Timed, a: Action, content: Payload, now: Word64): Timed
    requires TimelyAllowed(c, size, limit, w, a, content)
  {
    Timed(Next(c, size, w.e, a, content), NextLast(w, a, now), if a.BySweeper? && a.w.SweepLock? then now else w.clock)
  }

  ghost predicate TimesDiffer(w: Timed, v: Timed, x: Obj) {
    DifferAt(w.e, v.e, x) && SameBut(w.last, v.last, x) && v.clock == w.clock
  }

  lemma StaleFootprint(w: Timed, v: Timed, a: SweeperAct, pos: nat, limit: Word64, x: Obj)
    requires TimesDiffer(w, v, x) && !Touches(w.e.s, BySweeper(a), x) && (a.SweepUnlink? || a.SweepUnlock?)
    requires w.e.s.sweeper.Walking? ==> pos < |At(w.e.s.at, Bucket(w.e.s.sweeper.m, w.e.s.sweeper.b))|
    ensures Stale(w, pos, limit) <==> Stale(v, pos, limit)
  {
  }

  lemma InTimeFootprint(c: Config, w: Timed, v: Timed, a: SweeperAct, limit: Word64, x: Obj)
    requires TimesDiffer(w, v, x) && SweeperEnabled(c, w.e.s, a) && !Touches(w.e.s, BySweeper(a), x)
    ensures InTime(w, BySweeper(a), limit) <==> InTime(v, BySweeper(a), limit)
  {
    if a.SweepUnlink? || a.SweepUnlock? {
      forall i: nat | i < |At(w.e.s.at, Bucket(w.e.s.sweeper.m, w.e.s.sweeper.b))|
        ensures Stale(w, i, limit) <==> Stale(v, i, limit)
      {
        StaleFootprint(w, v, a, i, limit, x);
      }
    }
  }

  lemma StampsFootprint(c: Config, size: BufferSize, w: Timed, v: Timed, a: Action, now: Word64, x: Obj)
    requires Inv(c, w.e.s) && TimesDiffer(w, v, x) && Enabled(c, w.e.s, a) && !Touches(w.e.s, a, x)
    ensures FieldsDiffer(w.last, v.last, NextLast(w, a, now), NextLast(v, a, now), x)
  {
    if a.ByManager? && (a.m.CopyNew? || a.m.Append?) {
      IncomingFootprint(c, size, w.e, v.e, a, x);
    }
  }

  /** The same with the time stamps, where the sweeper goes by them. */
  lemma TimelyFootprint(c: Config, size: BufferSize, limit: Word64, w: Timed, v: Timed, a: Action, content: Payload, now: Word64, x: Obj)
    requires Inv(c, w.e.s) && TimesDiffer(w, v, x) && !Touches(w.e.s, a, x)
    ensures TimelyAllowed(c, size, limit, w, a, content) <==> TimelyAllowed(c, size, limit, v, a, content)
    ensures TimelyAllowed(c, size, limit, w, a, content) ==>
      var w', v' := TimelyNext(c, size, limit, w, a, content, now), TimelyNext(c, size, limit, v, a, content, now);
      && TimesDiffer(w', v', x) && Kept(w.e, w'.e, x) && Kept(v.e, v'.e, x)
      && SameAt(w.last, w'.last, x) && SameAt(v.last, v'.last, x)
  {
    Footprint(c, size, w.e, v.e, a, content, x);
    if Allowed(c, size, w.e, a, content) {
      StampsFootprint(c, size, w, v, a, now, x);
      if a.BySweeper? {
        InTimeFootprint(c, w, v, a.w, limit, x);
      }
    }
  }

  /** A payload stamps the session it goes to, be it the node in the manager's hand or one that is
      found in its bucket; nothing else changes a stamp. */
  lemma StampsNow(c: Config, w: Timed, a: Action, now: Word64, w': Timed, x: Obj)
    requires Inv(c, w.e.s) && Enabled(c, w.e.s, a) && w'.last == NextLast(w, a, now)
    ensures LastOf(w', x) ==
      if a.ByManager? && a.m.CopyNew? && x in At(w.e.s.at, ManagerSession(a.k)) then now
      else if a.ByManager? && a.m.Append? && Holds(w.e.s.at, Bucket(a.k, w.e.s.mans[a.k].b), w.e.s.mans[a.k].pos, x) then now
      else LastOf(w, x)
  {
    if a.ByManager? && (a.m.CopyNew? || a.m.Append?) {
      assert ManagerShape(w.e.s, a.k) && ManagerKnows(c, w.e.s, a.k);
    }
  }

  /** In plain numbers, for stamps that the sweeper's clock has not wrapped past: what it unlinks has
      been idle for more than `limit` cycles, what it leaves in the bucket has not. */
  lemma SweepsByAge(c: Config, size: BufferSize, limit: Word64, w: Timed, a: SweeperAct, content: Payload, i: nat)
    requires TimelyAllowed(c, size, limit, w, BySweeper(a), content) && (a.SweepUnlink? || a.SweepUnlock?)
    requires w.e.s.sweeper.Walking? && i < |At(w.e.s.at, Bucket(w.e.s.sweeper.m, w.e.s.sweeper.b))|
    requires LastOf(w, At(w.e.s.at, Bucket(w.e.s.sweeper.m, w.e.s.sweeper.b))[i]) <= w.clock
    ensures var age := w.clock - LastOf(w, At(w.e.s.at, Bucket(w.e.s.sweeper.m, w.e.s.sweeper.b))[i]);
      && (a.SweepUnlink? && i == a.pos ==> age > limit)
      && (w.e.s.sweeper.kept <= i && (a.SweepUnlink? ==> i < a.pos) ==> age <= limit)
  {
    var _ := Stale(w, i, limit);
  }

  // ---------------------------------------------------------------- links

  /** An action that changes a bucket's list, and so the links of its nodes, touches all that are
      in it before or after. */
  lemma LinksFootprint(c: Config, s: State, a: Action, m: nat, b: nat, x: Obj)
    requires Enabled(c, s, a) && At(Step(c, s, a).at, Bucket(m, b)) != At(s.at, Bucket(m, b))
    requires x in At(s.at, Bucket(m, b)) || x in At(Step(c, s, a).at, Bucket(m, b))
    ensures Touches(s, a, x)
  {
    EnabledByParts(c, s, a);
    CarryAt(s.at, Moves(c, s, a));
  }
}
