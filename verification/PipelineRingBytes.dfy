/** What is in the packets, the session buffers and the bucket counts while the pipeline runs over
    the rings. */
module PipelineRingBytes {
  import opened Common
  import opened Ledger
  import opened Pipeline
  import opened PipelineInvariant
  import opened PipelineRings
  import opened PipelineRingTheorems
  import opened PipelineBytes
  import opened PipelineCounts
  import opened PipelinePackets
  import Ring
  import Ideal = PipelineTheorems

  function Actions(steps: seq<(Action, Payload)>): seq<Action> {
    seq(|steps|, n requires 0 <= n < |steps| => steps[n].0)
  }

  // ---------------------------------------------------------------- the memory goes with the rings

  /** The actions determine the state. */
  lemma {:induction false} SameEnd(c: Config, s: State, acts: seq<Action>, t: State, t': State)
    requires IsRun(c, s, acts, t) && IsRun(c, s, acts, t')
    ensures t == t'
    decreases |acts|
  {
    if acts != [] {
      SameEnd(c, Step(c, s, acts[0]), acts[1..], t, t');
    }
  }

  lemma {:induction false} MemoryReaches(c: Config, size: BufferSize, e: Memory, steps: seq<(Action, Payload)>, e': Memory)
    requires MemoryRun(c, size, e, steps, e')
    ensures IsRun(c, e.s, Actions(steps), e'.s)
    decreases |steps|
  {
    if steps != [] {
      MemoryReaches(c, size, Next(c, size, e, steps[0].0, steps[0].1), steps[1..], e');
      assert Actions(steps)[1..] == Actions(steps[1..]);
    }
  }

  lemma MemoryFollows(c: Config, size: BufferSize, m: Machine, e: Memory, steps: seq<(Action, Payload)>, m': Machine, e': Memory)
    requires c.Valid() && RingInit(c, m) && HealthyRun(c, m, Actions(steps), m')
    requires InOrder(m) && e.s == View(m) && MemoryRun(c, size, e, steps, e')
    ensures InOrder(m') && e'.s == View(m')
  {
    IdealRun(c, m, Actions(steps), m');
    MemoryReaches(c, size, e, steps, e');
    SameEnd(c, View(m), Actions(steps), View(m'), e'.s);
  }

  /** Over the rings too, the live sessions are those of the log, and each holds the payloads
      that its manager added since it was created. */
  lemma SessionBytes(c: Config, size: BufferSize, m: Machine, e: Memory, steps: seq<(Action, Payload)>, m': Machine, e': Memory)
    requires c.Valid() && RingInit(c, m) && HealthyRun(c, m, Actions(steps), m')
    requires MemoryInit(c, e) && InOrder(m) && e.s == View(m) && MemoryRun(c, size, e, steps, e')
    ensures InOrder(m') && e'.s == View(m') && SessionsLogged(e', size)
  {
    MemoryFollows(c, size, m, e, steps, m', e');
    MemoryStart(c, size, e);
    MemoryRunInv(c, size, e, steps, e');
  }

  /** And from end to end, each live session holds the configured payload over and over, under the
      key of a flow that some generator has made a packet of. */
  lemma SessionsHoldText(u: Setup, m: Machine, w: Traffic, steps: seq<(Action, Payload)>, m': Machine, w': Traffic, x: Obj)
    requires u.Valid() && RingInit(u.c, m) && HealthyRun(u.c, m, Actions(steps), m')
    requires TrafficInit(u, w) && InOrder(m) && w.e.s == View(m) && TrafficRun(u, w, steps, w')
    ensures InOrder(m') && w'.e.s == View(m')
    ensures Live(w'.e.s, x) ==> Generated(u, w'.made, KeyOf(m'.s, x)) && TextOver(u, Lookup(w'.e.bytes, x))
  {
    TrafficMemory(u, w, steps, w');
    MemoryFollows(u.c, u.size, m, w.e, steps, m', w'.e);
    assert KeyOf(m'.s, x) == KeyOf(w'.e.s, x);
    if Live(w'.e.s, x) {
      PipelinePackets.SessionsHoldText(u, w, steps, w', x);
    }
  }

  // ---------------------------------------------------------------- bucket counts

  /** The counts after a run: those of its steps, one after the other. */
  ghost function CountsAfter(c: Config, m: Machine, acts: seq<Action>, n: Counts): Counts
    decreases |acts|
  {
    if acts == [] || !CanStep(c, m, acts[0]) then n
    else CountsAfter(c, Stepped(c, m, acts[0]), acts[1..], NextCounts(m.s, acts[0], n))
  }

  /** Only what threads are at matters, not what is in the rings. */
  lemma SameCounts(s: State, v: State, a: Action, n: Counts)
    requires v.mans == s.mans && v.sweeper == s.sweeper
    ensures NextCounts(v, a, n) == NextCounts(s, a, n)
  {
  }

  lemma {:induction false} CountsFollow(c: Config, m: Machine, acts: seq<Action>, m': Machine, n: Counts)
    requires c.Valid() && Good(m) && Inv(c, View(m)) && CountsRight(View(m), n) && HealthyRun(c, m, acts, m')
    ensures Good(m') && CountsRight(View(m'), CountsAfter(c, m, acts, n))
    decreases |acts|
  {
    if acts != [] {
      var m1 := Stepped(c, m, acts[0]);
      StepRefines(c, m, acts[0]);
      Ideal.StepInv(c, View(m), acts[0]);
      CountsStep(c, View(m), n, acts[0]);
      SameCounts(m.s, View(m), acts[0], n);
      CountsFollow(c, m1, acts[1..], m', NextCounts(m.s, acts[0], n));
    }
  }

  lemma CountsHold(c: Config, m0: Machine, acts: seq<Action>, m: Machine)
    requires c.Valid() && RingInit(c, m0) && HealthyRun(c, m0, acts, m)
    ensures Good(m) && Inv(c, View(m)) && CountsRight(View(m), CountsAfter(c, m0, acts, map[]))
  {
    InitRefines(c, m0);
    Ideal.InitInv(c, View(m0));
    CountsStart(c, View(m0));
    CountsFollow(c, m0, acts, m, map[]);
    assert Healthy(c, m);
    HealthyInv(c, m);
  }

  /** After any run, the count of a bucket is the length of its list, and one more exactly while
      its manager or the sweeper has unlinked a node there that is not back in its pool. */
  lemma BucketCounts(c: Config, m0: Machine, acts: seq<Action>, m: Machine, k: nat, b: nat)
    requires c.Valid() && RingInit(c, m0) && HealthyRun(c, m0, acts, m)
    ensures CountAt(CountsAfter(c, m0, acts, map[]), k, b) == |At(m.s.at, Bucket(k, b))| + EvictedFrom(m.s, k, b) + SweptFrom(m.s, k, b)
    ensures EvictedFrom(m.s, k, b) + SweptFrom(m.s, k, b) <= 1
  {
    CountsHold(c, m0, acts, m);
    ViewAt(m, Bucket(k, b));
    assert CountIs(View(m), CountsAfter(c, m0, acts, map[]), k, b);
    OneIsOut(c, View(m), k, b);
  }

  /** At any moment the counts of a manager's table, the nodes in its pool's ring and the new node in
      its hand add up to the 65536 allocated: the sum that `hash_count` takes is off by no more
      than the nodes on their way back, and never wraps. */
  lemma CountsConserved(c: Config, m0: Machine, acts: seq<Action>, m: Machine, k: nat)
    requires c.Valid() && RingInit(c, m0) && HealthyRun(c, m0, acts, m) && k < c.m
    ensures |m.s.mans| == c.m && Ring.Valid(RingAt(m, SessionPool(k)))
    ensures HashCount(CountsAfter(c, m0, acts, map[]), k, c.buckets) + |Ring.Contents(RingAt(m, SessionPool(k)))|
      + (if HoldsNew(m.s.mans[k]) then 1 else 0) == SESSION_CAPACITY
  {
    CountsHold(c, m0, acts, m);
    assert Healthy(c, m);
    Refines(c, m);
    ViewAt(m, SessionPool(k));
    CountsAddUp(c, View(m), CountsAfter(c, m0, acts, map[]), k);
  }
}
