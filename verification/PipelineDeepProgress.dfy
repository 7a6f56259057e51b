/** Waiting and progress at every `pipe_depth`, over the rings. */
module PipelineDeepProgress {
  import opened Ledger
  import opened Pipeline
  import opened PipelineInvariant
  import opened PipelineSafety
  import opened PipelineProgress
  import opened PipelineWedge
  import opened PipelineRings
  import opened PipelineRingTheorems
  import opened PipelineStarving
  import Ideal = PipelineTheorems

  // ---------------------------------------------------------------- when a wait can end

  /** A step of a manager or of the sweeper uses no batch, so the rings follow it at any age. */
  lemma HelperStepRealized(c: Config, m: Machine, a: Action, s: State) returns (m': Machine)
    requires c.Valid() && Good(m) && Enabled(c, View(m), a) && (a.BySweeper? || a.ByManager?) && s == Step(c, View(m), a)
    ensures IsStep(c, m, a, m') && Good(m') && View(m') == s
  {
    CanStepIff(c, m, a);
    StepRefines(c, m, a);
    m' := Stepped(c, m, a);
  }

  lemma {:induction false} HelpersRealized(c: Config, m: Machine, acts: seq<Action>, t: State) returns (m': Machine)
    requires c.Valid() && Good(m) && HelperRun(c, View(m), acts, t)
    ensures HealthyRun(c, m, acts, m') && Good(m') && View(m') == t
    decreases |acts|
  {
    m' := m;
    if acts != [] {
      var s1 := Step(c, View(m), acts[0]);
      var m1 := HelperStepRealized(c, m, acts[0], s1);
      m' := HelpersRealized(c, m1, acts[1..], t);
    }
  }

  ghost predicate IsServed(c: Config, m: Machine, acts: seq<Action>, m': Machine, k: nat) {
    HealthyRun(c, m, acts, m') && CanStep(c, m', ByManager(k, TakeNode))
  }

  /** A waiting manager can ever get a node if and only if its pool or the sweeper's hand has one, or
      the sweeper comes by one before it meets a dead end. */
  lemma WaitEndsIff(c: Config, m: Machine, k: nat, b: nat)
    requires Healthy(c, m) && InOrder(m) && k < c.m && Waits(m.s, k, b)
    ensures (exists acts, m' :: IsServed(c, m, acts, m', k)) <==> CanBeServed(c, View(m), k)
  {
    HealthyInv(c, m);
    Refines(c, m);
    if CanBeServed(c, View(m), k) {
      var acts, t := Helped(c, View(m), k, b);
      var m' := HelpersRealized(c, m, acts, t);
      NotRefused(c, m', ByManager(k, TakeNode));
      assert IsServed(c, m, acts, m', k);
    } else {
      var h, e := NotServed(c, View(m), k, b);
      forall acts, m' ensures !IsServed(c, m, acts, m', k) {
        if IsServed(c, m, acts, m', k) {
          RunRefines(c, m, acts, m');
          NeverEnabled(c, View(m), acts, View(m'), k, b, h, e);
          CanStepIff(c, m', ByManager(k, TakeNode));
        }
      }
    }
  }

  lemma NeverEnabled(c: Config, s: State, acts: seq<Action>, t: State, k: nat, b: nat, h: nat, e: nat)
    requires Inv(c, s) && InVain(c, s, k, b, h, e) && IsRun(c, s, acts, t)
    ensures !Enabled(c, t, ByManager(k, TakeNode))
  {
    WaitsThrough(c, s, acts, t, k, b, h, e);
  }

  // ---------------------------------------------------------------- deadlock freedom at any depth

  predicate AllBySweeper(acts: seq<Action>) { forall n :: 0 <= n < |acts| ==> acts[n].BySweeper? }

  ghost predicate SweeperRun(c: Config, s: State, acts: seq<Action>, t: State) {
    IsRun(c, s, acts, t) && AllBySweeper(acts)
  }

  /** Before a manager first steps in such a run, only the sweeper does. */
  lemma {:induction false} FirstManager(c: Config, s: State, acts: seq<Action>, t: State, k: nat)
      returns (first: seq<Action>, s': State, a: Action)
    requires HelperRun(c, s, acts, t) && ManagerEnabled(c, t, k, TakeNode)
    ensures SweeperRun(c, s, first, s') && Enabled(c, s', a) && a.ByManager?
    decreases |acts|
  {
    if acts == [] {
      first, s', a := [], s, ByManager(k, TakeNode);
    } else if acts[0].ByManager? {
      first, s', a := [], s, acts[0];
    } else {
      var s1 := Step(c, s, acts[0]);
      first, s', a := FirstManager(c, s1, acts[1..], t, k);
      assert ([BySweeper(acts[0].w)] + first)[1..] == first;
      first := [acts[0]] + first;
    }
  }

  ghost predicate NoneLost(s: State, t: State) {
    t.mans == s.mans && forall k: nat {:trigger SessionPool(k)} :: At(s.at, SessionPool(k)) != [] ==> At(t.at, SessionPool(k)) != []
  }

  /** On its way out of a bucket the sweeper hands back the node in its hand. */
  function WayOut(s: State): SweeperAct { if s.sweeper.Unlinked? then SweepReturn else SweepUnlock }

  lemma StepOut(c: Config, s: State) returns (t: State)
    requires c.Valid() && Reachable(c, s) && Inside(s.sweeper)
    ensures SweeperEnabled(c, s, WayOut(s)) && t == SweeperStep(c, s, WayOut(s)) && Reachable(c, t) && NoneLost(s, t)
    ensures t.sweeper.Walking? || !Inside(t.sweeper)
    ensures !s.sweeper.Unlinked? ==> !Inside(t.sweeper)
  {
    if s.sweeper.Unlinked? {
      Ideal.SweeperNeverRetries(c, s);
    }
    CarryAt(s.at, SweeperMoves(s, WayOut(s)));
    t := SweeperStep(c, s, WayOut(s));
    ReachableStep(c, s, BySweeper(WayOut(s)), t);
  }

  /** The sweeper leaves its bucket, and takes no node away. */
  lemma LeaveBucket(c: Config, s: State) returns (acts: seq<Action>, t: State)
    requires c.Valid() && Reachable(c, s)
    ensures SweeperRun(c, s, acts, t) && Reachable(c, t) && !Inside(t.sweeper) && NoneLost(s, t)
    decreases if s.sweeper.Unlinked? then 2 else if s.sweeper.Walking? then 1 else 0
  {
    acts, t := [], s;
    if Inside(s.sweeper) {
      var s1 := StepOut(c, s);
      acts, t := LeaveBucket(c, s1);
      assert ([BySweeper(WayOut(s))] + acts)[1..] == acts;
      acts := [BySweeper(WayOut(s))] + acts;
    }
  }

  ghost predicate SomeStarved(c: Config, s: State) { exists k: nat :: k < c.m && k < |s.mans| && Starved(s, k) }

  ghost predicate SomeCanBeServed(c: Config, s: State) {
    exists k: nat :: k < c.m && k < |s.mans| && Starved(s, k) && CanBeServed(c, s, k)
  }

  lemma SweptProgress(c: Config, s: State, i: nat) returns (acts: seq<Action>, t: State, a: Action)
    requires c.Valid() && Reachable(c, s) && i < c.g && !Overfed(c, i) && (SomeStarved(c, s) ==> SomeCanBeServed(c, s))
    ensures SweeperRun(c, s, acts, t) && Enabled(c, t, a) && Concerns(c, i, a)
  {
    if SomeStarved(c, s) {
      var k: nat :| k < c.m && k < |s.mans| && Starved(s, k) && CanBeServed(c, s, k);
      var helpers, t' := Helped(c, s, k, s.mans[k].b);
      acts, t, a := FirstManager(c, s, helpers, t', k);
    } else {
      acts, t, a := NoneStarved(c, s, i);
    }
  }

  lemma NoneStarved(c: Config, s: State, i: nat) returns (acts: seq<Action>, t: State, a: Action)
    requires c.Valid() && Reachable(c, s) && i < c.g && !Overfed(c, i) && !SomeStarved(c, s)
    ensures SweeperRun(c, s, acts, t) && Enabled(c, t, a) && Concerns(c, i, a)
  {
    acts, t := LeaveBucket(c, s);
    Ideal.ReachableInv(c, t);
    forall k: nat | k < c.m ensures !Starved(t, k) {
      assert !Starved(s, k);
      var _ := SessionPool(k);
    }
    a := Progress(c, t, i);
  }

  /** At any `pipe_depth` and in any state of the rings: if no manager waits for a node, or one that
      does can be served, then a generator that feeds few enough parsers, one of those or a manager can
      step, if need be after some steps of the sweeper. */
  lemma DeepProgress(c: Config, m: Machine, i: nat) returns (acts: seq<Action>, m': Machine, a: Action)
    requires Healthy(c, m) && InOrder(m) && i < c.g && !Overfed(c, i)
    requires SomeStarved(c, View(m)) ==> SomeCanBeServed(c, View(m))
    ensures HealthyRun(c, m, acts, m') && AllBySweeper(acts)
    ensures CanStep(c, m', a) && Concerns(c, i, a)
  {
    Refines(c, m);
    var t;
    acts, t, a := SweptProgress(c, View(m), i);
    m' := HelpersRealized(c, m, acts, t);
    NotRefused(c, m', a);
  }
}
