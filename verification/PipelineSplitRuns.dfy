/** The other direction: what has been begun can always be carried through, and every step of the
    pipeline over the rings is a run of its parts. */
module PipelineSplitRuns {
  import opened Common
  import opened Ledger
  import opened Pipeline
  import opened PipelineInvariant
  import opened PipelineProgress
  import opened PipelineRings
  import opened PipelineRingTheorems
  import opened PipelineSplit
  import opened RingSteps
  import Ideal = PipelineTheorems
  import Ring

  // ---------------------------------------------------------------- an operation goes on

  predicate CanGoOn(c: Config, m: Machine, p: Pending) { CanWrite(m, p) || CanRead(m, p) || CanPublish(c, m, p) }

  /** Whatever the others are in the middle of, an operation under way can go on. */
  lemma GoesOn(c: Config, m: Machine, th: Thread, p: Pending)
    requires c.Valid() && Good(m) && PendingRight(c, m, th, p)
    ensures CanGoOn(c, m, p)
  {
    var ring := if Gets(p.t) then p.t.from else p.t.to;
    MovesShaped(c, m.s, p.a);
    ViewAt(m, ring);
    Ring.CapacityBound(|RingAt(m, ring).cells|);
    if Gets(p.t) && |p.read| < p.t.n {
      ReadsContents(RingAt(m, ring), |p.read|, p.t.n);
    }
  }

  /** Slots still to be written or read. */
  function Left(p: Pending): int { if p.t.Stay? then 0 else p.t.n - (if Gets(p.t) then |p.read| else p.written) }

  lemma SameStore(r: Cells, xs: seq<Obj>, k: nat)
    requires Ring.Valid(r) && k < |xs| < U32 && Store(r, xs).1
    ensures |r.cells| > 0 && Store(WriteOne(r, xs, k), xs) == Store(r, xs)
  {
    Ring.CapacityBound(|r.cells|);
    if |xs| > 1 {
      WriteAhead(r, xs, k);
    } else {
      Ring.CellInRange(r);
      SlotIs(r.enq, 0, 1, |r.cells|);
      var slot := Ring.Slot(r.enq, |r.cells|);
      assert WriteOne(r, xs, 0) == r.(cells := r.cells[slot := xs[0]]);
      assert r.cells[slot := xs[0]][slot := xs[0]] == r.cells[slot := xs[0]];
    }
  }

  /** The whole operation would do the same after its next slot has been written. */
  lemma SameTransferred(c: Config, m: Machine, t: Transfer, k: nat)
    requires InOrder(m) && Puts(t) && !Gets(t) && Accepted(c, m, t) && k < t.n && |RingAt(m, t.to).cells| > 0
    ensures var m' := m.(rings := m.rings[t.to := WriteOne(RingAt(m, t.to), Slice(m.s.at, t), k)]);
      Accepted(c, m', t) && Transferred(c, m', t) == Transferred(c, m, t)
  {
    var r, xs := RingAt(m, t.to), Slice(m.s.at, t);
    SameStore(r, xs, k);
    var r' := WriteOne(r, xs, k);
    var m' := m.(rings := m.rings[t.to := r']);
    assert RingAt(m', t.to) == r' && Slice(m'.s.at, t) == xs;
    assert m.rings[t.to := r'][t.to := Store(r, xs).0] == m.rings[t.to := Store(r, xs).0];
  }

  /** The next part of an operation leaves less of it, and what the whole of it would do as it was. */
  ghost predicate Continues(c: Config, m: Machine, p: Pending, m': Machine, p': Pending) {
    && p'.a == p.a && p'.t == p.t && 0 <= Left(p') < Left(p) && WritesBack(m', p'.t)
    && CanStep(c, m, p.a) && CanStep(c, m', p.a) && Stepped(c, m', p.a) == Stepped(c, m, p.a)
  }

  lemma WriteContinues(c: Config, m: Machine, th: Thread, p: Pending)
    requires c.Valid() && Good(m) && PendingRight(c, m, th, p) && CanWrite(m, p) && WritesBack(m, p.t)
    ensures Continues(c, m, p, Written(m, p), HasWritten(p))
  {
    MovesShaped(c, m.s, p.a);
    AcceptedIff(c, m, p.t);
    SameTransferred(c, m, p.t, p.written);
    assert RingAt(Written(m, p), p.t.to).enq == RingAt(m, p.t.to).enq;
  }

  lemma ReadContinues(c: Config, m: Machine, th: Thread, p: Pending)
    requires c.Valid() && Good(m) && PendingRight(c, m, th, p) && CanRead(m, p) && WritesBack(m, p.t)
    ensures Continues(c, m, p, m, HasRead(m, p))
  {
    MovesShaped(c, m.s, p.a);
    AcceptedIff(c, m, p.t);
  }

  /** States from which something can be reached: what leads to one of them is one. */
  ghost predicate ClosedBack(c: Config, good: Split -> bool) {
    forall w, u, w' :: Leads(c, w, u, w') && WholeMicro(w, u) && good(w') ==> good(w)
  }

  lemma Back(c: Config, w: Split, u: Micro, w': Split, good: Split -> bool)
    requires ClosedBack(c, good) && SplitInv(c, w) && Leads(c, w, u, w') && WholeMicro(w, u)
    ensures SplitInv(c, w') && (good(w') ==> good(w))
  {
    MicroInv(c, w, u, w');
  }

  /** Where the operation of a thread leads if it is carried through now. */
  ghost function Done(c: Config, w: Split, th: Thread): Split
    requires th in w.ops && CanStep(c, w.m, w.ops[th].a)
  {
    Split(Stepped(c, w.m, w.ops[th].a), w.ops - {th})
  }

  ghost predicate Shorter(c: Config, w: Split, th: Thread, w': Split)
    requires th in w.ops && th in w'.ops
  {
    && 0 <= Left(w'.ops[th]) < Left(w.ops[th]) && WritesBack(w'.m, w'.ops[th].t)
    && CanStep(c, w.m, w.ops[th].a) && CanStep(c, w'.m, w'.ops[th].a) && Done(c, w', th) == Done(c, w, th)
  }

  lemma ContinuesShorter(c: Config, w: Split, th: Thread, w': Split)
    requires th in w.ops && th in w'.ops && w'.ops == w.ops[th := w'.ops[th]] && Continues(c, w.m, w.ops[th], w'.m, w'.ops[th])
    ensures Shorter(c, w, th, w')
  {
    assert w'.ops - {th} == w.ops - {th};
  }

  lemma OnePart(c: Config, w: Split, th: Thread, good: Split -> bool) returns (w': Split)
    requires SplitInv(c, w) && th in w.ops && WritesBack(w.m, w.ops[th].t) && ClosedBack(c, good)
    ensures SplitInv(c, w') && (good(w') ==> good(w)) && CanStep(c, w.m, w.ops[th].a)
    ensures if th in w'.ops then Shorter(c, w, th, w') else w' == Done(c, w, th)
  {
    var m, p := w.m, w.ops[th];
    assert PendingRight(c, m, th, p);
    GoesOn(c, m, th, p);
    if CanWrite(m, p) {
      w' := Split(Written(m, p), w.ops[th := HasWritten(p)]);
      WriteContinues(c, m, th, p);
      Back(c, w, Write(th), w', good);
      ContinuesShorter(c, w, th, w');
    } else if CanRead(m, p) {
      w' := w.(ops := w.ops[th := HasRead(m, p)]);
      ReadContinues(c, m, th, p);
      Back(c, w, Read(th), w', good);
      ContinuesShorter(c, w, th, w');
    } else {
      w' := Split(Published(c, m, p), w.ops - {th});
      PublishIsStep(c, m, th, p);
      Back(c, w, Publish(th), w', good);
    }
  }

  lemma {:induction false} CarriesThrough(c: Config, w: Split, th: Thread, good: Split -> bool)
    requires SplitInv(c, w) && th in w.ops && WritesBack(w.m, w.ops[th].t) && CanStep(c, w.m, w.ops[th].a)
    requires ClosedBack(c, good) && good(Done(c, w, th))
    ensures good(w)
    decreases Left(w.ops[th])
  {
    var w' := OnePart(c, w, th, good);
    if th in w'.ops {
      CarriesThrough(c, w', th, good);
    }
  }

  /** A run of micro steps leads from one state to the other. */
  ghost predicate Comes(c: Config, w: Split, w': Split) { exists us :: SplitRun(c, w, us, w') }

  lemma ComesBack(c: Config, w': Split)
    ensures ClosedBack(c, w => Comes(c, w, w')) && Comes(c, w', w')
  {
    forall w, u, w1 | Leads(c, w, u, w1) && WholeMicro(w, u) && Comes(c, w1, w') ensures Comes(c, w, w') {
      var us :| SplitRun(c, w1, us, w');
      assert ([u] + us)[1..] == us;
      assert SplitRun(c, w, [u] + us, w');
    }
    assert SplitRun(c, w', [], w');
  }

  /** An operation under way can be carried through by its thread alone, to the effect that the whole operation
      would have now. */
  lemma Finishes(c: Config, w: Split, th: Thread)
    requires SplitReached(c, w) && th in w.ops && WritesBack(w.m, w.ops[th].t)
    ensures CanStep(c, w.m, w.ops[th].a) && Comes(c, w, Split(Stepped(c, w.m, w.ops[th].a), w.ops - {th}))
  {
    SplitRefines(c, w);
    var _ := OnePart(c, w, th, _ => true);
    ComesBack(c, Done(c, w, th));
    CarriesThrough(c, w, th, w0 => Comes(c, w0, Done(c, w, th)));
  }

  // ---------------------------------------------------------------- a step is a run of its parts

  lemma Begun(c: Config, w: Split, a: Action, good: Split -> bool) returns (w': Split)
    requires SplitInv(c, w) && CanBegin(c, w, a) && ClosedBack(c, good)
    ensures w' == w.(ops := w.ops[Ideal.Actor(a) := Pending(a, Moves(c, w.m.s, a), 0, [])])
    ensures SplitInv(c, w') && (good(w') ==> good(w)) && w'.ops - {Ideal.Actor(a)} == w.ops
  {
    w' := w.(ops := w.ops[Ideal.Actor(a) := Pending(a, Moves(c, w.m.s, a), 0, [])]);
    Back(c, w, Begin(a), w', good);
  }

  lemma Unparted(c: Config, w: Split, a: Action, good: Split -> bool)
    requires Ideal.Actor(a) !in w.ops && CanStep(c, w.m, a) && !UsesRing(Moves(c, w.m.s, a)) && ClosedBack(c, good)
    ensures good(w.(m := Stepped(c, w.m, a))) ==> good(w)
  {
    assert Leads(c, w, Single(a), w.(m := Stepped(c, w.m, a)));
  }

  /** Every step over the rings is a run of micro steps of its thread, whatever others are in the middle of, if
      no other sender has the mutex. */
  lemma StepIsRun(c: Config, w: Split, a: Action)
    requires SplitInv(c, w) && Ideal.Actor(a) !in w.ops && CanStep(c, w.m, a) && Whole(c, w.m, a) && MutexFree(w, Moves(c, w.m.s, a))
    ensures Comes(c, w, w.(m := Stepped(c, w.m, a)))
  {
    var w' := w.(m := Stepped(c, w.m, a));
    ComesBack(c, w');
    if UsesRing(Moves(c, w.m.s, a)) {
      var w1 := Begun(c, w, a, w0 => Comes(c, w0, w'));
      CarriesThrough(c, w1, Ideal.Actor(a), w0 => Comes(c, w0, w'));
    } else {
      Unparted(c, w, a, w0 => Comes(c, w0, w'));
    }
  }

  /** Nobody is in the middle of anything. */
  function Quiet(m: Machine): Split { Split(m, map[]) }

  lemma {:induction false} Joined(c: Config, w: Split, us: seq<Micro>, w1: Split, w': Split)
    requires SplitRun(c, w, us, w1) && Comes(c, w1, w')
    ensures Comes(c, w, w')
    decreases |us|
  {
    if us != [] {
      var w2 :| Leads(c, w, us[0], w2) && WholeMicro(w, us[0]) && SplitRun(c, w2, us[1..], w1);
      Joined(c, w2, us[1..], w1, w');
      ComesBack(c, w');
    }
  }

  lemma QuietStep(c: Config, m: Machine, a: Action, w': Split)
    requires SplitInv(c, Quiet(m)) && CanStep(c, m, a) && Whole(c, m, a)
    ensures SplitInv(c, Quiet(Stepped(c, m, a))) && (Comes(c, Quiet(Stepped(c, m, a)), w') ==> Comes(c, Quiet(m), w'))
  {
    StepStays(c, Quiet(m), a, Stepped(c, m, a), map[]);
    StepIsRun(c, Quiet(m), a);
    if Comes(c, Quiet(Stepped(c, m, a)), w') {
      var us :| SplitRun(c, Quiet(m), us, Quiet(Stepped(c, m, a)));
      Joined(c, Quiet(m), us, Quiet(Stepped(c, m, a)), w');
    }
  }

  /** And so is every run whose batches write back whole counters. */
  lemma {:induction false} RunIsSplit(c: Config, m: Machine, acts: seq<Action>, m': Machine)
    requires SplitInv(c, Quiet(m)) && HealthyRun(c, m, acts, m')
    ensures Comes(c, Quiet(m), Quiet(m'))
    decreases |acts|
  {
    if acts == [] {
      ComesBack(c, Quiet(m'));
    } else {
      QuietStep(c, m, acts[0], Quiet(m'));
      RunIsSplit(c, Stepped(c, m, acts[0]), acts[1..], m');
    }
  }

  // ---------------------------------------------------------------- progress

  /** The thread can go on with the operation that it is in the middle of, or can step or begin one. */
  ghost predicate CanMove(c: Config, w: Split, a: Action) {
    if Ideal.Actor(a) in w.ops then CanGoOn(c, w.m, w.ops[Ideal.Actor(a)])
    else CanBegin(c, w, a) || (CanStep(c, w.m, a) && !UsesRing(Moves(c, w.m.s, a)))
  }

  /** The thread is in the middle of putting something into the ring that the action is for, and can go on. */
  ghost predicate InTheWay(c: Config, w: Split, a: Action, th: Thread) {
    && th in w.ops && CanGoOn(c, w.m, w.ops[th])
    && Guard(c, w.m.s, a) && Puts(Moves(c, w.m.s, a)) && Puts(w.ops[th].t) && w.ops[th].t.to == Moves(c, w.m.s, a).to
  }

  /** Whoever could step over ideal queues can move, or waits for a mutex whose holder can. */
  lemma EnabledMoves(c: Config, w: Split, a: Action) returns (th: Thread)
    requires SplitInv(c, w) && Enabled(c, View(w.m), a)
    ensures CanMove(c, w, a) || InTheWay(c, w, a, th)
  {
    th := Ideal.Actor(a);
    CanStepIff(c, w.m, a);
    if th in w.ops {
      GoesOn(c, w.m, th, w.ops[th]);
    } else if UsesRing(Moves(c, w.m.s, a)) && !MutexFree(w, Moves(c, w.m.s, a)) {
      th :| th in w.ops && Puts(w.ops[th].t) && w.ops[th].t.to == Moves(c, w.m.s, a).to;
      GoesOn(c, w.m, th, w.ops[th]);
    }
  }

  /** Deadlock freedom with the operations taken apart: as long as no manager has run out of session nodes
      and the sweeper is in no bucket, a generator that feeds few enough parsers, one of those or a manager
      can move, or the holder of the mutex that it waits for can. */
  lemma SplitProgress(c: Config, w: Split, i: nat) returns (a: Action, th: Thread)
    requires SplitReached(c, w) && i < c.g && !Overfed(c, i) && InOrder(w.m)
    requires |w.m.s.mans| == c.m && !Inside(w.m.s.sweeper) && forall k :: 0 <= k < c.m ==> !Starved(View(w.m), k)
    ensures Concerns(c, i, a) && (CanMove(c, w, a) || InTheWay(c, w, a, th))
  {
    SplitRefines(c, w);
    a := Progress(c, View(w.m), i);
    th := EnabledMoves(c, w, a);
  }
}
