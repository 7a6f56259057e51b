/** A manager that waits for a session node while it holds a bucket's lock.

    The sweeper goes through the buckets in order and stops at a locked one.  Only nodes that it
    comes by on its way, before it meets the lock of a manager for which it has none, can still
    come back to a pool.  So whether a wait can end is decided by where the sweeper is, which
    buckets are locked and where the nodes are. */
module PipelineStarving {
  import opened Ledger
  import opened Pipeline
  import opened PipelineInvariant
  import opened PipelineSafety
  import opened PipelineTheorems
  import opened PipelineProgress
  import opened PipelineWedge
  import opened PipelineBytes
  import Arith

  // ---------------------------------------------------------------- the sweeper's way

  function BucketNumber(c: Config, m: nat, b: nat): nat
    ensures BucketNumber(c, m, b) >= b
  {
    Arith.MulNonNegative(m, c.buckets);
    m * c.buckets + b
  }

  predicate IsBucket(c: Config, m: nat, b: nat) { m < c.m && b < c.buckets }

  lemma NumberFits(c: Config, m: nat, b: nat)
    requires IsBucket(c, m, b)
    ensures BucketNumber(c, m, b) < BucketNumber(c, c.m, 0)
  {
    Arith.MulNonNegative(c.m - 1 - m, c.buckets);
    assert (c.m - 1 - m) * c.buckets == c.m * c.buckets - c.buckets - m * c.buckets;
  }

  /** How many buckets the sweeper comes to before this one; if it was not started there are none. */
  function BucketsAhead(c: Config, s: State, m: nat, b: nat): int {
    if s.sweeper.Off? then 0
    else
      var d := BucketNumber(c, m, b) - BucketNumber(c, s.sweeper.m, s.sweeper.b);
      if d >= 0 then d else d + BucketNumber(c, c.m, 0)
  }

  predicate Here(s: State, m: nat, b: nat) { !s.sweeper.Off? && s.sweeper.m == m && s.sweeper.b == b }

  /** The sweeper is at a bucket that exists. */
  predicate OnItsWay(c: Config, s: State) { !s.sweeper.Off? && IsBucket(c, s.sweeper.m, s.sweeper.b) }

  lemma AheadRange(c: Config, s: State, m: nat, b: nat)
    requires OnItsWay(c, s) && IsBucket(c, m, b)
    ensures 0 <= BucketsAhead(c, s, m, b) < BucketNumber(c, c.m, 0)
    ensures BucketsAhead(c, s, m, b) == 0 <==> Here(s, m, b)
  {
    NumberFits(c, m, b);
    NumberFits(c, s.sweeper.m, s.sweeper.b);
    if BucketsAhead(c, s, m, b) == 0 {
      Arith.DivModUnique(BucketNumber(c, m, b), c.buckets, m, b);
      Arith.DivModUnique(BucketNumber(c, s.sweeper.m, s.sweeper.b), c.buckets, s.sweeper.m, s.sweeper.b);
    }
  }

  /** Having left a bucket, the sweeper is one nearer to every other one. */
  lemma OneNearer(c: Config, s: State, s': State, m: nat, b: nat)
    requires OnItsWay(c, s) && s'.sweeper == NextBucket(c, s.sweeper.m, s.sweeper.b) && IsBucket(c, m, b)
    ensures OnItsWay(c, s')
    ensures BucketsAhead(c, s', m, b) == if Here(s, m, b) then BucketNumber(c, c.m, 0) - 1 else BucketsAhead(c, s, m, b) - 1
  {
    NumberFits(c, s.sweeper.m, s.sweeper.b);
    assert (s.sweeper.m + 1) * c.buckets == s.sweeper.m * c.buckets + c.buckets;
    if s.sweeper.m + 1 < c.m {
      NumberFits(c, s.sweeper.m + 1, 0);
    }
    NumberFits(c, m, b);
    if BucketNumber(c, m, b) == BucketNumber(c, s.sweeper.m, s.sweeper.b) {
      Arith.DivModUnique(BucketNumber(c, m, b), c.buckets, m, b);
      Arith.DivModUnique(BucketNumber(c, s.sweeper.m, s.sweeper.b), c.buckets, s.sweeper.m, s.sweeper.b);
    }
  }

  // ---------------------------------------------------------------- nodes on the way

  /** The sweeper has not passed this node of its bucket and left it there. */
  predicate Unpassed(s: State, m: nat, b: nat, i: int) { Inside(s.sweeper) && Here(s, m, b) ==> i >= s.sweeper.kept }

  /** A node of manager `k` lies in a bucket fewer than `d` buckets ahead. */
  ghost predicate NodeWithin(c: Config, s: State, k: nat, d: int) {
    !s.sweeper.Off? && exists b: nat, i :: NodeAhead(c, s, k, d, b, i)
  }

  predicate NodeAhead(c: Config, s: State, k: nat, d: int, b: nat, i: int) {
    b < c.buckets && 0 <= i < |At(s.at, Bucket(k, b))| && Unpassed(s, k, b, i) && BucketsAhead(c, s, k, b) < d
  }

  predicate InSweepersHand(s: State, k: nat) { s.sweeper.Unlinked? && Hand(s, SweeperHand).home == k }

  /** There is a node for manager `k`, or the sweeper comes by one. */
  ghost predicate Supplied(c: Config, s: State, k: nat, d: int) {
    At(s.at, SessionPool(k)) != [] || InSweepersHand(s, k) || NodeWithin(c, s, k, d)
  }

  // ---------------------------------------------------------------- managers that need one

  predicate FindsNothing(s: State, k: nat, b: nat) {
    forall i :: 0 <= i < |At(s.at, Bucket(k, b))| ==> !SameKey(s, k, b, i)
  }

  /** The manager waits for a node for its bucket `b`, or is bound to. */
  predicate Needs(s: State, k: nat, b: nat) {
    k < |s.mans| && (s.mans[k] == WantingNode(b) || (s.mans[k] == Searching(b) && FindsNothing(s, k, b)))
  }

  /** The sweeper cannot get past the bucket of a manager for which it finds nothing on its way there. */
  ghost predicate DeadEnd(c: Config, s: State, k: nat, b: nat) {
    k < c.m && Needs(s, k, b) && !Supplied(c, s, k, BucketsAhead(c, s, k, b))
  }

  ghost predicate Clear(c: Config, s: State, d: int) {
    forall k: nat, b: nat {:trigger DeadEnd(c, s, k, b)} :: DeadEnd(c, s, k, b) ==> BucketsAhead(c, s, k, b) >= d
  }

  /** A node is in the pool or in the sweeper's hand, or on the sweeper's way with no dead end before it. */
  ghost predicate CanBeServed(c: Config, s: State, k: nat) {
    || At(s.at, SessionPool(k)) != [] || InSweepersHand(s, k)
    || exists d: nat :: Clear(c, s, d) && NodeWithin(c, s, k, d)
  }

  predicate Waits(s: State, k: nat, b: nat) { k < |s.mans| && s.mans[k] == WantingNode(b) }

  /** What the invariant says of such managers. */
  lemma NeedsFacts(c: Config, s: State, k: nat, b: nat)
    requires Inv(c, s) && k < c.m && Needs(s, k, b)
    ensures b < c.buckets && HasLock(s.mans[k], b) && (k, b) in s.locked && !SweeperHas(s, k, b)
    ensures !s.sweeper.Off? ==> OnItsWay(c, s)
  {
    assert HasLock(s.mans[k], b);
  }

  // ---------------------------------------------------------------- steps of other threads

  predicate ByAnother(a: Action, k: nat) { !(a.ByManager? && a.k == k) }

  /** Nobody gets at a bucket that its manager has locked. */
  lemma LockedStays(c: Config, s: State, a: Action, k: nat, b: nat)
    requires Inv(c, s) && Enabled(c, s, a) && k < c.m && HasLock(s.mans[k], b) && ByAnother(a, k)
    ensures var s' := Step(c, s, a);
      && k < |s'.mans| && s'.mans[k] == s.mans[k]
      && At(s'.at, Bucket(k, b)) == At(s.at, Bucket(k, b)) && At(s'.at, ManagerFlow(k)) == At(s.at, ManagerFlow(k))
  {
    StaysAway(c, s, a, k, b);
    StepMoves(c, s, a);
    CarryAt(s.at, Moves(c, s, a));
  }

  lemma StaysAway(c: Config, s: State, a: Action, k: nat, b: nat)
    requires Locks(c, s) && Enabled(c, s, a) && k < c.m && HasLock(s.mans[k], b) && ByAnother(a, k)
    ensures var t := Moves(c, s, a); t.Transfer? ==>
      t.from != Bucket(k, b) && t.to != Bucket(k, b) && t.from != ManagerFlow(k) && t.to != ManagerFlow(k)
  {
  }

  /** The keys of sessions in a bucket and of a manager's flow item stay as they are. */
  lemma KeysStay(c: Config, s: State, a: Action, k: nat, b: nat, i: nat)
    requires Inv(c, s) && Enabled(c, s, a) && k < c.m && HoldsFlow(s.mans[k]) && i < |At(s.at, Bucket(k, b))|
    ensures KeyOf(Step(c, s, a), At(s.at, Bucket(k, b))[i]) == KeyOf(s, At(s.at, Bucket(k, b))[i])
  {
    var x := At(s.at, Bucket(k, b))[i];
    assert Holds(s.at, Bucket(k, b), i, x) && Fits(c, Bucket(k, b), x);
    WrittenKinds(c, s, a);
    SessionKeyKept(c, s, a, x);
  }

  lemma NeedsStays(c: Config, s: State, a: Action, k: nat, b: nat)
    requires Inv(c, s) && Enabled(c, s, a) && k < c.m && ByAnother(a, k) && (Needs(s, k, b) || Needs(Step(c, s, a), k, b))
    ensures Needs(Step(c, s, a), k, b) && Needs(s, k, b) && k < |Step(c, s, a).mans|
  {
    var s' := Step(c, s, a);
    assert HasLock(s.mans[k], b);
    LockedStays(c, s, a, k, b);
    var f := Hand(s, ManagerFlow(k));
    assert ManagerShape(s, k);
    assert Holds(s.at, ManagerFlow(k), 0, f) && Fits(c, ManagerFlow(k), f);
    WrittenKinds(c, s, a);
    if Fills(a) {
      Absent(s.at, ParserFlows(a.j), ManagerFlow(k), 0, f);
    }
    KeyKept(c, s, a, f);
    forall i | 0 <= i < |At(s.at, Bucket(k, b))| ensures SameKey(s', k, b, i) == SameKey(s, k, b, i) {
      KeysStay(c, s, a, k, b, i);
    }
  }

  /** The places of a manager's nodes, and the sweeper, are as before. */
  ghost predicate SameSupply(s: State, s': State, k: nat) {
    && s'.sweeper == s.sweeper && At(s'.at, SweeperHand) == At(s.at, SweeperHand)
    && At(s'.at, SessionPool(k)) == At(s.at, SessionPool(k))
    && forall b: nat {:trigger Bucket(k, b)} :: At(s'.at, Bucket(k, b)) == At(s.at, Bucket(k, b))
  }

  lemma SuppliedAlike(c: Config, s: State, s': State, k: nat, d: int)
    requires SameSupply(s, s', k)
    ensures Supplied(c, s', k, d) <==> Supplied(c, s, k, d)
    ensures forall m: nat, b: nat {:trigger BucketsAhead(c, s', m, b)} :: BucketsAhead(c, s', m, b) == BucketsAhead(c, s, m, b)
  {
    if !s.sweeper.Off? {
      forall b: nat, i ensures NodeAhead(c, s', k, d, b, i) <==> NodeAhead(c, s, k, d, b, i) {
        var _ := Bucket(k, b);
      }
    }
  }

  lemma OthersSupply(c: Config, s: State, a: Action, k: nat)
    requires Inv(c, s) && Enabled(c, s, a) && ByAnother(a, k) && !a.BySweeper?
    ensures SameSupply(s, Step(c, s, a), k)
  {
    StepMoves(c, s, a);
    CarryAt(s.at, Moves(c, s, a));
    if a.ByManager? {
      ManagersSupply(c, s, a.k, a.m, k);
    }
  }

  lemma ManagersSupply(c: Config, s: State, h: nat, a: ManagerAct, k: nat)
    requires Inv(c, s) && ManagerEnabled(c, s, h, a) && h != k
    ensures SameSupply(s, ManagerStep(c, s, h, a), k)
  {
    if a.ReturnEvicted? {
      var n := Hand(s, ManagerSession(h));
      assert ManagerShape(s, h);
      assert Holds(s.at, ManagerSession(h), 0, n) && Fits(c, ManagerSession(h), n) && Stamped(s, ManagerSession(h));
    }
    ManagersOwnPlaces(c, s, h, a, k);
  }

  lemma ManagersOwnPlaces(c: Config, s: State, h: nat, a: ManagerAct, k: nat)
    requires ManagerEnabled(c, s, h, a) && h != k && (a.ReturnEvicted? ==> ManagerMoves(s, h, a).to == SessionPool(h))
    ensures SameSupply(s, ManagerStep(c, s, h, a), k)
  {
    CarryAt(s.at, ManagerMoves(s, h, a));
  }

  // ---------------------------------------------------------------- steps of the sweeper

  /** What is known of the sweeper and its hand. */
  lemma SweeperFacts(c: Config, s: State)
    requires Inv(c, s) && !s.sweeper.Off?
    ensures OnItsWay(c, s)
    ensures s.sweeper.Unlinked? ==>
      |At(s.at, SweeperHand)| == 1 && SweeperMoves(s, SweepReturn) == Transfer(SweeperHand, 0, 1, SessionPool(Hand(s, SweeperHand).home))
  {
    if s.sweeper.Unlinked? {
      assert Holds(s.at, SweeperHand, 0, Hand(s, SweeperHand)) && Fits(c, SweeperHand, Hand(s, SweeperHand));
    }
  }

  /** Entering a bucket and handing a node back leave the way as it is. */
  lemma LockSupply(c: Config, s: State, k: nat, d: int)
    requires Inv(c, s) && SweeperEnabled(c, s, SweepLock)
    ensures Supplied(c, SweeperStep(c, s, SweepLock), k, d) <==> Supplied(c, s, k, d)
  {
    var s' := SweeperStep(c, s, SweepLock);
    forall b: nat, i ensures NodeAhead(c, s', k, d, b, i) <==> NodeAhead(c, s, k, d, b, i) {
    }
  }

  lemma ReturnSupply(c: Config, s: State, k: nat, d: int)
    requires Inv(c, s) && SweeperEnabled(c, s, SweepReturn)
    ensures Supplied(c, SweeperStep(c, s, SweepReturn), k, d) <==> Supplied(c, s, k, d)
    ensures InSweepersHand(s, k) ==> At(SweeperStep(c, s, SweepReturn).at, SessionPool(k)) != []
  {
    var s' := SweeperStep(c, s, SweepReturn);
    SweeperFacts(c, s);
    CarryAt(s.at, SweeperMoves(s, SweepReturn));
    forall b: nat, i ensures NodeAhead(c, s', k, d, b, i) <==> NodeAhead(c, s, k, d, b, i) {
      var _ := Bucket(k, b);
    }
  }

  /** A node that is unlinked is on its way to the pool. */
  lemma UnlinkEffect(c: Config, s: State, pos: nat)
    requires Inv(c, s) && SweeperEnabled(c, s, SweepUnlink(pos))
    ensures var s', m, b := SweeperStep(c, s, SweepUnlink(pos)), s.sweeper.m, s.sweeper.b;
      && IsBucket(c, m, b) && s'.sweeper == Unlinked(m, b, pos) && pos >= s.sweeper.kept
      && pos < |At(s.at, Bucket(m, b))| && Hand(s', SweeperHand).home == m
      && At(s'.at, Bucket(m, b)) == At(s.at, Bucket(m, b))[..pos] + At(s.at, Bucket(m, b))[pos + 1..]
      && forall p: Place {:trigger At(s'.at, p)} :: p != Bucket(m, b) && p != SweeperHand ==> At(s'.at, p) == At(s.at, p)
  {
    var t := SweeperMoves(s, SweepUnlink(pos));
    CarryAt(s.at, t);
    var x := At(s.at, t.from)[pos];
    assert Holds(s.at, t.from, pos, x) && Fits(c, t.from, x);
    assert At(s.at, SweeperHand) == [];
  }

  lemma UnlinkSupply(c: Config, s: State, pos: nat, k: nat, d: int)
    requires Inv(c, s) && SweeperEnabled(c, s, SweepUnlink(pos)) && d > 0
    ensures Supplied(c, SweeperStep(c, s, SweepUnlink(pos)), k, d) ==> Supplied(c, s, k, d)
    ensures pos == s.sweeper.kept && Supplied(c, s, k, d) ==> Supplied(c, SweeperStep(c, s, SweepUnlink(pos)), k, d)
  {
    var s', m, b := SweeperStep(c, s, SweepUnlink(pos)), s.sweeper.m, s.sweeper.b;
    UnlinkEffect(c, s, pos);
    if k == m {
      AheadRange(c, s, m, b);
      assert NodeAhead(c, s, k, d, b, pos);
    } else {
      forall b': nat, i ensures NodeAhead(c, s', k, d, b', i) <==> NodeAhead(c, s, k, d, b', i) {
        var _ := At(s'.at, Bucket(k, b'));
      }
      var _ := At(s'.at, SessionPool(k));
    }
  }

  /** Leaving a bucket brings the sweeper nearer to all others. */
  lemma UnlockSupply(c: Config, s: State, k: nat, d: int)
    requires Inv(c, s) && SweeperEnabled(c, s, SweepUnlock) && k < c.m && d <= BucketNumber(c, c.m, 0)
    ensures Supplied(c, SweeperStep(c, s, SweepUnlock), k, d - 1) ==> Supplied(c, s, k, d)
    ensures s.sweeper.kept >= |At(s.at, Bucket(s.sweeper.m, s.sweeper.b))| && Supplied(c, s, k, d) ==>
      Supplied(c, SweeperStep(c, s, SweepUnlock), k, d - 1)
  {
    var s', e := SweeperStep(c, s, SweepUnlock), d - 1;
    if b: nat, i :| NodeAhead(c, s', k, e, b, i) {
      OneNearer(c, s, s', k, b);
      assert NodeAhead(c, s, k, d, b, i);
    }
    if s.sweeper.kept >= |At(s.at, Bucket(s.sweeper.m, s.sweeper.b))| {
      if b: nat, i :| NodeAhead(c, s, k, d, b, i) {
        OneNearer(c, s, s', k, b);
        assert NodeAhead(c, s', k, e, b, i);
      }
    }
  }

  /** A distance ahead, after a step of the sweeper. */
  function Progressed(a: SweeperAct, d: int): int { if a.SweepUnlock? then d - 1 else d }

  // ---------------------------------------------------------------- waiting in vain

  /** Manager `k` waits, and the sweeper meets the dead end at bucket `e` of manager `h` before any
      node of manager `k`. */
  ghost predicate InVain(c: Config, s: State, k: nat, b: nat, h: nat, e: nat) {
    k < c.m && Waits(s, k, b) && DeadEnd(c, s, h, e) && !Supplied(c, s, k, BucketsAhead(c, s, h, e))
  }

  /** No step of the sweeper brings a node of manager `k` before a bucket `d` ahead. */
  lemma NoneBrought(c: Config, s: State, a: SweeperAct, k: nat, d: int)
    requires Inv(c, s) && SweeperEnabled(c, s, a) && k < c.m && 0 < d <= BucketNumber(c, c.m, 0)
    ensures Supplied(c, SweeperStep(c, s, a), k, Progressed(a, d)) ==> Supplied(c, s, k, d)
  {
    match a
    case SweepLock => LockSupply(c, s, k, d);
    case SweepUnlink(pos) => UnlinkSupply(c, s, pos, k, d);
    case SweepReturn => ReturnSupply(c, s, k, d);
    case SweepUnlock => UnlockSupply(c, s, k, d);
  }

  /** The sweeper does not get to a locked bucket but step by step, and not into it. */
  lemma LockAhead(c: Config, s: State, a: SweeperAct, h: nat, e: nat)
    requires Inv(c, s) && SweeperEnabled(c, s, a) && h < c.m && Needs(s, h, e)
    ensures 0 < BucketsAhead(c, s, h, e) < BucketNumber(c, c.m, 0)
    ensures BucketsAhead(c, SweeperStep(c, s, a), h, e) == Progressed(a, BucketsAhead(c, s, h, e))
  {
    NeedsFacts(c, s, h, e);
    AheadRange(c, s, h, e);
    if a.SweepUnlock? {
      OneNearer(c, s, SweeperStep(c, s, a), h, e);
    }
  }

  lemma OthersInVain(c: Config, s: State, a: Action, k: nat, b: nat, h: nat, e: nat)
    requires Inv(c, s) && Enabled(c, s, a) && !a.BySweeper? && InVain(c, s, k, b, h, e)
    ensures InVain(c, Step(c, s, a), k, b, h, e)
  {
    var s', d := Step(c, s, a), BucketsAhead(c, s, h, e);
    if ByAnother(a, h) {
      NeedsStays(c, s, a, h, e);
      OthersSupply(c, s, a, h);
    } else {
    }
    SuppliedAlike(c, s, s', h, d);
    if k != h {
      assert ByAnother(a, k);
      OthersSupply(c, s, a, k);
      SuppliedAlike(c, s, s', k, d);
    }
  }

  /** No step of any thread ends such a wait. */
  lemma WaitsForever(c: Config, s: State, a: Action, k: nat, b: nat, h: nat, e: nat)
    requires Inv(c, s) && Enabled(c, s, a) && InVain(c, s, k, b, h, e)
    ensures InVain(c, Step(c, s, a), k, b, h, e)
  {
    if a.BySweeper? {
      var d := BucketsAhead(c, s, h, e);
      LockAhead(c, s, a.w, h, e);
      NeedsStays(c, s, BySweeper(a.w), h, e);
      NoneBrought(c, s, a.w, k, d);
      NoneBrought(c, s, a.w, h, d);
    } else {
      OthersInVain(c, s, a, k, b, h, e);
    }
  }

  lemma {:induction false} WaitsThrough(c: Config, s: State, acts: seq<Action>, t: State, k: nat, b: nat, h: nat, e: nat)
    requires Inv(c, s) && InVain(c, s, k, b, h, e) && IsRun(c, s, acts, t)
    ensures InVain(c, t, k, b, h, e)
    decreases |acts|
  {
    if acts != [] {
      WaitsForever(c, s, acts[0], k, b, h, e);
      StepInv(c, s, acts[0]);
      WaitsThrough(c, Step(c, s, acts[0]), acts[1..], t, k, b, h, e);
    }
  }

  /** Of the dead ends there is a nearest one. */
  lemma {:induction false} NearestDeadEnd(c: Config, s: State, k: nat, b: nat) returns (h: nat, e: nat)
    requires Inv(c, s) && DeadEnd(c, s, k, b)
    ensures DeadEnd(c, s, h, e) && Clear(c, s, BucketsAhead(c, s, h, e))
    decreases if s.sweeper.Off? then 0 else BucketsAhead(c, s, k, b)
  {
    h, e := k, b;
    if !Clear(c, s, BucketsAhead(c, s, k, b)) {
      var k': nat, b': nat :| DeadEnd(c, s, k', b') && BucketsAhead(c, s, k', b') < BucketsAhead(c, s, k, b);
      NeedsFacts(c, s, k', b');
      AheadRange(c, s, k', b');
      h, e := NearestDeadEnd(c, s, k', b');
    }
  }

  /** A manager that cannot be served waits in vain. */
  lemma NotServed(c: Config, s: State, k: nat, b: nat) returns (h: nat, e: nat)
    requires Inv(c, s) && k < c.m && Waits(s, k, b) && !CanBeServed(c, s, k)
    ensures InVain(c, s, k, b, h, e)
  {
    NeedsFacts(c, s, k, b);
    if s.sweeper.Off? {
      h, e := k, b;
    } else {
      AheadRange(c, s, k, b);
      if !DeadEnd(c, s, k, b) {
        assert NodeWithin(c, s, k, BucketsAhead(c, s, k, b));
        assert !Clear(c, s, BucketsAhead(c, s, k, b));
        var k': nat, b': nat :| DeadEnd(c, s, k', b') && BucketsAhead(c, s, k', b') < BucketsAhead(c, s, k, b);
        h, e := NearestDeadEnd(c, s, k', b');
      } else {
        h, e := NearestDeadEnd(c, s, k, b);
      }
      NeedsFacts(c, s, h, e);
      AheadRange(c, s, h, e);
    }
  }

  // ---------------------------------------------------------------- being served

  /** The sweeper is on its way to a node of manager `k`, with no dead end before it. */
  ghost predicate OnTrack(c: Config, s: State, k: nat, b: nat, d: int) {
    && c.Valid() && Reachable(c, s) && k < c.m && Waits(s, k, b) && !s.sweeper.Off?
    && d <= BucketNumber(c, c.m, 0) && Clear(c, s, d) && Supplied(c, s, k, d)
  }

  /** A step of the sweeper that takes all it can: out of its bucket only if that has been emptied. */
  predicate Sweeping(s: State, a: SweeperAct)
    requires SweeperAt(s.sweeper, a)
  {
    match a
    case SweepUnlink(pos) => pos == s.sweeper.kept
    case SweepUnlock => s.sweeper.kept >= |At(s.at, Bucket(s.sweeper.m, s.sweeper.b))|
    case _ => true
  }

  lemma SweptSupply(c: Config, s: State, a: SweeperAct, k: nat, d: int)
    requires Inv(c, s) && SweeperEnabled(c, s, a) && Sweeping(s, a)
    requires k < c.m && d <= BucketNumber(c, c.m, 0) && (a.SweepUnlink? ==> d > 0) && Supplied(c, s, k, d)
    ensures Supplied(c, SweeperStep(c, s, a), k, Progressed(a, d))
  {
    match a
    case SweepLock => LockSupply(c, s, k, d);
    case SweepUnlink(pos) => UnlinkSupply(c, s, pos, k, d);
    case SweepReturn => ReturnSupply(c, s, k, d);
    case SweepUnlock => UnlockSupply(c, s, k, d);
  }

  lemma SweptOnTrack(c: Config, s: State, a: SweeperAct, k: nat, b: nat, d: int)
    requires OnTrack(c, s, k, b, d) && Inv(c, s) && SweeperEnabled(c, s, a) && Sweeping(s, a) && (a.SweepUnlink? ==> d > 0)
    ensures OnTrack(c, SweeperStep(c, s, a), k, b, Progressed(a, d))
  {
    var s' := SweeperStep(c, s, a);
    SweptSupply(c, s, a, k, d);
    forall h: nat, e: nat | DeadEnd(c, s', h, e) ensures BucketsAhead(c, s', h, e) >= Progressed(a, d) {
      // A dead end after such a step was one before.
      var d := BucketsAhead(c, s, h, e);
      NeedsStays(c, s, BySweeper(a), h, e);
      LockAhead(c, s, a, h, e);
      if Supplied(c, s, h, d) {
        SweptSupply(c, s, a, h, d);
      }
      assert DeadEnd(c, s, h, e) && Progressed(a, BucketsAhead(c, s, h, e)) == BucketsAhead(c, SweeperStep(c, s, a), h, e);
    }
    ReachableStep(c, s, BySweeper(a), s');
  }

  lemma ManagedDeadEnd(c: Config, s: State, h: nat, a: ManagerAct, m: nat, e: nat)
    requires Inv(c, s) && ManagerEnabled(c, s, h, a) && InSection(s.mans[h]) && h < c.m && DeadEnd(c, ManagerStep(c, s, h, a), m, e)
    ensures DeadEnd(c, s, m, e) && BucketsAhead(c, s, m, e) == BucketsAhead(c, ManagerStep(c, s, h, a), m, e)
  {
    var s' := ManagerStep(c, s, h, a);
    if m != h {
      NeedsStays(c, s, ByManager(h, a), m, e);
      OthersSupply(c, s, ByManager(h, a), m);
    }
    SuppliedAlike(c, s, s', m, BucketsAhead(c, s, m, e));
  }

  /** A run of managers and the sweeper. */
  ghost predicate HelperRun(c: Config, s: State, acts: seq<Action>, t: State) {
    IsRun(c, s, acts, t) && forall n :: 0 <= n < |acts| ==> acts[n].BySweeper? || acts[n].ByManager?
  }

  /** How far a manager is from leaving its bucket. */
  function Rank(pc: ManagerPc): nat {
    match pc
    case Searching(_) => 7
    case WantingNode(_) => 6
    case Found(_, _) => 6
    case Copying(_) => 5
    case Evicted(_) => 5
    case ReleasingPacket(_) => 4
    case ReleasingFlow(_) => 3
    case Linking(_) => 2
    case Unlocking(_) => 1
    case _ => 0
  }

  lemma RankFalls(c: Config, s: State, h: nat, a: ManagerAct)
    requires ManagerEnabled(c, s, h, a) && InSection(s.mans[h])
    ensures h < |ManagerStep(c, s, h, a).mans| && Rank(ManagerStep(c, s, h, a).mans[h]) < Rank(s.mans[h])
    ensures ManagerStep(c, s, h, a).sweeper == s.sweeper
  {
  }

  /** What the sweeper does next, if it is not at a locked bucket. */
  function SweepsNext(s: State): SweeperAct {
    if s.sweeper.SIdle? then SweepLock
    else if s.sweeper.Unlinked? then SweepReturn
    else if s.sweeper.Walking? && s.sweeper.kept < |At(s.at, Bucket(s.sweeper.m, s.sweeper.b))| then SweepUnlink(s.sweeper.kept)
    else SweepUnlock
  }

  predicate AtLocked(s: State) { s.sweeper.SIdle? && (s.sweeper.m, s.sweeper.b) in s.locked }

  /** The manager in whose bucket the sweeper is stopped can go on. */
  lemma StopperGoes(c: Config, s: State, k: nat, b: nat, d: int) returns (a: ManagerAct)
    requires OnTrack(c, s, k, b, d) && AtLocked(s) && d > 0 && At(s.at, SessionPool(k)) == []
    ensures var h := s.sweeper.m; h < c.m && h < |s.mans| && h != k && InSection(s.mans[h]) && ManagerEnabled(c, s, h, a)
  {
    ReachableInv(c, s);
    var h, e := s.sweeper.m, s.sweeper.b;
    assert HasLock(s.mans[h], e);
    AheadRange(c, s, h, e);
    if Needs(s, h, e) {
      assert !DeadEnd(c, s, h, e);
      NothingWithinNothing(c, s, h);
    }
    a := ManagerChoice(c, s, h);
  }

  lemma NothingWithinNothing(c: Config, s: State, k: nat)
    requires Inv(c, s) && k < c.m && !s.sweeper.Off?
    ensures !NodeWithin(c, s, k, 0)
  {
    if b: nat, i :| NodeAhead(c, s, k, 0, b, i) {
      AheadRange(c, s, k, b);
    }
  }

  lemma StillToGo(c: Config, s: State, k: nat, b: nat, d: int)
    requires OnTrack(c, s, k, b, d) && At(s.at, SessionPool(k)) == [] && !s.sweeper.Unlinked?
    ensures d > 0
  {
    ReachableInv(c, s);
    if i: nat, j :| NodeAhead(c, s, k, d, i, j) {
      AheadRange(c, s, k, i);
    }
  }

  /** How much the sweeper still has to do in its bucket, or a manager before it can enter. */
  function Phase(s: State): nat {
    if s.sweeper.SIdle? then 1 else 0
  }

  function Work(s: State): nat {
    if s.sweeper.SIdle? then (if s.sweeper.m < |s.mans| then Rank(s.mans[s.sweeper.m]) else 0)
    else if Inside(s.sweeper) then
      var rest := |At(s.at, Bucket(s.sweeper.m, s.sweeper.b))| - s.sweeper.kept;
      2 * (if rest > 0 then rest else 0) + (if s.sweeper.Unlinked? then 1 else 0)
    else 0
  }

  lemma WorkFalls(c: Config, s: State, a: SweeperAct)
    requires Inv(c, s) && SweeperEnabled(c, s, a) && Sweeping(s, a) && !a.SweepUnlock?
    ensures var s' := SweeperStep(c, s, a); Phase(s') < Phase(s) || (Phase(s') == Phase(s) && Work(s') < Work(s))
  {
    if a.SweepUnlink? {
      UnlinkEffect(c, s, a.pos);
    } else if a.SweepReturn? {
      SweeperFacts(c, s);
      CarryAt(s.at, SweeperMoves(s, a));
    }
  }

  /** Nearer to the node, or nearer to leaving the bucket in which the sweeper is. */
  predicate Nearer(s: State, d: int, s': State, d': int) {
    d >= 0 && (d' < d || (d' == d && (Phase(s') < Phase(s) || (Phase(s') == Phase(s) && Work(s') < Work(s)))))
  }

  /** The manager that has locked the sweeper's next bucket takes a step. */
  lemma StopperSteps(c: Config, s: State, k: nat, b: nat, d: int) returns (a: Action)
    requires OnTrack(c, s, k, b, d) && At(s.at, SessionPool(k)) == [] && AtLocked(s)
    ensures a.ByManager? && Enabled(c, s, a) && OnTrack(c, Step(c, s, a), k, b, d) && Nearer(s, d, Step(c, s, a), d)
  {
    ReachableInv(c, s);
    StillToGo(c, s, k, b, d);
    var h := s.sweeper.m;
    var act := StopperGoes(c, s, k, b, d);
    var s' := ManagerStep(c, s, h, act);
    OthersSupply(c, s, ByManager(h, act), k);
    SuppliedAlike(c, s, s', k, d);
    forall m: nat, e: nat | DeadEnd(c, s', m, e) ensures BucketsAhead(c, s', m, e) >= d {
      ManagedDeadEnd(c, s, h, act, m, e);
    }
    ReachableStep(c, s, ByManager(h, act), s');
    RankFalls(c, s, h, act);
    a := ByManager(h, act);
  }

  /** ... or the sweeper does. */
  lemma SweeperSteps(c: Config, s: State, k: nat, b: nat, d: int) returns (a: Action, d': int)
    requires OnTrack(c, s, k, b, d) && At(s.at, SessionPool(k)) == [] && !AtLocked(s) && d >= 0
    ensures a.BySweeper? && Enabled(c, s, a) && OnTrack(c, Step(c, s, a), k, b, d') && Nearer(s, d, Step(c, s, a), d') && d' >= 0
  {
    ReachableInv(c, s);
    var w := SweepsNext(s);
    if s.sweeper.Unlinked? {
      SweeperNeverRetries(c, s);
    }
    if !s.sweeper.Unlinked? {
      StillToGo(c, s, k, b, d);
    }
    SweptOnTrack(c, s, w, k, b, d);
    if !w.SweepUnlock? {
      WorkFalls(c, s, w);
    }
    a, d' := BySweeper(w), Progressed(w, d);
  }

  /** The sweeper, and the managers in its way, come to give manager `k` a node. */
  lemma {:induction false} Served(c: Config, s: State, k: nat, b: nat, d: nat) returns (acts: seq<Action>, t: State)
    requires OnTrack(c, s, k, b, d)
    ensures HelperRun(c, s, acts, t) && ManagerEnabled(c, t, k, TakeNode)
    decreases d, Phase(s), Work(s)
  {
    acts, t := [], s;
    if At(s.at, SessionPool(k)) == [] {
      var a, d' := HelperStep(c, s, k, b, d);
      var s1 := Step(c, s, a);
      acts, t := Served(c, s1, k, b, d');
      HelperFirst(c, s, a, s1, acts, t);
      acts := [a] + acts;
    }
  }

  lemma HelperFirst(c: Config, s: State, a: Action, s1: State, acts: seq<Action>, t: State)
    requires Enabled(c, s, a) && s1 == Step(c, s, a) && (a.BySweeper? || a.ByManager?) && HelperRun(c, s1, acts, t)
    ensures HelperRun(c, s, [a] + acts, t)
  {
    assert ([a] + acts)[1..] == acts;
  }

  lemma HelperStep(c: Config, s: State, k: nat, b: nat, d: nat) returns (a: Action, d': nat)
    requires OnTrack(c, s, k, b, d) && At(s.at, SessionPool(k)) == []
    ensures (a.BySweeper? || a.ByManager?) && Enabled(c, s, a)
    ensures OnTrack(c, Step(c, s, a), k, b, d') && Nearer(s, d, Step(c, s, a), d')
  {
    if AtLocked(s) {
      a := StopperSteps(c, s, k, b, d);
      d' := d;
    } else {
      a, d' := SweeperSteps(c, s, k, b, d);
    }
  }

  lemma CanStart(c: Config, s: State, k: nat, b: nat) returns (d: nat)
    requires c.Valid() && Reachable(c, s) && k < c.m && Waits(s, k, b) && CanBeServed(c, s, k) && !s.sweeper.Off?
    ensures OnTrack(c, s, k, b, d)
  {
    ReachableInv(c, s);
    d := 0;
    if h: nat, e: nat :| DeadEnd(c, s, h, e) {
      NeedsFacts(c, s, h, e);
    }
    forall k: nat, b: nat | DeadEnd(c, s, k, b) ensures BucketsAhead(c, s, k, b) >= 0 {
      NeedsFacts(c, s, k, b);
      if !s.sweeper.Off? {
        AheadRange(c, s, k, b);
      }
    }
    if !Supplied(c, s, k, 0) {
      var n: nat :| Clear(c, s, n) && NodeWithin(c, s, k, n);
      var all := BucketNumber(c, c.m, 0);
      d := if n <= all then n else all;
      var e: nat, i :| NodeAhead(c, s, k, n, e, i);
      SweeperFacts(c, s);
      AheadRange(c, s, k, e);
      assert NodeAhead(c, s, k, d, e, i);
    }
  }

  /** A manager that can be served, is, after some steps of the sweeper and of managers. */
  lemma Helped(c: Config, s: State, k: nat, b: nat) returns (acts: seq<Action>, t: State)
    requires c.Valid() && Reachable(c, s) && k < c.m && Waits(s, k, b) && CanBeServed(c, s, k)
    ensures HelperRun(c, s, acts, t) && ManagerEnabled(c, t, k, TakeNode)
  {
    if s.sweeper.Off? {
      acts, t := [], s;
    } else {
      var d := CanStart(c, s, k, b);
      acts, t := Served(c, s, k, b, d);
    }
  }

  // ---------------------------------------------------------------- who cannot be served

  /** If the sweeper has not been started, nobody whose pool is empty. */
  lemma NotStarted(c: Config, s: State, k: nat)
    requires s.sweeper.Off?
    ensures CanBeServed(c, s, k) <==> At(s.at, SessionPool(k)) != []
  {
  }

  /** If the sweeper is about to enter the very bucket that the manager has locked, neither, wherever
      the manager's other nodes are; and no other manager whose pool is empty. */
  lemma StoppedHere(c: Config, s: State, k: nat, b: nat, h: nat)
    requires Inv(c, s) && k < c.m && Waits(s, k, b) && At(s.at, SessionPool(k)) == [] && s.sweeper == SIdle(k, b) && h < c.m
    ensures CanBeServed(c, s, h) <==> At(s.at, SessionPool(h)) != []
  {
    NeedsFacts(c, s, k, b);
    AheadRange(c, s, k, b);
    NothingWithinNothing(c, s, k);
    assert DeadEnd(c, s, k, b);
    if d: nat :| Clear(c, s, d) && NodeWithin(c, s, h, d) {
      NothingWithinNothing(c, s, h);
    }
  }

}
