/** Who holds which pooled object.

    Every packet, flow item and session node of the pipeline is preallocated and from
    then on only moves: between its home pool, the ring queues, the bucket lists and
    the hands of the threads.  A ledger records the content of each such place, and
    every pipeline step is a `Move` on it. */
module Ledger {
  import opened Common
  import opened FlowKey

  /** `home` is the generator, parser or manager whose pool the object was allocated for. */
  datatype Obj =
    | Packet(home: nat, slot: nat)
    | Flow(home: nat, slot: nat)
    | Session(home: nat, slot: nat)

  datatype Place =
    | PacketPool(i: nat)
    | FlowPool(i: nat)
    | SessionPool(i: nat)
    | ParserQueue(i: nat)
    | ManagerQueue(i: nat)
    | GeneratorHand(i: nat)
    | ParserPackets(i: nat)
    | ParserFlows(i: nat)
    | ManagerFlow(i: nat)
    | ManagerSession(i: nat)
    | SweeperHand
    | Bucket(i: nat, b: nat)
    | Carried(flow: Obj)       // the packet that a flow item points to, once handed on

  /** Numbers of generators, parsers, managers and buckets per manager; how many objects a
      ring must hold before a batch may be taken out of it; and two hashes, of which nothing
      is assumed but that they are functions of the key. */
  datatype Config = Config(
    g: nat, p: nat, m: nat, buckets: nat, need: nat,
    managerHash: Key -> nat, bucketHash: Key -> nat)
  {
    /** Where a flow goes, as an index that is in range whatever the hash. */
    function ManagerOf(key: Key): (r: nat)
      ensures m > 0 ==> r < m
    {
      if managerHash(key) < m then managerHash(key) else 0
    }

    function BucketOf(key: Key): (r: nat)
      ensures buckets > 0 ==> r < buckets
    {
      if bucketHash(key) < buckets then bucketHash(key) else 0
    }

    predicate Valid() { 1 <= g <= p && 1 <= m && 1 <= buckets && 64 <= need <= 65 }
  }

  type Book = map<Place, seq<Obj>>

  function At(l: Book, p: Place): seq<Obj> {
    if p in l then l[p] else []
  }

  predicate Holds(l: Book, p: Place, i: int, x: Obj) {
    0 <= i < |At(l, p)| && At(l, p)[i] == x
  }

  predicate Real(c: Config, x: Obj) {
    match x
    case Packet(home, slot) => home < c.g && slot < RING_CAPACITY
    case Flow(home, slot) => home < c.p && slot < RING_CAPACITY
    case Session(home, slot) => home < c.m && slot < SESSION_CAPACITY
  }

  /** Which objects may ever be at a place.  Note the routing discipline: parser `j` only
      ever sees packets of generator `j % g`. */
  predicate Fits(c: Config, p: Place, x: Obj)
    requires c.Valid()
  {
    Real(c, x) &&
    match p
    case PacketPool(i) => x.Packet? && x.home == i
    case FlowPool(j) => x.Flow? && x.home == j
    case SessionPool(m) => x.Session? && x.home == m
    case ParserQueue(j) => x.Packet? && x.home == j % c.g && j < c.p
    case ManagerQueue(m) => x.Flow? && m < c.m
    case GeneratorHand(i) => x.Packet? && x.home == i
    case ParserPackets(j) => x.Packet? && x.home == j % c.g && j < c.p
    case ParserFlows(j) => x.Flow? && x.home == j
    case ManagerFlow(m) => x.Flow? && m < c.m
    case ManagerSession(m) => x.Session? && x.home == m
    case SweeperHand => x.Session?
    case Bucket(m, b) => x.Session? && x.home == m && b < c.buckets
    case Carried(f) => x.Packet? && f.Flow? && Real(c, f) && x.home == f.home % c.g
  }

  ghost predicate AllFit(c: Config, l: Book)
    requires c.Valid()
  {
    forall p, i, x {:trigger Holds(l, p, i, x)} :: Holds(l, p, i, x) ==> Fits(c, p, x)
  }

  /** No object is in two places, nor twice in one place. */
  ghost predicate Unique(l: Book) {
    forall p, i, q, j, x {:trigger Holds(l, p, i, x), Holds(l, q, j, x)} ::
      Holds(l, p, i, x) && Holds(l, q, j, x) ==> p == q && i == j
  }

  ghost predicate Somewhere(l: Book, x: Obj) {
    exists p, i :: Holds(l, p, i, x)
  }

  /** No object is lost. */
  ghost predicate Complete(c: Config, l: Book) {
    forall x {:trigger Somewhere(l, x)} :: Real(c, x) ==> Somewhere(l, x)
  }

  /** Each preallocated object is in exactly one place, and in one that suits it. */
  ghost predicate Sound(c: Config, l: Book)
    requires c.Valid()
  {
    AllFit(c, l) && Unique(l) && Complete(c, l)
  }

  // ---------------------------------------------------------------- moving objects

  /** Takes `n` objects out of `from`, starting at position `k`, and appends them to `to`. */
  function Move(l: Book, from: Place, k: nat, n: nat, to: Place): Book
    requires from != to && k + n <= |At(l, from)|
  {
    l[from := At(l, from)[..k] + At(l, from)[k + n..]][to := At(l, to) + At(l, from)[k..k + n]]
  }

  lemma MoveAt(l: Book, from: Place, k: nat, n: nat, to: Place)
    requires from != to && k + n <= |At(l, from)|
    ensures var l' := Move(l, from, k, n, to);
      && At(l', from) == At(l, from)[..k] + At(l, from)[k + n..]
      && At(l', to) == At(l, to) + At(l, from)[k..k + n]
      && forall p {:trigger At(l', p)} :: p != from && p != to ==> At(l', p) == At(l, p)
  {
  }

  /** Where the object at position `i` of place `p` was before the move. */
  function Origin(l: Book, from: Place, k: nat, n: nat, to: Place, p: Place, i: int): (Place, int) {
    if p == from then (from, if i < k then i else i + n)
    else if p == to && i >= |At(l, to)| then (from, k + i - |At(l, to)|)
    else (p, i)
  }

  lemma MoveOrigin(l: Book, from: Place, k: nat, n: nat, to: Place, p: Place, i: int, x: Obj)
    requires from != to && k + n <= |At(l, from)|
    requires Holds(Move(l, from, k, n, to), p, i, x)
    ensures var (q, j) := Origin(l, from, k, n, to, p, i); Holds(l, q, j, x)
  {
  }

  lemma MoveTarget(l: Book, from: Place, k: nat, n: nat, to: Place, p: Place, i: int, x: Obj)
    requires from != to && k + n <= |At(l, from)| && Holds(l, p, i, x)
    ensures Somewhere(Move(l, from, k, n, to), x)
  {
    var l' := Move(l, from, k, n, to);
    if p == from {
      if i < k {
        assert Holds(l', from, i, x);
      } else if i < k + n {
        assert Holds(l', to, |At(l, to)| + i - k, x);
      } else {
        assert Holds(l', from, i - n, x);
      }
    } else {
      assert Holds(l', p, i, x);
    }
  }

  /** The heart of every safety argument: moving objects to a place that suits them
      neither loses, nor duplicates, nor misplaces anything. */
  lemma MoveSound(c: Config, l: Book, from: Place, k: nat, n: nat, to: Place)
    requires c.Valid() && Sound(c, l)
    requires from != to && k + n <= |At(l, from)|
    requires forall i :: k <= i < k + n ==> Fits(c, to, At(l, from)[i])
    ensures Sound(c, Move(l, from, k, n, to))
  {
    forall p, i, x | Holds(Move(l, from, k, n, to), p, i, x) ensures Fits(c, p, x) {
      MoveOrigin(l, from, k, n, to, p, i, x);
    }
    var l' := Move(l, from, k, n, to);
    forall p, i, q, j, x | Holds(l', p, i, x) && Holds(l', q, j, x) ensures p == q && i == j {
      MoveOrigin(l, from, k, n, to, p, i, x);
      MoveOrigin(l, from, k, n, to, q, j, x);
      MoveAt(l, from, k, n, to);
    }
    forall x | Real(c, x) ensures Somewhere(Move(l, from, k, n, to), x) {
      assert Somewhere(l, x);
      var p, i :| Holds(l, p, i, x);
      MoveTarget(l, from, k, n, to, p, i, x);
    }
  }

  // ---------------------------------------------------------------- counting

  function Total(l: Book, ps: seq<Place>): nat {
    if ps == [] then 0 else |At(l, ps[0])| + Total(l, ps[1..])
  }

  function Elements(s: seq<Obj>): set<Obj> { set x | x in s }

  function Union(l: Book, ps: seq<Place>): set<Obj> {
    if ps == [] then {} else Elements(At(l, ps[0])) + Union(l, ps[1..])
  }

  lemma ElementsSize(s: seq<Obj>)
    requires Distinct(s)
    ensures |Elements(s)| == |s|
  {
    if s != [] {
      ElementsSize(s[1..]);
      assert Elements(s) == {s[0]} + Elements(s[1..]);
    }
  }

  lemma InUnion(l: Book, ps: seq<Place>, x: Obj)
    ensures x in Union(l, ps) <==> exists p, i :: p in ps && Holds(l, p, i, x)
  {
    if ps != [] {
      InUnion(l, ps[1..], x);
      if x in At(l, ps[0]) {
        var i :| 0 <= i < |At(l, ps[0])| && At(l, ps[0])[i] == x;
        assert Holds(l, ps[0], i, x);
      }
      if p, i :| p in ps && Holds(l, p, i, x) {
        assert p == ps[0] || p in ps[1..];
      }
    }
  }

  /** Distinct places hold as many objects as their contents add up to. */
  lemma UnionSize(l: Book, ps: seq<Place>)
    requires Unique(l) && Distinct(ps)
    ensures |Union(l, ps)| == Total(l, ps)
  {
    if ps != [] {
      var here, rest := Elements(At(l, ps[0])), Union(l, ps[1..]);
      UnionSize(l, ps[1..]);
      forall i, j | 0 <= i < j < |At(l, ps[0])| ensures At(l, ps[0])[i] != At(l, ps[0])[j] {
        assert Holds(l, ps[0], i, At(l, ps[0])[i]) && Holds(l, ps[0], j, At(l, ps[0])[j]);
      }
      ElementsSize(At(l, ps[0]));
      forall x | x in here ensures x !in rest {
        var i :| 0 <= i < |At(l, ps[0])| && At(l, ps[0])[i] == x;
        assert Holds(l, ps[0], i, x);
        InUnion(l, ps[1..], x);
      }
      assert here !! rest;
    }
  }

  /** All objects of one kind that belong to one pool. */
  function Family(x: Obj, n: nat): set<Obj> {
    if n == 0 then {} else Family(x, n - 1) + {x.(slot := n - 1)}
  }

  function Capacity(x: Obj): nat {
    if x.Session? then SESSION_CAPACITY else RING_CAPACITY
  }

  predicate Kin(x: Obj, y: Obj) {
    x.home == y.home && (x.Packet? <==> y.Packet?) && (x.Flow? <==> y.Flow?)
  }

  lemma FamilySize(x: Obj, n: nat)
    ensures |Family(x, n)| == n
    ensures forall y :: y in Family(x, n) <==> Kin(x, y) && y.slot < n
  {
    if n > 0 {
      FamilySize(x, n - 1);
    }
  }

  /** The places `ps` only hold objects of the pool that `x` belongs to. */
  ghost predicate OnlyKin(l: Book, ps: seq<Place>, x: Obj) {
    forall p, i, y {:trigger Holds(l, p, i, y)} :: p in ps && Holds(l, p, i, y) ==> Kin(x, y)
  }

  /** However the objects of one pool are spread, there are never more than were allocated. */
  lemma Bounded(c: Config, l: Book, ps: seq<Place>, x: Obj)
    requires c.Valid() && Sound(c, l) && Distinct(ps) && OnlyKin(l, ps, x)
    ensures Total(l, ps) <= Capacity(x)
  {
    UnionSize(l, ps);
    FamilySize(x, Capacity(x));
    forall y | y in Union(l, ps) ensures y in Family(x, Capacity(x)) {
      InUnion(l, ps, y);
      var p, i :| p in ps && Holds(l, p, i, y);
      assert Fits(c, p, y);
    }
    SubsetSize(Union(l, ps), Family(x, Capacity(x)));
  }

  /** If moreover the pool's objects are nowhere else, the contents add up to the whole pool. */
  lemma Conserved(c: Config, l: Book, ps: seq<Place>, x: Obj)
    requires c.Valid() && Sound(c, l) && Distinct(ps) && OnlyKin(l, ps, x)
    requires Real(c, x)
    requires forall p, i, y {:trigger Holds(l, p, i, y)} :: Holds(l, p, i, y) && Kin(x, y) ==> p in ps
    ensures Total(l, ps) == Capacity(x)
  {
    Bounded(c, l, ps, x);
    UnionSize(l, ps);
    FamilySize(x, Capacity(x));
    forall y | y in Family(x, Capacity(x)) ensures y in Union(l, ps) {
      assert Real(c, y) && Somewhere(l, y);
      var p, i :| Holds(l, p, i, y);
      InUnion(l, ps, y);
    }
    SubsetSize(Family(x, Capacity(x)), Union(l, ps));
  }

  lemma SubsetSize(a: set<Obj>, b: set<Obj>)
    requires a <= b
    ensures |a| <= |b|
  {
    if a != {} {
      var x :| x in a;
      SubsetSize(a - {x}, b - {x});
    }
  }

  lemma SubsetEqual(a: set<Obj>, b: set<Obj>)
    requires a <= b && |a| == |b|
    ensures a == b
  {
    if x :| x in b && x !in a {
      SubsetSize(a, b - {x});
    }
  }
}
