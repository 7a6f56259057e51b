/**
  * A shift register with feedback, over any kind of word: what follows from the shift being
  * linear and reversible alone, whatever the polynomial.
  */
module Register {

  datatype Algebra<!T> = Algebra(shift: T -> T, unshift: T -> T, xor: (T, T) -> T, bit: bool -> T)

  /** The laws at given words, kept apart so that a proof names the instance it uses. */
  ghost predicate LinearAt<T(!new)>(r: Algebra<T>, x: T, y: T) {
    r.shift(r.xor(x, y)) == r.xor(r.shift(x), r.shift(y))
  }

  ghost predicate ReversibleAt<T(!new)>(r: Algebra<T>, x: T) {
    r.unshift(r.shift(x)) == x && r.shift(r.unshift(x)) == x
  }

  ghost predicate AssociativeAt<T(!new)>(r: Algebra<T>, x: T, y: T, z: T) {
    r.xor(r.xor(x, y), z) == r.xor(x, r.xor(y, z))
  }

  ghost predicate CancelsAt<T(!new)>(r: Algebra<T>, x: T, y: T) {
    r.xor(x, r.xor(x, y)) == y
  }

  ghost predicate CommutesAt<T(!new)>(r: Algebra<T>, x: T, y: T) {
    r.xor(x, y) == r.xor(y, x)
  }

  ghost predicate Lawful<T(!new)>(r: Algebra<T>) {
    && (forall x: T, y: T :: LinearAt(r, x, y))
    && (forall x: T :: ReversibleAt(r, x))
    && (forall x: T, y: T, z: T :: AssociativeAt(r, x, y, z))
    && (forall x: T, y: T :: CancelsAt(r, x, y))
    && (forall x: T, y: T :: CommutesAt(r, x, y))
  }

  /** n shifts with no input. */
  function Shifts<T>(r: Algebra<T>, c: T, n: nat): T
    decreases n
  {
    if n == 0 then c else Shifts(r, r.shift(c), n - 1)
  }

  /** The register after a string of bits, each added in before its shift. */
  function Feed<T>(r: Algebra<T>, c: T, bits: seq<bool>): T
    decreases |bits|
  {
    if bits == [] then c else Feed(r, r.shift(r.xor(c, r.bit(bits[0]))), bits[1..])
  }

  /** The word that, added in at once, does what the bits do one after the other. */
  function Pack<T>(r: Algebra<T>, bits: seq<bool>): T {
    if |bits| == 0 then r.bit(false)
    else if |bits| == 1 then r.bit(bits[0])
    else r.xor(r.bit(bits[0]), r.unshift(Pack(r, bits[1..])))
  }

  lemma {:induction false} FeedConcat<T(!new)>(r: Algebra<T>, c: T, a: seq<bool>, b: seq<bool>)
    ensures Feed(r, c, a + b) == Feed(r, Feed(r, c, a), b)
    decreases |a|
  {
    if a == [] {
      assert a + b == b;
    } else {
      assert (a + b)[1..] == a[1..] + b;
      FeedConcat(r, r.shift(r.xor(c, r.bit(a[0]))), a[1..], b);
    }
  }

  lemma {:induction false} ShiftsLinear<T(!new)>(r: Algebra<T>, x: T, y: T, n: nat)
    requires Lawful(r)
    ensures Shifts(r, r.xor(x, y), n) == r.xor(Shifts(r, x, n), Shifts(r, y, n))
    decreases n
  {
    if n > 0 {
      assert LinearAt(r, x, y);
      ShiftsLinear(r, r.shift(x), r.shift(y), n - 1);
    }
  }

  /** Feeding bits is adding their packed word and shifting it all the way through. */
  lemma {:induction false} FeedIsPacked<T(!new)>(r: Algebra<T>, c: T, bits: seq<bool>)
    requires Lawful(r) && bits != []
    ensures Feed(r, c, bits) == Shifts(r, r.xor(c, Pack(r, bits)), |bits|)
    decreases |bits|
  {
    if |bits| > 1 {
      var first, rest := r.bit(bits[0]), Pack(r, bits[1..]);
      FeedIsPacked(r, r.shift(r.xor(c, first)), bits[1..]);
      assert AssociativeAt(r, c, first, r.unshift(rest));
      assert LinearAt(r, r.xor(c, first), r.unshift(rest));
      assert ReversibleAt(r, rest);
    } else {
      assert Feed(r, r.shift(r.xor(c, r.bit(bits[0]))), bits[1..]) == r.shift(r.xor(c, r.bit(bits[0])));
      assert Shifts(r, r.shift(r.xor(c, r.bit(bits[0]))), 0) == r.shift(r.xor(c, r.bit(bits[0])));
    }
  }

  lemma {:induction false} ShiftsReversible<T(!new)>(r: Algebra<T>, c: T, d: T, n: nat)
    requires Lawful(r) && Shifts(r, c, n) == Shifts(r, d, n)
    ensures c == d
    decreases n
  {
    if n > 0 {
      ShiftsReversible(r, r.shift(c), r.shift(d), n - 1);
      assert ReversibleAt(r, c) && ReversibleAt(r, d);
    }
  }

  lemma XorCancels<T(!new)>(r: Algebra<T>, c: T, x: T, y: T)
    requires Lawful(r) && r.xor(c, x) == r.xor(c, y)
    ensures x == y
  {
    assert CancelsAt(r, c, x) && CancelsAt(r, c, y);
  }

  /** Two bit strings of one length take the register to one value exactly when they pack alike. */
  lemma SameStateIff<T(!new)>(r: Algebra<T>, c: T, a: seq<bool>, b: seq<bool>)
    requires Lawful(r) && |a| == |b| > 0
    ensures Feed(r, c, a) == Feed(r, c, b) <==> Pack(r, a) == Pack(r, b)
  {
    FeedIsPacked(r, c, a);
    FeedIsPacked(r, c, b);
    if Feed(r, c, a) == Feed(r, c, b) {
      ShiftsReversible(r, r.xor(c, Pack(r, a)), r.xor(c, Pack(r, b)), |a|);
      XorCancels(r, c, Pack(r, a), Pack(r, b));
    }
  }

  /** The same bits never bring two different registers together. */
  lemma {:induction false} FeedReversible<T(!new)>(r: Algebra<T>, c: T, d: T, bits: seq<bool>)
    requires Lawful(r) && Feed(r, c, bits) == Feed(r, d, bits)
    ensures c == d
    decreases |bits|
  {
    if bits != [] {
      var first := r.bit(bits[0]);
      FeedReversible(r, r.shift(r.xor(c, first)), r.shift(r.xor(d, first)), bits[1..]);
      assert ReversibleAt(r, r.xor(c, first)) && ReversibleAt(r, r.xor(d, first));
      assert CommutesAt(r, first, c) && CommutesAt(r, first, d);
      XorCancels(r, first, c, d);
    }
  }

  // ---- Windows no wider than the register ---------------------------------------------------

  /** How many positions the words have, which of them are odd, how they compare, and for each k
      the largest one whose top k positions are clear. */
  datatype Width<!T> = Width(width: nat, odd: T -> bool, below: (T, T) -> bool, half: T -> T, limit: nat -> T)

  ghost predicate PacksAt<T(!new)>(r: Algebra<T>, v: Width<T>, w: T, m: T, b: bool) {
    v.odd(m) && v.below(w, v.half(m)) ==>
      && v.below(r.xor(r.bit(b), r.unshift(w)), m)
      && v.odd(r.xor(r.bit(b), r.unshift(w))) == b
  }

  ghost predicate HalvesAt<T(!new)>(v: Width<T>, k: nat) {
    k < v.width ==> v.odd(v.limit(k)) && v.half(v.limit(k)) == v.limit(k + 1)
  }

  ghost predicate BitAt<T(!new)>(r: Algebra<T>, v: Width<T>, b: bool)
    requires v.width > 0
  {
    v.below(r.bit(b), v.limit(v.width - 1)) && v.odd(r.bit(b)) == b
  }

  ghost predicate Spacious<T(!new)>(r: Algebra<T>, v: Width<T>) {
    && v.width > 0
    && (forall b: bool :: BitAt(r, v, b))
    && (forall k: nat :: HalvesAt(v, k))
    && (forall w: T, m: T, b: bool :: PacksAt(r, v, w, m, b))
  }

  lemma {:induction false} PackLeavesRoom<T(!new)>(r: Algebra<T>, v: Width<T>, bits: seq<bool>)
    requires Spacious(r, v) && 0 < |bits| <= v.width
    ensures v.below(Pack(r, bits), v.limit(v.width - |bits|))
    ensures v.odd(Pack(r, bits)) == bits[0]
    decreases |bits|
  {
    if |bits| > 1 {
      var k := v.width - |bits|;
      PackLeavesRoom(r, v, bits[1..]);
      assert HalvesAt(v, k);
      assert PacksAt(r, v, Pack(r, bits[1..]), v.limit(k), bits[0]);
    } else {
      assert BitAt(r, v, bits[0]);
    }
  }

  /** As many bits as the register has positions pack without loss. */
  lemma {:induction false} PackInjective<T(!new)>(r: Algebra<T>, v: Width<T>, a: seq<bool>, b: seq<bool>)
    requires Lawful(r) && Spacious(r, v)
    requires 0 < |a| == |b| <= v.width && Pack(r, a) == Pack(r, b)
    ensures a == b
    decreases |a|
  {
    PackLeavesRoom(r, v, a);
    PackLeavesRoom(r, v, b);
    if |a| > 1 {
      var pa, pb := Pack(r, a[1..]), Pack(r, b[1..]);
      XorCancels(r, r.bit(a[0]), r.unshift(pa), r.unshift(pb));
      assert ReversibleAt(r, pa) && ReversibleAt(r, pb);
      PackInjective(r, v, a[1..], b[1..]);
    }
    assert a == [a[0]] + a[1..] && b == [b[0]] + b[1..];
  }

  /**
    * Strings of one length that differ only inside a window no wider than the register, and do
    * differ there, leave the register in different states.
    */
  lemma WindowDetected<T(!new)>(r: Algebra<T>, v: Width<T>, c: T, before: seq<bool>, a: seq<bool>, b: seq<bool>, after: seq<bool>)
    requires Lawful(r) && Spacious(r, v)
    requires |a| == |b| <= v.width && a != b
    ensures Feed(r, c, before + a + after) != Feed(r, c, before + b + after)
  {
    var d := Feed(r, c, before);
    FeedConcat(r, c, before, a);
    FeedConcat(r, c, before, b);
    FeedConcat(r, c, before + a, after);
    FeedConcat(r, c, before + b, after);
    if Feed(r, d, a) == Feed(r, d, b) {
      SameStateIff(r, d, a, b);
      PackInjective(r, v, a, b);
    } else if Feed(r, Feed(r, d, a), after) == Feed(r, Feed(r, d, b), after) {
      FeedReversible(r, Feed(r, d, a), Feed(r, d, b), after);
    }
  }

  // ---- Messages of bytes --------------------------------------------------------------------

  /** The bits of a message whose every letter stands for eight. */
  function Expand<B>(digits: B -> seq<bool>, message: seq<B>): seq<bool> {
    if message == [] then []
    else Expand(digits, message[..|message| - 1]) + digits(message[|message| - 1])
  }

  ghost predicate OctetAt<B(!new)>(digits: B -> seq<bool>, x: B) {
    |digits(x)| == 8
  }

  ghost predicate DistinctAt<B(!new)>(digits: B -> seq<bool>, x: B, y: B) {
    digits(x) == digits(y) ==> x == y
  }

  ghost predicate Octets<B(!new)>(digits: B -> seq<bool>) {
    && (forall x: B :: OctetAt(digits, x))
    && (forall x: B, y: B :: DistinctAt(digits, x, y))
  }

  lemma {:induction false} ExpandConcat<B(!new)>(digits: B -> seq<bool>, a: seq<B>, b: seq<B>)
    ensures Expand(digits, a + b) == Expand(digits, a) + Expand(digits, b)
    decreases |b|
  {
    if b == [] {
      assert a + b == a;
    } else {
      var last := |b| - 1;
      assert (a + b)[..|a + b| - 1] == a + b[..last];
      assert (a + b)[|a + b| - 1] == b[last];
      ExpandConcat(digits, a, b[..last]);
    }
  }

  lemma {:induction false} ExpandLength<B(!new)>(digits: B -> seq<bool>, message: seq<B>)
    requires Octets(digits)
    ensures |Expand(digits, message)| == 8 * |message|
    decreases |message|
  {
    if message != [] {
      assert OctetAt(digits, message[|message| - 1]);
      ExpandLength(digits, message[..|message| - 1]);
    }
  }

  lemma {:induction false} ExpandAt<B(!new)>(digits: B -> seq<bool>, message: seq<B>, i: nat)
    requires Octets(digits) && i < |message|
    ensures |Expand(digits, message)| == 8 * |message|
    ensures Expand(digits, message)[8 * i..8 * i + 8] == digits(message[i])
    decreases |message|
  {
    var front, last := message[..|message| - 1], message[|message| - 1];
    ExpandLength(digits, front);
    assert OctetAt(digits, last);
    assert Expand(digits, message) == Expand(digits, front) + digits(last);
    if i < |message| - 1 {
      ExpandAt(digits, front, i);
      assert Expand(digits, message)[8 * i..8 * i + 8] == Expand(digits, front)[8 * i..8 * i + 8];
    }
  }

  lemma ExpandInjective<B(!new)>(digits: B -> seq<bool>, a: seq<B>, b: seq<B>)
    requires Octets(digits) && |a| == |b| && Expand(digits, a) == Expand(digits, b)
    ensures a == b
  {
    forall i | 0 <= i < |a| ensures a[i] == b[i] {
      ExpandAt(digits, a, i);
      ExpandAt(digits, b, i);
      assert DistinctAt(digits, a[i], b[i]);
    }
  }

  /** Messages that agree on every letter but some run of them agree on the bits of all others. */
  lemma ExpandAgrees<B(!new)>(digits: B -> seq<bool>, a: seq<B>, b: seq<B>, k: nat)
    requires Octets(digits) && |a| == |b| && k < 8 * |a| && a[k / 8] == b[k / 8]
    ensures |Expand(digits, a)| == |Expand(digits, b)| == 8 * |a|
    ensures Expand(digits, a)[k] == Expand(digits, b)[k]
  {
    var i, j := k / 8, k % 8;
    ExpandAt(digits, a, i);
    ExpandAt(digits, b, i);
    assert Expand(digits, a)[8 * i..8 * i + 8][j] == Expand(digits, b)[8 * i..8 * i + 8][j];
  }
}
