/** Intrusive circular doubly linked lists of session nodes, as in the kernel's list.h. */
module SessionList {
  import opened Common
  import opened FlowKey
  import opened Ring

  /** A session node: the links of its list head and the session item.  A bucket's list head
      is a node whose item is not used. */
  class Node {
    var next: Node?
    var prev: Node?
    var key: Key
    var lastTime: Word64   // cycle counter at the last payload
    // buffer[..curLen] is what was reassembled so far
    var curLen: nat
    const buffer: array<Byte>
    ghost var home: int    // the bucket whose list the node is in; negative if in none

    constructor (bufferSize: nat)
      ensures fresh(this) && fresh(buffer) && buffer.Length == bufferSize
      ensures next == this && prev == this && home == -1 && curLen == 0
    {
      buffer := new Byte[bufferSize];
      key := Key(0, 0, 0, 0, 0);
      lastTime, curLen, home := 0, 0, -1;
      new;
      next, prev := this, this;
    }

    /** `memcpy` of a payload into the buffer, after what is there. */
    method CopyIn(payload: seq<Byte>)
      requires curLen + |payload| <= buffer.Length
      modifies this`curLen, buffer
      ensures curLen == old(curLen) + |payload|
      ensures buffer[..curLen] == old(buffer[..curLen]) + payload
    {
      ghost var was := buffer[..curLen];
      for k := 0 to |payload|
        invariant curLen == old(curLen) && buffer[..curLen + k] == was + payload[..k]
      {
        buffer[curLen + k] := payload[k];
        assert buffer[..curLen + k + 1] == buffer[..curLen + k] + [payload[k]];
        assert payload[..k + 1] == payload[..k] + [payload[k]];
      }
      assert payload[..|payload|] == payload;
      curLen := curLen + |payload|;
    }

    /** `make_new_session`. */
    method Fill(key: Key, payload: seq<Byte>, now: Word64)
      requires |payload| <= buffer.Length
      modifies this`key, this`curLen, this`lastTime, buffer
      ensures this.key == key && lastTime == now
      ensures curLen == |payload| && buffer[..curLen] == payload
    {
      this.key, curLen, lastTime := key, 0, now;
      CopyIn(payload);
    }
  }

  function Cycle(head: Node, nodes: seq<Node>): seq<Node> { [head] + nodes + [head] }

  /** Neighbours `i` and `i + 1` of the cycle point at each other. */
  ghost predicate LinkAt(head: Node, nodes: seq<Node>, i: int)
    requires 0 <= i <= |nodes|
    reads head`next, head`prev, nodes`next, nodes`prev
  {
    var c := Cycle(head, nodes);
    c[i].next == c[i + 1] && c[i + 1].prev == c[i]
  }

  /** Following `next` from the head visits exactly `nodes`, in order, and comes back; and
      `prev` is the way back. */
  ghost predicate Linked(head: Node, nodes: seq<Node>)
    reads head`next, head`prev, nodes`next, nodes`prev
  {
    && head !in nodes && Distinct(nodes)
    && forall i {:trigger LinkAt(head, nodes, i)} :: 0 <= i <= |nodes| ==> LinkAt(head, nodes, i)
  }

  method InitListHead(list: Node)
    modifies list`next, list`prev
    ensures Linked(list, [])
  {
    list.next := list;
    list.prev := list;
  }

  method ListAddTail(n: Node, head: Node, ghost nodes: seq<Node>)
    requires Linked(head, nodes) && n !in nodes && n != head
    modifies n`next, n`prev, head`next, head`prev, nodes`next, nodes`prev
    ensures Linked(head, nodes + [n])
  {
    ghost var c := Cycle(head, nodes);
    ghost var d := Cycle(head, nodes + [n]);
    assert LinkAt(head, nodes, |nodes|) && c[|nodes| + 1] == head;
    var before := head.prev;
    head.prev := n;
    n.next := head;
    n.prev := before;
    before.next := n;
    forall i | 0 <= i <= |nodes| + 1 ensures LinkAt(head, nodes + [n], i) {
      if i <= |nodes| { assert old(LinkAt(head, nodes, i)) && d[i] == c[i]; }
      if i < |nodes| { assert d[i + 1] == c[i + 1]; }
    }
  }

  function Members(nodes: seq<Node>): set<Node> { set n | n in nodes }

  function Without(nodes: seq<Node>, i: nat): seq<Node>
    requires i < |nodes|
  {
    nodes[..i] + nodes[i + 1..]
  }

  method ListDel(entry: Node, head: Node, ghost nodes: seq<Node>, ghost i: nat)
    requires Linked(head, nodes) && i < |nodes| && nodes[i] == entry
    modifies head`next, head`prev, nodes`next, nodes`prev
    ensures Linked(head, Without(nodes, i))
    ensures entry.next == null && entry.prev == null
  {
    ghost var c := Cycle(head, nodes);
    assert c[i + 1] == entry && LinkAt(head, nodes, i) && LinkAt(head, nodes, i + 1);
    var prev, next := entry.prev, entry.next;
    next.prev := prev;
    prev.next := next;
    entry.next := null;
    entry.prev := null;
    ghost var d := Cycle(head, Without(nodes, i));
    forall j | 0 <= j < |nodes| ensures LinkAt(head, Without(nodes, i), j) {
      if j < i { assert old(LinkAt(head, nodes, j)) && d[j] == c[j] && d[j + 1] == c[j + 1]; }
      if j == i { assert d[j] == c[j] && d[j + 1] == c[j + 2]; }
      if j > i { assert old(LinkAt(head, nodes, j + 1)) && d[j] == c[j + 1] && d[j + 1] == c[j + 2]; }
    }
  }

  /** `find_list`: the first node with the given key. */
  method FindList(head: Node, key: Key, ghost nodes: seq<Node>) returns (n: Node?, ghost at: nat)
    requires Linked(head, nodes)
    ensures n == null ==> forall i :: 0 <= i < |nodes| ==> nodes[i].key != key
    ensures n != null ==> at < |nodes| && nodes[at] == n && n.key == key && forall i :: 0 <= i < at ==> nodes[i].key != key
  {
    ghost var c := Cycle(head, nodes);
    at := 0;
    assert LinkAt(head, nodes, 0);
    var p := head.next;
    while p != head
      invariant at <= |nodes| && p == c[at + 1]
      invariant forall i :: 0 <= i < at ==> nodes[i].key != key
      decreases |nodes| - at
    {
      assert p == nodes[at];
      if p.key == key {
        return p, at;
      }
      assert LinkAt(head, nodes, at + 1);
      p := p.next;
      at := at + 1;
    }
    n := null;
  }

  /** A session last used at `last` has been idle for longer than `limit` cycles, in 64-bit
      arithmetic. */
  predicate Expired(last: Word64, now: Word64, limit: Word64) { Sub64(now, last) > limit }

  /** The nodes that have, or have not, expired, in their order. */
  ghost function Select(nodes: seq<Node>, times: seq<Word64>, now: Word64, limit: Word64, expired: bool): seq<Node>
    requires |times| == |nodes|
  {
    if nodes == [] then []
    else
      var n := |nodes| - 1;
      Select(nodes[..n], times[..n], now, limit, expired) + if Expired(times[n], now, limit) == expired then [nodes[n]] else []
  }

  lemma {:induction false} SelectExactly(nodes: seq<Node>, times: seq<Word64>, now: Word64, limit: Word64, expired: bool, x: Node)
    requires |times| == |nodes|
    ensures x in Select(nodes, times, now, limit, expired) <==>
      exists i :: 0 <= i < |nodes| && nodes[i] == x && Expired(times[i], now, limit) == expired
    ensures (forall i :: 0 <= i < |nodes| ==> times[i] <= now) ==>
      (x in Select(nodes, times, now, limit, expired) <==>
        exists i :: 0 <= i < |nodes| && nodes[i] == x && (now - times[i] > limit) == expired)
  {
    if nodes != [] {
      var n := |nodes| - 1;
      SelectExactly(nodes[..n], times[..n], now, limit, expired, x);
      if i :| 0 <= i < |nodes| && nodes[i] == x && Expired(times[i], now, limit) == expired {
        assert i == n || (nodes[..n][i] == x && times[..n][i] == times[i]);
      }
      if x in Select(nodes[..n], times[..n], now, limit, expired) {
        var i :| 0 <= i < n && nodes[..n][i] == x && Expired(times[..n][i], now, limit) == expired;
        assert nodes[i] == x && Expired(times[i], now, limit) == expired;
      }
    }
  }

  /** A node is kept if and only if at most `limit` cycles have gone by since its stamp, on a
      counter that has wrapped once if it reads less than the stamp; if not, it is dropped. */
  lemma SelectByAge(nodes: seq<Node>, times: seq<Word64>, now: Word64, limit: Word64, i: nat)
    requires |times| == |nodes| && Distinct(nodes) && i < |nodes|
    ensures times[i] <= now ==>
      && (nodes[i] in Select(nodes, times, now, limit, false) <==> now - times[i] <= limit)
      && (nodes[i] in Select(nodes, times, now, limit, true) <==> now - times[i] > limit)
    ensures times[i] > now ==>
      && (nodes[i] in Select(nodes, times, now, limit, false) <==> now + U64 - times[i] <= limit)
      && (nodes[i] in Select(nodes, times, now, limit, true) <==> now + U64 - times[i] > limit)
  {
    SelectExactly(nodes, times, now, limit, false, nodes[i]);
    SelectExactly(nodes, times, now, limit, true, nodes[i]);
  }

  lemma {:induction false} SelectDistinct(nodes: seq<Node>, times: seq<Word64>, now: Word64, limit: Word64, expired: bool)
    requires |times| == |nodes| && Distinct(nodes)
    ensures Distinct(Select(nodes, times, now, limit, expired))
  {
    if nodes != [] {
      var n := |nodes| - 1;
      SelectDistinct(nodes[..n], times[..n], now, limit, expired);
      SelectExactly(nodes[..n], times[..n], now, limit, expired, nodes[n]);
    }
  }

  lemma {:induction false} SelectSplits(nodes: seq<Node>, times: seq<Word64>, now: Word64, limit: Word64)
    requires |times| == |nodes|
    ensures |Select(nodes, times, now, limit, true)| + |Select(nodes, times, now, limit, false)| == |nodes|
  {
    if nodes != [] {
      SelectSplits(nodes[..|nodes| - 1], times[..|nodes| - 1], now, limit);
    }
  }

  /** `delete_session`: unlinks the expired nodes during the walk and sends each to the pool.
      What stays is the sub-sequence of the others, still a well-formed list. */
  method DeleteSession(head: Node, count: nat, pool: seq<Node>, now: Word64, limit: Word64,
                       ghost nodes: seq<Node>, ghost times: seq<Word64>)
    returns (count': nat, pool': seq<Node>)
    requires Linked(head, nodes) && count == |nodes| == |times|
    requires forall i :: 0 <= i < |nodes| ==> nodes[i].lastTime == times[i]
    modifies head`next, head`prev, nodes`next, nodes`prev
    ensures Linked(head, Select(nodes, times, now, limit, false))
    ensures count' == |Select(nodes, times, now, limit, false)|
    ensures pool' == pool + Select(nodes, times, now, limit, true)
    ensures forall i {:trigger nodes[i]} :: 0 <= i < |nodes| && times[i] <= now ==>
      && (nodes[i] in Select(nodes, times, now, limit, false) <==> now - times[i] <= limit)
      && (nodes[i] in Select(nodes, times, now, limit, true) <==> now - times[i] > limit)
  {
    forall i | 0 <= i < |nodes|
      ensures times[i] <= now ==>
        && (nodes[i] in Select(nodes, times, now, limit, false) <==> now - times[i] <= limit)
        && (nodes[i] in Select(nodes, times, now, limit, true) <==> now - times[i] > limit)
    {
      SelectByAge(nodes, times, now, limit, i);
    }
    count', pool' := count, pool;
    ghost var i, w := 0, Walk(nodes, 0, []);
    StepOn(head, nodes, 0);
    var p: Node := head.next;
    StepOn(head, nodes, 1);
    var n: Node := p.next;
    while p != head
      invariant Walked(head, nodes, times, now, limit, i, w, p, n)
      invariant pool' == pool + w.out && count' == |w.cur|
      decreases |nodes| - i
    {
      var dropped;
      dropped, w := SweepTurn(p, n, head, now, limit, nodes, times, i, w);
      i := i + 1;
      if dropped {
        pool' := pool' + [p];
        count' := count' - 1;
      }
      p := n;
      n := p.next;
    }
    WalkEnds(head, nodes, times, now, limit, i, w, p, n);
  }

  /** The walk has come to `p`, knows what follows it, and has left a well-formed list. */
  ghost predicate Walked(head: Node, nodes: seq<Node>, times: seq<Word64>, now: Word64, limit: Word64,
                         i: nat, w: Walk, p: Node, n: Node)
    reads head`next, head`prev, w.cur`next, w.cur`prev, p`next
  {
    && i <= |nodes| == |times| && w == Swept(nodes, times, now, limit, i) && w.k <= |w.cur|
    && Linked(head, w.cur) && p == Cycle(head, w.cur)[w.k + 1] && n == p.next
  }

  lemma WalkEnds(head: Node, nodes: seq<Node>, times: seq<Word64>, now: Word64, limit: Word64,
                 i: nat, w: Walk, p: Node, n: Node)
    requires Walked(head, nodes, times, now, limit, i, w, p, n) && p == head
    ensures w.cur == Select(nodes, times, now, limit, false) && w.out == Select(nodes, times, now, limit, true)
  {
    SweptAll(nodes, times, now, limit, i);
  }

  method SweepTurn(p: Node, n: Node, head: Node, now: Word64, limit: Word64,
                   ghost nodes: seq<Node>, ghost times: seq<Word64>, ghost i: nat, ghost w: Walk)
    returns (dropped: bool, ghost w': Walk)
    requires p != head && Walked(head, nodes, times, now, limit, i, w, p, n)
    requires forall i :: 0 <= i < |nodes| ==> nodes[i].lastTime == times[i]
    modifies head`next, head`prev, nodes`next, nodes`prev
    ensures i < |nodes| && n.next != null && Walked(head, nodes, times, now, limit, i + 1, w', n, n.next)
    ensures w'.out == (if dropped then w.out + [p] else w.out) && |w'.cur| == (if dropped then |w.cur| - 1 else |w.cur|)
  {
    assert w.k < |w.cur| && p == w.cur[w.k];
    Advance(nodes, times, now, limit, i);
    ghost var cur, k;
    dropped, cur, k := SweepNode(p, n, head, now, limit, nodes, w.cur, w.k);
    w' := Walk(cur, k, if dropped then w.out + [p] else w.out);
  }

  /** How far a walk has come: the list as it is now, the nodes of it already passed, and
      the nodes unlinked. */
  datatype Walk = Walk(cur: seq<Node>, k: nat, out: seq<Node>)

  ghost function Swept(nodes: seq<Node>, times: seq<Word64>, now: Word64, limit: Word64, i: nat): Walk
    requires i <= |nodes| == |times|
  {
    if i == 0 then Walk(nodes, 0, [])
    else
      var w := Swept(nodes, times, now, limit, i - 1);
      if w.k >= |w.cur| then w
      else if Expired(times[i - 1], now, limit) then Walk(Without(w.cur, w.k), w.k, w.out + [w.cur[w.k]])
      else w.(k := w.k + 1)
  }

  /** The body of the walk: unlinks one node if it has expired; the successor saved before
      is then where the walk goes on. */
  method SweepNode(p: Node, n: Node, head: Node, now: Word64, limit: Word64,
                   ghost nodes: seq<Node>, ghost cur: seq<Node>, ghost k: nat)
    returns (dropped: bool, ghost cur': seq<Node>, ghost k': nat)
    requires k < |cur| && p == cur[k] && n == p.next && Linked(head, cur)
    requires Members(cur) <= Members(nodes)
    modifies head`next, head`prev, nodes`next, nodes`prev
    ensures dropped == Expired(p.lastTime, now, limit)
    ensures cur' == (if dropped then Without(cur, k) else cur) && k' == (if dropped then k else k + 1)
    ensures Linked(head, cur') && n == Cycle(head, cur')[k' + 1] && n.next != null
  {
    StepOn(head, cur, k + 1);
    dropped, cur', k' := Sub64(now, p.lastTime) > limit, cur, k + 1;
    if dropped {
      forall j | 0 <= j < |cur| ensures cur[j] in nodes { assert cur[j] in Members(cur); }
      ListDel(p, head, cur, k);
      cur', k' := Without(cur, k), k;
      assert Cycle(head, cur')[k + 1] == Cycle(head, cur)[k + 2];
    }
    StepOn(head, cur', k' + 1);
  }

  /** What is ahead of the walk is untouched, what it has passed is selected. */
  lemma {:induction false} SweptIs(nodes: seq<Node>, times: seq<Word64>, now: Word64, limit: Word64, i: nat)
    requires i <= |nodes| == |times|
    ensures var w := Swept(nodes, times, now, limit, i);
      && w.k <= |w.cur| && w.cur[w.k..] == nodes[i..]
      && w.cur[..w.k] == Select(nodes[..i], times[..i], now, limit, false)
      && w.out == Select(nodes[..i], times[..i], now, limit, true)
  {
    if i > 0 {
      SweptIs(nodes, times, now, limit, i - 1);
      SelectNext(nodes, times, i - 1, now, limit);
      var w := Swept(nodes, times, now, limit, i - 1);
      Ahead(w.cur, w.k, nodes, i - 1);
    }
  }

  /** Where the rest of the list is what is ahead, passing or dropping its first node. */
  lemma Ahead(cur: seq<Node>, k: nat, nodes: seq<Node>, i: nat)
    requires k <= |cur| && i < |nodes| && cur[k..] == nodes[i..]
    ensures k < |cur| && cur[k] == nodes[i]
    ensures cur[..k + 1] == cur[..k] + [nodes[i]] && cur[k + 1..] == nodes[i + 1..]
    ensures Without(cur, k)[..k] == cur[..k] && Without(cur, k)[k..] == nodes[i + 1..]
  {
    assert cur[k..][0] == nodes[i..][0];
    assert cur[k + 1..] == cur[k..][1..] && nodes[i..][1..] == nodes[i + 1..];
  }

  lemma WithoutApart(nodes: seq<Node>, i: nat)
    requires i < |nodes| && Distinct(nodes)
    ensures forall j {:trigger Without(nodes, i)[j]} :: 0 <= j < |nodes| - 1 ==>
      Without(nodes, i)[j] != nodes[i] && Without(nodes, i)[j] == nodes[if j < i then j else j + 1]
  {
  }

  lemma WithoutMembers(nodes: seq<Node>, i: nat)
    requires i < |nodes|
    ensures Members(Without(nodes, i)) <= Members(nodes)
  {
  }

  lemma {:induction false} SweptOnly(nodes: seq<Node>, times: seq<Word64>, now: Word64, limit: Word64, i: nat)
    requires i <= |nodes| == |times|
    ensures Members(Swept(nodes, times, now, limit, i).cur) <= Members(nodes)
  {
    if i > 0 {
      SweptOnly(nodes, times, now, limit, i - 1);
      var w := Swept(nodes, times, now, limit, i - 1);
      if w.k < |w.cur| {
        WithoutMembers(w.cur, w.k);
      }
    }
  }

  lemma Advance(nodes: seq<Node>, times: seq<Word64>, now: Word64, limit: Word64, i: nat)
    requires i <= |nodes| == |times|
    ensures var w := Swept(nodes, times, now, limit, i);
      && Members(w.cur) <= Members(nodes)
      && (w.k < |w.cur| ==> i < |nodes| && w.cur[w.k] == nodes[i])
    ensures var w := Swept(nodes, times, now, limit, i);
      w.k < |w.cur| ==>
        var gone := Expired(times[i], now, limit);
        Swept(nodes, times, now, limit, i + 1) ==
          Walk(if gone then Without(w.cur, w.k) else w.cur, if gone then w.k else w.k + 1, if gone then w.out + [nodes[i]] else w.out)
  {
    SweptOnly(nodes, times, now, limit, i);
    SweptIs(nodes, times, now, limit, i);
    var w := Swept(nodes, times, now, limit, i);
    assert w.k < |w.cur| ==> w.cur[w.k] == w.cur[w.k..][0];
  }

  lemma SweptAll(nodes: seq<Node>, times: seq<Word64>, now: Word64, limit: Word64, i: nat)
    requires i <= |nodes| == |times|
    requires var w := Swept(nodes, times, now, limit, i); w.k == |w.cur|
    ensures var w := Swept(nodes, times, now, limit, i);
      w.cur == Select(nodes, times, now, limit, false) && w.out == Select(nodes, times, now, limit, true)
  {
    SweptIs(nodes, times, now, limit, i);
    assert nodes[..i] == nodes && times[..i] == times;
    var w := Swept(nodes, times, now, limit, i);
    assert w.cur[..w.k] == w.cur;
  }

  lemma SweptEnd(nodes: seq<Node>, times: seq<Word64>, now: Word64, limit: Word64)
    requires |nodes| == |times|
    ensures var w := Swept(nodes, times, now, limit, |nodes|);
      w.cur == Select(nodes, times, now, limit, false) && w.out == Select(nodes, times, now, limit, true)
  {
    SweptIs(nodes, times, now, limit, |nodes|);
    SweptAll(nodes, times, now, limit, |nodes|);
  }

  lemma SelectNext(nodes: seq<Node>, times: seq<Word64>, i: nat, now: Word64, limit: Word64)
    requires i < |nodes| == |times|
    ensures var e := Expired(times[i], now, limit);
      && Select(nodes[..i + 1], times[..i + 1], now, limit, e) == Select(nodes[..i], times[..i], now, limit, e) + [nodes[i]]
      && Select(nodes[..i + 1], times[..i + 1], now, limit, !e) == Select(nodes[..i], times[..i], now, limit, !e)
  {
    assert nodes[..i + 1][..i] == nodes[..i] && times[..i + 1][..i] == times[..i];
  }

  /** Links never lead out of the list. */
  lemma StepOn(head: Node, nodes: seq<Node>, i: nat)
    requires Linked(head, nodes) && i <= |nodes| + 1
    ensures var c := Cycle(head, nodes); c[i].next == c[if i <= |nodes| then i + 1 else 1]
  {
    var c := Cycle(head, nodes);
    assert LinkAt(head, nodes, if i <= |nodes| then i else 0);
  }
}
