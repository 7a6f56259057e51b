/** A manager's session table: hash buckets of linked, pooled session nodes, as a refinement
    of a map from flow key to reassembled bytes. */
module SessionTable {
  import opened Common
  import opened FlowKey
  import opened SessionList
  import opened Primes

  class Bucket {
    const head: Node
    var count: nat

    constructor (bufferSize: nat, ghost tag: int)
      ensures fresh(this) && fresh(head) && fresh(head.buffer) && Linked(head, []) && count == 0 && head.home == tag
    {
      var h := new Node(bufferSize);
      InitListHead(h);
      h.home := tag;
      head, count := h, 0;
    }

    method Insert(n: Node, ghost nodes: seq<Node>)
      requires Linked(head, nodes) && n !in nodes && n != head && count == |nodes|
      modifies this`count, n`next, n`prev, head`next, head`prev, nodes`next, nodes`prev
      ensures Linked(head, nodes + [n]) && count == |nodes| + 1
    {
      InitListHead(n);
      ListAddTail(n, head, nodes);
      count := count + 1;
    }

    method Remove(n: Node, ghost nodes: seq<Node>, ghost i: nat)
      requires Linked(head, nodes) && i < |nodes| && nodes[i] == n && count == |nodes|
      modifies this`count, head`next, head`prev, nodes`next, nodes`prev
      ensures Linked(head, Without(nodes, i)) && count == |nodes| - 1
    {
      ListDel(n, head, nodes, i);
      count := count - 1;
    }
  }

  // ---------------------------------------------------------------- the map that is implemented

  /** The bytes reassembled so far, and when the last of them came. */
  datatype Session = Session(bytes: seq<Byte>, last: Word64)

  type Model = map<Key, Session>

  /** The test says whether there is room exactly if the sum does not wrap. */
  lemma TestIsRightIff(cur: nat, len: nat, size: BufferSize)
    requires cur <= size && len < U32
    ensures (PassesTest(cur, len, size) <==> cur + len < size) <==> cur + len < U32
  {
  }

  /** A session of 50 bytes in a buffer of 100, and a payload of 2^32 - 40: the test passes, and
      the copy would run over the end of the buffer. */
  lemma TestWraps()
    ensures PassesTest(50, U32 - 40, 100) && !(50 + (U32 - 40) < 100)
  {
  }

  /** The bucket that a hash chooses, in range whatever the hash. */
  function BucketOf(h: Key -> nat, key: Key, buckets: nat): (b: nat)
    ensures buckets > 0 ==> b < buckets
  {
    if h(key) < buckets then h(key) else 0
  }

  /** What sweeping means: the first `n` buckets have been swept, bucket `b` at time `clock[b]`. */
  ghost function SweptModel(h: Key -> nat, m: Model, clock: seq<Word64>, limit: Word64, n: nat): Model
    requires |clock| > 0
  {
    map key | key in m && !(BucketOf(h, key, |clock|) < n && Expired(m[key].last, clock[BucketOf(h, key, |clock|)], limit)) :: m[key]
  }

  /** After a sweep a session is there, as it was, if and only if the clock of its bucket read
      at most `limit` cycles after its stamp; a reading below the stamp has wrapped once. */
  lemma SweptByAge(h: Key -> nat, m: Model, clock: seq<Word64>, limit: Word64, n: nat, key: Key)
    requires |clock| > 0 && key in m
    ensures var (b, last, after) := (BucketOf(h, key, |clock|), m[key].last, SweptModel(h, m, clock, limit, n));
      && (n <= b ==> key in after)
      && (b < n && last <= clock[b] ==> (key in after <==> clock[b] - last <= limit))
      && (b < n && last > clock[b] ==> (key in after <==> clock[b] + U64 - last <= limit))
      && (key in after ==> after[key] == m[key])
  {
  }

  /** Sweeping one bucket more. */
  lemma SweptOneMore(h: Key -> nat, m: Model, clock: seq<Word64>, limit: Word64, b: nat)
    requires |clock| > 0
    ensures var (was, now) := (SweptModel(h, m, clock, limit, b), SweptModel(h, m, clock, limit, b + 1));
      && (forall key :: key in now ==> key in was && now[key] == was[key])
      && (forall key :: key in was && b < |clock| && was[key].last <= clock[b] ==>
            (key in now <==> (BucketOf(h, key, |clock|) == b ==> clock[b] - was[key].last <= limit)))
  {
  }

  /** One sweep after the other, each over the whole table. */
  ghost function SweptBy(h: Key -> nat, m: Model, sweeps: seq<seq<Word64>>, limit: Word64): Model {
    if sweeps == [] then m
    else
      var last := |sweeps| - 1;
      var before := SweptBy(h, m, sweeps[..last], limit);
      if sweeps[last] == [] then before else SweptModel(h, before, sweeps[last], limit, |sweeps[last]|)
  }

  /** A session that a payload has created or extended at time `t` survives every sweep whose
      clock is within `limit` of `t`, and no other. */
  lemma {:induction false} StampedSurvivesIff(h: Key -> nat, m: Model, key: Key, bytes: seq<Byte>, t: Word64,
                                              sweeps: seq<seq<Word64>>, limit: Word64, buckets: nat)
    requires buckets > 0 && forall i :: 0 <= i < |sweeps| ==>
      |sweeps[i]| == buckets && sweeps[i][BucketOf(h, key, buckets)] >= t
    ensures var after := SweptBy(h, m[key := Session(bytes, t)], sweeps, limit);
      && (key in after <==> forall i :: 0 <= i < |sweeps| ==> sweeps[i][BucketOf(h, key, buckets)] - t <= limit)
      && (key in after ==> after[key] == Session(bytes, t))
  {
    if sweeps != [] {
      var last := |sweeps| - 1;
      StampedSurvivesIff(h, m, key, bytes, t, sweeps[..last], limit, buckets);
      var before := SweptBy(h, m[key := Session(bytes, t)], sweeps[..last], limit);
      if key in before {
        SweptByAge(h, before, sweeps[last], limit, buckets, key);
      }
      assert forall i :: 0 <= i < |sweeps| ==> i == last || sweeps[i] == sweeps[..last][i];
    }
  }

  ghost function Total(lists: seq<seq<Node>>): nat {
    if lists == [] then 0 else Total(lists[..|lists| - 1]) + |lists[|lists| - 1]|
  }

  lemma {:induction false} TotalEmpty(lists: seq<seq<Node>>)
    requires forall b :: 0 <= b < |lists| ==> lists[b] == []
    ensures Total(lists) == 0
  {
    if lists != [] {
      TotalEmpty(lists[..|lists| - 1]);
    }
  }

  lemma {:induction false} TotalUpdate(lists: seq<seq<Node>>, b: nat, xs: seq<Node>)
    requires b < |lists|
    ensures Total(lists[b := xs]) == Total(lists) - |lists[b]| + |xs|
  {
    var n := |lists| - 1;
    if b == n {
      assert lists[b := xs][..n] == lists[..n];
    } else {
      TotalUpdate(lists[..n], b, xs);
      assert lists[b := xs][..n] == lists[..n][b := xs];
    }
  }

  /** The session that a node holds. */
  datatype Item = Item(key: Key, session: Session)

  function NodeAt(lists: seq<seq<Node>>, b: int, i: int): Node
    requires 0 <= b < |lists| && 0 <= i < |lists[b]|
  {
    lists[b][i]
  }

  /** A node of bucket `b` holds a session of the model, filed under its hash. */
  ghost predicate FiledAt(h: Key -> nat, buckets: nat, b: int, n: Node, items: map<Node, Item>, model: Model)
    requires buckets > 0
  {
    && n in items && BucketOf(h, items[n].key, buckets) == b
    && items[n].key in model && model[items[n].key] == items[n].session
  }

  ghost predicate Filed(h: Key -> nat, lists: seq<seq<Node>>, items: map<Node, Item>, model: Model) {
    |lists| > 0 &&
    forall b, i {:trigger NodeAt(lists, b, i)} :: 0 <= b < |lists| && 0 <= i < |lists[b]| ==>
      FiledAt(h, |lists|, b, NodeAt(lists, b, i), items, model)
  }

  /** No bucket has two nodes of one key. */
  ghost predicate KeysApart(lists: seq<seq<Node>>, items: map<Node, Item>) {
    forall b, i, j {:trigger NodeAt(lists, b, i), NodeAt(lists, b, j)} :: 0 <= b < |lists| && 0 <= i < j < |lists[b]| ==>
      var n, m := NodeAt(lists, b, i), NodeAt(lists, b, j);
      n in items && m in items && items[n].key != items[m].key
  }

  ghost predicate HasNode(h: Key -> nat, lists: seq<seq<Node>>, items: map<Node, Item>, key: Key)
    requires |lists| > 0
  {
    var xs := lists[BucketOf(h, key, |lists|)];
    exists i :: 0 <= i < |xs| && xs[i] in items && items[xs[i]].key == key
  }

  /** The lists and what their nodes hold represent the model. */
  ghost predicate Refines(h: Key -> nat, lists: seq<seq<Node>>, items: map<Node, Item>, model: Model) {
    && Filed(h, lists, items, model) && KeysApart(lists, items)
    && forall key {:trigger key in model} :: key in model ==> HasNode(h, lists, items, key)
  }

  lemma FiledCreate(h: Key -> nat, lists: seq<seq<Node>>, items: map<Node, Item>, model: Model, n: Node, b: nat, item: Item)
    requires Filed(h, lists, items, model) && KeysApart(lists, items) && item.key !in model && b == BucketOf(h, item.key, |lists|)
    requires Elsewhere(lists, n)
    ensures Filed(h, lists[b := lists[b] + [n]], items[n := item], model[item.key := item.session])
    ensures KeysApart(lists[b := lists[b] + [n]], items[n := item])
  {
    var lists', items', model' := lists[b := lists[b] + [n]], items[n := item], model[item.key := item.session];
    forall c, i | 0 <= c < |lists| && 0 <= i < |lists'[c]|
      ensures FiledAt(h, |lists|, c, NodeAt(lists', c, i), items', model')
      ensures (c == b && i == |lists[b]|) || NodeAt(lists', c, i) == NodeAt(lists, c, i)
    {
      if !(c == b && i == |lists[b]|) {
        assert NodeAt(lists', c, i) == NodeAt(lists, c, i);
      }
    }
    forall c, i, j | 0 <= c < |lists| && 0 <= i < j < |lists'[c]|
      ensures items'[NodeAt(lists', c, i)].key != items'[NodeAt(lists', c, j)].key
    {
      assert NodeAt(lists', c, i) == NodeAt(lists, c, i);
      assert FiledAt(h, |lists|, c, NodeAt(lists, c, i), items, model);
    }
  }

  /** The node is in no list. */
  ghost predicate Elsewhere(lists: seq<seq<Node>>, n: Node) {
    forall b, i {:trigger NodeAt(lists, b, i)} :: 0 <= b < |lists| && 0 <= i < |lists[b]| ==> NodeAt(lists, b, i) != n
  }

  /** Filing a new session. */
  lemma RefinesCreate(h: Key -> nat, lists: seq<seq<Node>>, items: map<Node, Item>, model: Model, n: Node, item: Item)
    requires Refines(h, lists, items, model) && item.key !in model && Elsewhere(lists, n)
    ensures var b := BucketOf(h, item.key, |lists|);
      Refines(h, lists[b := lists[b] + [n]], items[n := item], model[item.key := item.session])
  {
    var b := BucketOf(h, item.key, |lists|);
    FiledCreate(h, lists, items, model, n, b, item);
    var model' := model[item.key := item.session];
    forall k | k in model' ensures HasNode(h, lists[b := lists[b] + [n]], items[n := item], k) {
      var b, d := BucketOf(h, item.key, |lists|), BucketOf(h, k, |lists|);
      var lists' := lists[b := lists[b] + [n]];
      if k == item.key {
        assert lists'[b][|lists[b]|] == n;
      } else {
        var i :| 0 <= i < |lists[d]| && lists[d][i] in items && items[lists[d][i]].key == k;
        assert lists'[d][i] == lists[d][i] == NodeAt(lists, d, i);
      }
    }
  }

  /** The node is nowhere but at position `i` of bucket `b`. */
  ghost predicate OnlyAt(lists: seq<seq<Node>>, b: nat, i: nat) {
    b < |lists| && i < |lists[b]| &&
    forall c, j {:trigger NodeAt(lists, c, j)} :: 0 <= c < |lists| && 0 <= j < |lists[c]| && NodeAt(lists, c, j) == lists[b][i] ==>
      c == b && j == i
  }

  /** Keys determine nodes. */
  lemma OneNodePerKey(h: Key -> nat, lists: seq<seq<Node>>, items: map<Node, Item>, model: Model, b: nat, i: nat, c: nat, j: nat)
    requires Refines(h, lists, items, model) && b < |lists| && i < |lists[b]| && c < |lists| && j < |lists[c]|
    ensures var n, m := NodeAt(lists, b, i), NodeAt(lists, c, j);
      n in items && m in items && (items[n].key == items[m].key ==> b == c && i == j)
  {
    var n, m := NodeAt(lists, b, i), NodeAt(lists, c, j);
    assert FiledAt(h, |lists|, b, n, items, model) && FiledAt(h, |lists|, c, m, items, model);
  }

  /** Extending a session. */
  lemma RefinesAppend(h: Key -> nat, lists: seq<seq<Node>>, items: map<Node, Item>, model: Model, b: nat, i: nat, item: Item)
    requires Refines(h, lists, items, model) && OnlyAt(lists, b, i)
    requires lists[b][i] in items ==> item.key == items[lists[b][i]].key
    ensures lists[b][i] in items
    ensures var n := lists[b][i];
      Refines(h, lists, items[n := item], model[item.key := item.session])
  {
    var n := NodeAt(lists, b, i);
    assert FiledAt(h, |lists|, b, n, items, model);
    var items', model' := items[n := item], model[item.key := item.session];
    forall c, j | 0 <= c < |lists| && 0 <= j < |lists[c]| ensures FiledAt(h, |lists|, c, NodeAt(lists, c, j), items', model') {
      OneNodePerKey(h, lists, items, model, b, i, c, j);
      assert FiledAt(h, |lists|, c, NodeAt(lists, c, j), items, model);
    }
    assert KeysApart(lists, items');
    forall k | k in model' ensures HasNode(h, lists, items', k) {
      var d := BucketOf(h, k, |lists|);
      var j :| 0 <= j < |lists[d]| && lists[d][j] in items && items[lists[d][j]].key == k;
      assert items'[lists[d][j]].key == k;
    }
  }

  lemma FiledEvict(h: Key -> nat, lists: seq<seq<Node>>, items: map<Node, Item>, model: Model, b: nat, i: nat, key: Key)
    requires Refines(h, lists, items, model) && b < |lists| && i < |lists[b]|
    requires lists[b][i] in items && items[lists[b][i]].key == key
    ensures Filed(h, lists[b := Without(lists[b], i)], items, model - {key})
    ensures KeysApart(lists[b := Without(lists[b], i)], items)
  {
    var lists' := lists[b := Without(lists[b], i)];
    forall c, j | 0 <= c < |lists| && 0 <= j < |lists'[c]|
      ensures FiledAt(h, |lists|, c, NodeAt(lists', c, j), items, model - {key})
      ensures NodeAt(lists', c, j) == lists[c][if c == b && j >= i then j + 1 else j]
    {
      var j' := if c == b && j >= i then j + 1 else j;
      assert NodeAt(lists', c, j) == NodeAt(lists, c, j');
      assert FiledAt(h, |lists|, c, NodeAt(lists, c, j'), items, model);
      OneNodePerKey(h, lists, items, model, b, i, c, j');
    }
    forall c, j, k | 0 <= c < |lists| && 0 <= j < k < |lists'[c]|
      ensures items[NodeAt(lists', c, j)].key != items[NodeAt(lists', c, k)].key
    {
      var j', k' := if c == b && j >= i then j + 1 else j, if c == b && k >= i then k + 1 else k;
      OneNodePerKey(h, lists, items, model, c, j', c, k');
    }
  }

  /** Removing a session. */
  lemma RefinesEvict(h: Key -> nat, lists: seq<seq<Node>>, items: map<Node, Item>, model: Model, b: nat, i: nat)
    requires Refines(h, lists, items, model) && b < |lists| && i < |lists[b]|
    ensures lists[b][i] in items
    ensures Refines(h, lists[b := Without(lists[b], i)], items, model - {items[lists[b][i]].key})
  {
    assert FiledAt(h, |lists|, b, NodeAt(lists, b, i), items, model);
    var key := items[lists[b][i]].key;
    FiledEvict(h, lists, items, model, b, i, key);
    var model' := model - {key};
    forall k | k in model' ensures HasNode(h, lists[b := Without(lists[b], i)], items, k) {
      assert k in model;
      var d := BucketOf(h, k, |lists|);
      var lists' := lists[b := Without(lists[b], i)];
      var j :| 0 <= j < |lists[d]| && lists[d][j] in items && items[lists[d][j]].key == k;
      assert lists'[d][if d == b && j > i then j - 1 else j] == lists[d][j];
    }
  }

  /** The keys of the sessions that some nodes hold. */
  ghost function KeysOf(items: map<Node, Item>, nodes: seq<Node>): set<Key> {
    set n | n in nodes && n in items :: items[n].key
  }

  /** Removing the expired sessions of a bucket, one after the other. */
  lemma {:induction false} RefinesSweep(h: Key -> nat, lists: seq<seq<Node>>, items: map<Node, Item>, model: Model,
                                        b: nat, times: seq<Word64>, now: Word64, limit: Word64, i: nat)
    requires Refines(h, lists, items, model) && b < |lists| && i <= |lists[b]| == |times|
    ensures var w := Swept(lists[b], times, now, limit, i);
      Refines(h, lists[b := w.cur], items, model - KeysOf(items, w.out))
  {
    if i == 0 {
      assert lists[b := lists[b]] == lists;
      assert model - KeysOf(items, []) == model;
    } else {
      RefinesSweep(h, lists, items, model, b, times, now, limit, i - 1);
      var w := Swept(lists[b], times, now, limit, i - 1);
      if w.k < |w.cur| && Expired(times[i - 1], now, limit) {
        var lists', model' := lists[b := w.cur], model - KeysOf(items, w.out);
        RefinesEvict(h, lists', items, model', b, w.k);
        var n := w.cur[w.k];
        assert lists'[b := Without(w.cur, w.k)] == lists[b := Without(w.cur, w.k)];
        assert KeysOf(items, w.out + [n]) == KeysOf(items, w.out) + {items[n].key};
        assert model' - {items[n].key} == model - KeysOf(items, w.out + [n]);
      }
    }
  }

  ghost predicate AllIn(items: map<Node, Item>, nodes: seq<Node>) {
    forall i {:trigger nodes[i]} :: 0 <= i < |nodes| ==> nodes[i] in items
  }

  /** When the sessions of these nodes were last used. */
  ghost function TimesOf(items: map<Node, Item>, nodes: seq<Node>): seq<Word64>
    requires AllIn(items, nodes)
  {
    seq(|nodes|, i requires 0 <= i < |nodes| => items[nodes[i]].session.last)
  }

  /** The keys of the expired nodes of a bucket are the keys of its expired sessions. */
  lemma ExpiredKey(h: Key -> nat, lists: seq<seq<Node>>, items: map<Node, Item>, model: Model, b: nat, now: Word64, limit: Word64, key: Key)
    requires Refines(h, lists, items, model) && b < |lists| && AllIn(items, lists[b]) && key in model
    ensures key in KeysOf(items, Select(lists[b], TimesOf(items, lists[b]), now, limit, true)) <==>
      BucketOf(h, key, |lists|) == b && Expired(model[key].last, now, limit)
  {
    var nodes, times := lists[b], TimesOf(items, lists[b]);
    var gone := Select(nodes, times, now, limit, true);
    if key in KeysOf(items, gone) {
      var n :| n in gone && n in items && items[n].key == key;
      SelectExactly(nodes, times, now, limit, true, n);
      var i :| 0 <= i < |nodes| && nodes[i] == n && Expired(times[i], now, limit) == true;
      assert FiledAt(h, |lists|, b, NodeAt(lists, b, i), items, model);
    }
    if BucketOf(h, key, |lists|) == b && Expired(model[key].last, now, limit) {
      assert HasNode(h, lists, items, key);
      var i :| 0 <= i < |nodes| && nodes[i] in items && items[nodes[i]].key == key;
      assert FiledAt(h, |lists|, b, NodeAt(lists, b, i), items, model);
      SelectExactly(nodes, times, now, limit, true, nodes[i]);
      assert Expired(times[i], now, limit) == true;
    }
  }

  /** Sweeping bucket `b` after the ones before it, in terms of lists and in terms of the model. */
  lemma RefinesSwept(h: Key -> nat, lists: seq<seq<Node>>, items: map<Node, Item>, model: Model, clock: seq<Word64>, limit: Word64, b: nat)
    requires Refines(h, lists, items, model) && b < |lists| == |clock| && AllIn(items, lists[b])
    ensures var times := TimesOf(items, lists[b]);
      Refines(h, lists[b := Select(lists[b], times, clock[b], limit, false)], items,
              model - KeysOf(items, Select(lists[b], times, clock[b], limit, true)))
    ensures forall m :: model == SweptModel(h, m, clock, limit, b) ==>
      model - KeysOf(items, Select(lists[b], TimesOf(items, lists[b]), clock[b], limit, true)) == SweptModel(h, m, clock, limit, b + 1)
    ensures forall key :: key in model && model[key].last <= clock[b] ==>
      (key in KeysOf(items, Select(lists[b], TimesOf(items, lists[b]), clock[b], limit, true)) <==>
        BucketOf(h, key, |lists|) == b && clock[b] - model[key].last > limit)
  {
    var nodes, times := lists[b], TimesOf(items, lists[b]);
    RefinesSweep(h, lists, items, model, b, times, clock[b], limit, |nodes|);
    SweptEnd(nodes, times, clock[b], limit);
    var gone := Select(nodes, times, clock[b], limit, true);
    forall key | key in model
      ensures key in KeysOf(items, gone) <==> BucketOf(h, key, |lists|) == b && Expired(model[key].last, clock[b], limit)
    {
      ExpiredKey(h, lists, items, model, b, clock[b], limit, key);
    }
  }

  /** The keys in the first `n` buckets. */
  ghost function KeysUpTo(lists: seq<seq<Node>>, items: map<Node, Item>, n: nat): set<Key>
    requires n <= |lists|
  {
    if n == 0 then {} else KeysUpTo(lists, items, n - 1) + KeysOf(items, lists[n - 1])
  }

  lemma {:induction false} KeysOfSize(items: map<Node, Item>, nodes: seq<Node>)
    requires forall i :: 0 <= i < |nodes| ==> nodes[i] in items
    requires forall i, j :: 0 <= i < j < |nodes| ==> items[nodes[i]].key != items[nodes[j]].key
    ensures |KeysOf(items, nodes)| == |nodes|
  {
    if nodes != [] {
      var n := |nodes| - 1;
      KeysOfSize(items, nodes[..n]);
      assert nodes == nodes[..n] + [nodes[n]];
      forall k | k in KeysOf(items, nodes[..n]) ensures k != items[nodes[n]].key {
        var m :| m in nodes[..n] && m in items && items[m].key == k;
      }
      assert forall m :: m in nodes[..n] + [nodes[n]] <==> m in nodes[..n] || m == nodes[n];
      assert KeysOf(items, nodes[..n] + [nodes[n]]) == KeysOf(items, nodes[..n]) + {items[nodes[n]].key};
      assert items[nodes[n]].key !in KeysOf(items, nodes[..n]);
    }
  }

  lemma KeysInBucket(h: Key -> nat, lists: seq<seq<Node>>, items: map<Node, Item>, model: Model, b: nat)
    requires Refines(h, lists, items, model) && b < |lists|
    ensures |KeysOf(items, lists[b])| == |lists[b]|
    ensures forall k :: k in KeysOf(items, lists[b]) <==> k in model && BucketOf(h, k, |lists|) == b
  {
    forall i | 0 <= i < |lists[b]| ensures lists[b][i] in items {
      assert FiledAt(h, |lists|, b, NodeAt(lists, b, i), items, model);
    }
    forall i, j | 0 <= i < j < |lists[b]| ensures items[lists[b][i]].key != items[lists[b][j]].key {
      OneNodePerKey(h, lists, items, model, b, i, b, j);
    }
    KeysOfSize(items, lists[b]);
    forall k ensures k in KeysOf(items, lists[b]) <==> k in model && BucketOf(h, k, |lists|) == b {
      if k in KeysOf(items, lists[b]) {
        var n :| n in lists[b] && n in items && items[n].key == k;
        var i :| 0 <= i < |lists[b]| && lists[b][i] == n;
        assert FiledAt(h, |lists|, b, NodeAt(lists, b, i), items, model);
      }
      if k in model && BucketOf(h, k, |lists|) == b {
        assert HasNode(h, lists, items, k);
      }
    }
  }

  lemma {:induction false} KeysUpToSize(h: Key -> nat, lists: seq<seq<Node>>, items: map<Node, Item>, model: Model, n: nat)
    requires Refines(h, lists, items, model) && n <= |lists|
    ensures |KeysUpTo(lists, items, n)| == Total(lists[..n])
    ensures forall k :: k in KeysUpTo(lists, items, n) <==> k in model && BucketOf(h, k, |lists|) < n
  {
    if n > 0 {
      KeysUpToSize(h, lists, items, model, n - 1);
      KeysInBucket(h, lists, items, model, n - 1);
      assert lists[..n][..n - 1] == lists[..n - 1];
      assert KeysUpTo(lists, items, n - 1) !! KeysOf(items, lists[n - 1]);
    }
  }

  /** There are as many live nodes as sessions. */
  lemma LiveNodes(h: Key -> nat, lists: seq<seq<Node>>, items: map<Node, Item>, model: Model)
    requires Refines(h, lists, items, model)
    ensures Total(lists) == |model|
  {
    KeysUpToSize(h, lists, items, model, |lists|);
    assert lists[..|lists|] == lists;
    assert KeysUpTo(lists, items, |lists|) == model.Keys;
  }

  /** A node as the pool is filled with it. */
  ghost predicate Pristine(n: Node, bufferSize: nat, owners: map<array<Byte>, Node>, held: map<Node, Item>)
    reads n
  {
    && n.home == -1 && n.curLen == 0 && n.buffer.Length == bufferSize
    && n.buffer in owners && owners[n.buffer] == n
    && n in held && held[n] == Item(n.key, Session([], n.lastTime))
  }

  datatype Outcome = Created | Appended | Evicted | Waiting

  class Table {
    const buckets: seq<Bucket>
    const bufferSize: BufferSize
    const hash: Key -> nat                // chooses the bucket; proofs ask nothing of it
    var pool: seq<Node>                   // the session pool, a ring of SESSION_CAPACITY entries
    ghost const all: set<Node>            // the preallocated nodes
    ghost const ownerOf: map<array<Byte>, Node>   // whose buffer an array is
    ghost var lists: seq<seq<Node>>       // the nodes of each bucket, in list order
    ghost var items: map<Node, Item>      // what each node holds
    ghost var model: Model

    // ------------------------------------------------------------ invariant

    /** Each node of bucket `b` is preallocated and knows that it is there. */
    ghost predicate HomesOk(b: int)
      requires 0 <= b < |buckets| && |lists| == |buckets|
      reads this`lists, all`home, (set x | x in buckets :: x.head)`home
    {
      && buckets[b].head.home == -2 - b && buckets[b].head !in all
      && forall i {:trigger lists[b][i]} :: 0 <= i < |lists[b]| ==> lists[b][i] in all && lists[b][i].home == b
    }

    /** Bucket `b` is a well-formed list of these nodes, and counts them. */
    ghost predicate BucketOk(b: int)
      requires 0 <= b < |buckets| && |lists| == |buckets|
      reads this`lists, buckets`count, all`home, all`next, all`prev
      reads (set x | x in buckets :: x.head)`home, (set x | x in buckets :: x.head)`next, (set x | x in buckets :: x.head)`prev
    {
      HomesOk(b) && Linked(buckets[b].head, lists[b]) && buckets[b].count == |lists[b]|
    }

    ghost predicate PoolOk()
      reads this`pool, all`home
    {
      && Distinct(pool)
      && forall i {:trigger pool[i]} :: 0 <= i < |pool| ==> pool[i] in all && pool[i].home == -1
    }

    ghost predicate Shape()
      reads this`pool, this`lists, buckets`count, all`home, all`next, all`prev
      reads (set x | x in buckets :: x.head)`home, (set x | x in buckets :: x.head)`next, (set x | x in buckets :: x.head)`prev
    {
      && |buckets| > 0 && |lists| == |buckets|
      && (forall b, c :: 0 <= b < c < |buckets| ==> buckets[b] != buckets[c])
      && (forall b {:trigger BucketOk(b)} :: 0 <= b < |buckets| ==> BucketOk(b))
      && PoolOk()
      && |pool| + Total(lists) == SESSION_CAPACITY
    }

    /** Every node has a buffer of its own. */
    ghost predicate Buffers() {
      forall n {:trigger n.buffer} :: n in all ==> n.buffer.Length == bufferSize && n.buffer in ownerOf && ownerOf[n.buffer] == n
    }

    /** `items` says what the nodes hold. */
    ghost predicate Tied()
      reads this`items, all`key, all`curLen, all`lastTime, (set n | n in all :: n.buffer)
    {
      forall n {:trigger n in all} :: n in all ==>
        n in items && n.curLen <= n.buffer.Length && items[n] == Item(n.key, Session(n.buffer[..n.curLen], n.lastTime))
    }

    ghost predicate Valid()
      reads this, buckets, (set x | x in buckets :: x.head), all, (set n | n in all :: n.buffer)
    {
      Buffers() && Shape() && Tied() && Refines(hash, lists, items, model)
    }

    // ------------------------------------------------------------ hash_create, init_signle_manager

    /** A prime number of empty buckets, more than asked for, and a full pool. */
    constructor (hashLength: nat, bufferSize: BufferSize)
      ensures Valid() && model == map[] && |pool| == SESSION_CAPACITY && this.bufferSize == bufferSize
      ensures |buckets| > hashLength && IsPrime(|buckets|)
      ensures forall b :: 0 <= b < |buckets| ==> buckets[b].count == 0
      ensures forall key :: BucketOf(hash, key, |buckets|) == BucketIndex(key, |buckets|)
    {
      var num := NextPrime(hashLength);
      var bs := MakeBuckets(num, bufferSize);
      var nodes;
      ghost var owners, held;
      nodes, owners, held := MakeNodes(bufferSize);
      buckets, pool, this.bufferSize := bs, nodes, bufferSize;
      hash := key => BucketIndex(key, num);
      all, ownerOf, items := (set n | n in nodes), owners, held;
      lists, model := seq(num, _ => []), map[];
      new;
      EmptyShape();
    }

    lemma EmptyShape()
      requires |buckets| > 0 && |lists| == |buckets| && |pool| == SESSION_CAPACITY && PoolOk()
      requires forall b {:trigger lists[b]} :: 0 <= b < |lists| ==> lists[b] == []
      requires forall b {:trigger buckets[b]} :: 0 <= b < |buckets| ==>
        && buckets[b].count == 0 && buckets[b].head.home == -2 - b && buckets[b].head !in all && Linked(buckets[b].head, [])
      requires forall b, c :: 0 <= b < c < |buckets| ==> buckets[b] != buckets[c]
      ensures Shape()
    {
      TotalEmpty(lists);
      forall b | 0 <= b < |buckets| ensures BucketOk(b) {
        assert lists[b] == [] && buckets[b].count == 0;
      }
    }

    static method MakeBuckets(num: nat, bufferSize: nat) returns (bs: seq<Bucket>)
      ensures |bs| == num && fresh(bs) && forall b :: 0 <= b < num ==>
        && fresh(bs[b].head) && bs[b].count == 0 && bs[b].head.home == -2 - b && Linked(bs[b].head, [])
      ensures forall b, c :: 0 <= b < c < num ==> bs[b] != bs[c]
    {
      bs := [];
      while |bs| < num
        invariant |bs| <= num && fresh(bs) && forall b :: 0 <= b < |bs| ==>
          && fresh(bs[b].head) && bs[b].count == 0 && bs[b].head.home == -2 - b && Linked(bs[b].head, [])
        invariant forall b, c :: 0 <= b < c < |bs| ==> bs[b] != bs[c]
      {
        var b := new Bucket(bufferSize, -2 - |bs|);
        bs := bs + [b];
      }
    }

    /** The nodes of the session pool, each with a buffer of its own. */
    static method MakeNodes(bufferSize: nat)
      returns (nodes: seq<Node>, ghost owners: map<array<Byte>, Node>, ghost held: map<Node, Item>)
      ensures |nodes| == SESSION_CAPACITY && fresh(nodes) && Distinct(nodes)
      ensures forall i {:trigger nodes[i]} :: 0 <= i < |nodes| ==> Pristine(nodes[i], bufferSize, owners, held)
    {
      nodes, owners, held := [], map[], map[];
      while |nodes| < SESSION_CAPACITY
        invariant |nodes| <= SESSION_CAPACITY && fresh(nodes) && Distinct(nodes)
        invariant forall i {:trigger nodes[i]} :: 0 <= i < |nodes| ==>
          fresh(nodes[i].buffer) && Pristine(nodes[i], bufferSize, owners, held)
      {
        var n := new Node(bufferSize);
        nodes := nodes + [n];
        owners, held := owners[n.buffer := n], held[n := Item(n.key, Session([], n.lastTime))];
      }
    }

    // ------------------------------------------------------------ separation

    /** Nodes of different buckets, and list heads, are different objects. */
    lemma Apart(b: int, c: int)
      requires Shape() && 0 <= b < |buckets| && 0 <= c < |buckets| && b != c
      ensures buckets[b].head != buckets[c].head && buckets[b].head !in lists[c]
      ensures forall i :: 0 <= i < |lists[c]| ==> lists[c][i] !in lists[b] && lists[c][i] != buckets[b].head
    {
      assert BucketOk(b) && BucketOk(c);
    }

    /** The head of the pool is in no list. */
    lemma PoolApart(b: int)
      requires Shape() && 0 <= b < |buckets| && pool != []
      ensures pool[0] !in lists[b] && pool[0] != buckets[b].head && pool[0] in all
    {
      assert BucketOk(b);
    }

    lemma OthersApart(b: nat)
      requires Shape() && b < |buckets|
      ensures forall c {:trigger buckets[c]} :: 0 <= c < |buckets| && c != b ==>
        && buckets[c] != buckets[b] && buckets[b].head != buckets[c].head && buckets[c].head !in lists[b]
        && forall i :: 0 <= i < |lists[c]| ==> lists[c][i] !in lists[b] && lists[c][i] != buckets[b].head
    {
      forall c | 0 <= c < |buckets| && c != b
        ensures && buckets[c] != buckets[b] && buckets[b].head != buckets[c].head && buckets[c].head !in lists[b]
                && forall i :: 0 <= i < |lists[c]| ==> lists[c][i] !in lists[b] && lists[c][i] != buckets[b].head
      {
        Apart(b, c);
        Apart(c, b);
      }
    }
    // ------------------------------------------------------------ linking and unlinking a node

    method LinkNode(n: Node, b: nat)
      requires Shape() && b < |buckets| && pool != [] && n == pool[0]
      modifies this`pool, this`lists, buckets`count, n`next, n`prev, n`home
      modifies buckets[b].head`next, buckets[b].head`prev, lists[b]`next, lists[b]`prev
      ensures Shape() && pool == old(pool)[1..] && lists == old(lists)[b := old(lists)[b] + [n]]
    {
      TotalUpdate(lists, b, lists[b] + [n]);
      InsertOnly(n, b);
      Enlist(n, b);
      pool := pool[1..];
    }

    /** The linked node is at home in its bucket. */
    ghost method Enlist(n: Node, b: nat)
      requires |lists| == |buckets| && b < |buckets| && PoolOk() && pool != [] && n == pool[0]
      requires forall c {:trigger Becoming(c, b, lists[b] + [n])} :: 0 <= c < |buckets| ==> Becoming(c, b, lists[b] + [n])
      modifies this`lists, n`home
      ensures lists == old(lists)[b := old(lists)[b] + [n]]
      ensures forall c {:trigger BucketOk(c)} :: 0 <= c < |buckets| ==> BucketOk(c)
      ensures forall i {:trigger pool[i]} :: 0 < i < |pool| ==> pool[i].home == -1
    {
      ghost var was := lists;
      assert Becoming(b, b, was[b] + [n]);
      n.home := b;
      lists := was[b := was[b] + [n]];
      forall c | 0 <= c < |buckets| ensures BucketOk(c) {
        assert old(Becoming(c, b, was[b] + [n]));
      }
    }

    /** Linking leaves what the nodes hold alone. */
    method LinkFilled(n: Node, b: nat)
      requires Shape() && Tied() && b < |buckets| && pool != [] && n == pool[0]
      modifies this`pool, this`lists, buckets`count, n`next, n`prev, n`home
      modifies buckets[b].head`next, buckets[b].head`prev, lists[b]`next, lists[b]`prev
      ensures Shape() && Tied() && pool == old(pool)[1..] && lists == old(lists)[b := old(lists)[b] + [n]]
    {
      LinkNode(n, b);
    }

    method InsertOnly(n: Node, b: nat)
      requires Shape() && b < |buckets| && pool != [] && n == pool[0]
      modifies buckets`count, n`next, n`prev
      modifies buckets[b].head`next, buckets[b].head`prev, lists[b]`next, lists[b]`prev
      ensures forall c {:trigger Becoming(c, b, lists[b] + [n])} :: 0 <= c < |buckets| ==> Becoming(c, b, lists[b] + [n])
    {
      PoolApart(b);
      assert BucketOk(b);
      OthersApart(b);
      buckets[b].Insert(n, lists[b]);
      forall c | 0 <= c < |buckets| ensures Becoming(c, b, lists[b] + [n]) {
        assert old(BucketOk(c));
        var _ := buckets[c];
      }
    }

    /** Sends node `i` of bucket `b` back to the pool; the pool has room for it. */
    method UnlinkNode(n: Node, b: nat, ghost i: nat)
      requires Shape() && b < |buckets| && i < |lists[b]| && lists[b][i] == n
      modifies this`pool, this`lists, buckets`count, n`home
      modifies buckets[b].head`next, buckets[b].head`prev, lists[b]`next, lists[b]`prev
      ensures Shape() && old(|pool|) < SESSION_CAPACITY
      ensures pool == old(pool) + [n] && lists == old(lists)[b := Without(old(lists)[b], i)]
    {
      ghost var kept := Without(lists[b], i);
      assert BucketOk(b);
      TotalUpdate(lists, b, kept);
      WithoutApart(lists[b], i);
      RemoveOnly(n, b, i);
      Rehome(b, [n], kept);
      pool := pool + [n];
    }

    /** Nor does unlinking touch what the nodes hold. */
    method UnlinkFilled(n: Node, b: nat, ghost i: nat)
      requires Shape() && Tied() && b < |buckets| && i < |lists[b]| && lists[b][i] == n
      modifies this`pool, this`lists, buckets`count, n`home
      modifies buckets[b].head`next, buckets[b].head`prev, lists[b]`next, lists[b]`prev
      ensures Shape() && Tied() && old(|pool|) < SESSION_CAPACITY
      ensures pool == old(pool) + [n] && lists == old(lists)[b := Without(old(lists)[b], i)]
    {
      UnlinkNode(n, b, i);
    }

    method RemoveOnly(n: Node, b: nat, ghost i: nat)
      requires Shape() && b < |buckets| && i < |lists[b]| && lists[b][i] == n
      modifies buckets`count
      modifies buckets[b].head`next, buckets[b].head`prev, lists[b]`next, lists[b]`prev
      ensures var kept := Without(lists[b], i);
        forall c {:trigger Becoming(c, b, kept)} :: 0 <= c < |buckets| ==> Becoming(c, b, kept)
    {
      ghost var kept := Without(lists[b], i);
      assert BucketOk(b);
      OthersApart(b);
      buckets[b].Remove(n, lists[b], i);
      forall c | 0 <= c < |buckets| ensures Becoming(c, b, kept) {
        assert old(BucketOk(c));
        var _ := buckets[c];
      }
    }

    // ------------------------------------------------------------ hash_add_item

    method FillNode(n: Node, key: Key, payload: seq<Byte>, now: Word64)
      requires Buffers() && Shape() && Tied() && n in all && |payload| <= bufferSize
      modifies this`items, n`key, n`curLen, n`lastTime, n.buffer
      ensures Shape() && Tied() && items == old(items)[n := Item(key, Session(payload, now))]
    {
      n.Fill(key, payload, now);
      items := items[n := Item(key, Session(payload, now))];
    }

    /** `make_new_session` on a node from the pool, which then joins bucket `b`. */
    method CreateNode(b: nat, key: Key, payload: seq<Byte>, now: Word64)
      requires Buffers() && Shape() && Tied() && b < |buckets| && pool != [] && |payload| <= bufferSize
      modifies this`pool, this`lists, this`items, buckets`count, all`next, all`prev, all`home
      modifies pool[..1]`key, pool[..1]`curLen, pool[..1]`lastTime, pool[0].buffer
      modifies (set x | x in buckets :: x.head)`next, (set x | x in buckets :: x.head)`prev
      ensures Shape() && Tied() && pool == old(pool)[1..]
      ensures lists == old(lists)[b := old(lists)[b] + [old(pool)[0]]]
      ensures items == old(items)[old(pool)[0] := Item(key, Session(payload, now))]
    {
      var n := pool[0];
      PoolApart(b);
      MembersInAll(b);
      FillNode(n, key, payload, now);
      LinkFilled(n, b);
    }

    lemma PooledElsewhere()
      requires Shape() && pool != []
      ensures Elsewhere(lists, pool[0])
    {
      forall b, i | 0 <= b < |lists| && 0 <= i < |lists[b]| ensures NodeAt(lists, b, i) != pool[0] { assert BucketOk(b); }
    }

    method Create(key: Key, payload: seq<Byte>, now: Word64)
      requires Valid() && key !in model && pool != [] && |payload| <= bufferSize
      modifies this`pool, this`lists, this`items, this`model, buckets`count, all, (set x | x in buckets :: x.head)
      modifies (set n | n in all :: n.buffer)
      ensures Valid() && model == old(model)[key := Session(payload, now)] && pool == old(pool)[1..]
    {
      PooledElsewhere();
      RefinesCreate(hash, lists, items, model, pool[0], Item(key, Session(payload, now)));
      var b := BucketOf(hash, key, |buckets|);
      CreateNode(b, key, payload, now);
      model := model[key := Session(payload, now)];
    }

    /** The `memcpy` into a session that has room. */
    method Extend(n: Node, payload: seq<Byte>, now: Word64)
      requires Buffers() && Tied() && n in all && |items[n].session.bytes| + |payload| <= bufferSize
      modifies this`items, n`curLen, n`lastTime, n.buffer
      ensures Tied() && items == old(items)[n := Item(old(items)[n].key, Session(old(items)[n].session.bytes + payload, now))]
    {
      ghost var item := items[n];
      n.CopyIn(payload);
      n.lastTime := now;
      items := items[n := Item(item.key, Session(item.session.bytes + payload, now))];
    }

    /** A node is in one place of one list. */
    lemma OnePlace(b: nat, i: nat)
      requires Shape() && b < |lists| && i < |lists[b]|
      ensures lists[b][i] in all && OnlyAt(lists, b, i)
    {
      assert BucketOk(b);
      forall c, j | 0 <= c < |lists| && 0 <= j < |lists[c]| && NodeAt(lists, c, j) == lists[b][i] ensures c == b && j == i {
        assert BucketOk(c);
      }
    }

    /** What the model says about the session that a node holds. */
    lemma SessionOf(b: nat, i: nat)
      requires Valid() && b < |lists| && i < |lists[b]|
      ensures var n := lists[b][i];
        && n in all && n in items && items[n].key == n.key && n.key in model && model[n.key] == items[n].session
        && |items[n].session.bytes| == n.curLen <= bufferSize
    {
      OnePlace(b, i);
      assert FiledAt(hash, |lists|, b, NodeAt(lists, b, i), items, model);
    }

    method Append(n: Node, payload: seq<Byte>, now: Word64, ghost b: nat, ghost i: nat)
      requires Valid() && b < |lists| && i < |lists[b]| && n == lists[b][i] && n in all
      requires n.key in model && |model[n.key].bytes| + |payload| < bufferSize
      modifies this`items, this`model, n`curLen, n`lastTime, n.buffer
      ensures Valid() && model == old(model)[old(n.key) := Session(old(model)[old(n.key)].bytes + payload, now)]
    {
      AppendRefines(b, i, payload, now);
      model := model[n.key := Session(items[n].session.bytes + payload, now)];
      Extend(n, payload, now);
    }

    lemma AppendRefines(b: nat, i: nat, payload: seq<Byte>, now: Word64)
      requires Valid() && b < |lists| && i < |lists[b]|
      ensures var n := lists[b][i];
        && n in all && n in items && items[n].key == n.key && n.key in model && model[n.key] == items[n].session
        && var session := Session(items[n].session.bytes + payload, now);
           Refines(hash, lists, items[n := Item(n.key, session)], model[n.key := session])
    {
      OnePlace(b, i);
      SessionOf(b, i);
      var n := lists[b][i];
      RefinesAppend(hash, lists, items, model, b, i, Item(n.key, Session(items[n].session.bytes + payload, now)));
    }

    lemma EvictRefines(b: nat, i: nat)
      requires Valid() && b < |lists| && i < |lists[b]|
      ensures var n := lists[b][i]; n in all && Refines(hash, lists[b := Without(lists[b], i)], items, model - {n.key})
    {
      SessionOf(b, i);
      RefinesEvict(hash, lists, items, model, b, i);
    }

    lemma MembersInAll(b: nat)
      requires Shape() && b < |buckets|
      ensures forall n :: n in lists[b] ==> n in all
    {
      assert BucketOk(b);
    }

    method Evict(n: Node, b: nat, ghost i: nat)
      requires Valid() && b < |buckets| && i < |lists[b]| && n == lists[b][i]
      modifies this`pool, this`lists, this`model, buckets`count, all`next, all`prev, all`home
      modifies (set x | x in buckets :: x.head)`next, (set x | x in buckets :: x.head)`prev
      ensures Valid() && n in all && model == old(model) - {old(n.key)}
      ensures old(|pool|) < SESSION_CAPACITY && pool == old(pool) + [n]
    {
      EvictRefines(b, i);
      model := model - {n.key};
      MembersInAll(b);
      UnlinkFilled(n, b, i);
    }

    /** A search without result means that there is no such session. */
    lemma Missing(key: Key)
      requires Valid()
      requires var b := BucketOf(hash, key, |buckets|);
        forall i :: 0 <= i < |lists[b]| ==> lists[b][i] in all && lists[b][i].key != key
      ensures key !in model
    {
    }

    lemma InAll(b: nat)
      requires Shape() && b < |buckets|
      ensures Linked(buckets[b].head, lists[b]) && forall i :: 0 <= i < |lists[b]| ==> lists[b][i] in all
    {
      assert BucketOk(b);
    }

    /** The test of the program, and when it is right. */
    static method HasRoom(cur: nat, len: nat, size: BufferSize) returns (room: bool)
      ensures room == PassesTest(cur, len, size)
      ensures cur + len < U32 ==> (room <==> cur + len < size)
    {
      room := Unsigned32(cur + len) < size;
    }

    /** `hash_add_item`.  `Waiting` is one turn of the loop that waits for a pooled node.  What is
        required excludes just the payloads that the program would copy over the end of a buffer. */
    method Add(key: Key, payload: seq<Byte>, now: Word64) returns (r: Outcome)
      requires Valid()
      requires if key in model then |model[key].bytes| + |payload| < U32 else |payload| <= bufferSize
      modifies this`pool, this`lists, this`items, this`model, buckets`count, all, (set x | x in buckets :: x.head)
      modifies (set n | n in all :: n.buffer)
      ensures Valid()
      ensures r.Waiting? <==> key !in old(model) && old(pool) == []
      ensures r.Waiting? ==> model == old(model) && lists == old(lists) && pool == old(pool)
      ensures r.Created? <==> key !in old(model) && old(pool) != []
      ensures r.Created? ==> model == old(model)[key := Session(payload, now)]
      ensures r.Appended? <==> key in old(model) && |old(model)[key].bytes| + |payload| < bufferSize
      ensures r.Appended? ==> model == old(model)[key := Session(old(model)[key].bytes + payload, now)]
      ensures r.Evicted? <==> key in old(model) && |old(model)[key].bytes| + |payload| >= bufferSize
      ensures r.Evicted? ==> model == old(model) - {key}
      ensures |pool| == old(|pool|) + (if r.Evicted? then 1 else if r.Created? then -1 else 0)
    {
      var b := BucketOf(hash, key, |buckets|);
      InAll(b);
      ghost var i: nat;
      var n;
      n, i := FindList(buckets[b].head, key, lists[b]);
      if n == null {
        Missing(key);
        if pool == [] {
          return Waiting;
        }
        Create(key, payload, now);
        return Created;
      }
      SessionOf(b, i);
      var room := HasRoom(n.curLen, |payload|, bufferSize);
      if room {
        Append(n, payload, now, b, i);
        r := Appended;
      } else {
        Evict(n, b, i);
        r := Evicted;
      }
    }

    // ------------------------------------------------------------ hash_travel_delete

    method DeleteOnly(b: nat, now: Word64, limit: Word64, ghost times: seq<Word64>) returns (pool': seq<Node>)
      requires Shape() && b < |buckets| && |times| == |lists[b]|
      requires forall i :: 0 <= i < |lists[b]| ==> lists[b][i].lastTime == times[i]
      modifies buckets`count
      modifies buckets[b].head`next, buckets[b].head`prev, lists[b]`next, lists[b]`prev
      ensures pool' == pool + Select(lists[b], times, now, limit, true)
      ensures var kept := Select(lists[b], times, now, limit, false);
        forall c {:trigger Becoming(c, b, kept)} :: 0 <= c < |buckets| ==> Becoming(c, b, kept)
    {
      ghost var kept := Select(lists[b], times, now, limit, false);
      assert BucketOk(b);
      OthersApart(b);
      var count;
      count, pool' := DeleteSession(buckets[b].head, buckets[b].count, pool, now, limit, lists[b], times);
      buckets[b].count := count;
      forall c | 0 <= c < |buckets| ensures Becoming(c, b, kept) {
        assert old(BucketOk(c));
        var _ := buckets[c];
      }
    }

    /** The expired nodes of a bucket, and the others. */
    lemma Parted(nodes: seq<Node>, times: seq<Word64>, now: Word64, limit: Word64)
      requires |times| == |nodes| && Distinct(nodes)
      ensures var gone, kept := Select(nodes, times, now, limit, true), Select(nodes, times, now, limit, false);
        && Distinct(gone) && |gone| + |kept| == |nodes|
        && (forall i {:trigger gone[i]} :: 0 <= i < |gone| ==> gone[i] in nodes)
        && (forall i {:trigger kept[i]} :: 0 <= i < |kept| ==> kept[i] in nodes && kept[i] !in gone)
    {
      var gone, kept := Select(nodes, times, now, limit, true), Select(nodes, times, now, limit, false);
      SelectDistinct(nodes, times, now, limit, true);
      SelectSplits(nodes, times, now, limit);
      forall i | 0 <= i < |gone| ensures gone[i] in nodes { SelectExactly(nodes, times, now, limit, true, gone[i]); }
      forall i | 0 <= i < |kept| ensures kept[i] in nodes && kept[i] !in gone {
        SelectExactly(nodes, times, now, limit, true, kept[i]);
        SelectExactly(nodes, times, now, limit, false, kept[i]);
      }
    }

    /** Bucket `c` as it is once bucket `b` holds `nodes`. */
    ghost predicate Becoming(c: int, b: int, nodes: seq<Node>)
      requires 0 <= c < |buckets| && |lists| == |buckets|
      reads this`lists, buckets`count, all`home, all`next, all`prev, nodes`next, nodes`prev
      reads (set x | x in buckets :: x.head)`home, (set x | x in buckets :: x.head)`next, (set x | x in buckets :: x.head)`prev
    {
      var xs := if c == b then nodes else lists[c];
      HomesOk(c) && Linked(buckets[c].head, xs) && buckets[c].count == |xs|
    }

    /** The unlinked nodes are at home in the pool again. */
    ghost method Rehome(b: nat, gone: seq<Node>, kept: seq<Node>)
      requires |lists| == |buckets| && b < |buckets| && PoolOk() && Distinct(gone)
      requires forall c {:trigger Becoming(c, b, kept)} :: 0 <= c < |buckets| ==> Becoming(c, b, kept)
      requires forall i {:trigger gone[i]} :: 0 <= i < |gone| ==> gone[i] in lists[b]
      requires forall i {:trigger kept[i]} :: 0 <= i < |kept| ==> kept[i] in lists[b] && kept[i] !in gone
      modifies this`lists, gone`home
      ensures lists == old(lists)[b := kept]
      ensures forall c {:trigger BucketOk(c)} :: 0 <= c < |buckets| ==> BucketOk(c)
      ensures Distinct(pool + gone)
      ensures forall i {:trigger (pool + gone)[i]} :: 0 <= i < |pool + gone| ==> (pool + gone)[i] in all && (pool + gone)[i].home == -1
    {
      ghost var was := lists;
      assert Becoming(b, b, kept);
      assert forall i :: 0 <= i < |gone| ==> gone[i] in all && gone[i].home == b;
      forall n | n in gone { n.home := -1; }
      lists := was[b := kept];
      forall c | 0 <= c < |buckets| ensures BucketOk(c) {
        assert old(Becoming(c, b, kept));
      }
    }

    method SweepNodes(b: nat, now: Word64, limit: Word64, ghost times: seq<Word64>)
      requires Shape() && b < |buckets| && |times| == |lists[b]|
      requires forall i :: 0 <= i < |lists[b]| ==> lists[b][i].lastTime == times[i]
      modifies this`pool, this`lists, buckets`count, all`next, all`prev, all`home
      modifies (set x | x in buckets :: x.head)`next, (set x | x in buckets :: x.head)`prev
      ensures Shape()
      ensures pool == old(pool) + Select(old(lists)[b], times, now, limit, true)
      ensures lists == old(lists)[b := Select(old(lists)[b], times, now, limit, false)]
    {
      ghost var gone, kept := Select(lists[b], times, now, limit, true), Select(lists[b], times, now, limit, false);
      MembersInAll(b);
      assert BucketOk(b);
      Parted(lists[b], times, now, limit);
      TotalUpdate(lists, b, kept);
      var p := DeleteOnly(b, now, limit, times);
      Rehome(b, gone, kept);
      pool := p;
    }

    method SweepFilled(b: nat, now: Word64, limit: Word64, ghost times: seq<Word64>)
      requires Shape() && Tied() && b < |buckets| && |times| == |lists[b]|
      requires forall i :: 0 <= i < |lists[b]| ==> lists[b][i].lastTime == times[i]
      modifies this`pool, this`lists, buckets`count, all`next, all`prev, all`home
      modifies (set x | x in buckets :: x.head)`next, (set x | x in buckets :: x.head)`prev
      ensures Shape() && Tied()
      ensures lists == old(lists)[b := Select(old(lists)[b], times, now, limit, false)]
    {
      SweepNodes(b, now, limit, times);
    }

    lemma TimesTied(b: nat) returns (times: seq<Word64>)
      requires Valid() && b < |buckets|
      ensures AllIn(items, lists[b]) && times == TimesOf(items, lists[b])
      ensures forall i :: 0 <= i < |lists[b]| ==> lists[b][i].lastTime == times[i]
    {
      MembersInAll(b);
      forall i | 0 <= i < |lists[b]| ensures lists[b][i] in items {
        assert FiledAt(hash, |lists|, b, NodeAt(lists, b, i), items, model);
      }
      times := TimesOf(items, lists[b]);
      forall i | 0 <= i < |lists[b]| ensures lists[b][i].lastTime == times[i] { assert lists[b][i] in lists[b]; }
    }

    lemma SweptFacts(b: nat, limit: Word64, m: Model, clock: seq<Word64>) returns (times: seq<Word64>)
      requires Valid() && b < |buckets| == |clock| && model == SweptModel(hash, m, clock, limit, b)
      ensures |times| == |lists[b]| && forall i :: 0 <= i < |lists[b]| ==> lists[b][i].lastTime == times[i]
      ensures Refines(hash, lists[b := Select(lists[b], times, clock[b], limit, false)], items, SweptModel(hash, m, clock, limit, b + 1))
    {
      times := TimesTied(b);
      RefinesSwept(hash, lists, items, model, clock, limit, b);
    }

    method SweepBucket(b: nat, limit: Word64, ghost m: Model, clock: seq<Word64>)
      requires Valid() && b < |buckets| == |clock| && model == SweptModel(hash, m, clock, limit, b)
      modifies this`pool, this`lists, this`model, buckets`count, all`next, all`prev, all`home
      modifies (set x | x in buckets :: x.head)`next, (set x | x in buckets :: x.head)`prev
      ensures Valid() && model == SweptModel(hash, m, clock, limit, b + 1)
      ensures forall c :: 0 <= c < |lists| && c != b ==> lists[c] == old(lists)[c]
    {
      ghost var times := SweptFacts(b, limit, m, clock);
      ghost var kept := Select(lists[b], times, clock[b], limit, false);
      model := SweptModel(hash, m, clock, limit, b + 1);
      SweepFilled(b, clock[b], limit, times);
      assert lists == old(lists)[b := kept];
    }

    /** Sweeps one bucket: what expired leaves the model and goes back to the pool. */
    method Sweep(b: nat, limit: Word64, ghost m: Model, clock: seq<Word64>)
      requires Valid() && b < |buckets| == |clock| && model == SweptModel(hash, m, clock, limit, b)
      modifies this`pool, this`lists, this`model, buckets`count, all`next, all`prev, all`home
      modifies (set x | x in buckets :: x.head)`next, (set x | x in buckets :: x.head)`prev
      ensures Valid() && model == SweptModel(hash, m, clock, limit, b + 1)
      ensures forall key :: key in model ==> key in old(model) && model[key] == old(model)[key]
      ensures forall key :: key in old(model) && old(model)[key].last <= clock[b] ==>
        (key in model <==> (BucketOf(hash, key, |clock|) == b ==> clock[b] - old(model)[key].last <= limit))
      ensures forall c :: 0 <= c < |lists| && c != b ==> lists[c] == old(lists)[c]
    {
      SweptOneMore(hash, m, clock, limit, b);
      SweepBucket(b, limit, m, clock);
    }

    /** `hash_travel_delete`: reads the clock once per bucket. */
    method HashTravelDelete(clock: seq<Word64>, limit: Word64)
      requires Valid() && |clock| == |buckets|
      modifies this`pool, this`lists, this`model, buckets`count, all`next, all`prev, all`home
      modifies (set x | x in buckets :: x.head)`next, (set x | x in buckets :: x.head)`prev
      ensures Valid() && model == SweptModel(hash, old(model), clock, limit, |buckets|)
      ensures forall key :: key in model ==> key in old(model) && model[key] == old(model)[key]
      ensures forall key :: key in old(model) && old(model)[key].last <= clock[BucketOf(hash, key, |buckets|)] ==>
        (key in model <==> clock[BucketOf(hash, key, |buckets|)] - old(model)[key].last <= limit)
    {
      assert model == SweptModel(hash, model, clock, limit, 0);
      for b := 0 to |buckets|
        invariant Valid() && model == SweptModel(hash, old(model), clock, limit, b)
      {
        Sweep(b, limit, old(model), clock);
      }
    }

    // ------------------------------------------------------------ hash_count

    /** The counts add up to the number of live sessions; the other nodes are in the pool. */
    method HashCount() returns (cnt: nat)
      requires Valid()
      ensures cnt == |model| && cnt + |pool| == SESSION_CAPACITY
    {
      cnt := 0;
      for i := 0 to |buckets|
        invariant cnt == Total(lists[..i])
      {
        assert BucketOk(i);
        assert lists[..i + 1][..i] == lists[..i];
        cnt := cnt + buckets[i].count;
      }
      assert lists[..|buckets|] == lists;
      LiveNodes(hash, lists, items, model);
    }
  }
}
