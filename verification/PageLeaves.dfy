/** What a lock-free reader can see of the page layer: the page-map leaves and the
    live descriptors, one store at a time. A locked section of PageCache is a
    sequence of such stores, in the order src/page_cache.cpp does them. */
module PageLeaves {
  import opened Lists
  import opened PageHeap

  datatype View = View(leaf: map<nat, nat>, live: set<nat>)

  /** A descriptor comes from its pool, a leaf is stored or cleared, a descriptor
      goes back to its pool. */
  datatype Op = Create(id: nat) | Store(page: nat, id: nat) | Clear(page: nat) | Delete(id: nat)

  function ViewOf(h: Heap): View { View(h.pageMap, h.spans.Keys) }

  function Do(v: View, op: Op): View
  {
    match op
    case Create(id) => v.(live := v.live + {id})
    case Store(p, id) => v.(leaf := v.leaf[p := id])
    case Clear(p) => v.(leaf := v.leaf - {p})
    case Delete(id) => v.(live := v.live - {id})
  }

  function Play(v: View, ops: seq<Op>): View
    decreases |ops|
  {
    if ops == [] then v else Play(Do(v, ops[0]), ops[1..])
  }

  /** No leaf names a descriptor that has gone back to its pool. */
  ghost predicate NamesLive(v: View) { forall p: nat :: p in v.leaf ==> v.leaf[p] in v.live }

  /** A descriptor is created while dead and deleted while live, and only a live one
      is stored. */
  predicate Legal(v: View, op: Op)
  {
    match op
    case Create(id) => id !in v.live
    case Store(p, id) => id in v.live
    case Clear(p) => true
    case Delete(id) => id in v.live
  }

  /** At the beginning, after every single store and at the end. */
  ghost predicate AlwaysLive(v: View, ops: seq<Op>)
    decreases |ops|
  {
    NamesLive(v) && (ops != [] ==> Legal(v, ops[0]) && AlwaysLive(Do(v, ops[0]), ops[1..]))
  }

  /** No leaf of page p is written. */
  predicate Avoids(ops: seq<Op>, p: nat)
  {
    forall i :: 0 <= i < |ops| ==> (ops[i].Store? || ops[i].Clear? ==> ops[i].page != p)
  }

  // ---------------------------------------------------------------- sequences

  lemma Assoc(a: seq<Op>, b: seq<Op>, c: seq<Op>)
    ensures a + b + c == a + (b + c)
  {}

  lemma {:induction false} PlayJoin(v: View, a: seq<Op>, b: seq<Op>)
    ensures Play(v, a + b) == Play(Play(v, a), b)
    decreases |a|
  {
    if a == [] {
      assert a + b == b;
    } else {
      PlayJoin(Do(v, a[0]), a[1..], b);
      assert (a + b)[1..] == a[1..] + b;
    }
  }

  lemma {:induction false} LiveJoin(v: View, a: seq<Op>, b: seq<Op>)
    requires AlwaysLive(v, a) && AlwaysLive(Play(v, a), b)
    ensures AlwaysLive(v, a + b)
    decreases |a|
  {
    if a == [] {
      assert a + b == b;
    } else {
      LiveJoin(Do(v, a[0]), a[1..], b);
      assert (a + b)[1..] == a[1..] + b;
    }
  }

  /** In particular after every prefix. */
  lemma {:induction false} AfterPrefix(v: View, a: seq<Op>, b: seq<Op>)
    requires AlwaysLive(v, a + b)
    ensures NamesLive(Play(v, a)) && AlwaysLive(Play(v, a), b)
    decreases |a|
  {
    if a == [] {
      assert a + b == b;
    } else {
      assert (a + b)[0] == a[0] && (a + b)[1..] == a[1..] + b;
      AfterPrefix(Do(v, a[0]), a[1..], b);
    }
  }

  lemma {:induction false} AvoidedLeaf(v: View, ops: seq<Op>, p: nat)
    requires Avoids(ops, p)
    ensures p in Play(v, ops).leaf <==> p in v.leaf
    ensures p in v.leaf ==> Play(v, ops).leaf[p] == v.leaf[p]
    decreases |ops|
  {
    if ops != [] { AvoidedLeaf(Do(v, ops[0]), ops[1..], p); }
  }

  // -------------------------------------------------------- SetSpan, leaf by leaf

  function StoreOps(start: nat, n: nat, id: nat): (ops: seq<Op>)
    ensures |ops| == n && forall i :: 0 <= i < n ==> ops[i] == Store(start + i, id)
  {
    seq(n, i requires 0 <= i < n => Store(start + i, id))
  }

  function ClearOps(start: nat, n: nat): (ops: seq<Op>)
    ensures |ops| == n && forall i :: 0 <= i < n ==> ops[i] == Clear(start + i)
  {
    seq(n, i requires 0 <= i < n => Clear(start + i))
  }

  function DeleteOps(q: seq<nat>): (ops: seq<Op>)
    ensures |ops| == |q| && forall i :: 0 <= i < |q| ==> ops[i] == Delete(q[i])
  {
    seq(|q|, i requires 0 <= i < |q| => Delete(q[i]))
  }

  function Members(q: seq<nat>): set<nat> { set x: nat | x in q }

  /** Storing a live descriptor names nothing dead at any moment. */
  lemma {:induction false} Stores(v: View, start: nat, n: nat, id: nat)
    requires NamesLive(v) && id in v.live
    ensures AlwaysLive(v, StoreOps(start, n, id))
    ensures Play(v, StoreOps(start, n, id)) == View(MapRange(v.leaf, start, n, id), v.live)
    decreases n
  {
    if n == 0 {
      assert MapRange(v.leaf, start, 0, id) == v.leaf;
    } else {
      Stores(Do(v, Store(start, id)), start + 1, n - 1, id);
      assert StoreOps(start, n, id)[1..] == StoreOps(start + 1, n - 1, id);
      MapMore(v.leaf, start, n, id);
    }
  }

  lemma MapMore(m: map<nat, nat>, start: nat, n: nat, id: nat)
    requires n > 0
    ensures MapRange(m[start := id], start + 1, n - 1, id) == MapRange(m, start, n, id)
  {
    assert forall p: nat :: Within(p, start, n) <==> p == start || Within(p, start + 1, n - 1);
  }

  lemma {:induction false} Clears(v: View, start: nat, n: nat)
    requires NamesLive(v)
    ensures AlwaysLive(v, ClearOps(start, n))
    ensures Play(v, ClearOps(start, n)) == View(UnmapRange(v.leaf, start, n), v.live)
    decreases n
  {
    if n == 0 {
      assert UnmapRange(v.leaf, start, 0) == v.leaf;
    } else {
      Clears(Do(v, Clear(start)), start + 1, n - 1);
      assert ClearOps(start, n)[1..] == ClearOps(start + 1, n - 1);
      UnmapMore(v.leaf, start, n);
    }
  }

  lemma UnmapMore(m: map<nat, nat>, start: nat, n: nat)
    requires n > 0
    ensures UnmapRange(m - {start}, start + 1, n - 1) == UnmapRange(m, start, n)
  {
    assert forall p: nat :: Within(p, start, n) <==> p == start || Within(p, start + 1, n - 1);
  }

  /** Descriptors that no leaf names any more may go, one by one. */
  lemma {:induction false} Deletes(v: View, q: seq<nat>)
    requires NamesLive(v) && NoDup(q) && Members(q) <= v.live && forall p: nat :: p in v.leaf ==> v.leaf[p] !in q
    ensures AlwaysLive(v, DeleteOps(q)) && Play(v, DeleteOps(q)) == View(v.leaf, v.live - Members(q))
    decreases |q|
  {
    if q == [] {
      assert v.live - Members(q) == v.live;
    } else {
      PopMembers(q);
      Deletes(Do(v, Delete(q[0])), q[1..]);
      assert DeleteOps(q)[1..] == DeleteOps(q[1..]);
      assert v.live - {q[0]} - Members(q[1..]) == v.live - Members(q);
    }
  }
}
