/** The intrusive LIFO chains of include/ammalloc/free_list.h, and the loops of
    src/central_cache.cpp that build and walk them. A pointer is an object or
    null; the link a free object stores in its first bytes is an entry of `next`. */
module FreeLists {
  import opened Config
  import opened Lists
  import opened CentralStore
  import opened SizeClass

  type Ptr = Option<Obj>

  type Links = map<Obj, Ptr>

  /** What the first word of object p holds. */
  function Link(next: Links, p: Obj): Ptr { if p in next then next[p] else None }

  /** `q` lists the nodes of the null-terminated chain that begins at `head`. */
  ghost predicate Linked(next: Links, head: Ptr, q: seq<Obj>)
    decreases |q|
  {
    if q == [] then head.None? else head == Some(q[0]) && Linked(next, Link(next, q[0]), q[1..])
  }

  /** The i-th node, or null past the end. */
  function NodeAt(q: seq<Obj>, i: nat): Ptr
    requires i <= |q|
  {
    if i < |q| then Some(q[i]) else None
  }

  /** The suffix from the i-th node is itself a chain. */
  lemma {:induction false} LinkedFrom(next: Links, head: Ptr, q: seq<Obj>, i: nat)
    requires Linked(next, head, q) && i <= |q|
    ensures Linked(next, NodeAt(q, i), q[i..])
    decreases i
  {
    if i == 0 {
      assert q[0..] == q;
    } else {
      LinkedFrom(next, Link(next, q[0]), q[1..], i - 1);
      assert q[1..][i - 1..] == q[i..];
    }
  }

  lemma LinkedStep(next: Links, head: Ptr, q: seq<Obj>, i: nat)
    requires Linked(next, head, q) && i < |q|
    ensures Link(next, q[i]) == NodeAt(q, i + 1)
  {
    LinkedFrom(next, head, q, i);
    LinkedFrom(next, head, q, i + 1);
  }

  /** A chain is determined by where it begins. */
  lemma {:induction false} LinkedUnique(next: Links, head: Ptr, p: seq<Obj>, q: seq<Obj>)
    requires Linked(next, head, p) && Linked(next, head, q)
    ensures p == q
    decreases |p|
  {
    if p != [] && q != [] {
      LinkedUnique(next, Link(next, p[0]), p[1..], q[1..]);
      assert p == [p[0]] + p[1..] && q == [q[0]] + q[1..];
    }
  }

  /** A terminated chain never visits a node twice. */
  lemma LinkedDistinct(next: Links, head: Ptr, q: seq<Obj>, i: nat, j: nat)
    requires Linked(next, head, q) && i < j < |q|
    ensures q[i] != q[j]
  {
    if q[i] == q[j] {
      LinkedFrom(next, head, q, i);
      LinkedFrom(next, head, q, j);
      LinkedUnique(next, Some(q[i]), q[i..], q[j..]);
    }
  }

  /** Writing links outside a chain leaves it alone. */
  lemma {:induction false} LinkedFrame(next: Links, next': Links, head: Ptr, q: seq<Obj>)
    requires Linked(next, head, q) && forall p: Obj :: p in q ==> Link(next', p) == Link(next, p)
    ensures Linked(next', head, q)
    decreases |q|
  {
    if q != [] {
      assert q[0] in q && forall p: Obj :: p in q[1..] ==> p in q;
      LinkedFrame(next, next', Link(next, q[0]), q[1..]);
    }
  }

  /** Head insertion: one node linked in front of a chain. */
  lemma HeadInsert(next: Links, head: Ptr, q: seq<Obj>, p: Obj)
    requires Linked(next, head, q) && p !in q
    ensures Linked(next[p := head], Some(p), [p] + q)
  {
    LinkedFrame(next, next[p := head], head, q);
    assert ([p] + q)[1..] == q;
  }

  /** Linking the last node of one chain to the head of another joins them. */
  lemma {:induction false} LinkedJoin(next: Links, a: Ptr, p: seq<Obj>, b: Ptr, q: seq<Obj>)
    requires p != [] && Linked(next, a, p) && Linked(next, b, q) && forall x: Obj :: x in p ==> x !in q
    ensures Linked(next[p[|p| - 1] := b], a, p + q)
    decreases |p|
  {
    var next' := next[p[|p| - 1] := b];
    assert p[|p| - 1] in p;
    if |p| == 1 {
      LinkedFrame(next, next', b, q);
      assert (p + q)[1..] == q;
    } else {
      assert forall x: Obj :: x in p[1..] ==> x in p;
      LinkedJoin(next, Link(next, p[0]), p[1..], b, q);
      assert (p + q)[1..] == p[1..] + q;
      LinkedDistinct(next, a, p, 0, |p| - 1);
    }
  }

  /** Cutting after node k - 1 gives the first k nodes as a chain. */
  lemma {:induction false} LinkedCut(next: Links, head: Ptr, q: seq<Obj>, k: nat)
    requires Linked(next, head, q) && 0 < k <= |q|
    ensures Linked(next[q[k - 1] := None], head, q[..k])
    decreases k
  {
    if k == 1 {
      assert q[..1][1..] == [];
    } else {
      LinkedCut(next, Link(next, q[0]), q[1..], k - 1);
      assert q[..k][1..] == q[1..][..k - 1];
      LinkedDistinct(next, head, q, 0, k - 1);
    }
  }

  /** Cutting after node k - 1 leaves the rest as it was. */
  lemma AfterCut(next: Links, head: Ptr, q: seq<Obj>, k: nat)
    requires Linked(next, head, q) && 0 < k <= |q|
    ensures Linked(next[q[k - 1] := None], NodeAt(q, k), q[k..])
  {
    LinkedFrom(next, head, q, k);
    forall p: Obj | p in q[k..]
      ensures p != q[k - 1]
    {
      var j :| 0 <= j < |q| - k && q[k..][j] == p;
      LinkedDistinct(next, head, q, k - 1, k + j);
    }
    LinkedFrame(next, next[q[k - 1] := None], NodeAt(q, k), q[k..]);
  }

  // --------------------------------------------------------------- descriptors

  /** The transport form of a detached chain. */
  datatype FreeChain = FreeChain(head: Ptr, tail: Ptr, count: nat)

  const EMPTY := FreeChain(None, None, 0)

  function LastOf(q: seq<Obj>): Ptr { if q == [] then None else Some(q[|q| - 1]) }

  /** `chain` is exactly the nodes `q`, terminated. */
  ghost predicate Holds(next: Links, chain: FreeChain, q: seq<Obj>)
  {
    Linked(next, chain.head, q) && chain.count == |q| && chain.tail == LastOf(q)
  }

  class Memory {
    var next: Links

    constructor ()
      ensures next == map[]
    {
      next := map[];
    }
  }

  /** `ObjectBatch::IsCanonical`: true exactly for the descriptor of an empty batch,
      or of a terminated chain of `count` nodes that ends at `tail`. */
  method IsCanonical(next: Links, chain: FreeChain, idx: nat) returns (ok: bool)
    ensures ok <==> if chain.count == 0 then chain == EMPTY && idx == NUM_CLASSES
                    else idx < NUM_CLASSES && exists q: seq<Obj> :: Holds(next, chain, q)
  {
    if chain.count == 0 { return chain.head.None? && chain.tail.None? && idx == NUM_CLASSES; }
    if chain.head.None? || chain.tail.None? || idx >= NUM_CLASSES { return false; }
    var cur, i := chain.head, 1;
    ghost var seen := [chain.head];
    while i < chain.count
      invariant 1 <= i <= chain.count && |seen| == i && Walked(next, chain.head, seen) && cur == seen[i - 1]
      invariant forall k :: 0 <= k < i - 1 ==> seen[k].Some?
    {
      if cur.None? {
        if q: seq<Obj> :| Holds(next, chain, q) { WalkedPrefix(next, chain.head, seen, q); }
        return false;
      }
      WalkedMore(next, chain.head, seen);
      cur := Link(next, cur.value);
      seen := seen + [cur];
      i := i + 1;
    }
    ok := cur == chain.tail && Link(next, cur.value).None?;
    if q: seq<Obj> :| Holds(next, chain, q) {
      WalkedPrefix(next, chain.head, seen, q);
      LinkedStep(next, chain.head, q, i - 1);
    }
    if ok {
      WalkedLinked(next, chain.head, seen);
      assert Holds(next, chain, Nodes(seen));
    }
  }

  /** Each pointer of a walk is the link of the node before. */
  ghost predicate Walked(next: Links, head: Ptr, w: seq<Ptr>)
  {
    w != [] && w[0] == head && forall k: nat :: k + 1 < |w| ==> Hop(next, w, k)
  }

  predicate Hop(next: Links, w: seq<Ptr>, k: nat)
    requires k + 1 < |w|
  {
    w[k].Some? && w[k + 1] == Link(next, w[k].value)
  }

  function Nodes(w: seq<Ptr>): (q: seq<Obj>)
    requires forall k :: 0 <= k < |w| ==> w[k].Some?
    ensures |q| == |w| && forall k :: 0 <= k < |w| ==> w[k] == Some(q[k])
  {
    seq(|w|, k requires 0 <= k < |w| => w[k].value)
  }

  lemma WalkedMore(next: Links, head: Ptr, w: seq<Ptr>)
    requires Walked(next, head, w) && w[|w| - 1].Some?
    ensures Walked(next, head, w + [Link(next, w[|w| - 1].value)])
  {
    var v := w + [Link(next, w[|w| - 1].value)];
    forall k: nat | k + 1 < |v| ensures Hop(next, v, k) {
      if k + 1 < |w| { assert Hop(next, w, k); }
    }
  }

  /** A walk no longer than a chain visits the nodes of the chain. */
  lemma {:induction false} WalkedPrefix(next: Links, head: Ptr, w: seq<Ptr>, q: seq<Obj>)
    requires Walked(next, head, w) && Linked(next, head, q) && |w| <= |q|
    ensures forall k :: 0 <= k < |w| ==> w[k] == Some(q[k])
    decreases |w|
  {
    if |w| > 1 {
      var v := w[..|w| - 1];
      forall k: nat | k + 1 < |v| ensures Hop(next, v, k) { assert Hop(next, w, k); }
      WalkedPrefix(next, head, v, q);
      assert Hop(next, w, |w| - 2) && w[|w| - 2] == v[|w| - 2];
      LinkedStep(next, head, q, |w| - 2);
      forall k | 0 <= k < |w| ensures w[k] == Some(q[k]) { if k < |w| - 1 { assert w[k] == v[k]; } }
    }
  }

  lemma {:induction false} WalkedLinked(next: Links, head: Ptr, w: seq<Ptr>)
    requires Walked(next, head, w) && forall k :: 0 <= k < |w| ==> w[k].Some?
    requires Link(next, w[|w| - 1].value).None?
    ensures Linked(next, head, Nodes(w))
    decreases |w|
  {
    if |w| > 1 {
      var v := w[1..];
      assert Hop(next, w, 0);
      forall k: nat | k + 1 < |v| ensures Hop(next, v, k) { assert Hop(next, w, k + 1); }
      WalkedLinked(next, Link(next, w[0].value), v);
      assert Nodes(w)[1..] == Nodes(v);
    }
  }

  // ---------------------------------------------------------------- the list

  class FreeList {
    var head: Ptr
    var size: nat
    ghost var items: seq<Obj>

    ghost predicate Valid(mem: Memory)
      reads this, mem
    {
      Linked(mem.next, head, items) && size == |items|
    }

    constructor ()
      ensures items == [] && head.None? && size == 0
    {
      head, size, items := None, 0, [];
    }

    /** Null is ignored. */
    method Push(mem: Memory, ptr: Ptr)
      requires Valid(mem) && (ptr.Some? ==> ptr.value !in items)
      modifies this, mem
      ensures Valid(mem) && items == (if ptr.None? then [] else [ptr.value]) + old(items)
      ensures forall p: Obj :: ptr != Some(p) ==> Link(mem.next, p) == Link(old(mem.next), p)
    {
      if ptr.None? { return; }
      HeadInsert(mem.next, head, items, ptr.value);
      mem.next := mem.next[ptr.value := head];
      items := [ptr.value] + items;
      head := ptr;
      size := size + 1;
    }

    method Pop(mem: Memory) returns (ptr: Ptr)
      requires Valid(mem)
      modifies this
      ensures Valid(mem)
      ensures if old(items) == [] then ptr.None? && items == []
              else ptr == Some(old(items)[0]) && items == old(items)[1..]
    {
      if head.None? { return None; }
      ptr := head;
      head := Link(mem.next, head.value);
      size := size - 1;
      items := items[1..];
    }

    /** `PushRange` and `PushBatch`: a detached chain goes in front. */
    method PushRange(mem: Memory, chain: FreeChain, ghost q: seq<Obj>)
      requires Valid(mem) && Holds(mem.next, chain, q) && forall p: Obj :: p in q ==> p !in items
      modifies this, mem
      ensures Valid(mem) && items == q + old(items)
      ensures forall p: Obj :: p !in q ==> Link(mem.next, p) == Link(old(mem.next), p)
    {
      if chain.head.None? || chain.tail.None? || chain.count == 0 {
        assert q == [];
        return;
      }
      LinkedJoin(mem.next, chain.head, q, head, items);
      mem.next := mem.next[chain.tail.value := head];
      head := chain.head;
      size := size + chain.count;
      items := q + items;
      assert q[|q| - 1] in q;
    }

    /** Removes the newest min(n, size) objects, in order and terminated. */
    method PopRange(mem: Memory, n: nat) returns (out: FreeChain, ghost q: seq<Obj>)
      requires Valid(mem)
      modifies this, mem
      ensures Valid(mem) && |q| == Min(n, |old(items)|)
      ensures q == old(items)[..|q|] && items == old(items)[|q|..] && Holds(mem.next, out, q)
      ensures forall p: Obj :: p !in q ==> Link(mem.next, p) == Link(old(mem.next), p)
    {
      var cur, i := head, 0;
      var tail: Ptr := None;
      while i < n && cur.Some?
        modifies {}
        invariant i <= n && i <= |items| && cur == NodeAt(items, i)
                  && tail == (if i == 0 then None else Some(items[i - 1]))
      {
        LinkedStep(mem.next, head, items, i);
        tail := cur;
        cur := Link(mem.next, cur.value);
        i := i + 1;
      }
      q := items[..i];
      if i == 0 { return EMPTY, q; }
      out := FreeChain(head, tail, i);
      LinkedCut(mem.next, head, items, i);
      AfterCut(mem.next, head, items, i);
      mem.next := mem.next[tail.value := None];
      assert items[i - 1] == items[..i][i - 1];
      head := cur;
      size := size - i;
      items := items[i..];
    }

    /** Removes the oldest min(n, size) objects: exactly the end of the list. */
    method PopRangeTail(mem: Memory, n: nat) returns (out: FreeChain, ghost q: seq<Obj>)
      requires Valid(mem)
      modifies this, mem
      ensures Valid(mem) && |q| == Min(n, |old(items)|)
      ensures q == old(items)[|old(items)| - |q|..] && items == old(items)[..|old(items)| - |q|]
              && Holds(mem.next, out, q)
      ensures forall p: Obj :: p !in old(items) ==> Link(mem.next, p) == Link(old(mem.next), p)
    {
      var popCount := if n < size then n else size;
      if popCount == 0 {
        assert items[..|items|] == items;
        return EMPTY, [];
      }
      var keep := size - popCount;
      var keepTail, i := head, 0;
      while i + 1 < keep
        modifies {}
        invariant i <= keep && (i == 0 || i < keep) && keepTail == NodeAt(items, i)
      {
        LinkedStep(mem.next, head, items, i);
        keepTail := Link(mem.next, keepTail.value);
        i := i + 1;
      }
      q := items[keep..];
      LinkedFrom(mem.next, head, items, keep);
      var first;
      if keep == 0 {
        first := head;
        head := None;
      } else {
        LinkedStep(mem.next, head, items, keep - 1);
        LinkedCut(mem.next, head, items, keep);
        AfterCut(mem.next, head, items, keep);
        first := Link(mem.next, keepTail.value);
        assert keepTail.value in items;
        mem.next := mem.next[keepTail.value := None];
      }
      var tail := WalkToLast(mem.next, first, q);
      out := FreeChain(first, tail, popCount);
      size := keep;
      items := items[..keep];
    }
  }

  /** The walk to the end of a detached suffix. */
  method WalkToLast(next: Links, head: Ptr, ghost q: seq<Obj>) returns (tail: Ptr)
    requires q != [] && Linked(next, head, q)
    ensures tail == LastOf(q)
  {
    tail := head;
    ghost var i := 0;
    LinkedStep(next, head, q, 0);
    while Link(next, tail.value).Some?
      invariant i < |q| && tail == Some(q[i]) && Link(next, tail.value) == NodeAt(q, i + 1)
      decreases |q| - i
    {
      tail := Link(next, tail.value);
      i := i + 1;
      LinkedStep(next, head, q, i);
    }
  }

  // -------------------------------------------- the chain loops of CentralCache

  /** The links after the nodes of q were linked in order, last node first. */
  function LinkUp(next: Links, q: seq<Obj>): Links
  {
    if q == [] then next else LinkUp(next, q[1..])[q[0] := NodeAt(q, 1)]
  }

  lemma {:induction false} LinkUpChain(next: Links, q: seq<Obj>)
    requires NoDup(q)
    ensures Linked(LinkUp(next, q), NodeAt(q, 0), q)
    ensures forall p: Obj :: p !in q ==> Link(LinkUp(next, q), p) == Link(next, p)
  {
    if q != [] {
      TakeMembers(q, 1);
      assert q[..1] == [q[0]] && q == [q[0]] + q[1..];
      LinkUpChain(next, q[1..]);
      assert NodeAt(q, 1) == NodeAt(q[1..], 0);
      HeadInsert(LinkUp(next, q[1..]), NodeAt(q, 1), q[1..], q[0]);
    }
  }

  /** The chain of objects popped from the transfer cache: the scratch array is
      linked from its last used entry to its first, so the hottest is the head. */
  method LinkScratch(mem: Memory, scratch: seq<Obj>) returns (chain: FreeChain)
    requires NoDup(scratch)
    modifies mem
    ensures mem.next == LinkUp(old(mem.next), scratch) && Holds(mem.next, chain, scratch)
  {
    var head: Ptr, tail: Ptr := None, None;
    var i := |scratch|;
    assert scratch[i..] == [];
    while i > 0
      invariant 0 <= i <= |scratch| && head == NodeAt(scratch, i)
      invariant tail == (if i == |scratch| then None else LastOf(scratch))
      invariant mem.next == LinkUp(old(mem.next), scratch[i..])
    {
      var obj := scratch[i - 1];
      if head.None? { tail := Some(obj); }
      mem.next := mem.next[obj := head];
      head := Some(obj);
      assert scratch[i - 1..][1..] == scratch[i..] && NodeAt(scratch[i - 1..], 1) == NodeAt(scratch, i);
      i := i - 1;
    }
    assert scratch[0..] == scratch;
    LinkUpChain(old(mem.next), scratch);
    chain := FreeChain(head, tail, |scratch|);
  }

  /** One object carved from a span goes to the head of the caller's chain. */
  method AddToChain(mem: Memory, chain: FreeChain, obj: Obj, ghost q: seq<Obj>) returns (more: FreeChain)
    requires Holds(mem.next, chain, q) && obj !in q
    modifies mem
    ensures mem.next == old(mem.next)[obj := chain.head] && Holds(mem.next, more, [obj] + q)
  {
    HeadInsert(mem.next, chain.head, q, obj);
    var tail := if chain.head.None? then Some(obj) else chain.tail;
    mem.next := mem.next[obj := chain.head];
    more := FreeChain(Some(obj), tail, chain.count + 1);
  }

  lemma {:induction false} ReversedMore(q: seq<Obj>, i: nat)
    requires i < |q|
    ensures Reversed(q[..i + 1]) == [q[i]] + Reversed(q[..i])
    decreases i
  {
    if i == 0 {
      assert q[..1] == [q[0]] && q[..0] == [];
      assert Reversed([q[0]]) == Reversed([]) + [q[0]];
    } else {
      ReversedMore(q[1..], i - 1);
      assert q[..i + 1][1..] == q[1..][..i] && q[..i][1..] == q[1..][..i - 1];
    }
  }

  /** The excess of a prefetch, which is what is left of the scratch array from
      `from` on, and the batch of a drain, with `from` zero: the pointers are
      linked by head insertion, first pointer first, so the last is the head and
      the first, known beforehand, the tail. */
  method LinkReversed(mem: Memory, ptrs: seq<Obj>, from: nat) returns (chain: FreeChain)
    requires from < |ptrs| && NoDup(ptrs[from..])
    modifies mem
    ensures mem.next == LinkUp(old(mem.next), Reversed(ptrs[from..]))
    ensures Holds(mem.next, chain, Reversed(ptrs[from..])) && chain.tail == Some(ptrs[from])
  {
    var tail := Some(ptrs[from]);
    var head: Ptr := None;
    ghost var q := ptrs[from..];
    var i := from;
    while i < |ptrs|
      invariant from <= i <= |ptrs| && head == (if i == from then None else Some(ptrs[i - 1]))
      invariant mem.next == LinkUp(old(mem.next), Reversed(q[..i - from])) && NodeAt(Reversed(q[..i - from]), 0) == head
    {
      ReversedMore(q, i - from);
      ghost var r := Reversed(q[..i - from + 1]);
      assert r[1..] == Reversed(q[..i - from]) && NodeAt(r, 1) == head;
      mem.next := mem.next[ptrs[i] := head];
      head := Some(ptrs[i]);
      i := i + 1;
    }
    assert q[..i - from] == q;
    ReversedMembers(q);
    LinkUpChain(old(mem.next), Reversed(q));
    chain := FreeChain(head, tail, |ptrs| - from);
  }

  /** The pointer n links after p. */
  function Walk(next: Links, p: Ptr, n: nat): Ptr
    decreases n
  {
    if n == 0 || p.None? then p else Walk(next, Link(next, p.value), n - 1)
  }

  /** The n nodes a walk from p reads. */
  function Reads(next: Links, p: Ptr, n: nat): seq<Obj>
    decreases n
  {
    if n == 0 || p.None? then [] else [p.value] + Reads(next, Link(next, p.value), n - 1)
  }

  /** Walking k links of a chain reads its first k nodes and stops at the next. */
  lemma {:induction false} WalkChain(next: Links, head: Ptr, q: seq<Obj>, k: nat)
    requires Linked(next, head, q) && k <= |q|
    ensures Reads(next, head, k) == q[..k] && Walk(next, head, k) == NodeAt(q, k) && Linked(next, NodeAt(q, k), q[k..])
    decreases k
  {
    LinkedFrom(next, head, q, k);
    if k > 0 {
      WalkChain(next, Link(next, q[0]), q[1..], k - 1);
      assert q[..k] == [q[0]] + q[1..][..k - 1];
    }
  }

  /** The two loops of `ReleaseBatch` over the chain: `count` links in groups of
      at most 512 read exactly the batch and end on null. */
  method WalkBatch(next: Links, chain: FreeChain, ghost q: seq<Obj>) returns (read: seq<Obj>, cur: Ptr)
    requires Holds(next, chain, q)
    ensures read == q && cur.None?
  {
    cur, read := chain.head, [];
    var remaining := chain.count;
    while remaining != 0
      invariant 0 <= remaining <= |q| && read == q[..|q| - remaining] && cur == NodeAt(q, |q| - remaining)
    {
      var localCount := if remaining < MAX_BATCH then remaining else MAX_BATCH;
      var i := 0;
      while i < localCount
        invariant 0 <= i <= localCount <= remaining
        invariant read == q[..|q| - remaining + i] && cur == NodeAt(q, |q| - remaining + i)
      {
        LinkedStep(next, chain.head, q, |q| - remaining + i);
        read := read + [cur.value];
        cur := Link(next, cur.value);
        i := i + 1;
      }
      remaining := remaining - localCount;
    }
  }
}
