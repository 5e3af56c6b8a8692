/** The four-level radix tree from page ids to spans (`PageMap`, src/page_cache.cpp
    and include/ammalloc/page_cache.h). Nodes are numbered from 1 within their
    level, as the pool hands them out, and 0 is the null pointer; leaves hold span
    numbers, 0 again meaning none. Nodes are never reclaimed. */
module PageMap {
  import opened Config
  import opened Lists

  const NODE: nat := 512
  const PAGE_LIMIT: nat := 0x10_0000_0000

  function I0(p: nat): nat { p / 0x800_0000 }

  function I1(p: nat): (i: nat)
    ensures i < NODE
  {
    p / 0x4_0000 % 512
  }

  function I2(p: nat): (i: nat)
    ensures i < NODE
  {
    p / 512 % 512
  }

  function I3(p: nat): (i: nat)
    ensures i < NODE
  {
    p % 512
  }

  /** The tree, with the page-id prefix each node was made for (`home`). */
  datatype Tree = Tree(
    rooted: bool, root: seq<nat>, l1: seq<seq<nat>>, l2: seq<seq<nat>>, l3: seq<seq<nat>>,
    home1: seq<nat>, home2: seq<nat>, home3: seq<nat>)

  /** A node as the pool constructs it. */
  function Nulls(): (r: seq<nat>)
    ensures |r| == NODE && forall i: nat :: i < NODE ==> r[i] == 0
  {
    seq(NODE, _ => 0)
  }

  /** Children of one level point into the next level, to the node made for them. */
  ghost predicate LevelOk(nodes: seq<seq<nat>>, home: seq<nat>, next: seq<seq<nat>>, nextHome: seq<nat>)
  {
    && |home| == |nodes| && |nextHome| == |next|
    && (forall n: nat :: n < |nodes| ==> |nodes[n]| == NODE)
    && (forall n: nat, j: nat {:trigger nodes[n][j]} :: n < |nodes| && j < NODE && |nodes[n]| == NODE ==>
          nodes[n][j] <= |next| && (nodes[n][j] != 0 ==> nextHome[nodes[n][j] - 1] == home[n] * 512 + j))
  }

  ghost predicate WellFormed(t: Tree)
  {
    && |t.root| == NODE && |t.home1| == |t.l1|
    && (forall i: nat :: i < NODE ==>
          t.root[i] <= |t.l1| && (t.root[i] != 0 ==> t.home1[t.root[i] - 1] == i))
    && LevelOk(t.l1, t.home1, t.l2, t.home2)
    && LevelOk(t.l2, t.home2, t.l3, t.home3)
    && (forall n: nat :: n < |t.l3| ==> |t.l3[n]| == NODE)
    && (!t.rooted ==> forall i: nat :: i < NODE ==> t.root[i] == 0)
  }

  function Child(nodes: seq<seq<nat>>, n: nat, j: nat): nat
  {
    if n == 0 || n > |nodes| || j >= |nodes[n - 1]| then 0 else nodes[n - 1][j]
  }

  /** The level-1, level-2 and leaf node on the path of a page, 0 when missing. */
  function Node1(t: Tree, p: nat): nat
  {
    if !t.rooted || I0(p) >= |t.root| then 0 else t.root[I0(p)]
  }

  function Node2(t: Tree, p: nat): nat { Child(t.l1, Node1(t, p), I1(p)) }

  function Node3(t: Tree, p: nat): nat { Child(t.l2, Node2(t, p), I2(p)) }

  /** `GetSpan`: what the tree maps a page to. */
  function Lookup(t: Tree, p: nat): nat { Child(t.l3, Node3(t, p), I3(p)) }

  predicate HasPath(t: Tree, p: nat) { Node3(t, p) != 0 }

  /** A leaf node serves only the pages of its prefix, so no two pages share a
      leaf slot. */
  lemma PathHome(t: Tree, p: nat)
    requires WellFormed(t)
    ensures Node1(t, p) <= |t.l1| && Node2(t, p) <= |t.l2| && Node3(t, p) <= |t.l3|
    ensures Node1(t, p) != 0 ==> I0(p) < NODE && t.home1[Node1(t, p) - 1] == I0(p)
    ensures Node2(t, p) != 0 ==> Node1(t, p) != 0 && t.home2[Node2(t, p) - 1] == p / 0x4_0000
    ensures Node3(t, p) != 0 ==> Node2(t, p) != 0 && t.home3[Node3(t, p) - 1] == p / 512
  {
    assert p / 0x4_0000 == I0(p) * 512 + I1(p);
    assert p / 512 == p / 0x4_0000 * 512 + I2(p);
  }

  // ---------------------------------------------------- the single-word writes

  function Attach(nodes: seq<seq<nat>>, n: nat, j: nat, v: nat): (r: seq<seq<nat>>)
    requires 0 < n <= |nodes| && j < |nodes[n - 1]|
    ensures |r| == |nodes| && |r[n - 1]| == |nodes[n - 1]|
    ensures forall m: nat, i: nat :: Child(r, m, i) == if m == n && i == j then v else Child(nodes, m, i)
  {
    var row: seq<nat> := nodes[n - 1][j := v];
    nodes[n - 1 := row]
  }

  function SetRoot(t: Tree): Tree { t.(rooted := true) }

  function AddNode1(t: Tree, p: nat): Tree
    requires WellFormed(t) && I0(p) < NODE
  {
    Tree(t.rooted, t.root[I0(p) := |t.l1| + 1], t.l1 + [Nulls()], t.l2, t.l3, t.home1 + [I0(p)], t.home2, t.home3)
  }

  function AddNode2(t: Tree, p: nat): Tree
    requires WellFormed(t) && Node1(t, p) != 0
  {
    PathHome(t, p);
    Tree(t.rooted, t.root, Attach(t.l1, Node1(t, p), I1(p), |t.l2| + 1), t.l2 + [Nulls()], t.l3,
         t.home1, t.home2 + [p / 0x4_0000], t.home3)
  }

  function AddNode3(t: Tree, p: nat): Tree
    requires WellFormed(t) && Node2(t, p) != 0
  {
    PathHome(t, p);
    Tree(t.rooted, t.root, t.l1, Attach(t.l2, Node2(t, p), I2(p), |t.l3| + 1), t.l3 + [Nulls()],
         t.home1, t.home2, t.home3 + [p / 512])
  }

  function StoreLeaf(t: Tree, p: nat, v: nat): Tree
    requires WellFormed(t) && HasPath(t, p)
  {
    PathHome(t, p);
    Tree(t.rooted, t.root, t.l1, t.l2, Attach(t.l3, Node3(t, p), I3(p), v), t.home1, t.home2, t.home3)
  }

  /** Paths only grow: a node once reached from a page stays that page's node. */
  ghost predicate Extends(t: Tree, t': Tree)
  {
    && (t.rooted ==> t'.rooted)
    && (forall p: nat :: Node1(t, p) != 0 ==> Node1(t', p) == Node1(t, p))
    && (forall p: nat :: Node2(t, p) != 0 ==> Node2(t', p) == Node2(t, p))
    && (forall p: nat :: Node3(t, p) != 0 ==> Node3(t', p) == Node3(t, p))
  }

  ghost predicate SameLookups(t: Tree, t': Tree)
  {
    forall p: nat :: Lookup(t', p) == Lookup(t, p)
  }

  lemma SetRootGrows(t: Tree)
    requires WellFormed(t)
    ensures WellFormed(SetRoot(t)) && Extends(t, SetRoot(t)) && SameLookups(t, SetRoot(t))
  {}

  lemma AddNode1Grows(t: Tree, p: nat)
    requires WellFormed(t) && t.rooted && I0(p) < NODE && Node1(t, p) == 0
    ensures var t' := AddNode1(t, p);
            WellFormed(t') && Extends(t, t') && SameLookups(t, t') && Node1(t', p) != 0
  {
    var t' := AddNode1(t, p);
    forall q: nat
      ensures Node1(t', q) == if I0(q) == I0(p) then |t.l1| + 1 else Node1(t, q)
      ensures Node1(t, q) != 0 ==> I0(q) != I0(p)
      ensures Node2(t', q) == Node2(t, q)
    {
      PathHome(t, q);
    }
  }

  lemma AddNode2Grows(t: Tree, p: nat)
    requires WellFormed(t) && Node1(t, p) != 0 && Node2(t, p) == 0
    ensures var t' := AddNode2(t, p);
            WellFormed(t') && Extends(t, t') && SameLookups(t, t')
            && Node1(t', p) == Node1(t, p) && Node2(t', p) != 0
  {
    var t' := AddNode2(t, p);
    PathHome(t, p);
    assert p / 0x4_0000 == I0(p) * 512 + I1(p);
    forall q: nat
      ensures Node1(t', q) == Node1(t, q)
      ensures Node2(t, q) != 0 ==> Node2(t', q) == Node2(t, q)
      ensures Node3(t', q) == Node3(t, q)
    {
      PathHome(t, q);
    }
  }

  lemma AddNode3Grows(t: Tree, p: nat)
    requires WellFormed(t) && Node2(t, p) != 0 && Node3(t, p) == 0
    ensures var t' := AddNode3(t, p);
            WellFormed(t') && Extends(t, t') && SameLookups(t, t') && Node3(t', p) != 0
  {
    var t' := AddNode3(t, p);
    AddNode3Formed(t, p);
    forall q: nat
      ensures Node2(t', q) == Node2(t, q)
      ensures Node3(t, q) != 0 ==> Node3(t', q) == Node3(t, q)
      ensures Lookup(t', q) == Lookup(t, q)
    {
      PathHome(t, q);
    }
  }

  lemma AddNode3Formed(t: Tree, p: nat)
    requires WellFormed(t) && Node2(t, p) != 0 && Node3(t, p) == 0
    ensures WellFormed(AddNode3(t, p)) && Node3(AddNode3(t, p), p) != 0
  {
    PathHome(t, p);
    assert p / 512 == p / 0x4_0000 * 512 + I2(p);
  }

  /** A leaf store changes the lookup of its page and of no other page. */
  lemma StoreLeafExact(t: Tree, p: nat, v: nat)
    requires WellFormed(t) && HasPath(t, p)
    ensures var t' := StoreLeaf(t, p, v);
            WellFormed(t') && Extends(t, t')
            && forall q: nat :: Lookup(t', q) == if q == p then v else Lookup(t, q)
  {
    var t' := StoreLeaf(t, p, v);
    PathHome(t, p);
    forall q: nat
      ensures Node3(t', q) == Node3(t, q)
      ensures Lookup(t', q) == if q == p then v else Lookup(t, q)
    {
      PathHome(t, q);
    }
  }

  // ------------------------------------------------------------ the operations

  lemma SameLeaf(p: nat, q: nat)
    requires q <= p && p - q < 512 - I3(q)
    ensures I0(p) == I0(q) && I1(p) == I1(q) && I2(p) == I2(q) && I3(p) == I3(q) + (p - q)
  {
    assert p / 512 == q / 512;
    assert p / 0x4_0000 == q / 512 / 512;
    assert q / 0x4_0000 == q / 512 / 512;
    assert p / 0x800_0000 == p / 512 / 512 / 512;
    assert q / 0x800_0000 == q / 512 / 512 / 512;
  }

  /** Pages of one coverage block share every index above it. */
  lemma SameBlock(p: nat, q: nat, step: nat)
    requires q <= p < q + step
    ensures step <= 512 - q % 512 ==> p / 512 == q / 512
    ensures step <= 0x4_0000 - q % 0x4_0000 ==> p / 0x4_0000 == q / 0x4_0000
    ensures step <= 0x800_0000 - q % 0x800_0000 ==> p / 0x800_0000 == q / 0x800_0000
  {}

  lemma BlockIndices(p: nat, q: nat)
    ensures p / 0x4_0000 == q / 0x4_0000 ==> I0(p) == I0(q) && I1(p) == I1(q)
    ensures p / 512 == q / 512 ==> I0(p) == I0(q) && I1(p) == I1(q) && I2(p) == I2(q)
  {
    assert p / 0x800_0000 == p / 0x4_0000 / 512 && q / 0x800_0000 == q / 0x4_0000 / 512;
    assert p / 0x4_0000 == p / 512 / 512 && q / 0x4_0000 == q / 512 / 512;
  }

  /** The pages skipped at a missing node of any level are unmapped. */
  lemma MissingNode(t: Tree, q: nat, step: nat)
    requires Node3(t, q) == 0
    requires step <= (if Node1(t, q) == 0 then 0x800_0000 - q % 0x800_0000
                      else if Node2(t, q) == 0 then 0x4_0000 - q % 0x4_0000 else 512 - q % 512)
    ensures forall p: nat :: q <= p < q + step ==> Lookup(t, p) == 0
  {
    forall p: nat | q <= p < q + step
      ensures Lookup(t, p) == 0
    {
      SameBlock(p, q, step);
      BlockIndices(p, q);
    }
  }

  lemma BeyondRoot(t: Tree, q: nat)
    requires I0(q) >= |t.root| || !t.rooted
    ensures forall p: nat :: q <= p ==> Lookup(t, p) == 0
  {
    forall p: nat | q <= p
      ensures Lookup(t, p) == 0
    {
      assert I0(p) >= I0(q);
    }
  }

  class Map {
    var tree: Tree

    ghost predicate Valid()
      reads this
    {
      WellFormed(tree)
    }

    constructor ()
      ensures Valid() && forall p: nat :: Lookup(tree, p) == 0
    {
      tree := Tree(false, Nulls(), [], [], [], [], [], []);
    }

    /** Makes the nodes on the path of one page. `allocs` is how many node
        allocations succeed before one fails. */
    method EnsurePathLocked(page: nat, allocs: nat) returns (ok: bool, left: nat)
      requires Valid()
      modifies this
      ensures Valid() && Extends(old(tree), tree) && SameLookups(old(tree), tree)
      ensures left <= allocs
      ensures ok ==> HasPath(tree, page)
      ensures !ok ==> I0(page) >= NODE || left == 0
    {
      left := allocs;
      if I0(page) >= NODE { return false, left; }
      if !tree.rooted {
        SetRootGrows(tree);
        tree := SetRoot(tree);
      }
      if Node1(tree, page) == 0 {
        if left == 0 { return false, left; }
        left := left - 1;
        AddNode1Grows(tree, page);
        tree := AddNode1(tree, page);
      }
      if Node2(tree, page) == 0 {
        if left == 0 { return false, left; }
        left := left - 1;
        AddNode2Grows(tree, page);
        tree := AddNode2(tree, page);
      }
      if Node3(tree, page) == 0 {
        if left == 0 { return false, left; }
        left := left - 1;
        AddNode3Grows(tree, page);
        tree := AddNode3(tree, page);
      }
      ok := true;
    }

    /** Prepares a page range. A failure changes no lookup, and happens only when
        the range wraps, leaves the address space, or a node allocation fails. */
    method EnsureRange(start: nat, n: nat, allocs: nat) returns (ok: bool, left: nat)
      requires Valid() && start <= MAX_SIZE_T
      modifies this
      ensures Valid() && Extends(old(tree), tree) && SameLookups(old(tree), tree)
      ensures ok ==> forall p: nat :: Within(p, start, n) ==> Node3(tree, p) != 0
      ensures !ok ==> start + n > PAGE_LIMIT || left == 0
    {
      left := allocs;
      if n == 0 { return true, left; }
      if n > 1 && start > MAX_SIZE_T - (n - 1) { return false, left; }
      var current: nat, remaining: nat := start, n;
      while remaining > 0
        invariant current + remaining == start + n && start <= current
        invariant Valid() && Extends(old(tree), tree) && SameLookups(old(tree), tree)
        invariant forall p: nat :: start <= p < current ==> Node3(tree, p) != 0
      {
        if I0(current) >= NODE { return false, left; }
        var step := Min(remaining, 512 - I3(current));
        if !HasPath(tree, current) {
          var made;
          made, left := EnsurePathLocked(current, left);
          if !made { return false, left; }
        }
        forall p: nat | current <= p < current + step
          ensures Node3(tree, p) != 0
        {
          SameLeaf(p, current);
        }
        current, remaining := current + step, remaining - step;
      }
      ok := true;
    }

    /** Maps every page of a prepared range to one span and no other page. */
    method SetSpan(start: nat, n: nat, span: nat)
      requires Valid() && n > 0 && forall p: nat :: Within(p, start, n) ==> Node3(tree, p) != 0
      modifies this
      ensures Valid() && Extends(old(tree), tree)
      ensures forall p: nat ::
        Lookup(tree, p) == if Within(p, start, n) then span else Lookup(old(tree), p)
    {
      var current: nat, remaining: nat := start, n;
      while remaining > 0
        invariant current + remaining == start + n && start <= current
        invariant Valid() && Extends(old(tree), tree)
        invariant forall p: nat ::
          Lookup(tree, p) == if start <= p < current then span else Lookup(old(tree), p)
      {
        var count := Min(remaining, 512 - I3(current));
        assert Within(current, start, n) && HasPath(old(tree), current);
        StoreLeaves(current, count, span);
        current, remaining := current + count, remaining - count;
      }
    }

    /** The inner store loop: `count` consecutive slots of one leaf node. */
    method StoreLeaves(first: nat, count: nat, span: nat)
      requires Valid() && HasPath(tree, first) && count <= 512 - I3(first)
      modifies this
      ensures Valid() && Extends(old(tree), tree)
      ensures forall p: nat ::
        Lookup(tree, p) == if Within(p, first, count) then span else Lookup(old(tree), p)
    {
      for i := 0 to count
        invariant Valid() && Extends(old(tree), tree)
        invariant forall p: nat ::
          Lookup(tree, p) == if first <= p < first + i then span else Lookup(old(tree), p)
      {
        SameLeaf(first + i, first);
        StoreLeafExact(tree, first + i, span);
        tree := StoreLeaf(tree, first + i, span);
      }
    }

    /** One turn of the clearing loop: skips a missing subtree or clears the rest
        of one leaf node. */
    method ClearStep(current: nat, remaining: nat) returns (step: nat)
      requires Valid() && remaining > 0
      modifies this
      ensures Valid() && Extends(old(tree), tree)
      ensures 0 < step <= remaining
      ensures forall p: nat ::
        Lookup(tree, p) == if Within(p, current, step) then 0 else Lookup(old(tree), p)
    {
      if HasPath(tree, current) {
        step := Min(remaining, 512 - I3(current));
        StoreLeaves(current, step, 0);
      } else {
        var coverage := if Node1(tree, current) == 0 then 0x800_0000
                        else if Node2(tree, current) == 0 then 0x4_0000 else 512;
        step := Min(remaining, coverage - current % coverage);
        MissingNode(tree, current, step);
      }
    }

    /** Unmaps a page range and no other page. Missing subtrees are skipped whole
        at each level, with the same effect as clearing page by page. */
    method ClearRange(start: nat, n: nat)
      requires Valid()
      modifies this
      ensures Valid() && Extends(old(tree), tree)
      ensures forall p: nat ::
        Lookup(tree, p) == if Within(p, start, n) then 0 else Lookup(old(tree), p)
    {
      if !tree.rooted {
        BeyondRoot(tree, start);
        return;
      }
      var current: nat, remaining: nat := start, n;
      while remaining > 0
        invariant current + remaining == start + n && start <= current
        invariant Valid() && Extends(old(tree), tree)
        invariant forall p: nat ::
          Lookup(tree, p) == if start <= p < current then 0 else Lookup(old(tree), p)
      {
        if I0(current) >= NODE {
          BeyondRoot(tree, current);
          return;
        }
        var step := ClearStep(current, remaining);
        current, remaining := current + step, remaining - step;
      }
    }
  }
}
