/** The radix tree behind the flat page map of the page heap: what PageCache does
    with `EnsureRange`, `SetSpan` and `ClearRange` (src/page_cache.cpp) refines the
    updates `MapRange` and `UnmapRange` of a flat map. */
module PageMapFlat {
  import opened Config
  import opened Lists
  import opened PageMap
  import PageHeap

  /** Leaves hold descriptor numbers, shifted by one so that zero stays null. */
  ghost predicate Represents(t: Tree, m: map<nat, nat>)
  {
    WellFormed(t) && forall p: nat :: Lookup(t, p) == if p in m then m[p] + 1 else 0
  }

  /** A mapped page has its leaf node, so its leaf can be rewritten without an
      allocation: splits and merges never need a new path. */
  lemma MappedHasPath(t: Tree, m: map<nat, nat>, p: nat)
    requires Represents(t, m) && p in m
    ensures HasPath(t, p)
  {
    assert Lookup(t, p) != 0;
  }

  /** Growing paths does not change what is represented. */
  lemma GrowthKeeps(t: Tree, t': Tree, m: map<nat, nat>)
    requires Represents(t, m) && WellFormed(t') && SameLookups(t, t')
    ensures Represents(t', m)
  {
    assert forall p: nat :: Lookup(t', p) == Lookup(t, p);
  }

  /** A fresh mapping: paths first, leaves once they are all there. A failure
      leaves the map as it was. */
  method MapFresh(radix: Map, start: nat, n: nat, id: nat, allocs: nat, ghost m: map<nat, nat>) returns (ok: bool)
    requires Represents(radix.tree, m) && n > 0 && start <= MAX_SIZE_T
    modifies radix
    ensures Represents(radix.tree, if ok then PageHeap.MapRange(m, start, n, id) else m)
    ensures Extends(old(radix.tree), radix.tree)
  {
    var left;
    ok, left := radix.EnsureRange(start, n, allocs);
    GrowthKeeps(old(radix.tree), radix.tree, m);
    if ok {
      ghost var grown := radix.tree;
      radix.SetSpan(start, n, id + 1);
      StoreRepresents(grown, radix.tree, m, start, n, id);
    }
  }

  /** Pages that are already mapped change hands: a split, or the end of a merge. */
  method Remap(radix: Map, start: nat, n: nat, id: nat, ghost m: map<nat, nat>)
    requires Represents(radix.tree, m) && n > 0 && forall p: nat :: Within(p, start, n) ==> p in m
    modifies radix
    ensures Represents(radix.tree, PageHeap.MapRange(m, start, n, id)) && Extends(old(radix.tree), radix.tree)
  {
    forall p: nat | Within(p, start, n)
      ensures Node3(radix.tree, p) != 0
    {
      MappedHasPath(radix.tree, m, p);
    }
    radix.SetSpan(start, n, id + 1);
    StoreRepresents(old(radix.tree), radix.tree, m, start, n, id);
  }

  lemma StoreRepresents(t: Tree, t': Tree, m: map<nat, nat>, start: nat, n: nat, id: nat)
    requires Represents(t, m) && WellFormed(t')
    requires forall p: nat :: Lookup(t', p) == if Within(p, start, n) then id + 1 else Lookup(t, p)
    ensures Represents(t', PageHeap.MapRange(m, start, n, id))
  {
    var m' := PageHeap.MapRange(m, start, n, id);
    assert forall p: nat :: Lookup(t', p) == if p in m' then m'[p] + 1 else 0;
  }

  /** Pages given back to the system are unmapped. */
  method Unmap(radix: Map, start: nat, n: nat, ghost m: map<nat, nat>)
    requires Represents(radix.tree, m)
    modifies radix
    ensures Represents(radix.tree, PageHeap.UnmapRange(m, start, n)) && Extends(old(radix.tree), radix.tree)
  {
    radix.ClearRange(start, n);
    ghost var m' := PageHeap.UnmapRange(m, start, n);
    assert forall p: nat :: Lookup(radix.tree, p) == if p in m' then m'[p] + 1 else 0;
  }
}
