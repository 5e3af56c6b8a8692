/** Where the objects of a thread's cache go: nothing is lost and nothing is handed
    out twice (src/thread_cache.cpp, include/ammalloc/thread_cache.h). */
module ThreadCacheFlow {
  import opened Config
  import opened Lists
  import opened SizeClass
  import opened ThreadCaches

  // ------------------------------------------------------------------ one call

  /** An allocation serves the newest cached object; without one it serves the first
      of what was fetched, after any pending trim, and null when nothing was. What is
      left stays in order, and no other list changes but by the trim. */
  lemma AllocateConserves(c: Cache, idx: nat, got: seq<nat>, req: Request)
    requires Rest(c) && OpOk(c, DoAllocate(idx, got, req))
    ensures var (c', ptr) := Allocate(c, idx, got, req);
            && |c'.lists| == NUM_CLASSES
            && if c.lists[idx].items != [] then
                 && [ptr] + c'.lists[idx].items == c.lists[idx].items
                 && forall j: nat :: j < NUM_CLASSES && j != idx ==> c'.lists[j] == c.lists[j]
               else
                 && (if got == [] then ptr == 0 && c'.lists[idx].items == [] else [ptr] + c'.lists[idx].items == got)
                 && forall j: nat :: j < NUM_CLASSES && j != idx ==> c'.lists[j] == Handle(c, req).lists[j]
  {
    if c.lists[idx].items == [] {
      HandleKeeps(c, req, NUM_CLASSES);
      assert Handle(c, req).lists[idx].items == [];
      assert got + [] == got;
    }
  }

  /** A deallocation puts the object in front of its list. While the list is within
      its quota that is all; otherwise, after any pending trim, a list still over its
      quota gives up a batch of its oldest objects. Every list keeps its newest. */
  lemma DeallocateConserves(c: Cache, idx: nat, ptr: nat, req: Request)
    requires Rest(c) && idx < NUM_CLASSES
    ensures |Handle(Pushed(c, idx, ptr), req).lists| == NUM_CLASSES
    ensures var c', h := Deallocate(c, idx, ptr, req), Handle(Pushed(c, idx, ptr), req);
            var all := [ptr] + c.lists[idx].items;
            && |c'.lists| == NUM_CLASSES
            && c'.lists[idx].items <= all
            && (forall j: nat :: j < NUM_CLASSES && j != idx ==> c'.lists[j].items <= c.lists[j].items)
            && (|all| <= c.lists[idx].max ==>
                  && c'.lists[idx].items == all
                  && forall j: nat :: j < NUM_CLASSES && j != idx ==> c'.lists[j] == c.lists[j])
            && (|all| > c.lists[idx].max && req.epoch == c.epoch ==>
                  && |c'.lists[idx].items| == |all| - Min(BatchSize(idx), |all|)
                  && forall j: nat :: j < NUM_CLASSES && j != idx ==> c'.lists[j] == c.lists[j])
            && (|all| > c.lists[idx].max && req.epoch != c.epoch ==>
                  && |c'.lists[idx].items| == |h.lists[idx].items| -
                     (if |h.lists[idx].items| <= h.lists[idx].max then 0 else Min(BatchSize(idx), |h.lists[idx].items|))
                  && forall j: nat :: j < NUM_CLASSES && j != idx ==> c'.lists[j] == h.lists[j])
  {
    var pushed := Pushed(c, idx, ptr);
    PushedLoose(c, idx, ptr);
    HandleKeeps(pushed, req, idx);
    OverflowKeeps(Handle(pushed, req), idx);
  }

  lemma OverflowKeeps(c: Cache, idx: nat)
    requires idx < |c.lists|
    ensures var c', q := Overflow(c, idx), c.lists[idx].items;
            && |c'.lists| == |c.lists| && c'.lists[idx].items <= q
            && |c'.lists[idx].items| == |q| - (if |q| <= c.lists[idx].max then 0 else Min(BatchSize(idx), |q|))
            && forall j: nat :: j < |c.lists| && j != idx ==> c'.lists[j] == c.lists[j]
  {}

  // ------------------------------------------------------------------- trims

  /** A trim deals with each class once. */
  lemma {:induction false} TrimmedOnce(c: Cache, i: nat, mode: Mode, cached: nat, target: nat, k: nat) returns (e: nat)
    requires k < i <= |c.lists|
    ensures |TrimFrom(c, i, mode, cached, target).lists| == |c.lists| && e <= |c.lists[k].items|
    ensures TrimFrom(c, i, mode, cached, target).lists[k] == TrimmedList(c.lists[k], BatchSize(k), mode, e)
    decreases i
  {
    var n := TrimTurnIs(c, i - 1, mode, cached, target);
    var c' := TrimClass(c, i - 1, mode, n);
    TrimClassIs(c, i - 1, mode, n);
    if k == i - 1 {
      e := n;
      TrimFromFrame(c', i - 1, mode, Less(cached, Bytes(i - 1, n)), target, k);
    } else {
      e := TrimmedOnce(c', i - 1, mode, Less(cached, Bytes(i - 1, n)), target, k);
    }
  }

  lemma {:induction false} NoBytesNoObjects(lists: seq<FList>, n: nat, k: nat)
    requires k < n <= |lists| && CachedBytes(lists, n) == 0
    ensures lists[k].items == []
    decreases n
  {
    if k < n - 1 {
      NoBytesNoObjects(lists, n - 1, k);
    } else if lists[k].items != [] {
      SizePositive(k);
      MulMonotone(1, |lists[k].items|, CalculateSize(k));
    }
  }

  /** A hard request empties every list and takes every quota back to one object. */
  lemma PurgeEmpties(c: Cache, req: Request, k: nat)
    requires Rest(c) && req.mode.Purge? && req.epoch != c.epoch && k < NUM_CLASSES
    ensures |Handle(c, req).lists| == NUM_CLASSES && Handle(c, req).lists[k] == FList([], 1, 0)
  {
    TrimReaches(c, Purge, 0);
    var c' := Trim(c, Purge, 0);
    NoBytesNoObjects(c'.lists, |c'.lists|, k);
    var e := TrimmedOnce(c, |c.lists|, Purge, Cached(c), 0, k);
  }

  /** What a soft trim of lists a leaves: at most the target cached, or a batch in each
      class; nothing evicted when no more than that was cached; and it goes below by
      less than one object of the class evicted last. */
  ghost predicate SoftlyTrimmed(a: seq<FList>, b: seq<FList>, target: nat)
  {
    && |a| == |b|
    && (CachedBytes(b, |b|) <= target || forall k: nat {:trigger b[k]} :: k < |b| ==> |b[k].items| <= BatchSize(k))
    && (CachedBytes(a, |a|) <= target ==> forall k: nat {:trigger b[k]} :: k < |b| ==> b[k].items == a[k].items)
    && forall j: nat {:trigger EvictedLast(a, b, j)} :: EvictedLast(a, b, j) ==>
         target < CachedBytes(b, |b|) + CalculateSize(j)
  }

  lemma SoftTrim(c: Cache, target: nat)
    requires |c.lists| == NUM_CLASSES
    ensures SoftlyTrimmed(c.lists, Trim(c, Reuse, target).lists, target)
  {
    TrimReaches(c, Reuse, target);
    var c' := Trim(c, Reuse, target);
    forall j: nat | EvictedLast(c.lists, c'.lists, j)
      ensures target < Cached(c') + CalculateSize(j)
    {
      TrimOvershoot(c, Reuse, target, j);
    }
    if Cached(c) <= target {
      forall k: nat | k < NUM_CLASSES
        ensures c'.lists[k].items == c.lists[k].items
      {
        NothingEvicted(c, |c.lists|, Reuse, target, k);
      }
    }
  }

  /** A soft request trims to a mebibyte. */
  lemma ReuseTrims(c: Cache, req: Request)
    requires |c.lists| == NUM_CLASSES && req.mode.Reuse? && req.epoch != c.epoch
    ensures SoftlyTrimmed(c.lists, Handle(c, req).lists, 1024 * 1024)
  {
    SoftTrim(c, TrimTarget(req.mode));
  }

  /** A trim that starts at or below its target evicts nothing. */
  lemma {:induction false} NothingEvicted(c: Cache, i: nat, mode: Mode, target: nat, k: nat)
    requires |c.lists| == NUM_CLASSES && i <= NUM_CLASSES && k < NUM_CLASSES && Cached(c) <= target
    ensures var c' := TrimFrom(c, i, mode, Cached(c), target);
            |c'.lists| == NUM_CLASSES && c'.lists[k].items == c.lists[k].items
    decreases i
  {
    if i > 0 {
      var e := TrimTurnIs(c, i - 1, mode, Cached(c), target);
      SizePositive(i - 1);
      EvictFacts(CalculateSize(i - 1), BatchSize(i - 1), |c.lists[i - 1].items|, mode, Cached(c), target);
      TrimClassBytes(c, i - 1, mode, e);
      TrimClassIs(c, i - 1, mode, e);
      NothingEvicted(TrimClass(c, i - 1, mode, e), i - 1, mode, target, k);
    }
  }

  /** The quota a trim leaves: a hard one takes it down to what the list still holds,
      a soft one to that or a batch; neither below one object, and neither ever up. */
  lemma QuotaContracts(c: Cache, mode: Mode, target: nat, k: nat)
    requires Rest(c) && k < NUM_CLASSES
    ensures var c' := Trim(c, mode, target);
            && |c'.lists| == NUM_CLASSES
            && var l, l' := c.lists[k], c'.lists[k];
               && l'.max <= l.max
               && (mode.Purge? ==> l'.over == 0 && (l'.max == l.max || l'.max == Max(1, |l'.items|)))
               && (mode.Reuse? ==>
                     Min(l.max, BatchSize(k)) <= l'.max && (l'.max == l.max || l'.max == Max(BatchSize(k), |l'.items|)))
               && (l'.max < l.max ==> |l'.items| <= l'.max && l'.over == 0)
               && (l'.max == l.max ==>
                     l.max <= Max(1, |l'.items|) || (mode.Reuse? && l.max <= Max(BatchSize(k), |l'.items|)))
  {
    var e := TrimmedOnce(c, |c.lists|, mode, Cached(c), target, k);
    TrimKeeps(c, mode, target, NUM_CLASSES);
  }

  // ---------------------------------------------------------------- quota growth

  /** Above one batch the quota grows by an eighth of a batch, at least one, with each
      full refill that is granted. */
  lemma {:induction false} GrowthIsLinear(n: nat, k: nat, batch: nat)
    requires batch >= 1 && Refills(n, batch) == batch
    ensures Refills(n + k, batch) == Min(8 * batch, batch + k * Max(1, batch / 8))
    decreases k
  {
    var step := Max(1, batch / 8);
    if k > 0 {
      GrowthIsLinear(n, k - 1, batch);
      assert (k - 1) * step + step == k * step;
      OneStep(Refills(n + k - 1, batch), batch, (k - 1) * step, step);
    }
  }

  lemma OneStep(cur: nat, batch: nat, grown: nat, step: nat)
    requires batch >= 1 && step == Max(1, batch / 8) && cur == Min(8 * batch, batch + grown)
    ensures NextAfterRefill(cur, batch) == Min(8 * batch, batch + grown + step)
  {}

  lemma RefillQuota(c: Cache, idx: nat, got: seq<nat>)
    requires idx < |c.lists| && 1 <= c.lists[idx].max <= 8 * BatchSize(idx)
    requires |got| <= Min(BatchSize(idx), c.lists[idx].max)
    ensures var c', l := Refill(c, idx, got).0, c.lists[idx];
            && |c'.lists| == |c.lists|
            && (|got| < Min(BatchSize(idx), l.max) ==> c'.lists[idx].max == l.max && c'.lists[idx].over == l.over)
            && (|got| == Min(BatchSize(idx), l.max) ==>
                  && c'.lists[idx].over == 0
                  && var next := NextAfterRefill(l.max, BatchSize(idx));
                     c'.lists[idx].max ==
                     if c.reserved - Bytes(idx, l.max) + Bytes(idx, next) <= c.budget then next else l.max)
  {
    var next := NextAfterRefill(c.lists[idx].max, BatchSize(idx));
    RefillGrows(c.lists[idx].max, BatchSize(idx));
    BytesAdd(idx, c.lists[idx].max, next - c.lists[idx].max);
  }

  /** The quota after an allocation: it changes only with a full refill, to the next
      step, and only when the budget has room for the difference. */
  lemma AllocateQuota(c: Cache, idx: nat, got: seq<nat>, req: Request)
    requires Rest(c) && OpOk(c, DoAllocate(idx, got, req))
    ensures var c', h := Allocate(c, idx, got, req).0, Handle(c, req);
            && |c'.lists| == NUM_CLASSES
            && (c.lists[idx].items != [] ==>
                  c'.lists[idx].max == c.lists[idx].max && c'.lists[idx].over == c.lists[idx].over)
            && (c.lists[idx].items == [] && |got| < Min(BatchSize(idx), h.lists[idx].max) ==>
                  c'.lists[idx].max == h.lists[idx].max && c'.lists[idx].over == h.lists[idx].over)
            && (c.lists[idx].items == [] && |got| == Min(BatchSize(idx), h.lists[idx].max) ==>
                  && c'.lists[idx].over == 0
                  && var next := NextAfterRefill(h.lists[idx].max, BatchSize(idx));
                     c'.lists[idx].max ==
                     if h.reserved - Bytes(idx, h.lists[idx].max) + Bytes(idx, next) <= h.budget then next
                     else h.lists[idx].max)
  {
    HandleKeeps(c, req, NUM_CLASSES);
    if c.lists[idx].items == [] { RefillQuota(Handle(c, req), idx, got); }
  }

  // ------------------------------------------------------------------ whole runs

  /** CentralCache hands out, and the user frees, blocks that are not in the cache; a
      pending trim comes before the fetch. */
  ghost predicate Proper(c: Cache, op: Op)
  {
    match op
    case DoAllocate(idx, got, req) =>
      && |c.lists| == NUM_CLASSES && NoDup(got) && 0 !in got
      && forall j: nat, p: nat :: j < |Handle(c, req).lists| && p in got ==> p !in Handle(c, req).lists[j].items
    case DoDeallocate(idx, ptr, req) => ptr != 0 && forall j: nat :: j < |c.lists| ==> ptr !in c.lists[j].items
    case _ => true
  }

  ghost predicate ProperStep(c: Cache, c': Cache)
  {
    exists op: Op :: OpOk(c, op) && Does(c, c', op) && Proper(c, op)
  }

  ghost predicate ProperAt(r: seq<Cache>, i: nat) { i + 1 < |r| && ProperStep(r[i], r[i + 1]) }

  ghost predicate ProperRun(r: seq<Cache>)
  {
    |r| > 0 && Fresh(r[0]) && forall i: nat :: i + 1 < |r| ==> ProperAt(r, i)
  }

  lemma ProperRunIsRun(r: seq<Cache>)
    requires ProperRun(r)
    ensures Run(r)
  {
    forall i: nat | i + 1 < |r|
      ensures StepAt(r, i)
    {
      assert ProperAt(r, i);
    }
  }

  /** No object is cached twice, and none is null. */
  ghost predicate Distinct(lists: seq<FList>)
  {
    && (forall j: nat {:trigger lists[j]} :: j < |lists| ==> NoDup(lists[j].items) && 0 !in lists[j].items)
    && (forall j: nat, k: nat, p: nat {:trigger p in lists[j].items, p in lists[k].items} ::
          j < |lists| && k < |lists| && p in lists[j].items && p in lists[k].items ==> j == k)
  }

  ghost predicate Nowhere(lists: seq<FList>, p: nat)
  {
    forall j: nat {:trigger lists[j]} :: j < |lists| ==> p !in lists[j].items
  }

  /** Shorter lists of distinct objects are distinct. */
  lemma DistinctCut(a: seq<FList>, b: seq<FList>)
    requires Distinct(a) && |b| == |a| && forall j: nat {:trigger b[j]} :: j < |a| ==> b[j].items <= a[j].items
    ensures Distinct(b)
  {
    forall j: nat, p: nat | j < |b| && p in b[j].items
      ensures p in a[j].items
    {
      assert b[j].items <= a[j].items;
    }
  }

  lemma DistinctPush(a: seq<FList>, idx: nat, l: FList, q: seq<nat>)
    requires Distinct(a) && idx < |a| && l.items == q + a[idx].items && NoDup(q) && 0 !in q
    requires forall j: nat, p: nat :: j < |a| && p in q ==> p !in a[j].items
    ensures Distinct(a[idx := l])
  {
    var b := a[idx := l];
    assert NoDup(l.items) by { Joined(q, a[idx].items); }
    forall j: nat, p: nat | j < |b| && p in b[j].items
      ensures p in a[j].items || (j == idx && p in q)
    {}
  }

  lemma Joined(q: seq<nat>, p: seq<nat>)
    requires NoDup(q) && NoDup(p) && forall x: nat :: x in q ==> x !in p
    ensures NoDup(q + p)
  {
    forall i, j | 0 <= i < j < |q + p|
      ensures (q + p)[i] != (q + p)[j]
    {
      if i < |q| <= j { assert q[i] in q && p[j - |q|] in p; }
    }
  }

  lemma HandleDistinct(c: Cache, req: Request, idx: nat)
    requires Loose(c, idx) && Distinct(c.lists)
    ensures Distinct(Handle(c, req).lists)
  {
    HandleKeeps(c, req, idx);
    DistinctCut(c.lists, Handle(c, req).lists);
  }

  lemma AllocateDistinct(c: Cache, idx: nat, got: seq<nat>, req: Request)
    requires Rest(c) && Distinct(c.lists) && OpOk(c, DoAllocate(idx, got, req)) && Proper(c, DoAllocate(idx, got, req))
    ensures var (c', ptr) := Allocate(c, idx, got, req);
            && Distinct(c'.lists)
            && (ptr != 0 ==> Nowhere(c'.lists, ptr))
  {
    AllocateConserves(c, idx, got, req);
    var (c', ptr) := Allocate(c, idx, got, req);
    var h := Handle(c, req);
    if c.lists[idx].items != [] {
      Served(c.lists, c'.lists, idx, ptr);
    } else {
      HandleDistinct(c, req, NUM_CLASSES);
      HandleKeeps(c, req, NUM_CLASSES);
      if got == [] {
        assert c' == h;
      } else {
        var l := h.lists[idx].(items := got);
        DistinctPush(h.lists, idx, l, got);
        Served(h.lists[idx := l], c'.lists, idx, ptr);
      }
    }
  }

  lemma Served(a: seq<FList>, b: seq<FList>, idx: nat, ptr: nat)
    requires Distinct(a) && |b| == |a| && idx < |a| && [ptr] + b[idx].items == a[idx].items
    requires forall j: nat :: j < |a| && j != idx ==> b[j] == a[j]
    ensures Distinct(b) && Nowhere(b, ptr)
  {
    assert a[idx].items[0] == ptr && a[idx].items[1..] == b[idx].items && ptr in a[idx].items;
    PopMembers(a[idx].items);
    forall j: nat, p: nat | j < |b| && p in b[j].items
      ensures p in a[j].items
    {}
  }

  lemma DeallocateDistinct(c: Cache, idx: nat, ptr: nat, req: Request)
    requires Rest(c) && Distinct(c.lists) && idx < NUM_CLASSES && Proper(c, DoDeallocate(idx, ptr, req))
    ensures |Handle(Pushed(c, idx, ptr), req).lists| == NUM_CLASSES && Distinct(Deallocate(c, idx, ptr, req).lists)
  {
    DeallocateConserves(c, idx, ptr, req);
    DistinctPush(c.lists, idx, c.lists[idx].(items := [ptr] + c.lists[idx].items), [ptr]);
    DistinctCut(Pushed(c, idx, ptr).lists, Deallocate(c, idx, ptr, req).lists);
  }

  lemma StepDistinct(c: Cache, c': Cache)
    requires Rest(c) && Distinct(c.lists) && ProperStep(c, c')
    ensures Distinct(c'.lists)
  {
    var op :| OpOk(c, op) && Does(c, c', op) && Proper(c, op);
    match op
    case DoAllocate(idx, got, req) => AllocateDistinct(c, idx, got, req);
    case DoDeallocate(idx, ptr, req) => DeallocateDistinct(c, idx, ptr, req);
    case DoTrim(mode, target) => TrimKeeps(c, mode, target, NUM_CLASSES); DistinctCut(c.lists, c'.lists);
    case DoHandle(req) => HandleDistinct(c, req, NUM_CLASSES);
    case DoReleaseAll => ReleaseFromRest(c, 0);
  }

  lemma {:induction false} RunDistinct(r: seq<Cache>, i: nat)
    requires ProperRun(r) && i < |r|
    ensures Rest(r[i]) && Distinct(r[i].lists)
  {
    ProperRunIsRun(r);
    RunRest(r, i);
    if i > 0 {
      var k := i - 1;
      RunDistinct(r, k);
      assert ProperAt(r, k);
      StepDistinct(r[k], r[k + 1]);
    }
  }

  /** In every run in which no cached object is handed in again: no object is cached
      twice, and an object that is handed out is in no list afterwards. */
  lemma HandedOutLeaves(r: seq<Cache>, i: nat, idx: nat, got: seq<nat>, req: Request)
    requires ProperRun(r) && i + 1 < |r| && OpOk(r[i], DoAllocate(idx, got, req))
    requires Proper(r[i], DoAllocate(idx, got, req))
    requires r[i + 1] == Allocate(r[i], idx, got, req).0
    ensures Distinct(r[i + 1].lists)
    ensures var ptr := Allocate(r[i], idx, got, req).1;
            ptr != 0 ==> Nowhere(r[i + 1].lists, ptr)
  {
    RunDistinct(r, i);
    AllocateDistinct(r[i], idx, got, req);
  }
}
