/** The page-level state shared by PageCache and the scavenger: span descriptors,
    page-count buckets, the page map and the pages held from the system
    (include/ammalloc/page_cache.h, include/ammalloc/span.h). */
module PageHeap {
  import opened Config
  import opened Lists

  /** The descriptor fields the page layer reads and writes. */
  datatype SpanRec = SpanRec(start: nat, pages: nat, used: bool, committed: bool, owner: nat,
                             objSize: nat, classIdx: nat)

  datatype Heap = Heap(spans: map<nat, SpanRec>, lists: seq<seq<nat>>, pageMap: map<nat, nat>, held: set<nat>)

  function PagesOf(start: nat, n: nat): (s: set<nat>)
    ensures forall p: nat :: p in s <==> Within(p, start, n)
  {
    set p: nat | start <= p < start + n && Within(p, start, n)
  }

  predicate Covers(r: SpanRec, p: nat) { Within(p, r.start, r.pages) }

  /** `PageMap::SetSpan` and `ClearRange` on the flat map. */
  function MapRange(m: map<nat, nat>, start: nat, n: nat, id: nat): (m': map<nat, nat>)
    ensures forall p: nat :: p in m' <==> p in m || Within(p, start, n)
    ensures forall p: nat :: p in m' ==> m'[p] == if Within(p, start, n) then id else m[p]
  {
    m + map p: nat | start <= p < start + n && Within(p, start, n) :: id
  }

  function UnmapRange(m: map<nat, nat>, start: nat, n: nat): (m': map<nat, nat>)
    ensures forall p: nat :: p in m' <==> p in m && !Within(p, start, n)
    ensures forall p: nat :: p in m' ==> m'[p] == m[p]
  {
    map p: nat | p in m && !Within(p, start, n) :: m[p]
  }

  // ------------------------------------------------------------ the invariant

  /** Every page of a span maps to it, and a mapped page lies in its span. */
  ghost predicate MapExact(spans: map<nat, SpanRec>, pageMap: map<nat, nat>)
  {
    && (forall id: nat, p: nat {:trigger Within(p, spans[id].start, spans[id].pages)} ::
          id in spans && Within(p, spans[id].start, spans[id].pages) ==> p in pageMap && pageMap[p] == id)
    && (forall p: nat :: p in pageMap ==>
          pageMap[p] in spans && Within(p, spans[pageMap[p]].start, spans[pageMap[p]].pages))
  }

  /** The page map names, for every held page, the one live span covering it. */
  ghost predicate MapOk(h: Heap)
  {
    && (forall id: nat :: id in h.spans ==> h.spans[id].pages > 0 && h.spans[id].owner == 0)
    && MapExact(h.spans, h.pageMap)
    && (forall p: nat :: p in h.held <==> p in h.pageMap)
  }

  /** Every list holds distinct free spans of exactly its page count. */
  ghost predicate ListsOk(h: Heap)
  {
    && |h.lists| == MAX_PAGE_NUM + 1
    && (forall i: nat :: i < |h.lists| ==> NoDup(h.lists[i]))
    && (forall i: nat, id: nat {:trigger id in h.lists[i]} :: i < |h.lists| && id in h.lists[i] ==>
          id in h.spans && !h.spans[id].used && h.spans[id].pages == i)
  }

  /** Every free span is in the list of its page count and carries no object size. */
  ghost predicate FreeOk(h: Heap)
  {
    forall id: nat :: id in h.spans && !h.spans[id].used ==>
      && h.spans[id].pages < |h.lists| && id in h.lists[h.spans[id].pages]
      && h.spans[id].objSize == 0
  }

  ghost predicate Valid(h: Heap) { MapOk(h) && ListsOk(h) && FreeOk(h) }

  /** The spans in someone's hands: everything the page layer must leave alone. */
  ghost function Used(h: Heap): map<nat, SpanRec>
  {
    map id: nat | id in h.spans && h.spans[id].used :: h.spans[id]
  }

  /** `GetSpan(p) == id` exactly when p lies in live span `id`, so live spans
      partition the pages held from the system. */
  lemma LookupExact(h: Heap, p: nat)
    requires Valid(h)
    ensures forall id: nat :: id in h.spans ==>
              (Covers(h.spans[id], p) <==> p in h.pageMap && h.pageMap[p] == id)
    ensures p in h.held <==> exists id: nat :: id in h.spans && Covers(h.spans[id], p)
    ensures forall a: nat, b: nat :: a in h.spans && b in h.spans && Covers(h.spans[a], p) && Covers(h.spans[b], p)
              ==> a == b
  {}

  /** A free span is in exactly one bucket, the one of its page count. */
  lemma FreeSpanInOneBucket(h: Heap, id: nat)
    requires Valid(h) && id in h.spans
    ensures forall i: nat :: i < |h.lists| ==>
              (id in h.lists[i] <==> !h.spans[id].used && i == h.spans[id].pages)
  {}

  // ---------------------------------------- the locked sections, as heap updates

  /** An exact fit: the front span of its own bucket. */
  ghost function TakeExact(h: Heap, n: nat): Heap
    requires n < |h.lists| && h.lists[n] != [] && h.lists[n][0] in h.spans
  {
    var id := h.lists[n][0];
    h.(lists := h.lists[n := h.lists[n][1..]],
       spans := h.spans[id := h.spans[id].(used := true, committed := true)])
  }

  lemma TakeExactOk(h: Heap, n: nat)
    requires Valid(h) && n < |h.lists| && h.lists[n] != []
    ensures h.lists[n][0] in h.spans && Valid(TakeExact(h, n))
    ensures var id := h.lists[n][0];
            id !in Used(h) && Used(TakeExact(h, n)) == Used(h)[id := h.spans[id].(used := true, committed := true)]
  {
    PopMembers(h.lists[n]);
    assert h.lists[n][0] in h.lists[n];
  }

  /** Splits the front span of bucket i: its first n pages become the new used
      span `small` and the rest stays free, in the bucket of its new count. */
  ghost function SplitFront(h: Heap, i: nat, n: nat, small: nat): Heap
    requires 0 < n < i < |h.lists| && h.lists[i] != [] && h.lists[i][0] in h.spans
    requires h.spans[h.lists[i][0]].pages == i
  {
    var big := h.lists[i][0];
    var r := h.spans[big];
    var rest := r.pages - n;
    var popped := h.lists[i := h.lists[i][1..]];
    Heap(h.spans[small := SpanRec(r.start, n, true, true, r.owner, 0, 0)]
                [big := r.(start := r.start + n, pages := rest, used := false, committed := true)],
         popped[rest := [big] + popped[rest]],
         MapRange(MapRange(h.pageMap, r.start, n, small), r.start + n, rest, big),
         h.held)
  }

  lemma SplitFrontOk(h: Heap, i: nat, n: nat, small: nat)
    requires Valid(h) && 0 < n < i < |h.lists| && h.lists[i] != [] && small !in h.spans
    ensures h.lists[i][0] in h.spans && h.spans[h.lists[i][0]].pages == i && small !in Used(h)
    ensures Valid(SplitFront(h, i, n, small))
    ensures Used(SplitFront(h, i, n, small)) ==
            Used(h)[small := SpanRec(h.spans[h.lists[i][0]].start, n, true, true, 0, 0, 0)]
  {
    assert h.lists[i][0] in h.lists[i];
    SplitMapOk(h, i, n, small);
    SplitListsOk(h, i, n, small);
    SplitUsed(h, i, n, small);
  }

  ghost predicate CanSplit(h: Heap, i: nat, n: nat, small: nat)
  {
    && 0 < n < i < |h.lists| && h.lists[i] != [] && small !in h.spans
    && h.lists[i][0] in h.spans && h.spans[h.lists[i][0]].pages == i
  }

  lemma SplitUsed(h: Heap, i: nat, n: nat, small: nat)
    requires CanSplit(h, i, n, small) && !h.spans[h.lists[i][0]].used && h.spans[h.lists[i][0]].owner == 0
    ensures Used(SplitFront(h, i, n, small)) ==
            Used(h)[small := SpanRec(h.spans[h.lists[i][0]].start, n, true, true, 0, 0, 0)]
  {}

  lemma SplitMapOk(h: Heap, i: nat, n: nat, small: nat)
    requires MapOk(h) && CanSplit(h, i, n, small)
    ensures MapOk(SplitFront(h, i, n, small))
  {
    SplitKeepsPages(h, i, n, small);
    SplitMapExact(h, i, n, small);
  }

  lemma SplitMapExact(h: Heap, i: nat, n: nat, small: nat)
    requires MapExact(h.spans, h.pageMap) && CanSplit(h, i, n, small)
    ensures MapExact(SplitFront(h, i, n, small).spans, SplitFront(h, i, n, small).pageMap)
  {
    var big := h.lists[i][0];
    var h' := SplitFront(h, i, n, small);
    SplitKeepsPages(h, i, n, small);
    PartsExact(h.spans, h.pageMap, h'.spans, h'.pageMap, big, small);
  }

  lemma SplitKeepsPages(h: Heap, i: nat, n: nat, small: nat)
    requires MapExact(h.spans, h.pageMap) && CanSplit(h, i, n, small)
    ensures var m, m' := h.pageMap, SplitFront(h, i, n, small).pageMap;
            var big := h.lists[i][0];
            && (forall p: nat :: p in m' <==> p in m)
            && (forall p: nat :: p in m && m[p] != big ==> m'[p] == m[p])
            && (forall p: nat :: Within(p, h.spans[big].start, n) <==> p in m && m[p] == big && m'[p] == small)
            && (forall p: nat :: Within(p, h.spans[big].start + n, h.spans[big].pages - n) <==>
                                 p in m && m[p] == big && m'[p] == big)
  {
    SplitMapped(h.spans, h.pageMap, h.lists[i][0], n);
  }

  lemma SplitMapped(spans: map<nat, SpanRec>, pageMap: map<nat, nat>, big: nat, n: nat)
    requires MapExact(spans, pageMap) && big in spans && 0 < n < spans[big].pages
    ensures forall p: nat :: Within(p, spans[big].start, n) || Within(p, spans[big].start + n, spans[big].pages - n)
              <==> p in pageMap && pageMap[p] == big
  {
    var r := spans[big];
    forall p: nat
      ensures Within(p, r.start, n) || Within(p, r.start + n, r.pages - n) <==> p in pageMap && pageMap[p] == big
    {
      assert Within(p, spans[big].start, spans[big].pages) <==>
             Within(p, r.start, n) || Within(p, r.start + n, r.pages - n);
    }
  }

  /** Two spans that share out the pages of a third replace it exactly. */
  lemma PartsExact(spans: map<nat, SpanRec>, pageMap: map<nat, nat>, spans': map<nat, SpanRec>, pageMap': map<nat, nat>,
                   a: nat, b: nat)
    requires MapExact(spans, pageMap) && a in spans && a in spans' && b in spans' && b !in spans && a != b
    requires forall id: nat :: id in spans' <==> id in spans || id == b
    requires forall id: nat :: id in spans && id != a ==> spans'[id] == spans[id]
    requires forall p: nat :: p in pageMap' <==> p in pageMap
    requires forall p: nat :: p in pageMap && pageMap[p] != a ==> pageMap'[p] == pageMap[p]
    requires forall p: nat :: Within(p, spans'[a].start, spans'[a].pages) <==>
                              p in pageMap && pageMap[p] == a && pageMap'[p] == a
    requires forall p: nat :: Within(p, spans'[b].start, spans'[b].pages) <==>
                              p in pageMap && pageMap[p] == a && pageMap'[p] == b
    requires forall p: nat :: p in pageMap && pageMap[p] == a ==> pageMap'[p] == a || pageMap'[p] == b
    ensures MapExact(spans', pageMap')
  {
    forall id: nat, p: nat | id in spans' && Within(p, spans'[id].start, spans'[id].pages)
      ensures p in pageMap' && pageMap'[p] == id
    {
      if id != a && id != b { assert Within(p, spans[id].start, spans[id].pages); }
    }
  }

  lemma SplitListsOk(h: Heap, i: nat, n: nat, small: nat)
    requires ListsOk(h) && FreeOk(h) && 0 < n < i < |h.lists| && h.lists[i] != [] && small !in h.spans
    requires h.lists[i][0] in h.lists[i]
    ensures ListsOk(SplitFront(h, i, n, small)) && FreeOk(SplitFront(h, i, n, small))
  {
    var big := h.lists[i][0];
    PopMembers(h.lists[i]);
    PushMembers(h.lists[i - n], big);
  }

  /** A fresh system mapping becomes a live span: free and listed, or used when
      it is too long for the buckets. */
  ghost function AddMapping(h: Heap, start: nat, n: nat, id: nat, used: bool): Heap
    requires !used ==> n < |h.lists|
  {
    Heap(h.spans[id := SpanRec(start, n, used, true, 0, 0, 0)],
         if used then h.lists else h.lists[n := [id] + h.lists[n]],
         MapRange(h.pageMap, start, n, id),
         h.held + PagesOf(start, n))
  }

  lemma AddMappingOk(h: Heap, start: nat, n: nat, id: nat, used: bool)
    requires Valid(h) && n > 0 && id !in h.spans && PagesOf(start, n) !! h.held && (!used ==> n < |h.lists|)
    ensures Valid(AddMapping(h, start, n, id, used)) && id !in Used(h)
    ensures Used(AddMapping(h, start, n, id, used)) ==
            if used then Used(h)[id := SpanRec(start, n, true, true, 0, 0, 0)] else Used(h)
  {
    AddMappingMapOk(h, start, n, id, used);
    AddMappingListsOk(h, start, n, id, used);
    AddMappingUsed(h, start, n, id, used);
  }

  lemma AddMappingUsed(h: Heap, start: nat, n: nat, id: nat, used: bool)
    requires id !in h.spans && (!used ==> n < |h.lists|)
    ensures Used(AddMapping(h, start, n, id, used)) ==
            if used then Used(h)[id := SpanRec(start, n, true, true, 0, 0, 0)] else Used(h)
  {}

  lemma AddMappingListsOk(h: Heap, start: nat, n: nat, id: nat, used: bool)
    requires ListsOk(h) && FreeOk(h) && id !in h.spans && (!used ==> n < |h.lists|)
    ensures ListsOk(AddMapping(h, start, n, id, used)) && FreeOk(AddMapping(h, start, n, id, used))
  {
    if !used { PushMembers(h.lists[n], id); }
  }

  lemma AddMappingMapOk(h: Heap, start: nat, n: nat, id: nat, used: bool)
    requires MapOk(h) && n > 0 && id !in h.spans && PagesOf(start, n) !! h.held && (!used ==> n < |h.lists|)
    ensures MapOk(AddMapping(h, start, n, id, used))
  {
    forall p: nat | Within(p, start, n)
      ensures p !in h.pageMap
    {
      assert p in PagesOf(start, n);
    }
  }

  /** Releasing an oversized span returns its pages to the system. */
  ghost function DropOversized(h: Heap, id: nat): Heap
    requires id in h.spans
  {
    var r := h.spans[id];
    Heap(h.spans - {id}, h.lists, UnmapRange(h.pageMap, r.start, r.pages), h.held - PagesOf(r.start, r.pages))
  }

  lemma DropOversizedOk(h: Heap, id: nat)
    requires Valid(h) && id in h.spans && h.spans[id].used
    ensures Valid(DropOversized(h, id)) && Used(DropOversized(h, id)) == Used(h) - {id}
  {
    var h' := DropOversized(h, id);
    forall p: nat | p in h'.pageMap
      ensures h'.pageMap[p] in h'.spans
    {
      var x := h.pageMap[p];
      assert Within(p, h.spans[x].start, h.spans[x].pages);
    }
  }

  // ----------------------------------------------------------------- coalescing

  /** The state inside the merge loops of a release that began in `h0`: span `id`
      has grown over the spans in `retired`, which have left their lists but whose
      descriptors live on and are still named by the page map. */
  ghost predicate Merging(h0: Heap, h: Heap, id: nat, retired: set<nat>)
  {
    && Valid(h0) && id in h0.spans && h0.spans[id].used && Grown(h0, h, id)
    && Retired(h0, h, id, retired) && Unlisted(h0, h, retired)
  }

  ghost predicate Grown(h0: Heap, h: Heap, id: nat)
  {
    && id in h0.spans && h.pageMap == h0.pageMap && h.held == h0.held
    && id in h.spans && h.spans == h0.spans[id := h.spans[id]]
    && var r0, r := h0.spans[id], h.spans[id];
       && r == r0.(start := r.start, pages := r.pages)
       && 0 < r.pages <= MAX_PAGE_NUM
       && r.start <= r0.start && r0.start + r0.pages <= r.start + r.pages
  }

  ghost predicate Retired(h0: Heap, h: Heap, id: nat, retired: set<nat>)
  {
    && id in h.spans && id !in retired
    && (forall x: nat :: x in retired ==>
          && x in h0.spans && !h0.spans[x].used
          && h.spans[id].start <= h0.spans[x].start
          && h0.spans[x].start + h0.spans[x].pages <= h.spans[id].start + h.spans[id].pages)
    && (forall p: nat :: Within(p, h.spans[id].start, h.spans[id].pages) ==>
          p in h0.pageMap && (h0.pageMap[p] == id || h0.pageMap[p] in retired))
  }

  ghost predicate Unlisted(h0: Heap, h: Heap, retired: set<nat>)
  {
    && |h.lists| == |h0.lists|
    && (forall i: nat :: i < |h.lists| ==> NoDup(h.lists[i]))
    && (forall i: nat, x: nat {:trigger x in h.lists[i]} :: i < |h.lists| ==>
          (x in h.lists[i] <==> x in h0.lists[i] && x !in retired))
  }

  /** The merge guard: the span covering page p is free, has the same owner, and
      fits under the cap together with `id`. */
  predicate Mergeable(spans: map<nat, SpanRec>, pageMap: map<nat, nat>, id: nat, p: nat)
    requires id in spans
  {
    && p in pageMap && pageMap[p] in spans
    && var other := spans[pageMap[p]];
       !other.used && other.owner == spans[id].owner && spans[id].pages + other.pages <= MAX_PAGE_NUM
  }

  predicate CanMerge(h: Heap, id: nat, p: nat)
    requires id in h.spans
  {
    Mergeable(h.spans, h.pageMap, id, p)
  }

  /** Span `id` absorbs the neighbour `x`: it is erased from its list and `id`
      takes over its pages. */
  ghost function Absorb(h: Heap, id: nat, x: nat): Heap
    requires id in h.spans && x in h.spans && h.spans[x].pages < |h.lists|
  {
    var n := h.spans[x].pages;
    h.(lists := h.lists[n := Erase(h.lists[n], x)],
       spans := h.spans[id := h.spans[id].(start := Min(h.spans[id].start, h.spans[x].start),
                                           pages := h.spans[id].pages + n)])
  }

  /** A free span next to a merging one ends exactly where the other begins. */
  lemma NeighbourFits(h0: Heap, h: Heap, id: nat, retired: set<nat>, p: nat)
    requires Merging(h0, h, id, retired) && CanMerge(h, id, p)
    requires p + 1 == h.spans[id].start || p == h.spans[id].start + h.spans[id].pages
    ensures var x := h.pageMap[p];
            && x != id && x !in retired && x in h0.spans && h.spans[x] == h0.spans[x] && h.spans[x].pages < |h.lists|
            && (p + 1 == h.spans[id].start ==> h.spans[x].start + h.spans[x].pages == h.spans[id].start)
            && (p == h.spans[id].start + h.spans[id].pages ==> h.spans[x].start == p)
  {
    var x := h.pageMap[p];
    var r := h.spans[id];
    assert Within(p, h0.spans[x].start, h0.spans[x].pages);
    assert x !in retired;
    if p + 1 == r.start {
      assert !Within(r.start, h0.spans[x].start, h0.spans[x].pages) by { assert Within(r.start, r.start, r.pages); }
    } else {
      var q := r.start + r.pages - 1;
      assert !Within(q, h0.spans[x].start, h0.spans[x].pages) by { assert Within(q, r.start, r.pages); }
    }
  }

  lemma MergeStarts(h0: Heap, id: nat)
    requires Valid(h0) && id in h0.spans && h0.spans[id].used && h0.spans[id].pages <= MAX_PAGE_NUM
    ensures Merging(h0, h0, id, {})
  {
    assert h0.spans == h0.spans[id := h0.spans[id]];
  }

  lemma AbsorbOk(h0: Heap, h: Heap, id: nat, retired: set<nat>, p: nat)
    requires Merging(h0, h, id, retired) && CanMerge(h, id, p)
    requires p + 1 == h.spans[id].start || p == h.spans[id].start + h.spans[id].pages
    ensures h.pageMap[p] in h.spans && h.spans[h.pageMap[p]].pages < |h.lists|
    ensures Merging(h0, Absorb(h, id, h.pageMap[p]), id, retired + {h.pageMap[p]})
  {
    var x := h.pageMap[p];
    NeighbourFits(h0, h, id, retired, p);
    AbsorbRetired(h0, h, id, retired, x);
    EraseMembers(h.lists[h.spans[x].pages], x);
    AbsorbUnlisted(h0, h, id, retired, x);
  }

  /** Absorbing grows the span; on the right its start stays and everything but
      its length and the lists is as before. */
  lemma AbsorbGrows(h0: Heap, h: Heap, id: nat, retired: set<nat>, p: nat)
    requires Merging(h0, h, id, retired) && CanMerge(h, id, p)
    requires p + 1 == h.spans[id].start || p == h.spans[id].start + h.spans[id].pages
    ensures h.pageMap[p] in h.spans && h.spans[h.pageMap[p]].pages < |h.lists|
    ensures var h' := Absorb(h, id, h.pageMap[p]);
            && h'.spans[id].pages > h.spans[id].pages
            && (p + 1 == h.spans[id].start ==> h'.spans[id].start < h.spans[id].start)
            && (p == h.spans[id].start + h.spans[id].pages ==>
                  h'.spans[id] == h.spans[id].(pages := h'.spans[id].pages))
  {
    NeighbourFits(h0, h, id, retired, p);
    assert h0.spans[h.pageMap[p]].pages > 0;
  }

  lemma AbsorbUnlisted(h0: Heap, h: Heap, id: nat, retired: set<nat>, x: nat)
    requires Unlisted(h0, h, retired) && ListsOk(h0) && id in h.spans
    requires x in h0.spans && x in h.spans && h.spans[x] == h0.spans[x] && h.spans[x].pages < |h.lists|
    ensures Unlisted(h0, Absorb(h, id, x), retired + {x})
  {
    EraseMembers(h.lists[h.spans[x].pages], x);
  }

  lemma AbsorbRetired(h0: Heap, h: Heap, id: nat, retired: set<nat>, x: nat)
    requires MapOk(h0) && Retired(h0, h, id, retired) && x != id && x in h0.spans && !h0.spans[x].used
    requires x in h.spans && h.spans[x] == h0.spans[x] && h.spans[x].pages < |h.lists|
    requires || h.spans[x].start + h.spans[x].pages == h.spans[id].start
             || h.spans[x].start == h.spans[id].start + h.spans[id].pages
    ensures Retired(h0, Absorb(h, id, x), id, retired + {x})
  {
    var h' := Absorb(h, id, x);
    forall p: nat | Within(p, h'.spans[id].start, h'.spans[id].pages)
      ensures p in h0.pageMap && (h0.pageMap[p] == id || h0.pageMap[p] in retired + {x})
    {
      assert Within(p, h.spans[id].start, h.spans[id].pages) || Within(p, h0.spans[x].start, h0.spans[x].pages);
    }
  }

  /** The end of a release: the grown span becomes free, its leaves are rewritten,
      the absorbed descriptors are recycled, and it is listed by its new count. */
  ghost function Coalesced(h: Heap, id: nat, retired: set<nat>): Heap
    requires id in h.spans && h.spans[id].pages < |h.lists|
  {
    var r := h.spans[id];
    Heap((h.spans - retired)[id := r.(used := false, committed := true, objSize := 0)],
         h.lists[r.pages := [id] + h.lists[r.pages]],
         MapRange(h.pageMap, r.start, r.pages, id),
         h.held)
  }

  lemma CoalescedOk(h0: Heap, h: Heap, id: nat, retired: set<nat>)
    requires Merging(h0, h, id, retired)
    ensures h.spans[id].pages < |h.lists|
    ensures Valid(Coalesced(h, id, retired)) && Used(Coalesced(h, id, retired)) == Used(h0) - {id}
  {
    CoalescedMapOk(h0, h, id, retired);
    CoalescedListsOk(h0, h, id, retired);
    CoalescedUsed(h0, h, id, retired);
  }

  lemma CoalescedUsed(h0: Heap, h: Heap, id: nat, retired: set<nat>)
    requires Grown(h0, h, id) && Retired(h0, h, id, retired) && h.spans[id].pages < |h.lists|
    ensures Used(Coalesced(h, id, retired)) == Used(h0) - {id}
  {}

  lemma CoalescedMapOk(h0: Heap, h: Heap, id: nat, retired: set<nat>)
    requires MapOk(h0) && Grown(h0, h, id) && Retired(h0, h, id, retired) && h.spans[id].pages < |h.lists|
    ensures MapOk(Coalesced(h, id, retired))
  {
    var h' := Coalesced(h, id, retired);
    forall x: nat, p: nat | x in h'.spans && Within(p, h'.spans[x].start, h'.spans[x].pages)
      ensures p in h'.pageMap && h'.pageMap[p] == x
    {
      if x != id { assert Within(p, h0.spans[x].start, h0.spans[x].pages); }
    }
    forall p: nat | p in h'.pageMap
      ensures h'.pageMap[p] in h'.spans && Within(p, h'.spans[h'.pageMap[p]].start, h'.spans[h'.pageMap[p]].pages)
    {
      if !Within(p, h.spans[id].start, h.spans[id].pages) {
        var x := h0.pageMap[p];
        assert Within(p, h0.spans[x].start, h0.spans[x].pages);
      }
    }
  }

  lemma CoalescedListsOk(h0: Heap, h: Heap, id: nat, retired: set<nat>)
    requires ListsOk(h0) && FreeOk(h0) && Grown(h0, h, id) && h0.spans[id].used
    requires Retired(h0, h, id, retired) && Unlisted(h0, h, retired)
    ensures h.spans[id].pages < |h.lists|
    ensures ListsOk(Coalesced(h, id, retired)) && FreeOk(Coalesced(h, id, retired))
  {
    PushMembers(h.lists[h.spans[id].pages], id);
  }

  // ------------------------------------ the scavenger, and carving for objects

  /** The scavenger takes a free span out of its list and marks it used. */
  ghost function DetachOne(h: Heap, id: nat): Heap
    requires id in h.spans && h.spans[id].pages < |h.lists|
  {
    var i := h.spans[id].pages;
    h.(lists := h.lists[i := Erase(h.lists[i], id)], spans := h.spans[id := h.spans[id].(used := true)])
  }

  lemma DetachOneOk(h: Heap, id: nat)
    requires Valid(h) && id in h.spans && !h.spans[id].used
    ensures h.spans[id].pages < |h.lists| && Valid(DetachOne(h, id))
    ensures id !in Used(h) && Used(DetachOne(h, id)) == Used(h)[id := h.spans[id].(used := true)]
  {
    EraseMembers(h.lists[h.spans[id].pages], id);
  }

  /** A detached span goes back to the tail of bucket i. */
  ghost function ReturnOne(h: Heap, i: nat, id: nat): Heap
    requires id in h.spans && i < |h.lists|
  {
    h.(lists := h.lists[i := h.lists[i] + [id]], spans := h.spans[id := h.spans[id].(used := false)])
  }

  lemma ReturnOneOk(h: Heap, i: nat, id: nat)
    requires Valid(h) && id in h.spans && h.spans[id].used && i < |h.lists|
    requires h.spans[id].pages == i && h.spans[id].objSize == 0
    ensures Valid(ReturnOne(h, i, id)) && Used(ReturnOne(h, i, id)) == Used(h) - {id}
  {
    PushMembers(h.lists[i], id);
  }

  /** The holder of a used span changes fields that are not page-level. */
  ghost function Annotate(h: Heap, id: nat, committed: bool, objSize: nat, classIdx: nat): Heap
    requires id in h.spans
  {
    h.(spans := h.spans[id := h.spans[id].(committed := committed, objSize := objSize, classIdx := classIdx)])
  }

  lemma AnnotateOk(h: Heap, id: nat, committed: bool, objSize: nat, classIdx: nat)
    requires Valid(h) && id in h.spans && h.spans[id].used
    ensures var h' := Annotate(h, id, committed, objSize, classIdx);
            var r := h.spans[id].(committed := committed, objSize := objSize, classIdx := classIdx);
            Valid(h') && Used(h') == Used(h)[id := r]
  {}
}
