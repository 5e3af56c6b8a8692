/** The page cache: `PageCacheShard::AllocSpanLocked` and `ReleaseSpanLocked`
    (src/page_cache.cpp) and the scavenger's locked sections
    (src/page_heap_scavenger.cpp). The system, the descriptor pool and the radix
    nodes may fail at every request; their answers are parameters. */
module PageCache {
  import opened Config
  import opened Lists
  import opened PageHeap
  import opened PageLeaves

  /** What the environment answers during one `AllocSpanLocked` call: the first
      page of a system mapping, the descriptor for it, whether its radix paths
      could be made, and the descriptor for a split. */
  datatype Env = Env(osPage: Option<nat>, mapped: Option<nat>, paths: bool, split: Option<nat>)

  /** Mappings do not overlap held pages; descriptors come from dead slots. */
  ghost predicate EnvOk(h: Heap, n: nat, env: Env)
  {
    var size := if n > MAX_PAGE_NUM then n else MAX_PAGE_NUM;
    && (env.osPage.Some? ==> PagesOf(env.osPage.value, size) !! h.held)
    && (env.mapped.Some? ==> env.mapped.value !in h.spans)
    && (env.split.Some? ==> env.split.value !in h.spans)
    && (env.mapped.Some? && env.split.Some? ==> env.mapped.value != env.split.value)
  }

  /** The smallest nonempty bucket from i on, or 129 when there is none. */
  function FirstFit(lists: seq<seq<nat>>, i: nat): (f: nat)
    requires |lists| == MAX_PAGE_NUM + 1 && i <= MAX_PAGE_NUM + 1
    ensures i <= f <= MAX_PAGE_NUM + 1
    ensures f <= MAX_PAGE_NUM ==> lists[f] != []
    ensures forall j :: i <= j < f ==> lists[j] == []
    decreases MAX_PAGE_NUM + 1 - i
  {
    if i == MAX_PAGE_NUM + 1 || lists[i] != [] then i else FirstFit(lists, i + 1)
  }

  predicate Maps(env: Env) { env.osPage.Some? && env.mapped.Some? && env.paths }

  /** Serving from the buckets: an exact fit, or a split of the smallest larger
      span when a descriptor for it can be had. */
  ghost function Serve(h: Heap, n: nat, env: Env): (Heap, Option<nat>)
    requires Valid(h) && 0 < n <= MAX_PAGE_NUM && FirstFit(h.lists, n) <= MAX_PAGE_NUM
  {
    var f := FirstFit(h.lists, n);
    assert h.lists[f][0] in h.lists[f];
    if f == n then (TakeExact(h, n), Some(h.lists[n][0]))
    else if env.split.None? then (h, None)
    else (SplitFront(h, f, n, env.split.value), env.split)
  }

  ghost function Refilled(h: Heap, env: Env): (h': Heap)
    requires |h.lists| == MAX_PAGE_NUM + 1 && Maps(env)
    ensures |h'.lists| == |h.lists| && h'.lists[MAX_PAGE_NUM] != []
  {
    AddMapping(h, env.osPage.value, MAX_PAGE_NUM, env.mapped.value, false)
  }

  /** One `AllocSpanLocked` call: the heap it leaves and the span it returns. */
  ghost function AllocHeap(h: Heap, n: nat, env: Env): (Heap, Option<nat>)
    requires Valid(h) && EnvOk(h, n, env)
  {
    if n == 0 || n > MAX_UINT32 then (h, None)
    else if n > MAX_PAGE_NUM then
      if Maps(env) then (AddMapping(h, env.osPage.value, n, env.mapped.value, true), env.mapped) else (h, None)
    else if FirstFit(h.lists, n) <= MAX_PAGE_NUM then Serve(h, n, env)
    else if !Maps(env) then (h, None)
    else
      AddMappingOk(h, env.osPage.value, MAX_PAGE_NUM, env.mapped.value, false);
      Serve(Refilled(h, env), n, env)
  }

  /** What a caller gets: one more used span, of n pages and without objects, and
      every other used span as it was. */
  ghost predicate Allocated(h: Heap, h': Heap, id: nat, n: nat)
  {
    && n > 0 && id !in Used(h) && id in Used(h')
    && Used(h') == Used(h)[id := Used(h')[id]]
    && Used(h')[id].pages == n && Used(h')[id].objSize == 0
  }

  lemma ServeOk(h: Heap, n: nat, env: Env)
    requires Valid(h) && 0 < n <= MAX_PAGE_NUM && FirstFit(h.lists, n) <= MAX_PAGE_NUM
    requires env.split.Some? ==> env.split.value !in h.spans
    ensures var (h', r) := Serve(h, n, env);
            && Valid(h') && h'.held == h.held
            && (r.None? ==> h' == h) && (r.Some? ==> Allocated(h, h', r.value, n))
  {
    var f := FirstFit(h.lists, n);
    assert h.lists[f][0] in h.lists[f];
    if f == n {
      TakeExactOk(h, n);
    } else if env.split.Some? {
      SplitFrontOk(h, f, n, env.split.value);
    }
  }

  /** Whatever fails, an allocation keeps the page invariant and every used span;
      when it succeeds it adds exactly one used span, of the asked length. Pages
      come from the system only when no bucket from n up holds a span. */
  lemma AllocHeapOk(h: Heap, n: nat, env: Env)
    requires Valid(h) && EnvOk(h, n, env)
    ensures var (h', r) := AllocHeap(h, n, env);
            && Valid(h')
            && (r.None? ==> Used(h') == Used(h)) && (r.Some? ==> Allocated(h, h', r.value, n))
            && (0 < n <= MAX_PAGE_NUM && FirstFit(h.lists, n) <= MAX_PAGE_NUM ==> h'.held == h.held)
            && h.held <= h'.held
  {
    if n == 0 || n > MAX_UINT32 {
    } else if n > MAX_PAGE_NUM {
      if Maps(env) { AddMappingOk(h, env.osPage.value, n, env.mapped.value, true); }
    } else if FirstFit(h.lists, n) <= MAX_PAGE_NUM {
      ServeOk(h, n, env);
    } else if Maps(env) {
      AddMappingOk(h, env.osPage.value, MAX_PAGE_NUM, env.mapped.value, false);
      ServeOk(Refilled(h, env), n, env);
    }
  }

  /** A free span of exactly n pages, and of more than n. */
  ghost predicate HasFree(h: Heap, n: nat)
  {
    exists id: nat :: id in h.spans && !h.spans[id].used && h.spans[id].pages == n
  }

  ghost predicate HasFreeAbove(h: Heap, n: nat)
  {
    exists id: nat :: id in h.spans && !h.spans[id].used && h.spans[id].pages > n
  }

  predicate MappingFails(env: Env) { env.osPage.None? || env.mapped.None? || !env.paths }

  /** The system is asked for pages: nothing free is long enough. */
  ghost predicate NeedsSystem(h: Heap, n: nat)
  {
    n > MAX_PAGE_NUM || (!HasFree(h, n) && !HasFreeAbove(h, n))
  }

  /** When a request of n pages is refused: it is no page count; or nothing free is
      long enough and no mapping can be had; or it takes a split and no descriptor
      can be had for one. */
  ghost predicate Refused(h: Heap, n: nat, env: Env)
  {
    || n == 0 || n > MAX_UINT32
    || (NeedsSystem(h, n) && MappingFails(env))
    || (n < MAX_PAGE_NUM && !HasFree(h, n) && env.split.None?)
  }

  /** The first sufficient bucket, in terms of the free spans there are. */
  lemma FitOf(h: Heap, n: nat)
    requires Valid(h) && 0 < n <= MAX_PAGE_NUM
    ensures var f := FirstFit(h.lists, n);
            && (f == n <==> HasFree(h, n)) && (f <= MAX_PAGE_NUM <==> HasFree(h, n) || HasFreeAbove(h, n))
            && (f <= MAX_PAGE_NUM ==> h.lists[f][0] in h.spans && h.spans[h.lists[f][0]].pages == f
                                      && !h.spans[h.lists[f][0]].used)
            && forall id: nat :: id in h.spans && !h.spans[id].used && h.spans[id].pages >= n ==> f <= h.spans[id].pages
  {
    var f := FirstFit(h.lists, n);
    if f <= MAX_PAGE_NUM { assert h.lists[f][0] in h.lists[f]; }
  }

  /** An allocation is refused exactly then. */
  lemma AllocRefusedExactly(h: Heap, n: nat, env: Env)
    requires Valid(h) && EnvOk(h, n, env)
    ensures AllocHeap(h, n, env).1.None? <==> Refused(h, n, env)
  {
    if 0 < n <= MAX_PAGE_NUM {
      FitOf(h, n);
      if NeedsSystem(h, n) && Maps(env) {
        AddMappingOk(h, env.osPage.value, MAX_PAGE_NUM, env.mapped.value, false);
        RefilledFit(h, n, env);
      }
    }
  }

  /** After a refill the one sufficient span is the new one. */
  lemma RefilledFit(h: Heap, n: nat, env: Env)
    requires |h.lists| == MAX_PAGE_NUM + 1 && Maps(env) && 0 < n <= MAX_PAGE_NUM && FirstFit(h.lists, n) > MAX_PAGE_NUM
    ensures FirstFit(Refilled(h, env).lists, n) == MAX_PAGE_NUM
    ensures Refilled(h, env).lists[MAX_PAGE_NUM] == [env.mapped.value]
  {}

  /** Pages come from the system exactly when nothing free is long enough, and then
      at least a full bucket's worth. */
  lemma AllocHoldsExactly(h: Heap, n: nat, env: Env)
    requires Valid(h) && EnvOk(h, n, env)
    ensures AllocHeap(h, n, env).0.held ==
            if 0 < n <= MAX_UINT32 && NeedsSystem(h, n) && !MappingFails(env)
            then h.held + PagesOf(env.osPage.value, Max(n, MAX_PAGE_NUM)) else h.held
  {
    if 0 < n <= MAX_PAGE_NUM { FitOf(h, n); }
  }

  /** Span `front` itself serves a request of n pages: it leaves its bucket. */
  ghost predicate TakenWhole(h: Heap, h': Heap, front: nat, n: nat, id: nat)
  {
    && id == front && n < |h.lists| && h.lists[n] != [] && h'.lists == h.lists[n := h.lists[n][1..]]
    && h'.spans.Keys == h.spans.Keys
  }

  /** The first n pages of span `front` serve it: the new span `id` has them, and `front`
      keeps its descriptor for the rest and goes first in the bucket of what is left. */
  ghost predicate TakenPart(h: Heap, h': Heap, front: nat, n: nat, id: nat)
  {
    && front in h.spans && id !in h.spans && h'.spans.Keys == h.spans.Keys + {id}
    && var was := h.spans[front];
       && n < was.pages < |h.lists| == |h'.lists| && h.lists[was.pages] != []
       && h'.spans[front] == was.(start := was.start + n, pages := was.pages - n, committed := true)
       && h'.lists[was.pages - n] == [front] + h.lists[was.pages - n]
       && h'.lists[was.pages] == h.lists[was.pages][1..]
  }

  /** Which pages are handed out: the first ones of the front span of the smallest
      sufficient bucket; every other span is as it was. */
  lemma SplitTakesSmallest(h: Heap, n: nat, env: Env)
    requires Valid(h) && EnvOk(h, n, env) && 0 < n <= MAX_PAGE_NUM && FirstFit(h.lists, n) <= MAX_PAGE_NUM
    ensures var (h', r) := AllocHeap(h, n, env);
            var front := h.lists[FirstFit(h.lists, n)][0];
            && front in h.spans && n <= h.spans[front].pages
            && (forall id: nat :: id in h.spans && !h.spans[id].used && h.spans[id].pages >= n ==>
                  h.spans[front].pages <= h.spans[id].pages)
            && (r.Some? ==> r.value in h'.spans && h'.spans[r.value].start == h.spans[front].start)
            && (r.Some? ==> h'.spans[r.value].committed && h'.spans[r.value].owner == h.spans[front].owner)
            && (r.Some? && h.spans[front].pages == n ==> TakenWhole(h, h', front, n, r.value))
            && (r.Some? && h.spans[front].pages > n ==> TakenPart(h, h', front, n, r.value) && r == env.split)
            && (forall id: nat :: id in h.spans && id != front ==> id in h'.spans && h'.spans[id] == h.spans[id])
  {
    FitOf(h, n);
  }

  /** When the system is asked, the pages handed out are the first of the mapping, and
      the rest of a full bucket's worth stays free. */
  lemma SystemServes(h: Heap, n: nat, env: Env)
    requires Valid(h) && EnvOk(h, n, env) && NeedsSystem(h, n) && !Refused(h, n, env)
    ensures var (h', r) := AllocHeap(h, n, env);
            && r.Some? && r.value in h'.spans && h'.spans[r.value].start == env.osPage.value
            && h'.spans[r.value].committed && h'.spans[r.value].pages == n
            && (n >= MAX_PAGE_NUM ==> r == env.mapped)
            && (n < MAX_PAGE_NUM ==>
                  && r == env.split && env.mapped.value in h'.spans
                  && h'.spans[env.mapped.value] ==
                     SpanRec(env.osPage.value + n, MAX_PAGE_NUM - n, false, true, 0, 0, 0))
            && (forall id: nat :: id in h.spans ==> id in h'.spans && h'.spans[id] == h.spans[id])
  {
    if n <= MAX_PAGE_NUM {
      FitOf(h, n);
      RefilledFit(h, n, env);
      AddMappingOk(h, env.osPage.value, MAX_PAGE_NUM, env.mapped.value, false);
    }
  }

  // ----------------------------------------- the stores of an allocation, in order

  /** A mapping from the system: its descriptor, its radix paths, then its leaves. A
      descriptor whose paths cannot be made goes back at once. */
  function MapOps(n: nat, env: Env): seq<Op>
  {
    if env.osPage.None? || env.mapped.None? then []
    else if !env.paths then [Create(env.mapped.value), Delete(env.mapped.value)]
    else [Create(env.mapped.value)] + StoreOps(env.osPage.value, n, env.mapped.value)
  }

  /** A split: the descriptor of the front part, its leaves, then those of the rest. */
  function SplitOps(r: SpanRec, n: nat, small: nat, big: nat): seq<Op>
    requires n <= r.pages
  {
    [Create(small)] + (StoreOps(r.start, n, small) + StoreOps(r.start + n, r.pages - n, big))
  }

  lemma SplitInOrder(a: seq<Op>, r: SpanRec, n: nat, small: nat, big: nat)
    requires n <= r.pages
    ensures a + [Create(small)] + StoreOps(r.start, n, small) + StoreOps(r.start + n, r.pages - n, big) ==
            a + SplitOps(r, n, small, big)
  {
    var x, y := StoreOps(r.start, n, small), StoreOps(r.start + n, r.pages - n, big);
    Assoc(a + [Create(small)], x, y);
    Assoc(a, [Create(small)], x + y);
  }

  ghost function ServeOps(h: Heap, n: nat, env: Env): seq<Op>
    requires Valid(h) && 0 < n <= MAX_PAGE_NUM && FirstFit(h.lists, n) <= MAX_PAGE_NUM
  {
    var f := FirstFit(h.lists, n);
    assert h.lists[f][0] in h.lists[f];
    if f == n || env.split.None? then [] else SplitOps(h.spans[h.lists[f][0]], n, env.split.value, h.lists[f][0])
  }

  /** Everything one `AllocSpanLocked` call stores. */
  ghost function AllocOps(h: Heap, n: nat, env: Env): seq<Op>
    requires Valid(h) && EnvOk(h, n, env)
  {
    if n == 0 || n > MAX_UINT32 then []
    else if n > MAX_PAGE_NUM then MapOps(n, env)
    else if FirstFit(h.lists, n) <= MAX_PAGE_NUM then ServeOps(h, n, env)
    else if !Maps(env) then MapOps(MAX_PAGE_NUM, env)
    else
      AddMappingOk(h, env.osPage.value, MAX_PAGE_NUM, env.mapped.value, false);
      MapOps(MAX_PAGE_NUM, env) + ServeOps(Refilled(h, env), n, env)
  }

  /** The stores lead from heap h to h', no leaf names a dead descriptor in between,
      and no leaf of a page of a used span is written, except where span `id` is
      being released. */
  ghost predicate Orderly(h: Heap, h': Heap, ops: seq<Op>, id: Option<nat>)
  {
    && AlwaysLive(ViewOf(h), ops) && Play(ViewOf(h), ops) == ViewOf(h')
    && forall u: nat, p: nat {:trigger Covers(h.spans[u], p)} ::
         u in h.spans && h.spans[u].used && id != Some(u) && Covers(h.spans[u], p) ==> Avoids(ops, p)
  }

  lemma ValidNamesLive(h: Heap)
    requires Valid(h)
    ensures NamesLive(ViewOf(h))
  {}

  lemma Created(v: View, id: nat, ops: seq<Op>)
    requires NamesLive(v) && id !in v.live && AlwaysLive(Do(v, Create(id)), ops)
    ensures AlwaysLive(v, [Create(id)] + ops) && Play(v, [Create(id)] + ops) == Play(Do(v, Create(id)), ops)
  {
    assert ([Create(id)] + ops)[1..] == ops;
  }

  lemma MapOrderly(h: Heap, n: nat, env: Env, used: bool)
    requires Valid(h) && n > 0 && (!used ==> n < |h.lists|) && (env.mapped.Some? ==> env.mapped.value !in h.spans)
    requires env.osPage.Some? ==> PagesOf(env.osPage.value, n) !! h.held
    ensures var h' := if Maps(env) then AddMapping(h, env.osPage.value, n, env.mapped.value, used) else h;
            Orderly(h, h', MapOps(n, env), None)
  {
    ValidNamesLive(h);
    if env.osPage.Some? && env.mapped.Some? {
      var v, id, start := ViewOf(h), env.mapped.value, env.osPage.value;
      if env.paths {
        var v' := Do(v, Create(id));
        Stores(v', start, n, id);
        Created(v, id, StoreOps(start, n, id));
        MapAvoids(h, start, n, id);
      } else {
        assert [Create(id), Delete(id)] == [Create(id)] + [Delete(id)];
        assert Do(Do(v, Create(id)), Delete(id)) == v;
        Created(v, id, [Delete(id)]);
      }
    }
  }

  lemma MapAvoids(h: Heap, start: nat, n: nat, id: nat)
    requires Valid(h) && PagesOf(start, n) !! h.held
    ensures forall u: nat, p: nat {:trigger Covers(h.spans[u], p)} ::
              u in h.spans && Covers(h.spans[u], p) ==> Avoids([Create(id)] + StoreOps(start, n, id), p)
  {
    forall u: nat, p: nat | u in h.spans && Covers(h.spans[u], p)
      ensures Avoids([Create(id)] + StoreOps(start, n, id), p)
    {
      LookupExact(h, p);
      assert p !in PagesOf(start, n);
    }
  }

  lemma SplitOrderly(h: Heap, i: nat, n: nat, small: nat)
    requires Valid(h) && CanSplit(h, i, n, small)
    ensures Orderly(h, SplitFront(h, i, n, small), SplitOps(h.spans[h.lists[i][0]], n, small, h.lists[i][0]), None)
  {
    ValidNamesLive(h);
    SplitStores(h, i, n, small);
    SplitAvoids(h, i, n, small);
  }

  lemma SplitStores(h: Heap, i: nat, n: nat, small: nat)
    requires NamesLive(ViewOf(h)) && CanSplit(h, i, n, small)
    ensures var ops := SplitOps(h.spans[h.lists[i][0]], n, small, h.lists[i][0]);
            AlwaysLive(ViewOf(h), ops) && Play(ViewOf(h), ops) == ViewOf(SplitFront(h, i, n, small))
  {
    var big := h.lists[i][0];
    SplitPlays(ViewOf(h), h.spans[big], n, small, big);
    SplitView(h, i, n, small);
  }

  lemma SplitView(h: Heap, i: nat, n: nat, small: nat)
    requires CanSplit(h, i, n, small)
    ensures var big := h.lists[i][0];
            var r := h.spans[big];
            ViewOf(SplitFront(h, i, n, small)) ==
            View(MapRange(MapRange(h.pageMap, r.start, n, small), r.start + n, r.pages - n, big),
                 h.spans.Keys + {small})
  {
    assert SplitFront(h, i, n, small).spans.Keys == h.spans.Keys + {small};
  }

  lemma SplitPlays(v: View, r: SpanRec, n: nat, small: nat, big: nat)
    requires NamesLive(v) && small !in v.live && big in v.live && n <= r.pages
    ensures AlwaysLive(v, SplitOps(r, n, small, big))
    ensures Play(v, SplitOps(r, n, small, big)) ==
            View(MapRange(MapRange(v.leaf, r.start, n, small), r.start + n, r.pages - n, big), v.live + {small})
  {
    StoresTwice(Do(v, Create(small)), r.start, n, small, r.start + n, r.pages - n, big);
    Created(v, small, StoreOps(r.start, n, small) + StoreOps(r.start + n, r.pages - n, big));
  }

  lemma StoresTwice(v: View, x: nat, n: nat, a: nat, y: nat, m: nat, b: nat)
    requires NamesLive(v) && a in v.live && b in v.live
    ensures var ops := StoreOps(x, n, a) + StoreOps(y, m, b);
            AlwaysLive(v, ops) && Play(v, ops) == View(MapRange(MapRange(v.leaf, x, n, a), y, m, b), v.live)
  {
    Stores(v, x, n, a);
    var w := Play(v, StoreOps(x, n, a));
    AfterAll(v, StoreOps(x, n, a));
    Stores(w, y, m, b);
    LiveJoin(v, StoreOps(x, n, a), StoreOps(y, m, b));
    PlayJoin(v, StoreOps(x, n, a), StoreOps(y, m, b));
  }

  lemma AfterAll(v: View, a: seq<Op>)
    requires AlwaysLive(v, a)
    ensures NamesLive(Play(v, a))
  {
    assert a + [] == a;
    AfterPrefix(v, a, []);
  }

  lemma SplitAvoids(h: Heap, i: nat, n: nat, small: nat)
    requires Valid(h) && CanSplit(h, i, n, small)
    ensures var big := h.lists[i][0];
            forall u: nat, p: nat {:trigger Covers(h.spans[u], p)} ::
              u in h.spans && h.spans[u].used && Covers(h.spans[u], p) ==>
              Avoids(SplitOps(h.spans[big], n, small, big), p)
  {
    var big := h.lists[i][0];
    assert big in h.lists[i] && !h.spans[big].used;
    forall u: nat, p: nat | u in h.spans && h.spans[u].used && Covers(h.spans[u], p)
      ensures Avoids(SplitOps(h.spans[big], n, small, big), p)
    {
      LookupExact(h, p);
      assert !Covers(h.spans[big], p);
    }
  }

  lemma ServeOrderly(h: Heap, n: nat, env: Env)
    requires Valid(h) && 0 < n <= MAX_PAGE_NUM && FirstFit(h.lists, n) <= MAX_PAGE_NUM
    requires env.split.Some? ==> env.split.value !in h.spans
    ensures Orderly(h, Serve(h, n, env).0, ServeOps(h, n, env), None)
  {
    ValidNamesLive(h);
    var f := FirstFit(h.lists, n);
    assert h.lists[f][0] in h.lists[f];
    if f == n {
      assert TakeExact(h, n).spans.Keys == h.spans.Keys;
    } else if env.split.Some? {
      SplitOrderly(h, f, n, env.split.value);
    }
  }

  lemma OrderlyTwice(h: Heap, m: Heap, h': Heap, a: seq<Op>, b: seq<Op>)
    requires Orderly(h, m, a, None) && Orderly(m, h', b, None)
    requires forall u: nat :: u in h.spans && h.spans[u].used ==> u in m.spans && m.spans[u] == h.spans[u]
    ensures Orderly(h, h', a + b, None)
  {
    LiveJoin(ViewOf(h), a, b);
    PlayJoin(ViewOf(h), a, b);
    forall u: nat, p: nat | u in h.spans && h.spans[u].used && Covers(h.spans[u], p)
      ensures Avoids(a + b, p)
    {
      assert Covers(m.spans[u], p);
    }
  }

  /** An allocation, whatever fails, at every single store. */
  lemma AllocOrderly(h: Heap, n: nat, env: Env)
    requires Valid(h) && EnvOk(h, n, env)
    ensures Orderly(h, AllocHeap(h, n, env).0, AllocOps(h, n, env), None)
  {
    ValidNamesLive(h);
    if n == 0 || n > MAX_UINT32 {
    } else if n > MAX_PAGE_NUM {
      MapOrderly(h, n, env, true);
    } else if FirstFit(h.lists, n) <= MAX_PAGE_NUM {
      ServeOrderly(h, n, env);
    } else {
      MapOrderly(h, MAX_PAGE_NUM, env, false);
      if Maps(env) {
        AddMappingOk(h, env.osPage.value, MAX_PAGE_NUM, env.mapped.value, false);
        ServeOrderly(Refilled(h, env), n, env);
        OrderlyTwice(h, Refilled(h, env), AllocHeap(h, n, env).0, MapOps(MAX_PAGE_NUM, env),
                     ServeOps(Refilled(h, env), n, env));
      }
    }
  }

  /** The two turns of the loop of `AllocSpanLocked`: the heap each is served from,
      and what was stored before. */
  ghost predicate CanServe(h: Heap, n: nat, env: Env, refilled: bool)
  {
    && |h.lists| == MAX_PAGE_NUM + 1 && 0 < n <= MAX_PAGE_NUM
    && (refilled ==> Maps(env) && FirstFit(h.lists, n) > MAX_PAGE_NUM)
  }

  ghost function ServedFrom(h: Heap, env: Env, refilled: bool): Heap
    requires |h.lists| == MAX_PAGE_NUM + 1 && (refilled ==> Maps(env))
  {
    if refilled then Refilled(h, env) else h
  }

  function StoredFirst(env: Env, refilled: bool): seq<Op> { if refilled then MapOps(MAX_PAGE_NUM, env) else [] }

  lemma ServesAlloc(a: seq<Op>, h: Heap, n: nat, env: Env, refilled: bool)
    requires Valid(h) && EnvOk(h, n, env) && CanServe(h, n, env, refilled)
    ensures var m := ServedFrom(h, env, refilled);
            && Valid(m) && (env.split.Some? ==> env.split.value !in m.spans)
            && if FirstFit(m.lists, n) <= MAX_PAGE_NUM then
                 && AllocHeap(h, n, env) == Serve(m, n, env)
                 && a + AllocOps(h, n, env) == a + StoredFirst(env, refilled) + ServeOps(m, n, env)
               else
                 && !refilled
                 && (!Maps(env) ==>
                       AllocHeap(h, n, env) == (h, None) && AllocOps(h, n, env) == MapOps(MAX_PAGE_NUM, env))
  {
    if refilled {
      AddMappingOk(h, env.osPage.value, MAX_PAGE_NUM, env.mapped.value, false);
      Assoc(a, MapOps(MAX_PAGE_NUM, env), ServeOps(Refilled(h, env), n, env));
    } else {
      assert a + [] == a;
    }
  }

  // -------------------------------------------------------------------- release

  ghost predicate LeftClosed(h: Heap, id: nat)
  {
    id in h.spans && (h.spans[id].start > 0 ==> !CanMerge(h, id, h.spans[id].start - 1))
  }

  /** Neither neighbour of span `id` can be merged with it under the cap. */
  ghost predicate Settled(h: Heap, id: nat)
  {
    LeftClosed(h, id) && !CanMerge(h, id, h.spans[id].start + h.spans[id].pages)
  }

  /** Span `id` has grown left to `start` and stopped there before it took anything
      on its right: the next free span on the left was already too long. */
  ghost predicate LeftFirst(h0: Heap, id: nat, start: nat)
  {
    && id in h0.spans
    && forall x: nat ::
         x in h0.spans && x != id && !h0.spans[x].used && h0.spans[x].start + h0.spans[x].pages == start ==>
         h0.spans[id].start + h0.spans[id].pages - start + h0.spans[x].pages > MAX_PAGE_NUM
  }

  lemma ClosedLeftFirst(h0: Heap, h: Heap, id: nat, retired: set<nat>)
    requires Merging(h0, h, id, retired) && LeftClosed(h, id)
    requires h.spans[id].start + h.spans[id].pages == h0.spans[id].start + h0.spans[id].pages
    ensures LeftFirst(h0, id, h.spans[id].start)
  {
    forall x: nat | x in h0.spans && x != id && !h0.spans[x].used
                    && h0.spans[x].start + h0.spans[x].pages == h.spans[id].start
      ensures h.spans[id].pages + h0.spans[x].pages > MAX_PAGE_NUM
    {
      assert Within(h.spans[id].start - 1, h0.spans[x].start, h0.spans[x].pages);
    }
  }

  /** Growing to the right cannot make the left neighbour mergeable. */
  lemma MergeRightStep(h0: Heap, h: Heap, id: nat, retired: set<nat>, p: nat)
    requires Merging(h0, h, id, retired) && LeftClosed(h, id)
    requires CanMerge(h, id, p) && p == h.spans[id].start + h.spans[id].pages
    ensures h.pageMap[p] in h.spans && h.spans[h.pageMap[p]].pages < |h.lists|
    ensures var h' := Absorb(h, id, h.pageMap[p]);
            && Merging(h0, h', id, retired + {h.pageMap[p]}) && LeftClosed(h', id)
            && h'.spans[id].pages > h.spans[id].pages && h'.spans[id].start == h.spans[id].start
  {
    AbsorbOk(h0, h, id, retired, p);
    AbsorbGrows(h0, h, id, retired, p);
    StaysClosed(h, Absorb(h, id, h.pageMap[p]), id);
  }

  lemma StaysClosed(h: Heap, h': Heap, id: nat)
    requires LeftClosed(h, id) && id in h'.spans && h'.pageMap == h.pageMap
    requires h'.spans == h.spans[id := h.spans[id].(pages := h'.spans[id].pages)]
    requires h'.spans[id].pages >= h.spans[id].pages
    ensures LeftClosed(h', id)
  {}

  /** Settling survives the final bookkeeping of a release. */
  lemma SettledCoalesced(h0: Heap, h: Heap, id: nat, retired: set<nat>)
    requires Merging(h0, h, id, retired) && Settled(h, id)
    ensures h.spans[id].pages < |h.lists| && Settled(Coalesced(h, id, retired), id)
  {
    SettledAfter(h0, h, id, retired);
  }

  lemma SettledAfter(h0: Heap, h: Heap, id: nat, retired: set<nat>)
    requires MapOk(h0) && Grown(h0, h, id) && h.spans[id].pages < |h.lists| && id !in retired && Settled(h, id)
    ensures Settled(Coalesced(h, id, retired), id)
  {
    var r := h.spans[id];
    if r.start > 0 { SameGuard(h0, h, id, retired, r.start - 1); }
    SameGuard(h0, h, id, retired, r.start + r.pages);
  }

  lemma SameGuard(h0: Heap, h: Heap, id: nat, retired: set<nat>, p: nat)
    requires MapOk(h0) && Grown(h0, h, id) && h.spans[id].pages < |h.lists| && id !in retired
    requires !Within(p, h.spans[id].start, h.spans[id].pages) && !CanMerge(h, id, p)
    ensures !CanMerge(Coalesced(h, id, retired), id, p)
  {
    assert !Within(p, h0.spans[id].start, h0.spans[id].pages);
  }
  /** The stores that end a release: every leaf of the grown span first, then the
      absorbed descriptors go back to the pool. */
  function CoalesceOps(r: SpanRec, id: nat, retired: seq<nat>): seq<Op>
  {
    StoreOps(r.start, r.pages, id) + DeleteOps(retired)
  }

  /** One `ReleaseSpanLocked` call and its stores: an oversized span goes back to the
      system; any other grows over its free neighbours until neither side can be
      merged, and ends free and listed by its final length. */
  ghost predicate ReleasesBy(h: Heap, h': Heap, id: nat, ops: seq<Op>)
  {
    && id in h.spans && h.spans[id].used
    && (h.spans[id].pages > MAX_PAGE_NUM ==>
          h' == DropOversized(h, id) && ops == ClearOps(h.spans[id].start, h.spans[id].pages) + [Delete(id)])
    && (h.spans[id].pages <= MAX_PAGE_NUM ==> exists m: Heap, retired: seq<nat> :: MergedTo(h, m, id, retired, h', ops))
  }

  ghost predicate MergedTo(h: Heap, m: Heap, id: nat, retired: seq<nat>, h': Heap, ops: seq<Op>)
  {
    && Merging(h, m, id, Members(retired)) && NoDup(retired) && Settled(m, id)
    && LeftFirst(h, id, m.spans[id].start)
    && m.spans[id].pages < |m.lists| && h' == Coalesced(m, id, Members(retired))
    && ops == CoalesceOps(m.spans[id], id, retired)
  }

  ghost predicate Releases(h: Heap, h': Heap, id: nat) { exists ops: seq<Op> :: ReleasesBy(h, h', id, ops) }

  lemma ReleasesOk(h: Heap, h': Heap, id: nat)
    requires Valid(h) && Releases(h, h', id)
    ensures Valid(h') && Used(h') == Used(h) - {id}
    ensures h.spans[id].pages <= MAX_PAGE_NUM ==>
              h'.held == h.held && id in h'.spans && !h'.spans[id].used && Settled(h', id)
  {
    var ops :| ReleasesBy(h, h', id, ops);
    ReleasesByOk(h, h', id, ops);
  }

  lemma ReleasesByOk(h: Heap, h': Heap, id: nat, ops: seq<Op>)
    requires Valid(h) && ReleasesBy(h, h', id, ops)
    ensures Valid(h') && Used(h') == Used(h) - {id}
    ensures h.spans[id].pages <= MAX_PAGE_NUM ==>
              h'.held == h.held && id in h'.spans && !h'.spans[id].used && Settled(h', id)
  {
    if h.spans[id].pages > MAX_PAGE_NUM {
      DropOversizedOk(h, id);
    } else {
      var m, retired :| MergedTo(h, m, id, retired, h', ops);
      CoalescedOk(h, m, id, Members(retired));
      SettledCoalesced(h, m, id, Members(retired));
    }
  }

  /** What a release leaves, in terms of the spans there were and are: the released
      span is free, committed, carries no objects and comes first in its bucket; it
      covers what it covered and the absorbed spans, which were free; every other
      span is as it was; the left side was merged first; and no free neighbour fits
      under the cap any more. */
  ghost predicate ReleasedInto(h: Heap, h': Heap, id: nat)
  {
    && id in h.spans && id in h'.spans
    && var was, now := h.spans[id], h'.spans[id];
       && !now.used && now.committed && now.objSize == 0 && now.start <= was.start
       && was.start + was.pages <= now.start + now.pages
       && now.pages < |h'.lists| && h'.lists[now.pages] != [] && h'.lists[now.pages][0] == id
       && (forall x: nat :: x in h'.spans && x != id ==> x in h.spans && h'.spans[x] == h.spans[x])
       && (forall x: nat :: x in h.spans && x !in h'.spans ==>
             && !h.spans[x].used && now.start <= h.spans[x].start
             && h.spans[x].start + h.spans[x].pages <= now.start + now.pages)
       && LeftFirst(h, id, now.start)
       && (forall x: nat :: x in h'.spans && x != id && !h'.spans[x].used && Adjacent(now, h'.spans[x]) ==>
             now.pages + h'.spans[x].pages > MAX_PAGE_NUM)
  }

  predicate Adjacent(a: SpanRec, b: SpanRec) { a.start + a.pages == b.start || b.start + b.pages == a.start }

  /** A settled span has no free neighbour that fits, by the spans themselves. */
  lemma SettledAdjacent(h: Heap, id: nat)
    requires Valid(h) && Settled(h, id)
    ensures forall x: nat :: x in h.spans && x != id && !h.spans[x].used && Adjacent(h.spans[id], h.spans[x]) ==>
              h.spans[id].pages + h.spans[x].pages > MAX_PAGE_NUM
  {
    var r := h.spans[id];
    forall x: nat | x in h.spans && x != id && !h.spans[x].used && Adjacent(r, h.spans[x])
      ensures r.pages + h.spans[x].pages > MAX_PAGE_NUM
    {
      var p := if r.start + r.pages == h.spans[x].start then r.start + r.pages else r.start - 1;
      assert Within(p, h.spans[x].start, h.spans[x].pages);
    }
  }

  lemma ReleaseAnswer(h: Heap, h': Heap, id: nat)
    requires Valid(h) && Releases(h, h', id) && h.spans[id].pages <= MAX_PAGE_NUM
    ensures ReleasedInto(h, h', id)
  {
    ReleasesOk(h, h', id);
    SettledAdjacent(h', id);
    var ops :| ReleasesBy(h, h', id, ops);
    var m, retired :| MergedTo(h, m, id, retired, h', ops);
    CoalescedInto(h, m, id, Members(retired));
  }

  lemma CoalescedInto(h0: Heap, h: Heap, id: nat, retired: set<nat>)
    requires Merging(h0, h, id, retired) && h.spans[id].pages < |h.lists|
    ensures var h' := Coalesced(h, id, retired);
            var was, now := h0.spans[id], h'.spans[id];
            && !now.used && now.committed && now.objSize == 0 && now.start <= was.start
            && was.start + was.pages <= now.start + now.pages && now.start == h.spans[id].start
            && h'.lists[now.pages] != [] && h'.lists[now.pages][0] == id
            && (forall x: nat :: x in h'.spans && x != id ==> x in h0.spans && h'.spans[x] == h0.spans[x])
            && (forall x: nat :: x in h0.spans && x !in h'.spans ==>
                  && !h0.spans[x].used && now.start <= h0.spans[x].start
                  && h0.spans[x].start + h0.spans[x].pages <= now.start + now.pages)
  {}

  /** Once the leaves are rewritten no leaf names an absorbed descriptor. */
  lemma RewrittenNamesSurvivor(h0: Heap, h: Heap, id: nat, retired: set<nat>)
    requires MapOk(h0) && Grown(h0, h, id) && Retired(h0, h, id, retired)
    ensures var m := MapRange(h.pageMap, h.spans[id].start, h.spans[id].pages, id);
            forall p: nat :: p in m ==> m[p] !in retired
  {
    var r := h.spans[id];
    forall p: nat | p in h.pageMap && !Within(p, r.start, r.pages)
      ensures h.pageMap[p] !in retired
    {
      var x := h0.pageMap[p];
      assert Within(p, h0.spans[x].start, h0.spans[x].pages);
    }
  }

  lemma CoalesceOrderly(h0: Heap, h: Heap, id: nat, retired: seq<nat>)
    requires Merging(h0, h, id, Members(retired)) && NoDup(retired) && h.spans[id].pages < |h.lists|
    ensures Orderly(h0, Coalesced(h, id, Members(retired)), CoalesceOps(h.spans[id], id, retired), Some(id))
  {
    ValidNamesLive(h0);
    var v, r := ViewOf(h0), h.spans[id];
    assert h.spans.Keys == h0.spans.Keys;
    var a := StoreOps(r.start, r.pages, id);
    Stores(v, r.start, r.pages, id);
    AfterAll(v, a);
    RewrittenNamesSurvivor(h0, h, id, Members(retired));
    assert Members(retired) <= v.live;
    Deletes(Play(v, a), retired);
    LiveJoin(v, a, DeleteOps(retired));
    PlayJoin(v, a, DeleteOps(retired));
    assert Coalesced(h, id, Members(retired)).spans.Keys == v.live - Members(retired);
    CoalesceAvoids(h0, h, id, retired);
  }

  lemma CoalesceAvoids(h0: Heap, h: Heap, id: nat, retired: seq<nat>)
    requires Merging(h0, h, id, Members(retired))
    ensures forall u: nat, p: nat {:trigger Covers(h0.spans[u], p)} ::
              u in h0.spans && h0.spans[u].used && u != id && Covers(h0.spans[u], p) ==>
              Avoids(CoalesceOps(h.spans[id], id, retired), p)
  {
    forall u: nat, p: nat | u in h0.spans && h0.spans[u].used && u != id && Covers(h0.spans[u], p)
      ensures Avoids(CoalesceOps(h.spans[id], id, retired), p)
    {
      LookupExact(h0, p);
      assert !Within(p, h.spans[id].start, h.spans[id].pages);
    }
  }

  lemma DropOrderly(h: Heap, id: nat)
    requires Valid(h) && id in h.spans && h.spans[id].used
    ensures Orderly(h, DropOversized(h, id), ClearOps(h.spans[id].start, h.spans[id].pages) + [Delete(id)], Some(id))
  {
    ValidNamesLive(h);
    var v, r := ViewOf(h), h.spans[id];
    var a := ClearOps(r.start, r.pages);
    Clears(v, r.start, r.pages);
    AfterAll(v, a);
    DropOversizedOk(h, id);
    ValidNamesLive(DropOversized(h, id));
    assert DropOversized(h, id).spans.Keys == v.live - {id};
    assert AlwaysLive(Play(v, a), [Delete(id)]);
    LiveJoin(v, a, [Delete(id)]);
    PlayJoin(v, a, [Delete(id)]);
    forall u: nat, p: nat | u in h.spans && u != id && Covers(h.spans[u], p)
      ensures Avoids(a + [Delete(id)], p)
    {
      LookupExact(h, p);
      assert !Covers(h.spans[id], p);
    }
  }

  /** A release at every single leaf store and every single deletion: each mapped
      page names a live descriptor, and the leaves of other used spans stand. */
  lemma ReleaseOrderly(h: Heap, h': Heap, id: nat, ops: seq<Op>)
    requires Valid(h) && ReleasesBy(h, h', id, ops)
    ensures Orderly(h, h', ops, Some(id))
  {
    if h.spans[id].pages > MAX_PAGE_NUM {
      DropOrderly(h, id);
    } else {
      var m, retired :| MergedTo(h, m, id, retired, h', ops);
      CoalesceOrderly(h, m, id, retired);
    }
  }

  // ---- a release can always be carried out

  lemma {:induction false} MergesLeft(h0: Heap, h: Heap, id: nat, retired: seq<nat>) returns (m: Heap, q: seq<nat>)
    requires Merging(h0, h, id, Members(retired)) && NoDup(retired)
    requires h.spans[id].start + h.spans[id].pages == h0.spans[id].start + h0.spans[id].pages
    ensures Merging(h0, m, id, Members(q)) && NoDup(q) && LeftClosed(m, id) && LeftFirst(h0, id, m.spans[id].start)
    decreases h.spans[id].start
  {
    if LeftClosed(h, id) {
      m, q := h, retired;
      ClosedLeftFirst(h0, h, id, Members(retired));
    } else {
      var p := h.spans[id].start - 1;
      var x := h.pageMap[p];
      AbsorbOk(h0, h, id, Members(retired), p);
      AbsorbGrows(h0, h, id, Members(retired), p);
      NeighbourFits(h0, h, id, Members(retired), p);
      RetireMore(retired, x);
      m, q := MergesLeft(h0, Absorb(h, id, x), id, [x] + retired);
    }
  }

  lemma {:induction false} MergesRight(h0: Heap, h: Heap, id: nat, retired: seq<nat>) returns (m: Heap, q: seq<nat>)
    requires Merging(h0, h, id, Members(retired)) && NoDup(retired) && LeftClosed(h, id)
    ensures Merging(h0, m, id, Members(q)) && NoDup(q) && Settled(m, id) && m.spans[id].start == h.spans[id].start
    decreases MAX_PAGE_NUM - h.spans[id].pages
  {
    if Settled(h, id) {
      m, q := h, retired;
    } else {
      var p := h.spans[id].start + h.spans[id].pages;
      var x := h.pageMap[p];
      MergeRightStep(h0, h, id, Members(retired), p);
      NeighbourFits(h0, h, id, Members(retired), p);
      RetireMore(retired, x);
      m, q := MergesRight(h0, Absorb(h, id, x), id, [x] + retired);
    }
  }

  lemma ReleaseExists(h: Heap, id: nat) returns (h': Heap, ops: seq<Op>)
    requires Valid(h) && id in h.spans && h.spans[id].used
    ensures ReleasesBy(h, h', id, ops)
  {
    if h.spans[id].pages > MAX_PAGE_NUM {
      h', ops := DropOversized(h, id), ClearOps(h.spans[id].start, h.spans[id].pages) + [Delete(id)];
    } else {
      MergeStarts(h, id);
      assert Members([]) == {};
      var m, q := MergesLeft(h, h, id, []);
      m, q := MergesRight(h, m, id, q);
      CoalescedOk(h, m, id, Members(q));
      h', ops := Coalesced(m, id, Members(q)), CoalesceOps(m.spans[id], id, q);
      assert MergedTo(h, m, id, q, h', ops);
    }
  }

  lemma RetireMore(retired: seq<nat>, x: nat)
    requires NoDup(retired) && x !in Members(retired)
    ensures NoDup([x] + retired) && Members([x] + retired) == Members(retired) + {x}
  {
    PushMembers(retired, x);
  }

  lemma MapLast(m: map<nat, nat>, start: nat, n: nat, id: nat)
    ensures MapRange(m, start, n + 1, id) == MapRange(m, start, n, id)[start + n := id]
  {
    var m' := MapRange(m, start, n, id)[start + n := id];
    assert forall p: nat :: p in m' <==> p in m || Within(p, start, n + 1);
  }

  lemma UnmapLast(m: map<nat, nat>, start: nat, n: nat)
    ensures UnmapRange(m, start, n + 1) == UnmapRange(m, start, n) - {start + n}
  {
    assert forall p: nat :: Within(p, start, n + 1) <==> Within(p, start, n) || p == start + n;
  }

  // ------------------------------------------------------------- the scavenger

  /** The heap after some free spans of bucket i were detached: they alone joined
      the used spans, with the extent and fields they had. */
  ghost predicate Detached(h: Heap, h': Heap, i: nat, taken: seq<nat>)
  {
    && NoDup(taken)
    && (forall x: nat :: x in taken ==>
          && x in h.spans && !h.spans[x].used && h.spans[x].committed && h.spans[x].pages == i
          && x in h'.spans && h'.spans[x] == h.spans[x].(used := true))
    && (forall x: nat :: x in h.spans ==> x in h'.spans && (x !in taken ==> h'.spans[x] == h.spans[x]))
    && (forall x: nat :: x in h'.spans ==> x in h.spans)
    && h'.pageMap == h.pageMap && h'.held == h.held
  }

  /** The spans a pass is to take: free, committed and idle. */
  predicate Ripe(spans: map<nat, SpanRec>, idle: set<nat>, x: nat)
  {
    x in spans && !spans[x].used && spans[x].committed && x in idle
  }

  /** The ripe spans of a bucket, in its order, and the others. */
  function Sifted(spans: map<nat, SpanRec>, idle: set<nat>, q: seq<nat>, ripe: bool): seq<nat>
  {
    if q == [] then []
    else
      var x := q[|q| - 1];
      Sifted(spans, idle, q[..|q| - 1], ripe) + if Ripe(spans, idle, x) == ripe then [x] else []
  }

  /** Erasing the element at a position of a list without repetition. */
  lemma {:induction false} EraseAt(q: seq<nat>, k: nat)
    requires k < |q| && NoDup(q)
    ensures Erase(q, q[k]) == q[..k] + q[k + 1..]
  {
    if k > 0 {
      PopMembers(q);
      EraseAt(q[1..], k - 1);
      assert q[..k] == [q[0]] + q[1..][..k - 1];
    }
  }

  lemma ErasedLess(q: seq<nat>, k: nat)
    requires k < |q| && NoDup(q)
    ensures |Erase(q, q[k])| == |q| - 1
  {
    EraseAt(q, k);
  }

  /** A pass over bucket q that is through with its first m spans: `now` is what the
      bucket has become, with the cursor at k. */
  ghost predicate Sifting(spans: map<nat, SpanRec>, idle: set<nat>, q: seq<nat>, m: nat, now: seq<nat>,
                          taken: seq<nat>, k: nat)
  {
    && m <= |q| && taken == Sifted(spans, idle, q[..m], true)
    && now == Sifted(spans, idle, q[..m], false) + q[m..] && k == |Sifted(spans, idle, q[..m], false)|
  }

  lemma SiftStarts(spans: map<nat, SpanRec>, idle: set<nat>, q: seq<nat>)
    ensures Sifting(spans, idle, q, 0, q, [], 0)
  {
    assert q[..0] == [] && [] + q[0..] == q;
  }

  lemma SiftNext(spans: map<nat, SpanRec>, idle: set<nat>, q: seq<nat>, m: nat, now: seq<nat>, taken: seq<nat>, k: nat)
    requires Sifting(spans, idle, q, m, now, taken, k) && k < |now| && NoDup(now)
    ensures if Ripe(spans, idle, now[k]) then Sifting(spans, idle, q, m + 1, Erase(now, now[k]), taken + [now[k]], k)
            else Sifting(spans, idle, q, m + 1, now, taken, k + 1)
  {
    var left := Sifted(spans, idle, q[..m], false);
    assert m < |q|;
    SiftOne(spans, idle, q, m, true);
    SiftOne(spans, idle, q, m, false);
    SiftCursor(left, q, m);
  }

  /** The cursor is at span m: erasing it closes the gap, passing it lengthens what
      was passed. */
  lemma SiftCursor(left: seq<nat>, q: seq<nat>, m: nat)
    requires m < |q| && NoDup(left + q[m..])
    ensures (left + q[m..])[|left|] == q[m] && Erase(left + q[m..], q[m]) == left + q[m + 1..]
    ensures left + q[m..] == left + [q[m]] + q[m + 1..] && left + [] == left
  {
    Middle(left, q, m);
    EraseAt(left + q[m..], |left|);
  }

  lemma SiftOne(spans: map<nat, SpanRec>, idle: set<nat>, q: seq<nat>, m: nat, ripe: bool)
    requires m < |q|
    ensures Sifted(spans, idle, q[..m + 1], ripe) ==
            Sifted(spans, idle, q[..m], ripe) + if Ripe(spans, idle, q[m]) == ripe then [q[m]] else []
  {
    assert q[..m + 1][..m] == q[..m];
  }

  lemma Middle(left: seq<nat>, q: seq<nat>, m: nat)
    requires m < |q|
    ensures var now := left + q[m..];
            && now[|left|] == q[m] && now[..|left|] + now[|left| + 1..] == left + q[m + 1..]
            && now == left + [q[m]] + q[m + 1..]
  {}

  lemma SiftEnds(spans: map<nat, SpanRec>, idle: set<nat>, q: seq<nat>, m: nat, now: seq<nat>, taken: seq<nat>, k: nat)
    requires Sifting(spans, idle, q, m, now, taken, k) && k == |now|
    ensures taken == Sifted(spans, idle, q, true) && now == Sifted(spans, idle, q, false)
  {
    assert q[m..] == [] && q[..m] == q;
    assert now == Sifted(spans, idle, q[..m], false);
  }

  /** A span still in the bucket has the record it had. */
  lemma SameRipe(h: Heap, h': Heap, i: nat, taken: seq<nat>, idle: set<nat>, x: nat)
    requires Valid(h') && Detached(h, h', i, taken) && i < |h'.lists| && x in h'.lists[i]
    ensures Ripe(h'.spans, idle, x) == Ripe(h.spans, idle, x)
  {
    assert x !in taken;
  }

  /** One step of the cursor, in terms of the records the pass began with. */
  lemma SiftTurn(h: Heap, h': Heap, i: nat, idle: set<nat>, m: nat, taken: seq<nat>, k: nat)
    requires Valid(h') && Detached(h, h', i, taken) && i < |h.lists| && i < |h'.lists| && k < |h'.lists[i]|
    requires Sifting(h.spans, idle, h.lists[i], m, h'.lists[i], taken, k)
    ensures var now := h'.lists[i];
            if Ripe(h'.spans, idle, now[k])
            then && |Erase(now, now[k])| == |now| - 1
                 && Sifting(h.spans, idle, h.lists[i], m + 1, Erase(now, now[k]), taken + [now[k]], k)
            else Sifting(h.spans, idle, h.lists[i], m + 1, now, taken, k + 1)
  {
    var now := h'.lists[i];
    assert now[k] in now;
    SiftNext(h.spans, idle, h.lists[i], m, now, taken, k);
    SameRipe(h, h', i, taken, idle, now[k]);
    ErasedLess(now, k);
  }

  lemma DetachedMore(h: Heap, h': Heap, i: nat, taken: seq<nat>, id: nat)
    requires Valid(h') && Detached(h, h', i, taken) && i < |h'.lists| && id in h'.lists[i] && h'.spans[id].committed
    ensures id in h'.spans && h'.spans[id].pages == i && !h'.spans[id].used
    ensures Valid(DetachOne(h', id)) && Detached(h, DetachOne(h', id), i, taken + [id])
  {
    assert id in h'.spans;
    assert id !in taken;
    DetachOneOk(h', id);
    PushMembers(taken, id);
  }

  /** The heap after the spans in `taken` were returned to bucket i. */
  ghost predicate Returned(h: Heap, h': Heap, i: nat, taken: seq<nat>)
  {
    && i < |h.lists| && h'.lists == h.lists[i := h.lists[i] + taken]
    && (forall x: nat :: x in h.spans <==> x in h'.spans)
    && (forall x: nat :: x in h.spans ==>
          h'.spans[x] == if x in taken then h.spans[x].(used := false) else h.spans[x])
    && h'.pageMap == h.pageMap && h'.held == h.held
  }

  lemma ReturnedMore(h: Heap, h': Heap, i: nat, taken: seq<nat>, k: nat)
    requires k < |taken| && NoDup(taken) && Valid(h') && Returned(h, h', i, taken[..k])
    requires forall x: nat :: x in taken ==>
               x in h.spans && h.spans[x].used && h.spans[x].pages == i && h.spans[x].objSize == 0
    ensures taken[k] in h'.spans && i < |h'.lists|
    ensures Valid(ReturnOne(h', i, taken[k])) && Returned(h, ReturnOne(h', i, taken[k]), i, taken[..k + 1])
  {
    var cur := taken[k];
    assert cur in taken && cur !in taken[..k] && taken[..k + 1] == taken[..k] + [cur];
    assert h.lists[i] + taken[..k] + [cur] == h.lists[i] + taken[..k + 1];
    ReturnOneOk(h', i, cur);
  }

  // ------------------------------------------------------------------ the object

  class PageCacheShard {
    var spans: map<nat, SpanRec>
    var lists: seq<seq<nat>>
    var pageMap: map<nat, nat>
    ghost var held: set<nat>
    /** Every store so far that a lock-free reader could see. */
    ghost var ops: seq<Op>

    ghost function H(): Heap
      reads this
    {
      Heap(spans, lists, pageMap, held)
    }

    /** The history is that of the leaves and descriptors. */
    ghost predicate Logged()
      reads this
    {
      Play(View(map[], {}), ops) == View(pageMap, spans.Keys)
    }

    constructor ()
      ensures Valid(H()) && spans == map[] && held == {} && ops == [] && Logged()
    {
      spans, pageMap, held, ops := map[], map[], {}, [];
      lists := seq(MAX_PAGE_NUM + 1, _ => []);
    }

    // ---- the single stores

    method NewSpan(id: nat, r: SpanRec)
      requires Logged()
      modifies `spans, `ops
      ensures spans == old(spans)[id := r] && ops == old(ops) + [Create(id)] && Logged()
    {
      PlayJoin(View(map[], {}), ops, [Create(id)]);
      spans := spans[id := r];
      ops := ops + [Create(id)];
    }

    method DeleteSpan(id: nat)
      requires Logged()
      modifies `spans, `ops
      ensures spans == old(spans) - {id} && ops == old(ops) + [Delete(id)] && Logged()
    {
      PlayJoin(View(map[], {}), ops, [Delete(id)]);
      spans := spans - {id};
      ops := ops + [Delete(id)];
    }

    method StoreLeaf(p: nat, id: nat)
      requires Logged()
      modifies `pageMap, `ops
      ensures pageMap == old(pageMap)[p := id] && ops == old(ops) + [Store(p, id)] && Logged()
    {
      PlayJoin(View(map[], {}), ops, [Store(p, id)]);
      pageMap := pageMap[p := id];
      ops := ops + [Store(p, id)];
    }

    method ClearLeaf(p: nat)
      requires Logged()
      modifies `pageMap, `ops
      ensures pageMap == old(pageMap) - {p} && ops == old(ops) + [Clear(p)] && Logged()
    {
      PlayJoin(View(map[], {}), ops, [Clear(p)]);
      pageMap := pageMap - {p};
      ops := ops + [Clear(p)];
    }

    /** `PageMap::SetSpan`, one leaf after the other. */
    method SetSpan(start: nat, n: nat, id: nat)
      requires Logged()
      modifies `pageMap, `ops
      ensures pageMap == MapRange(old(pageMap), start, n, id) && ops == old(ops) + StoreOps(start, n, id) && Logged()
    {
      var i: nat := 0;
      assert MapRange(pageMap, start, 0, id) == pageMap && ops + StoreOps(start, 0, id) == ops;
      while i < n
        invariant i <= n && Logged()
        invariant pageMap == MapRange(old(pageMap), start, i, id) && ops == old(ops) + StoreOps(start, i, id)
      {
        MapLast(old(pageMap), start, i, id);
        StoreLeaf(start + i, id);
        assert StoreOps(start, i + 1, id) == StoreOps(start, i, id) + [Store(start + i, id)];
        i := i + 1;
      }
    }

    method ClearRange(start: nat, n: nat)
      requires Logged()
      modifies `pageMap, `ops
      ensures pageMap == UnmapRange(old(pageMap), start, n) && ops == old(ops) + ClearOps(start, n) && Logged()
    {
      var i: nat := 0;
      assert UnmapRange(pageMap, start, 0) == pageMap && ops + ClearOps(start, 0) == ops;
      while i < n
        invariant i <= n && Logged()
        invariant pageMap == UnmapRange(old(pageMap), start, i) && ops == old(ops) + ClearOps(start, i)
      {
        UnmapLast(old(pageMap), start, i);
        ClearLeaf(start + i);
        assert ClearOps(start, i + 1) == ClearOps(start, i) + [Clear(start + i)];
        i := i + 1;
      }
    }

    /** Absorbed descriptors go back to the pool, newest first. */
    method DeleteRetired(retired: seq<nat>)
      requires Logged()
      modifies `spans, `ops
      ensures spans == old(spans) - Members(retired) && ops == old(ops) + DeleteOps(retired) && Logged()
    {
      var i: nat := 0;
      assert spans - Members(retired[..0]) == spans && ops + DeleteOps(retired[..0]) == ops;
      while i < |retired|
        invariant i <= |retired| && Logged()
        invariant spans == old(spans) - Members(retired[..i]) && ops == old(ops) + DeleteOps(retired[..i])
      {
        DeleteSpan(retired[i]);
        assert retired[..i + 1] == retired[..i] + [retired[i]];
        assert DeleteOps(retired[..i + 1]) == DeleteOps(retired[..i]) + [Delete(retired[i])];
        assert Members(retired[..i + 1]) == Members(retired[..i]) + {retired[i]};
        i := i + 1;
      }
      assert retired[..i] == retired;
    }

    // ---- allocation

    method TakeFront(n: nat) returns (id: nat)
      requires n < |lists| && lists[n] != [] && lists[n][0] in spans && Logged()
      modifies this
      ensures id == old(lists[n][0]) && H() == TakeExact(old(H()), n) && ops == old(ops) && Logged()
    {
      id := lists[n][0];
      lists := lists[n := lists[n][1..]];
      spans := spans[id := spans[id].(used := true, committed := true)];
      assert spans.Keys == old(spans.Keys);
    }

    method Split(i: nat, n: nat, small: nat)
      requires CanSplit(H(), i, n, small) && Logged()
      modifies this
      ensures H() == SplitFront(old(H()), i, n, small) && Logged()
      ensures ops == old(ops) + SplitOps(old(spans[lists[i][0]]), n, small, old(lists[i][0]))
    {
      var big := lists[i][0];
      var r := spans[big];
      SplitRecords(i, n, small);
      SetSpan(r.start, n, small);
      SetSpan(r.start + n, r.pages - n, big);
      SplitInOrder(old(ops), r, n, small, big);
    }

    /** The front span gives its first n pages to a new descriptor and moves to the
        bucket of what is left. */
    method SplitRecords(i: nat, n: nat, small: nat)
      requires CanSplit(H(), i, n, small) && Logged()
      modifies `spans, `lists, `ops
      ensures spans == SplitFront(old(H()), i, n, small).spans && lists == SplitFront(old(H()), i, n, small).lists
      ensures ops == old(ops) + [Create(small)] && Logged()
    {
      var big := lists[i][0];
      var r := spans[big];
      var rest := r.pages - n;
      NewSpan(small, SpanRec(r.start, n, true, true, r.owner, 0, 0));
      spans := spans[big := r.(start := r.start + n, pages := rest, used := false, committed := true)];
      assert spans.Keys == old(spans.Keys) + {small};
      var popped := lists[i := lists[i][1..]];
      lists := popped[rest := [big] + popped[rest]];
    }

    /** Asks the system for n pages and makes them a live span. Every failure
        gives back what it had taken and leaves the heap as it was. */
    method MapFromSystem(n: nat, env: Env, used: bool) returns (id: Option<nat>)
      requires (!used ==> n < |lists|) && Logged()
      requires env.osPage.Some? ==> PagesOf(env.osPage.value, n) !! held
      requires env.mapped.Some? ==> env.mapped.value !in spans
      modifies this
      ensures id == if Maps(env) then env.mapped else None
      ensures H() == if Maps(env) then AddMapping(old(H()), env.osPage.value, n, env.mapped.value, used) else old(H())
      ensures ops == old(ops) + MapOps(n, env) && Logged()
    {
      if env.osPage.None? { return None; }
      var start := env.osPage.value;
      held := held + PagesOf(start, n);
      if env.mapped.None? {
        held := held - PagesOf(start, n);
        assert held == old(held);
        return None;
      }
      NewSpan(env.mapped.value, SpanRec(start, n, used, true, 0, 0, 0));
      if !env.paths {
        DeleteSpan(env.mapped.value);
        held := held - PagesOf(start, n);
        assert held == old(held) && spans == old(spans);
        return None;
      }
      id := env.mapped;
      if !used { lists := lists[n := [id.value] + lists[n]]; }
      SetSpan(start, n, id.value);
    }

    /** The bucket scan: the exact bucket, then the larger ones in order. */
    method FindBucket(n: nat) returns (f: nat)
      requires |lists| == MAX_PAGE_NUM + 1 && n <= MAX_PAGE_NUM
      ensures f == FirstFit(lists, n)
    {
      f := n;
      while f <= MAX_PAGE_NUM && lists[f] == []
        invariant n <= f <= MAX_PAGE_NUM + 1
        invariant FirstFit(lists, f) == FirstFit(lists, n)
      {
        f := f + 1;
      }
    }

    /** The exact bucket gives its front span; a larger one has its front span split. */
    method ServeFrom(fit: nat, n: nat, env: Env) returns (r: Option<nat>)
      requires Valid(H()) && 0 < n <= MAX_PAGE_NUM && fit == FirstFit(lists, n) <= MAX_PAGE_NUM && Logged()
      requires env.split.Some? ==> env.split.value !in spans
      modifies this
      ensures (H(), r) == Serve(old(H()), n, env) && ops == old(ops) + ServeOps(old(H()), n, env) && Logged()
    {
      assert lists[fit][0] in lists[fit];
      if fit == n {
        var id := TakeFront(n);
        return Some(id);
      }
      if env.split.None? { return None; }
      Split(fit, n, env.split.value);
      return env.split;
    }

    /** Serves a request of n pages; at most one turn of the loop refills from the
        system. */
    method AllocSpan(n: nat, env: Env) returns (r: Option<nat>)
      requires Valid(H()) && EnvOk(H(), n, env) && Logged()
      modifies this
      ensures (H(), r) == AllocHeap(old(H()), n, env)
      ensures r.None? <==> Refused(old(H()), n, env)
      ensures ops == old(ops) + AllocOps(old(H()), n, env) && Logged()
      ensures Valid(H())
      ensures r.None? ==> Used(H()) == Used(old(H()))
      ensures r.Some? ==> Allocated(old(H()), H(), r.value, n)
    {
      AllocHeapOk(H(), n, env);
      AllocRefusedExactly(H(), n, env);
      if n == 0 || n > MAX_UINT32 { return None; }
      if n > MAX_PAGE_NUM {
        r := MapFromSystem(n, env, true);
        return;
      }
      r := AllocBucketed(n, env);
    }

    method AllocBucketed(n: nat, env: Env) returns (r: Option<nat>)
      requires Valid(H()) && EnvOk(H(), n, env) && Logged() && 0 < n <= MAX_PAGE_NUM
      modifies this
      ensures (H(), r) == AllocHeap(old(H()), n, env)
      ensures ops == old(ops) + AllocOps(old(H()), n, env) && Logged()
    {
      ghost var h0 := H();
      var refilled := false;
      while true
        invariant Logged() && CanServe(h0, n, env, refilled)
        invariant H() == ServedFrom(h0, env, refilled) && ops == old(ops) + StoredFirst(env, refilled)
        decreases !refilled
      {
        var fit := FindBucket(n);
        ServesAlloc(old(ops), h0, n, env, refilled);
        if fit <= MAX_PAGE_NUM {
          r := ServeFrom(fit, n, env);
          return;
        }
        var refill := MapFromSystem(MAX_PAGE_NUM, env, false);
        if refill.None? { return None; }
        refilled := true;
      }
    }

    // ---- release

    /** One turn of a merge loop: the neighbour covering page p is absorbed. */
    method AbsorbAt(id: nat, p: nat)
      requires id in spans && p in pageMap && pageMap[p] in spans && spans[pageMap[p]].pages < |lists|
      modifies `lists, `spans
      ensures H() == Absorb(old(H()), id, old(pageMap[p]))
    {
      var x := pageMap[p];
      var n := spans[x].pages;
      lists := lists[n := Erase(lists[n], x)];
      spans := spans[id := spans[id].(start := Min(spans[id].start, spans[x].start), pages := spans[id].pages + n)];
    }

    /** The list of absorbed descriptors grows at its head. */
    method MergeLeft(ghost h0: Heap, id: nat) returns (retired: seq<nat>)
      requires H() == h0 && Merging(h0, h0, id, {})
      modifies `lists, `spans
      ensures Merging(h0, H(), id, Members(retired)) && NoDup(retired)
      ensures LeftClosed(H(), id) && LeftFirst(h0, id, spans[id].start)
    {
      retired := [];
      assert Members(retired) == {};
      while spans[id].start > 0 && Mergeable(spans, pageMap, id, spans[id].start - 1)
        invariant Merging(h0, H(), id, Members(retired)) && NoDup(retired)
        invariant spans[id].start + spans[id].pages == h0.spans[id].start + h0.spans[id].pages
        decreases spans[id].start
      {
        var p := spans[id].start - 1;
        AbsorbOk(h0, H(), id, Members(retired), p);
        AbsorbGrows(h0, H(), id, Members(retired), p);
        NeighbourFits(h0, H(), id, Members(retired), p);
        RetireMore(retired, pageMap[p]);
        retired := [pageMap[p]] + retired;
        AbsorbAt(id, p);
      }
      ClosedLeftFirst(h0, H(), id, Members(retired));
    }

    method MergeRight(ghost h0: Heap, id: nat, before: seq<nat>) returns (retired: seq<nat>)
      requires Merging(h0, H(), id, Members(before)) && NoDup(before)
      requires LeftClosed(H(), id)
      modifies `lists, `spans
      ensures Merging(h0, H(), id, Members(retired)) && NoDup(retired) && Settled(H(), id)
      ensures spans[id].start == old(spans[id].start)
    {
      retired := before;
      while Mergeable(spans, pageMap, id, spans[id].start + spans[id].pages)
        invariant Merging(h0, H(), id, Members(retired)) && NoDup(retired) && LeftClosed(H(), id)
        invariant spans[id].start == old(spans[id].start)
        decreases MAX_PAGE_NUM - spans[id].pages
      {
        retired := AbsorbRight(h0, id, retired);
      }
    }

    method AbsorbRight(ghost h0: Heap, id: nat, before: seq<nat>) returns (retired: seq<nat>)
      requires Merging(h0, H(), id, Members(before)) && NoDup(before) && LeftClosed(H(), id)
      requires CanMerge(H(), id, spans[id].start + spans[id].pages)
      modifies `lists, `spans
      ensures Merging(h0, H(), id, Members(retired)) && NoDup(retired) && LeftClosed(H(), id)
      ensures spans[id].pages > old(spans[id].pages) && spans[id].start == old(spans[id].start)
    {
      var p := spans[id].start + spans[id].pages;
      MergeRightStep(h0, H(), id, Members(before), p);
      NeighbourFits(h0, H(), id, Members(before), p);
      RetireMore(before, pageMap[p]);
      retired := [pageMap[p]] + before;
      AbsorbAt(id, p);
    }

    /** The end of a release, once both merge loops have stopped. */
    method Finish(id: nat, retired: seq<nat>)
      requires id in spans && spans[id].pages < |lists| && id !in retired && Logged()
      modifies this
      ensures H() == Coalesced(old(H()), id, Members(retired)) && Logged()
      ensures ops == old(ops) + CoalesceOps(old(spans[id]), id, retired)
    {
      var r := spans[id];
      spans := spans[id := r.(used := false, committed := true, objSize := 0)];
      assert spans.Keys == old(spans.Keys);
      SetSpan(r.start, r.pages, id);
      DeleteRetired(retired);
      lists := lists[r.pages := [id] + lists[r.pages]];
    }

    /** Gives a used span back. */
    method ReleaseSpan(id: nat) returns (ghost did: seq<Op>)
      requires Valid(H()) && id in spans && spans[id].used && Logged()
      modifies this
      ensures ReleasesBy(old(H()), H(), id, did) && ops == old(ops) + did && Logged()
      ensures Orderly(old(H()), H(), did, Some(id))
      ensures old(spans[id].pages) <= MAX_PAGE_NUM ==> ReleasedInto(old(H()), H(), id)
      ensures Valid(H()) && Used(H()) == Used(old(H())) - {id}
    {
      ghost var h0 := H();
      if spans[id].pages > MAX_PAGE_NUM {
        var r := spans[id];
        ClearRange(r.start, r.pages);
        held := held - PagesOf(r.start, r.pages);
        DeleteSpan(id);
        did := ClearOps(r.start, r.pages) + [Delete(id)];
      } else {
        did := Coalesce(h0, id);
      }
      ReleaseOrderly(h0, H(), id, did);
      ReleasesByOk(h0, H(), id, did);
      if h0.spans[id].pages <= MAX_PAGE_NUM { ReleaseAnswer(h0, H(), id); }
    }

    method Coalesce(ghost h0: Heap, id: nat) returns (ghost did: seq<Op>)
      requires H() == h0 && Valid(h0) && id in spans && spans[id].used && spans[id].pages <= MAX_PAGE_NUM && Logged()
      modifies this
      ensures ReleasesBy(h0, H(), id, did) && ops == old(ops) + did && Logged()
    {
      MergeStarts(h0, id);
      var retired := MergeLeft(h0, id);
      retired := MergeRight(h0, id, retired);
      assert spans.Keys == h0.spans.Keys;
      CoalescedOk(h0, H(), id, Members(retired));
      ghost var m := H();
      Finish(id, retired);
      did := CoalesceOps(m.spans[id], id, retired);
      assert MergedTo(h0, m, id, retired, H(), did);
    }

    // ---- the scavenger's sections, which store no leaf

    method Detach(i: nat, id: nat)
      requires i < |lists| && id in spans && spans[id].pages == i
      modifies `lists, `spans
      ensures H() == DetachOne(old(H()), id)
    {
      lists := lists[i := Erase(lists[i], id)];
      spans := spans[id := spans[id].(used := true)];
    }

    method PutBack(i: nat, id: nat)
      requires i < |lists| && id in spans
      modifies `lists, `spans
      ensures H() == ReturnOne(old(H()), i, id)
    {
      lists := lists[i := lists[i] + [id]];
      spans := spans[id := spans[id].(used := false)];
    }

    /** One step of the cursor: the span goes, or the cursor moves on. */
    method DetachAt(i: nat, idle: set<nat>, k: nat, ghost h0: Heap, taken: seq<nat>) returns (more: seq<nat>)
      requires Valid(H()) && i < |lists| && k < |lists[i]| && Logged() && Detached(h0, H(), i, taken)
      modifies `lists, `spans
      ensures Logged() && Valid(H()) && Detached(h0, H(), i, more)
      ensures if Ripe(old(spans), idle, old(lists[i])[k])
              then && lists == old(lists)[i := Erase(old(lists[i]), old(lists[i])[k])]
                   && more == taken + [old(lists[i])[k]]
              else lists == old(lists) && more == taken
    {
      var cur := lists[i][k];
      assert cur in lists[i];
      more := taken;
      if !spans[cur].used && spans[cur].committed && cur in idle {
        DetachedMore(h0, H(), i, taken, cur);
        Detach(i, cur);
        more := taken + [cur];
        assert spans.Keys == old(spans.Keys);
      }
    }

    /** The scavenger's first locked section: the committed spans of bucket i that
        are idle leave the bucket and are marked used, so that no allocation,
        split or merge can claim them. The choice of idle spans is the caller's. */
    method DetachIdle(i: nat, idle: set<nat>) returns (taken: seq<nat>)
      requires Valid(H()) && i < |lists| && Logged()
      modifies `lists, `spans
      ensures Logged() && Valid(H()) && Detached(old(H()), H(), i, taken)
      ensures taken == Sifted(old(spans), idle, old(lists[i]), true)
      ensures lists == old(lists)[i := Sifted(old(spans), idle, old(lists[i]), false)]
    {
      taken := [];
      var k := 0;
      ghost var was, q, m := spans, lists[i], 0;
      SiftStarts(was, idle, q);
      while k < |lists[i]|
        invariant Logged() && Valid(H()) && Detached(old(H()), H(), i, taken) && k <= |lists[i]|
        invariant Sifting(was, idle, q, m, lists[i], taken, k) && lists == old(lists)[i := lists[i]]
        decreases |lists[i]| - k
      {
        SiftTurn(old(H()), H(), i, idle, m, taken, k);
        var had := |taken|;
        taken := DetachAt(i, idle, k, old(H()), taken);
        if |taken| == had { k := k + 1; }
        m := m + 1;
      }
      SiftEnds(was, idle, q, m, lists[i], taken, k);
    }

    /** The unlocked section, for one detached span: `madvise` may fail. */
    method Decommit(id: nat, advised: bool)
      requires Valid(H()) && id in spans && spans[id].used && Logged()
      modifies `spans
      ensures Valid(H()) && Logged()
      ensures Used(H()) == Used(old(H()))[id := old(spans[id]).(committed := old(spans[id]).committed && !advised)]
    {
      AnnotateOk(H(), id, spans[id].committed && !advised, spans[id].objSize, spans[id].classIdx);
      if advised { spans := spans[id := spans[id].(committed := false)]; }
      ghost var r := old(spans[id]);
      assert H() == Annotate(old(H()), id, r.committed && !advised, r.objSize, r.classIdx);
    }

    /** The scavenger's second locked section: the detached spans go back to the
        bucket they came from, behind the spans already there. */
    method ReturnDetached(i: nat, taken: seq<nat>)
      requires Valid(H()) && i < |lists| && NoDup(taken) && Logged()
      requires forall x: nat :: x in taken ==>
                 x in spans && spans[x].used && spans[x].pages == i && spans[x].objSize == 0
      modifies `lists, `spans
      ensures Logged() && Valid(H()) && Returned(old(H()), H(), i, taken)
    {
      var k := 0;
      assert lists[i] + taken[..0] == lists[i];
      while k < |taken|
        invariant k <= |taken| && Valid(H()) && Returned(old(H()), H(), i, taken[..k])
      {
        ReturnedMore(old(H()), H(), i, taken, k);
        PutBack(i, taken[k]);
        k := k + 1;
      }
      assert taken[..k] == taken;
    }
  }
}
