/** Lock-free `PageMap::GetSpan` against the whole allocator, store by store: the
    locked sections of PageCache run leaf store by leaf store and descriptor by
    descriptor, other threads go on in between, and a reader walks the radix tree
    load by load (src/page_cache.cpp, src/ammalloc.cpp). */
module LiveReads {
  import opened Config
  import opened Lists
  import opened SizeClass
  import opened PageHeap
  import opened PageLeaves
  import opened PageMap
  import A = Allocator
  import AR = AllocatorRuns
  import C = CentralCache
  import P = PageLayer
  import PageCache
  import PageMapFlat
  import R = PageMapReaders

  /** `a` is the allocator with the section in progress finished, `todo` what that
      section still has to store, `out` the used spans that had been handed out when
      it began. */
  datatype X = X(a: A.Sys, out: set<nat>, todo: seq<Op>, view: View, tree: Tree, pc: R.Pc)

  /** The stores that go with an action of the allocator. */
  ghost predicate Stores(a: A.Sys, a': A.Sys, t: nat, act: AR.Action, ops: seq<Op>)
    requires AR.Does(a, a', t, act)
  {
    match act
    case DoLarge(size, env, id) => ops == PageCache.AllocOps(a.page.h, CeilDiv(size, 4096), env)
    case DoFail(n, env) => ops == PageCache.AllocOps(a.page.h, n, env)
    case DoRefill(m, env, id) => ops == PageCache.AllocOps(a.page.h, MovePages(a.central.threads[t].pc.c), env)
    case DoRefillFail(env) => ops == PageCache.AllocOps(a.page.h, MovePages(a.central.threads[t].pc.c), env)
    case DoFree(b, i, cacheless) =>
      if b.Large? then PageCache.ReleasesBy(a.page.h, a'.page.h, b.id, ops) else ops == []
    case DoReturn => PageCache.ReleasesBy(a.page.h, a'.page.h, a.central.threads[t].empties[0], ops)
    case _ => ops == []
  }

  /** What may happen while another thread is inside a locked section. */
  ghost predicate Unlocked(a: A.Sys, a': A.Sys, act: AR.Action)
  {
    match act
    case DoMalloc(size) => true
    case DoInside(x) => true
    case DoFree(b, i, cacheless) => b.Small?
    case DoScavenge(id) => P.Advise(a.page, a'.page, id)
    case _ => false
  }

  function UsedIds(h: Heap): set<nat> { set id: nat | id in h.spans && h.spans[id].used }

  /** A thread enters a locked section, or does something that stores no leaf. */
  ghost predicate Begin(x: X, x': X, t: nat, act: AR.Action, ops: seq<Op>)
  {
    && x.todo == [] && AR.Does(x.a, x'.a, t, act) && Stores(x.a, x'.a, t, act, ops)
    && x' == x.(a := x'.a, todo := ops, out := if ops == [] then UsedIds(x'.a.page.h) else UsedIds(x.a.page.h))
  }

  ghost predicate Aside(x: X, x': X, t: nat, act: AR.Action)
  {
    && AR.Does(x.a, x'.a, t, act) && Unlocked(x.a, x'.a, act)
    && x' == x.(a := x'.a, out := if x.todo == [] then UsedIds(x'.a.page.h) else x.out)
  }

  /** One store of the section in progress; with the last one its lock is free. */
  ghost predicate StoreOne(x: X, x': X)
  {
    && x.todo != [] && InTree(x.tree, x'.tree, x.todo[0])
    && x' == x.(view := Do(x.view, x.todo[0]), todo := x.todo[1..], tree := x'.tree,
                out := if |x.todo| == 1 then UsedIds(x.a.page.h) else x.out)
  }

  /** A leaf that has no node needs no clearing. */
  ghost predicate InTree(t: Tree, t': Tree, op: Op)
  {
    match op
    case Store(p, id) => R.StoreAt(t, t', p, id + 1)
    case Clear(p) => R.StoreAt(t, t', p, 0) || (!HasPath(t, p) && t' == t)
    case _ => t' == t
  }

  /** A section prepares radix paths. */
  ghost predicate Grow(x: X, x': X)
  {
    && x' == x.(tree := x'.tree)
    && ((!x.tree.rooted && x'.tree == SetRoot(x.tree)) || exists p: nat :: R.GrowAt(x.tree, x'.tree, p))
  }

  /** One load of the reader, or the beginning of its next call. */
  ghost predicate Load(x: X, x': X, page: nat)
  {
    x' == x.(pc := if x.pc.Done? then R.Start else R.Read(x.tree, x.pc, page))
  }

  datatype Move =
    | ToBegin(t: nat, act: AR.Action, ops: seq<Op>)
    | ToDo(t: nat, act: AR.Action)
    | ToStore
    | ToGrow
    | ToLoad

  ghost predicate Moves(x: X, x': X, page: nat, m: Move)
  {
    match m
    case ToBegin(t, act, ops) => Begin(x, x', t, act, ops)
    case ToDo(t, act) => Aside(x, x', t, act)
    case ToStore => StoreOne(x, x')
    case ToGrow => Grow(x, x')
    case ToLoad => Load(x, x', page)
  }

  ghost predicate Next(x: X, x': X, page: nat) { exists m: Move :: Moves(x, x', page, m) }

  ghost predicate StepAt(r: seq<X>, i: nat, page: nat) { i + 1 < |r| && Next(r[i], r[i + 1], page) }

  ghost predicate Init(x: X)
  {
    && AR.Init(x.a) && x.out == {} && x.todo == [] && x.view == ViewOf(x.a.page.h) && x.pc.Start?
    && PageMapFlat.Represents(x.tree, x.view.leaf)
  }

  ghost predicate Run(r: seq<X>, page: nat)
  {
    |r| > 0 && Init(r[0]) && forall i: nat :: i + 1 < |r| ==> StepAt(r, i, page)
  }

  // ------------------------------------------------------------ the invariant

  /** The section in progress will end in the heap the allocator stands for, and
      never names a dead descriptor on the way. */
  ghost predicate Pending(h: Heap, view: View, todo: seq<Op>)
  {
    AlwaysLive(view, todo) && Play(view, todo) == ViewOf(h)
  }

  /** A span that was handed out before the section began has its leaves, and the
      section stores none of them. */
  ghost predicate OutOk(h: Heap, out: set<nat>, view: View, todo: seq<Op>)
  {
    forall u: nat, p: nat {:trigger Covers(h.spans[u], p)} ::
      u in out && u in h.spans && h.spans[u].used && Covers(h.spans[u], p) ==>
        p in view.leaf && view.leaf[p] == u && Avoids(todo, p)
  }

  ghost predicate Inv(x: X, page: nat)
  {
    && A.Inv(x.a) && Pending(x.a.page.h, x.view, x.todo) && OutOk(x.a.page.h, x.out, x.view, x.todo)
    && (x.todo == [] ==> x.out == UsedIds(x.a.page.h))
    && PageMapFlat.Represents(x.tree, x.view.leaf) && R.OnPath(R.State(x.tree, x.pc), page)
  }

  /** A section that starts in h, where nothing is pending. */
  lemma Starts(h: Heap, h': Heap, ops: seq<Op>, id: Option<nat>)
    requires Valid(h) && PageCache.Orderly(h, h', ops, id)
    requires forall u: nat :: u in Used(h) && u in Used(h') ==> id != Some(u) && SamePages(Used(h)[u], Used(h')[u])
    ensures Pending(h', ViewOf(h), ops) && OutOk(h', UsedIds(h), ViewOf(h), ops)
  {
    forall u: nat, p: nat | u in UsedIds(h) && u in h'.spans && h'.spans[u].used && Covers(h'.spans[u], p)
      ensures p in h.pageMap && h.pageMap[p] == u && Avoids(ops, p)
    {
      assert u in Used(h) && u in Used(h');
      assert SamePages(Used(h)[u], Used(h')[u]);
      LookupExact(h, p);
      assert Covers(h.spans[u], p);
    }
  }

  predicate SamePages(r: SpanRec, r': SpanRec) { r'.start == r.start && r'.pages == r.pages }

  /** Between sections every used span has its leaves. */
  lemma Finished(h: Heap, view: View)
    requires Valid(h) && view == ViewOf(h)
    ensures Pending(h, view, []) && OutOk(h, UsedIds(h), view, [])
  {
    PageCache.ValidNamesLive(h);
    forall u: nat, p: nat | u in h.spans && Covers(h.spans[u], p)
      ensures p in h.pageMap && h.pageMap[p] == u
    {
      LookupExact(h, p);
    }
  }

  // ------------------------------------------------------- beginning a section

  ghost predicate Section(h: Heap, h': Heap, ops: seq<Op>)
  {
    Pending(h', ViewOf(h), ops) && OutOk(h', UsedIds(h), ViewOf(h), ops)
  }

  lemma AllocSection(p: P.Sys, p': P.Sys, n: nat, env: PageCache.Env)
    requires P.Inv(p) && P.Alloc(p, p', n, env)
    ensures Section(p.h, p'.h, PageCache.AllocOps(p.h, n, env))
  {
    PageCache.AllocOrderly(p.h, n, env);
    PageCache.AllocHeapOk(p.h, n, env);
    Starts(p.h, p'.h, PageCache.AllocOps(p.h, n, env), None);
  }

  lemma ReleaseSection(h: Heap, h': Heap, id: nat, ops: seq<Op>)
    requires Valid(h) && PageCache.ReleasesBy(h, h', id, ops)
    ensures Section(h, h', ops)
  {
    PageCache.ReleaseOrderly(h, h', id, ops);
    PageCache.ReleasesByOk(h, h', id, ops);
    Starts(h, h', ops, Some(id));
  }

  /** Carving changes neither leaves nor descriptors nor extents. */
  lemma CarveSection(h: Heap, m: P.Sys, p': P.Sys, ops: seq<Op>, id: nat, size: nat, idx: nat)
    requires Section(h, m.h, ops) && P.Carve(m, p', id, size, idx)
    ensures Section(h, p'.h, ops)
  {
    assert p'.h.spans.Keys == m.h.spans.Keys;
    SameOut(m.h, p'.h, UsedIds(h), ViewOf(h), ops);
  }

  /** Records may change in everything but extent and use. */
  ghost predicate SameExtents(h: Heap, h': Heap)
  {
    && h'.spans.Keys == h.spans.Keys && h'.pageMap == h.pageMap
    && forall u: nat :: u in h.spans ==> SamePages(h.spans[u], h'.spans[u]) && h'.spans[u].used == h.spans[u].used
  }

  lemma SameOut(h: Heap, h': Heap, out: set<nat>, view: View, todo: seq<Op>)
    requires SameExtents(h, h') && Pending(h, view, todo) && OutOk(h, out, view, todo)
    ensures Pending(h', view, todo) && OutOk(h', out, view, todo) && UsedIds(h') == UsedIds(h)
  {
    forall u: nat, p: nat | u in out && u in h'.spans && h'.spans[u].used && Covers(h'.spans[u], p)
      ensures p in view.leaf && view.leaf[p] == u && Avoids(todo, p)
    {
      assert Covers(h.spans[u], p);
    }
  }

  lemma NoStores(h: Heap, h': Heap)
    requires Valid(h) && h'.pageMap == h.pageMap && h'.spans.Keys == h.spans.Keys
    requires forall u: nat :: u in Used(h) && u in Used(h') ==> SamePages(Used(h)[u], Used(h')[u])
    ensures Section(h, h', [])
  {
    PageCache.ValidNamesLive(h);
    Starts(h, h', [], None);
  }

  lemma ScavengeSection(p: P.Sys, p': P.Sys, id: nat)
    requires P.Inv(p) && (P.Detach(p, p', id) || P.Advise(p, p', id) || P.Return(p, p', id))
    ensures Section(p.h, p'.h, [])
  {
    assert p'.h.spans.Keys == p.h.spans.Keys;
    NoStores(p.h, p'.h);
  }

  lemma RefillSection(a: A.Sys, m: P.Sys, a': A.Sys, t: nat, env: PageCache.Env, id: nat)
    requires P.Inv(a.page) && A.RefillSpan(a, m, a', t, env, id)
    ensures Section(a.page.h, a'.page.h, PageCache.AllocOps(a.page.h, MovePages(a.central.threads[t].pc.c), env))
  {
    var c := a.central.threads[t].pc.c;
    AllocSection(a.page, m, MovePages(c), env);
    CarveSection(a.page.h, m, a'.page, PageCache.AllocOps(a.page.h, MovePages(c), env), id, CalculateSize(c), c);
  }

  lemma FreeSection(a: A.Sys, a': A.Sys, t: nat, b: A.Block, i: nat, cacheless: bool, ops: seq<Op>)
    requires A.Inv(a) && A.Free(a, a', t, b, i, cacheless)
    requires if b.Large? then PageCache.ReleasesBy(a.page.h, a'.page.h, b.id, ops) else ops == []
    ensures Section(a.page.h, a'.page.h, ops)
  {
    if b.Large? {
      ReleaseSection(a.page.h, a'.page.h, b.id, ops);
    } else {
      AR.FreeSmallInv(a, a', t, b.o, i, cacheless);
      NoStores(a.page.h, a'.page.h);
    }
  }

  /** Every action of the allocator, at each of its stores. */
  lemma BeginSection(a: A.Sys, a': A.Sys, t: nat, act: AR.Action, ops: seq<Op>)
    requires A.Inv(a) && AR.Does(a, a', t, act) && Stores(a, a', t, act, ops)
    ensures Section(a.page.h, a'.page.h, ops)
  {
    match act
    case DoMalloc(size) => NoStores(a.page.h, a'.page.h);
    case DoLarge(size, env, id) => AllocSection(a.page, a'.page, CeilDiv(size, 4096), env);
    case DoFail(n, env) => AllocSection(a.page, a'.page, n, env);
    case DoFree(b, i, cacheless) => FreeSection(a, a', t, b, i, cacheless, ops);
    case DoRefill(m, env, id) => RefillSection(a, m, a', t, env, id);
    case DoRefillFail(env) => AllocSection(a.page, a'.page, MovePages(a.central.threads[t].pc.c), env);
    case DoReturn => ReleaseSection(a.page.h, a'.page.h, a.central.threads[t].empties[0], ops);
    case DoInside(x) => NoStores(a.page.h, a'.page.h);
    case DoScavenge(id) => ScavengeSection(a.page, a'.page, id);
  }

  lemma BeginInv(x: X, x': X, t: nat, act: AR.Action, ops: seq<Op>, page: nat)
    requires Inv(x, page) && Begin(x, x', t, act, ops)
    ensures Inv(x', page) && AR.SameRecords(x.a, x'.a)
  {
    AR.DoesInv(x.a, x'.a, t, act);
    BeginSection(x.a, x'.a, t, act, ops);
    if ops == [] { Finished(x'.a.page.h, x.view); }
  }

  // ------------------------------------------------------------- the other steps

  lemma AsideExtents(a: A.Sys, a': A.Sys, t: nat, act: AR.Action)
    requires A.Inv(a) && AR.Does(a, a', t, act) && Unlocked(a, a', act)
    ensures SameExtents(a.page.h, a'.page.h)
  {
    match act
    case DoFree(b, i, cacheless) => AR.FreeSmallInv(a, a', t, b.o, i, cacheless);
    case _ =>
  }

  lemma AsideInv(x: X, x': X, t: nat, act: AR.Action, page: nat)
    requires Inv(x, page) && Aside(x, x', t, act)
    ensures Inv(x', page) && AR.SameRecords(x.a, x'.a)
  {
    AR.DoesInv(x.a, x'.a, t, act);
    AsideExtents(x.a, x'.a, t, act);
    SameOut(x.a.page.h, x'.a.page.h, x.out, x.view, x.todo);
  }

  lemma StoreView(h: Heap, out: set<nat>, view: View, todo: seq<Op>)
    requires Pending(h, view, todo) && OutOk(h, out, view, todo) && todo != []
    ensures Pending(h, Do(view, todo[0]), todo[1..]) && OutOk(h, out, Do(view, todo[0]), todo[1..])
  {
    forall u: nat, p: nat | u in out && u in h.spans && h.spans[u].used && Covers(h.spans[u], p)
      ensures var v := Do(view, todo[0]); p in v.leaf && v.leaf[p] == u && Avoids(todo[1..], p)
    {
      assert Avoids(todo, p);
    }
  }

  lemma StoreLeafTree(t: Tree, t': Tree, m: map<nat, nat>, p: nat, id: nat)
    requires PageMapFlat.Represents(t, m) && R.StoreAt(t, t', p, id + 1)
    ensures PageMapFlat.Represents(t', m[p := id])
  {
    StoreLeafExact(t, p, id + 1);
  }

  lemma ClearLeafTree(t: Tree, t': Tree, m: map<nat, nat>, p: nat)
    requires PageMapFlat.Represents(t, m) && (R.StoreAt(t, t', p, 0) || (!HasPath(t, p) && t' == t))
    ensures PageMapFlat.Represents(t', m - {p})
  {
    if HasPath(t, p) {
      StoreLeafExact(t, p, 0);
    } else {
      assert Lookup(t, p) == 0;
      assert m - {p} == m;
    }
  }

  lemma StoreTree(t: Tree, t': Tree, view: View, op: Op)
    requires PageMapFlat.Represents(t, view.leaf) && InTree(t, t', op)
    ensures PageMapFlat.Represents(t', Do(view, op).leaf)
    ensures t' == t || R.Write(t, t')
  {
    match op
    case Store(p, id) => StoreLeafTree(t, t', view.leaf, p, id);
    case Clear(p) => ClearLeafTree(t, t', view.leaf, p);
    case _ =>
  }

  lemma StoreOneInv(x: X, x': X, page: nat)
    requires Inv(x, page) && StoreOne(x, x')
    ensures Inv(x', page) && AR.SameRecords(x.a, x'.a)
  {
    StoreView(x.a.page.h, x.out, x.view, x.todo);
    StoreTree(x.tree, x'.tree, x.view, x.todo[0]);
    TreeOnPath(x.tree, x'.tree, x.pc, page);
    if |x.todo| == 1 { Finished(x.a.page.h, x'.view); }
  }

  lemma TreeOnPath(t: Tree, t': Tree, pc: R.Pc, page: nat)
    requires R.OnPath(R.State(t, pc), page) && (t' == t || R.Write(t, t'))
    ensures R.OnPath(R.State(t', pc), page)
  {
    if t' != t { R.NextOnPath(R.State(t, pc), R.State(t', pc), page); }
  }

  lemma GrowInv(x: X, x': X, page: nat)
    requires Inv(x, page) && Grow(x, x')
    ensures Inv(x', page) && AR.SameRecords(x.a, x'.a)
  {
    assert R.Write(x.tree, x'.tree);
    TreeOnPath(x.tree, x'.tree, x.pc, page);
    if !x.tree.rooted && x'.tree == SetRoot(x.tree) {
      SetRootGrows(x.tree);
    } else {
      var p: nat :| R.GrowAt(x.tree, x'.tree, p);
      R.GrowthGrows(x.tree, x'.tree, p);
    }
    PageMapFlat.GrowthKeeps(x.tree, x'.tree, x.view.leaf);
  }

  lemma LoadInv(x: X, x': X, page: nat)
    requires Inv(x, page) && Load(x, x', page)
    ensures Inv(x', page) && AR.SameRecords(x.a, x'.a)
  {
    if !x.pc.Done? { R.NextOnPath(R.State(x.tree, x.pc), R.State(x.tree, x'.pc), page); }
  }

  lemma NextInv(x: X, x': X, page: nat)
    requires Inv(x, page) && Next(x, x', page)
    ensures Inv(x', page) && AR.SameRecords(x.a, x'.a)
  {
    var m :| Moves(x, x', page, m);
    match m
    case ToBegin(t, act, ops) => BeginInv(x, x', t, act, ops, page);
    case ToDo(t, act) => AsideInv(x, x', t, act, page);
    case ToStore => StoreOneInv(x, x', page);
    case ToGrow => GrowInv(x, x', page);
    case ToLoad => LoadInv(x, x', page);
  }

  lemma InitInv(x: X, page: nat)
    requires Init(x)
    ensures Inv(x, page)
  {
    AR.InitInv(x.a);
    Finished(x.a.page.h, x.view);
    assert UsedIds(x.a.page.h) == {};
  }

  lemma {:induction false} RunInv(r: seq<X>, page: nat, i: nat)
    requires Run(r, page) && i < |r|
    ensures Inv(r[i], page)
    decreases i, 1
  {
    if i == 0 { InitInv(r[0], page); } else { StepInv(r, page, i - 1, i); }
  }

  lemma {:induction false} StepInv(r: seq<X>, page: nat, k: nat, i: nat)
    requires Run(r, page) && i == k + 1 < |r|
    ensures Inv(r[i], page)
    decreases i, 0
  {
    RunInv(r, page, k);
    assert StepAt(r, k, page);
    NextInv(r[k], r[k + 1], page);
  }

  // ------------------------------------------------------------- over whole runs

  /** After every single leaf store, deletion and creation of every run, a mapped
      page names a descriptor that is not in the pool: what a reader finds is safe to
      look at. */
  lemma LeavesNameLive(r: seq<X>, page: nat, i: nat, p: nat)
    requires Run(r, page) && i < |r| && Lookup(r[i].tree, p) != 0
    ensures Lookup(r[i].tree, p) - 1 in r[i].view.live
    ensures r[i].todo == [] ==> Lookup(r[i].tree, p) - 1 in r[i].a.page.h.spans
  {
    RunInv(r, page, i);
  }

  /** Block b is in the user's hands: its allocation has returned. */
  ghost predicate HandedOut(x: X, b: A.Block) { A.Live(x.a, b) && A.SpanOf(b) in x.out }

  lemma OutAfter(x: X, x': X, page: nat)
    requires Next(x, x', page)
    ensures x'.out == UsedIds(x'.a.page.h) || x'.out == UsedIds(x.a.page.h) || x'.out == x.out
  {}

  /** While it is live, a block that was handed out stays so, and stays where it is. */
  lemma StaysOut(x: X, x': X, b: A.Block)
    requires A.Inv(x.a) && A.Inv(x'.a) && AR.SameRecords(x.a, x'.a) && HandedOut(x, b) && A.Live(x'.a, b)
    requires x'.out == UsedIds(x'.a.page.h) || x'.out == UsedIds(x.a.page.h) || x'.out == x.out
    ensures HandedOut(x', b) && A.SpanOf(b) in x.a.page.h.spans && A.SpanOf(b) in x'.a.page.h.spans
    ensures A.Address(x'.a, b) == A.Address(x.a, b)
  {
    A.LiveSpan(x.a, b);
    A.LiveSpan(x'.a, b);
    AR.StaysPut(x.a, x'.a, b);
  }

  ghost predicate LiveAt(r: seq<X>, k: nat, b: A.Block) { k < |r| && A.Live(r[k].a, b) }

  /** Block b was handed out before, and begins at `addr`. */
  ghost predicate OutAt(r: seq<X>, k: nat, b: A.Block, addr: nat)
  {
    k < |r| && HandedOut(r[k], b) && A.SpanOf(b) in r[k].a.page.h.spans && A.Address(r[k].a, b) == addr
  }

  lemma OutStep(r: seq<X>, page: nat, k: nat, b: A.Block, addr: nat)
    requires Run(r, page) && k + 1 < |r| && OutAt(r, k, b, addr) && LiveAt(r, k + 1, b)
    ensures OutAt(r, k + 1, b, addr)
  {
    RunInv(r, page, k);
    assert StepAt(r, k, page);
    NextInv(r[k], r[k + 1], page);
    OutAfter(r[k], r[k + 1], page);
    StaysOut(r[k], r[k + 1], b);
  }

  lemma {:induction false} OutFrom(r: seq<X>, page: nat, i: nat, j: nat, b: A.Block, addr: nat)
    requires Run(r, page) && i <= j < |r| && OutAt(r, i, b, addr) && forall k: nat :: i <= k <= j ==> LiveAt(r, k, b)
    ensures OutAt(r, j, b, addr)
    decreases j - i
  {
    if i < j {
      var k := j - 1;
      OutFrom(r, page, i, k, b, addr);
      assert LiveAt(r, k + 1, b);
      OutStep(r, page, k, b, addr);
    }
  }

  /** The leaf of the address of a block that was handed out names its span, whatever
      section is in progress. */
  lemma LeafOfBlock(x: X, page: nat, b: A.Block)
    requires Inv(x, page) && HandedOut(x, b)
    ensures A.SpanOf(b) in x.a.page.h.spans && Lookup(x.tree, A.Address(x.a, b) / 4096) == A.SpanOf(b) + 1
  {
    PageOfBlock(x.a, b);
    LeafOfSpan(x.a.page.h, x.out, x.view, x.todo, x.tree, A.SpanOf(b), A.Address(x.a, b) / 4096);
  }

  lemma PageOfBlock(a: A.Sys, b: A.Block)
    requires A.Inv(a) && A.Live(a, b)
    ensures A.SpanOf(b) in a.page.h.spans && a.page.h.spans[A.SpanOf(b)].used
    ensures Covers(a.page.h.spans[A.SpanOf(b)], A.Address(a, b) / 4096)
  {
    var r := a.page.h.spans[A.SpanOf(b)];
    A.LiveSpan(a, b);
    A.InsideSpan(a, b);
    A.PageOf(A.Address(a, b), r.start, r.pages);
  }

  lemma LeafOfSpan(h: Heap, out: set<nat>, view: View, todo: seq<Op>, tree: Tree, id: nat, p: nat)
    requires OutOk(h, out, view, todo) && PageMapFlat.Represents(tree, view.leaf)
    requires id in out && id in h.spans && h.spans[id].used && Covers(h.spans[id], p)
    ensures Lookup(tree, p) == id + 1
  {}

  /** The load that ends a call finds the lookup of that moment. */
  lemma AnswerNow(x: X, x': X, page: nat)
    requires Inv(x, page) && Next(x, x', page) && !x.pc.Done? && x'.pc.Done?
    ensures x'.pc.span == Lookup(x.tree, page)
  {
    assert Load(x, x', page);
    R.AnswerIsCurrent(R.State(x.tree, x.pc), R.State(x.tree, x'.pc), page);
  }

  lemma AnswerOfBlock(r: seq<X>, page: nat, k: nat, b: A.Block, addr: nat)
    requires Run(r, page) && k + 1 < |r| && OutAt(r, k, b, addr) && page == addr / 4096
    requires !r[k].pc.Done? && r[k + 1].pc.Done?
    ensures r[k + 1].pc.span == A.SpanOf(b) + 1
  {
    RunInv(r, page, k);
    LeafOfBlock(r[k], page, b);
    assert StepAt(r, k, page);
    AnswerNow(r[k], r[k + 1], page);
  }

  /** A call of the reader: it starts at step i and its last load is step j. */
  ghost predicate CallAt(r: seq<X>, i: nat, j: nat)
  {
    && i < j < |r| && r[i].pc.Start? && r[j].pc.Done?
    && forall k: nat :: i <= k < j ==> !r[k].pc.Done?
  }

  /** A call of `GetSpan` on the address of a block, begun when the block had been
      handed out and finished while it is still live, answers with the block's own
      span, however its loads fall between the leaf stores and deletions of splits,
      merges, refills and releases of other spans, complete or half done. */
  lemma GetSpanFindsBlock(r: seq<X>, page: nat, i: nat, j: nat, b: A.Block, addr: nat)
    requires Run(r, page) && CallAt(r, i, j) && OutAt(r, i, b, addr) && page == addr / 4096
    requires forall k: nat :: i <= k < j ==> LiveAt(r, k, b)
    ensures r[j].pc.span == A.SpanOf(b) + 1
  {
    OutFrom(r, page, i, j - 1, b, addr);
    assert !r[j - 1].pc.Done?;
    AnswerOfBlock(r, page, j - 1, b, addr);
  }
}
