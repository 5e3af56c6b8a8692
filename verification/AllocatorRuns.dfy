/** What the user of the allocator relies on, over whole runs. */
module AllocatorRuns {
  import opened Config
  import opened CentralStore
  import opened CentralFrames
  import opened PageHeap
  import opened SizeClass
  import opened Allocator
  import C = CentralCache
  import CI = CentralInvariant
  import P = PageLayer
  import PageCache

  // ------------------------------------------------- every step keeps the invariant

  /** Used spans that are not in play keep their record, and the user's small blocks
      are as before or fewer. */
  ghost predicate SameRecords(s: Sys, s': Sys)
  {
    forall id: nat ::
      id in Used(s.page.h) && id in Used(s'.page.h) && id !in s.page.detached && id !in s'.page.detached ==>
      Used(s'.page.h)[id] == Used(s.page.h)[id]
  }

  lemma InsideInv(s: Sys, s': Sys, t: nat, a: C.Action)
    requires Inv(s) && Inside(s, s', t, a)
    ensures Inv(s') && SameRecords(s, s') && Kept(s.central.st, s'.central.st)
  {
    CI.DoInv(s.central, s'.central, t, a);
    InternalKept(s.central, s'.central, t, a);
    KeptParts(s, s');
  }

  lemma KeptParts(s: Sys, s': Sys)
    requires Owned(s) && RecordsOk(s) && AskedOk(s) && Kept(s.central.st, s'.central.st)
    requires s'.page == s.page && s'.large == s.large && s'.asked == s.asked
    ensures Owned(s') && RecordsOk(s') && AskedOk(s') && SameRecords(s, s')
  {}

  ghost predicate SameUser(st: Store, st': Store)
  {
    forall c: nat {:trigger Of(st', User(c))} :: Of(st', User(c)) == Of(st, User(c))
  }

  lemma AskedFrame(s: Sys, s': Sys)
    requires AskedOk(s) && s'.asked == s.asked && SameUser(s.central.st, s'.central.st)
    ensures AskedOk(s')
  {
    forall c: nat, o: Obj | o in Of(s'.central.st, User(c))
      ensures o in s'.asked && s'.asked[o] <= MAX_TC_SIZE && CalculateIndex(s'.asked[o]) == c
    {
      assert o in Of(s.central.st, User(c));
    }
  }

  lemma MallocSmallInv(s: Sys, s': Sys, t: nat, size: nat)
    requires Inv(s) && MallocSmall(s, s', t, size)
    ensures Inv(s') && SameRecords(s, s')
  {
    var c := CalculateIndex(size);
    CI.MallocInv(s.central, s'.central, t, c);
    MallocGives(s.central, s'.central, t, c);
    MallocAsked(s, s', t, size);
    SpansParts(s, s');
  }

  lemma SpansParts(s: Sys, s': Sys)
    requires Owned(s) && RecordsOk(s) && SameSpans(s.central.st, s'.central.st) && s'.page == s.page
    requires s'.large == s.large
    ensures Owned(s') && RecordsOk(s') && SameRecords(s, s')
  {}

  lemma MallocAsked(s: Sys, s': Sys, t: nat, size: nat)
    requires StoreInv(s.central.st) && AskedOk(s) && MallocSmall(s, s', t, size)
    ensures AskedOk(s')
  {
    var c := CalculateIndex(size);
    var o := Of(s.central.st, Local(t, c))[0];
    assert o in Of(s.central.st, Local(t, c));
    MallocGives(s.central, s'.central, t, c);
    forall d: nat, x: Obj | x in Of(s'.central.st, User(d))
      ensures x in s'.asked && s'.asked[x] <= MAX_TC_SIZE && CalculateIndex(s'.asked[x]) == d
    {
      if x != o || d != c { assert x in Of(s.central.st, User(d)); }
    }
  }

  lemma MallocLargeInv(s: Sys, s': Sys, size: nat, env: PageCache.Env, id: nat)
    requires Inv(s) && MallocLarge(s, s', size, env, id)
    ensures Inv(s') && SameRecords(s, s')
    ensures id !in s.large && id !in s.central.st.spans
  {
    P.AllocInv(s.page, s'.page, CeilDiv(size, 4096), env);
    LargeParts(s, s', size, id, CeilDiv(size, 4096));
    AskedFrame(s, s');
  }

  lemma LargeParts(s: Sys, s': Sys, size: nat, id: nat, n: nat)
    requires Owned(s) && RecordsOk(s) && s'.central == s.central && s'.large == s.large[id := size]
    requires MAX_TC_SIZE < size <= n * 4096 < size + 4096
    requires s'.page.detached == s.page.detached && PageCache.Allocated(s.page.h, s'.page.h, id, n)
    ensures Owned(s') && RecordsOk(s') && SameRecords(s, s') && id !in s.large && id !in s.central.st.spans
  {}

  lemma MallocFailsInv(s: Sys, s': Sys, n: nat, env: PageCache.Env)
    requires Inv(s) && MallocFails(s, s', n, env)
    ensures Inv(s') && SameRecords(s, s')
  {
    P.AllocInv(s.page, s'.page, n, env);
  }

  lemma GoneAsked(s: Sys, s': Sys, c: nat, i: nat)
    requires AskedOk(s) && Gone(s.central.st, s'.central.st, c, i) && s'.asked == s.asked
    ensures AskedOk(s')
  {
    forall d: nat, x: Obj | x in Of(s'.central.st, User(d))
      ensures x in s'.asked && s'.asked[x] <= MAX_TC_SIZE && CalculateIndex(s'.asked[x]) == d
    {
      assert x in Of(s.central.st, User(d));
    }
  }

  lemma FreeSmallInv(s: Sys, s': Sys, t: nat, o: Obj, i: nat, cacheless: bool)
    requires Inv(s) && Live(s, Small(o)) && Free(s, s', t, Small(o), i, cacheless)
    ensures var c := s.central.st.spans[o.span].cls;
            && Gone(s.central.st, s'.central.st, c, i) && Of(s.central.st, User(c))[i] == o
            && s'.page == s.page && s'.large == s.large
    ensures Inv(s') && SameRecords(s, s')
  {
    Resolves(s, Small(o));
    var c := s.central.st.spans[o.span].cls;
    if cacheless {
      CI.StartSingleInv(s.central, s'.central, t, c, i);
      StartSingleTakes(s.central, s'.central, t, c, i);
    } else {
      CI.UserFreeInv(s.central, s'.central, t, c, i);
      UserFreeTakes(s.central, s'.central, t, c, i);
    }
    GoneAsked(s, s', c, i);
    SpansParts(s, s');
  }

  lemma FreeLargeInv(s: Sys, s': Sys, t: nat, id: nat, i: nat, cacheless: bool)
    requires Inv(s) && Live(s, Large(id)) && Free(s, s', t, Large(id), i, cacheless)
    ensures s'.central == s.central && s'.large == s.large - {id} && Inv(s') && SameRecords(s, s')
  {
    Resolves(s, Large(id));
    P.ReleaseInv(s.page, s'.page, id);
    DropParts(s, s', id);
    AskedFrame(s, s');
  }

  lemma DropParts(s: Sys, s': Sys, id: nat)
    requires Owned(s) && RecordsOk(s) && id in s.large && s'.central == s.central && s'.large == s.large - {id}
    requires s'.page.detached == s.page.detached && Used(s'.page.h) == Used(s.page.h) - {id}
    ensures Owned(s') && RecordsOk(s') && SameRecords(s, s')
  {}

  lemma RefillRecords(s: Sys, m: P.Sys, s': Sys, t: nat, env: PageCache.Env, id: nat)
    requires P.Inv(s.page) && RefillSpan(s, m, s', t, env, id)
    ensures var c := s.central.threads[t].pc.c;
            && P.Inv(s'.page) && s'.page.detached == s.page.detached && id !in Used(s.page.h) && id in Used(s'.page.h)
            && Used(s'.page.h) == Used(s.page.h)[id := Used(s'.page.h)[id]]
            && Used(s'.page.h)[id].objSize == CalculateSize(c) && Used(s'.page.h)[id].classIdx == c
            && Used(s'.page.h)[id].pages == MovePages(c)
  {
    var c := s.central.threads[t].pc.c;
    CarvedPages(s.page, m, s'.page, MovePages(c), env, id, CalculateSize(c), c);
  }

  lemma CarvedPages(p: P.Sys, m: P.Sys, p': P.Sys, n: nat, env: PageCache.Env, id: nat, size: nat, idx: nat)
    requires P.Inv(p) && P.AllocReturns(p, m, n, env, id) && P.Carve(m, p', id, size, idx)
    ensures P.Inv(p') && p'.detached == p.detached && id !in Used(p.h) && id in Used(p'.h)
    ensures Used(p'.h) == Used(p.h)[id := Used(p'.h)[id]]
    ensures Used(p'.h)[id].objSize == size && Used(p'.h)[id].classIdx == idx && Used(p'.h)[id].pages == n
  {
    P.AllocInv(p, m, n, env);
    P.CarveInv(m, p', id, size, idx);
    CarvedUsed(p.h, m.h, p'.h, n, id, size, idx);
  }

  lemma CarvedUsed(h: Heap, m: Heap, h': Heap, n: nat, id: nat, size: nat, idx: nat)
    requires PageCache.Allocated(h, m, id, n)
    requires Used(h') == Used(m)[id := Used(m)[id].(objSize := size, classIdx := idx)]
    ensures id !in Used(h) && id in Used(h') && Used(h') == Used(h)[id := Used(h')[id]]
    ensures Used(h')[id].objSize == size && Used(h')[id].classIdx == idx && Used(h')[id].pages == n
  {}

  lemma RefillSpanInv(s: Sys, m: P.Sys, s': Sys, t: nat, env: PageCache.Env, id: nat)
    requires Inv(s) && RefillSpan(s, m, s', t, env, id)
    ensures Inv(s') && SameRecords(s, s')
  {
    var c := s.central.threads[t].pc.c;
    RefillRecords(s, m, s', t, env, id);
    CI.AskGotInv(s.central, s'.central, t, id);
    assert C.PcOk(s.central.st, t, s.central.threads[t].pc);
    RefillParts(s, s', id, c);
    AskedFrame(s, s');
  }

  lemma RefillParts(s: Sys, s': Sys, id: nat, c: nat)
    requires Owned(s) && RecordsOk(s) && c < NUM_CLASSES && s'.large == s.large
    requires s'.page.detached == s.page.detached && id !in Used(s.page.h) && id in Used(s'.page.h)
    requires Used(s'.page.h) == Used(s.page.h)[id := Used(s'.page.h)[id]]
    requires Used(s'.page.h)[id].objSize == CalculateSize(c) && Used(s'.page.h)[id].classIdx == c
    requires Used(s'.page.h)[id].pages == MovePages(c)
    requires s'.central.st == AddSpan(s.central.st, id, c, C.ClassCapacity(c))
    ensures Owned(s') && RecordsOk(s') && SameRecords(s, s') && SameUser(s.central.st, s'.central.st)
  {}

  lemma RefillFailsInv(s: Sys, s': Sys, t: nat, env: PageCache.Env)
    requires Inv(s) && RefillFails(s, s', t, env)
    ensures Inv(s') && SameRecords(s, s') && s'.central.st == s.central.st
  {
    P.AllocInv(s.page, s'.page, MovePages(s.central.threads[t].pc.c), env);
    CI.AskNoneInv(s.central, s'.central, t);
  }

  lemma ReturnSpanInv(s: Sys, s': Sys, t: nat)
    requires Inv(s) && ReturnSpan(s, s', t)
    ensures Inv(s') && SameRecords(s, s')
  {
    var e := s.central.threads[t].empties;
    assert e[0] in e;
    CI.DropEmptyInv(s.central, s'.central, t);
    P.ReleaseInv(s.page, s'.page, e[0]);
    ReturnParts(s, s', e[0]);
    AskedFrame(s, s');
  }

  lemma ReturnParts(s: Sys, s': Sys, id: nat)
    requires Owned(s) && RecordsOk(s) && s'.large == s.large && id in s.central.st.spans
    requires s'.page.detached == s.page.detached && Used(s'.page.h) == Used(s.page.h) - {id}
    requires s'.central.st == DropSpan(s.central.st, id)
    ensures Owned(s') && RecordsOk(s') && SameRecords(s, s') && SameUser(s.central.st, s'.central.st)
  {}

  /** Only the scavenger's own spans change hands or records. */
  lemma ScavengeParts(s: Sys, s': Sys, id: nat)
    requires Owned(s) && RecordsOk(s) && s'.central == s.central && s'.large == s.large
    requires id !in s.central.st.spans && id !in s.large
    requires forall x: nat :: x != id ==> (x in Used(s'.page.h) <==> x in Used(s.page.h))
    requires forall x: nat :: x != id ==> (x in s'.page.detached <==> x in s.page.detached)
    requires forall x: nat :: x != id && x in Used(s.page.h) ==> Used(s'.page.h)[x] == Used(s.page.h)[x]
    requires id in Used(s'.page.h) <==> id in s'.page.detached
    requires id in s.page.detached || id in s'.page.detached
    ensures Owned(s') && RecordsOk(s') && SameRecords(s, s')
  {}

  lemma ScavengeInv(s: Sys, s': Sys, id: nat)
    requires Inv(s) && Scavenge(s, s', id)
    ensures Inv(s') && SameRecords(s, s')
  {
    ScavengeUsed(s.page, s'.page, id);
    ScavengeParts(s, s', id);
    AskedFrame(s, s');
  }

  lemma ScavengeUsed(p: P.Sys, p': P.Sys, id: nat)
    requires P.Inv(p) && (P.Detach(p, p', id) || P.Advise(p, p', id) || P.Return(p, p', id))
    ensures P.Inv(p') && (id in Used(p.h) <==> id in p.detached) && (id in Used(p'.h) <==> id in p'.detached)
    ensures id in p.detached || id in p'.detached
    ensures forall x: nat :: x != id ==> (x in Used(p'.h) <==> x in Used(p.h))
    ensures forall x: nat :: x != id ==> (x in p'.detached <==> x in p.detached)
    ensures forall x: nat :: x != id && x in Used(p.h) ==> Used(p'.h)[x] == Used(p.h)[x]
  {
    if P.Detach(p, p', id) {
      P.DetachInv(p, p', id);
      DetachOneOk(p.h, id);
    } else if P.Advise(p, p', id) {
      P.AdviseInv(p, p', id);
      AnnotateOk(p.h, id, false, p.h.spans[id].objSize, p.h.spans[id].classIdx);
    } else {
      P.ReturnInv(p, p', id);
      ReturnOneOk(p.h, p.detached[id].pages, id);
    }
  }

  // ---------------------------------------------------------------------- runs

  datatype Action =
    | DoMalloc(size: nat)
    | DoLarge(size: nat, env: PageCache.Env, id: nat)
    | DoFail(n: nat, env: PageCache.Env)
    | DoFree(b: Block, i: nat, cacheless: bool)
    | DoRefill(m: P.Sys, env: PageCache.Env, id: nat)
    | DoRefillFail(env: PageCache.Env)
    | DoReturn
    | DoInside(a: C.Action)
    | DoScavenge(id: nat)

  ghost predicate Does(s: Sys, s': Sys, t: nat, a: Action)
  {
    match a
    case DoMalloc(size) => MallocSmall(s, s', t, size)
    case DoLarge(size, env, id) => MallocLarge(s, s', size, env, id)
    case DoFail(n, env) => MallocFails(s, s', n, env)
    case DoFree(b, i, cacheless) => Free(s, s', t, b, i, cacheless)
    case DoRefill(m, env, id) => RefillSpan(s, m, s', t, env, id)
    case DoRefillFail(env) => RefillFails(s, s', t, env)
    case DoReturn => ReturnSpan(s, s', t)
    case DoInside(x) => Inside(s, s', t, x)
    case DoScavenge(id) => Scavenge(s, s', id)
  }

  ghost predicate Next(s: Sys, s': Sys) { exists t: nat, a: Action :: Does(s, s', t, a) }

  ghost predicate Init(s: Sys)
  {
    P.Init(s.page) && C.Init(s.central) && s.large == map[] && s.asked == map[]
  }

  ghost predicate StepAt(r: seq<Sys>, i: nat) { i + 1 < |r| && Next(r[i], r[i + 1]) }

  ghost predicate Run(r: seq<Sys>)
  {
    |r| > 0 && Init(r[0]) && forall i: nat :: i + 1 < |r| ==> StepAt(r, i)
  }

  lemma DoesInv(s: Sys, s': Sys, t: nat, a: Action)
    requires Inv(s) && Does(s, s', t, a)
    ensures Inv(s') && SameRecords(s, s')
  {
    match a
    case DoMalloc(size) => MallocSmallInv(s, s', t, size);
    case DoLarge(size, env, id) => MallocLargeInv(s, s', size, env, id);
    case DoFail(n, env) => MallocFailsInv(s, s', n, env);
    case DoFree(b, i, cacheless) =>
      if b.Small? { FreeSmallInv(s, s', t, b.o, i, cacheless); } else { FreeLargeInv(s, s', t, b.id, i, cacheless); }
    case DoRefill(m, env, id) => RefillSpanInv(s, m, s', t, env, id);
    case DoRefillFail(env) => RefillFailsInv(s, s', t, env);
    case DoReturn => ReturnSpanInv(s, s', t);
    case DoInside(x) => InsideInv(s, s', t, x);
    case DoScavenge(id) => ScavengeInv(s, s', id);
  }

  lemma NextInv(s: Sys, s': Sys)
    requires Inv(s) && Next(s, s')
    ensures Inv(s') && SameRecords(s, s')
  {
    var t: nat, a :| Does(s, s', t, a);
    DoesInv(s, s', t, a);
  }

  lemma InitInv(s: Sys)
    requires Init(s)
    ensures Inv(s)
  {
    CI.InitInv(s.central);
    assert forall c: nat {:trigger Of(s.central.st, User(c))} :: Of(s.central.st, User(c)) == [];
  }

  lemma {:induction false} RunInv(r: seq<Sys>, i: nat)
    requires Run(r) && i < |r|
    ensures Inv(r[i])
  {
    if i == 0 {
      InitInv(r[0]);
    } else {
      RunInv(r, i - 1);
      assert StepAt(r, i - 1);
      NextInv(r[i - 1], r[i]);
    }
  }

  /** Over any run: live blocks share no byte and are as long as was asked for, and not
      longer than they have to be. */
  lemma BlocksAreApart(r: seq<Sys>, i: nat, a: Block, b: Block)
    requires Run(r) && i < |r| && Live(r[i], a) && Live(r[i], b)
    ensures SpanOf(a) in r[i].page.h.spans && SpanOf(b) in r[i].page.h.spans
    ensures Requested(r[i], a) <= Room(r[i], a)
    ensures a.Small? ==> forall j: nat :: CalculateSize(j) < Room(r[i], a) ==> CalculateSize(j) < Requested(r[i], a)
    ensures a.Large? ==> Room(r[i], a) < Requested(r[i], a) + 4096
    ensures a != b ==> || Address(r[i], a) + Room(r[i], a) <= Address(r[i], b)
                       || Address(r[i], b) + Room(r[i], b) <= Address(r[i], a)
  {
    RunInv(r, i);
    LargeEnough(r[i], a);
    NotTooLarge(r[i], a);
    LiveSpan(r[i], b);
    if a != b { Disjoint(r[i], a, b); }
  }

  /** Over any run: the address of a live block leads `am_free` to the block's own
      span, to the right route, class and slot, however often spans were recycled,
      split and merged before. */
  lemma FreeFindsItsBlock(r: seq<Sys>, i: nat, b: Block)
    requires Run(r) && i < |r| && Live(r[i], b)
    ensures SpanOf(b) in r[i].page.h.spans
    ensures Resolve(r[i].page.h, Address(r[i], b)) ==
            match b
            case Small(o) => ToClass(o.span, r[i].central.st.spans[o.span].cls, o.slot)
            case Large(id) => ToPages(id)
  {
    RunInv(r, i);
    Resolves(r[i], b);
  }

  /** Over any run: wherever an object is, a release of it through its address
      reaches the bitmap of its own span. */
  lemma ReleaseFindsItsSpan(r: seq<Sys>, i: nat, b: Box, o: Obj)
    requires Run(r) && i < |r| && o in Of(r[i].central.st, b)
    ensures o.span in r[i].central.st.spans && o.span in r[i].page.h.spans
    ensures Resolve(r[i].page.h, Address(r[i], Small(o))) == ToClass(o.span, ClassOf(r[i].central.st, b), o.slot)
  {
    RunInv(r, i);
    BoxSlot(r[i], b, o);
    SlotResolves(r[i], o);
  }

  lemma BoxSlot(s: Sys, b: Box, o: Obj)
    requires StoreInv(s.central.st) && o in Of(s.central.st, b)
    ensures IsSlot(s, o) && s.central.st.spans[o.span].cls == ClassOf(s.central.st, b)
  {
    assert o in s.central.st.places;
  }

  lemma StaysPut(s: Sys, s': Sys, b: Block)
    requires Inv(s) && Inv(s') && SameRecords(s, s') && Live(s, b) && Live(s', b)
    ensures SpanOf(b) in s.page.h.spans && SpanOf(b) in s'.page.h.spans
    ensures s'.page.h.spans[SpanOf(b)] == s.page.h.spans[SpanOf(b)]
  {
    LiveSpan(s, b);
    LiveSpan(s', b);
    assert Used(s'.page.h)[SpanOf(b)] == Used(s.page.h)[SpanOf(b)];
  }

  ghost predicate LiveAt(r: seq<Sys>, k: nat, b: Block) { k < |r| && Live(r[k], b) }

  /** Block b begins at `addr` and has `room` bytes. */
  ghost predicate PlacedAt(r: seq<Sys>, k: nat, b: Block, addr: nat, room: nat)
  {
    k < |r| && SpanOf(b) in r[k].page.h.spans && Address(r[k], b) == addr && Room(r[k], b) == room
  }

  lemma PutStep(r: seq<Sys>, k: nat, b: Block, addr: nat, room: nat)
    requires Run(r) && LiveAt(r, k, b) && LiveAt(r, k + 1, b) && PlacedAt(r, k, b, addr, room)
    ensures PlacedAt(r, k + 1, b, addr, room)
  {
    RunInv(r, k);
    assert StepAt(r, k);
    NextInv(r[k], r[k + 1]);
    StaysPut(r[k], r[k + 1], b);
  }

  /** Over any run: as long as a block is live its address and its room do not
      change. */
  lemma {:induction false} BlocksStayPut(r: seq<Sys>, i: nat, j: nat, b: Block, addr: nat, room: nat)
    requires Run(r) && i <= j < |r| && PlacedAt(r, i, b, addr, room) && forall k: nat :: i <= k <= j ==> LiveAt(r, k, b)
    ensures PlacedAt(r, j, b, addr, room)
    decreases j - i
  {
    if i < j {
      BlocksStayPut(r, i, j - 1, b, addr, room);
      assert LiveAt(r, j - 1, b) && LiveAt(r, j, b);
      PutStep(r, j - 1, b, addr, room);
    }
  }

  /** A free takes exactly its own block out of the user's hands. */
  lemma FreeTakesOnlyItsBlock(r: seq<Sys>, i: nat, t: nat, b: Block, k: nat, cacheless: bool, x: Block)
    requires Run(r) && i + 1 < |r| && Free(r[i], r[i + 1], t, b, k, cacheless)
    ensures Live(r[i + 1], x) <==> Live(r[i], x) && x != b
  {
    RunInv(r, i);
    FreeTakes(r[i], r[i + 1], t, b, k, cacheless, x);
  }

  lemma FreeTakes(s: Sys, s': Sys, t: nat, b: Block, k: nat, cacheless: bool, x: Block)
    requires Inv(s) && Free(s, s', t, b, k, cacheless)
    ensures Live(s', x) <==> Live(s, x) && x != b
  {
    if b.Small? {
      FreeSmallInv(s, s', t, b.o, k, cacheless);
      SmallGone(s, s', b.o, k, x);
    } else {
      FreeLargeInv(s, s', t, b.id, k, cacheless);
    }
  }

  /** Over any run: a freed small block goes to the front of the freeing thread's own
      list, or, from a thread that has no cache, into a batch of its own on the way to
      CentralCache; a freed large block goes back to PageCache. */
  lemma FreeGoesTo(r: seq<Sys>, i: nat, t: nat, b: Block, k: nat, cacheless: bool)
    requires Run(r) && i + 1 < |r| && Free(r[i], r[i + 1], t, b, k, cacheless)
    ensures match b
            case Large(id) => id !in Used(r[i + 1].page.h)
            case Small(o) =>
              && o.span in r[i].central.st.spans
              && var c, st, st' := r[i].central.st.spans[o.span].cls, r[i].central.st, r[i + 1].central.st;
                 if cacheless then Of(st', Batch(t)) == [o] && Of(st', Local(t, c)) == Of(st, Local(t, c))
                 else Of(st', Local(t, c)) == [o] + Of(st, Local(t, c))
  {
    RunInv(r, i);
    FreePlaces(r[i], r[i + 1], t, b, k, cacheless);
  }

  lemma FreePlaces(s: Sys, s': Sys, t: nat, b: Block, k: nat, cacheless: bool)
    requires Inv(s) && Free(s, s', t, b, k, cacheless)
    ensures match b
            case Large(id) => id !in Used(s'.page.h)
            case Small(o) =>
              && o.span in s.central.st.spans
              && var c, st, st' := s.central.st.spans[o.span].cls, s.central.st, s'.central.st;
                 if cacheless then Of(st', Batch(t)) == [o] && Of(st', Local(t, c)) == Of(st, Local(t, c))
                 else Of(st', Local(t, c)) == [o] + Of(st, Local(t, c))
  {
    Resolves(s, b);
    if b.Large? {
      P.ReleaseInv(s.page, s'.page, b.id);
    } else {
      FreedPlace(s.central, s'.central, t, s.central.st.spans[b.o.span].cls, k, cacheless);
    }
  }

  lemma FreedPlace(k: C.Sys, k': C.Sys, t: nat, c: nat, i: nat, cacheless: bool)
    requires C.Inv(k) && i < |Of(k.st, User(c))|
    requires if cacheless then C.StartSingle(k, k', t, c, i) else C.UserFree(k, k', t, c, i)
    ensures var o := Of(k.st, User(c))[i];
            if cacheless then Of(k'.st, Batch(t)) == [o] && Of(k'.st, Local(t, c)) == Of(k.st, Local(t, c))
            else Of(k'.st, Local(t, c)) == [o] + Of(k.st, Local(t, c))
  {
    assert C.PcOk(k.st, t, k.threads[t].pc);
    assert Of(k.st, Batch(t)) == [];
    var m := Enter(k.st, t, c);
    assert Of(m, User(c)) == Of(k.st, User(c)) && Of(m, Batch(t)) == [];
  }

  lemma SmallGone(s: Sys, s': Sys, o: Obj, k: nat, x: Block)
    requires StoreInv(s.central.st) && Live(s, Small(o)) && s'.large == s.large
    requires var c := s.central.st.spans[o.span].cls;
             Gone(s.central.st, s'.central.st, c, k) && Of(s.central.st, User(c))[k] == o
    ensures Live(s', x) <==> Live(s, x) && x != Small(o)
  {
    var c := s.central.st.spans[o.span].cls;
    DropMembers(Of(s.central.st, User(c)), k);
  }

  /** A small allocation hands out a block that was not in use. */
  lemma MallocGivesNewBlock(r: seq<Sys>, i: nat, t: nat, size: nat)
    requires Run(r) && i + 1 < |r| && MallocSmall(r[i], r[i + 1], t, size)
    ensures var o := Of(r[i].central.st, Local(t, CalculateIndex(size)))[0];
            !Live(r[i], Small(o)) && Live(r[i + 1], Small(o)) && Requested(r[i + 1], Small(o)) == size
  {
    RunInv(r, i);
    var s, s', c := r[i], r[i + 1], CalculateIndex(size);
    var o := Of(s.central.st, Local(t, c))[0];
    MallocNew(s, s', t, size, o);
  }

  lemma MallocNew(s: Sys, s': Sys, t: nat, size: nat, o: Obj)
    requires StoreInv(s.central.st) && MallocSmall(s, s', t, size)
    requires o == Of(s.central.st, Local(t, CalculateIndex(size)))[0]
    ensures !Live(s, Small(o)) && Live(s', Small(o))
  {
    var c := CalculateIndex(size);
    assert o in Of(s.central.st, Local(t, c));
    assert o in s.central.st.places;
    MallocGives(s.central, s'.central, t, c);
    assert o in Of(s'.central.st, User(c));
  }

  /** A large allocation hands out a span that no one held. */
  lemma LargeGivesNewBlock(r: seq<Sys>, i: nat, size: nat, env: PageCache.Env, id: nat)
    requires Run(r) && i + 1 < |r| && MallocLarge(r[i], r[i + 1], size, env, id)
    ensures !Live(r[i], Large(id)) && id !in r[i].central.st.spans && Live(r[i + 1], Large(id))
    ensures Requested(r[i + 1], Large(id)) == size
  {
    RunInv(r, i);
    MallocLargeInv(r[i], r[i + 1], size, env, id);
  }
}
