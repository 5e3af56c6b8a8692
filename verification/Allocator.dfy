/** The whole allocator: the routing of src/ammalloc.cpp over CentralCache and the
    page layer, under every interleaving of threads, of failures and of the
    scavenger. A pointer is a byte address; `am_free` finds its way from the
    address alone. */
module Allocator {
  import opened Config
  import opened Lists
  import opened CentralStore
  import opened CentralFrames
  import opened PageHeap
  import opened SizeClass
  import C = CentralCache
  import P = PageLayer
  import PageCache
  import SpanLayout

  /** `large` and `asked` record the requested sizes of the user's large blocks, by
      span, and of its small ones. */
  datatype Sys = Sys(page: P.Sys, central: C.Sys, large: map<nat, nat>, asked: map<Obj, nat>)

  /** A block in the user's hands: an object slot, or a whole span. */
  datatype Block = Small(o: Obj) | Large(id: nat)

  function SpanOf(b: Block): nat { if b.Small? then b.o.span else b.id }

  predicate Live(s: Sys, b: Block)
  {
    match b
    case Small(o) => o.span in s.central.st.spans && o in Of(s.central.st, User(s.central.st.spans[o.span].cls))
    case Large(id) => id in s.large
  }

  /** The first byte of the slots of a span, by its record. */
  function SlotBase(r: SpanRec): nat { r.start * 4096 + SpanLayout.ComputeSpanLayout(r.objSize, r.pages).objOffset }

  function SlotAddress(base: nat, slot: nat, size: nat): nat { base + slot * size }

  /** `ObjectSlotOf`, for an address on the grid. */
  function SlotAt(base: nat, addr: nat, size: nat): nat
    requires size > 0
  {
    Quot(if addr < base then 0 else addr - base, size)
  }

  lemma SlotRoundTrip(base: nat, slot: nat, size: nat)
    requires size > 0
    ensures SlotAt(base, SlotAddress(base, slot, size), size) == slot
  {
    assert (slot + 1) * size == slot * size + size;
    QuotientUnique(slot * size, size, slot);
  }

  /** Where a block begins and how many bytes from there on are its own, by the
      record of its span. */
  function AddressIn(r: SpanRec, b: Block): nat
  {
    if b.Small? then SlotAddress(SlotBase(r), b.o.slot, r.objSize) else r.start * 4096
  }

  function RoomIn(r: SpanRec, b: Block): nat { if b.Small? then r.objSize else r.pages * 4096 }

  function Address(s: Sys, b: Block): nat
    requires SpanOf(b) in s.page.h.spans
  {
    AddressIn(s.page.h.spans[SpanOf(b)], b)
  }

  function Room(s: Sys, b: Block): nat
    requires SpanOf(b) in s.page.h.spans
  {
    RoomIn(s.page.h.spans[SpanOf(b)], b)
  }

  function Requested(s: Sys, b: Block): nat
  {
    match b
    case Small(o) => if o in s.asked then s.asked[o] else 0
    case Large(id) => if id in s.large then s.large[id] else 0
  }

  // -------------------------------------------------------------------- routing

  /** Where `am_free` sends an address: nowhere, to PageCache, or to the free list
      of a class. */
  datatype Route = Ignored | ToPages(id: nat) | ToClass(id: nat, idx: nat, slot: nat)

  /** `PageMap::GetSpan` on the page of the address, then the object size in the
      span found. */
  function Resolve(h: Heap, addr: nat): Route
  {
    var page := addr / 4096;
    if page !in h.pageMap || h.pageMap[page] !in h.spans then Ignored
    else
      var id := h.pageMap[page];
      var r := h.spans[id];
      if r.objSize == 0 then ToPages(id)
      else ToClass(id, r.classIdx, SlotAt(SlotBase(r), addr, r.objSize))
  }

  // ---------------------------------------------------------------------- steps

  /** A small request served from the thread's free list of its class. */
  ghost predicate MallocSmall(s: Sys, s': Sys, t: nat, size: nat)
  {
    && size <= MAX_TC_SIZE && C.Malloc(s.central, s'.central, t, CalculateIndex(size))
    && s'.page == s.page && s'.large == s.large
    && s'.asked == s.asked[Of(s.central.st, Local(t, CalculateIndex(size)))[0] := size]
  }

  /** A large request takes whole pages; one that would wrap is refused. */
  ghost predicate MallocLarge(s: Sys, s': Sys, size: nat, env: PageCache.Env, id: nat)
  {
    && MAX_TC_SIZE < size <= MAX_SIZE_T - 4095
    && P.AllocReturns(s.page, s'.page, CeilDiv(size, 4096), env, id)
    && s'.central == s.central && s'.large == s.large[id := size] && s'.asked == s.asked
  }

  ghost predicate MallocFails(s: Sys, s': Sys, n: nat, env: PageCache.Env)
  {
    && P.Alloc(s.page, s'.page, n, env) && PageCache.AllocHeap(s.page.h, n, env).1.None?
    && s'.central == s.central && s'.large == s.large && s'.asked == s.asked
  }

  /** The user frees a block by its address; only the address decides the route. A
      thread without a cache releases the object by itself. */
  ghost predicate Free(s: Sys, s': Sys, t: nat, b: Block, i: nat, cacheless: bool)
  {
    && Live(s, b) && SpanOf(b) in s.page.h.spans && s'.asked == s.asked
    && match Resolve(s.page.h, Address(s, b))
       case Ignored => s' == s
       case ToPages(id) =>
         P.Release(s.page, s'.page, id) && s'.central == s.central && s'.large == s.large - {id}
       case ToClass(id, idx, slot) =>
         && s'.page == s.page && s'.large == s.large
         && i < |Of(s.central.st, User(idx))| && Of(s.central.st, User(idx))[i] == Obj(id, slot)
         && if cacheless then C.StartSingle(s.central, s'.central, t, idx, i)
            else C.UserFree(s.central, s'.central, t, idx, i)
  }

  /** `GetOneSpan`: pages from PageCache, carved for the class. */
  ghost predicate RefillSpan(s: Sys, m: P.Sys, s': Sys, t: nat, env: PageCache.Env, id: nat)
  {
    && C.AskGot(s.central, s'.central, t, id) && s'.large == s.large && s'.asked == s.asked
    && var c := s.central.threads[t].pc.c;
       && P.AllocReturns(s.page, m, MovePages(c), env, id)
       && P.Carve(m, s'.page, id, CalculateSize(c), c)
  }

  ghost predicate RefillFails(s: Sys, s': Sys, t: nat, env: PageCache.Env)
  {
    && C.AskNone(s.central, s'.central, t) && s'.large == s.large && s'.asked == s.asked
    && var n := MovePages(s.central.threads[t].pc.c);
       P.Alloc(s.page, s'.page, n, env) && PageCache.AllocHeap(s.page.h, n, env).1.None?
  }

  /** An empty span goes back to PageCache. */
  ghost predicate ReturnSpan(s: Sys, s': Sys, t: nat)
  {
    && C.DropEmpty(s.central, s'.central, t) && P.Release(s.page, s'.page, s.central.threads[t].empties[0])
    && s'.large == s.large && s'.asked == s.asked
  }

  /** Everything CentralCache does without the user and without PageCache. */
  ghost predicate Inside(s: Sys, s': Sys, t: nat, a: C.Action)
  {
    && Internal(a) && C.Do(s.central, s'.central, t, a)
    && !(a.Continue? && (C.DropEmpty(s.central, s'.central, t) || C.AskNone(s.central, s'.central, t)))
    && s'.page == s.page && s'.large == s.large && s'.asked == s.asked
  }

  ghost predicate Scavenge(s: Sys, s': Sys, id: nat)
  {
    && (P.Detach(s.page, s'.page, id) || P.Advise(s.page, s'.page, id) || P.Return(s.page, s'.page, id))
    && s'.central == s.central && s'.large == s.large && s'.asked == s.asked
  }

  // ------------------------------------------------------------------- invariant

  /** A span carved for a class has the pages, the object size, the class index and
      the capacity of that class. */
  predicate CarvedFor(r: SpanRec, sp: CSpan)
  {
    && sp.cls < NUM_CLASSES && r.objSize == CalculateSize(sp.cls) && r.classIdx == sp.cls
    && r.pages == MovePages(sp.cls) && sp.cap == C.ClassCapacity(sp.cls)
  }

  /** Every span in use is CentralCache's, a large block, or in the scavenger's
      hands, and only one of these. */
  ghost predicate Owned(s: Sys)
  {
    && (forall id: nat :: id in Used(s.page.h) <==> id in s.central.st.spans || id in s.large || id in s.page.detached)
    && (forall id: nat :: id in s.central.st.spans ==> id !in s.large && id !in s.page.detached)
    && (forall id: nat :: id in s.large ==> id !in s.page.detached)
  }

  ghost predicate RecordsOk(s: Sys)
  {
    && (forall id: nat :: id in s.central.st.spans ==>
        id in Used(s.page.h) && CarvedFor(Used(s.page.h)[id], s.central.st.spans[id]))
    && (forall id: nat :: id in s.large ==>
          && id in Used(s.page.h) && Used(s.page.h)[id].objSize == 0 && s.large[id] > MAX_TC_SIZE
          && s.large[id] <= Used(s.page.h)[id].pages * 4096 < s.large[id] + 4096)
  }

  ghost predicate AskedOk(s: Sys)
  {
    forall c: nat, o: Obj {:trigger o in Of(s.central.st, User(c))} :: o in Of(s.central.st, User(c)) ==>
      o in s.asked && s.asked[o] <= MAX_TC_SIZE && CalculateIndex(s.asked[o]) == c
  }

  ghost predicate Inv(s: Sys)
  {
    P.Inv(s.page) && C.Inv(s.central) && Owned(s) && RecordsOk(s) && AskedOk(s)
  }

  // ------------------------------------------------- what the invariant gives

  lemma LiveSpan(s: Sys, b: Block)
    requires Inv(s) && Live(s, b)
    ensures SpanOf(b) in s.page.h.spans && SpanOf(b) in Used(s.page.h)
  {}

  /** A small block is a slot below the capacity of its span. */
  lemma LiveSlot(s: Sys, o: Obj)
    requires Inv(s) && Live(s, Small(o))
    ensures o.slot < s.central.st.spans[o.span].cap
  {
    var st := s.central.st;
    assert o in Of(st, User(st.spans[o.span].cls));
    assert o in st.places;
  }

  /** A record that can hold block b. */
  ghost predicate HoldsBlock(r: SpanRec, b: Block)
  {
    r.pages > 0 && if b.Small? then exists sp: CSpan :: CarvedFor(r, sp) && b.o.slot < sp.cap else r.objSize == 0
  }

  /** Slot o of a carved span. */
  predicate IsSlot(s: Sys, o: Obj) { o.span in s.central.st.spans && o.slot < s.central.st.spans[o.span].cap }

  lemma SlotRecord(s: Sys, o: Obj)
    requires Inv(s) && IsSlot(s, o)
    ensures o.span in s.page.h.spans && HoldsBlock(s.page.h.spans[o.span], Small(o))
    ensures s.page.h.spans[o.span].classIdx == s.central.st.spans[o.span].cls
  {
    var r := s.page.h.spans[o.span];
    assert Used(s.page.h)[o.span] == r;
    assert CarvedFor(r, s.central.st.spans[o.span]);
  }

  lemma LiveRecord(s: Sys, b: Block)
    requires Inv(s) && Live(s, b)
    ensures SpanOf(b) in s.page.h.spans && HoldsBlock(s.page.h.spans[SpanOf(b)], b)
  {
    LiveSpan(s, b);
    if b.Small? {
      LiveSlot(s, b.o);
      SlotRecord(s, b.o);
    } else {
      assert Used(s.page.h)[b.id] == s.page.h.spans[b.id];
    }
  }

  ghost predicate InPages(r: SpanRec, addr: nat, n: nat)
  {
    n > 0 && r.start * 4096 <= addr && addr + n <= (r.start + r.pages) * 4096
  }

  lemma InsideRecord(r: SpanRec, b: Block)
    requires HoldsBlock(r, b)
    ensures InPages(r, AddressIn(r, b), RoomIn(r, b))
  {
    if b.Small? {
      var sp :| CarvedFor(r, sp) && b.o.slot < sp.cap;
      SlotInside(r, sp, b.o.slot);
    }
  }

  lemma SlotInside(r: SpanRec, sp: CSpan, slot: nat)
    requires CarvedFor(r, sp) && slot < sp.cap
    ensures r.objSize > 0 && InPages(r, SlotAddress(SlotBase(r), slot, r.objSize), r.objSize)
  {
    SizePositive(sp.cls);
    SlotInRecord(r, slot);
  }

  lemma SlotInRecord(r: SpanRec, slot: nat)
    requires r.objSize > 0 && slot < SpanLayout.ComputeSpanLayout(r.objSize, r.pages).capacity
    ensures InPages(r, SlotAddress(SlotBase(r), slot, r.objSize), r.objSize)
  {
    var l := SpanLayout.ComputeSpanLayout(r.objSize, r.pages);
    SpanLayout.LayoutSound(r.objSize, r.pages);
    SpanLayout.SlotsDisjoint(r.objSize, slot, l.capacity);
    SlotFits(r, l.objOffset, slot * r.objSize, l.capacity * r.objSize);
  }

  lemma SlotFits(r: SpanRec, offset: nat, x: nat, y: nat)
    requires r.objSize > 0 && offset + y <= r.pages * 4096 && x + r.objSize <= y
    ensures InPages(r, r.start * 4096 + offset + x, r.objSize)
  {}

  /** The bytes of a block lie inside the pages of its span. */
  lemma InsideSpan(s: Sys, b: Block)
    requires Inv(s) && Live(s, b)
    ensures SpanOf(b) in s.page.h.spans && InPages(s.page.h.spans[SpanOf(b)], Address(s, b), Room(s, b))
  {
    LiveRecord(s, b);
    InsideRecord(s.page.h.spans[SpanOf(b)], b);
  }

  lemma PageOf(addr: nat, start: nat, pages: nat)
    requires start * 4096 <= addr < (start + pages) * 4096
    ensures Within(addr / 4096, start, pages)
  {}

  /** An address inside a span's pages resolves to that span. */
  lemma ResolvesTo(h: Heap, id: nat, addr: nat)
    requires Valid(h) && id in h.spans && InPages(h.spans[id], addr, 1)
    ensures addr / 4096 in h.pageMap && h.pageMap[addr / 4096] == id
  {
    PageOf(addr, h.spans[id].start, h.spans[id].pages);
    LookupExact(h, addr / 4096);
    assert Covers(h.spans[id], addr / 4096);
  }

  function RouteFor(r: SpanRec, id: nat, b: Block): Route
  {
    match b
    case Small(o) => ToClass(id, r.classIdx, o.slot)
    case Large(_) => ToPages(id)
  }

  lemma RouteOf(h: Heap, id: nat, b: Block)
    requires id in h.spans && (b.Small? <==> h.spans[id].objSize > 0)
    requires var addr := AddressIn(h.spans[id], b); addr / 4096 in h.pageMap && h.pageMap[addr / 4096] == id
    ensures Resolve(h, AddressIn(h.spans[id], b)) == RouteFor(h.spans[id], id, b)
  {
    var r := h.spans[id];
    if b.Small? { SlotRoundTrip(SlotBase(r), b.o.slot, r.objSize); }
  }

  lemma ObjectSize(r: SpanRec, b: Block)
    requires HoldsBlock(r, b)
    ensures b.Small? <==> r.objSize > 0
  {
    if b.Small? {
      var sp :| CarvedFor(r, sp) && b.o.slot < sp.cap;
      SizePositive(sp.cls);
    }
  }

  /** The address of any slot of any carved span, wherever the object is, leads
      through the page map to that span, its class and the slot. */
  lemma SlotResolves(s: Sys, o: Obj)
    requires Inv(s) && IsSlot(s, o)
    ensures o.span in s.page.h.spans
    ensures Resolve(s.page.h, Address(s, Small(o))) == ToClass(o.span, s.central.st.spans[o.span].cls, o.slot)
  {
    SlotRecord(s, o);
    RecordResolves(s.page.h, o.span, Small(o));
  }

  lemma RecordResolves(h: Heap, id: nat, b: Block)
    requires Valid(h) && id in h.spans && HoldsBlock(h.spans[id], b)
    ensures Resolve(h, AddressIn(h.spans[id], b)) == RouteFor(h.spans[id], id, b)
  {
    InsideRecord(h.spans[id], b);
    ResolvesTo(h, id, AddressIn(h.spans[id], b));
    ObjectSize(h.spans[id], b);
    RouteOf(h, id, b);
  }

  /** `am_free` resolves the address of a live block to the block's own span, to
      the right route, and for a small block to its class and slot. */
  lemma Resolves(s: Sys, b: Block)
    requires Inv(s) && Live(s, b)
    ensures SpanOf(b) in s.page.h.spans
    ensures Resolve(s.page.h, Address(s, b)) ==
            match b
            case Small(o) => ToClass(o.span, s.central.st.spans[o.span].cls, o.slot)
            case Large(id) => ToPages(id)
  {
    if b.Small? {
      LiveSlot(s, b.o);
      SlotResolves(s, b.o);
    } else {
      LiveRecord(s, b);
      RecordResolves(s.page.h, b.id, b);
    }
  }

  /** Two live blocks share no byte. */
  lemma Disjoint(s: Sys, a: Block, b: Block)
    requires Inv(s) && Live(s, a) && Live(s, b) && a != b
    ensures SpanOf(a) in s.page.h.spans && SpanOf(b) in s.page.h.spans
    ensures Address(s, a) + Room(s, a) <= Address(s, b) || Address(s, b) + Room(s, b) <= Address(s, a)
  {
    InsideSpan(s, a);
    InsideSpan(s, b);
    if SpanOf(a) == SpanOf(b) {
      SameSpanDisjoint(s, a, b);
    } else {
      SpansDisjoint(s.page.h, SpanOf(a), SpanOf(b));
    }
  }

  lemma SameSpanDisjoint(s: Sys, a: Block, b: Block)
    requires Inv(s) && Live(s, a) && Live(s, b) && a != b && SpanOf(a) == SpanOf(b) && SpanOf(a) in s.page.h.spans
    ensures Address(s, a) + Room(s, a) <= Address(s, b) || Address(s, b) + Room(s, b) <= Address(s, a)
  {
    var size := s.page.h.spans[SpanOf(a)].objSize;
    assert a.Small? && b.Small?;
    assert a.o != b.o && a.o.slot != b.o.slot;
    if a.o.slot < b.o.slot { SpanLayout.SlotsDisjoint(size, a.o.slot, b.o.slot); }
    else { SpanLayout.SlotsDisjoint(size, b.o.slot, a.o.slot); }
  }

  lemma SpansDisjoint(h: Heap, x: nat, y: nat)
    requires Valid(h) && x in h.spans && y in h.spans && x != y
    ensures var a, b := h.spans[x], h.spans[y];
            (a.start + a.pages) * 4096 <= b.start * 4096 || (b.start + b.pages) * 4096 <= a.start * 4096
  {
    var a, b := h.spans[x], h.spans[y];
    var p := Max(a.start, b.start);
    LookupExact(h, p);
    assert !(Covers(h.spans[x], p) && Covers(h.spans[y], p));
  }

  /** Every block has at least the bytes that were asked for. */
  lemma LargeEnough(s: Sys, b: Block)
    requires Inv(s) && Live(s, b)
    ensures SpanOf(b) in s.page.h.spans && Requested(s, b) <= Room(s, b)
  {
    LiveSpan(s, b);
    assert Used(s.page.h)[SpanOf(b)] == s.page.h.spans[SpanOf(b)];
    if b.Small? {
      assert b.o in Of(s.central.st, User(s.central.st.spans[b.o.span].cls));
      IndexIsSmallest(s.asked[b.o]);
    }
  }

  /** No block is larger than it has to be: a small one is of the smallest class that
      holds the request, a large one has no page to spare. */
  lemma NotTooLarge(s: Sys, b: Block)
    requires Inv(s) && Live(s, b)
    ensures SpanOf(b) in s.page.h.spans && (b.Small? <==> Requested(s, b) <= MAX_TC_SIZE)
    ensures b.Small? ==> forall j: nat :: CalculateSize(j) < Room(s, b) ==> CalculateSize(j) < Requested(s, b)
    ensures b.Large? ==> Room(s, b) < Requested(s, b) + 4096
  {
    LiveSpan(s, b);
    assert Used(s.page.h)[SpanOf(b)] == s.page.h.spans[SpanOf(b)];
    if b.Small? {
      assert b.o in Of(s.central.st, User(s.central.st.spans[b.o.span].cls));
      var c := s.central.st.spans[b.o.span].cls;
      SmallestClass(s.asked[b.o], c);
    }
  }

  lemma SmallestClass(size: nat, c: nat)
    requires CalculateIndex(size) == c
    ensures forall j: nat :: CalculateSize(j) < CalculateSize(c) ==> CalculateSize(j) < size
  {
    IndexIsSmallest(size);
    forall j: nat | CalculateSize(j) < CalculateSize(c)
      ensures CalculateSize(j) < size
    {
      if c < j { SizeStrictlyIncreasing(c, j); }
    }
  }
}
