/** "A thread's list never exceeds its quota" is false of src/thread_cache.cpp:
    when a list comes to exceed it, and that every class gets there. */
module ThreadCacheOverrun {
  import opened Config
  import opened Lists
  import opened SizeClass
  import opened ThreadCacheFlow
  import opened ThreadCaches

  predicate Over(l: FList) { |l.items| > l.max }

  // ------------------------------------------------------------- exactly when

  /** A trimmed list is not newly over its quota, and the overages of a quota above
      one batch are forgotten. */
  lemma TrimmedNotOver(l: FList, batch: nat, mode: Mode, e: nat)
    requires e <= |l.items| && l.max >= 1
    ensures !Over(l) ==> !Over(TrimmedList(l, batch, mode, e))
    ensures TrimmedList(l, batch, mode, e).max > batch ==> TrimmedList(l, batch, mode, e).over == 0
  {}

  lemma TrimNotOver(c: Cache, mode: Mode, target: nat, k: nat)
    requires |c.lists| == NUM_CLASSES && k < NUM_CLASSES && c.lists[k].max >= 1
    ensures var c' := Trim(c, mode, target);
            && |c'.lists| == NUM_CLASSES && (!Over(c.lists[k]) ==> !Over(c'.lists[k]))
            && (c'.lists[k].max > BatchSize(k) ==> c'.lists[k].over == 0)
  {
    var e := TrimmedOnce(c, |c.lists|, mode, Cached(c), target, k);
    TrimmedNotOver(c.lists[k], BatchSize(k), mode, e);
  }

  /** The deallocation that takes class k over its quota: no trim is pending, the
      list is full, two overflows came before, and the quota is two batches or
      more. */
  predicate TakesOver(c: Cache, op: Op, k: nat)
    requires k < |c.lists|
  {
    && op.DoDeallocate? && op.idx == k && op.req.epoch == c.epoch
    && |c.lists[k].items| == c.lists[k].max && c.lists[k].over == 2 && c.lists[k].max >= 2 * BatchSize(k)
  }

  lemma HandleNotOver(c: Cache, req: Request, k: nat)
    requires |c.lists| == NUM_CLASSES && k < NUM_CLASSES && c.lists[k].max >= 1
    ensures var c' := Handle(c, req);
            && |c'.lists| == NUM_CLASSES && (!Over(c.lists[k]) ==> !Over(c'.lists[k]))
            && (req.epoch != c.epoch && c'.lists[k].max > BatchSize(k) ==> c'.lists[k].over == 0)
  {
    if req.epoch != c.epoch { TrimNotOver(c, req.mode, TrimTarget(req.mode), k); }
  }

  /** The overflow itself, after any pending trim. */
  lemma OverflowOver(c: Cache, idx: nat, k: nat)
    requires Loose(c, idx) && idx < NUM_CLASSES && k < NUM_CLASSES && (k != idx ==> !Over(c.lists[k]))
    ensures var c', l := Overflow(c, idx), c.lists[k];
            && |c'.lists| == NUM_CLASSES
            && (Over(c'.lists[k]) <==> k == idx && Over(l) && l.over == 2 && l.max >= 2 * BatchSize(k))
  {
    if Over(c.lists[idx]) { ExtraObjectExactly(c, idx); }
  }

  lemma DeallocateOver(c: Cache, idx: nat, ptr: nat, req: Request, k: nat)
    requires Rest(c) && idx < NUM_CLASSES && k < NUM_CLASSES && !Over(c.lists[k])
    requires |Handle(Pushed(c, idx, ptr), req).lists| == NUM_CLASSES
    ensures var c' := Deallocate(c, idx, ptr, req);
            |c'.lists| == NUM_CLASSES && (Over(c'.lists[k]) <==> TakesOver(c, DoDeallocate(idx, ptr, req), k))
  {
    var pushed := Pushed(c, idx, ptr);
    PushedLoose(c, idx, ptr);
    if Over(pushed.lists[idx]) {
      HandleKeeps(pushed, req, idx);
      HandleNotOver(pushed, req, k);
      OverflowOver(Handle(pushed, req), idx, k);
    }
  }

  lemma AllocateOver(c: Cache, idx: nat, got: seq<nat>, req: Request, k: nat)
    requires Rest(c) && k < NUM_CLASSES && !Over(c.lists[k]) && OpOk(c, DoAllocate(idx, got, req))
    ensures var c' := Allocate(c, idx, got, req).0;
            |c'.lists| == NUM_CLASSES && !Over(c'.lists[k])
  {
    if c.lists[idx].items == [] {
      HandleKeeps(c, req, NUM_CLASSES);
      HandleNotOver(c, req, k);
      assert Handle(c, req).lists[idx].items == [];
      RefillOver(Handle(c, req), idx, got, k);
    }
  }

  lemma RefillOver(c: Cache, idx: nat, got: seq<nat>, k: nat)
    requires k < |c.lists| && idx < |c.lists| && !Over(c.lists[k]) && c.lists[idx].items == []
    requires 1 <= c.lists[idx].max <= 8 * BatchSize(idx) && |got| <= Min(BatchSize(idx), c.lists[idx].max)
    ensures var c' := Refill(c, idx, got).0; |c'.lists| == |c.lists| && !Over(c'.lists[k])
  {
    RefillGrows(c.lists[idx].max, BatchSize(idx));
  }

  /** A step takes a list over its quota exactly when it is such a deallocation; no
      trim, refill, allocation or release does, nor work on another class. */
  lemma NewlyOverExactly(c: Cache, c': Cache, op: Op, k: nat)
    requires Rest(c) && OpOk(c, op) && Does(c, c', op) && k < NUM_CLASSES && !Over(c.lists[k])
    ensures |c'.lists| == NUM_CLASSES && (Over(c'.lists[k]) <==> TakesOver(c, op, k))
  {
    match op
    case DoAllocate(idx, got, req) => AllocateOver(c, idx, got, req, k);
    case DoDeallocate(idx, ptr, req) => DeallocateOver(c, idx, ptr, req, k);
    case DoTrim(mode, target) => TrimNotOver(c, mode, target, k);
    case DoHandle(req) => TrimNotOver(c, req.mode, TrimTarget(req.mode), k);
    case DoReleaseAll => ReleaseFromRest(c, 0);
  }

  /** In every run a list goes over its quota exactly then. */
  lemma GoesOverExactly(r: seq<Cache>, i: nat, op: Op, k: nat)
    requires Run(r) && i + 1 < |r| && OpOk(r[i], op) && Does(r[i], r[i + 1], op)
    requires k < NUM_CLASSES && k < |r[i].lists| && !Over(r[i].lists[k])
    ensures |r[i + 1].lists| == NUM_CLASSES && (Over(r[i + 1].lists[k]) <==> TakesOver(r[i], op, k))
  {
    RunRest(r, i);
    NewlyOverExactly(r[i], r[i + 1], op, k);
  }

  // ------------------------------------------------------- that it is reached

  /** Cache c, whose lists are new, with l as the list of class k. */
  function With(c: Cache, k: nat, l: FList): Cache
    requires k < |c.lists|
  {
    c.(lists := c.lists[k := l], reserved := c.reserved - Bytes(k, 1) + Bytes(k, l.max))
  }

  /** What is cached are distinct addresses below lim, and not null. */
  ghost predicate Below(q: seq<nat>, lim: nat)
  {
    NoDup(q) && forall p: nat :: p in q ==> 0 < p < lim
  }

  function Last(r: seq<Cache>): Cache
    requires |r| > 0
  {
    r[|r| - 1]
  }

  lemma Extend(r: seq<Cache>, c: Cache)
    requires ProperRun(r) && ProperStep(Last(r), c)
    ensures ProperRun(r + [c]) && Last(r + [c]) == c && (r + [c])[0] == r[0]
  {
    var q := r + [c];
    forall i: nat | i + 1 < |q|
      ensures ProperAt(q, i)
    {
      if i + 1 < |r| { assert ProperAt(r, i); } else { assert q[i] == Last(r) && q[i + 1] == c; }
    }
  }

  /** No trim is asked for. */
  function Quiet(c: Cache): Request { Request(c.epoch, Reuse) }

  /** The run so far has only touched class k, and the quota of l is affordable. */
  ghost predicate Reached(r: seq<Cache>, k: nat, l: FList, lim: nat)
  {
    && ProperRun(r) && k < NUM_CLASSES && r[0].budget >= DEFAULT_BUDGET && Last(r) == With(r[0], k, l)
    && 1 <= l.max <= 8 * BatchSize(k) && Below(l.items, lim) && lim >= 1
  }

  lemma NoneElsewhere(c: Cache, k: nat, l: FList, p: nat)
    requires Fresh(c) && k < NUM_CLASSES && p !in l.items
    ensures forall j: nat :: j < NUM_CLASSES ==> p !in With(c, k, l).lists[j].items
  {
    assert forall j: nat :: j < NUM_CLASSES && j != k ==> With(c, k, l).lists[j] == FList([], 1, 0);
  }

  /** One more operation, on the list of class k. */
  lemma Onward(r: seq<Cache>, k: nat, l: FList, lim: nat, l': FList, lim': nat) returns (r': seq<Cache>)
    requires Reached(r, k, l, lim) && ProperStep(Last(r), With(r[0], k, l'))
    requires 1 <= l'.max <= 8 * BatchSize(k) && Below(l'.items, lim') && lim' >= 1
    ensures Reached(r', k, l', lim') && r'[0] == r[0]
  {
    Extend(r, With(r[0], k, l'));
    r' := r + [With(r[0], k, l')];
  }

  lemma FreeStep(c: Cache, k: nat, l: FList, p: nat, l': FList)
    requires Fresh(c) && k < NUM_CLASSES && p != 0 && p !in l.items
    requires var w := With(c, k, l);
             Handle(Pushed(w, k, p), Quiet(w)) == Pushed(w, k, p) && Deallocate(w, k, p, Quiet(w)) == With(c, k, l')
    ensures ProperStep(With(c, k, l), With(c, k, l'))
  {
    var w := With(c, k, l);
    var op := DoDeallocate(k, p, Quiet(w));
    NoneElsewhere(c, k, l, p);
    assert OpOk(w, op) && Does(w, With(c, k, l'), op) && Proper(w, op);
  }

  lemma PushValue(c: Cache, k: nat, l: FList, p: nat)
    requires k < |c.lists| == NUM_CLASSES && |l.items| < l.max
    ensures var w := With(c, k, l);
            && Handle(Pushed(w, k, p), Quiet(w)) == Pushed(w, k, p)
            && Deallocate(w, k, p, Quiet(w)) == With(c, k, l.(items := [p] + l.items))
  {}

  /** A block is freed while there is room. */
  lemma PushStep(r: seq<Cache>, k: nat, l: FList, lim: nat) returns (r': seq<Cache>)
    requires Reached(r, k, l, lim) && |l.items| < l.max
    ensures Reached(r', k, l.(items := [lim] + l.items), lim + 1) && r'[0] == r[0]
  {
    PushValue(r[0], k, l, lim);
    FreeStep(r[0], k, l, lim, l.(items := [lim] + l.items));
    r' := Onward(r, k, l, lim, l.(items := [lim] + l.items), lim + 1);
  }

  /** The list after an overflow. */
  function Spilled(l: FList, batch: nat, p: nat): FList
  {
    var (m, o) := NextAfterOverflow(l.max, batch, l.over);
    FList(KeptItems(l.(items := [p] + l.items), batch), m, o)
  }

  lemma SpillValue(c: Cache, k: nat, l: FList, p: nat)
    requires k < |c.lists| == NUM_CLASSES && |l.items| == l.max >= 1 && l.over <= 2
    ensures var w := With(c, k, l);
            && Handle(Pushed(w, k, p), Quiet(w)) == Pushed(w, k, p)
            && Deallocate(w, k, p, Quiet(w)) == With(c, k, Spilled(l, BatchSize(k), p))
  {
    var (m, o) := NextAfterOverflow(l.max, BatchSize(k), l.over);
    BytesAdd(k, m, l.max - m);
  }

  lemma SpilledOk(l: FList, batch: nat, lim: nat)
    requires 1 <= l.max <= 8 * batch && l.over <= 2 && Below(l.items, lim) && lim >= 1
    ensures 1 <= Spilled(l, batch, lim).max <= 8 * batch && Below(Spilled(l, batch, lim).items, lim + 1)
  {
    OverflowDecays(l.max, batch, l.over);
    var all := [lim] + l.items;
    BelowPush(l.items, lim);
    BelowPart(all, lim + 1, 0, |KeptItems(l.(items := all), batch)|);
  }

  lemma BelowPush(q: seq<nat>, lim: nat)
    requires Below(q, lim) && lim >= 1
    ensures Below([lim] + q, lim + 1)
  {
    PushMembers(q, lim);
  }

  lemma BelowPart(q: seq<nat>, lim: nat, i: nat, j: nat)
    requires Below(q, lim) && i <= j <= |q|
    ensures Below(q[i..j], lim)
  {
    forall p: nat | p in q[i..j] ensures 0 < p < lim { assert p in q; }
  }

  /** A block is freed to a full list. */
  lemma SpillStep(r: seq<Cache>, k: nat, l: FList, lim: nat) returns (r': seq<Cache>)
    requires Reached(r, k, l, lim) && |l.items| == l.max && l.over <= 2
    ensures Reached(r', k, Spilled(l, BatchSize(k), lim), lim + 1) && r'[0] == r[0]
  {
    SpillValue(r[0], k, l, lim);
    FreeStep(r[0], k, l, lim, Spilled(l, BatchSize(k), lim));
    SpilledOk(l, BatchSize(k), lim);
    r' := Onward(r, k, l, lim, Spilled(l, BatchSize(k), lim), lim + 1);
  }

  lemma PopProper(c: Cache, k: nat, l: FList)
    requires Fresh(c) && k < NUM_CLASSES && l.items != []
    ensures ProperStep(With(c, k, l), With(c, k, l.(items := l.items[1..])))
  {
    var w := With(c, k, l);
    var op := DoAllocate(k, [], Quiet(w));
    assert Handle(w, Quiet(w)) == w;
    assert OpOk(w, op) && Does(w, With(c, k, l.(items := l.items[1..])), op) && Proper(w, op);
  }

  /** A cached block is handed out. */
  lemma PopStep(r: seq<Cache>, k: nat, l: FList, lim: nat) returns (r': seq<Cache>)
    requires Reached(r, k, l, lim) && l.items != []
    ensures Reached(r', k, l.(items := l.items[1..]), lim) && r'[0] == r[0]
  {
    BelowPart(l.items, lim, 1, |l.items|);
    assert l.items[1..|l.items|] == l.items[1..];
    PopProper(r[0], k, l);
    r' := Onward(r, k, l, lim, l.(items := l.items[1..]), lim);
  }

  lemma {:induction false} PopAll(r: seq<Cache>, k: nat, l: FList, lim: nat) returns (r': seq<Cache>)
    requires Reached(r, k, l, lim)
    ensures Reached(r', k, l.(items := []), lim) && r'[0] == r[0]
    decreases |l.items|
  {
    if l.items == [] {
      r' := r;
    } else {
      r' := PopStep(r, k, l, lim);
      r' := PopAll(r', k, l.(items := l.items[1..]), lim);
    }
  }

  lemma {:induction false} PushAll(r: seq<Cache>, k: nat, l: FList, lim: nat)
    returns (r': seq<Cache>, l': FList, lim': nat)
    requires Reached(r, k, l, lim) && |l.items| <= l.max
    ensures Reached(r', k, l', lim') && r'[0] == r[0] && |l'.items| == l'.max == l.max && l'.over == l.over
    decreases l.max - |l.items|
  {
    if |l.items| == l.max {
      r', l', lim' := r, l, lim;
    } else {
      r' := PushStep(r, k, l, lim);
      r', l', lim' := PushAll(r', k, l.(items := [lim] + l.items), lim + 1);
    }
  }

  /** The list after a full refill whose growth is granted. */
  function Refilled(l: FList, batch: nat, got: seq<nat>): FList
    requires got != []
  {
    FList(got[1..], NextAfterRefill(l.max, batch), 0)
  }

  lemma RefillValue(c: Cache, k: nat, l: FList, got: seq<nat>)
    requires k < |c.lists| == NUM_CLASSES && l.items == [] && |got| == Min(BatchSize(k), l.max)
             && 1 <= l.max <= 8 * BatchSize(k)
    requires c.reserved - Bytes(k, 1) + Bytes(k, 8 * BatchSize(k)) <= c.budget
    ensures var w := With(c, k, l);
            && Handle(w, Quiet(w)) == w && Allocate(w, k, got, Quiet(w)).0 == With(c, k, Refilled(l, BatchSize(k), got))
  {
    var next := NextAfterRefill(l.max, BatchSize(k));
    RefillGrows(l.max, BatchSize(k));
    BytesAdd(k, l.max, next - l.max);
    BytesMonotone(k, next, 8 * BatchSize(k));
    assert got + l.items == got;
  }

  lemma RefillProper(c: Cache, k: nat, l: FList, got: seq<nat>, l': FList)
    requires Fresh(c) && k < NUM_CLASSES && l.items == [] && NoDup(got) && 0 !in got
    requires |got| <= Min(BatchSize(k), l.max)
    requires var w := With(c, k, l); Handle(w, Quiet(w)) == w && Allocate(w, k, got, Quiet(w)).0 == With(c, k, l')
    ensures ProperStep(With(c, k, l), With(c, k, l'))
  {
    var w := With(c, k, l);
    var op := DoAllocate(k, got, Quiet(w));
    assert forall j: nat :: j < NUM_CLASSES ==> w.lists[j].items == [];
    assert OpOk(w, op) && Does(w, With(c, k, l'), op) && Proper(w, op);
  }

  function From(lim: nat, n: nat): (q: seq<nat>)
    ensures |q| == n && forall i :: 0 <= i < n ==> q[i] == lim + i
  {
    seq(n, i => lim + i)
  }

  lemma RefillStep(r: seq<Cache>, k: nat, l: FList, lim: nat) returns (r': seq<Cache>, l': FList, lim': nat)
    requires Reached(r, k, l, lim) && l.items == []
    ensures Reached(r', k, l', lim') && r'[0] == r[0] && l'.max == NextAfterRefill(l.max, BatchSize(k)) && l'.over == 0
  {
    var got := From(lim, Min(BatchSize(k), l.max));
    Affordable(r[0], k);
    RefillValue(r[0], k, l, got);
    RefillGrows(l.max, BatchSize(k));
    l', lim' := Refilled(l, BatchSize(k), got), lim + |got|;
    RefillProper(r[0], k, l, got, l');
    r' := Onward(r, k, l, lim, l', lim');
  }

  lemma {:induction false} InitialBound(n: nat)
    requires n <= NUM_CLASSES
    ensures InitialReserved(n) <= n * MAX_TC_SIZE
  {
    if n > 0 {
      InitialBound(n - 1);
      SizeAtMost(n - 1);
      OneMore(InitialReserved(n - 1), CalculateSize(n - 1), n);
    }
  }

  lemma OneMore(a: nat, b: nat, n: nat)
    requires n > 0 && a <= (n - 1) * MAX_TC_SIZE && b <= MAX_TC_SIZE
    ensures a + b <= n * MAX_TC_SIZE
  {}

  lemma SizeAtMost(k: nat)
    requires k < NUM_CLASSES
    ensures CalculateSize(k) <= MAX_TC_SIZE
  {
    IndexOfSize(k);
    ClassRange(CalculateSize(k));
  }

  lemma BatchBytes(size: nat, batch: nat)
    requires 0 < size <= MAX_TC_SIZE && batch <= Max(2, MAX_TC_SIZE / size)
    ensures batch * size <= 2 * MAX_TC_SIZE
  {
    if batch <= 2 { MulMonotone(batch, 2, size); } else { MulMonotone(batch, MAX_TC_SIZE / size, size); }
  }

  lemma FullQuotaBytes(k: nat)
    requires k < NUM_CLASSES
    ensures Bytes(k, 8 * BatchSize(k)) <= 16 * MAX_TC_SIZE
  {
    SizePositive(k);
    SizeAtMost(k);
    BatchBytes(CalculateSize(k), BatchSize(k));
    Times8(BatchSize(k), CalculateSize(k));
  }

  lemma Times8(b: nat, size: nat)
    ensures 8 * b * size == 8 * (b * size)
  {}

  /** The default budget lets any one class grow to its full eight batches. */
  lemma Affordable(c: Cache, k: nat)
    requires Fresh(c) && c.budget >= DEFAULT_BUDGET && k < NUM_CLASSES
    ensures c.reserved - Bytes(k, 1) + Bytes(k, 8 * BatchSize(k)) <= c.budget
  {
    InitialBound(NUM_CLASSES);
    FullQuotaBytes(k);
  }

  /** Refills, each used up, take the quota to two batches or more. */
  lemma {:induction false} GrowQuota(r: seq<Cache>, k: nat, l: FList, lim: nat)
    returns (r': seq<Cache>, l': FList, lim': nat)
    requires Reached(r, k, l, lim) && l.items == [] && l.over == 0
    ensures Reached(r', k, l', lim') && r'[0] == r[0] && l'.items == [] && l'.over == 0 && l'.max >= 2 * BatchSize(k)
    decreases 8 * BatchSize(k) - l.max
  {
    if l.max >= 2 * BatchSize(k) {
      r', l', lim' := r, l, lim;
    } else {
      RefillGrows(l.max, BatchSize(k));
      r', l', lim' := RefillStep(r, k, l, lim);
      r' := PopAll(r', k, l', lim');
      r', l', lim' := GrowQuota(r', k, l'.(items := []), lim');
    }
  }

  /** Filling the list and freeing one more block. */
  lemma FillAndSpill(r: seq<Cache>, k: nat, l: FList, lim: nat) returns (r': seq<Cache>, l': FList, lim': nat)
    requires Reached(r, k, l, lim) && |l.items| <= l.max && l.over <= 2 && l.max >= 2 * BatchSize(k)
    ensures Reached(r', k, l', lim') && r'[0] == r[0]
    ensures |l'.items| == l.max + 1 - BatchSize(k)
    ensures if l.over == 2 then l'.max == l.max - BatchSize(k) else l'.max == l.max && l'.over == l.over + 1
  {
    var m, n;
    r', m, n := PushAll(r, k, l, lim);
    r' := SpillStep(r', k, m, n);
    l', lim' := Spilled(m, BatchSize(k), n), n + 1;
  }

  /** Every class of every new cache with the default budget, or a larger one, can
      be taken over its quota by allocating and freeing. */
  lemma EveryClassCanGoOver(c: Cache, k: nat) returns (r: seq<Cache>)
    requires Fresh(c) && c.budget >= DEFAULT_BUDGET && k < NUM_CLASSES
    ensures Run(r) && ProperRun(r) && r[0] == c && k < |Last(r).lists| && Over(Last(r).lists[k])
  {
    var l, lim := FList([], 1, 0), 1;
    assert c.lists[k] == l && c.lists[k := l] == c.lists;
    r := [c];
    assert With(c, k, l) == c;
    r, l, lim := GrowQuota(r, k, l, lim);
    r, l, lim := FillAndSpill(r, k, l, lim);
    r, l, lim := FillAndSpill(r, k, l, lim);
    r, l, lim := FillAndSpill(r, k, l, lim);
    ProperRunIsRun(r);
  }
}
