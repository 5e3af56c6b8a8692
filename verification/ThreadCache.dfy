/** The per-thread cache and its quota machine (src/thread_cache.cpp,
    include/ammalloc/thread_cache.h). A free list is its objects, newest first.
    What CentralCache hands out and the pending trim request are parameters. */
module ThreadCaches {
  import opened Config
  import opened SizeClass

  const MAX_OVERAGES: nat := 3
  const MAX_QUOTA_BATCHES: nat := 8
  const DEFAULT_BUDGET: nat := 2 * 1024 * 1024

  // ---------------------------------------------------------------- quota policy

  function NextAfterRefill(cur: nat, batch: nat): nat
  {
    if cur < batch then Min(batch, cur + Max(1, cur))
    else if cur < batch * MAX_QUOTA_BATCHES then Min(batch * MAX_QUOTA_BATCHES, cur + Max(1, batch / 8))
    else cur
  }

  function NextAfterOverflow(cur: nat, batch: nat, overages: nat): (nat, nat)
  {
    if cur <= batch then (cur, 0)
    else if overages + 1 >= MAX_OVERAGES then (Max(cur - batch, batch), 0)
    else (cur, overages + 1)
  }

  /** A granted refill raises the quota until it is eight batches, and no further. */
  lemma RefillGrows(cur: nat, batch: nat)
    requires 1 <= cur <= 8 * batch
    ensures cur <= NextAfterRefill(cur, batch) <= 8 * batch
    ensures NextAfterRefill(cur, batch) == cur <==> cur == 8 * batch
  {}

  /** The quota after n granted refills of a fresh list. */
  function Refills(n: nat, batch: nat): nat
  {
    if n == 0 then 1 else NextAfterRefill(Refills(n - 1, batch), batch)
  }

  /** Slow start doubles up to exactly one batch. */
  lemma {:induction false} WarmUpDoubles(n: nat, batch: nat)
    requires batch >= 1 && (n > 0 ==> Pow2(n - 1) < batch)
    ensures Refills(n, batch) == Min(batch, Pow2(n))
  {
    if n > 0 {
      if n > 1 { Pow2Monotone(n - 2, n - 1); }
      WarmUpDoubles(n - 1, batch);
    }
  }

  /** An overflow never raises the quota, never takes it below one batch, and the
      third in a row without a refill takes a batch off. */
  lemma OverflowDecays(cur: nat, batch: nat, overages: nat)
    requires 1 <= cur <= 8 * batch && overages <= 2
    ensures var (m, o) := NextAfterOverflow(cur, batch, overages);
            && Min(cur, batch) <= m <= cur && o <= 2
            && (m < cur ==> o == 0 && overages == 2 && cur <= m + batch)
            && (overages == 2 && cur > batch ==> m < cur || batch == 0)
  {}

  /** The quota and overages after n overflows in a row. */
  function Overflows(n: nat, cur: nat, batch: nat): (nat, nat)
  {
    if n == 0 then (cur, 0)
    else
      var (m, o) := Overflows(n - 1, cur, batch);
      NextAfterOverflow(m, batch, o)
  }

  /** Every third takes exactly one batch off, down to one batch. */
  lemma {:induction false} DecayIsLinear(n: nat, k: nat, cur: nat, batch: nat)
    requires batch >= 1 && cur >= batch && n == 3 * k
    ensures Overflows(n, cur, batch) == (Max(batch, cur - k * batch), 0)
    decreases n
  {
    if k > 0 {
      DecayIsLinear(n - 3, k - 1, cur, batch);
      assert (k - 1) * batch + batch == k * batch;
      ThreeMore(n - 3, cur, batch, Max(batch, cur - (k - 1) * batch));
    }
  }

  lemma ThreeMore(n: nat, cur: nat, batch: nat, m: nat)
    requires batch >= 1 && m >= batch && Overflows(n, cur, batch) == (m, 0)
    ensures Overflows(n + 3, cur, batch) == (Max(batch, m - batch), 0)
  {
    assert Overflows(n + 1, cur, batch) == NextAfterOverflow(m, batch, 0);
    assert Overflows(n + 2, cur, batch) == NextAfterOverflow(m, batch, if m <= batch then 0 else 1);
  }

  // ----------------------------------------------------------------------- state

  datatype FList = FList(items: seq<nat>, max: nat, over: nat)

  datatype Cache = Cache(lists: seq<FList>, reserved: int, budget: nat, epoch: nat)

  datatype Mode = Reuse | Purge

  /** `trim_request_`, unpacked. */
  datatype Request = Request(epoch: nat, mode: Mode)

  /** Reserved bytes, cached bytes and one object of each class, over classes below n. */
  function QuotaBytes(lists: seq<FList>, n: nat): nat
    requires n <= |lists|
  {
    if n == 0 then 0 else QuotaBytes(lists, n - 1) + Bytes(n - 1, lists[n - 1].max)
  }

  function CachedBytes(lists: seq<FList>, n: nat): nat
    requires n <= |lists|
  {
    if n == 0 then 0 else CachedBytes(lists, n - 1) + Bytes(n - 1, |lists[n - 1].items|)
  }

  /** `CachedBytesSnapshot`, and what `reserved_quota_bytes_` stands for. */
  function Cached(c: Cache): nat { CachedBytes(c.lists, |c.lists|) }

  function Quota(c: Cache): nat { QuotaBytes(c.lists, |c.lists|) }

  function InitialReserved(n: nat): nat
  {
    if n == 0 then 0 else InitialReserved(n - 1) + CalculateSize(n - 1)
  }

  /** A list may hold one object more than its quota, and then has no overages; in
      the middle of a deallocation `slack` is one. */
  predicate ListOk(l: FList, batch: nat, slack: nat)
  {
    && 1 <= l.max <= 8 * batch && l.over <= 2
    && |l.items| <= l.max + 1 + slack && (|l.items| == l.max + 1 + slack ==> l.over == 0)
  }

  function Slack(i: nat, idx: nat): nat { if i == idx then 1 else 0 }

  /** The state while class `idx` is being overfilled; no class when idx is 40. */
  ghost predicate Loose(c: Cache, idx: nat)
  {
    && |c.lists| == NUM_CLASSES && c.reserved == Quota(c) && c.reserved <= c.budget
    && forall i: nat {:trigger c.lists[i]} :: i < NUM_CLASSES ==> ListOk(c.lists[i], BatchSize(i), Slack(i, idx))
  }

  ghost predicate Rest(c: Cache) { Loose(c, NUM_CLASSES) }

  // ------------------------------------------------------------------ byte sums

  lemma {:induction false} QuotaSame(a: seq<FList>, b: seq<FList>, n: nat)
    requires n <= |a| && n <= |b| && forall i: nat :: i < n ==> a[i].max == b[i].max
    ensures QuotaBytes(a, n) == QuotaBytes(b, n)
  {
    if n > 0 { QuotaSame(a, b, n - 1); }
  }

  lemma {:induction false} QuotaUpdate(a: seq<FList>, idx: nat, l: FList, n: nat)
    requires idx < n <= |a|
    ensures QuotaBytes(a[idx := l], n) == QuotaBytes(a, n) - Bytes(idx, a[idx].max) + Bytes(idx, l.max)
  {
    if idx == n - 1 { QuotaSame(a, a[idx := l], n - 1); } else { QuotaUpdate(a, idx, l, n - 1); }
  }

  lemma {:induction false} CachedSame(a: seq<FList>, b: seq<FList>, n: nat)
    requires n <= |a| && n <= |b| && forall i: nat :: i < n ==> |a[i].items| == |b[i].items|
    ensures CachedBytes(a, n) == CachedBytes(b, n)
  {
    if n > 0 { CachedSame(a, b, n - 1); }
  }

  lemma {:induction false} CachedUpdate(a: seq<FList>, idx: nat, l: FList, n: nat)
    requires idx < n <= |a|
    ensures CachedBytes(a[idx := l], n) == CachedBytes(a, n) - Bytes(idx, |a[idx].items|) + Bytes(idx, |l.items|)
  {
    if idx == n - 1 { CachedSame(a, a[idx := l], n - 1); } else { CachedUpdate(a, idx, l, n - 1); }
  }

  /** The reservation bounds the cached bytes up to one object of each class. */
  lemma {:induction false} CachedUnderQuota(lists: seq<FList>, n: nat)
    requires n <= |lists| && forall i: nat {:trigger lists[i]} :: i < n ==> |lists[i].items| <= lists[i].max + 1
    ensures CachedBytes(lists, n) <= QuotaBytes(lists, n) + InitialReserved(n)
  {
    if n > 0 {
      CachedUnderQuota(lists, n - 1);
      BytesMonotone(n - 1, |lists[n - 1].items|, lists[n - 1].max + 1);
      BytesAdd(n - 1, lists[n - 1].max, 1);
    }
  }

  // ------------------------------------------------------- operations, on values

  /** `CanSetQuota`. */
  predicate CanSetQuota(c: Cache, idx: nat, m: nat)
    requires idx < |c.lists|
  {
    m <= c.lists[idx].max || Bytes(idx, m - c.lists[idx].max) <= c.budget - c.reserved
  }

  /** `SetQuota`: the quota and the reservation move together. */
  function SetQuota(c: Cache, idx: nat, m: nat): Cache
    requires idx < |c.lists|
  {
    var l := c.lists[idx];
    c.(lists := c.lists[idx := l.(max := m)],
       reserved := if m > l.max then c.reserved + Bytes(idx, m - l.max) else c.reserved - Bytes(idx, l.max - m))
  }

  function SetItems(c: Cache, idx: nat, items: seq<nat>): Cache
    requires idx < |c.lists|
  {
    c.(lists := c.lists[idx := c.lists[idx].(items := items)])
  }

  function SetOverages(c: Cache, idx: nat, over: nat): Cache
    requires idx < |c.lists|
  {
    c.(lists := c.lists[idx := c.lists[idx].(over := over)])
  }

  /** How many of the oldest objects of one list a trim evicts. */
  function EvictCount(size: nat, batch: nat, n: nat, mode: Mode, cached: nat, target: nat): nat
    requires size > 0
  {
    var evictable := if mode.Reuse? then (if n < batch then 0 else n - batch) else n;
    if cached > target && evictable > 0 then
      (if evictable < CeilDiv(cached - target, size) then evictable else CeilDiv(cached - target, size))
    else 0
  }

  /** The quota a trim leaves: never higher than it was. */
  function Contracted(max: nat, batch: nat, n: nat, mode: Mode): nat
  {
    if mode.Purge? then Min(max, Max(1, n))
    else if max > batch then Min(max, Max(batch, n)) else max
  }

  function TrimClass(c: Cache, idx: nat, mode: Mode, evict: nat): Cache
    requires idx < |c.lists| && evict <= |c.lists[idx].items|
  {
    var n := |c.lists[idx].items| - evict;
    var max := c.lists[idx].max;
    var trimmed := SetQuota(SetItems(c, idx, c.lists[idx].items[..n]), idx, Contracted(max, BatchSize(idx), n, mode));
    if mode.Purge? || max > BatchSize(idx) then SetOverages(trimmed, idx, 0) else trimmed
  }

  function Evicts(c: Cache, idx: nat, mode: Mode, cached: nat, target: nat): (k: nat)
    requires idx < |c.lists|
    ensures k <= |c.lists[idx].items|
  {
    SizePositive(idx);
    EvictCount(CalculateSize(idx), BatchSize(idx), |c.lists[idx].items|, mode, cached, target)
  }

  /** The rest of a trim that still has the classes below i to do, and its turn
      for class i. */
  function TrimFrom(c: Cache, i: nat, mode: Mode, cached: nat, target: nat): Cache
    requires i <= |c.lists|
    decreases i, 1
  {
    if i == 0 then c else TrimTurn(c, i - 1, mode, cached, target)
  }

  function TrimTurn(c: Cache, i: nat, mode: Mode, cached: nat, target: nat): Cache
    requires i < |c.lists|
    decreases i + 1, 0
  {
    var k := Evicts(c, i, mode, cached, target);
    TrimFrom(TrimClass(c, i, mode, k), i, mode, Less(cached, Bytes(i, k)), target)
  }

  function Less(a: nat, b: nat): nat { if a < b then 0 else a - b }

  lemma TrimTurnIs(c: Cache, i: nat, mode: Mode, cached: nat, target: nat) returns (k: nat)
    requires i < |c.lists|
    ensures k == Evicts(c, i, mode, cached, target) <= |c.lists[i].items|
    ensures |TrimClass(c, i, mode, k).lists| == |c.lists|
    ensures TrimTurn(c, i, mode, cached, target) ==
            TrimFrom(TrimClass(c, i, mode, k), i, mode, Less(cached, Bytes(i, k)), target)
  {
    k := Evicts(c, i, mode, cached, target);
  }

  function Trim(c: Cache, mode: Mode, target: nat): Cache
    requires |c.lists| == NUM_CLASSES
  {
    TrimFrom(c, |c.lists|, mode, Cached(c), target)
  }

  // ----------------------------------------------------------------- trim, proved

  lemma SetQuotaReserved(c: Cache, idx: nat, m: nat)
    requires |c.lists| == NUM_CLASSES && idx < NUM_CLASSES && c.reserved == Quota(c)
    ensures var c' := SetQuota(c, idx, m);
            && c'.reserved == Quota(c')
            && c'.reserved == c.reserved - Bytes(idx, c.lists[idx].max) + Bytes(idx, m)
  {
    var l := c.lists[idx];
    QuotaUpdate(c.lists, idx, l.(max := m), |c.lists|);
    if m > l.max { BytesAdd(idx, l.max, m - l.max); } else { BytesAdd(idx, m, l.max - m); }
  }

  lemma SameQuotaReserved(c: Cache, idx: nat, l: FList)
    requires |c.lists| == NUM_CLASSES && idx < NUM_CLASSES && c.reserved == Quota(c) && l.max == c.lists[idx].max
    ensures QuotaBytes(c.lists[idx := l], |c.lists|) == c.reserved
  {
    QuotaUpdate(c.lists, idx, l, |c.lists|);
  }

  /** One class of a trim, seen as the new list of that class. */
  function TrimmedList(l: FList, batch: nat, mode: Mode, evict: nat): FList
    requires evict <= |l.items|
  {
    var n := |l.items| - evict;
    FList(l.items[..n], Contracted(l.max, batch, n, mode), if mode.Purge? || l.max > batch then 0 else l.over)
  }

  lemma TrimClassIs(c: Cache, i: nat, mode: Mode, evict: nat)
    requires i < |c.lists| && evict <= |c.lists[i].items|
    ensures TrimClass(c, i, mode, evict).lists == c.lists[i := TrimmedList(c.lists[i], BatchSize(i), mode, evict)]
    ensures TrimClass(c, i, mode, evict).budget == c.budget
  {}

  /** A contraction keeps the bounds of its list and never raises its quota. */
  lemma TrimmedOk(l: FList, batch: nat, mode: Mode, evict: nat, slack: nat)
    requires ListOk(l, batch, slack) && evict <= |l.items| && batch >= 2 && slack <= 1
    ensures ListOk(TrimmedList(l, batch, mode, evict), batch, slack) && TrimmedList(l, batch, mode, evict).max <= l.max
  {}

  lemma TrimClassReserved(c: Cache, i: nat, mode: Mode, evict: nat)
    requires |c.lists| == NUM_CLASSES && i < NUM_CLASSES && evict <= |c.lists[i].items| && c.lists[i].max >= 1
    requires c.reserved == Quota(c)
    ensures var c' := TrimClass(c, i, mode, evict);
            |c'.lists| == NUM_CLASSES && c'.reserved == Quota(c') && c'.reserved <= c.reserved
  {
    var l := c.lists[i];
    var n := |l.items| - evict;
    var m := Contracted(l.max, BatchSize(i), n, mode);
    var cut := SetItems(c, i, l.items[..n]);
    SameQuotaReserved(c, i, l.(items := l.items[..n]));
    SetQuotaReserved(cut, i, m);
    BytesMonotone(i, m, l.max);
    var set1 := SetQuota(cut, i, m);
    SameQuotaReserved(set1, i, set1.lists[i].(over := 0));
  }

  lemma TrimClassLoose(c: Cache, i: nat, mode: Mode, evict: nat, idx: nat)
    requires Loose(c, idx) && i < NUM_CLASSES && evict <= |c.lists[i].items|
    ensures Loose(TrimClass(c, i, mode, evict), idx)
  {
    TrimClassIs(c, i, mode, evict);
    TrimmedOk(c.lists[i], BatchSize(i), mode, evict, Slack(i, idx));
    TrimClassReserved(c, i, mode, evict);
  }

  /** What a trim does to each list: its oldest objects go, its quota does not rise. */
  ghost predicate Cut(a: seq<FList>, b: seq<FList>)
  {
    |b| == |a| && forall i: nat {:trigger b[i]} :: i < |a| ==> b[i].items <= a[i].items && b[i].max <= a[i].max
  }

  lemma CutStep(a: seq<FList>, c: Cache, i: nat, mode: Mode, evict: nat)
    requires Cut(a, c.lists) && i < |c.lists| && evict <= |c.lists[i].items| && c.lists[i].max >= 1
    ensures Cut(a, TrimClass(c, i, mode, evict).lists)
  {
    TrimClassIs(c, i, mode, evict);
  }

  lemma {:induction false} TrimFromKeeps(a: seq<FList>, c: Cache, i: nat, mode: Mode, cached: nat, target: nat,
                                         idx: nat)
    requires Loose(c, idx) && i <= NUM_CLASSES && Cut(a, c.lists)
    ensures var c' := TrimFrom(c, i, mode, cached, target);
            Loose(c', idx) && Cut(a, c'.lists) && c'.budget == c.budget && c'.epoch == c.epoch
    decreases i
  {
    if i > 0 {
      var k := TrimTurnIs(c, i - 1, mode, cached, target);
      TrimClassLoose(c, i - 1, mode, k, idx);
      CutStep(a, c, i - 1, mode, k);
      TrimFromKeeps(a, TrimClass(c, i - 1, mode, k), i - 1, mode, Less(cached, Bytes(i - 1, k)), target, idx);
    }
  }

  /** Every trim keeps the invariant, evicts only the ends of lists and raises no
      quota. */
  lemma TrimKeeps(c: Cache, mode: Mode, target: nat, idx: nat)
    requires Loose(c, idx)
    ensures Loose(Trim(c, mode, target), idx) && Cut(c.lists, Trim(c, mode, target).lists)
    ensures Trim(c, mode, target).budget == c.budget && Trim(c, mode, target).epoch == c.epoch
  {
    TrimFromKeeps(c.lists, c, |c.lists|, mode, Cached(c), target, idx);
  }

  lemma EvictFacts(size: nat, batch: nat, n: nat, mode: Mode, cached: nat, target: nat)
    requires size > 0
    ensures var k := EvictCount(size, batch, n, mode, cached, target);
            && k <= n && (cached <= target ==> k == 0)
            && (k > 0 ==> target < cached - k * size + size)
            && (cached - k * size <= target || n - k == (if mode.Reuse? then Min(n, batch) else 0))
  {
    if cached > target {
      var q := CeilDiv(cached - target, size);
      var k := EvictCount(size, batch, n, mode, cached, target);
      if k > 0 { MulMonotone(k - 1, q - 1, size); }
    }
  }

  /** The running byte count of a trim is exact. */
  lemma TrimClassBytes(c: Cache, i: nat, mode: Mode, evict: nat)
    requires |c.lists| == NUM_CLASSES && i < NUM_CLASSES && evict <= |c.lists[i].items|
    ensures |TrimClass(c, i, mode, evict).lists| == NUM_CLASSES
    ensures Cached(TrimClass(c, i, mode, evict)) == Less(Cached(c), Bytes(i, evict)) == Cached(c) - Bytes(i, evict)
  {
    TrimClassIs(c, i, mode, evict);
    var l := TrimmedList(c.lists[i], BatchSize(i), mode, evict);
    CachedUpdate(c.lists, i, l, |c.lists|);
    BytesAdd(i, |c.lists[i].items| - evict, evict);
  }

  /** Classes from i up have given what they may: a soft trim leaves a batch. */
  ghost predicate GivenFrom(lists: seq<FList>, i: nat, mode: Mode)
  {
    forall j: nat {:trigger lists[j]} :: i <= j < |lists| ==> |lists[j].items| <= Floor(j, mode)
  }

  function Floor(j: nat, mode: Mode): nat { if mode.Reuse? then BatchSize(j) else 0 }

  lemma TrimClassReaches(c: Cache, i: nat, mode: Mode, target: nat, k: nat)
    requires |c.lists| == NUM_CLASSES && i < NUM_CLASSES
    requires Cached(c) <= target || GivenFrom(c.lists, i + 1, mode)
    requires k == Evicts(c, i, mode, Cached(c), target)
    ensures var c' := TrimClass(c, i, mode, k);
            && |c'.lists| == NUM_CLASSES && Cached(c') == Less(Cached(c), Bytes(i, k))
            && (Cached(c') <= target || GivenFrom(c'.lists, i, mode))
  {
    TrimClassBytes(c, i, mode, k);
    SizePositive(i);
    EvictFacts(CalculateSize(i), BatchSize(i), |c.lists[i].items|, mode, Cached(c), target);
    TrimClassIs(c, i, mode, k);
  }

  lemma {:induction false} TrimFromReaches(c: Cache, i: nat, mode: Mode, target: nat)
    requires |c.lists| == NUM_CLASSES && i <= NUM_CLASSES
    requires Cached(c) <= target || GivenFrom(c.lists, i, mode)
    ensures var c' := TrimFrom(c, i, mode, Cached(c), target);
            |c'.lists| == NUM_CLASSES && (Cached(c') <= target || GivenFrom(c'.lists, 0, mode))
    decreases i
  {
    if i > 0 {
      var k := TrimTurnIs(c, i - 1, mode, Cached(c), target);
      TrimClassReaches(c, i - 1, mode, target, k);
      TrimFromReaches(TrimClass(c, i - 1, mode, k), i - 1, mode, target);
    }
  }

  lemma {:induction false} EmptyHasNoBytes(lists: seq<FList>, n: nat)
    requires n <= |lists| && GivenFrom(lists, 0, Purge)
    ensures CachedBytes(lists, n) == 0
  {
    if n > 0 { EmptyHasNoBytes(lists, n - 1); }
  }

  /** A purge ends at or below its target; a soft trim ends at or below it or with
      at most one batch in each class. */
  lemma TrimReaches(c: Cache, mode: Mode, target: nat)
    requires |c.lists| == NUM_CLASSES
    ensures |Trim(c, mode, target).lists| == NUM_CLASSES
    ensures mode.Purge? ==> Cached(Trim(c, mode, target)) <= target
    ensures mode.Reuse? ==> Cached(Trim(c, mode, target)) <= target || GivenFrom(Trim(c, mode, target).lists, 0, Reuse)
  {
    var c' := Trim(c, mode, target);
    TrimFromReaches(c, |c.lists|, mode, target);
    if mode.Purge? && GivenFrom(c'.lists, 0, Purge) { EmptyHasNoBytes(c'.lists, |c'.lists|); }
  }

  /** Class j lost objects, and no smaller class did: it was evicted last. */
  ghost predicate EvictedLast(a: seq<FList>, b: seq<FList>, j: nat)
  {
    && j < |a| == |b| && |b[j].items| < |a[j].items|
    && forall d: nat {:trigger b[d]} :: d < j ==> |b[d].items| == |a[d].items|
  }

  /** Classes at and above i are not touched by the rest of a trim. */
  lemma {:induction false} TrimFromFrame(c: Cache, i: nat, mode: Mode, cached: nat, target: nat, j: nat)
    requires i <= j < |c.lists|
    ensures |TrimFrom(c, i, mode, cached, target).lists| == |c.lists|
    ensures TrimFrom(c, i, mode, cached, target).lists[j] == c.lists[j]
    decreases i
  {
    if i > 0 {
      var k := TrimTurnIs(c, i - 1, mode, cached, target);
      TrimClassIs(c, i - 1, mode, k);
      TrimFromFrame(TrimClass(c, i - 1, mode, k), i - 1, mode, Less(cached, Bytes(i - 1, k)), target, j);
    }
  }

  lemma {:induction false} TrimFromOvershoot(c: Cache, i: nat, mode: Mode, target: nat, j: nat)
    requires |c.lists| == NUM_CLASSES && j < i <= NUM_CLASSES
    requires EvictedLast(c.lists, TrimFrom(c, i, mode, Cached(c), target).lists, j)
    ensures target < Cached(TrimFrom(c, i, mode, Cached(c), target)) + CalculateSize(j)
    decreases i
  {
    var k := TrimTurnIs(c, i - 1, mode, Cached(c), target);
    TrimClassBytes(c, i - 1, mode, k);
    TrimClassIs(c, i - 1, mode, k);
    if j < i - 1 {
      TrimFromOvershoot(TrimClass(c, i - 1, mode, k), i - 1, mode, target, j);
    } else {
      LastEviction(c, j, mode, target, k, TrimFrom(c, i, mode, Cached(c), target));
    }
  }

  lemma LastEviction(c: Cache, j: nat, mode: Mode, target: nat, k: nat, c': Cache)
    requires |c.lists| == NUM_CLASSES && j < NUM_CLASSES && k == Evicts(c, j, mode, Cached(c), target)
    requires c' == TrimFrom(TrimClass(c, j, mode, k), j, mode, Less(Cached(c), Bytes(j, k)), target)
    requires EvictedLast(c.lists, c'.lists, j)
    ensures target < Cached(c') + CalculateSize(j)
  {
    var m := TrimClass(c, j, mode, k);
    TrimClassBytes(c, j, mode, k);
    TrimClassIs(c, j, mode, k);
    TrimFromFrame(m, j, mode, Less(Cached(c), Bytes(j, k)), target, j);
    SizePositive(j);
    EvictFacts(CalculateSize(j), BatchSize(j), |c.lists[j].items|, mode, Cached(c), target);
    forall d: nat | d < NUM_CLASSES
      ensures |c'.lists[d].items| == |m.lists[d].items|
    {
      if d > j { TrimFromFrame(m, j, mode, Less(Cached(c), Bytes(j, k)), target, d); }
    }
    CachedSame(c'.lists, m.lists, |m.lists|);
  }

  /** A trim goes below its target by less than one object of the class it evicted
      from last. */
  lemma TrimOvershoot(c: Cache, mode: Mode, target: nat, j: nat)
    requires |c.lists| == NUM_CLASSES && EvictedLast(c.lists, Trim(c, mode, target).lists, j)
    ensures target < Cached(Trim(c, mode, target)) + CalculateSize(j)
  {
    TrimFromOvershoot(c, |c.lists|, mode, target, j);
  }

  // ---------------------------------------------- allocation and deallocation

  function TrimTarget(mode: Mode): nat { if mode.Purge? then 0 else DEFAULT_BUDGET / 2 }

  /** `HandleGlobalTrimRequest`: a request is applied once per observed epoch. */
  function Handle(c: Cache, req: Request): Cache
    requires |c.lists| == NUM_CLASSES
  {
    if req.epoch == c.epoch then c else Trim(c, req.mode, TrimTarget(req.mode)).(epoch := req.epoch)
  }

  /** A second look at the same request does nothing. */
  lemma HandleOnce(c: Cache, req: Request)
    requires |c.lists| == NUM_CLASSES
    ensures |Handle(c, req).lists| == NUM_CLASSES && Handle(Handle(c, req), req) == Handle(c, req)
  {
    TrimReaches(c, req.mode, TrimTarget(req.mode));
  }

  lemma HandleKeeps(c: Cache, req: Request, idx: nat)
    requires Loose(c, idx)
    ensures Loose(Handle(c, req), idx) && Cut(c.lists, Handle(c, req).lists) && Handle(c, req).budget == c.budget
    ensures Handle(c, req).epoch == req.epoch
  {
    TrimKeeps(c, req.mode, TrimTarget(req.mode), idx);
  }

  /** Changing one list changes nothing else. */
  lemma OneList(c: Cache, c': Cache, i: nat, l: FList, idx: nat, idx': nat)
    requires Loose(c, idx) && i < NUM_CLASSES && c'.lists == c.lists[i := l] && c'.budget == c.budget
    requires c'.reserved == Quota(c') && c'.reserved <= c'.budget && ListOk(l, BatchSize(i), Slack(i, idx'))
    requires (idx == i || idx >= NUM_CLASSES) && (idx' == i || idx' >= NUM_CLASSES)
    ensures Loose(c', idx')
  {}

  /** `FetchFromCentralCache`, after any pending trim: `got` is what CentralCache
      hands out, at most what was asked for. The object returned is null (zero)
      when there was none. */
  function Refill(c: Cache, idx: nat, got: seq<nat>): (Cache, nat)
    requires idx < |c.lists|
  {
    var l := c.lists[idx];
    if got == [] then (c, 0)
    else
      var all := got + l.items;
      var taken := SetItems(c, idx, all[1..]);
      if |got| < Min(BatchSize(idx), l.max) then (taken, all[0])
      else
        var next := NextAfterRefill(l.max, BatchSize(idx));
        var grown := if CanSetQuota(taken, idx, next) then SetQuota(taken, idx, next) else taken;
        (SetOverages(grown, idx, 0), all[0])
  }

  lemma RefillRest(c: Cache, idx: nat, got: seq<nat>)
    requires Rest(c) && idx < NUM_CLASSES && c.lists[idx].items == [] && |got| <= Min(BatchSize(idx), c.lists[idx].max)
    ensures Rest(Refill(c, idx, got).0) && Refill(c, idx, got).0.budget == c.budget
  {
    if got != [] {
      var l := c.lists[idx];
      var taken := SetItems(c, idx, (got + l.items)[1..]);
      SameQuotaReserved(c, idx, taken.lists[idx]);
      OneList(c, taken, idx, taken.lists[idx], NUM_CLASSES, NUM_CLASSES);
      if |got| == Min(BatchSize(idx), l.max) { GrowRest(taken, idx); }
    }
  }

  lemma GrowRest(c: Cache, idx: nat)
    requires Rest(c) && idx < NUM_CLASSES && |c.lists[idx].items| <= c.lists[idx].max
    ensures var next := NextAfterRefill(c.lists[idx].max, BatchSize(idx));
            Rest(SetOverages(if CanSetQuota(c, idx, next) then SetQuota(c, idx, next) else c, idx, 0))
  {
    var l := c.lists[idx];
    var next := NextAfterRefill(l.max, BatchSize(idx));
    RefillGrows(l.max, BatchSize(idx));
    var grown := if CanSetQuota(c, idx, next) then SetQuota(c, idx, next) else c;
    SetQuotaReserved(c, idx, next);
    if next > l.max { BytesAdd(idx, l.max, next - l.max); }
    assert grown.lists == c.lists[idx := grown.lists[idx]];
    OneList(c, grown, idx, grown.lists[idx], NUM_CLASSES, NUM_CLASSES);
    SameQuotaReserved(grown, idx, grown.lists[idx].(over := 0));
    OneList(grown, SetOverages(grown, idx, 0), idx, grown.lists[idx].(over := 0), NUM_CLASSES, NUM_CLASSES);
  }

  /** `Allocate` for a request of the given class. */
  function Allocate(c: Cache, idx: nat, got: seq<nat>, req: Request): (Cache, nat)
    requires |c.lists| == NUM_CLASSES && idx < NUM_CLASSES && |Handle(c, req).lists| == NUM_CLASSES
  {
    var items := c.lists[idx].items;
    if items != [] then (SetItems(c, idx, items[1..]), items[0]) else Refill(Handle(c, req), idx, got)
  }

  /** The overflow part of `DeallocateSlowPath`. */
  function Overflow(c: Cache, idx: nat): Cache
    requires idx < |c.lists|
  {
    var l := c.lists[idx];
    if |l.items| <= l.max then c
    else
      var (m, o) := NextAfterOverflow(l.max, BatchSize(idx), l.over);
      SetOverages(SetQuota(SetItems(c, idx, KeptItems(l, BatchSize(idx))), idx, m), idx, o)
  }

  /** One batch of the oldest objects goes back to CentralCache. */
  function KeptItems(l: FList, batch: nat): seq<nat> { l.items[..if |l.items| < batch then 0 else |l.items| - batch] }

  lemma OverflowRest(c: Cache, idx: nat)
    requires Loose(c, idx) && idx < NUM_CLASSES
    ensures Rest(Overflow(c, idx)) && Overflow(c, idx).budget == c.budget
  {
    var l := c.lists[idx];
    if |l.items| <= l.max {
      assert c.lists == c.lists[idx := l];
      OneList(c, c, idx, l, idx, NUM_CLASSES);
    } else {
      var (m, o) := NextAfterOverflow(l.max, BatchSize(idx), l.over);
      var cut := SetItems(c, idx, KeptItems(l, BatchSize(idx)));
      OverflowDecays(l.max, BatchSize(idx), l.over);
      SameQuotaReserved(c, idx, cut.lists[idx]);
      SetQuotaReserved(cut, idx, m);
      BytesMonotone(idx, m, l.max);
      var set1 := SetQuota(cut, idx, m);
      SameQuotaReserved(set1, idx, set1.lists[idx].(over := o));
      var l' := FList(KeptItems(l, BatchSize(idx)), m, o);
      assert Overflow(c, idx).lists == c.lists[idx := l'];
      OneList(c, Overflow(c, idx), idx, l', idx, NUM_CLASSES);
    }
  }

  /** An overflow leaves a list one object over its quota exactly when it is the
      third in a row and the quota has a whole batch to give up. */
  lemma ExtraObjectExactly(c: Cache, idx: nat)
    requires Loose(c, idx) && idx < NUM_CLASSES && |c.lists[idx].items| > c.lists[idx].max
    ensures var l, l' := c.lists[idx], Overflow(c, idx).lists[idx];
            |l'.items| > l'.max <==> l.over == 2 && l.max >= 2 * BatchSize(idx)
  {}

  /** `Deallocate`: push, and on overflow the slow path. */
  function Deallocate(c: Cache, idx: nat, ptr: nat, req: Request): Cache
    requires |c.lists| == NUM_CLASSES && idx < NUM_CLASSES
    requires |Handle(Pushed(c, idx, ptr), req).lists| == NUM_CLASSES
  {
    var pushed := Pushed(c, idx, ptr);
    if |pushed.lists[idx].items| > pushed.lists[idx].max then Overflow(Handle(pushed, req), idx) else pushed
  }

  function Pushed(c: Cache, idx: nat, ptr: nat): Cache
    requires idx < |c.lists|
  {
    SetItems(c, idx, [ptr] + c.lists[idx].items)
  }

  lemma PushedLoose(c: Cache, idx: nat, ptr: nat)
    requires Rest(c) && idx < NUM_CLASSES
    ensures Loose(Pushed(c, idx, ptr), idx)
    ensures |Pushed(c, idx, ptr).lists[idx].items| <= c.lists[idx].max ==> Rest(Pushed(c, idx, ptr))
  {
    var pushed := Pushed(c, idx, ptr);
    SameQuotaReserved(c, idx, pushed.lists[idx]);
    OneList(c, pushed, idx, pushed.lists[idx], NUM_CLASSES, idx);
    if |pushed.lists[idx].items| <= c.lists[idx].max {
      OneList(c, pushed, idx, pushed.lists[idx], NUM_CLASSES, NUM_CLASSES);
    }
  }

  lemma DeallocateRest(c: Cache, idx: nat, ptr: nat, req: Request)
    requires Rest(c) && idx < NUM_CLASSES
    ensures |Handle(Pushed(c, idx, ptr), req).lists| == NUM_CLASSES
    ensures Rest(Deallocate(c, idx, ptr, req)) && Deallocate(c, idx, ptr, req).budget == c.budget
  {
    var pushed := Pushed(c, idx, ptr);
    PushedLoose(c, idx, ptr);
    HandleKeeps(pushed, req, idx);
    OverflowRest(Handle(pushed, req), idx);
  }

  lemma AllocateRest(c: Cache, idx: nat, got: seq<nat>, req: Request)
    requires Rest(c) && idx < NUM_CLASSES
    requires |Handle(c, req).lists| == NUM_CLASSES ==> |got| <= Min(BatchSize(idx), Handle(c, req).lists[idx].max)
    ensures |Handle(c, req).lists| == NUM_CLASSES
    ensures Rest(Allocate(c, idx, got, req).0) && Allocate(c, idx, got, req).0.budget == c.budget
  {
    HandleKeeps(c, req, NUM_CLASSES);
    var items := c.lists[idx].items;
    if items != [] {
      var c' := SetItems(c, idx, items[1..]);
      SameQuotaReserved(c, idx, c'.lists[idx]);
      OneList(c, c', idx, c'.lists[idx], NUM_CLASSES, NUM_CLASSES);
    } else {
      RefillRest(Handle(c, req), idx, got);
    }
  }

  /** `ReleaseAll` from class i on. */
  function ReleaseFrom(c: Cache, i: nat): Cache
    decreases |c.lists| - i
  {
    if i >= |c.lists| then c
    else ReleaseFrom(SetOverages(SetQuota(SetItems(c, i, []), i, 1), i, 0), i + 1)
  }

  predicate Released(lists: seq<FList>, n: nat)
  {
    forall j :: 0 <= j < n && j < |lists| ==> lists[j] == FList([], 1, 0)
  }

  lemma {:induction false} ReleasedQuota(lists: seq<FList>, n: nat)
    requires n <= |lists| && Released(lists, n)
    ensures QuotaBytes(lists, n) == InitialReserved(n) && CachedBytes(lists, n) == 0
  {
    if n > 0 { ReleasedQuota(lists, n - 1); }
  }

  lemma ReleaseOne(c: Cache, i: nat)
    requires Rest(c) && i < NUM_CLASSES
    ensures var c' := SetOverages(SetQuota(SetItems(c, i, []), i, 1), i, 0);
            Rest(c') && c'.lists == c.lists[i := FList([], 1, 0)] && c'.budget == c.budget
  {
    var l := c.lists[i];
    var cut := SetItems(c, i, []);
    SameQuotaReserved(c, i, cut.lists[i]);
    SetQuotaReserved(cut, i, 1);
    BytesMonotone(i, 1, l.max);
    var set1 := SetQuota(cut, i, 1);
    SameQuotaReserved(set1, i, set1.lists[i].(over := 0));
    var c' := SetOverages(set1, i, 0);
    assert c'.lists == c.lists[i := FList([], 1, 0)];
    OneList(c, c', i, FList([], 1, 0), NUM_CLASSES, NUM_CLASSES);
  }

  lemma {:induction false} ReleaseFromRest(c: Cache, i: nat)
    requires Rest(c) && i <= NUM_CLASSES && Released(c.lists, i)
    ensures Rest(ReleaseFrom(c, i)) && Released(ReleaseFrom(c, i).lists, NUM_CLASSES)
    ensures ReleaseFrom(c, i).budget == c.budget
    decreases NUM_CLASSES - i
  {
    if i < NUM_CLASSES {
      ReleaseOne(c, i);
      ReleaseFromRest(SetOverages(SetQuota(SetItems(c, i, []), i, 1), i, 0), i + 1);
    }
  }

  /** Draining a cache leaves it as new: no object, one object's quota per class. */
  lemma ReleaseAllResets(c: Cache)
    requires Rest(c)
    ensures var c' := ReleaseFrom(c, 0);
            && Rest(c') && Released(c'.lists, NUM_CLASSES) && c'.reserved == InitialReserved(NUM_CLASSES)
            && Cached(c') == 0
  {
    ReleaseFromRest(c, 0);
    ReleasedQuota(ReleaseFrom(c, 0).lists, |ReleaseFrom(c, 0).lists|);
  }

  // ------------------------------------------------------------------- over runs

  datatype Op =
    | DoAllocate(idx: nat, got: seq<nat>, req: Request)
    | DoDeallocate(idx: nat, ptr: nat, req: Request)
    | DoTrim(mode: Mode, target: nat)
    | DoHandle(req: Request)
    | DoReleaseAll

  /** CentralCache never hands out more than it is asked for. */
  ghost predicate OpOk(c: Cache, op: Op)
  {
    match op
    case DoAllocate(idx, got, req) =>
      && |c.lists| == NUM_CLASSES && idx < NUM_CLASSES && |Handle(c, req).lists| == NUM_CLASSES
      && |got| <= Min(BatchSize(idx), Handle(c, req).lists[idx].max)
    case DoDeallocate(idx, ptr, req) => idx < NUM_CLASSES
    case _ => true
  }

  ghost predicate Step(c: Cache, c': Cache)
  {
    exists op: Op :: OpOk(c, op) && Does(c, c', op)
  }

  ghost predicate Does(c: Cache, c': Cache, op: Op)
    requires OpOk(c, op)
  {
    && |c.lists| == NUM_CLASSES
    && match op
       case DoAllocate(idx, got, req) => c' == Allocate(c, idx, got, req).0
       case DoDeallocate(idx, ptr, req) =>
         |Handle(Pushed(c, idx, ptr), req).lists| == NUM_CLASSES && c' == Deallocate(c, idx, ptr, req)
       case DoTrim(mode, target) => c' == Trim(c, mode, target)
       case DoHandle(req) => c' == Handle(c, req)
       case DoReleaseAll => c' == ReleaseFrom(c, 0)
  }

  /** A new cache: one object's quota per class, and a budget that covers it. */
  ghost predicate Fresh(c: Cache)
  {
    && |c.lists| == NUM_CLASSES && Released(c.lists, NUM_CLASSES) && c.reserved == InitialReserved(NUM_CLASSES)
    && c.budget >= InitialReserved(NUM_CLASSES)
  }

  ghost predicate StepAt(r: seq<Cache>, i: nat) { i + 1 < |r| && Step(r[i], r[i + 1]) }

  ghost predicate Run(r: seq<Cache>)
  {
    |r| > 0 && Fresh(r[0]) && forall i: nat :: i + 1 < |r| ==> StepAt(r, i)
  }

  lemma FreshRest(c: Cache)
    requires Fresh(c)
    ensures Rest(c)
  {
    ReleasedQuota(c.lists, |c.lists|);
    assert forall i: nat {:trigger c.lists[i]} :: i < NUM_CLASSES ==> c.lists[i] == FList([], 1, 0);
  }

  lemma StepRest(c: Cache, c': Cache)
    requires Rest(c) && Step(c, c')
    ensures Rest(c') && c'.budget == c.budget
  {
    var op :| OpOk(c, op) && Does(c, c', op);
    match op
    case DoAllocate(idx, got, req) => AllocateRest(c, idx, got, req);
    case DoDeallocate(idx, ptr, req) => DeallocateRest(c, idx, ptr, req);
    case DoTrim(mode, target) => TrimKeeps(c, mode, target, NUM_CLASSES);
    case DoHandle(req) => HandleKeeps(c, req, NUM_CLASSES);
    case DoReleaseAll => ReleaseFromRest(c, 0);
  }

  lemma {:induction false} RunRest(r: seq<Cache>, i: nat)
    requires Run(r) && i < |r|
    ensures Rest(r[i]) && r[i].budget == r[0].budget
  {
    if i == 0 {
      FreshRest(r[0]);
    } else {
      RunRest(r, i - 1);
      assert StepAt(r, i - 1);
      StepRest(r[i - 1], r[i]);
    }
  }

  /** Across all runs: the reservation is the sum of the quotas and stays within
      the budget; every quota is between one object and eight batches; a list at
      rest holds at most one object over its quota, and then has no overages; and
      the cached bytes never exceed the budget plus one object of each class. */
  lemma QuotasHold(r: seq<Cache>, i: nat)
    requires Run(r) && i < |r|
    ensures |r[i].lists| == NUM_CLASSES && r[i].reserved == Quota(r[i]) <= r[i].budget == r[0].budget
    ensures forall k: nat {:trigger r[i].lists[k]} :: k < NUM_CLASSES ==>
              var l := r[i].lists[k];
              && 1 <= l.max <= 8 * BatchSize(k) && |l.items| <= l.max + 1
              && (|l.items| == l.max + 1 ==> l.over == 0)
    ensures Cached(r[i]) <= r[i].budget + InitialReserved(NUM_CLASSES)
  {
    RunRest(r, i);
    CachedUnderQuota(r[i].lists, |r[i].lists|);
  }

  // ------------------------------------------------------ what goes to CentralCache

  datatype Target = ToTransferCache | ToSpanBitmap

  /** One call of `ReleaseBatch`. */
  datatype Sent = Sent(idx: nat, items: seq<nat>, to: Target)

  /** Where a trim sends what it evicts. */
  function TargetOf(mode: Mode): Target { if mode.Reuse? then ToTransferCache else ToSpanBitmap }

  /** What class k lost in a series of calls; each took the end of what was left. */
  function SentOf(log: seq<Sent>, k: nat): seq<nat>
  {
    if log == [] then [] else SentOf(log[1..], k) + if log[0].idx == k then log[0].items else []
  }

  lemma {:induction false} SentMore(log: seq<Sent>, x: Sent, k: nat)
    ensures SentOf(log + [x], k) == (if x.idx == k then x.items else []) + SentOf(log, k)
  {
    if log == [] {
      assert [] + [x] == [x] && [x][1..] == [];
    } else {
      SentMore(log[1..], x, k);
      assert (log + [x])[1..] == log[1..] + [x];
    }
  }

  /** Every list is what it was less the end that was sent. */
  ghost predicate Conserved(was: seq<FList>, now: seq<FList>, log: seq<Sent>)
  {
    && |now| == |was|
    && forall k: nat {:trigger SentOf(log, k)} :: k < |was| ==> now[k].items + SentOf(log, k) == was[k].items
  }

  /** The lists after the end of list i went with one more call. */
  lemma ConservedMore(was: seq<FList>, now: seq<FList>, now': seq<FList>, log: seq<Sent>, x: Sent)
    requires Conserved(was, now, log) && |now'| == |now| && x.idx < |now|
    requires now'[x.idx].items + x.items == now[x.idx].items
    requires forall k: nat :: k < |now| && k != x.idx ==> now'[k].items == now[k].items
    ensures Conserved(was, now', log + [x])
  {
    forall k: nat | k < |was|
      ensures now'[k].items + SentOf(log + [x], k) == was[k].items
    {
      SentMore(log, x, k);
      assert now[k].items + SentOf(log, k) == was[k].items;
      if k == x.idx { assert now'[k].items + (x.items + SentOf(log, k)) == now[k].items + SentOf(log, k); }
    }
  }

  ghost predicate AllTo(log: seq<Sent>, to: Target)
  {
    forall i :: 0 <= i < |log| ==> log[i].to == to && log[i].items != []
  }

  /** A turn of the trim loop: what it released, if anything, goes with one call. */
  lemma TurnConserved(was: seq<FList>, now: seq<FList>, now': seq<FList>, log: seq<Sent>, x: Sent)
    requires Conserved(was, now, log) && AllTo(log, x.to) && |now'| == |now| && x.idx < |now|
    requires now'[x.idx].items + x.items == now[x.idx].items
    requires forall k: nat :: k < |now| && k != x.idx ==> now'[k].items == now[k].items
    ensures var log' := if |x.items| > 0 then log + [x] else log;
            Conserved(was, now', log') && AllTo(log', x.to)
  {
    if |x.items| > 0 {
      ConservedMore(was, now, now', log, x);
    } else {
      assert now'[x.idx].items + x.items == now'[x.idx].items;
    }
  }

  // -------------------------------------------------------------------- the object

  class ThreadCache {
    var lists: seq<FList>
    var reserved: int
    const budget: nat
    var epoch: nat

    ghost function V(): Cache
      reads this
    {
      Cache(lists, reserved, budget, epoch)
    }

    /** A budget below one object per class is raised to that floor. */
    constructor (cacheBudget: nat, request: Request)
      ensures Fresh(V()) && Rest(V()) && epoch == request.epoch
      ensures budget == Max(cacheBudget, InitialReserved(NUM_CLASSES))
    {
      lists := seq(NUM_CLASSES, _ => FList([], 1, 0));
      reserved := InitialReserved(NUM_CLASSES);
      budget := Max(cacheBudget, InitialReserved(NUM_CLASSES));
      epoch := request.epoch;
      new;
      FreshRest(V());
    }

    method CachedBytesSnapshot() returns (total: nat)
      requires |lists| == NUM_CLASSES
      ensures total == Cached(V())
    {
      total := 0;
      var i: nat := 0;
      while i < |lists|
        invariant i <= |lists| && total == CachedBytes(lists, i)
      {
        total := total + Bytes(i, |lists[i].items|);
        i := i + 1;
      }
    }

    /** The reservation stays what it was less the bytes of the old quota and plus
        those of the new, so it stays the sum of the quotas. */
    method SetQuotaOf(idx: nat, m: nat)
      requires idx < |lists|
      modifies this
      ensures V() == SetQuota(old(V()), idx, m)
      ensures |old(lists)| == NUM_CLASSES && old(reserved == Quota(V())) ==> reserved == Quota(V())
      ensures reserved == old(reserved) - Bytes(idx, old(lists[idx].max)) + Bytes(idx, m)
    {
      var l := lists[idx];
      if |lists| == NUM_CLASSES && reserved == Quota(V()) { SetQuotaReserved(V(), idx, m); }
      if m > l.max { BytesAdd(idx, l.max, m - l.max); } else { BytesAdd(idx, m, l.max - m); }
      if m == l.max {
        assert lists == lists[idx := l.(max := m)];
        return;
      }
      if m > l.max {
        reserved := reserved + Bytes(idx, m - l.max);
      } else {
        reserved := reserved - Bytes(idx, l.max - m);
      }
      lists := lists[idx := l.(max := m)];
    }

    /** Evicts the `evict` oldest objects of a class and contracts its quota. */
    method TrimOne(idx: nat, mode: Mode, evict: nat) returns (released: seq<nat>)
      requires idx < |lists| && evict <= |lists[idx].items|
      modifies this
      ensures V() == TrimClass(old(V()), idx, mode, evict)
      ensures |released| == evict && |lists| == |old(lists)| && old(lists[idx].items) == lists[idx].items + released
    {
      var l := lists[idx];
      var n := |l.items| - evict;
      released := l.items[n..];
      lists := lists[idx := l.(items := l.items[..n])];
      if mode.Purge? {
        var contracted := if n < 1 then 1 else n;
        SetQuotaOf(idx, if l.max < contracted then l.max else contracted);
        lists := lists[idx := lists[idx].(over := 0)];
      } else if l.max > BatchSize(idx) {
        var contracted := if n < BatchSize(idx) then BatchSize(idx) else n;
        SetQuotaOf(idx, if l.max < contracted then l.max else contracted);
        lists := lists[idx := lists[idx].(over := 0)];
      } else {
        assert V() == SetQuota(SetItems(old(V()), idx, l.items[..n]), idx, l.max);
      }
    }

    /** Large classes first; what is evicted goes to CentralCache, and nothing else
        leaves a list. */
    method TrimTo(mode: Mode, target: nat) returns (sent: seq<Sent>)
      requires |lists| == NUM_CLASSES
      modifies this
      ensures V() == Trim(old(V()), mode, target)
      ensures Conserved(old(lists), lists, sent) && AllTo(sent, TargetOf(mode))
    {
      var cached := CachedBytesSnapshot();
      sent := TrimClasses(|lists|, mode, cached, target);
    }

    /** One turn of the loop. */
    method TrimTurnAt(i: nat, mode: Mode, cached: nat, target: nat) returns (released: seq<nat>)
      requires i < |lists| == NUM_CLASSES && cached == Cached(V())
      modifies this
      ensures |lists| == NUM_CLASSES && Bytes(i, |released|) <= cached && Cached(V()) == cached - Bytes(i, |released|)
      ensures TrimFrom(V(), i, mode, Cached(V()), target) == TrimFrom(old(V()), i + 1, mode, cached, target)
      ensures lists[i].items + released == old(lists[i].items)
      ensures forall k: nat :: k < NUM_CLASSES && k != i ==> lists[k].items == old(lists)[k].items
    {
      ghost var g := TrimTurnIs(V(), i, mode, cached, target);
      var k := EvictionsAt(i, mode, cached, target);
      TrimClassBytes(V(), i, mode, k);
      TrimClassIs(V(), i, mode, k);
      released := TrimOne(i, mode, k);
    }

    method TrimClasses(n: nat, mode: Mode, snapshot: nat, target: nat) returns (sent: seq<Sent>)
      requires n <= |lists| == NUM_CLASSES && snapshot == Cached(V())
      modifies this
      ensures V() == TrimFrom(old(V()), n, mode, snapshot, target)
      ensures Conserved(old(lists), lists, sent) && AllTo(sent, TargetOf(mode))
    {
      var cached: nat := snapshot;
      sent := [];
      ghost var goal := TrimFrom(V(), n, mode, snapshot, target);
      var i: nat := n;
      while i > 0
        invariant i <= n <= |lists| == NUM_CLASSES && cached == Cached(V())
        invariant TrimFrom(V(), i, mode, cached, target) == goal
        invariant Conserved(old(lists), lists, sent) && AllTo(sent, TargetOf(mode))
      {
        i := i - 1;
        ghost var had := lists;
        var released := TrimTurnAt(i, mode, cached, target);
        cached := cached - Bytes(i, |released|);
        TurnConserved(old(lists), had, lists, sent, Sent(i, released, TargetOf(mode)));
        if |released| > 0 {
          sent := sent + [Sent(i, released, if mode.Reuse? then ToTransferCache else ToSpanBitmap)];
        }
      }
    }

    method EvictionsAt(idx: nat, mode: Mode, cached: nat, target: nat) returns (k: nat)
      requires idx < |lists|
      ensures k == Evicts(V(), idx, mode, cached, target)
    {
      var size, batch := CalculateSize(idx), BatchSize(idx);
      SizePositive(idx);
      var evictable := |lists[idx].items|;
      if mode.Reuse? { evictable := evictable - (if evictable < batch then evictable else batch); }
      k := 0;
      if cached > target && evictable > 0 {
        var requested := CeilDiv(cached - target, size);
        k := if evictable < requested then evictable else requested;
      }
    }

    method HandleGlobalTrimRequest(request: Request) returns (sent: seq<Sent>)
      requires |lists| == NUM_CLASSES
      modifies this
      ensures V() == Handle(old(V()), request)
      ensures |lists| == NUM_CLASSES && Handle(V(), request) == V()
      ensures Conserved(old(lists), lists, sent) && AllTo(sent, TargetOf(request.mode))
      ensures request.epoch == old(epoch) ==> sent == []
    {
      HandleOnce(V(), request);
      sent := [];
      if request.epoch == epoch { return; }
      sent := TrimTo(request.mode, TrimTarget(request.mode));
      epoch := request.epoch;
    }

    /** The fetched batch goes in front of the list and its first object is served. */
    method FetchInto(idx: nat, got: seq<nat>) returns (ptr: nat)
      requires idx < |lists|
      modifies this
      ensures (V(), ptr) == Refill(old(V()), idx, got) && |lists| == |old(lists)|
      ensures if got == [] then ptr == 0 && lists[idx].items == old(lists[idx].items)
              else [ptr] + lists[idx].items == got + old(lists[idx].items)
      ensures forall k: nat :: k < |lists| && k != idx ==> lists[k] == old(lists)[k]
    {
      if got == [] { return 0; }
      var fetchNum := if BatchSize(idx) < lists[idx].max then BatchSize(idx) else lists[idx].max;
      var all := got + lists[idx].items;
      ptr := all[0];
      lists := lists[idx := lists[idx].(items := all[1..])];
      if |got| < fetchNum { return; }
      var next := NextAfterRefill(lists[idx].max, BatchSize(idx));
      if next <= lists[idx].max || Bytes(idx, next - lists[idx].max) <= budget - reserved { SetQuotaOf(idx, next); }
      lists := lists[idx := lists[idx].(over := 0)];
    }

    /** Serves one object, or zero when CentralCache had none. A cached object is the
        newest of its list, a fetched one the first of the batch; what is not handed
        out stays, in order, and every other list only gives what a pending trim
        sends. */
    method AllocateFrom(idx: nat, got: seq<nat>, request: Request) returns (ptr: nat, sent: seq<Sent>)
      requires Rest(V()) && OpOk(V(), DoAllocate(idx, got, request))
      modifies this
      ensures (V(), ptr) == Allocate(old(V()), idx, got, request) && Rest(V())
      ensures old(lists[idx].items) != [] ==> sent == [] && [ptr] + lists[idx].items == old(lists[idx].items)
      ensures old(lists[idx].items) == [] ==>
                if got == [] then ptr == 0 && lists[idx].items == [] else [ptr] + lists[idx].items == got
      ensures forall k: nat {:trigger SentOf(sent, k)} :: k < NUM_CLASSES && k != idx ==>
                lists[k].items + SentOf(sent, k) == old(lists)[k].items
      ensures AllTo(sent, TargetOf(request.mode))
    {
      AllocateRest(V(), idx, got, request);
      sent := [];
      if lists[idx].items != [] {
        ptr := lists[idx].items[0];
        lists := lists[idx := lists[idx].(items := lists[idx].items[1..])];
        return;
      }
      sent := HandleGlobalTrimRequest(request);
      assert lists[idx].items + SentOf(sent, idx) == [];
      ptr := FetchInto(idx, got);
    }

    /** An overflow: a batch of the oldest objects leaves, or all when there are fewer. */
    method EvictBatch(idx: nat) returns (evicted: seq<nat>)
      requires idx < |lists| && |lists[idx].items| > lists[idx].max
      modifies this
      ensures V() == Overflow(old(V()), idx) && |lists| == |old(lists)|
      ensures lists[idx].items + evicted == old(lists[idx].items)
      ensures |evicted| == Min(BatchSize(idx), |old(lists[idx].items)|)
      ensures forall k: nat :: k < |lists| && k != idx ==> lists[k] == old(lists)[k]
    {
      var l := lists[idx];
      var kept := KeptItems(l, BatchSize(idx));
      evicted := l.items[|kept|..];
      lists := lists[idx := l.(items := kept)];
      var (m, o) := NextAfterOverflow(l.max, BatchSize(idx), l.over);
      SetQuotaOf(idx, m);
      lists := lists[idx := lists[idx].(over := o)];
    }

    /** Takes one object back; an overflow evicts a batch of the oldest. What stays in
        a list followed by what was sent is what was there, the new object first. */
    method DeallocateTo(ptr: nat, idx: nat, request: Request) returns (sent: seq<Sent>)
      requires Rest(V()) && idx < NUM_CLASSES
      modifies this
      ensures |Handle(Pushed(old(V()), idx, ptr), request).lists| == NUM_CLASSES
      ensures V() == Deallocate(old(V()), idx, ptr, request) && Rest(V())
      ensures Conserved(Pushed(old(V()), idx, ptr).lists, lists, sent)
      ensures forall i :: 0 <= i < |sent| ==>
                (sent[i].to.ToSpanBitmap? ==> request.epoch != old(epoch) && request.mode.Purge?)
    {
      DeallocateRest(V(), idx, ptr, request);
      sent := [];
      lists := lists[idx := lists[idx].(items := [ptr] + lists[idx].items)];
      ghost var pushed := lists;
      if |lists[idx].items| <= lists[idx].max { return; }
      sent := HandleGlobalTrimRequest(request);
      if |lists[idx].items| <= lists[idx].max { return; }
      ghost var had := lists;
      var evicted := EvictBatch(idx);
      ConservedMore(pushed, had, lists, sent, Sent(idx, evicted, ToTransferCache));
      sent := sent + [Sent(idx, evicted, ToTransferCache)];
    }

    method EmptyClass(i: nat) returns (items: seq<nat>)
      requires i < |lists|
      modifies this
      ensures V() == SetOverages(SetQuota(SetItems(old(V()), i, []), i, 1), i, 0) && items == old(lists[i].items)
      ensures |lists| == |old(lists)| && lists[i].items == []
      ensures forall k: nat :: k < |lists| && k != i ==> lists[k] == old(lists)[k]
    {
      items := lists[i].items;
      lists := lists[i := lists[i].(items := [])];
      SetQuotaOf(i, 1);
      lists := lists[i := lists[i].(over := 0)];
    }

    /** Every list goes to CentralCache whole. */
    method ReleaseAll() returns (sent: seq<Sent>)
      requires Rest(V())
      modifies this
      ensures V() == ReleaseFrom(old(V()), 0) && Rest(V()) && Cached(V()) == 0
      ensures Conserved(old(lists), lists, sent) && AllTo(sent, ToTransferCache)
    {
      ReleaseAllResets(V());
      sent := [];
      var i: nat := 0;
      while i < |lists|
        invariant i <= |lists| == NUM_CLASSES && ReleaseFrom(V(), i) == ReleaseFrom(old(V()), 0)
        invariant Conserved(old(lists), lists, sent) && AllTo(sent, ToTransferCache)
      {
        ghost var had := lists;
        var items := EmptyClass(i);
        if items != [] {
          ConservedMore(old(lists), had, lists, sent, Sent(i, items, ToTransferCache));
          sent := sent + [Sent(i, items, ToTransferCache)];
        }
        i := i + 1;
      }
    }
  }
}
