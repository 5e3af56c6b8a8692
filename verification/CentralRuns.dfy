/** What holds of CentralCache over whole runs, under every interleaving. */
module CentralRuns {
  import opened Config
  import opened Lists
  import opened CentralStore
  import opened CentralCache
  import opened CentralInvariant
  import opened SizeClass

  // ----------------------------------------------------------- object ownership

  /** At every moment every slot of every carved span is in exactly one place, and
      `use_count` is the number of slots outside the bitmap. */
  lemma EverySlotInOnePlace(r: seq<Sys>, i: nat, o: Obj)
    requires Run(r) && i < |r| && o.span in r[i].st.spans && o.slot < r[i].st.spans[o.span].cap
    ensures InOnePlace(r[i].st, o)
    ensures var sp := r[i].st.spans[o.span]; sp.used == |Range(sp.cap) - sp.free|
  {
    RunInv(r, i);
    OnePlace(r[i].st, o);
    TakenCount(r[i].st, o.span);
  }

  lemma TakenCount(st: Store, id: nat)
    requires StoreInv(st) && id in st.spans
    ensures st.spans[id].used == |Range(st.spans[id].cap) - st.spans[id].free|
  {
    var sp := st.spans[id];
    assert sp.free <= Range(sp.cap);
    assert Range(sp.cap) == (Range(sp.cap) - sp.free) + sp.free;
  }

  /** Whatever a thread, a transfer cache or the user holds is an object of its
      class that no one else holds. */
  lemma HeldAlone(r: seq<Sys>, i: nat, b: Box, o: Obj)
    requires Run(r) && i < |r| && o in Of(r[i].st, b)
    ensures o.span in r[i].st.spans && o.slot < r[i].st.spans[o.span].cap && o.slot !in r[i].st.spans[o.span].free
    ensures r[i].st.spans[o.span].cls == ClassOf(r[i].st, b)
    ensures forall x: Box {:trigger Of(r[i].st, x)} :: o in Of(r[i].st, x) ==> x == b
  {
    RunInv(r, i);
    var st := r[i].st;
    assert o in st.places;
  }

  // ----------------------------------------------------------------- span lists

  /** Whenever a span-list lock is free, spans with free slots precede full ones
      and every listed span has between one and all of its slots taken. */
  lemma FreeListIsOrdered(r: seq<Sys>, i: nat, c: nat)
    requires Run(r) && i < |r| && c < NUM_CLASSES && c < |r[i].slock| && r[i].slock[c].None?
    ensures c < |r[i].lists| && Ordered(r[i].st.spans, r[i].lists[c]) && InUse(r[i].st.spans, r[i].lists[c])
  {
    RunInv(r, i);
    assert ListOk(r[i].st.spans, r[i].lists[c], Resting);
  }

  /** `FetchBatch` turns to PageCache only when no listed span of the class has a
      free slot. */
  lemma AsksOnlyWhenAllFull(r: seq<Sys>, i: nat, t: nat)
    requires Run(r) && i + 1 < |r| && ScanNext(r[i], r[i + 1], t) && r[i + 1].threads[t].pc.Ask?
    ensures var c := r[i].threads[t].pc.c;
            forall id: nat :: id in r[i].lists[c] ==> Full(r[i].st.spans, id) && r[i].st.spans[id].free == {}
  {
    RunInv(r, i);
    var s, c := r[i], r[i].threads[t].pc.c;
    assert s.slock[c] == Some(t) && ListOk(s.st.spans, s.lists[c], Resting);
    forall id: nat | id in s.lists[c]
      ensures Full(s.st.spans, id) && s.st.spans[id].free == {}
    {
      var j :| 0 <= j < |s.lists[c]| && s.lists[c][j] == id;
      assert j > 0 ==> Full(s.st.spans, s.lists[c][0]) && Full(s.st.spans, s.lists[c][j]);
    }
  }

  /** PageCache is never entered with a CentralCache lock held: the positions at
      which it is called are not among those that `HeldT` and `HeldS` give a lock. */
  lemma NoLockInPageCache(r: seq<Sys>, i: nat, t: nat, c: nat)
    requires Run(r) && i < |r| && t < |r[i].threads| && (r[i].threads[t].pc.Ask? || r[i].threads[t].pc.Empties?)
    requires c < NUM_CLASSES && c < |r[i].tlock| && c < |r[i].slock|
    ensures r[i].tlock[c] != Some(t) && r[i].slock[c] != Some(t)
  {
    RunInv(r, i);
  }

  // ----------------------------------------------------------- what a fetch gives

  /** A finished fetch has a chain of distinct objects of its class, as many as
      asked for unless a span request failed. */
  lemma FetchGives(r: seq<Sys>, i: nat, t: nat)
    requires Run(r) && i < |r| && t < |r[i].threads| && r[i].threads[t].pc.Fetched?
    ensures var pc := r[i].threads[t].pc;
            var chain := Of(r[i].st, Chain(t));
            && NoDup(chain) && |chain| <= pc.n && (|chain| < pc.n ==> pc.short)
            && forall o: Obj :: o in chain ==> o.span in r[i].st.spans && r[i].st.spans[o.span].cls == pc.c
  {
    RunInv(r, i);
    assert PcOk(r[i].st, t, r[i].threads[t].pc);
    var st := r[i].st;
    forall o: Obj | o in Of(st, Chain(t))
      ensures o.span in st.spans && st.spans[o.span].cls == r[i].threads[t].pc.c
    {
      assert o in st.places;
    }
  }

  /** The fixed arrays are never overrun. */
  lemma ArraysSuffice(r: seq<Sys>, i: nat, t: nat)
    requires Run(r) && i < |r| && t < |r[i].threads|
    ensures |Of(r[i].st, Scratch(t))| <= MAX_BATCH && |Of(r[i].st, Ptrs(t))| <= MAX_BATCH
  {
    RunInv(r, i);
    assert PcOk(r[i].st, t, r[i].threads[t].pc);
    SizesBounded(SizesOf(r[i].st, t), r[i].threads[t].pc);
  }

  lemma SizesBounded(z: Sizes, pc: Pc)
    requires SizesOk(z, pc)
    ensures z.scratch <= MAX_BATCH && z.ptrs <= MAX_BATCH
  {}

  /** No transfer cache holds more than its capacity. */
  lemma TransferFits(r: seq<Sys>, i: nat, c: nat)
    requires Run(r) && i < |r| && c < |r[i].caps|
    ensures |Of(r[i].st, Transfer(c))| <= r[i].caps[c]
  {
    RunInv(r, i);
  }

  /** The thread is past a failed span request of its current fetch. */
  predicate Shorted(pc: Pc)
  {
    || (pc.Relock? && pc.got.None?)
    || (Ending(pc) && pc.short)
    || (Releasing(pc) && pc.ret.ToFetch? && pc.ret.short)
  }

  lemma ShortedPop(s: Sys, s': Sys, t: nat)
    requires PopWork(s, s', t)
    ensures !Shorted(s'.threads[t].pc)
  {}

  lemma ShortedPush(s: Sys, s': Sys, t: nat)
    requires PushWork(s, s', t) && Shorted(s'.threads[t].pc)
    ensures Shorted(s.threads[t].pc)
  {}

  lemma ShortedEnter(s: Sys, s': Sys, t: nat)
    requires EnterWork(s, s', t) && Shorted(s'.threads[t].pc)
    ensures Shorted(s.threads[t].pc)
  {}

  lemma ShortedScan(s: Sys, s': Sys, t: nat)
    requires ScanWork(s, s', t) && Shorted(s'.threads[t].pc)
    ensures Shorted(s.threads[t].pc) || AskNone(s, s', t)
  {}

  lemma ShortedStore(s: Sys, s': Sys, t: nat)
    requires StoreWork(s, s', t) && Shorted(s'.threads[t].pc)
    ensures Shorted(s.threads[t].pc)
  {}

  lemma ShortedFree(s: Sys, s': Sys, t: nat)
    requires FreeWork(s, s', t) && Shorted(s'.threads[t].pc)
    ensures Shorted(s.threads[t].pc)
  {}

  lemma ShortedDrain(s: Sys, s': Sys, t: nat)
    requires DrainWork(s, s', t)
    ensures !Shorted(s'.threads[t].pc)
  {
    if DrainClass(s, s', t) { ShortedClass(s, s', t); }
    else if DrainSnapshot(s, s', t) { ShortedSnapshot(s, s', t); }
  }

  lemma ShortedClass(s: Sys, s': Sys, t: nat)
    requires DrainClass(s, s', t)
    ensures !Shorted(s'.threads[t].pc)
  {}

  lemma ShortedSnapshot(s: Sys, s': Sys, t: nat)
    requires DrainSnapshot(s, s', t)
    ensures !Shorted(s'.threads[t].pc)
  {}

  predicate Stays(s: Sys, s': Sys, t: nat, u: nat)
  {
    |s'.threads| == |s.threads| && (u != t && u < |s.threads| ==> s'.threads[u] == s.threads[u])
  }

  lemma StaysPop(s: Sys, s': Sys, t: nat, u: nat)
    requires PopWork(s, s', t)
    ensures Stays(s, s', t, u)
  {}

  lemma StaysPush(s: Sys, s': Sys, t: nat, u: nat)
    requires PushWork(s, s', t)
    ensures Stays(s, s', t, u)
  {}

  lemma StaysEnter(s: Sys, s': Sys, t: nat, u: nat)
    requires EnterWork(s, s', t)
    ensures Stays(s, s', t, u)
  {}

  lemma StaysScan(s: Sys, s': Sys, t: nat, u: nat)
    requires ScanWork(s, s', t)
    ensures Stays(s, s', t, u)
  {}

  lemma StaysStore(s: Sys, s': Sys, t: nat, u: nat)
    requires StoreWork(s, s', t)
    ensures Stays(s, s', t, u)
  {}

  lemma StaysFree(s: Sys, s': Sys, t: nat, u: nat)
    requires FreeWork(s, s', t)
    ensures Stays(s, s', t, u)
  {}

  lemma StaysDrain(s: Sys, s': Sys, t: nat, u: nat)
    requires DrainWork(s, s', t)
    ensures Stays(s, s', t, u)
  {}

  /** A step of one thread leaves the positions of the others. */
  lemma OthersStay(s: Sys, s': Sys, t: nat, a: Action, u: nat)
    requires Do(s, s', t, a)
    ensures Stays(s, s', t, u)
  {
    if a.Continue? { WorksStays(s, s', t, u); }
  }

  lemma WorksStays(s: Sys, s': Sys, t: nat, u: nat)
    requires Works(s, s', t)
    ensures Stays(s, s', t, u)
  {
    if PopWork(s, s', t) { StaysPop(s, s', t, u); }
    else if PushWork(s, s', t) { StaysPush(s, s', t, u); }
    else if EnterWork(s, s', t) { StaysEnter(s, s', t, u); }
    else if ScanWork(s, s', t) { StaysScan(s, s', t, u); }
    else if StoreWork(s, s', t) { StaysStore(s, s', t, u); }
    else if FreeWork(s, s', t) { StaysFree(s, s', t, u); }
    else { StaysDrain(s, s', t, u); }
  }

  lemma ShortedWorks(s: Sys, s': Sys, t: nat)
    requires t < |s.threads| && t < |s'.threads| && Works(s, s', t) && Shorted(s'.threads[t].pc)
    ensures Shorted(s.threads[t].pc) || AskNone(s, s', t)
  {
    if PopWork(s, s', t) { ShortedPop(s, s', t); }
    else if PushWork(s, s', t) { ShortedPush(s, s', t); }
    else if EnterWork(s, s', t) { ShortedEnter(s, s', t); }
    else if ScanWork(s, s', t) { ShortedScan(s, s', t); }
    else if StoreWork(s, s', t) { ShortedStore(s, s', t); }
    else if FreeWork(s, s', t) { ShortedFree(s, s', t); }
    else { ShortedDrain(s, s', t); }
  }

  lemma ShortedCause(s: Sys, s': Sys, u: nat, a: Action, t: nat)
    requires Do(s, s', u, a) && t < |s.threads| && t < |s'.threads| && Shorted(s'.threads[t].pc)
    ensures Shorted(s.threads[t].pc) || AskNone(s, s', t)
  {
    if u != t {
      OthersStay(s, s', u, a, t);
    } else if a.Continue? {
      ShortedWorks(s, s', t);
    } else {
      Begins(s, s', t, a);
      ShortedCall(s'.threads[t].pc, a);
    }
  }

  /** Where an action other than going on leaves the thread. */
  predicate Begun(pc: Pc, a: Action)
  {
    match a
    case CallMalloc(_) => pc.Idle?
    case CallFree(_, _) => pc.Idle?
    case CallFetch(c, n) => pc == Probe(c, n)
    case CallRelease(c, k, mode) => pc == Release(c, mode, ToIdle)
    case CallReleaseOne(c, i) => pc == Release(c, ToTransfer, ToIdle)
    case CallDrain(bytes) => pc.DClass?
    case GiveSlot(_) => pc.Take?
    case GiveSpan(_) => pc.Relock? && pc.got.Some?
    case Continue => true
  }

  lemma Begins(s: Sys, s': Sys, t: nat, a: Action)
    requires t < |s'.threads| && Do(s, s', t, a)
    ensures Begun(s'.threads[t].pc, a)
  {
    match a
    case CallMalloc(c) => assert Malloc(s, s', t, c);
    case CallFree(c, i) => assert UserFree(s, s', t, c, i);
    case CallFetch(c, n) => assert StartFetch(s, s', t, c, n);
    case CallRelease(c, k, mode) => assert StartRelease(s, s', t, c, k, mode);
    case CallReleaseOne(c, i) => assert StartSingle(s, s', t, c, i);
    case CallDrain(bytes) => assert StartDrain(s, s', t, bytes);
    case GiveSlot(slot) => assert TakeObject(s, s', t, slot);
    case GiveSpan(id) => assert AskGot(s, s', t, id);
    case Continue =>
  }

  /** Beginning a call, or getting what was asked for, is not a refusal. */
  lemma ShortedCall(pc: Pc, a: Action)
    requires !a.Continue? && Begun(pc, a)
    ensures !Shorted(pc)
  {}

  ghost predicate Refused(r: seq<Sys>, j: nat, t: nat) { j + 1 < |r| && AskNone(r[j], r[j + 1], t) }

  predicate ShortedAt(r: seq<Sys>, m: nat, t: nat) { m < |r| && t < |r[m].threads| && Shorted(r[m].threads[t].pc) }

  /** A fetch falls short of the request only when PageCache gave it no span: the
      refusal is in the run, and the thread has been in that same fetch since. */
  lemma {:induction false} ShortOnlyAfterRefusal(r: seq<Sys>, i: nat, t: nat) returns (j: nat)
    requires Run(r) && ShortedAt(r, i, t)
    ensures j < i && Refused(r, j, t) && forall m: nat :: j < m <= i ==> ShortedAt(r, m, t)
  {
    var refused := ShortedBefore(r, i, t);
    if refused {
      j := i - 1;
    } else {
      j := ShortOnlyAfterRefusal(r, i - 1, t);
    }
  }

  lemma ShortedBefore(r: seq<Sys>, i: nat, t: nat) returns (refused: bool)
    requires Run(r) && ShortedAt(r, i, t)
    ensures i > 0 && if refused then Refused(r, i - 1, t) else ShortedAt(r, i - 1, t)
  {
    assert i > 0;
    assert StepAt(r, i - 1);
    var u: nat, a :| Do(r[i - 1], r[i], u, a);
    OthersStay(r[i - 1], r[i], u, a, t);
    ShortedCause(r[i - 1], r[i], u, a, t);
    refused := !Shorted(r[i - 1].threads[t].pc);
  }
}
