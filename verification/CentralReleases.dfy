/** Where objects go that a thread gives up, over whole runs: to the transfer cache of
    their class or to the bitmap of their span, as the mode of the release says
    (src/central_cache.cpp). */
module CentralReleases {
  import opened Config
  import opened Lists
  import opened CentralStore
  import opened CentralCache
  import opened CentralInvariant
  import opened CentralOwners
  import opened CentralRuns
  import opened CentralFetch

  /** Thread t is carrying object o: in its array, in the batch it releases, or in the
      group of the batch under work. */
  predicate Carries(st: Store, t: nat, o: Obj)
  {
    o in Of(st, Scratch(t)) || o in Of(st, Batch(t)) || o in Of(st, Ptrs(t))
  }

  predicate InBitmap(st: Store, o: Obj) { o.span in st.spans && o.slot in st.spans[o.span].free }

  // --------------------------------------------------------------- one step

  /** The first steps of a fetch, which link what the transfer cache gave. */
  predicate Popping(pc: Pc) { pc.Pop? || pc.Link? }

  /** An object thread t carries stays with t, or goes to a transfer cache from a
      position that pushes, or to its bitmap from the position that frees. */
  predicate Passed(st: Store, st': Store, pc: Pc, t: nat, o: Obj)
  {
    || Carries(st', t, o)
    || ((pc.Push? || pc.RPush?) && o in Of(st', Transfer(pc.c)))
    || (pc.Free? && o in Of(st, Ptrs(t)) && InBitmap(st', o))
  }

  lemma FirstOrRest(q: seq<Obj>, o: Obj)
    requires o in q
    ensures o == q[0] || o in q[1..]
  {}

  lemma PassPush(s: Sys, s': Sys, t: nat, o: Obj)
    requires PushWork(s, s', t) && Carries(s.st, t, o) && NoDup(Of(s.st, Scratch(t)))
    requires s.threads[t].pc.Leftover? ==> Of(s.st, Batch(t)) == []
    ensures Passed(s.st, s'.st, s.threads[t].pc, t, o)
  {
    var q := Of(s.st, Scratch(t));
    if PushOne(s, s', t) {
      if o in q { FirstOrRest(q, o); }
      assert q[..1] == [q[0]];
    } else if ReturnExcess(s, s', t) {
      ReversedMembers(q);
    }
  }

  lemma PassStore(s: Sys, s': Sys, t: nat, o: Obj)
    requires StoreWork(s, s', t) && Carries(s.st, t, o)
    ensures Passed(s.st, s'.st, s.threads[t].pc, t, o)
  {
    if ReleaseTurn(s, s', t) {
      var q := Of(s.st, Batch(t));
      if q != [] && o in q {
        var k := Min(|q|, MAX_BATCH);
        assert q == q[..k] + q[k..];
      }
    } else if RPushOne(s, s', t) {
      var q := Of(s.st, Ptrs(t));
      if o in q { FirstOrRest(q, o); }
      assert q[..1] == [q[0]];
    }
  }

  lemma PassFree(s: Sys, s': Sys, t: nat, o: Obj)
    requires FreeWork(s, s', t) && Carries(s.st, t, o)
    ensures Passed(s.st, s'.st, s.threads[t].pc, t, o)
  {
    if FreeOne(s, s', t) {
      var q := Of(s.st, Ptrs(t));
      if o in q { FirstOrRest(q, o); }
    }
  }

  lemma PassDrain(s: Sys, s': Sys, t: nat, o: Obj)
    requires DrainWork(s, s', t) && Carries(s.st, t, o) && NoDup(Of(s.st, Scratch(t)))
    requires s.threads[t].pc.DTake? ==> Of(s.st, Batch(t)) == []
    ensures Passed(s.st, s'.st, s.threads[t].pc, t, o)
  {
    if DrainClass(s, s', t) {
      assert s'.st.boxes == s.st.boxes;
    } else if DrainRelease(s, s', t) {
      ReversedMembers(Of(s.st, Scratch(t)));
    }
  }

  lemma PassAccept(s: Sys, s': Sys, t: nat, o: Obj)
    requires PopWork(s, s', t) && !Popping(s.threads[t].pc) && Carries(s.st, t, o)
    ensures Passed(s.st, s'.st, s.threads[t].pc, t, o)
  {}

  lemma PassWorks(s: Sys, s': Sys, t: nat, o: Obj)
    requires t < |s.threads| && Works(s, s', t) && !Popping(s.threads[t].pc) && Carries(s.st, t, o)
    requires NoDup(Of(s.st, Scratch(t)))
    requires s.threads[t].pc.DTake? || s.threads[t].pc.Leftover? ==> Of(s.st, Batch(t)) == []
    ensures Passed(s.st, s'.st, s.threads[t].pc, t, o)
  {
    if PopWork(s, s', t) { PassAccept(s, s', t, o); }
    else if PushWork(s, s', t) { PassPush(s, s', t, o); }
    else if EnterWork(s, s', t) { assert s'.st == s.st; }
    else if ScanWork(s, s', t) { assert s'.st == s.st; }
    else if StoreWork(s, s', t) { PassStore(s, s', t, o); }
    else if FreeWork(s, s', t) { PassFree(s, s', t, o); }
    else { PassDrain(s, s', t, o); }
  }

  lemma PassTake(s: Sys, s': Sys, t: nat, slot: nat, o: Obj)
    requires TakeObject(s, s', t, slot) && Carries(s.st, t, o)
    ensures Carries(s'.st, t, o)
  {}

  lemma PassOwn(s: Sys, s': Sys, t: nat, a: Action, o: Obj)
    requires t < |s.threads| && !s.threads[t].pc.Idle? && Do(s, s', t, a) && !Popping(s.threads[t].pc)
    requires Carries(s.st, t, o)
    requires NoDup(Of(s.st, Scratch(t)))
    requires s.threads[t].pc.DTake? || s.threads[t].pc.Leftover? ==> Of(s.st, Batch(t)) == []
    ensures Passed(s.st, s'.st, s.threads[t].pc, t, o)
  {
    InCall(s, s', t, a);
    if a.Continue? { PassWorks(s, s', t, o); }
    else if a.GiveSlot? { PassTake(s, s', t, a.slot, o); }
    else { assert s'.st.boxes == s.st.boxes; }
  }

  lemma PassOther(s: Sys, s': Sys, u: nat, a: Action, t: nat, o: Obj)
    requires Do(s, s', u, a) && u != t && t < |s.threads| && LocksOk(s) && Carries(s.st, t, o)
    ensures Carries(s'.st, t, o)
  {
    OthersKeep(s, s', u, a, t, Scratch(t));
    OthersKeep(s, s', u, a, t, Batch(t));
    OthersKeep(s, s', u, a, t, Ptrs(t));
  }

  /** What the invariant gives about the hands of thread t. */
  ghost predicate Handy(s: Sys, t: nat)
  {
    && LocksOk(s) && t < |s.threads| && NoDup(Of(s.st, Scratch(t)))
    && var pc := s.threads[t].pc;
       && (pc.DTake? || pc.Leftover? ==> Of(s.st, Batch(t)) == [])
       && (pc.Idle? ==> forall o: Obj :: !Carries(s.st, t, o))
  }

  lemma HandyAt(r: seq<Sys>, x: nat, t: nat)
    requires Run(r) && x < |r| && t < |r[x].threads|
    ensures Handy(r[x], t)
  {
    RunInv(r, x);
    assert PcOk(r[x].st, t, r[x].threads[t].pc);
  }

  lemma PassNext(s: Sys, s': Sys, t: nat, o: Obj)
    requires Next(s, s') && Handy(s, t) && !s.threads[t].pc.Idle? && !Popping(s.threads[t].pc) && Carries(s.st, t, o)
    ensures Passed(s.st, s'.st, s.threads[t].pc, t, o)
  {
    var u: nat, a :| Do(s, s', u, a);
    if u == t { PassOwn(s, s', t, a, o); } else { PassOther(s, s', u, a, t, o); }
  }

  // ------------------------------------------------------------------ over runs

  predicate CarriesAt(r: seq<Sys>, x: nat, t: nat, o: Obj) { x < |r| && Carries(r[x].st, t, o) }

  /** In step m object o leaves thread t's hands. */
  predicate LeavesAt(r: seq<Sys>, m: nat, t: nat, o: Obj)
  {
    && m + 1 < |r| && t < |r[m].threads| && Carries(r[m].st, t, o)
    && var pc := r[m].threads[t].pc;
       || ((pc.Push? || pc.RPush?) && o in Of(r[m + 1].st, Transfer(pc.c)))
       || (pc.Free? && o in Of(r[m].st, Ptrs(t)) && InBitmap(r[m + 1].st, o))
  }

  /** Thread t is in a call and not at the beginning of a fetch. */
  ghost predicate Underway(r: seq<Sys>, x: nat, t: nat) { Busy(r, x, t) && !Popping(r[x].threads[t].pc) }

  lemma PassAt(r: seq<Sys>, x: nat, t: nat, o: Obj)
    requires Run(r) && x + 1 < |r| && Underway(r, x, t) && CarriesAt(r, x, t, o)
    ensures CarriesAt(r, x + 1, t, o) || LeavesAt(r, x, t, o)
  {
    HandyAt(r, x, t);
    assert StepAt(r, x);
    PassNext(r[x], r[x + 1], t, o);
  }

  lemma {:induction false} CarriedUntil(r: seq<Sys>, b: nat, e: nat, t: nat, o: Obj) returns (m: nat)
    requires Run(r) && b <= e < |r| && CarriesAt(r, b, t, o) && forall x: nat :: b <= x < e ==> Underway(r, x, t)
    ensures b <= m <= e && forall x: nat :: b <= x <= m ==> CarriesAt(r, x, t, o)
    ensures m == e || LeavesAt(r, m, t, o)
    decreases e - b
  {
    if b == e {
      m := b;
    } else {
      var f := e - 1;
      m := CarriedUntil(r, b, f, t, o);
      if m == f && !LeavesAt(r, m, t, o) {
        assert Underway(r, f, t) && CarriesAt(r, f, t, o);
        PassAt(r, f, t, o);
        if CarriesAt(r, f + 1, t, o) { m := e; }
      }
    }
  }

  /** A call that returns leaves nothing in the thread's hands: what it carried has gone
      to a transfer cache or to its bitmap, straight from its hands. */
  lemma CarriedLeaves(r: seq<Sys>, b: nat, e: nat, t: nat, o: Obj) returns (m: nat)
    requires Run(r) && b <= e && e + 1 < |r| && CarriesAt(r, b, t, o)
    requires forall x: nat :: b <= x <= e ==> Underway(r, x, t)
    requires t < |r[e + 1].threads| && r[e + 1].threads[t].pc.Idle?
    ensures b <= m <= e && LeavesAt(r, m, t, o) && forall x: nat :: b <= x <= m ==> CarriesAt(r, x, t, o)
  {
    m := CarriedUntil(r, b, e, t, o);
    if m == e && !LeavesAt(r, m, t, o) {
      assert Underway(r, e, t);
      PassAt(r, e, t, o);
      HandyAt(r, e + 1, t);
    }
  }

  // ------------------------------------------------------- the mode of a release

  /** In a release of class c in the given mode, on the way to `ret`. */
  predicate InMode(pc: Pc, c: nat, mode: Mode, ret: Ret)
  {
    && Releasing(pc) && pc.c == c && pc.ret == ret
    && (pc.RLock? || pc.RPush? ==> mode.ToTransfer?) && (!pc.RLock? && !pc.RPush? ==> pc.mode == mode)
  }

  lemma ModeStore(s: Sys, s': Sys, t: nat, c: nat, mode: Mode, ret: Ret)
    requires StoreWork(s, s', t) && InMode(s.threads[t].pc, c, mode, ret)
    ensures InMode(s'.threads[t].pc, c, mode, ret) || s'.threads[t].pc == AfterRelease(c, ret)
  {}

  lemma ModeFree(s: Sys, s': Sys, t: nat, c: nat, mode: Mode, ret: Ret)
    requires FreeWork(s, s', t) && InMode(s.threads[t].pc, c, mode, ret)
    ensures InMode(s'.threads[t].pc, c, mode, ret)
  {}

  lemma ReleaseWork(s: Sys, s': Sys, t: nat)
    requires t < |s.threads| && Works(s, s', t) && Releasing(s.threads[t].pc)
    ensures StoreWork(s, s', t) || FreeWork(s, s', t)
  {}

  lemma ModeWorks(s: Sys, s': Sys, t: nat, c: nat, mode: Mode, ret: Ret)
    requires t < |s.threads| && Works(s, s', t) && InMode(s.threads[t].pc, c, mode, ret)
    ensures t < |s'.threads|
    ensures InMode(s'.threads[t].pc, c, mode, ret) || s'.threads[t].pc == AfterRelease(c, ret)
  {
    ReleaseWork(s, s', t);
    if StoreWork(s, s', t) { ModeStore(s, s', t, c, mode, ret); } else { ModeFree(s, s', t, c, mode, ret); }
  }

  /** A thread that releases has nothing else to do. */
  lemma ReleaseAction(s: Sys, s': Sys, t: nat, a: Action)
    requires t < |s.threads| && Releasing(s.threads[t].pc) && Do(s, s', t, a)
    ensures a.Continue?
  {
    InCall(s, s', t, a);
  }

  lemma ModeNext(s: Sys, s': Sys, t: nat, c: nat, mode: Mode, ret: Ret)
    requires Next(s, s') && t < |s.threads| && InMode(s.threads[t].pc, c, mode, ret)
    ensures t < |s'.threads|
    ensures InMode(s'.threads[t].pc, c, mode, ret) || s'.threads[t].pc == AfterRelease(c, ret)
  {
    var u: nat, a :| Do(s, s', u, a);
    if u == t {
      ReleaseAction(s, s', t, a);
      ModeWorks(s, s', t, c, mode, ret);
    } else {
      OthersStay(s, s', u, a, t);
    }
  }

  // ------------------------------------------------------- when a cache was full

  /** Past the transfer cache, in a release that tries it first. */
  predicate FellThrough(pc: Pc) { (pc.RSpans? || pc.Free?) && pc.mode.ToTransfer? }

  /** The transfer cache of class c is at capacity while t has object o in its group. */
  predicate FullFor(s: Sys, t: nat, c: nat, o: Obj)
  {
    c < |s.caps| && |Of(s.st, Transfer(c))| >= s.caps[c] && o in Of(s.st, Ptrs(t))
  }

  lemma FullStore(s: Sys, s': Sys, t: nat, o: Obj)
    requires StoreWork(s, s', t) && FellThrough(s'.threads[t].pc) && o in Of(s'.st, Ptrs(t))
    ensures FullFor(s, t, s'.threads[t].pc.c, o)
  {}

  lemma FullFree(s: Sys, s': Sys, t: nat, o: Obj)
    requires FreeWork(s, s', t) && FellThrough(s'.threads[t].pc) && o in Of(s'.st, Ptrs(t))
    ensures FellThrough(s.threads[t].pc) && s.threads[t].pc.c == s'.threads[t].pc.c && o in Of(s.st, Ptrs(t))
  {}

  lemma NoFallPop(s: Sys, s': Sys, t: nat)
    requires PopWork(s, s', t) || PushWork(s, s', t)
    ensures !FellThrough(s'.threads[t].pc)
  {}

  lemma NoFallScan(s: Sys, s': Sys, t: nat)
    requires EnterWork(s, s', t) || ScanWork(s, s', t)
    ensures !FellThrough(s'.threads[t].pc)
  {}

  lemma NoFallDrain(s: Sys, s': Sys, t: nat)
    requires DrainWork(s, s', t)
    ensures !FellThrough(s'.threads[t].pc)
  {
    if DrainClass(s, s', t) { ShortedClass(s, s', t); }
  }

  lemma FullWorks(s: Sys, s': Sys, t: nat, o: Obj)
    requires t < |s.threads| && t < |s'.threads| && Works(s, s', t) && FellThrough(s'.threads[t].pc)
    requires o in Of(s'.st, Ptrs(t))
    ensures || FullFor(s, t, s'.threads[t].pc.c, o)
            || (FellThrough(s.threads[t].pc) && s.threads[t].pc.c == s'.threads[t].pc.c && o in Of(s.st, Ptrs(t)))
  {
    if PopWork(s, s', t) || PushWork(s, s', t) { NoFallPop(s, s', t); }
    else if EnterWork(s, s', t) || ScanWork(s, s', t) { NoFallScan(s, s', t); }
    else if StoreWork(s, s', t) { FullStore(s, s', t, o); }
    else if FreeWork(s, s', t) { FullFree(s, s', t, o); }
    else { NoFallDrain(s, s', t); }
  }

  lemma BegunNotFallen(pc: Pc, a: Action)
    requires !a.Continue? && Begun(pc, a)
    ensures !FellThrough(pc)
  {}

  lemma FullNext(s: Sys, s': Sys, t: nat, o: Obj)
    requires Next(s, s') && LocksOk(s) && t < |s.threads| && t < |s'.threads|
    requires FellThrough(s'.threads[t].pc) && o in Of(s'.st, Ptrs(t))
    ensures || FullFor(s, t, s'.threads[t].pc.c, o)
            || (FellThrough(s.threads[t].pc) && s.threads[t].pc.c == s'.threads[t].pc.c && o in Of(s.st, Ptrs(t)))
  {
    var u: nat, a :| Do(s, s', u, a);
    if u != t {
      OthersStay(s, s', u, a, t);
      OthersKeep(s, s', u, a, t, Ptrs(t));
    } else if a.Continue? {
      FullWorks(s, s', t, o);
    } else {
      Begins(s, s', t, a);
      BegunNotFallen(s'.threads[t].pc, a);
    }
  }

  /** An object on its way to the bitmap in a release that tries the transfer cache
      first: there was a moment, in the same call and with that object in hand, at which
      the transfer cache was at capacity. */
  lemma {:induction false} FullMoment(r: seq<Sys>, x: nat, t: nat, o: Obj) returns (y: nat)
    requires Run(r) && Busy(r, x, t) && FellThrough(r[x].threads[t].pc) && o in Of(r[x].st, Ptrs(t))
    ensures y <= x && FullFor(r[y], t, r[x].threads[t].pc.c, o) && forall z: nat :: y <= z <= x ==> Busy(r, z, t)
    decreases x
  {
    assert x > 0;
    var z := x - 1;
    FullBefore(r, z, t, o);
    HandyAt(r, z, t);
    assert Carries(r[z].st, t, o);
    if FullFor(r[z], t, r[x].threads[t].pc.c, o) {
      y := z;
    } else {
      y := FullMoment(r, z, t, o);
    }
  }

  lemma FullBefore(r: seq<Sys>, z: nat, t: nat, o: Obj)
    requires Run(r) && Busy(r, z + 1, t) && FellThrough(r[z + 1].threads[t].pc) && o in Of(r[z + 1].st, Ptrs(t))
    ensures t < |r[z].threads|
    ensures || FullFor(r[z], t, r[z + 1].threads[t].pc.c, o)
            || (FellThrough(r[z].threads[t].pc) && r[z].threads[t].pc.c == r[z + 1].threads[t].pc.c
                && o in Of(r[z].st, Ptrs(t)))
  {
    RunInv(r, z);
    assert StepAt(r, z);
    SameThreads(r[z], r[z + 1]);
    FullNext(r[z], r[z + 1], t, o);
  }

  lemma SameThreads(s: Sys, s': Sys)
    requires Next(s, s')
    ensures |s'.threads| == |s.threads|
  {
    var u: nat, a :| Do(s, s', u, a);
    OthersStay(s, s', u, a, u);
  }

  // ------------------------------------------------- when a prefetch is too much

  /** A fetch of class c is publishing its prefetch, with `rest` still in its array, and
      the transfer cache is at capacity. */
  predicate FullWith(s: Sys, t: nat, c: nat, rest: seq<Obj>)
  {
    && t < |s.threads| && s.threads[t].pc.Push? && s.threads[t].pc.c == c && Of(s.st, Scratch(t)) == rest
    && c < |s.caps| && |Of(s.st, Transfer(c))| >= s.caps[c]
  }

  predicate HandsBack(s: Sys, t: nat) { t < |s.threads| && s.threads[t].pc.Leftover? }

  lemma LeftoverPush(s: Sys, s': Sys, t: nat)
    requires PushWork(s, s', t) && HandsBack(s', t)
    ensures FullWith(s, t, s'.threads[t].pc.c, Of(s'.st, Scratch(t))) && Of(s'.st, Scratch(t)) != []
  {}

  lemma NoLeftoverFetch(s: Sys, s': Sys, t: nat)
    requires PopWork(s, s', t) || EnterWork(s, s', t) || ScanWork(s, s', t)
    ensures !HandsBack(s', t)
  {}

  lemma NoLeftoverRelease(s: Sys, s': Sys, t: nat)
    requires StoreWork(s, s', t) || FreeWork(s, s', t)
    ensures !HandsBack(s', t)
  {}

  lemma NoLeftoverDrain(s: Sys, s': Sys, t: nat)
    requires DrainWork(s, s', t)
    ensures !HandsBack(s', t)
  {
    if DrainClass(s, s', t) { ShortedClass(s, s', t); }
  }

  lemma LeftoverWorks(s: Sys, s': Sys, t: nat)
    requires Works(s, s', t) && HandsBack(s', t)
    ensures FullWith(s, t, s'.threads[t].pc.c, Of(s'.st, Scratch(t))) && Of(s'.st, Scratch(t)) != []
  {
    if PushWork(s, s', t) { LeftoverPush(s, s', t); }
    else if PopWork(s, s', t) || EnterWork(s, s', t) || ScanWork(s, s', t) { NoLeftoverFetch(s, s', t); }
    else if StoreWork(s, s', t) || FreeWork(s, s', t) { NoLeftoverRelease(s, s', t); }
    else { NoLeftoverDrain(s, s', t); }
  }

  lemma BegunNoLeftover(pc: Pc, a: Action)
    requires !a.Continue? && Begun(pc, a)
    ensures !pc.Leftover?
  {}

  lemma LeftoverNext(s: Sys, s': Sys, t: nat)
    requires Next(s, s') && LocksOk(s) && HandsBack(s', t) && t < |s.threads|
    ensures || (FullWith(s, t, s'.threads[t].pc.c, Of(s'.st, Scratch(t))) && Of(s'.st, Scratch(t)) != [])
            || (s.threads[t] == s'.threads[t] && Of(s.st, Scratch(t)) == Of(s'.st, Scratch(t)))
  {
    var u: nat, a :| Do(s, s', u, a);
    if u != t {
      OthersStay(s, s', u, a, t);
      OthersKeep(s, s', u, a, t, Scratch(t));
    } else if a.Continue? {
      LeftoverWorks(s, s', t);
    } else {
      Begins(s, s', t, a);
      BegunNoLeftover(s'.threads[t].pc, a);
    }
  }

  lemma LeftoverBefore(r: seq<Sys>, z: nat, t: nat)
    requires Run(r) && z + 1 < |r| && HandsBack(r[z + 1], t)
    ensures var c, rest := r[z + 1].threads[t].pc.c, Of(r[z + 1].st, Scratch(t));
            || (FullWith(r[z], t, c, rest) && rest != [])
            || (HandsBack(r[z], t) && r[z].threads[t].pc.c == c && Of(r[z].st, Scratch(t)) == rest)
  {
    RunInv(r, z);
    assert StepAt(r, z);
    SameThreads(r[z], r[z + 1]);
    LeftoverNext(r[z], r[z + 1], t);
  }

  lemma NoLeftoverAtFirst(r: seq<Sys>, t: nat)
    requires Run(r)
    ensures !HandsBack(r[0], t)
  {}

  /** Over any run: a fetch hands part of its prefetch back only because the transfer
      cache was full, at a moment at which that part was what it still had to publish. */
  lemma {:induction false} ExcessOnlyWhenFull(r: seq<Sys>, x: nat, t: nat) returns (y: nat)
    requires Run(r) && x < |r| && HandsBack(r[x], t)
    ensures y < x && FullWith(r[y], t, r[x].threads[t].pc.c, Of(r[x].st, Scratch(t)))
    ensures Of(r[x].st, Scratch(t)) != [] && forall z: nat :: y < z <= x ==> HandsBack(r[z], t)
    decreases x
  {
    NoLeftoverAtFirst(r, t);
    var z := x - 1;
    LeftoverBefore(r, z, t);
    y := z;
    if HandsBack(r[z], t) { y := ExcessOnlyWhenFull(r, z, t); }
  }

  // ------------------------------------------------------------- release calls

  predicate IsRelease(a: Action) { a.CallRelease? || a.CallReleaseOne? }

  function CallMode(a: Action): Mode { if a.CallRelease? then a.mode else ToTransfer }

  /** The objects a release call gives up: the oldest k of the thread's list, or one
      block of the user. */
  function GivenUp(st: Store, t: nat, a: Action): seq<Obj>
    requires IsRelease(a)
  {
    match a
    case CallRelease(c, k, mode) =>
      var l := Of(st, Local(t, c));
      if k <= |l| then l[|l| - k..] else []
    case CallReleaseOne(c, i) =>
      var u := Of(st, User(c));
      if i < |u| then [u[i]] else []
  }

  lemma BatchTaken(s: Sys, s': Sys, t: nat, a: Action)
    requires IsRelease(a) && Do(s, s', t, a) && Of(s.st, Batch(t)) == []
    ensures Of(s'.st, Batch(t)) == GivenUp(s.st, t, a)
  {
    if a.CallRelease? {
      var m := Enter(s.st, t, a.c);
      assert Of(m, Local(t, a.c)) == Of(s.st, Local(t, a.c)) && Of(m, Batch(t)) == [];
      assert StartRelease(s, s', t, a.c, a.k, a.mode);
    } else {
      var m := Enter(s.st, t, a.c);
      assert Of(m, User(a.c)) == Of(s.st, User(a.c)) && Of(m, Batch(t)) == [];
      assert StartSingle(s, s', t, a.c, a.i);
    }
  }

  lemma ReleaseBegins(r: seq<Sys>, i0: nat, t: nat, a: Action)
    requires Run(r) && IsRelease(a) && Calls(r, i0, t, a)
    ensures t < |r[i0 + 1].threads| && InMode(r[i0 + 1].threads[t].pc, a.c, CallMode(a), ToIdle)
    ensures Of(r[i0 + 1].st, Batch(t)) == GivenUp(r[i0].st, t, a) && r[i0].threads[t].pc.Idle?
  {
    ThreadStays(r, i0, t);
    Begins(r[i0], r[i0 + 1], t, a);
    CallsFromIdle(r[i0], r[i0 + 1], t, a);
    PlacedAt(r, i0, t);
    BatchTaken(r[i0], r[i0 + 1], t, a);
  }

  lemma CallsFromIdle(s: Sys, s': Sys, t: nat, a: Action)
    requires t < |s.threads| && Do(s, s', t, a) && !(a.Continue? || a.GiveSlot? || a.GiveSpan?)
    ensures s.threads[t].pc.Idle?
  {}

  predicate ReleasingAt(r: seq<Sys>, x: nat, t: nat, c: nat, mode: Mode, ret: Ret)
  {
    x < |r| && t < |r[x].threads| && InMode(r[x].threads[t].pc, c, mode, ret)
  }

  lemma ReleaseOn(r: seq<Sys>, x: nat, t: nat, c: nat, mode: Mode)
    requires Run(r) && x + 1 < |r| && ReleasingAt(r, x, t, c, mode, ToIdle) && Busy(r, x + 1, t)
    ensures ReleasingAt(r, x + 1, t, c, mode, ToIdle)
  {
    assert StepAt(r, x);
    ModeNext(r[x], r[x + 1], t, c, mode, ToIdle);
  }

  lemma {:induction false} ReleaseGoesOn(r: seq<Sys>, i0: nat, x: nat, t: nat, a: Action)
    requires Run(r) && IsRelease(a) && Calls(r, i0, t, a) && i0 < x < |r| && BusyFrom(r, i0, x, t)
    ensures ReleasingAt(r, x, t, a.c, CallMode(a), ToIdle)
    decreases x
  {
    if x == i0 + 1 {
      ReleaseBegins(r, i0, t, a);
    } else {
      ReleaseGoesOn(r, i0, x - 1, t, a);
      assert Busy(r, x, t);
      ReleaseOn(r, x - 1, t, a.c, CallMode(a));
    }
  }

  /** A moment within the call begun in step i0 at which the transfer cache of class c was
      at capacity while t had object o in hand. */
  ghost predicate WasFull(r: seq<Sys>, i0: nat, m: nat, t: nat, c: nat, o: Obj)
  {
    exists y: nat :: i0 < y <= m && y < |r| && FullFor(r[y], t, c, o)
  }

  lemma FullInCall(r: seq<Sys>, i0: nat, m: nat, t: nat, o: Obj)
    requires Run(r) && i0 < m && Busy(r, m, t) && FellThrough(r[m].threads[t].pc) && o in Of(r[m].st, Ptrs(t))
    requires i0 < |r| && t < |r[i0].threads| && r[i0].threads[t].pc.Idle?
    ensures WasFull(r, i0, m, t, r[m].threads[t].pc.c, o)
  {
    var y := FullMoment(r, m, t, o);
    assert !Busy(r, i0, t);
    assert i0 < y <= m && FullFor(r[y], t, r[m].threads[t].pc.c, o);
  }

  /** Object o goes straight from thread t's hands, where it is since moment b, to its
      bitmap in step m, or to the transfer cache of class c. */
  ghost predicate ToBits(r: seq<Sys>, b: nat, m: nat, t: nat, o: Obj)
  {
    m + 1 < |r| && (forall x: nat :: b <= x <= m ==> CarriesAt(r, x, t, o)) && InBitmap(r[m + 1].st, o)
  }

  ghost predicate ToCache(r: seq<Sys>, b: nat, m: nat, t: nat, c: nat, o: Obj)
  {
    m + 1 < |r| && (forall x: nat :: b <= x <= m ==> CarriesAt(r, x, t, o)) && o in Of(r[m + 1].st, Transfer(c))
  }

  /** Over any run: when a release call returns, every object it gave up has gone straight
      from the thread's hands to its bitmap or, in the mode that tries it first, to the
      transfer cache of its class; and in that mode to its bitmap only after a moment,
      within the call and with the object in hand, at which the transfer cache was at
      capacity. */
  lemma ReleasedObjectEnds(r: seq<Sys>, i0: nat, j: nat, t: nat, a: Action, o: Obj) returns (m: nat)
    requires Run(r) && IsRelease(a) && Calls(r, i0, t, a) && CallReturns(r, i0, j, t) && o in GivenUp(r[i0].st, t, a)
    ensures i0 < m <= j
    ensures match CallMode(a)
            case ToBitmap => ToBits(r, i0 + 1, m, t, o)
            case ToTransfer =>
              ToCache(r, i0 + 1, m, t, a.c, o) || (ToBits(r, i0 + 1, m, t, o) && WasFull(r, i0, m, t, a.c, o))
  {
    ReleaseBegins(r, i0, t, a);
    ReleaseUnderway(r, i0, j, t, a);
    assert CarriesAt(r, i0 + 1, t, o);
    m := CarriedLeaves(r, i0 + 1, j, t, o);
    assert Underway(r, m, t);
    ReleaseLeft(r, i0, m, t, a, o);
  }

  lemma ReleaseUnderway(r: seq<Sys>, i0: nat, j: nat, t: nat, a: Action)
    requires Run(r) && IsRelease(a) && Calls(r, i0, t, a) && i0 < j < |r| && BusyFrom(r, i0, j, t)
    ensures forall x: nat :: i0 + 1 <= x <= j ==> Underway(r, x, t) && ReleasingAt(r, x, t, a.c, CallMode(a), ToIdle)
  {
    forall x: nat | i0 + 1 <= x <= j
      ensures Underway(r, x, t) && ReleasingAt(r, x, t, a.c, CallMode(a), ToIdle)
    {
      assert Busy(r, x, t);
      ReleaseGoesOn(r, i0, x, t, a);
    }
  }

  lemma ReleaseLeft(r: seq<Sys>, i0: nat, m: nat, t: nat, a: Action, o: Obj)
    requires Run(r) && IsRelease(a) && i0 < m && LeavesAt(r, m, t, o) && Busy(r, m, t)
    requires ReleasingAt(r, m, t, a.c, CallMode(a), ToIdle)
    requires t < |r[i0].threads| && r[i0].threads[t].pc.Idle?
    requires forall x: nat :: i0 + 1 <= x <= m ==> CarriesAt(r, x, t, o)
    ensures match CallMode(a)
            case ToBitmap => ToBits(r, i0 + 1, m, t, o)
            case ToTransfer =>
              ToCache(r, i0 + 1, m, t, a.c, o) || (ToBits(r, i0 + 1, m, t, o) && WasFull(r, i0, m, t, a.c, o))
  {
    if CallMode(a).ToTransfer? && r[m].threads[t].pc.Free? { FullInCall(r, i0, m, t, o); }
  }

  /** Over any run: a release to the bitmaps adds nothing to any transfer cache; no step of
      it changes one. */
  lemma BitmapReleaseCachesNothing(r: seq<Sys>, i0: nat, x: nat, t: nat, a: Action, b: Action, d: nat)
    requires Run(r) && IsRelease(a) && CallMode(a).ToBitmap? && Calls(r, i0, t, a) && i0 < x && BusyFrom(r, i0, x, t)
    requires Calls(r, x, t, b)
    ensures Of(r[x + 1].st, Transfer(d)) == Of(r[x].st, Transfer(d))
  {
    ReleaseGoesOn(r, i0, x, t, a);
    DoOwn(r[x], r[x + 1], t, b);
  }

  // -------------------------------------------------------------- after a release

  /** Some thread's `AllocObject` takes object o out of its bitmap in step x. */
  ghost predicate CarvedOut(s: Sys, s': Sys, o: Obj)
  {
    exists u: nat {:trigger Carries(s'.st, u, o)} ::
      Do(s, s', u, GiveSlot(o.slot)) && (Carries(s'.st, u, o) || o in Of(s'.st, Chain(u)))
  }

  ghost predicate LeavesBitmap(r: seq<Sys>, x: nat, o: Obj)
  {
    x + 1 < |r| && (CarvedOut(r[x], r[x + 1], o) || o.span !in r[x + 1].st.spans)
  }

  lemma TakenFrom(s: Sys, s': Sys, t: nat, slot: nat, o: Obj)
    requires TakeObject(s, s', t, slot) && InBitmap(s.st, o)
    ensures InBitmap(s'.st, o) || (slot == o.slot && (Carries(s'.st, t, o) || o in Of(s'.st, Chain(t))))
  {}

  lemma FreeKeepsBits(s: Sys, s': Sys, t: nat, o: Obj)
    requires FreeWork(s, s', t) && InBitmap(s.st, o)
    ensures InBitmap(s'.st, o) || o.span !in s'.st.spans
  {}

  lemma SameSpansWork(s: Sys, s': Sys, t: nat)
    requires Works(s, s', t) && !FreeWork(s, s', t)
    ensures s'.st.spans == s.st.spans
  {
    if PopWork(s, s', t) { SpansPop(s, s', t); }
    else if PushWork(s, s', t) { SpansPush(s, s', t); }
    else if StoreWork(s, s', t) { SpansStore(s, s', t); }
    else if DrainWork(s, s', t) { SpansDrain(s, s', t); }
  }

  lemma SpansPop(s: Sys, s': Sys, t: nat)
    requires PopWork(s, s', t)
    ensures s'.st.spans == s.st.spans
  {}

  lemma SpansPush(s: Sys, s': Sys, t: nat)
    requires PushWork(s, s', t)
    ensures s'.st.spans == s.st.spans
  {}

  lemma SpansStore(s: Sys, s': Sys, t: nat)
    requires StoreWork(s, s', t)
    ensures s'.st.spans == s.st.spans
  {}

  lemma SpansDrain(s: Sys, s': Sys, t: nat)
    requires DrainWork(s, s', t)
    ensures s'.st.spans == s.st.spans
  {}

  lemma BitStays(s: Sys, s': Sys, o: Obj)
    requires Next(s, s') && InBitmap(s.st, o)
    ensures InBitmap(s'.st, o) || CarvedOut(s, s', o) || o.span !in s'.st.spans
  {
    var u: nat, a :| Do(s, s', u, a);
    if a.GiveSlot? {
      TakenFrom(s, s', u, a.slot, o);
      assert !InBitmap(s'.st, o) ==>
               Do(s, s', u, GiveSlot(o.slot)) && (Carries(s'.st, u, o) || o in Of(s'.st, Chain(u)));
    } else if a.Continue? {
      if FreeWork(s, s', u) { FreeKeepsBits(s, s', u, o); } else { SameSpansWork(s, s', u); }
    } else {
      CallKeepsBits(s, s', u, a, o);
    }
  }

  lemma CallKeepsBits(s: Sys, s': Sys, t: nat, a: Action, o: Obj)
    requires Do(s, s', t, a) && !a.Continue? && !a.GiveSlot? && InBitmap(s.st, o)
    ensures InBitmap(s'.st, o)
  {
    match a
    case CallMalloc(c) => assert s'.st.spans == s.st.spans;
    case CallFree(c, i) => assert s'.st.spans == s.st.spans;
    case CallFetch(c, n) => assert s'.st.spans == s.st.spans;
    case CallRelease(c, k, mode) => assert s'.st.spans == s.st.spans;
    case CallReleaseOne(c, i) => assert s'.st.spans == s.st.spans;
    case CallDrain(bytes) => assert s'.st.spans == s.st.spans;
    case GiveSpan(id) => assert id != o.span;
  }

  /** Over any run: a freed object stays in its bitmap until some fetch carves it out
      again or its span goes back to PageCache. */
  lemma {:induction false} FreedStays(r: seq<Sys>, m: nat, j: nat, o: Obj) returns (x: nat)
    requires Run(r) && m <= j < |r| && InBitmap(r[m].st, o)
    ensures InBitmap(r[j].st, o) || (m <= x < j && LeavesBitmap(r, x, o))
    decreases j - m
  {
    x := m;
    if m < j {
      x := FreedStays(r, m, j - 1, o);
      if InBitmap(r[j - 1].st, o) {
        BitNext(r, j - 1, o);
        x := j - 1;
      }
    }
  }

  lemma BitNext(r: seq<Sys>, x: nat, o: Obj)
    requires Run(r) && x + 1 < |r| && InBitmap(r[x].st, o)
    ensures InBitmap(r[x + 1].st, o) || LeavesBitmap(r, x, o)
  {
    assert StepAt(r, x);
    BitStays(r[x], r[x + 1], o);
  }

  /** Over any run: after a release to the bitmaps every object it gave up is in its
      bitmap, unless some fetch has carved it out since or its span has gone back. */
  lemma BitmapReleaseFrees(r: seq<Sys>, i0: nat, j: nat, t: nat, a: Action, o: Obj) returns (x: nat)
    requires Run(r) && IsRelease(a) && CallMode(a).ToBitmap? && Calls(r, i0, t, a) && CallReturns(r, i0, j, t)
    requires o in GivenUp(r[i0].st, t, a)
    ensures InBitmap(r[j + 1].st, o) || (i0 < x <= j && LeavesBitmap(r, x, o))
  {
    var m := ReleasedObjectEnds(r, i0, j, t, a, o);
    x := FreedStays(r, m + 1, j + 1, o);
  }

  // ---------------------------------------------------------------- empty spans

  /** Empty spans are in hand only while a release frees objects or gives spans back. */
  predicate EmptyHanded(th: Thread) { th.pc.Free? || th.pc.Empties? || th.empties == [] }

  lemma EmptyPop(s: Sys, s': Sys, t: nat)
    requires (PopWork(s, s', t) || PushWork(s, s', t)) && EmptyHanded(s.threads[t])
    ensures EmptyHanded(s'.threads[t])
  {}

  lemma EmptyScan(s: Sys, s': Sys, t: nat)
    requires (EnterWork(s, s', t) || ScanWork(s, s', t)) && EmptyHanded(s.threads[t])
    ensures EmptyHanded(s'.threads[t])
  {}

  lemma EmptyStore(s: Sys, s': Sys, t: nat)
    requires StoreWork(s, s', t) && EmptyHanded(s.threads[t])
    ensures EmptyHanded(s'.threads[t])
  {}

  lemma EmptyFree(s: Sys, s': Sys, t: nat)
    requires FreeWork(s, s', t) && EmptyHanded(s.threads[t])
    ensures EmptyHanded(s'.threads[t])
  {}

  lemma EmptyDrain(s: Sys, s': Sys, t: nat)
    requires DrainWork(s, s', t) && EmptyHanded(s.threads[t])
    ensures EmptyHanded(s'.threads[t])
  {}

  lemma EmptyWorks(s: Sys, s': Sys, t: nat)
    requires t < |s.threads| && t < |s'.threads| && Works(s, s', t) && EmptyHanded(s.threads[t])
    ensures EmptyHanded(s'.threads[t])
  {
    if PopWork(s, s', t) || PushWork(s, s', t) { EmptyPop(s, s', t); }
    else if EnterWork(s, s', t) || ScanWork(s, s', t) { EmptyScan(s, s', t); }
    else if StoreWork(s, s', t) { EmptyStore(s, s', t); }
    else if FreeWork(s, s', t) { EmptyFree(s, s', t); }
    else { EmptyDrain(s, s', t); }
  }

  lemma EmptyCall(s: Sys, s': Sys, t: nat, a: Action)
    requires Do(s, s', t, a) && !a.Continue? && t < |s.threads| && t < |s'.threads| && EmptyHanded(s.threads[t])
    ensures s'.threads[t].empties == [] && s.threads[t].empties == []
  {}

  lemma EmptyNext(s: Sys, s': Sys, t: nat)
    requires Next(s, s') && t < |s.threads| && t < |s'.threads| && EmptyHanded(s.threads[t])
    ensures EmptyHanded(s'.threads[t])
  {
    var u: nat, a :| Do(s, s', u, a);
    if u != t { OthersStay(s, s', u, a, t); }
    else if a.Continue? { EmptyWorks(s, s', t); }
    else { EmptyCall(s, s', t, a); }
  }

  lemma {:induction false} EmptyAt(r: seq<Sys>, x: nat, t: nat)
    requires Run(r) && x < |r| && t < |r[x].threads|
    ensures EmptyHanded(r[x].threads[t])
    decreases x
  {
    if x > 0 {
      var y := x - 1;
      assert StepAt(r, y);
      SameThreads(r[y], r[y + 1]);
      EmptyAt(r, y, t);
      EmptyNext(r[y], r[y + 1], t);
    }
  }

  lemma NoOneFrees(s: Sys, t: nat)
    requires Inv(s) && t < |s.threads| && forall c: nat :: c < |s.slock| ==> s.slock[c].None?
    ensures !s.threads[t].pc.Free?
  {
    assert PcOk(s.st, t, s.threads[t].pc);
    var c := if s.threads[t].pc.Free? then s.threads[t].pc.c else 0;
    assert s.slock[c] != Some(t);
  }

  lemma ListedInUse(s: Sys, id: nat)
    requires Inv(s) && id in s.st.spans && id in s.home && s.home[id] == Listed
    requires forall c: nat :: c < |s.slock| ==> s.slock[c].None?
    ensures s.st.spans[id].used > 0
  {
    var c := s.st.spans[id].cls;
    assert id in s.lists[c] && ListOk(s.st.spans, s.lists[c], Resting);
    var k :| 0 <= k < |s.lists[c]| && s.lists[c][k] == id;
  }

  lemma EmptyHome(s: Sys, id: nat) returns (t: nat)
    requires Inv(s) && id in s.st.spans && s.st.spans[id].used == 0
    requires forall c: nat :: c < |s.slock| ==> s.slock[c].None?
    ensures t < |s.threads| && (FreshOf(s.threads[t].pc) == Some(id) || id in s.threads[t].empties)
  {
    assert s.home[id] != Listed by { if s.home[id] == Listed { ListedInUse(s, id); } }
    t := s.home[id].t;
  }

  /** Over any run: no empty span is kept. A span with no slot taken is on its way from
      PageCache in the hands of a thread that asked for it, or on its way back in the
      hands of a thread that is freeing objects. */
  lemma EmptySpansGoBack(r: seq<Sys>, x: nat, id: nat) returns (t: nat)
    requires Run(r) && x < |r| && id in r[x].st.spans && r[x].st.spans[id].used == 0
    requires forall c: nat :: c < |r[x].slock| ==> r[x].slock[c].None?
    ensures t < |r[x].threads|
    ensures || (r[x].threads[t].pc.Relock? && r[x].threads[t].pc.got == Some(id))
            || (r[x].threads[t].pc.Empties? && id in r[x].threads[t].empties)
  {
    RunInv(r, x);
    t := EmptyHome(r[x], id);
    EmptyAt(r, x, t);
    NoOneFrees(r[x], t);
  }

  // --------------------------------------------------------------------- drains

  /** In a drain, whose batches go to the bitmaps. */
  predicate DrainPc(pc: Pc)
  {
    || pc.DClass? || pc.DSnap? || pc.DLoop? || pc.DTake?
    || (Releasing(pc) && pc.ret.ToDrain? && InMode(pc, pc.c, ToBitmap, pc.ret))
  }

  lemma DrainGoesOn(s: Sys, s': Sys, t: nat)
    requires DrainWork(s, s', t)
    ensures DrainPc(s'.threads[t].pc) || s'.threads[t].pc.Idle?
  {
    if DrainClass(s, s', t) { ClassGoesOn(s, s', t); }
  }

  lemma ClassGoesOn(s: Sys, s': Sys, t: nat)
    requires DrainClass(s, s', t)
    ensures DrainPc(s'.threads[t].pc) || s'.threads[t].pc.Idle?
  {}

  lemma DrainOnly(s: Sys, s': Sys, t: nat)
    requires t < |s.threads| && Works(s, s', t) && DrainPc(s.threads[t].pc) && !Releasing(s.threads[t].pc)
    ensures DrainWork(s, s', t)
  {}

  lemma DrainAction(s: Sys, s': Sys, t: nat, a: Action)
    requires t < |s.threads| && DrainPc(s.threads[t].pc) && Do(s, s', t, a)
    ensures a.Continue?
  {
    InCall(s, s', t, a);
  }

  lemma DrainNext(s: Sys, s': Sys, t: nat)
    requires Next(s, s') && t < |s.threads| && DrainPc(s.threads[t].pc)
    ensures t < |s'.threads| && (DrainPc(s'.threads[t].pc) || s'.threads[t].pc.Idle?)
  {
    SameThreads(s, s');
    var u: nat, a :| Do(s, s', u, a);
    var pc := s.threads[t].pc;
    if u != t {
      OthersStay(s, s', u, a, t);
    } else {
      DrainAction(s, s', t, a);
      if Releasing(pc) {
        ModeWorks(s, s', t, pc.c, ToBitmap, pc.ret);
      } else {
        DrainOnly(s, s', t);
        DrainGoesOn(s, s', t);
      }
    }
  }

  predicate DrainingAt(r: seq<Sys>, x: nat, t: nat) { x < |r| && t < |r[x].threads| && DrainPc(r[x].threads[t].pc) }

  lemma {:induction false} DrainStays(r: seq<Sys>, i0: nat, x: nat, t: nat, bytes: nat)
    requires Run(r) && Calls(r, i0, t, CallDrain(bytes)) && i0 < x < |r| && BusyFrom(r, i0, x, t)
    ensures DrainingAt(r, x, t)
    decreases x
  {
    if x == i0 + 1 {
      ThreadStays(r, i0, t);
      Begins(r[i0], r[i0 + 1], t, CallDrain(bytes));
    } else {
      var y := x - 1;
      DrainStays(r, i0, y, t, bytes);
      assert Busy(r, y + 1, t);
      assert StepAt(r, y);
      DrainNext(r[y], r[y + 1], t);
    }
  }

  /** Over any run: a drain adds nothing to any transfer cache. */
  lemma DrainCachesNothing(r: seq<Sys>, i0: nat, x: nat, t: nat, bytes: nat, b: Action, d: nat, o: Obj)
    requires Run(r) && Calls(r, i0, t, CallDrain(bytes)) && i0 < x && BusyFrom(r, i0, x, t) && Calls(r, x, t, b)
    requires o in Of(r[x + 1].st, Transfer(d))
    ensures o in Of(r[x].st, Transfer(d))
  {
    DrainStays(r, i0, x, t, bytes);
    if r[x].threads[t].pc.DTake? {
      DrainAction(r[x], r[x + 1], t, b);
      DrainOnly(r[x], r[x + 1], t);
      ColdOnly(r[x], r[x + 1], t, d, o);
    } else {
      DoOwn(r[x], r[x + 1], t, b);
    }
  }

  lemma ColdOnly(s: Sys, s': Sys, t: nat, d: nat, o: Obj)
    requires DrainWork(s, s', t) && s.threads[t].pc.DTake? && o in Of(s'.st, Transfer(d))
    ensures o in Of(s.st, Transfer(d))
  {
    assert DrainCold(s, s', t) || DrainRelease(s, s', t);
  }

  /** Over any run: what a drain has taken out of a transfer cache has gone, when the drain
      returns, straight from its hands to its bitmap. */
  lemma DrainedObjectEnds(r: seq<Sys>, i0: nat, x: nat, j: nat, t: nat, bytes: nat, o: Obj) returns (m: nat)
    requires Run(r) && Calls(r, i0, t, CallDrain(bytes)) && CallReturns(r, i0, j, t) && i0 < x <= j
    requires CarriesAt(r, x, t, o)
    ensures x <= m <= j && ToBits(r, x, m, t, o)
  {
    forall y: nat | x <= y <= j
      ensures Underway(r, y, t)
    {
      assert Busy(r, y, t);
      DrainStays(r, i0, y, t, bytes);
    }
    m := CarriedLeaves(r, x, j, t, o);
    DrainStays(r, i0, m, t, bytes);
  }

  // ------------------------------------------------------------ prefetched objects

  /** Past the transfer cache in a fetch, whose excess tries the transfer cache first. */
  predicate FetchPc(pc: Pc, c: nat, n: nat)
  {
    OnWith(pc, c, n) && (Releasing(pc) ==> InMode(pc, c, ToTransfer, pc.ret))
  }

  lemma ExcessMode(s: Sys, s': Sys, t: nat, c: nat)
    requires PushWork(s, s', t) && s.threads[t].pc.c == c && Releasing(s'.threads[t].pc)
    ensures InMode(s'.threads[t].pc, c, ToTransfer, s'.threads[t].pc.ret)
  {}

  lemma NoExcess(s: Sys, s': Sys, t: nat)
    requires EnterWork(s, s', t) || ScanWork(s, s', t) || PopWork(s, s', t)
    ensures !Releasing(s'.threads[t].pc)
  {
    if EnterWork(s, s', t) { NoExcessEnter(s, s', t); }
    else if ScanWork(s, s', t) { NoExcessScan(s, s', t); }
    else { NoExcessPop(s, s', t); }
  }

  lemma NoExcessEnter(s: Sys, s': Sys, t: nat)
    requires EnterWork(s, s', t)
    ensures !Releasing(s'.threads[t].pc)
  {}

  lemma NoExcessScan(s: Sys, s': Sys, t: nat)
    requires ScanWork(s, s', t)
    ensures !Releasing(s'.threads[t].pc)
  {}

  lemma NoExcessPop(s: Sys, s': Sys, t: nat)
    requires PopWork(s, s', t)
    ensures !Releasing(s'.threads[t].pc)
  {}

  lemma FetchPcWorks(s: Sys, s': Sys, t: nat, c: nat, n: nat)
    requires t < |s.threads| && Works(s, s', t) && FetchPc(s.threads[t].pc, c, n)
    ensures t < |s'.threads| && (FetchPc(s'.threads[t].pc, c, n) || s'.threads[t].pc.Idle?)
  {
    GoOn(s, s', t, c, n);
    var pc := s.threads[t].pc;
    if Releasing(pc) { ModeWorks(s, s', t, c, ToTransfer, pc.ret); }
    else if PushWork(s, s', t) { if Releasing(s'.threads[t].pc) { ExcessMode(s, s', t, c); } }
    else { NotReleasing(s, s', t, c, n); NoExcess(s, s', t); }
  }

  lemma NotReleasing(s: Sys, s': Sys, t: nat, c: nat, n: nat)
    requires t < |s.threads| && Works(s, s', t) && OnWith(s.threads[t].pc, c, n) && !Releasing(s.threads[t].pc)
    requires !PushWork(s, s', t)
    ensures EnterWork(s, s', t) || ScanWork(s, s', t) || PopWork(s, s', t)
  {}

  lemma FetchPcNext(s: Sys, s': Sys, t: nat, c: nat, n: nat)
    requires Next(s, s') && t < |s.threads| && FetchPc(s.threads[t].pc, c, n)
    ensures t < |s'.threads| && (FetchPc(s'.threads[t].pc, c, n) || s'.threads[t].pc.Idle?)
  {
    SameThreads(s, s');
    var u: nat, a :| Do(s, s', u, a);
    if u != t {
      OthersStay(s, s', u, a, t);
    } else {
      InCall(s, s', t, a);
      if a.Continue? { FetchPcWorks(s, s', t, c, n); } else { GivenInFetch(s, s', t, a, c, n); }
    }
  }

  lemma GivenInFetch(s: Sys, s': Sys, t: nat, a: Action, c: nat, n: nat)
    requires Do(s, s', t, a) && (a.GiveSlot? || a.GiveSpan?) && t < |s.threads| && OnWith(s.threads[t].pc, c, n)
    ensures t < |s'.threads| && FetchPc(s'.threads[t].pc, c, n)
  {
    if a.GiveSlot? { assert TakeObject(s, s', t, a.slot); } else { assert AskGot(s, s', t, a.id); }
  }

  predicate FetchPcAt(r: seq<Sys>, x: nat, t: nat, c: nat, n: nat)
  {
    x < |r| && t < |r[x].threads| && FetchPc(r[x].threads[t].pc, c, n)
  }

  lemma {:induction false} FetchPcStays(r: seq<Sys>, b: nat, x: nat, t: nat, c: nat, n: nat)
    requires Run(r) && b <= x < |r| && FetchPcAt(r, b, t, c, n) && forall y: nat :: b <= y <= x ==> Busy(r, y, t)
    ensures FetchPcAt(r, x, t, c, n)
    decreases x
  {
    if b < x {
      var y := x - 1;
      FetchPcStays(r, b, y, t, c, n);
      assert Busy(r, y + 1, t);
      assert StepAt(r, y);
      FetchPcNext(r[y], r[y + 1], t, c, n);
    }
  }

  /** Over any run: what a fetch has extracted beyond its need has gone, when the fetch
      returns, straight from its hands to the transfer cache of its class, or to its
      bitmap after a moment, within the call and with the object in hand, at which the
      transfer cache was at capacity. */
  lemma PrefetchedObjectEnds(r: seq<Sys>, i0: nat, x: nat, j: nat, t: nat, c: nat, n: nat, o: Obj) returns (m: nat)
    requires Run(r) && Calls(r, i0, t, CallFetch(c, n)) && CallReturns(r, i0, j, t) && i0 < x <= j
    requires CarriesAt(r, x, t, o)
    requires Busy(r, x, t) && Scanning(r[x].threads[t].pc)
    ensures x <= m <= j
    ensures ToCache(r, x, m, t, c, o) || (ToBits(r, x, m, t, o) && WasFull(r, i0, m, t, c, o))
  {
    ScanIsFetch(r, i0, x, t, c, n);
    FetchUnderway(r, x, j, t, c, n);
    m := CarriedLeaves(r, x, j, t, o);
    assert Underway(r, m, t);
    FetchLeft(r, i0, x, m, t, c, n, o);
  }

  lemma ScanIsFetch(r: seq<Sys>, i0: nat, x: nat, t: nat, c: nat, n: nat)
    requires Run(r) && Calls(r, i0, t, CallFetch(c, n)) && i0 < x < |r| && BusyFrom(r, i0, x, t)
    requires Busy(r, x, t) && Scanning(r[x].threads[t].pc)
    ensures FetchPcAt(r, x, t, c, n) && r[i0].threads[t].pc.Idle?
  {
    var i, locked := FetchPhases(r, i0, x, t, c, n, Of(r[i0].st, Local(t, c)));
    CallsFromIdle(r[i0], r[i0 + 1], t, CallFetch(c, n));
  }

  lemma FetchUnderway(r: seq<Sys>, x: nat, j: nat, t: nat, c: nat, n: nat)
    requires Run(r) && x <= j < |r| && FetchPcAt(r, x, t, c, n) && forall y: nat :: x <= y <= j ==> Busy(r, y, t)
    ensures forall y: nat :: x <= y <= j ==> Underway(r, y, t) && FetchPcAt(r, y, t, c, n)
  {
    forall y: nat | x <= y <= j
      ensures Underway(r, y, t) && FetchPcAt(r, y, t, c, n)
    {
      assert Busy(r, y, t);
      FetchPcStays(r, x, y, t, c, n);
    }
  }

  lemma FetchLeft(r: seq<Sys>, i0: nat, x: nat, m: nat, t: nat, c: nat, n: nat, o: Obj)
    requires Run(r) && i0 < x <= m && LeavesAt(r, m, t, o) && Busy(r, m, t) && FetchPcAt(r, m, t, c, n)
    requires i0 < |r| && t < |r[i0].threads| && r[i0].threads[t].pc.Idle?
    requires forall y: nat :: x <= y <= m ==> CarriesAt(r, y, t, o)
    ensures ToCache(r, x, m, t, c, o) || (ToBits(r, x, m, t, o) && WasFull(r, i0, m, t, c, o))
  {
    if r[m].threads[t].pc.Free? { FullInCall(r, i0, m, t, o); }
  }
}
