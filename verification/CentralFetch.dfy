/** What a fetch takes, over whole runs: the hottest objects of the transfer cache, then
    objects carved from spans, and one batch more for the next requester
    (src/central_cache.cpp). */
module CentralFetch {
  import opened Config
  import opened CentralStore
  import opened CentralCache
  import opened CentralInvariant
  import opened CentralOwners
  import opened CentralRuns
  import opened SizeClass

  // --------------------------------------------------------------------- calls

  /** Thread t begins the call a in step i. */
  ghost predicate Calls(r: seq<Sys>, i: nat, t: nat, a: Action)
  {
    i + 1 < |r| && t < |r[i].threads| && Do(r[i], r[i + 1], t, a)
  }

  predicate Busy(r: seq<Sys>, x: nat, t: nat) { x < |r| && t < |r[x].threads| && !r[x].threads[t].pc.Idle? }

  /** Thread t has been in one call since step i. */
  ghost predicate BusyFrom(r: seq<Sys>, i: nat, j: nat, t: nat) { forall x: nat :: i < x <= j ==> Busy(r, x, t) }

  /** The call begun in step i returns in step j. */
  ghost predicate CallReturns(r: seq<Sys>, i: nat, j: nat, t: nat)
  {
    i < j && j + 1 < |r| && BusyFrom(r, i, j, t) && t < |r[j + 1].threads| && r[j + 1].threads[t].pc.Idle?
  }

  /** Step x takes the transfer lock of class c for thread t, or gives it back. */
  predicate LockTaken(r: seq<Sys>, x: nat, t: nat, c: nat)
  {
    x + 1 < |r| && c < |r[x].tlock| && c < |r[x + 1].tlock| && r[x].tlock[c] != Some(t) && r[x + 1].tlock[c] == Some(t)
  }

  predicate LockGiven(r: seq<Sys>, x: nat, t: nat, c: nat)
  {
    x + 1 < |r| && c < |r[x].tlock| && c < |r[x + 1].tlock| && r[x].tlock[c] == Some(t) && r[x + 1].tlock[c] != Some(t)
  }

  ghost predicate NoLockTaken(r: seq<Sys>, i: nat, j: nat, t: nat, c: nat)
  {
    forall x: nat :: i <= x < j ==> !LockTaken(r, x, t, c)
  }

  // ------------------------------------------------------------- what was taken

  /** The last k objects of q, the last one first. */
  function Hottest(q: seq<Obj>, k: nat): (h: seq<Obj>)
    requires k <= |q|
    ensures |h| == k && forall i :: 0 <= i < k ==> h[i] == q[|q| - 1 - i]
  {
    seq(k, i requires 0 <= i < k => q[|q| - 1 - i])
  }

  predicate EndsWith(q: seq<Obj>, p: seq<Obj>) { |p| <= |q| && q[|q| - |p|..] == p }

  /** Past the transfer cache, in a fetch of n objects of class c. */
  predicate OnWith(pc: Pc, c: nat, n: nat)
  {
    || ((pc.WantSpans? || Scanning(pc) || Ending(pc)) && pc.c == c && pc.n == n)
    || (Releasing(pc) && pc.c == c && pc.ret.ToFetch? && pc.ret.n == n)
  }

  /** A fetch of n objects that found the transfer cache to be q: it is taking the
      hottest ones, has them in its array, or has them at the end of its chain. */
  predicate Fetching(st: Store, pc: Pc, t: nat, c: nat, n: nat, q: seq<Obj>)
  {
    var k := Min(n, |q|);
    var scratch := Of(st, Scratch(t));
    if pc.Pop? then
      && pc.c == c && pc.n == n && pc.grab == k && |scratch| <= k && scratch == Hottest(q, k)[..|scratch|]
      && Of(st, Transfer(c)) == q[..|q| - |scratch|]
    else if pc.Link? then pc.c == c && pc.n == n && scratch == Hottest(q, k)
    else OnWith(pc, c, n) && EndsWith(Of(st, Chain(t)), Hottest(q, k))
  }

  // ------------------------------------------------------------ the thread's steps

  lemma ProbeTakes(s: Sys, s': Sys, t: nat, c: nat, n: nat)
    requires t < |s.threads| && s.threads[t].pc == Probe(c, n) && Works(s, s', t) && Of(s.st, Scratch(t)) == []
    ensures t < |s'.threads| && Fetching(s'.st, s'.threads[t].pc, t, c, n, Of(s.st, Transfer(c)))
    ensures s'.st == s.st && s'.threads[t].pc.Pop?
  {
    assert ProbeLock(s, s', t);
    var q := Of(s.st, Transfer(c));
    assert q[..|q|] == q && Hottest(q, Min(n, |q|))[..0] == [];
  }

  lemma PopTakes(s: Sys, s': Sys, t: nat, c: nat, n: nat, q: seq<Obj>)
    requires t < |s.threads| && s.threads[t].pc.Pop? && Works(s, s', t) && Fetching(s.st, s.threads[t].pc, t, c, n, q)
    ensures t < |s'.threads| && Fetching(s'.st, s'.threads[t].pc, t, c, n, q)
    ensures Of(s'.st, Local(t, c)) == Of(s.st, Local(t, c))
    ensures !s'.threads[t].pc.Pop? ==> Of(s'.st, Transfer(c)) == q[..|q| - Min(n, |q|)]
  {
    assert PopHot(s, s', t) || PopDone(s, s', t);
    var k, m := Min(n, |q|), |Of(s.st, Scratch(t))|;
    var top := Hottest(q, k);
    if PopHot(s, s', t) {
      var tr := Of(s.st, Transfer(c));
      assert tr == q[..|q| - m] && tr[|tr| - 1..] == [q[|q| - 1 - m]] && tr[..|tr| - 1] == q[..|q| - (m + 1)];
      assert top[..m + 1] == top[..m] + [top[m]];
    } else {
      assert top[..k] == top;
    }
  }

  lemma LinkTakes(s: Sys, s': Sys, t: nat, c: nat, n: nat, q: seq<Obj>)
    requires t < |s.threads| && s.threads[t].pc.Link? && Works(s, s', t) && Fetching(s.st, s.threads[t].pc, t, c, n, q)
    requires Of(s.st, Chain(t)) == []
    ensures t < |s'.threads| && Fetching(s'.st, s'.threads[t].pc, t, c, n, q)
    ensures Of(s'.st, Local(t, c)) == Of(s.st, Local(t, c))
  {
    assert LinkAll(s, s', t);
    var p := Of(s.st, Scratch(t));
    assert [] + p[..|p|] == p;
  }

  /** Past the transfer cache the chain only grows, at its head. */
  lemma ChainGrows(s: Sys, s': Sys, t: nat, slot: nat, p: seq<Obj>)
    requires TakeObject(s, s', t, slot) && EndsWith(Of(s.st, Chain(t)), p)
    ensures EndsWith(Of(s'.st, Chain(t)), p)
  {
    var q, q' := Of(s.st, Chain(t)), Of(s'.st, Chain(t));
    if q' != q { assert q'[|q'| - |p|..] == q[|q| - |p|..]; }
  }

  /** The chain and the thread's list are as they were. */
  predicate SameHands(st: Store, st': Store, t: nat, c: nat)
  {
    Of(st', Chain(t)) == Of(st, Chain(t)) && Of(st', Local(t, c)) == Of(st, Local(t, c))
  }

  lemma GoOnPush(s: Sys, s': Sys, t: nat, c: nat, n: nat)
    requires PushWork(s, s', t) && OnWith(s.threads[t].pc, c, n)
    ensures OnWith(s'.threads[t].pc, c, n) && SameHands(s.st, s'.st, t, c)
  {}

  lemma GoOnEnter(s: Sys, s': Sys, t: nat, c: nat, n: nat)
    requires EnterWork(s, s', t) && OnWith(s.threads[t].pc, c, n)
    ensures OnWith(s'.threads[t].pc, c, n) && SameHands(s.st, s'.st, t, c)
  {}

  lemma GoOnScan(s: Sys, s': Sys, t: nat, c: nat, n: nat)
    requires ScanWork(s, s', t) && OnWith(s.threads[t].pc, c, n)
    ensures OnWith(s'.threads[t].pc, c, n) && SameHands(s.st, s'.st, t, c)
  {}

  lemma GoOnStore(s: Sys, s': Sys, t: nat, c: nat, n: nat)
    requires StoreWork(s, s', t) && OnWith(s.threads[t].pc, c, n)
    ensures OnWith(s'.threads[t].pc, c, n) && SameHands(s.st, s'.st, t, c)
  {}

  lemma GoOnFree(s: Sys, s': Sys, t: nat, c: nat, n: nat)
    requires FreeWork(s, s', t) && OnWith(s.threads[t].pc, c, n)
    ensures OnWith(s'.threads[t].pc, c, n) && SameHands(s.st, s'.st, t, c)
  {}

  /** The fetch ends by putting its chain in front of the thread's list. */
  lemma GoOnPop(s: Sys, s': Sys, t: nat, c: nat, n: nat)
    requires PopWork(s, s', t) && OnWith(s.threads[t].pc, c, n)
    ensures s'.threads[t].pc.Idle? && s.threads[t].pc.Fetched?
    ensures Of(s'.st, Local(t, c)) == Of(s.st, Chain(t)) + Of(s.st, Local(t, c))
  {
    assert Accept(s, s', t);
  }

  lemma GoOn(s: Sys, s': Sys, t: nat, c: nat, n: nat)
    requires t < |s.threads| && Works(s, s', t) && OnWith(s.threads[t].pc, c, n)
    ensures t < |s'.threads|
    ensures if s'.threads[t].pc.Idle?
            then s.threads[t].pc.Fetched? && Of(s'.st, Local(t, c)) == Of(s.st, Chain(t)) + Of(s.st, Local(t, c))
            else OnWith(s'.threads[t].pc, c, n) && SameHands(s.st, s'.st, t, c)
  {
    if PopWork(s, s', t) { GoOnPop(s, s', t, c, n); }
    else if PushWork(s, s', t) { GoOnPush(s, s', t, c, n); }
    else if EnterWork(s, s', t) { GoOnEnter(s, s', t, c, n); }
    else if ScanWork(s, s', t) { GoOnScan(s, s', t, c, n); }
    else if StoreWork(s, s', t) { GoOnStore(s, s', t, c, n); }
    else if FreeWork(s, s', t) { GoOnFree(s, s', t, c, n); }
    else { GoOnDrain(s, s', t, c, n); }
  }

  lemma GoOnDrain(s: Sys, s': Sys, t: nat, c: nat, n: nat)
    requires DrainWork(s, s', t)
    ensures !OnWith(s.threads[t].pc, c, n)
  {}

  /** One step of the thread itself. */
  lemma FetchWorks(s: Sys, s': Sys, t: nat, c: nat, n: nat, q: seq<Obj>)
    requires t < |s.threads| && Works(s, s', t) && Fetching(s.st, s.threads[t].pc, t, c, n, q)
    requires s.threads[t].pc.Link? ==> Of(s.st, Chain(t)) == []
    ensures t < |s'.threads|
    ensures if s'.threads[t].pc.Idle?
            then EndsWith(Of(s.st, Chain(t)), Hottest(q, Min(n, |q|)))
                 && s.threads[t].pc.Fetched? && s.threads[t].pc.n == n
                 && Of(s'.st, Local(t, c)) == Of(s.st, Chain(t)) + Of(s.st, Local(t, c))
            else Fetching(s'.st, s'.threads[t].pc, t, c, n, q) && Of(s'.st, Local(t, c)) == Of(s.st, Local(t, c))
  {
    if s.threads[t].pc.Pop? { PopTakes(s, s', t, c, n, q); }
    else if s.threads[t].pc.Link? { LinkTakes(s, s', t, c, n, q); }
    else { GoOn(s, s', t, c, n); }
  }

  lemma TakeStaysOn(s: Sys, s': Sys, t: nat, slot: nat, c: nat)
    requires TakeObject(s, s', t, slot)
    ensures t < |s'.threads| && s'.threads[t].pc.Take? && s'.threads[t].pc.c == s.threads[t].pc.c
    ensures s'.threads[t].pc.n == s.threads[t].pc.n && Of(s'.st, Local(t, c)) == Of(s.st, Local(t, c))
  {}

  lemma TakeGoesOn(s: Sys, s': Sys, t: nat, slot: nat, c: nat, n: nat, q: seq<Obj>)
    requires TakeObject(s, s', t, slot) && Fetching(s.st, s.threads[t].pc, t, c, n, q)
    ensures Fetching(s'.st, s'.threads[t].pc, t, c, n, q) && Of(s'.st, Local(t, c)) == Of(s.st, Local(t, c))
  {
    TakeStaysOn(s, s', t, slot, c);
    ChainGrows(s, s', t, slot, Hottest(q, Min(n, |q|)));
  }

  lemma SpanGoesOn(s: Sys, s': Sys, t: nat, id: nat, c: nat, n: nat, q: seq<Obj>)
    requires AskGot(s, s', t, id) && Fetching(s.st, s.threads[t].pc, t, c, n, q)
    ensures Fetching(s'.st, s'.threads[t].pc, t, c, n, q) && Of(s'.st, Local(t, c)) == Of(s.st, Local(t, c))
  {
    assert s'.st.boxes == s.st.boxes;
  }

  /** While a call goes on only these actions are possible. */
  lemma InCall(s: Sys, s': Sys, t: nat, a: Action)
    requires t < |s.threads| && !s.threads[t].pc.Idle? && Do(s, s', t, a)
    ensures a.Continue? || a.GiveSlot? || a.GiveSpan?
  {}

  lemma FetchOwn(s: Sys, s': Sys, t: nat, a: Action, c: nat, n: nat, q: seq<Obj>)
    requires t < |s.threads| && !s.threads[t].pc.Idle? && Do(s, s', t, a) && Fetching(s.st, s.threads[t].pc, t, c, n, q)
    requires s.threads[t].pc.Link? ==> Of(s.st, Chain(t)) == []
    ensures t < |s'.threads|
    ensures if s'.threads[t].pc.Idle?
            then EndsWith(Of(s.st, Chain(t)), Hottest(q, Min(n, |q|)))
                 && s.threads[t].pc.Fetched? && s.threads[t].pc.n == n
                 && Of(s'.st, Local(t, c)) == Of(s.st, Chain(t)) + Of(s.st, Local(t, c))
            else Fetching(s'.st, s'.threads[t].pc, t, c, n, q) && Of(s'.st, Local(t, c)) == Of(s.st, Local(t, c))
  {
    InCall(s, s', t, a);
    if a.Continue? { FetchWorks(s, s', t, c, n, q); }
    else if a.GiveSlot? { TakeGoesOn(s, s', t, a.slot, c, n, q); }
    else { SpanGoesOn(s, s', t, a.id, c, n, q); }
  }

  /** A step of another thread. */
  lemma FetchOther(s: Sys, s': Sys, u: nat, a: Action, t: nat, c: nat, n: nat, q: seq<Obj>)
    requires Do(s, s', u, a) && u != t && t < |s.threads| && LocksOk(s) && c < |s.tlock|
    requires Fetching(s.st, s.threads[t].pc, t, c, n, q)
    ensures t < |s'.threads| && s'.threads[t] == s.threads[t]
    ensures Fetching(s'.st, s'.threads[t].pc, t, c, n, q) && Of(s'.st, Local(t, c)) == Of(s.st, Local(t, c))
  {
    OthersStay(s, s', u, a, t);
    OthersKeep(s, s', u, a, t, Scratch(t));
    OthersKeep(s, s', u, a, t, Chain(t));
    OthersKeep(s, s', u, a, t, Local(t, c));
    if s.threads[t].pc.Pop? { OthersKeep(s, s', u, a, t, Transfer(c)); }
  }

  // ----------------------------------------------------------------- over runs

  /** What the invariant gives about a thread in a call. */
  ghost predicate Placed(s: Sys, t: nat)
  {
    && LocksOk(s) && |s.tlock| == NUM_CLASSES && t < |s.threads|
    && var pc := s.threads[t].pc;
       && (pc.Link? ==> Of(s.st, Chain(t)) == []) && (pc.Probe? ==> Of(s.st, Scratch(t)) == [])
       && (pc.Fetched? ==> |Of(s.st, Chain(t))| <= pc.n)
       && (pc.Idle? ==> Of(s.st, Scratch(t)) == [] && Of(s.st, Batch(t)) == [] && Of(s.st, Ptrs(t)) == [])
  }

  lemma PlacedAt(r: seq<Sys>, x: nat, t: nat)
    requires Run(r) && x < |r| && t < |r[x].threads|
    ensures Placed(r[x], t)
  {
    RunInv(r, x);
    assert PcOk(r[x].st, t, r[x].threads[t].pc);
  }

  ghost predicate FetchingIn(s: Sys, t: nat, c: nat, n: nat, q: seq<Obj>, l: seq<Obj>)
  {
    t < |s.threads| && Fetching(s.st, s.threads[t].pc, t, c, n, q) && Of(s.st, Local(t, c)) == l
  }

  /** The fetched objects are in front of what the list was, at most n of them, and the
      last of them are the hottest of q, in order. */
  predicate Gained(now: seq<Obj>, was: seq<Obj>, n: nat, q: seq<Obj>)
  {
    && |was| <= |now| <= |was| + n && now[|now| - |was|..] == was
    && EndsWith(now[..|now| - |was|], Hottest(q, Min(n, |q|)))
  }

  lemma FetchNextOwn(s: Sys, s': Sys, t: nat, a: Action, c: nat, n: nat, q: seq<Obj>, l: seq<Obj>)
    requires Do(s, s', t, a) && FetchingIn(s, t, c, n, q, l) && !s.threads[t].pc.Idle? && Placed(s, t)
    ensures t < |s'.threads|
    ensures if s'.threads[t].pc.Idle? then Gained(Of(s'.st, Local(t, c)), l, n, q) else FetchingIn(s', t, c, n, q, l)
  {
    FetchOwn(s, s', t, a, c, n, q);
    if s'.threads[t].pc.Idle? {
      var got := Of(s.st, Chain(t));
      assert (got + l)[|got|..] == l && (got + l)[..|got|] == got;
    }
  }

  lemma FetchNext(s: Sys, s': Sys, t: nat, c: nat, n: nat, q: seq<Obj>, l: seq<Obj>)
    requires Next(s, s') && FetchingIn(s, t, c, n, q, l) && !s.threads[t].pc.Idle? && Placed(s, t) && c < NUM_CLASSES
    ensures t < |s'.threads|
    ensures if s'.threads[t].pc.Idle? then Gained(Of(s'.st, Local(t, c)), l, n, q) else FetchingIn(s', t, c, n, q, l)
  {
    var u: nat, a :| Do(s, s', u, a);
    if u == t { FetchNextOwn(s, s', t, a, c, n, q, l); } else { FetchOther(s, s', u, a, t, c, n, q); }
  }

  /** Before its first lock the fetch has done nothing. */
  ghost predicate Waiting(s: Sys, t: nat, c: nat, n: nat, l: seq<Obj>)
  {
    t < |s.threads| && s.threads[t].pc == Probe(c, n) && Of(s.st, Local(t, c)) == l
  }

  predicate Locks(s: Sys, s': Sys, t: nat, c: nat)
  {
    c < |s.tlock| && c < |s'.tlock| && s.tlock[c] != Some(t) && s'.tlock[c] == Some(t)
  }

  lemma WaitNext(s: Sys, s': Sys, t: nat, c: nat, n: nat, l: seq<Obj>)
    requires Next(s, s') && Waiting(s, t, c, n, l) && Placed(s, t) && Placed(s', t) && c < NUM_CLASSES
    ensures || (Waiting(s', t, c, n, l) && !Locks(s, s', t, c))
            || (FetchingIn(s', t, c, n, Of(s.st, Transfer(c)), l) && Locks(s, s', t, c) && s'.threads[t].pc.Pop?)
  {
    var u: nat, a :| Do(s, s', u, a);
    if u == t {
      InCall(s, s', t, a);
      assert a.Continue?;
      ProbeTakes(s, s', t, c, n);
      ProbeLocks(s, s', t, c, n);
    } else {
      OthersStay(s, s', u, a, t);
      OthersKeep(s, s', u, a, t, Local(t, c));
      OthersLock(s, s', u, a, t, c);
    }
  }

  lemma ProbeLocks(s: Sys, s': Sys, t: nat, c: nat, n: nat)
    requires t < |s.threads| && s.threads[t].pc == Probe(c, n) && Works(s, s', t) && c < |s.tlock|
    ensures Locks(s, s', t, c)
  {
    assert ProbeLock(s, s', t);
  }

  /** No thread takes a lock for another, or gives one back. */
  lemma OthersLock(s: Sys, s': Sys, u: nat, a: Action, t: nat, c: nat)
    requires Do(s, s', u, a) && u != t && t < |s.threads| && t < |s'.threads| && LocksOk(s) && LocksOk(s')
    requires c < |s.tlock| && c < |s'.tlock|
    ensures s'.tlock[c] == Some(t) <==> s.tlock[c] == Some(t)
  {
    OthersStay(s, s', u, a, t);
  }

  // ------------------------------------------------------------------ whole calls

  /** The moment i at which the call begun in step i0 first takes the lock of class c. */
  ghost predicate FirstLock(r: seq<Sys>, i0: nat, i: nat, t: nat, c: nat)
  {
    i0 < i && LockTaken(r, i, t, c) && NoLockTaken(r, i0, i, t, c)
  }

  ghost predicate WaitingAt(r: seq<Sys>, i0: nat, x: nat, t: nat, c: nat, n: nat, l: seq<Obj>)
  {
    x < |r| && Waiting(r[x], t, c, n, l) && NoLockTaken(r, i0, x, t, c)
  }

  ghost predicate FetchingAt(r: seq<Sys>, i0: nat, i: nat, x: nat, t: nat, c: nat, n: nat, l: seq<Obj>)
  {
    i < x < |r| && FirstLock(r, i0, i, t, c) && FetchingIn(r[x], t, c, n, Of(r[i].st, Transfer(c)), l)
  }

  lemma FetchBegins(r: seq<Sys>, i0: nat, t: nat, c: nat, n: nat)
    requires Run(r) && Calls(r, i0, t, CallFetch(c, n))
    ensures c < NUM_CLASSES && WaitingAt(r, i0, i0 + 1, t, c, n, Of(r[i0].st, Local(t, c)))
  {
    PlacedAt(r, i0, t);
    PlacedAt(r, i0 + 1, t);
    assert StartFetch(r[i0], r[i0 + 1], t, c, n);
  }

  lemma WaitOn(r: seq<Sys>, i0: nat, x: nat, t: nat, c: nat, n: nat, l: seq<Obj>) returns (locked: bool)
    requires Run(r) && x + 1 < |r| && i0 < x && WaitingAt(r, i0, x, t, c, n, l) && c < NUM_CLASSES
    ensures if locked then FetchingAt(r, i0, x, x + 1, t, c, n, l) && r[x + 1].threads[t].pc.Pop?
            else WaitingAt(r, i0, x + 1, t, c, n, l)
  {
    PlacedAt(r, x, t);
    assert StepAt(r, x);
    ThreadStays(r, x, t);
    PlacedAt(r, x + 1, t);
    WaitNext(r[x], r[x + 1], t, c, n, l);
    locked := Locks(r[x], r[x + 1], t, c);
    assert LockTaken(r, x, t, c) == locked;
  }

  lemma ThreadStays(r: seq<Sys>, x: nat, t: nat)
    requires Run(r) && x + 1 < |r| && t < |r[x].threads|
    ensures t < |r[x + 1].threads|
  {
    assert StepAt(r, x);
    var u: nat, a :| Do(r[x], r[x + 1], u, a);
    OthersStay(r[x], r[x + 1], u, a, t);
  }

  lemma FetchOn(r: seq<Sys>, i0: nat, i: nat, x: nat, t: nat, c: nat, n: nat, l: seq<Obj>)
    requires Run(r) && x + 1 < |r| && FetchingAt(r, i0, i, x, t, c, n, l) && Busy(r, x, t) && c < NUM_CLASSES
    ensures if Busy(r, x + 1, t) then FetchingAt(r, i0, i, x + 1, t, c, n, l)
            else Gained(Of(r[x + 1].st, Local(t, c)), l, n, Of(r[i].st, Transfer(c)))
  {
    PlacedAt(r, x, t);
    assert StepAt(r, x);
    FetchNext(r[x], r[x + 1], t, c, n, Of(r[i].st, Transfer(c)), l);
  }

  /** Where a fetch is: waiting for its first lock, or past it since step i. */
  ghost predicate Phase(r: seq<Sys>, i0: nat, i: nat, locked: bool, x: nat, t: nat, c: nat, n: nat, l: seq<Obj>)
  {
    && c < NUM_CLASSES
    && if locked then FetchingAt(r, i0, i, x, t, c, n, l) else WaitingAt(r, i0, x, t, c, n, l)
  }

  lemma PhaseNext(r: seq<Sys>, i0: nat, i: nat, locked: bool, x: nat, t: nat, c: nat, n: nat, l: seq<Obj>)
    returns (i': nat, locked': bool)
    requires Run(r) && i0 < x && Phase(r, i0, i, locked, x, t, c, n, l) && Busy(r, x, t) && Busy(r, x + 1, t)
    ensures Phase(r, i0, i', locked', x + 1, t, c, n, l)
  {
    i', locked' := i, locked;
    if locked {
      FetchOn(r, i0, i, x, t, c, n, l);
    } else {
      locked' := WaitOn(r, i0, x, t, c, n, l);
      i' := x;
    }
  }

  lemma {:induction false} FetchPhases(r: seq<Sys>, i0: nat, x: nat, t: nat, c: nat, n: nat, l: seq<Obj>)
    returns (i: nat, locked: bool)
    requires Run(r) && Calls(r, i0, t, CallFetch(c, n)) && i0 < x < |r| && BusyFrom(r, i0, x, t)
    requires l == Of(r[i0].st, Local(t, c))
    ensures Phase(r, i0, i, locked, x, t, c, n, l)
    decreases x
  {
    if x == i0 + 1 {
      FetchBegins(r, i0, t, c, n);
      i, locked := i0, false;
    } else {
      var y := x - 1;
      i, locked := FetchPhases(r, i0, y, t, c, n, l);
      assert Busy(r, y, t) && Busy(r, y + 1, t);
      i, locked := PhaseNext(r, i0, i, locked, y, t, c, n, l);
    }
  }

  /** Over any run: a fetch of n objects of class c takes the transfer lock, at a moment
      i within the call. Let q be what the transfer cache then holds. When the call
      returns the thread's list has gained between min(n, |q|) and n objects in front,
      the last of which are the last min(n, |q|) objects of q, hottest first, whether or
      not a span could be had. */
  lemma FetchTakesHottest(r: seq<Sys>, i0: nat, j: nat, t: nat, c: nat, n: nat) returns (i: nat)
    requires Run(r) && Calls(r, i0, t, CallFetch(c, n)) && CallReturns(r, i0, j, t)
    ensures i < j && FirstLock(r, i0, i, t, c)
    ensures var q, l, l' := Of(r[i].st, Transfer(c)), Of(r[i0].st, Local(t, c)), Of(r[j + 1].st, Local(t, c));
            && |l| + Min(n, |q|) <= |l'| <= |l| + n
            && l' == l'[..|l'| - |l| - Min(n, |q|)] + Hottest(q, Min(n, |q|)) + l
  {
    var l, locked := Of(r[i0].st, Local(t, c)), false;
    i, locked := FetchPhases(r, i0, j, t, c, n, l);
    assert Busy(r, j, t);
    if !locked { MustLock(r, i0, j, t, c, n, l); }
    FetchOn(r, i0, i, j, t, c, n, l);
    GainedParts(Of(r[j + 1].st, Local(t, c)), l, n, Of(r[i].st, Transfer(c)));
  }

  /** A call that has not had the lock does not return. */
  lemma MustLock(r: seq<Sys>, i0: nat, x: nat, t: nat, c: nat, n: nat, l: seq<Obj>)
    requires Run(r) && i0 < x && x + 1 < |r| && WaitingAt(r, i0, x, t, c, n, l) && c < NUM_CLASSES
    ensures Busy(r, x + 1, t)
  {
    var locked := WaitOn(r, i0, x, t, c, n, l);
  }

  lemma GainedParts(now: seq<Obj>, was: seq<Obj>, n: nat, q: seq<Obj>)
    requires Gained(now, was, n, q)
    ensures |was| + Min(n, |q|) <= |now|
    ensures now == now[..|now| - |was| - Min(n, |q|)] + Hottest(q, Min(n, |q|)) + was
  {
    var k := Min(n, |q|);
    var got := now[..|now| - |was|];
    assert got == got[..|got| - k] + got[|got| - k..] && now == got + now[|now| - |was|..];
    assert got[..|got| - k] == now[..|now| - |was| - k];
  }

  /** Thread t holds the transfer lock of class c from step i on. */
  predicate HeldAt(r: seq<Sys>, x: nat, t: nat, c: nat) { x < |r| && c < |r[x].tlock| && r[x].tlock[c] == Some(t) }

  lemma PopOn(r: seq<Sys>, i0: nat, i: nat, x: nat, t: nat, c: nat, n: nat, l: seq<Obj>)
    requires Run(r) && x + 1 < |r| && FetchingAt(r, i0, i, x, t, c, n, l) && r[x].threads[t].pc.Pop? && c < NUM_CLASSES
    ensures FetchingAt(r, i0, i, x + 1, t, c, n, l)
    ensures if HeldAt(r, x + 1, t, c) then r[x + 1].threads[t].pc.Pop?
            else var q := Of(r[i].st, Transfer(c)); Of(r[x + 1].st, Transfer(c)) == q[..|q| - Min(n, |q|)]
  {
    PlacedAt(r, x, t);
    ThreadStays(r, x, t);
    PlacedAt(r, x + 1, t);
    assert StepAt(r, x);
    PopNext(r[x], r[x + 1], t, c, n, Of(r[i].st, Transfer(c)), l);
  }

  lemma PopNext(s: Sys, s': Sys, t: nat, c: nat, n: nat, q: seq<Obj>, l: seq<Obj>)
    requires Next(s, s') && Placed(s, t) && Placed(s', t) && FetchingIn(s, t, c, n, q, l) && s.threads[t].pc.Pop?
    requires c < NUM_CLASSES
    ensures FetchingIn(s', t, c, n, q, l)
    ensures if s'.tlock[c] == Some(t) then s'.threads[t].pc.Pop? else Of(s'.st, Transfer(c)) == q[..|q| - Min(n, |q|)]
  {
    var u: nat, a :| Do(s, s', u, a);
    if u == t {
      InCall(s, s', t, a);
      assert a.Continue?;
      PopTakes(s, s', t, c, n, q);
      PopMoves(s, s', t);
    } else {
      FetchOther(s, s', u, a, t, c, n, q);
      assert s.tlock[c] == Some(t);
      OthersLock(s, s', u, a, t, c);
    }
  }

  lemma PopMoves(s: Sys, s': Sys, t: nat)
    requires t < |s.threads| && s.threads[t].pc.Pop? && Works(s, s', t)
    ensures t < |s'.threads| && (s'.threads[t].pc.Pop? || HeldT(s'.threads[t].pc).None?)
    ensures s'.threads[t].pc.Pop? ==> HeldT(s'.threads[t].pc) == HeldT(s.threads[t].pc)
  {
    assert PopHot(s, s', t) || PopDone(s, s', t);
  }

  lemma PopBegins(r: seq<Sys>, i0: nat, i: nat, t: nat, c: nat, n: nat, l: seq<Obj>)
    requires Run(r) && Calls(r, i0, t, CallFetch(c, n)) && FirstLock(r, i0, i, t, c) && BusyFrom(r, i0, i, t)
    requires l == Of(r[i0].st, Local(t, c))
    ensures c < NUM_CLASSES && FetchingAt(r, i0, i, i + 1, t, c, n, l) && r[i + 1].threads[t].pc.Pop?
  {
    var m, locked := FetchPhases(r, i0, i, t, c, n, l);
    assert !locked;
    locked := WaitOn(r, i0, i, t, c, n, l);
    assert LockTaken(r, i, t, c);
    assert locked;
  }

  lemma {:induction false} PopUntil(r: seq<Sys>, i0: nat, i: nat, x: nat, t: nat, c: nat, n: nat, l: seq<Obj>)
    requires Run(r) && Calls(r, i0, t, CallFetch(c, n)) && FirstLock(r, i0, i, t, c) && BusyFrom(r, i0, i, t)
    requires l == Of(r[i0].st, Local(t, c)) && i < x < |r| && forall y: nat :: i < y <= x ==> HeldAt(r, y, t, c)
    ensures c < NUM_CLASSES && FetchingAt(r, i0, i, x, t, c, n, l) && r[x].threads[t].pc.Pop?
    decreases x
  {
    PopBegins(r, i0, i, t, c, n, l);
    if x > i + 1 {
      var y := x - 1;
      PopUntil(r, i0, i, y, t, c, n, l);
      assert HeldAt(r, y + 1, t, c);
      PopOn(r, i0, i, y, t, c, n, l);
    }
  }

  /** Over any run: while the fetch has that lock, and when it gives it back in step x,
      the transfer cache loses exactly the min(n, |q|) last objects of q. */
  lemma FetchLeavesColder(r: seq<Sys>, i0: nat, i: nat, x: nat, t: nat, c: nat, n: nat)
    requires Run(r) && Calls(r, i0, t, CallFetch(c, n)) && FirstLock(r, i0, i, t, c) && BusyFrom(r, i0, i, t)
    requires i < x && LockGiven(r, x, t, c) && forall y: nat :: i < y <= x ==> HeldAt(r, y, t, c)
    ensures var q := Of(r[i].st, Transfer(c)); Of(r[x + 1].st, Transfer(c)) == q[..|q| - Min(n, |q|)]
  {
    var l := Of(r[i0].st, Local(t, c));
    PopUntil(r, i0, i, x, t, c, n, l);
    PopOn(r, i0, i, x, t, c, n, l);
  }

  // ------------------------------------------------- short results and prefetching

  /** A step of thread t's current call that PageCache refused. */
  ghost predicate RefusedIn(r: seq<Sys>, i0: nat, j: nat, t: nat)
  {
    exists k: nat :: i0 < k < j && Refused(r, k, t)
  }

  lemma ShortIn(r: seq<Sys>, i0: nat, x: nat, t: nat, a: Action)
    requires Run(r) && Calls(r, i0, t, a) && i0 < x && ShortedAt(r, x, t) && r[i0].threads[t].pc.Idle?
    ensures RefusedIn(r, i0, x, t)
  {
    var k := ShortOnlyAfterRefusal(r, x, t);
    assert !ShortedAt(r, i0, t) && !Refused(r, i0, t);
    assert i0 < k < x && Refused(r, k, t);
  }

  /** Over any run: a fetch brings fewer objects than asked for only if PageCache refused
      it a span within the call. */
  lemma FetchIsComplete(r: seq<Sys>, i0: nat, j: nat, t: nat, c: nat, n: nat)
    requires Run(r) && Calls(r, i0, t, CallFetch(c, n)) && CallReturns(r, i0, j, t) && !RefusedIn(r, i0, j, t)
    ensures |Of(r[j + 1].st, Local(t, c))| == |Of(r[i0].st, Local(t, c))| + n
  {
    var l, locked := Of(r[i0].st, Local(t, c)), false;
    var i: nat;
    i, locked := FetchPhases(r, i0, j, t, c, n, l);
    assert Busy(r, j, t);
    if !locked { MustLock(r, i0, j, t, c, n, l); }
    FetchEnds(r, j, t, c, n, Of(r[i].st, Transfer(c)), l);
    FetchGives(r, j, t);
    if r[j].threads[t].pc.short { ShortIn(r, i0, j, t, CallFetch(c, n)); }
  }

  lemma FetchEnds(r: seq<Sys>, j: nat, t: nat, c: nat, n: nat, q: seq<Obj>, l: seq<Obj>)
    requires Run(r) && j + 1 < |r| && FetchingIn(r[j], t, c, n, q, l) && Busy(r, j, t) && !Busy(r, j + 1, t)
    requires c < NUM_CLASSES
    ensures r[j].threads[t].pc.Fetched? && r[j].threads[t].pc.n == n
    ensures Of(r[j + 1].st, Local(t, c)) == Of(r[j].st, Chain(t)) + l
  {
    PlacedAt(r, j, t);
    ThreadStays(r, j, t);
    assert StepAt(r, j);
    EndIsOwn(r[j], r[j + 1], t, c, n, q, l);
  }

  lemma EndIsOwn(s: Sys, s': Sys, t: nat, c: nat, n: nat, q: seq<Obj>, l: seq<Obj>)
    requires Next(s, s') && FetchingIn(s, t, c, n, q, l) && !s.threads[t].pc.Idle? && Placed(s, t)
    requires t < |s'.threads| && s'.threads[t].pc.Idle?
    ensures s.threads[t].pc.Fetched? && s.threads[t].pc.n == n && Of(s'.st, Local(t, c)) == Of(s.st, Chain(t)) + l
  {
    var u: nat, a :| Do(s, s', u, a);
    if u == t { FetchOwn(s, s', t, a, c, n, q); } else { OthersStay(s, s', u, a, t); }
  }

  /** Past the span lists, with everything that was wanted. */
  predicate Beyond(pc: Pc, n: nat)
  {
    || ((pc.Leave? || pc.Publish? || pc.Push? || pc.Leftover?) && pc.n == n && !pc.short)
    || (Releasing(pc) && pc.ret.ToFetch? && pc.ret.n == n && !pc.ret.short)
  }

  predicate Complete(pc: Pc, n: nat) { Beyond(pc, n) || (pc.Fetched? && pc.n == n && !pc.short) }

  predicate OneBatchMore(st: Store, t: nat, n: nat) { |Of(st, Chain(t))| == n && |Of(st, Scratch(t))| == n }

  lemma BeyondPop(s: Sys, s': Sys, t: nat, n: nat)
    requires PopWork(s, s', t)
    ensures !Beyond(s'.threads[t].pc, n)
    ensures s'.threads[t].pc.Fetched? ==> s.threads[t].pc.Link? && |Of(s.st, Scratch(t))| == s'.threads[t].pc.n
  {}

  lemma BeyondPush(s: Sys, s': Sys, t: nat, n: nat)
    requires PushWork(s, s', t) && Complete(s'.threads[t].pc, n)
    ensures Beyond(s.threads[t].pc, n)
  {}

  lemma BeyondEnter(s: Sys, s': Sys, t: nat, n: nat)
    requires EnterWork(s, s', t) && Complete(s'.threads[t].pc, n)
    ensures Beyond(s.threads[t].pc, n)
  {}

  lemma BeyondScan(s: Sys, s': Sys, t: nat, n: nat)
    requires ScanWork(s, s', t) && PcOk(s.st, t, s.threads[t].pc) && Beyond(s'.threads[t].pc, n)
    ensures OneBatchMore(s'.st, t, n)
  {
    assert ScanNext(s, s', t);
  }

  lemma BeyondStore(s: Sys, s': Sys, t: nat, n: nat)
    requires StoreWork(s, s', t) && Complete(s'.threads[t].pc, n)
    ensures Beyond(s.threads[t].pc, n)
  {}

  lemma BeyondFree(s: Sys, s': Sys, t: nat, n: nat)
    requires FreeWork(s, s', t) && Complete(s'.threads[t].pc, n)
    ensures Beyond(s.threads[t].pc, n)
  {}

  lemma BeyondDrain(s: Sys, s': Sys, t: nat, n: nat)
    requires DrainWork(s, s', t)
    ensures !Beyond(s'.threads[t].pc, n) && !s'.threads[t].pc.Fetched?
  {
    if DrainClass(s, s', t) { ShortedClass(s, s', t); }
  }

  /** Where a full fetch came from, one step of its own back. */
  lemma FullWorks(s: Sys, s': Sys, t: nat, n: nat)
    requires t < |s.threads| && t < |s'.threads| && Works(s, s', t) && PcOk(s.st, t, s.threads[t].pc)
    requires Complete(s'.threads[t].pc, n)
    ensures || Complete(s.threads[t].pc, n) || OneBatchMore(s'.st, t, n)
            || (s.threads[t].pc.Link? && |Of(s.st, Scratch(t))| == n)
  {
    if PopWork(s, s', t) { BeyondPop(s, s', t, n); }
    else if PushWork(s, s', t) { BeyondPush(s, s', t, n); }
    else if EnterWork(s, s', t) { BeyondEnter(s, s', t, n); }
    else if ScanWork(s, s', t) { NoFetchedScan(s, s', t); BeyondScan(s, s', t, n); }
    else if StoreWork(s, s', t) { BeyondStore(s, s', t, n); }
    else if FreeWork(s, s', t) { BeyondFree(s, s', t, n); }
    else { BeyondDrain(s, s', t, n); }
  }

  lemma NoFetchedScan(s: Sys, s': Sys, t: nat)
    requires ScanWork(s, s', t)
    ensures !s'.threads[t].pc.Fetched?
  {}

  lemma FullNext(s: Sys, s': Sys, t: nat, n: nat)
    requires Next(s, s') && t < |s.threads| && t < |s'.threads| && PcOk(s.st, t, s.threads[t].pc)
    requires Complete(s'.threads[t].pc, n)
    ensures || Complete(s.threads[t].pc, n) || OneBatchMore(s'.st, t, n)
            || (s.threads[t].pc.Link? && |Of(s.st, Scratch(t))| == n)
  {
    var u: nat, a :| Do(s, s', u, a);
    if u != t { OthersStay(s, s', u, a, t); }
    else if a.Continue? { FullWorks(s, s', t, n); }
    else { Begins(s, s', t, a); NotFullYet(s'.threads[t].pc, a, n); }
  }

  lemma NotFullYet(pc: Pc, a: Action, n: nat)
    requires !a.Continue? && Begun(pc, a)
    ensures !Complete(pc, n)
  {}

  /** A full fetch either had everything from the transfer cache or has extracted one
      batch more than it needed. */
  lemma {:induction false} FullBecause(r: seq<Sys>, i0: nat, x: nat, t: nat, c: nat, n: nat) returns (y: nat)
    requires Run(r) && Calls(r, i0, t, CallFetch(c, n)) && i0 < x < |r| && t < |r[x].threads|
    requires Complete(r[x].threads[t].pc, n)
    ensures i0 < y <= x && t < |r[y].threads|
    ensures OneBatchMore(r[y].st, t, n) || (r[y].threads[t].pc.Link? && |Of(r[y].st, Scratch(t))| == n)
    decreases x
  {
    ThreadStays(r, i0, t);
    Begins(r[i0], r[i0 + 1], t, CallFetch(c, n));
    NotFullYet(r[i0 + 1].threads[t].pc, CallFetch(c, n), n);
    var z := x - 1;
    ThreadsFrom(r, i0, z, t);
    y := FullBefore(r, z, t, n);
    if !(y == z + 1 && OneBatchMore(r[y].st, t, n)) && !(r[z].threads[t].pc.Link? && |Of(r[z].st, Scratch(t))| == n) {
      y := FullBecause(r, i0, z, t, c, n);
    }
  }

  lemma FullBefore(r: seq<Sys>, z: nat, t: nat, n: nat) returns (y: nat)
    requires Run(r) && z + 1 < |r| && t < |r[z].threads| && t < |r[z + 1].threads|
    requires Complete(r[z + 1].threads[t].pc, n)
    ensures y == z || y == z + 1
    ensures || Complete(r[z].threads[t].pc, n) || (y == z + 1 && OneBatchMore(r[y].st, t, n))
            || (y == z && r[y].threads[t].pc.Link? && |Of(r[y].st, Scratch(t))| == n)
  {
    RunInv(r, z);
    assert StepAt(r, z) && PcOk(r[z].st, t, r[z].threads[t].pc);
    FullNext(r[z], r[z + 1], t, n);
    y := if OneBatchMore(r[z + 1].st, t, n) then z + 1 else z;
  }

  lemma {:induction false} ThreadsFrom(r: seq<Sys>, i: nat, x: nat, t: nat)
    requires Run(r) && i <= x < |r| && t < |r[i].threads|
    ensures t < |r[x].threads|
    decreases x
  {
    if i < x {
      ThreadsFrom(r, i, x - 1, t);
      ThreadStays(r, x - 1, t);
    }
  }

  /** Over any run: a fetch of n that finds fewer than n objects in the transfer cache and
      is not refused a span extracts, besides what it needs, n objects more. */
  lemma PrefetchesOneBatch(r: seq<Sys>, i0: nat, i: nat, j: nat, t: nat, c: nat, n: nat) returns (y: nat)
    requires Run(r) && Calls(r, i0, t, CallFetch(c, n)) && CallReturns(r, i0, j, t) && !RefusedIn(r, i0, j, t)
    requires FirstLock(r, i0, i, t, c) && i < j && |Of(r[i].st, Transfer(c))| < n
    ensures i0 < y <= j && |Of(r[y].st, Chain(t))| == n && |Of(r[y].st, Scratch(t))| == n
  {
    var l, locked := Of(r[i0].st, Local(t, c)), false;
    var m: nat;
    m, locked := FetchPhases(r, i0, j, t, c, n, l);
    assert Busy(r, j, t);
    if !locked { MustLock(r, i0, j, t, c, n, l); }
    FetchEnds(r, j, t, c, n, Of(r[m].st, Transfer(c)), l);
    if r[j].threads[t].pc.short { ShortIn(r, i0, j, t, CallFetch(c, n)); }
    y := FullBecause(r, i0, j, t, c, n);
    assert Busy(r, y, t);
    if !OneBatchMore(r[y].st, t, n) { LinkedAll(r, i0, i, y, t, c, n, l); }
  }

  /** The array holds exactly what the transfer cache had. */
  lemma LinkedAll(r: seq<Sys>, i0: nat, i: nat, y: nat, t: nat, c: nat, n: nat, l: seq<Obj>)
    requires Run(r) && Calls(r, i0, t, CallFetch(c, n)) && i0 < y < |r| && BusyFrom(r, i0, y, t)
    requires FirstLock(r, i0, i, t, c)
    requires l == Of(r[i0].st, Local(t, c)) && Busy(r, y, t) && r[y].threads[t].pc.Link?
    ensures |Of(r[y].st, Scratch(t))| == Min(n, |Of(r[i].st, Transfer(c))|)
  {
    var m, locked := FetchPhases(r, i0, y, t, c, n, l);
    assert locked;
    assert LockTaken(r, m, t, c) && LockTaken(r, i, t, c);
  }
}
