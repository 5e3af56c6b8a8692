/** What a drain of the transfer caches achieves, over whole runs and whatever other
    threads do meanwhile (src/central_cache.cpp). */
module CentralDrainRuns {
  import opened Config
  import opened Lists
  import opened CentralStore
  import opened CentralCache
  import opened CentralInvariant
  import opened CentralOwners
  import opened CentralRuns
  import opened CentralDrain
  import opened CentralFetch
  import opened CentralReleases
  import opened SizeClass

  // ------------------------------------------------- a transfer cache is a deque

  /** Objects enter at the hot end, one at a time, and leave at either end. */
  predicate DequeStep(q: seq<Obj>, q': seq<Obj>)
  {
    || q' == q
    || (|q'| == |q| + 1 && q'[..|q|] == q)
    || (q != [] && (q' == q[1..] || q' == q[..|q| - 1]))
  }

  lemma DequePop(s: Sys, s': Sys, t: nat, c: nat)
    requires PopWork(s, s', t)
    ensures DequeStep(Of(s.st, Transfer(c)), Of(s'.st, Transfer(c)))
  {}

  lemma DequePush(s: Sys, s': Sys, t: nat, c: nat)
    requires PushWork(s, s', t)
    ensures DequeStep(Of(s.st, Transfer(c)), Of(s'.st, Transfer(c)))
  {}

  lemma DequeStore(s: Sys, s': Sys, t: nat, c: nat)
    requires StoreWork(s, s', t)
    ensures DequeStep(Of(s.st, Transfer(c)), Of(s'.st, Transfer(c)))
  {}

  lemma DequeDrain(s: Sys, s': Sys, t: nat, c: nat)
    requires DrainWork(s, s', t)
    ensures DequeStep(Of(s.st, Transfer(c)), Of(s'.st, Transfer(c)))
  {
    if DrainClass(s, s', t) { assert s'.st.boxes == s.st.boxes; }
  }

  lemma DequeWorks(s: Sys, s': Sys, t: nat, c: nat)
    requires Works(s, s', t)
    ensures DequeStep(Of(s.st, Transfer(c)), Of(s'.st, Transfer(c)))
  {
    if PopWork(s, s', t) { DequePop(s, s', t, c); }
    else if PushWork(s, s', t) { DequePush(s, s', t, c); }
    else if EnterWork(s, s', t) { assert s'.st == s.st; }
    else if ScanWork(s, s', t) { assert s'.st == s.st; }
    else if StoreWork(s, s', t) { DequeStore(s, s', t, c); }
    else if FreeWork(s, s', t) { OwnFree(s, s', t); NoTransferHeld(s, s', t); }
    else { DequeDrain(s, s', t, c); }
  }

  lemma NoTransferHeld(s: Sys, s': Sys, t: nat)
    requires FreeWork(s, s', t)
    ensures HeldT(s.threads[t].pc).None?
  {}

  /** Every step of every thread treats every transfer cache as a deque. */
  lemma DoDeque(s: Sys, s': Sys, t: nat, a: Action, c: nat)
    requires Do(s, s', t, a)
    ensures DequeStep(Of(s.st, Transfer(c)), Of(s'.st, Transfer(c)))
  {
    if a.Continue? {
      DequeWorks(s, s', t, c);
    } else {
      DoOwn(s, s', t, a);
      NotHeld(s, s', t, a);
    }
  }

  lemma NotHeld(s: Sys, s': Sys, t: nat, a: Action)
    requires Do(s, s', t, a) && !a.Continue? && t < |s.threads|
    ensures HeldT(s.threads[t].pc).None?
  {}

  /** An object that stays in the cache keeps its distance from the cold end, or comes
      nearer to it. */
  lemma StaysNear(q: seq<Obj>, q': seq<Obj>, p: nat, o: Obj) returns (p': nat)
    requires DequeStep(q, q') && p < |q| && q[p] == o && o in q' && NoDup(q)
    ensures p' < |q'| && q'[p'] == o && p' <= p
  {
    if q' == q || (|q'| == |q| + 1 && q'[..|q|] == q) {
      p' := p;
    } else if q' == q[1..] {
      assert p > 0 by {
        var k :| 0 <= k < |q'| && q'[k] == o;
        assert q[k + 1] == o;
      }
      p' := p - 1;
    } else {
      var k :| 0 <= k < |q'| && q'[k] == o;
      assert q[k] == o;
      p' := p;
    }
  }

  // ------------------------------------------------------------ where a drain is

  /** Classes are drained from the largest down. */
  predicate Ahead(pc: Pc, c: nat)
  {
    if pc.DClass? then pc.i > c else !pc.Idle? && (pc.c > c || (pc.DSnap? && pc.c == c))
  }

  predicate Past(pc: Pc, c: nat) { if pc.DClass? then pc.i <= c else !pc.Idle? && pc.c < c }

  /** The budget is too small for one more object of class c, once rem of them are gone. */
  predicate Low(b: Budget, c: nat, rem: nat) { !b.unbounded && b.left < Bytes(c, rem) + CalculateSize(c) }

  /** A drain of `bytes` bytes, and the object at distance p from the cold end of class
      c's cache: the drain has yet to come to the class; or will take that object; or
      has, or will have, too little budget left for it. */
  predicate Aims(st: Store, pc: Pc, t: nat, c: nat, p: nat, bytes: nat)
  {
    && DrainPc(pc)
    && var b := if Releasing(pc) then pc.ret.b else pc.b;
       && b.total == bytes && b.unbounded == (bytes == MAX_SIZE_T)
       && (Ahead(pc, c)
           || (Past(pc, c) && Low(b, c, 0))
           || (pc.DLoop? && pc.c == c && (p < pc.rem || Low(b, c, pc.rem)))
           || (pc.DTake? && pc.c == c && (p + |Of(st, Scratch(t))| < pc.rem || Low(b, c, pc.rem)))
           || (Releasing(pc) && pc.c == c && (p + pc.ret.d < pc.ret.rem || Low(b, c, pc.ret.rem))))
  }

  // ------------------------------------------------------------- the drain's steps

  lemma ClassAims(s: Sys, s': Sys, t: nat, c: nat, p: nat, bytes: nat)
    requires DrainClass(s, s', t) && Aims(s.st, s.threads[t].pc, t, c, p, bytes)
    ensures s'.threads[t].pc.Idle? || Aims(s'.st, s'.threads[t].pc, t, c, p, bytes)
    ensures s'.threads[t].pc.Idle? ==> s.threads[t].pc.i == 0
  {}

  lemma SnapAims(s: Sys, s': Sys, t: nat, c: nat, p: nat, bytes: nat)
    requires DrainSnapshot(s, s', t) && Aims(s.st, s.threads[t].pc, t, c, p, bytes) && p < |Of(s.st, Transfer(c))|
    ensures Aims(s'.st, s'.threads[t].pc, t, c, p, bytes)
  {
    var pc := s.threads[t].pc;
    if pc.c == c { SnapCount(c, |Of(s.st, Transfer(c))|, pc.b, p); }
  }

  lemma SnapCount(c: nat, size: nat, b: Budget, p: nat)
    requires p < size
    ensures var rem := SnapshotCount(c, size, b); p < rem || Low(b, c, rem)
  {
    SizePositive(c);
    DivBounds(b.left, CalculateSize(c));
  }

  lemma LockAims(s: Sys, s': Sys, t: nat, c: nat, p: nat, bytes: nat)
    requires DrainLock(s, s', t) && Aims(s.st, s.threads[t].pc, t, c, p, bytes) && p < |Of(s.st, Transfer(c))|
    requires Of(s.st, Scratch(t)) == []
    ensures Aims(s'.st, s'.threads[t].pc, t, c, p, bytes)
  {}

  /** The coldest object leaves; the one aimed at comes one nearer. */
  lemma ColdAims(s: Sys, s': Sys, t: nat, c: nat, p: nat, bytes: nat, o: Obj) returns (p': nat)
    requires DrainCold(s, s', t) && Aims(s.st, s.threads[t].pc, t, c, p, bytes)
    requires var q := Of(s.st, Transfer(c)); p < |q| && q[p] == o && NoDup(q)
    requires o in Of(s'.st, Transfer(c))
    ensures var q' := Of(s'.st, Transfer(c)); p' < |q'| && q'[p'] == o
    ensures Aims(s'.st, s'.threads[t].pc, t, c, p', bytes)
  {
    var q, q' := Of(s.st, Transfer(c)), Of(s'.st, Transfer(c));
    p' := p;
    if s.threads[t].pc.c == c {
      assert q' == q[1..];
      var k :| 0 <= k < |q'| && q'[k] == o;
      assert q[k + 1] == o;
      p' := p - 1;
    }
  }

  lemma ReleaseAims(s: Sys, s': Sys, t: nat, c: nat, p: nat, bytes: nat)
    requires DrainRelease(s, s', t) && Aims(s.st, s.threads[t].pc, t, c, p, bytes)
    ensures Aims(s'.st, s'.threads[t].pc, t, c, p, bytes)
  {}

  lemma SpentAims(c: nat, rem: nat, d: nat, b: Budget, p: nat)
    requires d <= rem && RemOk(c, rem, b) && (p + d < rem || Low(b, c, rem))
    ensures p < rem - d || Low(Spent(b, Bytes(c, d)), c, rem - d)
  {
    BytesAdd(c, rem - d, d);
  }

  lemma SpentLow(b: Budget, bytes: nat, c: nat)
    requires Low(b, c, 0)
    ensures Low(Spent(b, bytes), c, 0)
  {}

  /** The released batch is accounted for. */
  lemma TurnAims(s: Sys, s': Sys, t: nat, c: nat, p: nat, bytes: nat)
    requires t < |s.threads| && Works(s, s', t) && Releasing(s.threads[t].pc)
    requires Aims(s.st, s.threads[t].pc, t, c, p, bytes)
    requires DrainOk(s.threads[t].pc)
    ensures t < |s'.threads| && Aims(s'.st, s'.threads[t].pc, t, c, p, bytes)
  {
    var pc := s.threads[t].pc;
    ModeWorks(s, s', t, pc.c, ToBitmap, pc.ret);
    if !InMode(s'.threads[t].pc, pc.c, ToBitmap, pc.ret) { BackAims(s.st, s'.st, pc, t, c, p, bytes); }
  }

  /** Back in the loop after a release. */
  lemma BackAims(st: Store, st': Store, pc: Pc, t: nat, c: nat, p: nat, bytes: nat)
    requires Releasing(pc) && Aims(st, pc, t, c, p, bytes) && DrainOk(pc)
    ensures Aims(st', AfterRelease(pc.c, pc.ret), t, c, p, bytes)
  {
    if pc.c == c { SpentAims(c, pc.ret.rem, pc.ret.d, pc.ret.b, p); }
    if Past(pc, c) { SpentLow(pc.ret.b, Bytes(pc.c, pc.ret.d), c); }
  }

  lemma Nearer(st: Store, pc: Pc, t: nat, c: nat, p: nat, p': nat, bytes: nat)
    requires Aims(st, pc, t, c, p, bytes) && p' <= p
    ensures Aims(st, pc, t, c, p', bytes)
  {}

  /** Object o is at distance p from the cold end of class c's cache. */
  predicate AtDistance(st: Store, c: nat, p: nat, o: Obj)
  {
    p < |Of(st, Transfer(c))| && Of(st, Transfer(c))[p] == o
  }

  lemma DrainAims(s: Sys, s': Sys, t: nat, c: nat, p: nat, bytes: nat, o: Obj) returns (p': nat)
    requires DrainWork(s, s', t) && Aims(s.st, s.threads[t].pc, t, c, p, bytes) && AtDistance(s.st, c, p, o)
    requires NoDup(Of(s.st, Transfer(c))) && o in Of(s'.st, Transfer(c))
    requires s.threads[t].pc.DLoop? ==> Of(s.st, Scratch(t)) == []
    ensures s'.threads[t].pc.Idle? || (Aims(s'.st, s'.threads[t].pc, t, c, p', bytes) && AtDistance(s'.st, c, p', o))
    ensures s'.threads[t].pc.Idle? ==> s.threads[t].pc.DClass? && s.threads[t].pc.i == 0
  {
    if DrainCold(s, s', t) {
      p' := ColdAims(s, s', t, c, p, bytes, o);
    } else {
      DequeDrain(s, s', t, c);
      p' := StaysNear(Of(s.st, Transfer(c)), Of(s'.st, Transfer(c)), p, o);
      if DrainClass(s, s', t) { ClassAims(s, s', t, c, p, bytes); }
      else if DrainSnapshot(s, s', t) { SnapAims(s, s', t, c, p, bytes); }
      else if DrainLock(s, s', t) { LockAims(s, s', t, c, p, bytes); }
      else { ReleaseAims(s, s', t, c, p, bytes); }
      if !s'.threads[t].pc.Idle? { Nearer(s'.st, s'.threads[t].pc, t, c, p, p', bytes); }
    }
  }

  lemma OwnAims(s: Sys, s': Sys, t: nat, a: Action, c: nat, p: nat, bytes: nat, o: Obj) returns (p': nat)
    requires t < |s.threads| && Do(s, s', t, a) && Aims(s.st, s.threads[t].pc, t, c, p, bytes)
    requires AtDistance(s.st, c, p, o)
    requires NoDup(Of(s.st, Transfer(c))) && o in Of(s'.st, Transfer(c)) && DrainOk(s.threads[t].pc)
    requires s.threads[t].pc.DLoop? ==> Of(s.st, Scratch(t)) == []
    ensures t < |s'.threads|
    ensures s'.threads[t].pc.Idle? || (Aims(s'.st, s'.threads[t].pc, t, c, p', bytes) && AtDistance(s'.st, c, p', o))
    ensures s'.threads[t].pc.Idle? ==> s.threads[t].pc.DClass? && s.threads[t].pc.i == 0
  {
    DrainAction(s, s', t, a);
    if Releasing(s.threads[t].pc) {
      DequeWorks(s, s', t, c);
      p' := StaysNear(Of(s.st, Transfer(c)), Of(s'.st, Transfer(c)), p, o);
      TurnAims(s, s', t, c, p, bytes);
      Nearer(s'.st, s'.threads[t].pc, t, c, p, p', bytes);
    } else {
      DrainOnly(s, s', t);
      p' := DrainAims(s, s', t, c, p, bytes, o);
    }
  }

  lemma OtherAims(s: Sys, s': Sys, u: nat, a: Action, t: nat, c: nat, p: nat, bytes: nat, o: Obj) returns (p': nat)
    requires t < |s.threads| && u != t && Do(s, s', u, a) && LocksOk(s)
    requires Aims(s.st, s.threads[t].pc, t, c, p, bytes) && AtDistance(s.st, c, p, o)
    requires NoDup(Of(s.st, Transfer(c))) && o in Of(s'.st, Transfer(c))
    ensures t < |s'.threads| && s'.threads[t].pc == s.threads[t].pc
    ensures Aims(s'.st, s'.threads[t].pc, t, c, p', bytes) && AtDistance(s'.st, c, p', o)
  {
    OthersStay(s, s', u, a, t);
    OthersKeep(s, s', u, a, t, Scratch(t));
    DoDeque(s, s', u, a, c);
    p' := StaysNear(Of(s.st, Transfer(c)), Of(s'.st, Transfer(c)), p, o);
    assert Aims(s'.st, s'.threads[t].pc, t, c, p, bytes);
    Nearer(s'.st, s'.threads[t].pc, t, c, p, p', bytes);
  }

  lemma NextAims(s: Sys, s': Sys, t: nat, c: nat, p: nat, bytes: nat, o: Obj) returns (p': nat)
    requires Next(s, s') && t < |s.threads| && LocksOk(s) && DrainOk(s.threads[t].pc)
    requires Aims(s.st, s.threads[t].pc, t, c, p, bytes) && AtDistance(s.st, c, p, o)
    requires NoDup(Of(s.st, Transfer(c))) && o in Of(s'.st, Transfer(c))
    requires s.threads[t].pc.DLoop? ==> Of(s.st, Scratch(t)) == []
    ensures t < |s'.threads|
    ensures s'.threads[t].pc.Idle? || (Aims(s'.st, s'.threads[t].pc, t, c, p', bytes) && AtDistance(s'.st, c, p', o))
    ensures s'.threads[t].pc.Idle? ==> s.threads[t].pc.DClass? && s.threads[t].pc.i == 0
  {
    var u: nat, a :| Do(s, s', u, a);
    if u == t { p' := OwnAims(s, s', t, a, c, p, bytes, o); } else { p' := OtherAims(s, s', u, a, t, c, p, bytes, o); }
  }

  // ------------------------------------------------------------------ whole calls

  predicate CachedAt(r: seq<Sys>, x: nat, c: nat, o: Obj) { x < |r| && o in Of(r[x].st, Transfer(c)) }

  ghost predicate AimsAt(r: seq<Sys>, x: nat, t: nat, c: nat, p: nat, bytes: nat, o: Obj)
  {
    x < |r| && t < |r[x].threads| && Aims(r[x].st, r[x].threads[t].pc, t, c, p, bytes) && AtDistance(r[x].st, c, p, o)
  }

  lemma DrainFacts(r: seq<Sys>, x: nat, t: nat, c: nat)
    requires Run(r) && x < |r| && t < |r[x].threads|
    ensures LocksOk(r[x]) && NoDup(Of(r[x].st, Transfer(c))) && DrainOk(r[x].threads[t].pc)
    ensures r[x].threads[t].pc.DLoop? ==> Of(r[x].st, Scratch(t)) == []
  {
    RunInv(r, x);
    RunBudget(r, x, t);
    assert PcOk(r[x].st, t, r[x].threads[t].pc);
  }

  lemma AimOn(r: seq<Sys>, x: nat, t: nat, c: nat, p: nat, bytes: nat, o: Obj) returns (p': nat)
    requires Run(r) && AimsAt(r, x, t, c, p, bytes, o) && CachedAt(r, x + 1, c, o)
    ensures t < |r[x + 1].threads|
    ensures r[x + 1].threads[t].pc.Idle? || AimsAt(r, x + 1, t, c, p', bytes, o)
    ensures r[x + 1].threads[t].pc.Idle? ==> r[x].threads[t].pc.DClass? && r[x].threads[t].pc.i == 0
  {
    DrainFacts(r, x, t, c);
    assert StepAt(r, x);
    p' := NextAims(r[x], r[x + 1], t, c, p, bytes, o);
  }

  lemma AimBegins(r: seq<Sys>, i0: nat, t: nat, bytes: nat, c: nat, o: Obj) returns (p: nat)
    requires Run(r) && Calls(r, i0, t, CallDrain(bytes)) && c < NUM_CLASSES && CachedAt(r, i0 + 1, c, o)
    ensures AimsAt(r, i0 + 1, t, c, p, bytes, o)
  {
    assert StartDrain(r[i0], r[i0 + 1], t, bytes);
    var q := Of(r[i0 + 1].st, Transfer(c));
    p :| 0 <= p < |q| && q[p] == o;
  }

  lemma {:induction false} AimStays(r: seq<Sys>, i0: nat, x: nat, t: nat, bytes: nat, c: nat, o: Obj) returns (p: nat)
    requires Run(r) && Calls(r, i0, t, CallDrain(bytes)) && c < NUM_CLASSES && i0 < x < |r| && BusyFrom(r, i0, x, t)
    requires forall y: nat :: i0 < y <= x ==> CachedAt(r, y, c, o)
    ensures AimsAt(r, x, t, c, p, bytes, o)
    decreases x
  {
    if x == i0 + 1 {
      p := AimBegins(r, i0, t, bytes, c, o);
    } else {
      var y := x - 1;
      p := AimStays(r, i0, y, t, bytes, c, o);
      assert Busy(r, y + 1, t) && CachedAt(r, y + 1, c, o);
      p := AimOn(r, y, t, c, p, bytes, o);
    }
  }

  /** The bytes a drain that is about to return has accounted for. */
  function Drained(pc: Pc): nat { if pc.DClass? then pc.b.drained else 0 }

  /** Over any run: an object that is in a transfer cache when a drain begins has left it
      at some moment before the drain returns; only a bounded drain may leave it, and
      then with less than that object's size of its budget unspent. */
  lemma DrainReaches(r: seq<Sys>, i0: nat, j: nat, t: nat, bytes: nat, c: nat, o: Obj)
    requires Run(r) && Calls(r, i0, t, CallDrain(bytes)) && CallReturns(r, i0, j, t) && c < NUM_CLASSES
    requires forall y: nat :: i0 < y <= j + 1 ==> CachedAt(r, y, c, o)
    ensures Busy(r, j, t) && bytes < MAX_SIZE_T && bytes < Drained(r[j].threads[t].pc) + CalculateSize(c)
  {
    assert Busy(r, j, t);
    var p := AimStays(r, i0, j, t, bytes, c, o);
    assert CachedAt(r, j + 1, c, o);
    var p' := AimOn(r, j, t, c, p, bytes, o);
    DrainFacts(r, j, t, c);
    assert StartDrain(r[i0], r[i0 + 1], t, bytes);
  }

  /** Over any run: a drain without a bound lets no object stay: every object that is in
      any transfer cache when it begins has left it at some moment before it returns. */
  lemma UnboundedDrainEmpties(r: seq<Sys>, i0: nat, j: nat, t: nat, c: nat, o: Obj)
    requires Run(r) && Calls(r, i0, t, CallDrain(MAX_SIZE_T)) && CallReturns(r, i0, j, t) && c < NUM_CLASSES
    ensures exists y: nat :: i0 < y <= j + 1 && !CachedAt(r, y, c, o)
  {
    if forall y: nat :: i0 < y <= j + 1 ==> CachedAt(r, y, c, o) { DrainReaches(r, i0, j, t, MAX_SIZE_T, c, o); }
  }

  // ------------------------------------------------------------- what it returns

  /** The bytes thread t moves out of a transfer cache in a step of a drain. */
  function MovedIn(s: Sys, s': Sys, t: nat): nat
    requires t < |s.threads|
  {
    var pc := s.threads[t].pc;
    if pc.DTake? && |Of(s'.st, Scratch(t))| > |Of(s.st, Scratch(t))| then CalculateSize(pc.c) else 0
  }

  /** And in all its steps from i0 up to x. */
  function MovedSince(r: seq<Sys>, i0: nat, x: nat, t: nat): nat
    requires x < |r|
    decreases x
  {
    if x <= i0 || t >= |r[x - 1].threads| then 0 else MovedSince(r, i0, x - 1, t) + MovedIn(r[x - 1], r[x], t)
  }

  /** What a drain has accounted for, and what it has in hand. */
  function Counted(pc: Pc, scratch: nat): nat
  {
    if pc.DClass? || pc.DSnap? || pc.DLoop? then pc.b.drained
    else if pc.DTake? then pc.b.drained + Bytes(pc.c, scratch)
    else if Releasing(pc) && pc.ret.ToDrain? then pc.ret.b.drained + Bytes(pc.c, pc.ret.d)
    else 0
  }

  lemma CountDrain(s: Sys, s': Sys, t: nat)
    requires DrainWork(s, s', t) && (s.threads[t].pc.DLoop? ==> Of(s.st, Scratch(t)) == [])
    ensures s'.threads[t].pc.Idle? || Counted(s'.threads[t].pc, |Of(s'.st, Scratch(t))|) ==
            Counted(s.threads[t].pc, |Of(s.st, Scratch(t))|) + MovedIn(s, s', t)
  {
    if DrainClass(s, s', t) { ClassCounts(s, s', t); }
    else if DrainCold(s, s', t) { BytesAdd(s.threads[t].pc.c, |Of(s.st, Scratch(t))|, 1); }
  }

  lemma ClassCounts(s: Sys, s': Sys, t: nat)
    requires DrainClass(s, s', t)
    ensures s'.threads[t].pc.Idle? || Counted(s'.threads[t].pc, |Of(s'.st, Scratch(t))|) == s.threads[t].pc.b.drained
  {}

  lemma CountRelease(s: Sys, s': Sys, t: nat)
    requires t < |s.threads| && Works(s, s', t) && Releasing(s.threads[t].pc) && DrainPc(s.threads[t].pc)
    ensures t < |s'.threads|
    ensures Counted(s'.threads[t].pc, |Of(s'.st, Scratch(t))|) == Counted(s.threads[t].pc, |Of(s.st, Scratch(t))|)
  {
    var pc := s.threads[t].pc;
    ModeWorks(s, s', t, pc.c, ToBitmap, pc.ret);
  }

  /** The last step of a drain. */
  lemma DrainEnds(s: Sys, s': Sys, t: nat, a: Action)
    requires t < |s.threads| && Do(s, s', t, a) && DrainPc(s.threads[t].pc) && t < |s'.threads|
    requires s'.threads[t].pc.Idle?
    ensures s.threads[t].pc.DClass?
  {
    DrainAction(s, s', t, a);
    var pc := s.threads[t].pc;
    if Releasing(pc) {
      ModeWorks(s, s', t, pc.c, ToBitmap, pc.ret);
    } else {
      DrainOnly(s, s', t);
      OnlyClassEnds(s, s', t);
    }
  }

  lemma OnlyClassEnds(s: Sys, s': Sys, t: nat)
    requires DrainWork(s, s', t) && s'.threads[t].pc.Idle?
    ensures s.threads[t].pc.DClass?
  {}

  lemma CountNext(s: Sys, s': Sys, t: nat)
    requires Next(s, s') && LocksOk(s) && t < |s.threads| && DrainPc(s.threads[t].pc)
    requires s.threads[t].pc.DLoop? ==> Of(s.st, Scratch(t)) == []
    ensures t < |s'.threads|
    ensures if s'.threads[t].pc.Idle? then s.threads[t].pc.DClass?
            else Counted(s'.threads[t].pc, |Of(s'.st, Scratch(t))|) ==
                 Counted(s.threads[t].pc, |Of(s.st, Scratch(t))|) + MovedIn(s, s', t)
  {
    SameThreads(s, s');
    var u: nat, a :| Do(s, s', u, a);
    if u != t {
      OthersStay(s, s', u, a, t);
      OthersKeep(s, s', u, a, t, Scratch(t));
    } else {
      DrainAction(s, s', t, a);
      if s'.threads[t].pc.Idle? { DrainEnds(s, s', t, a); }
      else if Releasing(s.threads[t].pc) { CountRelease(s, s', t); }
      else { DrainOnly(s, s', t); CountDrain(s, s', t); }
    }
  }

  ghost predicate CountedAt(r: seq<Sys>, i0: nat, x: nat, t: nat)
  {
    && x < |r| && t < |r[x].threads|
    && Counted(r[x].threads[t].pc, |Of(r[x].st, Scratch(t))|) == MovedSince(r, i0, x, t)
  }

  lemma CountBegins(r: seq<Sys>, i0: nat, t: nat, bytes: nat)
    requires Run(r) && Calls(r, i0, t, CallDrain(bytes))
    ensures CountedAt(r, i0, i0 + 1, t)
  {
    assert StartDrain(r[i0], r[i0 + 1], t, bytes);
    assert MovedSince(r, i0, i0, t) == 0;
  }

  lemma CountOn(r: seq<Sys>, i0: nat, y: nat, t: nat)
    requires Run(r) && i0 < y && y + 1 < |r| && CountedAt(r, i0, y, t) && DrainingAt(r, y, t)
    ensures t < |r[y + 1].threads|
    ensures if r[y + 1].threads[t].pc.Idle? then r[y].threads[t].pc.DClass? else CountedAt(r, i0, y + 1, t)
  {
    DrainFacts(r, y, t, 0);
    assert StepAt(r, y);
    CountNext(r[y], r[y + 1], t);
    SinceStep(r, i0, y, t);
  }

  lemma SinceStep(r: seq<Sys>, i0: nat, y: nat, t: nat)
    requires i0 <= y && y + 1 < |r| && t < |r[y].threads|
    ensures MovedSince(r, i0, y + 1, t) == MovedSince(r, i0, y, t) + MovedIn(r[y], r[y + 1], t)
  {}

  lemma {:induction false} CountStays(r: seq<Sys>, i0: nat, x: nat, t: nat, bytes: nat)
    requires Run(r) && Calls(r, i0, t, CallDrain(bytes)) && i0 < x < |r| && BusyFrom(r, i0, x, t)
    ensures CountedAt(r, i0, x, t)
    decreases x
  {
    if x == i0 + 1 {
      CountBegins(r, i0, t, bytes);
    } else {
      var y := x - 1;
      CountStays(r, i0, y, t, bytes);
      DrainStays(r, i0, y, t, bytes);
      assert Busy(r, y + 1, t);
      CountOn(r, i0, y, t);
    }
  }

  /** Over any run: what a drain has accounted for when it returns is exactly the bytes of
      the objects it moved out of transfer caches. */
  lemma DrainReturnsMoved(r: seq<Sys>, i0: nat, j: nat, t: nat, bytes: nat)
    requires Run(r) && Calls(r, i0, t, CallDrain(bytes)) && CallReturns(r, i0, j, t)
    ensures Busy(r, j, t) && r[j].threads[t].pc.DClass? && Drained(r[j].threads[t].pc) == MovedSince(r, i0, j, t)
  {
    assert Busy(r, j, t);
    CountStays(r, i0, j, t, bytes);
    DrainStays(r, i0, j, t, bytes);
    CountOn(r, i0, j, t);
  }
}
