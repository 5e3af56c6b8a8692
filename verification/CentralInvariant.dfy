/** Every step of the CentralCache machine keeps its invariant. */
module CentralInvariant {
  import opened Config
  import opened Lists
  import opened CentralStore
  import opened CentralCache
  import opened SizeClass
  import SpanLayout

  // ------------------------------------------------------------------- frames

  /** Boxes a step of thread t leaves alone: those of other threads, and transfer
      caches it has not locked. */
  predicate Foreign(tlock: seq<Option<nat>>, t: nat, b: Box)
  {
    match b
    case Transfer(c) => c < |tlock| && tlock[c] != Some(t)
    case User(_) => false
    case _ => b.t != t
  }

  ghost predicate BoxFrame(s: Sys, st': Store, t: nat)
  {
    && (forall b: Box {:trigger Of(st', b)} :: Foreign(s.tlock, t, b) ==> Of(st', b) == Of(s.st, b))
    && (forall u: nat {:trigger Active(st', u)} :: u != t ==> Active(st', u) == Active(s.st, u))
  }

  lemma PcFrame(st: Store, st': Store, u: nat, pc: Pc)
    requires PcOk(st, u, pc) && Active(st', u) == Active(st, u) && SizesOf(st', u) == SizesOf(st, u)
    requires HeldT(pc).Some? ==> Of(st', Transfer(pc.c)) == Of(st, Transfer(pc.c))
    ensures PcOk(st', u, pc)
  {}

  lemma PcsFrame(s: Sys, s': Sys, t: nat)
    requires Shape(s) && LocksOk(s) && PcsOk(s) && t < |s.threads| && BoxFrame(s, s'.st, t)
    requires |s'.threads| == |s.threads| && forall u: nat :: u < |s.threads| && u != t ==> s'.threads[u] == s.threads[u]
    requires PcOk(s'.st, t, s'.threads[t].pc)
    ensures PcsOk(s')
  {
    forall u: nat | u < |s'.threads| && u != t
      ensures PcOk(s'.st, u, s'.threads[u].pc)
    {
      var pc := s.threads[u].pc;
      assert HeldT(pc).Some? ==> s.tlock[pc.c] == Some(u);
      assert SizesOf(s'.st, u) == SizesOf(s.st, u);
      PcFrame(s.st, s'.st, u, pc);
    }
  }

  lemma SwapOk(held: seq<Option<nat>>, t: nat, from: Option<nat>, to: Option<nat>)
    requires CanSwap(held, from, to) && forall c: nat :: c < |held| ==> (held[c] == Some(t) <==> from == Some(c))
    ensures var held' := Swap(held, t, from, to);
            && |held'| == |held|
            && (forall c: nat :: c < |held| ==> (held'[c] == Some(t) <==> to == Some(c)))
            && (forall c: nat, u: nat :: c < |held| && u != t ==> (held'[c] == Some(u) <==> held[c] == Some(u)))
  {}

  ghost predicate Went(s: Sys, s': Sys, t: nat, pc: Pc)
  {
    && At(s, t) && |s'.threads| == |s.threads| && s'.threads[t].pc == pc
    && (forall u: nat :: u < |s.threads| && u != t ==> s'.threads[u] == s.threads[u])
    && s'.tlock == Swap(s.tlock, t, HeldT(s.threads[t].pc), HeldT(pc))
    && CanSwap(s.tlock, HeldT(s.threads[t].pc), HeldT(pc))
    && s'.slock == Swap(s.slock, t, HeldS(s.threads[t].pc), HeldS(pc))
    && CanSwap(s.slock, HeldS(s.threads[t].pc), HeldS(pc))
  }

  lemma LocksFrame(s: Sys, s': Sys, t: nat, pc: Pc)
    requires LocksOk(s) && Went(s, s', t, pc)
    ensures LocksOk(s')
  {
    SwapOk(s.tlock, t, HeldT(s.threads[t].pc), HeldT(pc));
    SwapOk(s.slock, t, HeldS(s.threads[t].pc), HeldS(pc));
  }

  /** A step of t to `pc` that leaves span counts and span lists as they are: its
      part in the list protocol stays, or it begins to extract from a front span
      with a free slot. */
  predicate CanGo(s: Sys, t: nat, pc: Pc)
    requires At(s, t)
  {
    var was := s.threads[t].pc;
    && FreshOf(pc).None? && FreshOf(was).None?
    && CanSwap(s.tlock, HeldT(was), HeldT(pc)) && CanSwap(s.slock, HeldS(was), HeldS(pc))
    && (PhaseOf(was) != Resting || PhaseOf(pc) != Resting ==> HeldS(pc) == HeldS(was))
    && (PhaseOf(pc) == PhaseOf(was)
        || (was.Scan? && PhaseOf(pc) == First && pc.c == was.c < NUM_CLASSES
            && s.lists[was.c] != [] && !Full(s.st.spans, s.lists[was.c][0])))
  }

  /** What a step of t has to show about t itself. */
  ghost predicate Steady(s: Sys, s': Sys, t: nat)
  {
    At(s, t) && At(s', t) && CanGo(s, t, s'.threads[t].pc) && PcOk(s'.st, t, s'.threads[t].pc)
  }

  lemma GotoWent(s: Sys, s': Sys, t: nat, pc: Pc)
    requires At(s, t) && CanGo(s, t, pc) && s' == Goto(s, t, pc).(st := s'.st)
    ensures Went(s, s', t, pc) && s'.caps == s.caps && s'.lists == s.lists && s'.home == s.home && Shape(s')
    ensures s'.threads[t].empties == s.threads[t].empties
  {}

  lemma GotoInv(s: Sys, s': Sys, t: nat, pc: Pc)
    requires Inv(s) && At(s, t) && CanGo(s, t, pc) && s' == Goto(s, t, pc).(st := s'.st)
    requires StoreInv(s'.st) && s'.st.spans == s.st.spans && BoxFrame(s, s'.st, t)
    requires PcOk(s'.st, t, pc) && CapsOk(s')
    ensures Inv(s')
  {
    GotoWent(s, s', t, pc);
    PcsFrame(s, s', t);
    LocksFrame(s, s', t, pc);
    GotoLists(s, s', t, pc);
    GotoHomes(s, s', t, pc);
  }

  lemma GotoHomes(s: Sys, s': Sys, t: nat, pc: Pc)
    requires HomesOk(s) && At(s, t) && FreshOf(pc).None? && FreshOf(s.threads[t].pc).None?
    requires s' == Goto(s, t, pc).(st := s'.st) && s'.st.spans == s.st.spans
    ensures HomesOk(s')
  {
    assert forall u: nat :: u < |s.threads| ==>
      && s'.threads[u].empties == s.threads[u].empties && FreshOf(s'.threads[u].pc) == FreshOf(s.threads[u].pc)
      && (FreshOf(s.threads[u].pc).Some? ==> s'.threads[u].pc.c == s.threads[u].pc.c);
  }

  lemma GotoLists(s: Sys, s': Sys, t: nat, pc: Pc)
    requires At(s, t) && LocksOk(s) && ListsOk(s) && CanGo(s, t, pc)
    requires s' == Goto(s, t, pc).(st := s'.st) && s'.st.spans == s.st.spans
    ensures ListsOk(s')
  {
    forall c: nat | c < NUM_CLASSES
      ensures ListOk(s'.st.spans, s'.lists[c], PhaseAt(s', c))
    {
      assert ListOk(s.st.spans, s.lists[c], PhaseAt(s, c));
      assert s.slock[c] == Some(t) <==> HeldS(s.threads[t].pc) == Some(c);
    }
  }

  // -------------------------------------------------------------------- moves

  predicate Mine(s: Sys, t: nat, b: Box) { !Foreign(s.tlock, t, b) }

  ghost predicate Moved(st: Store, st': Store, a: Box, b: Box, a': seq<Obj>, b': seq<Obj>)
  {
    && st'.spans == st.spans && st'.active == st.active && Of(st', a) == a' && Of(st', b) == b'
    && forall x: Box {:trigger Of(st', x)} :: x != a && x != b ==> Of(st', x) == Of(st, x)
  }

  lemma MoveIs(st: Store, a: Box, b: Box, moved: seq<Obj>, a': seq<Obj>, b': seq<Obj>)
    requires a != b
    ensures Moved(st, Move(st, a, b, moved, a', b'), a, b, a', b')
  {}

  function LenAfter(st: Store, x: Box, a: Box, a': seq<Obj>, b: Box, b': seq<Obj>): nat
  {
    if x == a then |a'| else if x == b then |b'| else |Of(st, x)|
  }

  lemma MovedSizes(st: Store, st': Store, t: nat, a: Box, b: Box, a': seq<Obj>, b': seq<Obj>)
    requires a != b && Moved(st, st', a, b, a', b')
    ensures SizesOf(st', t) == Sizes(LenAfter(st, Chain(t), a, a', b, b'), LenAfter(st, Scratch(t), a, a', b, b'),
                                     LenAfter(st, Batch(t), a, a', b, b'), LenAfter(st, Ptrs(t), a, a', b, b'))
    ensures forall c: nat :: |Of(st', Transfer(c))| == LenAfter(st, Transfer(c), a, a', b, b')
    ensures Active(st', t) == Active(st, t)
  {}

  lemma ShiftIs(st: Store, a: Box, b: Box, k: nat)
    requires a != b && k <= |Of(st, a)|
    ensures Moved(st, Shift(st, a, b, k), a, b, Of(st, a)[k..], Of(st, b) + Of(st, a)[..k])
  {}

  lemma ShiftLastIs(st: Store, a: Box, b: Box, k: nat, j: nat)
    requires a != b && j + k == |Of(st, a)|
    ensures Moved(st, ShiftLast(st, a, b, k), a, b, Of(st, a)[..j], Of(st, b) + Of(st, a)[j..])
  {}

  lemma Apart(st: Store, a: Box, b: Box)
    requires StoreInv(st) && a != b
    ensures forall o: Obj :: o in Of(st, a) ==> o !in Of(st, b)
  {}

  lemma ShiftOk(st: Store, a: Box, b: Box, k: nat)
    requires StoreInv(st) && a != b && ClassOf(st, a) == ClassOf(st, b) && k <= |Of(st, a)|
    ensures StoreInv(Shift(st, a, b, k))
  {
    var q := Of(st, a);
    Apart(st, a, b);
    TakeMembers(q, k);
    JoinMembers(Of(st, b), q[..k]);
    MoveOk(st, a, b, q[..k], q[k..], Of(st, b) + q[..k]);
  }

  lemma ShiftLastOk(st: Store, a: Box, b: Box, k: nat)
    requires StoreInv(st) && a != b && ClassOf(st, a) == ClassOf(st, b) && k <= |Of(st, a)|
    ensures StoreInv(ShiftLast(st, a, b, k))
  {
    var q := Of(st, a);
    var j := |q| - k;
    Apart(st, a, b);
    TakeMembers(q, j);
    JoinMembers(Of(st, b), q[j..]);
    MoveOk(st, a, b, q[j..], q[..j], Of(st, b) + q[j..]);
  }

  lemma PrependOk(st: Store, a: Box, b: Box)
    requires StoreInv(st) && a != b && ClassOf(st, a) == ClassOf(st, b)
    ensures StoreInv(Prepend(st, a, b))
  {
    Apart(st, a, b);
    JoinMembers(Of(st, a), Of(st, b));
    MoveOk(st, a, b, Of(st, a), [], Of(st, a) + Of(st, b));
  }

  lemma RelinkOk(st: Store, a: Box, b: Box)
    requires StoreInv(st) && a != b && ClassOf(st, a) == ClassOf(st, b) && Of(st, b) == []
    ensures StoreInv(Relink(st, a, b))
  {
    ReversedMembers(Of(st, a));
    MoveOk(st, a, b, Of(st, a), [], Reversed(Of(st, a)));
  }

  lemma GiveBackOk(st: Store, c: nat, i: nat, b: Box)
    requires StoreInv(st) && !b.User? && ClassOf(st, b) == c && i < |Of(st, User(c))|
    ensures StoreInv(GiveBack(st, c, i, b))
  {
    var u := Of(st, User(c));
    Apart(st, User(c), b);
    DropMembers(u, i);
    assert u[i] in u;
    JoinMembers([u[i]], Of(st, b));
    MoveOk(st, User(c), b, [u[i]], u[..i] + u[i + 1..], [u[i]] + Of(st, b));
  }

  // ------------------------------------------------- every step keeps the invariant

  /** A step of t that moves objects between two boxes it may touch. */
  lemma MoveInv(s: Sys, s': Sys, t: nat, pc: Pc, a: Box, b: Box, a': seq<Obj>, b': seq<Obj>)
    requires Inv(s) && At(s, t) && CanGo(s, t, pc) && s' == Goto(s, t, pc).(st := s'.st)
    requires Moved(s.st, s'.st, a, b, a', b') && Mine(s, t, a) && Mine(s, t, b)
    requires StoreInv(s'.st) && PcOk(s'.st, t, pc)
    requires a.Transfer? && a.c < NUM_CLASSES ==> |a'| <= s.caps[a.c]
    requires b.Transfer? && b.c < NUM_CLASSES ==> |b'| <= s.caps[b.c]
    ensures Inv(s')
  {
    MoveCaps(s, s', a, b, a', b');
    GotoInv(s, s', t, pc);
  }

  lemma MoveCaps(s: Sys, s': Sys, a: Box, b: Box, a': seq<Obj>, b': seq<Obj>)
    requires Shape(s) && CapsOk(s) && Moved(s.st, s'.st, a, b, a', b') && s'.caps == s.caps
    requires a.Transfer? && a.c < NUM_CLASSES ==> |a'| <= s.caps[a.c]
    requires b.Transfer? && b.c < NUM_CLASSES ==> |b'| <= s.caps[b.c]
    ensures CapsOk(s')
  {}

  /** A step of t that moves no object. */
  lemma ControlInv(s: Sys, s': Sys, t: nat, pc: Pc)
    requires Inv(s) && At(s, t) && CanGo(s, t, pc) && s' == Goto(s, t, pc) && PcOk(s.st, t, pc)
    ensures Inv(s')
  {
    assert s' == Goto(s, t, pc).(st := s.st);
    GotoInv(s, s', t, pc);
  }

  lemma ShiftInv(s: Sys, s': Sys, t: nat, pc: Pc, a: Box, b: Box, k: nat)
    requires Inv(s) && At(s, t) && CanGo(s, t, pc) && k <= |Of(s.st, a)|
    requires s' == Goto(s, t, pc).(st := Shift(s.st, a, b, k)) && PcOk(s'.st, t, pc)
    requires a != b && ClassOf(s.st, a) == ClassOf(s.st, b) && Mine(s, t, a) && Mine(s, t, b)
    requires b.Transfer? && b.c < NUM_CLASSES ==> |Of(s.st, b)| + k <= s.caps[b.c]
    ensures Inv(s')
  {
    ShiftOk(s.st, a, b, k);
    ShiftIs(s.st, a, b, k);
    assert a.Transfer? && a.c < NUM_CLASSES ==> |Of(s.st, a)| <= s.caps[a.c];
    MoveInv(s, s', t, pc, a, b, Of(s.st, a)[k..], Of(s.st, b) + Of(s.st, a)[..k]);
  }

  lemma ShiftLastInv(s: Sys, s': Sys, t: nat, pc: Pc, a: Box, b: Box, k: nat)
    requires Inv(s) && At(s, t) && CanGo(s, t, pc) && k <= |Of(s.st, a)|
    requires s' == Goto(s, t, pc).(st := ShiftLast(s.st, a, b, k)) && PcOk(s'.st, t, pc)
    requires a != b && ClassOf(s.st, a) == ClassOf(s.st, b) && Mine(s, t, a) && Mine(s, t, b) && !b.Transfer?
    ensures Inv(s')
  {
    var j := |Of(s.st, a)| - k;
    ShiftLastOk(s.st, a, b, k);
    ShiftLastIs(s.st, a, b, k, j);
    assert a.Transfer? && a.c < NUM_CLASSES ==> j + k <= s.caps[a.c];
    MoveInv(s, s', t, pc, a, b, Of(s.st, a)[..j], Of(s.st, b) + Of(s.st, a)[j..]);
  }

  // ---- a thread's own list, and the user

  lemma MallocInv(s: Sys, s': Sys, t: nat, c: nat)
    requires Inv(s) && Malloc(s, s', t, c)
    ensures Inv(s')
  {
    ShiftIs(s.st, Local(t, c), User(c), 1);
    ShiftInv(s, s', t, Idle, Local(t, c), User(c), 1);
  }

  lemma UserFreeInv(s: Sys, s': Sys, t: nat, c: nat, i: nat)
    requires Inv(s) && UserFree(s, s', t, c, i)
    ensures Inv(s')
  {
    var u := Of(s.st, User(c));
    GiveBackOk(s.st, c, i, Local(t, c));
    MoveIs(s.st, User(c), Local(t, c), [u[i]], u[..i] + u[i + 1..], [u[i]] + Of(s.st, Local(t, c)));
    MoveInv(s, s', t, Idle, User(c), Local(t, c), u[..i] + u[i + 1..], [u[i]] + Of(s.st, Local(t, c)));
  }

  // ---- FetchBatch

  lemma EnterIs(s: Sys, t: nat, c: nat)
    ensures BoxFrame(s, Enter(s.st, t, c), t) && SizesOf(Enter(s.st, t, c), t) == SizesOf(s.st, t)
    ensures forall b: Box {:trigger Of(Enter(s.st, t, c), b)} :: Of(Enter(s.st, t, c), b) == Of(s.st, b)
  {}

  lemma StartFetchInv(s: Sys, s': Sys, t: nat, c: nat, n: nat)
    requires Inv(s) && StartFetch(s, s', t, c, n)
    ensures Inv(s')
  {
    EnterOk(s.st, t, c);
    EnterIs(s, t, c);
    GotoInv(s, s', t, Probe(c, n));
  }

  lemma ProbeLockInv(s: Sys, s': Sys, t: nat)
    requires Inv(s) && ProbeLock(s, s', t)
    ensures Inv(s')
  {
    ControlInv(s, s', t, s'.threads[t].pc);
  }

  lemma PopHotSizes(st: Store, st': Store, t: nat, pc: Pc, a': seq<Obj>, b': seq<Obj>)
    requires PcOk(st, t, pc) && pc.Pop? && Moved(st, st', Transfer(pc.c), Scratch(t), a', b')
    requires |a'| == |Of(st, Transfer(pc.c))| - 1 && |b'| == |Of(st, Scratch(t))| + 1 <= pc.grab
    ensures PcOk(st', t, pc)
  {
    MovedSizes(st, st', t, Transfer(pc.c), Scratch(t), a', b');
  }

  lemma PopHotPc(s: Sys, s': Sys, t: nat)
    requires At(s, t) && PcOk(s.st, t, s.threads[t].pc) && PopHot(s, s', t)
    ensures Steady(s, s', t)
  {
    var pc, q := s.threads[t].pc, Of(s.st, Transfer(s.threads[t].pc.c));
    ShiftLastIs(s.st, Transfer(pc.c), Scratch(t), 1, |q| - 1);
    PopHotSizes(s.st, s'.st, t, pc, q[..|q| - 1], Of(s.st, Scratch(t)) + q[|q| - 1..]);
  }

  lemma PopHotInv(s: Sys, s': Sys, t: nat)
    requires Inv(s) && PopHot(s, s', t)
    ensures Inv(s')
  {
    PopHotPc(s, s', t);
    ShiftLastInv(s, s', t, s.threads[t].pc, Transfer(s.threads[t].pc.c), Scratch(t), 1);
  }

  lemma PopDoneInv(s: Sys, s': Sys, t: nat)
    requires Inv(s) && PopDone(s, s', t)
    ensures Inv(s')
  {
    ControlInv(s, s', t, s'.threads[t].pc);
  }

  lemma LinkAllSizes(st: Store, st': Store, t: nat, pc: Pc, pc': Pc, a': seq<Obj>, b': seq<Obj>)
    requires PcOk(st, t, pc) && pc.Link? && Moved(st, st', Scratch(t), Chain(t), a', b')
    requires |a'| == 0 && |b'| == |Of(st, Scratch(t))| + |Of(st, Chain(t))|
    requires var got := |Of(st, Scratch(t))|;
             pc' == if got < pc.n then WantSpans(pc.c, pc.n, pc.n - got) else Fetched(pc.c, pc.n, false)
    ensures PcOk(st', t, pc')
  {
    MovedSizes(st, st', t, Scratch(t), Chain(t), a', b');
  }

  lemma LinkAllPc(s: Sys, s': Sys, t: nat)
    requires At(s, t) && PcOk(s.st, t, s.threads[t].pc) && LinkAll(s, s', t)
    ensures Steady(s, s', t)
  {
    var q := Of(s.st, Scratch(t));
    ShiftIs(s.st, Scratch(t), Chain(t), |q|);
    LinkAllSizes(s.st, s'.st, t, s.threads[t].pc, s'.threads[t].pc, q[|q|..], Of(s.st, Chain(t)) + q[..|q|]);
  }

  lemma LinkAllInv(s: Sys, s': Sys, t: nat)
    requires Inv(s) && LinkAll(s, s', t)
    ensures Inv(s')
  {
    LinkAllPc(s, s', t);
    ShiftInv(s, s', t, s'.threads[t].pc, Scratch(t), Chain(t), |Of(s.st, Scratch(t))|);
  }

  lemma LockSpansInv(s: Sys, s': Sys, t: nat)
    requires Inv(s) && LockSpans(s, s', t)
    ensures Inv(s')
  {
    ControlInv(s, s', t, s'.threads[t].pc);
  }

  lemma ScanNextSizes(st: Store, t: nat, pc: Pc, pc': Pc)
    requires PcOk(st, t, pc) && pc.Scan?
    requires pc' == if pc.k >= pc.need + pc.n then Leave(pc.c, pc.n, false)
                    else if pc'.Ask? then Ask(pc.c, pc.n, pc.need, pc.k) else Take(pc.c, pc.n, pc.need, pc.k, false)
    ensures PcOk(st, t, pc')
  {}

  lemma ScanNextPc(s: Sys, s': Sys, t: nat)
    requires At(s, t) && PcOk(s.st, t, s.threads[t].pc) && ScanNext(s, s', t)
    ensures Steady(s, s', t)
  {
    ScanNextSizes(s.st, t, s.threads[t].pc, s'.threads[t].pc);
  }

  lemma ScanNextInv(s: Sys, s': Sys, t: nat)
    requires Inv(s) && ScanNext(s, s', t)
    ensures Inv(s')
  {
    ScanNextPc(s, s', t);
    ControlInv(s, s', t, s'.threads[t].pc);
  }

  lemma TakeEnoughInv(s: Sys, s': Sys, t: nat)
    requires Inv(s) && TakeEnough(s, s', t)
    ensures Inv(s')
  {
    ControlInv(s, s', t, s'.threads[t].pc);
  }

  lemma AskNoneInv(s: Sys, s': Sys, t: nat)
    requires Inv(s) && AskNone(s, s', t)
    ensures Inv(s')
  {
    ControlInv(s, s', t, s'.threads[t].pc);
  }

  lemma RelockNoneInv(s: Sys, s': Sys, t: nat)
    requires Inv(s) && RelockNone(s, s', t)
    ensures Inv(s')
  {
    ControlInv(s, s', t, s'.threads[t].pc);
  }

  lemma LeaveSpansPc(s: Sys, s': Sys, t: nat)
    requires At(s, t) && PcOk(s.st, t, s.threads[t].pc) && LeaveSpans(s, s', t)
    ensures Steady(s, s', t)
  {
  }

  lemma LeaveSpansInv(s: Sys, s': Sys, t: nat)
    requires Inv(s) && LeaveSpans(s, s', t)
    ensures Inv(s')
  {
    LeaveSpansPc(s, s', t);
    ControlInv(s, s', t, s'.threads[t].pc);
  }

  lemma PublishLockInv(s: Sys, s': Sys, t: nat)
    requires Inv(s) && PublishLock(s, s', t)
    ensures Inv(s')
  {
    ControlInv(s, s', t, s'.threads[t].pc);
  }

  lemma PushOnePc(s: Sys, s': Sys, t: nat)
    requires At(s, t) && PcOk(s.st, t, s.threads[t].pc) && PushOne(s, s', t)
    ensures Steady(s, s', t)
  {
    var pc, q := s.threads[t].pc, Of(s.st, Scratch(t));
    ShiftIs(s.st, Scratch(t), Transfer(pc.c), 1);
    PushOneSizes(s.st, s'.st, t, pc, q[1..], Of(s.st, Transfer(pc.c)) + q[..1]);
  }

  lemma PushOneInv(s: Sys, s': Sys, t: nat)
    requires Inv(s) && PushOne(s, s', t)
    ensures Inv(s')
  {
    PushOnePc(s, s', t);
    ShiftInv(s, s', t, s.threads[t].pc, Scratch(t), Transfer(s.threads[t].pc.c), 1);
  }

  lemma PushOneSizes(st: Store, st': Store, t: nat, pc: Pc, a': seq<Obj>, b': seq<Obj>)
    requires PcOk(st, t, pc) && pc.Push? && Moved(st, st', Scratch(t), Transfer(pc.c), a', b')
    requires |a'| <= |Of(st, Scratch(t))|
    ensures PcOk(st', t, pc)
  {
    MovedSizes(st, st', t, Scratch(t), Transfer(pc.c), a', b');
  }

  lemma PushDonePc(s: Sys, s': Sys, t: nat)
    requires At(s, t) && PcOk(s.st, t, s.threads[t].pc) && PushDone(s, s', t)
    ensures Steady(s, s', t)
  {
  }

  lemma PushDoneInv(s: Sys, s': Sys, t: nat)
    requires Inv(s) && PushDone(s, s', t)
    ensures Inv(s')
  {
    PushDonePc(s, s', t);
    ControlInv(s, s', t, s'.threads[t].pc);
  }

  lemma PrependInv(s: Sys, s': Sys, t: nat, pc: Pc, a: Box, b: Box)
    requires Inv(s) && At(s, t) && CanGo(s, t, pc) && s' == Goto(s, t, pc).(st := Prepend(s.st, a, b))
    requires PcOk(s'.st, t, pc)
    requires a != b && ClassOf(s.st, a) == ClassOf(s.st, b) && !a.Transfer? && !b.Transfer? && Mine(s, t, a)
    requires Mine(s, t, b)
    ensures Inv(s')
  {
    PrependOk(s.st, a, b);
    MoveIs(s.st, a, b, Of(s.st, a), [], Of(s.st, a) + Of(s.st, b));
    MoveInv(s, s', t, pc, a, b, [], Of(s.st, a) + Of(s.st, b));
  }

  lemma RelinkInv(s: Sys, s': Sys, t: nat, pc: Pc)
    requires Inv(s) && At(s, t) && CanGo(s, t, pc) && Of(s.st, Batch(t)) == []
    requires s' == Goto(s, t, pc).(st := Relink(s.st, Scratch(t), Batch(t))) && PcOk(s'.st, t, pc)
    ensures Inv(s')
  {
    var q := Of(s.st, Scratch(t));
    RelinkOk(s.st, Scratch(t), Batch(t));
    MoveIs(s.st, Scratch(t), Batch(t), q, [], Reversed(q));
    MoveInv(s, s', t, pc, Scratch(t), Batch(t), [], Reversed(q));
  }

  lemma RelinkSizes(st: Store, st': Store, t: nat, pc: Pc, pc': Pc, b': seq<Obj>)
    requires PcOk(st, t, pc) && pc'.Release? && (pc.Leftover? || pc.DTake?) && pc'.c == pc.c
    requires if pc.Leftover? then pc'.ret == ToFetch(pc.n, pc.short) else pc'.ret.ToDrain?
    requires Moved(st, st', Scratch(t), Batch(t), [], b')
    ensures PcOk(st', t, pc') && Of(st, Batch(t)) == []
  {
    MovedSizes(st, st', t, Scratch(t), Batch(t), [], b');
  }

  lemma ReturnExcessPc(s: Sys, s': Sys, t: nat)
    requires At(s, t) && PcOk(s.st, t, s.threads[t].pc) && ReturnExcess(s, s', t)
    ensures Steady(s, s', t)
  {
    var q := Of(s.st, Scratch(t));
    MoveIs(s.st, Scratch(t), Batch(t), q, [], Reversed(q));
    RelinkSizes(s.st, s'.st, t, s.threads[t].pc, s'.threads[t].pc, Reversed(q));
  }

  lemma ReturnExcessInv(s: Sys, s': Sys, t: nat)
    requires Inv(s) && ReturnExcess(s, s', t)
    ensures Inv(s')
  {
    ReturnExcessPc(s, s', t);
    RelinkInv(s, s', t, s'.threads[t].pc);
  }

  lemma AcceptPc(s: Sys, s': Sys, t: nat)
    requires At(s, t) && PcOk(s.st, t, s.threads[t].pc) && Accept(s, s', t)
    ensures Steady(s, s', t)
  {
    var a, b := Chain(t), Local(t, s.threads[t].pc.c);
    MoveIs(s.st, a, b, Of(s.st, a), [], Of(s.st, a) + Of(s.st, b));
    MovedSizes(s.st, s'.st, t, a, b, [], Of(s.st, a) + Of(s.st, b));
  }

  lemma AcceptInv(s: Sys, s': Sys, t: nat)
    requires Inv(s) && Accept(s, s', t)
    ensures Inv(s')
  {
    AcceptPc(s, s', t);
    PrependInv(s, s', t, Idle, Chain(t), Local(t, s.threads[t].pc.c));
  }

  // ---- ReleaseBatch

  /** Beginning a call for class c changes nothing else. */
  lemma EnterInv(s: Sys, t: nat, c: nat)
    requires Inv(s) && At(s, t) && s.threads[t].pc.Idle?
    ensures Inv(s.(st := Enter(s.st, t, c)))
  {
    var s' := s.(st := Enter(s.st, t, c));
    EnterOk(s.st, t, c);
    EnterIs(s, t, c);
    assert s' == Goto(s, t, Idle).(st := s'.st);
    GotoInv(s, s', t, Idle);
  }

  lemma StartReleaseSizes(st: Store, st': Store, t: nat, a: Box, pc: Pc, a': seq<Obj>, b': seq<Obj>)
    requires PcOk(st, t, Idle) && pc.Release? && pc.ret.ToIdle? && pc.c < NUM_CLASSES && Active(st, t) == pc.c
    requires a.Local? || a.User?
    requires Moved(st, st', a, Batch(t), a', b')
    ensures PcOk(st', t, pc)
  {
    MovedSizes(st, st', t, a, Batch(t), a', b');
  }

  lemma StartReleaseFrom(s: Sys, s': Sys, t: nat, c: nat, k: nat, mode: Mode)
    requires Inv(s) && At(s, t) && s.threads[t].pc.Idle? && c < NUM_CLASSES && Active(s.st, t) == c
    requires k <= |Of(s.st, Local(t, c))|
    requires s' == Goto(s, t, Release(c, mode, ToIdle)).(st := ShiftLast(s.st, Local(t, c), Batch(t), k))
    ensures Inv(s')
  {
    StartReleasePc(s.st, t, c, k, mode);
    ShiftLastInv(s, s', t, Release(c, mode, ToIdle), Local(t, c), Batch(t), k);
  }

  lemma StartReleasePc(st: Store, t: nat, c: nat, k: nat, mode: Mode)
    requires PcOk(st, t, Idle) && c < NUM_CLASSES && Active(st, t) == c && k <= |Of(st, Local(t, c))|
    ensures PcOk(ShiftLast(st, Local(t, c), Batch(t), k), t, Release(c, mode, ToIdle))
  {
    var q := Of(st, Local(t, c));
    ShiftLastIs(st, Local(t, c), Batch(t), k, |q| - k);
    StartReleaseSizes(st, ShiftLast(st, Local(t, c), Batch(t), k), t, Local(t, c), Release(c, mode, ToIdle),
                      q[..|q| - k],
                      Of(st, Batch(t)) + q[|q| - k..]);
  }

  lemma StartReleaseInv(s: Sys, s': Sys, t: nat, c: nat, k: nat, mode: Mode)
    requires Inv(s) && StartRelease(s, s', t, c, k, mode)
    ensures Inv(s')
  {
    EnterInv(s, t, c);
    StartReleaseFrom(s.(st := Enter(s.st, t, c)), s', t, c, k, mode);
  }

  lemma StartSingleFrom(s: Sys, s': Sys, t: nat, c: nat, i: nat)
    requires Inv(s) && At(s, t) && s.threads[t].pc.Idle? && c < NUM_CLASSES && Active(s.st, t) == c
    requires i < |Of(s.st, User(c))|
    requires s' == Goto(s, t, Release(c, ToTransfer, ToIdle)).(st := GiveBack(s.st, c, i, Batch(t)))
    ensures Inv(s')
  {
    var u := Of(s.st, User(c));
    GiveBackOk(s.st, c, i, Batch(t));
    MoveIs(s.st, User(c), Batch(t), [u[i]], u[..i] + u[i + 1..], [u[i]] + Of(s.st, Batch(t)));
    StartReleaseSizes(s.st, s'.st, t, User(c), Release(c, ToTransfer, ToIdle), u[..i] + u[i + 1..],
                      [u[i]] + Of(s.st, Batch(t)));
    MoveInv(s, s', t, Release(c, ToTransfer, ToIdle), User(c), Batch(t), u[..i] + u[i + 1..],
            [u[i]] + Of(s.st, Batch(t)));
  }

  lemma StartSingleInv(s: Sys, s': Sys, t: nat, c: nat, i: nat)
    requires Inv(s) && StartSingle(s, s', t, c, i)
    ensures Inv(s')
  {
    EnterInv(s, t, c);
    StartSingleFrom(s.(st := Enter(s.st, t, c)), s', t, c, i);
  }

  lemma ReleaseSizes(st: Store, st': Store, t: nat, pc: Pc, pc': Pc, a': seq<Obj>, b': seq<Obj>)
    requires PcOk(st, t, pc) && pc.Release? && Moved(st, st', Batch(t), Ptrs(t), a', b') && |b'| <= MAX_BATCH
    requires pc'.RLock? || pc'.RSpans?
    requires pc'.c == pc.c && pc'.ret == pc.ret
    ensures PcOk(st', t, pc')
  {
    MovedSizes(st, st', t, Batch(t), Ptrs(t), a', b');
  }

  lemma ReleaseEndSizes(st: Store, t: nat, pc: Pc)
    requires PcOk(st, t, pc) && pc.Release? && Of(st, Batch(t)) == []
    ensures PcOk(st, t, AfterRelease(pc.c, pc.ret))
  {
    match pc.ret
    case ToIdle =>
    case ToFetch(n, short) =>
    case ToDrain(rem, d, b) =>
  }

  lemma ReleaseSomePc(st: Store, t: nat, pc: Pc, pc': Pc, k: nat)
    requires PcOk(st, t, pc) && pc.Release? && k <= |Of(st, Batch(t))| && k <= MAX_BATCH
    requires pc'.RLock? || pc'.RSpans?
    requires pc'.c == pc.c && pc'.ret == pc.ret
    ensures PcOk(Shift(st, Batch(t), Ptrs(t), k), t, pc')
  {
    var q := Of(st, Batch(t));
    ShiftIs(st, Batch(t), Ptrs(t), k);
    ReleaseSizes(st, Shift(st, Batch(t), Ptrs(t), k), t, pc, pc', q[k..], Of(st, Ptrs(t)) + q[..k]);
  }

  lemma ReleaseSome(s: Sys, s': Sys, t: nat, k: nat)
    requires Inv(s) && At(s, t) && s.threads[t].pc.Release? && k <= |Of(s.st, Batch(t))| && k <= MAX_BATCH
    requires var pc := s.threads[t].pc;
             s' == Goto(s, t, if pc.mode.ToTransfer? then RLock(pc.c, pc.ret) else RSpans(pc.c, pc.mode, pc.ret))
                   .(st := Shift(s.st, Batch(t), Ptrs(t), k))
    ensures Inv(s')
  {
    ReleaseSomePc(s.st, t, s.threads[t].pc, s'.threads[t].pc, k);
    ShiftInv(s, s', t, s'.threads[t].pc, Batch(t), Ptrs(t), k);
  }

  lemma ReleaseTurnInv(s: Sys, s': Sys, t: nat)
    requires Inv(s) && ReleaseTurn(s, s', t)
    ensures Inv(s')
  {
    var pc, q := s.threads[t].pc, Of(s.st, Batch(t));
    if q == [] {
      ReleaseEndSizes(s.st, t, pc);
      ControlInv(s, s', t, AfterRelease(pc.c, pc.ret));
    } else {
      ReleaseSome(s, s', t, Min(|q|, MAX_BATCH));
    }
  }

  lemma RLockStepInv(s: Sys, s': Sys, t: nat)
    requires Inv(s) && RLockStep(s, s', t)
    ensures Inv(s')
  {
    ControlInv(s, s', t, s'.threads[t].pc);
  }

  lemma RPushOnePc(s: Sys, s': Sys, t: nat)
    requires At(s, t) && PcOk(s.st, t, s.threads[t].pc) && RPushOne(s, s', t)
    ensures Steady(s, s', t)
  {
    var pc, q := s.threads[t].pc, Of(s.st, Ptrs(t));
    ShiftIs(s.st, Ptrs(t), Transfer(pc.c), 1);
    RPushOneSizes(s.st, s'.st, t, pc, q[1..], Of(s.st, Transfer(pc.c)) + q[..1]);
  }

  lemma RPushOneInv(s: Sys, s': Sys, t: nat)
    requires Inv(s) && RPushOne(s, s', t)
    ensures Inv(s')
  {
    RPushOnePc(s, s', t);
    ShiftInv(s, s', t, s.threads[t].pc, Ptrs(t), Transfer(s.threads[t].pc.c), 1);
  }

  lemma RPushOneSizes(st: Store, st': Store, t: nat, pc: Pc, a': seq<Obj>, b': seq<Obj>)
    requires PcOk(st, t, pc) && pc.RPush? && Moved(st, st', Ptrs(t), Transfer(pc.c), a', b')
    requires |a'| <= |Of(st, Ptrs(t))|
    ensures PcOk(st', t, pc)
  {
    MovedSizes(st, st', t, Ptrs(t), Transfer(pc.c), a', b');
  }

  lemma RPushDonePc(s: Sys, s': Sys, t: nat)
    requires At(s, t) && PcOk(s.st, t, s.threads[t].pc) && RPushDone(s, s', t)
    ensures Steady(s, s', t)
  {
  }

  lemma RPushDoneInv(s: Sys, s': Sys, t: nat)
    requires Inv(s) && RPushDone(s, s', t)
    ensures Inv(s')
  {
    RPushDonePc(s, s', t);
    ControlInv(s, s', t, s'.threads[t].pc);
  }

  lemma RSpansLockInv(s: Sys, s': Sys, t: nat)
    requires Inv(s) && RSpansLock(s, s', t)
    ensures Inv(s')
  {
    ControlInv(s, s', t, s'.threads[t].pc);
  }

  lemma FreeDoneInv(s: Sys, s': Sys, t: nat)
    requires Inv(s) && FreeDone(s, s', t)
    ensures Inv(s')
  {
    ControlInv(s, s', t, s'.threads[t].pc);
  }

  lemma EmptiesDoneInv(s: Sys, s': Sys, t: nat)
    requires Inv(s) && EmptiesDone(s, s', t)
    ensures Inv(s')
  {
    ControlInv(s, s', t, s'.threads[t].pc);
  }

  // ---- DrainTransferCaches

  lemma StartDrainInv(s: Sys, s': Sys, t: nat, bytes: nat)
    requires Inv(s) && StartDrain(s, s', t, bytes)
    ensures Inv(s')
  {
    ControlInv(s, s', t, s'.threads[t].pc);
  }

  lemma DrainClassSizes(st: Store, t: nat, pc: Pc, pc': Pc)
    requires PcOk(st, t, pc) && pc.DClass?
    requires pc' == Idle || (pc.i > 0 && (pc' == DClass(pc.i - 1, pc.b) || pc' == DSnap(pc.i - 1, pc.b)))
    ensures if pc'.DSnap? then PcOk(Enter(st, t, pc'.c), t, pc') else PcOk(st, t, pc')
  {
    if pc'.DSnap? { assert SizesOf(Enter(st, t, pc'.c), t) == SizesOf(st, t); }
  }

  lemma DrainClassPc(s: Sys, s': Sys, t: nat)
    requires At(s, t) && PcOk(s.st, t, s.threads[t].pc) && DrainClass(s, s', t)
    ensures Steady(s, s', t)
  {
    DrainClassSizes(s.st, t, s.threads[t].pc, s'.threads[t].pc);
  }

  lemma DrainClassInv(s: Sys, s': Sys, t: nat)
    requires Inv(s) && DrainClass(s, s', t)
    ensures Inv(s')
  {
    DrainClassPc(s, s', t);
    var pc' := s'.threads[t].pc;
    if pc'.DSnap? { DrainEnter(s, s', t, pc'); } else { ControlInv(s, s', t, pc'); }
  }

  lemma DrainEnter(s: Sys, s': Sys, t: nat, pc: Pc)
    requires Inv(s) && At(s, t) && s.threads[t].pc.DClass? && pc.DSnap?
    requires s' == Goto(s, t, pc).(st := Enter(s.st, t, pc.c))
    requires PcOk(s'.st, t, pc)
    ensures Inv(s')
  {
    EnterOk(s.st, t, pc.c);
    EnterIs(s, t, pc.c);
    GotoInv(s, s', t, pc);
  }

  lemma DrainSnapshotInv(s: Sys, s': Sys, t: nat)
    requires Inv(s) && DrainSnapshot(s, s', t)
    ensures Inv(s')
  {
    ControlInv(s, s', t, s'.threads[t].pc);
  }

  lemma DrainLockPc(s: Sys, s': Sys, t: nat)
    requires At(s, t) && PcOk(s.st, t, s.threads[t].pc) && DrainLock(s, s', t)
    ensures Steady(s, s', t)
  {
  }

  lemma DrainLockInv(s: Sys, s': Sys, t: nat)
    requires Inv(s) && DrainLock(s, s', t)
    ensures Inv(s')
  {
    DrainLockPc(s, s', t);
    ControlInv(s, s', t, s'.threads[t].pc);
  }

  lemma DrainColdPc(s: Sys, s': Sys, t: nat)
    requires At(s, t) && PcOk(s.st, t, s.threads[t].pc) && DrainCold(s, s', t)
    ensures Steady(s, s', t)
  {
    var pc, q := s.threads[t].pc, Of(s.st, Transfer(s.threads[t].pc.c));
    ShiftIs(s.st, Transfer(pc.c), Scratch(t), 1);
    DrainColdSizes(s.st, s'.st, t, pc, q[1..], Of(s.st, Scratch(t)) + q[..1]);
  }

  lemma DrainColdInv(s: Sys, s': Sys, t: nat)
    requires Inv(s) && DrainCold(s, s', t)
    ensures Inv(s')
  {
    DrainColdPc(s, s', t);
    ShiftInv(s, s', t, s.threads[t].pc, Transfer(s.threads[t].pc.c), Scratch(t), 1);
  }

  lemma DrainColdSizes(st: Store, st': Store, t: nat, pc: Pc, a': seq<Obj>, b': seq<Obj>)
    requires PcOk(st, t, pc) && pc.DTake? && Moved(st, st', Transfer(pc.c), Scratch(t), a', b')
    requires |a'| == |Of(st, Transfer(pc.c))| - 1 && |b'| == |Of(st, Scratch(t))| + 1 <= pc.d
    ensures PcOk(st', t, pc)
  {
    MovedSizes(st, st', t, Transfer(pc.c), Scratch(t), a', b');
  }

  lemma DrainReleasePc(s: Sys, s': Sys, t: nat)
    requires At(s, t) && PcOk(s.st, t, s.threads[t].pc) && DrainRelease(s, s', t)
    ensures Steady(s, s', t)
  {
    var q := Of(s.st, Scratch(t));
    MoveIs(s.st, Scratch(t), Batch(t), q, [], Reversed(q));
    RelinkSizes(s.st, s'.st, t, s.threads[t].pc, s'.threads[t].pc, Reversed(q));
  }

  lemma DrainReleaseInv(s: Sys, s': Sys, t: nat)
    requires Inv(s) && DrainRelease(s, s', t)
    ensures Inv(s')
  {
    DrainReleasePc(s, s', t);
    RelinkInv(s, s', t, s'.threads[t].pc);
  }


  // ---- steps that change a span list or a span's counts

  /** A list is unaffected by changes to other spans. */
  lemma ListFrame(spans: map<nat, CSpan>, spans': map<nat, CSpan>, q: seq<nat>, phase: Phase)
    requires ListOk(spans, q, phase)
    requires forall i :: 0 <= i < |q| ==> q[i] in spans && q[i] in spans' && spans'[q[i]] == spans[q[i]]
    ensures ListOk(spans', q, phase)
  {}

  /** Buckets other than c, in a step of t that is about bucket c. */
  ghost predicate AboutClass(s: Sys, s': Sys, t: nat, c: nat)
  {
    && Shape(s) && Shape(s') && t < |s.threads| == |s'.threads| && c < NUM_CLASSES
    && (forall u: nat :: u < |s.threads| && u != t ==> s'.threads[u] == s.threads[u])
    && (forall d: nat :: d < NUM_CLASSES && d != c ==> s'.lists[d] == s.lists[d] && s'.slock[d] == s.slock[d])
    && (forall id: nat :: id in s.st.spans && s.st.spans[id].cls != c ==>
          id in s'.st.spans && s'.st.spans[id] == s.st.spans[id])
    && (HeldS(s.threads[t].pc).None? || HeldS(s.threads[t].pc) == Some(c))
  }

  lemma OtherLists(s: Sys, s': Sys, t: nat, c: nat)
    requires AboutClass(s, s', t, c) && HomesOk(s) && LocksOk(s) && ListsOk(s)
    requires ListOk(s'.st.spans, s'.lists[c], PhaseAt(s', c))
    ensures ListsOk(s')
  {
    forall d: nat | d < NUM_CLASSES && d != c
      ensures ListOk(s'.st.spans, s'.lists[d], PhaseAt(s', d))
    {
      assert s.slock[d] == Some(t) <==> HeldS(s.threads[t].pc) == Some(d);
      assert PhaseAt(s', d) == PhaseAt(s, d);
      assert forall i :: 0 <= i < |s.lists[d]| ==> s.lists[d][i] in s.lists[d];
      ListFrame(s.st.spans, s'.st.spans, s.lists[d], PhaseAt(s, d));
    }
  }

  /** Extracting from the front span. */
  lemma TakeList(spans: map<nat, CSpan>, spans': map<nat, CSpan>, q: seq<nat>, phase: Phase)
    requires ListOk(spans, q, phase) && phase != Resting && NoDup(q) && q != [] && q[0] in spans && q[0] in spans'
    requires spans[q[0]].used < spans[q[0]].cap && spans'[q[0]].cap == spans[q[0]].cap
    requires spans'[q[0]].used == spans[q[0]].used + 1
    requires forall id: nat :: id in spans && id != q[0] ==> id in spans' && spans'[id] == spans[id]
    ensures ListOk(spans', q, Taken)
  {
    var r := q[1..];
    assert InUse(spans, r);
    forall i | 0 <= i < |r|
      ensures r[i] in spans && r[i] in spans' && spans'[r[i]] == spans[r[i]]
    {
      assert r[i] == q[i + 1];
    }
    forall i | 0 <= i < |q| ensures q[i] in spans' && 1 <= spans'[q[i]].used <= spans'[q[i]].cap {
      if i > 0 { assert q[i] == r[i - 1]; }
    }
  }

  /** Moving a full front span to the back puts the list in order. */
  lemma RotateList(spans: map<nat, CSpan>, q: seq<nat>)
    requires ListOk(spans, q, Taken) && Full(spans, q[0])
    ensures ListOk(spans, Rotated(q), Resting) && ListOk(spans, Rotated(q), Taken)
  {
    var r := Rotated(q);
    forall i | 0 <= i < |r| ensures r[i] in spans && 1 <= spans[r[i]].used <= spans[r[i]].cap {
      if i < |q| - 1 { assert r[i] == q[i + 1]; }
    }
    forall i, j | 0 <= i < j < |r| && Full(spans, r[i])
      ensures Full(spans, r[j])
    {
      if j < |q| - 1 { assert q[1..][i] == r[i] && q[1..][j] == r[j]; }
    }
    forall i, j | 0 <= i < j < |r[1..]| && Full(spans, r[1..][i]) ensures Full(spans, r[1..][j]) {
      assert r[1..][i] == r[i + 1] && r[1..][j] == r[j + 1];
    }
  }

  lemma FrontOpens(spans: map<nat, CSpan>, q: seq<nat>)
    requires ListOk(spans, q, Taken) && !Full(spans, q[0])
    ensures ListOk(spans, q, Resting)
  {
    forall i, j | 0 <= i < j < |q| && Full(spans, q[i]) ensures Full(spans, q[j]) {
      assert q[1..][i - 1] == q[i] && q[1..][j - 1] == q[j];
    }
  }

  /** Membership and distinctness are not changed by a rotation. */
  lemma RotateMembers(q: seq<nat>)
    requires q != [] && NoDup(q)
    ensures NoDup(Rotated(q)) && forall id: nat :: id in Rotated(q) <==> id in q
  {
    assert q == [q[0]] + q[1..];
  }

  /** A step that keeps each part of the invariant keeps the invariant. */
  lemma Assemble(s: Sys, s': Sys, t: nat, pc: Pc)
    requires Inv(s) && Went(s, s', t, pc) && Shape(s') && BoxFrame(s, s'.st, t)
    requires StoreInv(s'.st) && PcOk(s'.st, t, pc) && HomesOk(s') && ListsOk(s') && CapsOk(s')
    ensures Inv(s')
  {
    PcsFrame(s, s', t);
    LocksFrame(s, s', t, pc);
  }

  // ---- AllocObject

  /** Only box b changes. */
  ghost predicate OneBox(st: Store, st': Store, b: Box, b': seq<Obj>)
  {
    && st'.active == st.active && Of(st', b) == b'
    && forall x: Box {:trigger Of(st', x)} :: x != b ==> Of(st', x) == Of(st, x)
  }

  lemma TakeBitIs(st: Store, id: nat, slot: nat, b: Box, b': seq<Obj>)
    requires id in st.spans
    ensures OneBox(st, TakeBit(st, id, slot, b, b'), b, b')
  {}

  lemma OneBoxFrame(s: Sys, s': Sys, t: nat, b: Box, b': seq<Obj>)
    requires OneBox(s.st, s'.st, b, b') && Mine(s, t, b) && !b.Transfer? && CapsOk(s) && s'.caps == s.caps
    ensures BoxFrame(s, s'.st, t) && CapsOk(s')
  {}

  lemma TakeSizes(st: Store, st': Store, t: nat, pc: Pc, b': seq<Obj>)
    requires PcOk(st, t, pc) && pc.Take? && pc.k < pc.need + pc.n
    requires var b := if pc.k < pc.need then Chain(t) else Scratch(t); OneBox(st, st', b, b') && |b'| == |Of(st, b)| + 1
    ensures PcOk(st', t, Take(pc.c, pc.n, pc.need, pc.k + 1, true))
  {
    assert SizesOf(st', t) == if pc.k < pc.need then SizesOf(st, t).(chain := |b'|)
           else SizesOf(st, t).(scratch := |b'|);
  }

  lemma TakeObjectWent(s: Sys, s': Sys, t: nat, slot: nat)
    requires TakeObject(s, s', t, slot)
    ensures var pc := s.threads[t].pc;
            && Went(s, s', t, Take(pc.c, pc.n, pc.need, pc.k + 1, true)) && Shape(s') && s'.caps == s.caps
            && s'.lists == s.lists && s'.home == s.home && s'.threads[t].empties == s.threads[t].empties
            && s'.slock == s.slock
  {}

  lemma TakeObjectBoxes(s: Sys, s': Sys, t: nat, slot: nat)
    requires At(s, t) && PcOk(s.st, t, s.threads[t].pc) && CapsOk(s) && TakeObject(s, s', t, slot)
    ensures var pc := s.threads[t].pc;
            && BoxFrame(s, s'.st, t) && CapsOk(s') && PcOk(s'.st, t, Take(pc.c, pc.n, pc.need, pc.k + 1, true))
  {
    var pc, id := s.threads[t].pc, s.lists[s.threads[t].pc.c][0];
    var b := if pc.k < pc.need then Chain(t) else Scratch(t);
    var b' := if pc.k < pc.need then [Obj(id, slot)] + Of(s.st, b) else Of(s.st, b) + [Obj(id, slot)];
    TakeBitIs(s.st, id, slot, b, b');
    OneBoxFrame(s, s', t, b, b');
    TakeSizes(s.st, s'.st, t, pc, b');
  }

  lemma TakeObjectStore(s: Sys, s': Sys, t: nat, slot: nat)
    requires Shape(s) && StoreInv(s.st) && HomesOk(s) && At(s, t) && PcOk(s.st, t, s.threads[t].pc)
    requires TakeObject(s, s', t, slot)
    ensures StoreInv(s'.st)
  {
    var pc, id := s.threads[t].pc, s.lists[s.threads[t].pc.c][0];
    assert id in s.lists[pc.c];
    var b := if pc.k < pc.need then Chain(t) else Scratch(t);
    TakeBitOk(s.st, id, slot, b, if pc.k < pc.need then [Obj(id, slot)] + Of(s.st, b)
              else Of(s.st, b) + [Obj(id, slot)]);
  }

  /** Counts of listed spans may change; who has which span does not. */
  lemma HomesFrame(s: Sys, s': Sys, t: nat, c: nat)
    requires HomesOk(s) && s'.home == s.home && |s'.lists| == |s.lists| && c < |s.lists|
    requires t < |s.threads| == |s'.threads|
    requires forall d: nat :: d < |s.lists| && d != c ==> s'.lists[d] == s.lists[d]
    requires NoDup(s'.lists[c]) && forall id: nat :: id in s'.lists[c] <==> id in s.lists[c]
    requires forall u: nat :: u < |s.threads| && u != t ==> s'.threads[u] == s.threads[u]
    requires s'.threads[t].empties == s.threads[t].empties && FreshOf(s'.threads[t].pc).None?
    requires FreshOf(s.threads[t].pc).None?
    requires forall id: nat :: id in s'.st.spans <==> id in s.st.spans
    requires forall id: nat :: id in s.st.spans ==>
               && s'.st.spans[id].cls == s.st.spans[id].cls && s'.st.spans[id].cap == s.st.spans[id].cap
               && (s.home[id] == Listed || s'.st.spans[id].used == s.st.spans[id].used)
    ensures HomesOk(s')
  {
    assert forall u: nat :: u < |s.threads| ==>
      && s'.threads[u].empties == s.threads[u].empties && FreshOf(s'.threads[u].pc) == FreshOf(s.threads[u].pc)
      && (FreshOf(s.threads[u].pc).Some? ==> s'.threads[u].pc.c == s.threads[u].pc.c);
  }

  lemma TakeObjectHomes(s: Sys, s': Sys, t: nat, slot: nat)
    requires Shape(s) && HomesOk(s) && TakeObject(s, s', t, slot)
    ensures HomesOk(s')
  {
    var c := s.threads[t].pc.c;
    assert s.lists[c][0] in s.lists[c];
    HomesFrame(s, s', t, c);
  }

  lemma TakeObjectLists(s: Sys, s': Sys, t: nat, slot: nat)
    requires Shape(s) && StoreInv(s.st) && HomesOk(s) && LocksOk(s) && ListsOk(s) && TakeObject(s, s', t, slot)
    requires s'.slock == s.slock && s'.lists == s.lists && LocksOk(s')
    ensures ListsOk(s')
  {
    var pc := s.threads[t].pc;
    var q := s.lists[pc.c];
    assert q[0] in q && s.slock[pc.c] == Some(t);
    NotFull(s.st, q[0], slot);
    TakeList(s.st.spans, s'.st.spans, q, PhaseOf(pc));
    OtherLists(s, s', t, pc.c);
  }

  lemma NotFull(st: Store, id: nat, slot: nat)
    requires StoreInv(st) && id in st.spans && slot in st.spans[id].free
    ensures st.spans[id].used < st.spans[id].cap
  {
    assert st.spans[id].free != {};
  }

  lemma TakeObjectInv(s: Sys, s': Sys, t: nat, slot: nat)
    requires Inv(s) && TakeObject(s, s', t, slot)
    ensures Inv(s')
  {
    var pc := s'.threads[t].pc;
    TakeObjectWent(s, s', t, slot);
    TakeObjectBoxes(s, s', t, slot);
    TakeObjectStore(s, s', t, slot);
    TakeObjectHomes(s, s', t, slot);
    LocksFrame(s, s', t, pc);
    TakeObjectLists(s, s', t, slot);
    Assemble(s, s', t, pc);
  }

  // ---- rotating full spans to the back

  lemma RotateInv(s: Sys, s': Sys, t: nat, pc: Pc, c: nat)
    requires Inv(s) && Went(s, s', t, pc) && Shape(s') && s'.st == s.st && s'.caps == s.caps && s'.home == s.home
    requires c < NUM_CLASSES && HeldS(s.threads[t].pc) == Some(c) && HeldS(pc) == Some(c)
    requires HeldT(s.threads[t].pc) == HeldT(pc)
    requires FreshOf(s.threads[t].pc).None? && FreshOf(pc).None? && s'.threads[t].empties == s.threads[t].empties
    requires s.lists[c] != [] && (s'.lists == s.lists[c := Rotated(s.lists[c])] || s'.lists == s.lists)
    requires ListOk(s.st.spans, s'.lists[c], PhaseOf(pc)) && PcOk(s.st, t, pc)
    ensures Inv(s')
  {
    RotateHomes(s, s', t, c);
    LocksFrame(s, s', t, pc);
    RotateLists(s, s', t, pc, c);
    Assemble(s, s', t, pc);
  }

  lemma RotateHomes(s: Sys, s': Sys, t: nat, c: nat)
    requires HomesOk(s) && c < |s.lists| && s'.st == s.st && s'.home == s.home && t < |s.threads| == |s'.threads|
    requires s.lists[c] != [] && (s'.lists == s.lists[c := Rotated(s.lists[c])] || s'.lists == s.lists)
    requires forall u: nat :: u < |s.threads| && u != t ==> s'.threads[u] == s.threads[u]
    requires s'.threads[t].empties == s.threads[t].empties && FreshOf(s'.threads[t].pc).None?
    requires FreshOf(s.threads[t].pc).None?
    ensures HomesOk(s')
  {
    RotateMembers(s.lists[c]);
    HomesFrame(s, s', t, c);
  }

  lemma RotateLists(s: Sys, s': Sys, t: nat, pc: Pc, c: nat)
    requires Shape(s) && HomesOk(s) && LocksOk(s) && ListsOk(s) && Went(s, s', t, pc) && Shape(s') && s'.st == s.st
    requires c < NUM_CLASSES && HeldS(s.threads[t].pc) == Some(c) && HeldS(pc) == Some(c)
    requires s.lists[c] != [] && (s'.lists == s.lists[c := Rotated(s.lists[c])] || s'.lists == s.lists)
    requires ListOk(s.st.spans, s'.lists[c], PhaseOf(pc))
    ensures ListsOk(s')
  {
    assert s.slock[c] == Some(t) && s'.slock == s.slock;
    OtherLists(s, s', t, c);
  }

  lemma TakeNullIs(s: Sys, s': Sys, t: nat)
    requires At(s, t) && PcOk(s.st, t, s.threads[t].pc) && TakeNull(s, s', t)
    ensures var pc := s.threads[t].pc;
            var pc' := After(pc.c, pc.n, pc.need, pc.k);
            && Went(s, s', t, pc') && Shape(s') && s'.threads[t].empties == s.threads[t].empties && PcOk(s.st, t, pc')
  {}

  lemma TakeNullInv(s: Sys, s': Sys, t: nat)
    requires Inv(s) && TakeNull(s, s', t)
    ensures Inv(s')
  {
    var pc := s.threads[t].pc;
    TakeNullIs(s, s', t);
    assert s.slock[pc.c] == Some(t);
    assert ListOk(s.st.spans, s.lists[pc.c], PhaseOf(pc));
    RotateList(s.st.spans, s.lists[pc.c]);
    RotateInv(s, s', t, s'.threads[t].pc, pc.c);
  }

  lemma AfterTurnIs(s: Sys, s': Sys, t: nat)
    requires At(s, t) && PcOk(s.st, t, s.threads[t].pc) && AfterTurn(s, s', t)
    ensures var pc := s.threads[t].pc;
            var pc' := Scan(pc.c, pc.n, pc.need, pc.k);
            && Went(s, s', t, pc') && Shape(s') && s'.threads[t].empties == s.threads[t].empties && PcOk(s.st, t, pc')
  {}

  lemma AfterTurnInv(s: Sys, s': Sys, t: nat)
    requires Inv(s) && AfterTurn(s, s', t)
    ensures Inv(s')
  {
    var pc := s.threads[t].pc;
    var q := s.lists[pc.c];
    AfterTurnIs(s, s', t);
    assert s.slock[pc.c] == Some(t);
    assert ListOk(s.st.spans, q, Taken);
    if Full(s.st.spans, q[0]) { RotateList(s.st.spans, q); } else { FrontOpens(s.st.spans, q); }
    RotateInv(s, s', t, s'.threads[t].pc, pc.c);
  }

  // ---- GetOneSpan

  lemma AddSpanIs(s: Sys, s': Sys, t: nat, id: nat)
    requires At(s, t) && PcOk(s.st, t, s.threads[t].pc) && CapsOk(s) && AskGot(s, s', t, id)
    ensures var pc := s.threads[t].pc;
            var pc' := Relock(pc.c, pc.n, pc.need, pc.k, Some(id));
            && Went(s, s', t, pc') && Shape(s') && s'.threads[t].empties == s.threads[t].empties
            && PcOk(s'.st, t, pc') && BoxFrame(s, s'.st, t) && CapsOk(s') && s'.lists == s.lists && s'.slock == s.slock
  {
    assert SizesOf(s'.st, t) == SizesOf(s.st, t);
  }

  lemma AskGotHomes(s: Sys, s': Sys, t: nat, id: nat)
    requires Shape(s) && HomesOk(s) && AskGot(s, s', t, id) && s.threads[t].pc.c < NUM_CLASSES
    ensures HomesOk(s')
  {
    SpanLayout.EveryClassHoldsAnObject(s.threads[t].pc.c);
    NewSpan(s.home, s'.home, s.st.spans, s'.st.spans, s.lists, id, t);
    assert forall u: nat :: u < |s.threads| ==> s'.threads[u].empties == s.threads[u].empties;
    EmptiesSame(s.home, s'.home, s.threads, s'.threads, id);
    FreshGot(s.home, s.st.spans, s'.st.spans, s.threads, s'.threads, t, id);
  }

  lemma NewSpan(home: map<nat, Home>, home': map<nat, Home>, spans: map<nat, CSpan>, spans': map<nat, CSpan>,
                lists: seq<seq<nat>>, id: nat, t: nat)
    requires KnownOk(home, spans) && ListedOk(home, spans, lists) && id !in spans && home' == home[id := Fresh(t)]
    requires id in spans' && spans' == spans[id := spans'[id]]
    requires spans'[id].cls < NUM_CLASSES && spans'[id].cap >= 1 && spans'[id].used == 0
    ensures KnownOk(home', spans') && ListedOk(home', spans', lists)
  {}

  lemma EmptiesSame(home: map<nat, Home>, home': map<nat, Home>, threads: seq<Thread>, threads': seq<Thread>, id: nat)
    requires EmptiesOk(home, threads) && id in home' && home' == home[id := home'[id]] && !home'[id].Emptied?
    requires id in home ==> !home[id].Emptied?
    requires |threads'| == |threads| && forall u: nat :: u < |threads| ==> threads'[u].empties == threads[u].empties
    ensures EmptiesOk(home', threads')
  {}

  lemma FreshGot(home: map<nat, Home>, spans: map<nat, CSpan>, spans': map<nat, CSpan>,
                 threads: seq<Thread>, threads': seq<Thread>, t: nat, id: nat)
    requires FreshOk(home, spans, threads) && id !in home && t < |threads| == |threads'|
    requires id in spans' && spans' == spans[id := spans'[id]]
    requires forall u: nat :: u < |threads| && u != t ==> threads'[u] == threads[u]
    requires FreshOf(threads[t].pc).None? && threads'[t].pc.Relock? && threads'[t].pc.got == Some(id)
    requires threads'[t].pc.c == spans'[id].cls
    ensures FreshOk(home[id := Fresh(t)], spans', threads')
  {}

  lemma AskGotLists(s: Sys, s': Sys, t: nat, id: nat)
    requires Shape(s) && HomesOk(s) && LocksOk(s) && ListsOk(s) && AskGot(s, s', t, id) && Shape(s')
    requires s'.lists == s.lists && s'.slock == s.slock
    ensures ListsOk(s')
  {
    forall c: nat | c < NUM_CLASSES
      ensures ListOk(s'.st.spans, s'.lists[c], PhaseAt(s', c))
    {
      assert s.slock[c] == Some(t) <==> HeldS(s.threads[t].pc) == Some(c);
      assert forall i :: 0 <= i < |s.lists[c]| ==> s.lists[c][i] in s.lists[c];
      ListFrame(s.st.spans, s'.st.spans, s.lists[c], PhaseAt(s, c));
    }
  }

  lemma AskGotInv(s: Sys, s': Sys, t: nat, id: nat)
    requires Inv(s) && AskGot(s, s', t, id)
    ensures Inv(s')
  {
    AddSpanIs(s, s', t, id);
    AddSpanOk(s.st, id, s.threads[t].pc.c, ClassCapacity(s.threads[t].pc.c));
    AskGotHomes(s, s', t, id);
    AskGotLists(s, s', t, id);
    Assemble(s, s', t, s'.threads[t].pc);
  }

  lemma RelockGotIs(s: Sys, s': Sys, t: nat)
    requires At(s, t) && PcOk(s.st, t, s.threads[t].pc) && RelockGot(s, s', t)
    ensures var pc := s.threads[t].pc;
            var pc' := Take(pc.c, pc.n, pc.need, pc.k, false);
            && Went(s, s', t, pc') && Shape(s') && s'.threads[t].empties == s.threads[t].empties && PcOk(s.st, t, pc')
            && s'.slock == s.slock[pc.c := Some(t)] && s'.st == s.st && s'.caps == s.caps
  {}

  lemma RelockGotHomes(s: Sys, s': Sys, t: nat)
    requires Shape(s) && HomesOk(s) && RelockGot(s, s', t)
    ensures HomesOk(s')
  {
    var pc := s.threads[t].pc;
    var id := pc.got.value;
    assert FreshOf(pc) == Some(id) && s.home[id] == Fresh(t);
    ListFresh(s.home, s.st.spans, s.lists, s'.lists, id, pc.c);
    assert forall u: nat :: u < |s.threads| ==> s'.threads[u].empties == s.threads[u].empties;
    EmptiesSame(s.home, s'.home, s.threads, s'.threads, id);
    assert forall u: nat :: u < |s.threads| && u != t ==> s'.threads[u].pc == s.threads[u].pc;
  }

  lemma ListFresh(home: map<nat, Home>, spans: map<nat, CSpan>, lists: seq<seq<nat>>, lists': seq<seq<nat>>, id: nat,
                  c: nat)
    requires KnownOk(home, spans) && ListedOk(home, spans, lists) && id in home && home[id].Fresh?
    requires spans[id].cls == c < |lists|
    requires lists' == lists[c := [id] + lists[c]]
    ensures KnownOk(home[id := Listed], spans) && ListedOk(home[id := Listed], spans, lists')
  {
    assert id !in lists[c] && forall x: nat :: x in lists'[c] <==> x == id || x in lists[c];
  }

  lemma RelockGotLists(s: Sys, s': Sys, t: nat)
    requires Shape(s) && HomesOk(s) && LocksOk(s) && ListsOk(s) && RelockGot(s, s', t) && Shape(s')
    requires s'.slock == s.slock[s.threads[t].pc.c := Some(t)] && s'.st == s.st
    ensures ListsOk(s')
  {
    var pc := s.threads[t].pc;
    var id, q := pc.got.value, s.lists[pc.c];
    assert FreshOf(pc) == Some(id) && s.home[id] == Fresh(t);
    assert ListOk(s.st.spans, q, Resting);
    assert ([id] + q)[1..] == q;
    OtherLists(s, s', t, pc.c);
  }

  lemma RelockGotInv(s: Sys, s': Sys, t: nat)
    requires Inv(s) && RelockGot(s, s', t)
    ensures Inv(s')
  {
    RelockGotIs(s, s', t);
    RelockGotHomes(s, s', t);
    RelockGotLists(s, s', t);
    Assemble(s, s', t, s'.threads[t].pc);
  }

  // ---- FreeObject

  /** Removing a span keeps the order of the others. */
  lemma {:induction false} EraseIndex(q: seq<nat>, id: nat, i: nat, j: nat) returns (i': nat, j': nat)
    requires i < j < |Erase(q, id)|
    ensures i' < j' < |q| && q[i'] == Erase(q, id)[i] && q[j'] == Erase(q, id)[j]
  {
    if q[0] == id {
      i', j' := i + 1, j + 1;
    } else {
      var w := Erase(q[1..], id);
      assert Erase(q, id) == [q[0]] + w;
      if i == 0 {
        j' := EraseAt(q[1..], id, j - 1);
        i', j' := 0, j' + 1;
      } else {
        i', j' := EraseIndex(q[1..], id, i - 1, j - 1);
        i', j' := i' + 1, j' + 1;
      }
    }
  }

  lemma {:induction false} EraseAt(q: seq<nat>, id: nat, j: nat) returns (j': nat)
    requires j < |Erase(q, id)|
    ensures j' < |q| && q[j'] == Erase(q, id)[j]
  {
    if q[0] == id {
      j' := j + 1;
    } else if j == 0 {
      j' := 0;
    } else {
      j' := EraseAt(q[1..], id, j - 1);
      j' := j' + 1;
    }
  }

  lemma EraseOrdered(spans: map<nat, CSpan>, q: seq<nat>, id: nat)
    requires Ordered(spans, q) && InUse(spans, q)
    ensures Ordered(spans, Erase(q, id)) && InUse(spans, Erase(q, id))
  {
    var w := Erase(q, id);
    forall i: nat, j: nat | i < j < |w| && Full(spans, w[i])
      ensures Full(spans, w[j])
    {
      var i', j' := EraseIndex(q, id, i, j);
    }
    forall i: nat | i < |w|
      ensures w[i] in spans && 1 <= spans[w[i]].used <= spans[w[i]].cap
    {
      var i' := EraseAt(q, id, i);
    }
  }

  /** The list of a span that got a slot back: without it when it is now empty,
      with it at the front when it was full. */
  function Relisted(q: seq<nat>, id: nat, used: nat, cap: nat): seq<nat>
  {
    if used == 0 then Erase(q, id) else if used + 1 == cap then [id] + Erase(q, id) else q
  }

  ghost predicate OneLess(spans: map<nat, CSpan>, spans': map<nat, CSpan>, id: nat)
  {
    && id in spans && id in spans' && spans' == spans[id := spans'[id]]
    && spans[id].used == spans'[id].used + 1 && spans'[id].cap == spans[id].cap && spans'[id].cls == spans[id].cls
  }

  lemma FreeOrder(spans: map<nat, CSpan>, spans': map<nat, CSpan>, q: seq<nat>, id: nat)
    requires ListOk(spans, q, Resting) && NoDup(q) && id in q && OneLess(spans, spans', id)
    ensures ListOk(spans', Relisted(q, id, spans'[id].used, spans[id].cap), Resting)
  {
    var w := Erase(q, id);
    EraseMembers(q, id);
    EraseOrdered(spans, q, id);
    assert forall i :: 0 <= i < |w| ==> w[i] in w;
    ListFrame(spans, spans', w, Resting);
    if spans'[id].used == 0 {
    } else if spans[id].used == spans[id].cap {
      FrontFirst(spans', w, id);
    } else {
      assert forall x: nat :: Full(spans', x) <==> Full(spans, x);
    }
  }

  lemma FrontFirst(spans: map<nat, CSpan>, w: seq<nat>, id: nat)
    requires ListOk(spans, w, Resting) && id in spans && 1 <= spans[id].used < spans[id].cap
    ensures ListOk(spans, [id] + w, Resting)
  {
    var q := [id] + w;
    forall i: nat, j: nat | i < j < |q| && Full(spans, q[i]) ensures Full(spans, q[j]) {
      assert q[i] == w[i - 1] && q[j] == w[j - 1];
    }
  }

  /** Where the span of a freed object is: listed in its bucket. */
  lemma FreedListed(s: Sys, t: nat)
    requires Shape(s) && StoreInv(s.st) && HomesOk(s) && At(s, t) && s.threads[t].pc.Free?
    requires PcOk(s.st, t, s.threads[t].pc)
    requires Of(s.st, Ptrs(t)) != []
    ensures var id := Of(s.st, Ptrs(t))[0].span;
            && id in s.st.spans && s.st.spans[id].used > 0 && s.st.spans[id].cls == s.threads[t].pc.c
            && id in s.home && s.home[id] == Listed && id in s.lists[s.threads[t].pc.c]
  {
    PutBitReady(s.st, Ptrs(t));
  }

  ghost predicate Relisting(s: Sys, s': Sys, t: nat, id: nat, c: nat)
  {
    && At(s, t) && c < NUM_CLASSES && id in s.home && id in s.lists[c] && OneLess(s.st.spans, s'.st.spans, id)
    && s'.lists == s.lists[c := Relisted(s.lists[c], id, s'.st.spans[id].used, s.st.spans[id].cap)]
    && s'.home == (if s'.st.spans[id].used == 0 then s.home[id := Emptied(t)] else s.home)
    && s'.threads == s.threads[t := Thread(s.threads[t].pc, if s'.st.spans[id].used == 0 then [id]
                                           + s.threads[t].empties
                                                           else s.threads[t].empties)]
    && s'.tlock == s.tlock && s'.slock == s.slock && s'.caps == s.caps
  }

  lemma PutBitIs(st: Store, b: Box)
    requires Of(st, b) != [] && Of(st, b)[0].span in st.spans && st.spans[Of(st, b)[0].span].used > 0
    ensures OneBox(st, PutBit(st, b), b, Of(st, b)[1..]) && OneLess(st.spans, PutBit(st, b).spans, Of(st, b)[0].span)
  {}

  lemma FreeOneIs(s: Sys, s': Sys, t: nat)
    requires FreeOne(s, s', t)
    requires Of(s.st, Ptrs(t))[0].span in s.home && Of(s.st, Ptrs(t))[0].span in s.lists[s.threads[t].pc.c]
    ensures Relisting(s, s', t, Of(s.st, Ptrs(t))[0].span, s.threads[t].pc.c) && s'.st == PutBit(s.st, Ptrs(t))
  {
    PutBitIs(s.st, Ptrs(t));
    var c := s.threads[t].pc.c;
    assert s.lists == s.lists[c := s.lists[c]];
    assert s.threads == s.threads[t := Thread(s.threads[t].pc, s.threads[t].empties)];
  }

  lemma RelistingWent(s: Sys, s': Sys, t: nat, id: nat, c: nat)
    requires Relisting(s, s', t, id, c)
    ensures Went(s, s', t, s.threads[t].pc) && Shape(s')
  {}

  lemma FreeSizes(st: Store, st': Store, t: nat, pc: Pc, b': seq<Obj>)
    requires PcOk(st, t, pc) && pc.Free? && OneBox(st, st', Ptrs(t), b') && |b'| <= |Of(st, Ptrs(t))|
    ensures PcOk(st', t, pc)
  {
    assert SizesOf(st', t) == SizesOf(st, t).(ptrs := |b'|);
  }

  lemma RelistListed(home: map<nat, Home>, spans: map<nat, CSpan>, spans': map<nat, CSpan>, lists: seq<seq<nat>>,
                     t: nat, id: nat, c: nat)
    requires KnownOk(home, spans) && ListedOk(home, spans, lists) && c < |lists| && id in lists[c]
    requires OneLess(spans, spans', id)
    ensures var lists' := lists[c := Relisted(lists[c], id, spans'[id].used, spans[id].cap)];
            var home' := if spans'[id].used == 0 then home[id := Emptied(t)] else home;
            KnownOk(home', spans') && ListedOk(home', spans', lists')
  {
    var q, w := lists[c], Erase(lists[c], id);
    EraseMembers(q, id);
    assert forall x: nat :: x in [id] + w <==> x in q;
  }

  lemma RelistEmpties(home: map<nat, Home>, threads: seq<Thread>, t: nat, id: nat)
    requires EmptiesOk(home, threads) && t < |threads| && id in home && home[id] == Listed
    ensures EmptiesOk(home[id := Emptied(t)], threads[t := Thread(threads[t].pc, [id] + threads[t].empties)])
  {
    var e := threads[t].empties;
    assert id !in e && forall x: nat :: x in [id] + e <==> x == id || x in e;
  }

  lemma RelistFresh(home: map<nat, Home>, home': map<nat, Home>, spans: map<nat, CSpan>, spans': map<nat, CSpan>,
                    threads: seq<Thread>, threads': seq<Thread>, id: nat)
    requires FreshOk(home, spans, threads) && OneLess(spans, spans', id) && id in home && home[id] == Listed
    requires id in home' && home' == home[id := home'[id]] && !home'[id].Fresh?
    requires |threads'| == |threads| && forall u: nat :: u < |threads| ==> threads'[u].pc == threads[u].pc
    ensures FreshOk(home', spans', threads')
  {}

  lemma RelistingHomes(s: Sys, s': Sys, t: nat, id: nat, c: nat)
    requires HomesOk(s) && Relisting(s, s', t, id, c)
    ensures HomesOk(s')
  {
    assert s.home[id] == Listed;
    RelistListed(s.home, s.st.spans, s'.st.spans, s.lists, t, id, c);
    if s'.st.spans[id].used == 0 {
      RelistEmpties(s.home, s.threads, t, id);
    } else {
      assert s'.threads == s.threads;
    }
    assert forall u: nat :: u < |s.threads| ==> s'.threads[u].pc == s.threads[u].pc;
    assert s'.home == s.home[id := s'.home[id]];
    RelistFresh(s.home, s'.home, s.st.spans, s'.st.spans, s.threads, s'.threads, id);
  }

  lemma RelistingLists(s: Sys, s': Sys, t: nat, id: nat, c: nat)
    requires Shape(s) && Shape(s') && HomesOk(s) && LocksOk(s) && ListsOk(s) && Relisting(s, s', t, id, c)
    requires s.threads[t].pc.Free? && s.threads[t].pc.c == c
    ensures ListsOk(s')
  {
    assert s.slock[c] == Some(t);
    FreeOrder(s.st.spans, s'.st.spans, s.lists[c], id);
    OtherLists(s, s', t, c);
  }

  lemma FreeOneInv(s: Sys, s': Sys, t: nat)
    requires Inv(s) && FreeOne(s, s', t)
    ensures Inv(s')
  {
    var pc, q := s.threads[t].pc, Of(s.st, Ptrs(t));
    FreedListed(s, t);
    FreeOneIs(s, s', t);
    RelistingWent(s, s', t, q[0].span, pc.c);
    PutBitIs(s.st, Ptrs(t));
    PutBitOk(s.st, Ptrs(t));
    OneBoxFrame(s, s', t, Ptrs(t), q[1..]);
    FreeSizes(s.st, s'.st, t, pc, q[1..]);
    RelistingHomes(s, s', t, q[0].span, pc.c);
    RelistingLists(s, s', t, q[0].span, pc.c);
    Assemble(s, s', t, pc);
  }

  // ---- ReleaseSpan

  lemma DropEmptyIs(s: Sys, s': Sys, t: nat)
    requires DropEmpty(s, s', t) && CapsOk(s) && PcOk(s.st, t, s.threads[t].pc)
    ensures Went(s, s', t, s.threads[t].pc) && Shape(s') && BoxFrame(s, s'.st, t) && CapsOk(s') && s'.lists == s.lists
    ensures PcOk(s'.st, t, s.threads[t].pc)
  {
    assert SizesOf(s'.st, t) == SizesOf(s.st, t);
  }

  lemma DropHomes(s: Sys, s': Sys, t: nat)
    requires HomesOk(s) && DropEmpty(s, s', t)
    ensures HomesOk(s')
  {
    var e := s.threads[t].empties;
    assert e[0] in e && forall x: nat :: x in e[1..] <==> x in e && x != e[0];
    assert forall u: nat :: u < |s.threads| ==> s'.threads[u].pc == s.threads[u].pc;
  }

  lemma DropLists(s: Sys, s': Sys, t: nat)
    requires Shape(s) && Shape(s') && HomesOk(s) && ListsOk(s) && DropEmpty(s, s', t) && s'.lists == s.lists
    ensures ListsOk(s')
  {
    var e := s.threads[t].empties;
    assert e[0] in e;
    forall c: nat | c < NUM_CLASSES
      ensures ListOk(s'.st.spans, s'.lists[c], PhaseAt(s', c))
    {
      assert PhaseAt(s', c) == PhaseAt(s, c);
      assert forall i :: 0 <= i < |s.lists[c]| ==> s.lists[c][i] in s.lists[c];
      ListFrame(s.st.spans, s'.st.spans, s.lists[c], PhaseAt(s, c));
    }
  }

  lemma DropEmptyInv(s: Sys, s': Sys, t: nat)
    requires Inv(s) && DropEmpty(s, s', t)
    ensures Inv(s')
  {
    var e := s.threads[t].empties;
    assert e[0] in e;
    DropSpanOk(s.st, e[0]);
    DropEmptyIs(s, s', t);
    DropHomes(s, s', t);
    DropLists(s, s', t);
    Assemble(s, s', t, s.threads[t].pc);
  }

  // ------------------------------------------------------------ all together

  lemma PopWorkInv(s: Sys, s': Sys, t: nat)
    requires Inv(s) && PopWork(s, s', t)
    ensures Inv(s')
  {
    if ProbeLock(s, s', t) { ProbeLockInv(s, s', t); }
    else if PopHot(s, s', t) { PopHotInv(s, s', t); }
    else if PopDone(s, s', t) { PopDoneInv(s, s', t); }
    else if LinkAll(s, s', t) { LinkAllInv(s, s', t); }
    else { AcceptInv(s, s', t); }
  }

  lemma PushWorkInv(s: Sys, s': Sys, t: nat)
    requires Inv(s) && PushWork(s, s', t)
    ensures Inv(s')
  {
    if PublishLock(s, s', t) { PublishLockInv(s, s', t); }
    else if PushOne(s, s', t) { PushOneInv(s, s', t); }
    else if PushDone(s, s', t) { PushDoneInv(s, s', t); }
    else { ReturnExcessInv(s, s', t); }
  }

  lemma EnterWorkInv(s: Sys, s': Sys, t: nat)
    requires Inv(s) && EnterWork(s, s', t)
    ensures Inv(s')
  {
    if LockSpans(s, s', t) { LockSpansInv(s, s', t); }
    else if RelockGot(s, s', t) { RelockGotInv(s, s', t); }
    else if RelockNone(s, s', t) { RelockNoneInv(s, s', t); }
    else { LeaveSpansInv(s, s', t); }
  }

  lemma ScanWorkInv(s: Sys, s': Sys, t: nat)
    requires Inv(s) && ScanWork(s, s', t)
    ensures Inv(s')
  {
    if ScanNext(s, s', t) { ScanNextInv(s, s', t); }
    else if TakeNull(s, s', t) { TakeNullInv(s, s', t); }
    else if TakeEnough(s, s', t) { TakeEnoughInv(s, s', t); }
    else if AfterTurn(s, s', t) { AfterTurnInv(s, s', t); }
    else { AskNoneInv(s, s', t); }
  }

  lemma StoreWorkInv(s: Sys, s': Sys, t: nat)
    requires Inv(s) && StoreWork(s, s', t)
    ensures Inv(s')
  {
    if ReleaseTurn(s, s', t) { ReleaseTurnInv(s, s', t); }
    else if RLockStep(s, s', t) { RLockStepInv(s, s', t); }
    else if RPushOne(s, s', t) { RPushOneInv(s, s', t); }
    else { RPushDoneInv(s, s', t); }
  }

  lemma FreeWorkInv(s: Sys, s': Sys, t: nat)
    requires Inv(s) && FreeWork(s, s', t)
    ensures Inv(s')
  {
    if RSpansLock(s, s', t) { RSpansLockInv(s, s', t); }
    else if FreeOne(s, s', t) { FreeOneInv(s, s', t); }
    else if FreeDone(s, s', t) { FreeDoneInv(s, s', t); }
    else if DropEmpty(s, s', t) { DropEmptyInv(s, s', t); }
    else { EmptiesDoneInv(s, s', t); }
  }

  lemma DrainWorkInv(s: Sys, s': Sys, t: nat)
    requires Inv(s) && DrainWork(s, s', t)
    ensures Inv(s')
  {
    if DrainClass(s, s', t) { DrainClassInv(s, s', t); }
    else if DrainSnapshot(s, s', t) { DrainSnapshotInv(s, s', t); }
    else if DrainLock(s, s', t) { DrainLockInv(s, s', t); }
    else if DrainCold(s, s', t) { DrainColdInv(s, s', t); }
    else { DrainReleaseInv(s, s', t); }
  }

  lemma WorksInv(s: Sys, s': Sys, t: nat)
    requires Inv(s) && Works(s, s', t)
    ensures Inv(s')
  {
    if PopWork(s, s', t) { PopWorkInv(s, s', t); }
    else if PushWork(s, s', t) { PushWorkInv(s, s', t); }
    else if EnterWork(s, s', t) { EnterWorkInv(s, s', t); }
    else if ScanWork(s, s', t) { ScanWorkInv(s, s', t); }
    else if StoreWork(s, s', t) { StoreWorkInv(s, s', t); }
    else if FreeWork(s, s', t) { FreeWorkInv(s, s', t); }
    else { DrainWorkInv(s, s', t); }
  }

  lemma DoInv(s: Sys, s': Sys, t: nat, a: Action)
    requires Inv(s) && Do(s, s', t, a)
    ensures Inv(s')
  {
    match a
    case CallMalloc(c) => MallocInv(s, s', t, c);
    case CallFree(c, i) => UserFreeInv(s, s', t, c, i);
    case CallFetch(c, n) => StartFetchInv(s, s', t, c, n);
    case CallRelease(c, k, mode) => StartReleaseInv(s, s', t, c, k, mode);
    case CallReleaseOne(c, i) => StartSingleInv(s, s', t, c, i);
    case CallDrain(bytes) => StartDrainInv(s, s', t, bytes);
    case GiveSlot(slot) => TakeObjectInv(s, s', t, slot);
    case GiveSpan(id) => AskGotInv(s, s', t, id);
    case Continue => WorksInv(s, s', t);
  }

  lemma InitInv(s: Sys)
    requires Init(s)
    ensures Inv(s)
  {
    assert forall b: Box {:trigger Of(s.st, b)} :: Of(s.st, b) == [];
    InitPcs(s);
    InitLists(s);
  }

  lemma InitPcs(s: Sys)
    requires Init(s)
    ensures PcsOk(s) && LocksOk(s) && HomesOk(s)
  {
    assert forall b: Box {:trigger Of(s.st, b)} :: Of(s.st, b) == [];
  }

  lemma InitLists(s: Sys)
    requires Init(s)
    ensures ListsOk(s)
  {}

  /** The invariant holds in every state of every run. */
  lemma {:induction false} RunInv(r: seq<Sys>, i: nat)
    requires Run(r) && i < |r|
    ensures Inv(r[i])
  {
    if i == 0 {
      InitInv(r[0]);
    } else {
      RunInv(r, i - 1);
      assert StepAt(r, i - 1);
      var t: nat, a :| Do(r[i - 1], r[i], t, a);
      DoInv(r[i - 1], r[i], t, a);
    }
  }
}
