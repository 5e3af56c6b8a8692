/** Who may change what in CentralCache: a step of one thread touches the boxes of that
    thread, the transfer cache whose lock it holds, and the user's blocks. */
module CentralOwners {
  import opened Config
  import opened CentralStore
  import opened CentralCache

  /** The thread a box belongs to; transfer caches and the user's blocks are shared. */
  function Owner(b: Box): Option<nat>
  {
    match b
    case Transfer(_) => None
    case User(_) => None
    case Local(t, _) => Some(t)
    case Chain(t) => Some(t)
    case Scratch(t) => Some(t)
    case Batch(t) => Some(t)
    case Ptrs(t) => Some(t)
  }

  predicate MayTouch(b: Box, u: nat, held: Option<nat>)
  {
    b.User? || Owner(b) == Some(u) || (b.Transfer? && held == Some(b.c))
  }

  ghost predicate OnlyOwn(st: Store, st': Store, u: nat, held: Option<nat>)
  {
    forall b: Box {:trigger Of(st', b)} :: !MayTouch(b, u, held) ==> Of(st', b) == Of(st, b)
  }

  lemma OwnMove(st: Store, a: Box, b: Box, moved: seq<Obj>, a': seq<Obj>, b': seq<Obj>, u: nat, held: Option<nat>)
    requires MayTouch(a, u, held) && MayTouch(b, u, held)
    ensures OnlyOwn(st, Move(st, a, b, moved, a', b'), u, held)
  {}

  lemma OwnShift(st: Store, a: Box, b: Box, k: nat, u: nat, held: Option<nat>)
    requires k <= |Of(st, a)| && MayTouch(a, u, held) && MayTouch(b, u, held)
    ensures OnlyOwn(st, Shift(st, a, b, k), u, held) && OnlyOwn(st, ShiftLast(st, a, b, k), u, held)
  {
    var q := Of(st, a);
    var j := |q| - k;
    OwnMove(st, a, b, q[..k], q[k..], Of(st, b) + q[..k], u, held);
    OwnMove(st, a, b, q[j..], q[..j], Of(st, b) + q[j..], u, held);
  }

  lemma OwnPop(s: Sys, s': Sys, t: nat)
    requires PopWork(s, s', t)
    ensures OnlyOwn(s.st, s'.st, t, HeldT(s.threads[t].pc))
  {
    var held := HeldT(s.threads[t].pc);
    if PopHot(s, s', t) {
      OwnShift(s.st, Transfer(s.threads[t].pc.c), Scratch(t), 1, t, held);
    } else if LinkAll(s, s', t) {
      OwnShift(s.st, Scratch(t), Chain(t), |Of(s.st, Scratch(t))|, t, held);
    } else if Accept(s, s', t) {
      var a, b := Chain(t), Local(t, s.threads[t].pc.c);
      OwnMove(s.st, a, b, Of(s.st, a), [], Of(s.st, a) + Of(s.st, b), t, held);
    }
  }

  lemma OwnPush(s: Sys, s': Sys, t: nat)
    requires PushWork(s, s', t)
    ensures OnlyOwn(s.st, s'.st, t, HeldT(s.threads[t].pc))
  {
    var held := HeldT(s.threads[t].pc);
    if PushOne(s, s', t) {
      OwnShift(s.st, Scratch(t), Transfer(s.threads[t].pc.c), 1, t, held);
    } else if ReturnExcess(s, s', t) {
      var q := Of(s.st, Scratch(t));
      OwnMove(s.st, Scratch(t), Batch(t), q, [], Reversed(q), t, held);
    }
  }

  lemma OwnStore(s: Sys, s': Sys, t: nat)
    requires StoreWork(s, s', t)
    ensures OnlyOwn(s.st, s'.st, t, HeldT(s.threads[t].pc))
  {
    var held := HeldT(s.threads[t].pc);
    if ReleaseTurn(s, s', t) {
      var q := Of(s.st, Batch(t));
      if q != [] { OwnShift(s.st, Batch(t), Ptrs(t), Min(|q|, MAX_BATCH), t, held); }
    } else if RPushOne(s, s', t) {
      OwnShift(s.st, Ptrs(t), Transfer(s.threads[t].pc.c), 1, t, held);
    }
  }

  lemma OwnPut(st: Store, b: Box, u: nat, held: Option<nat>)
    requires MayTouch(b, u, held) && Of(st, b) != []
    requires Of(st, b)[0].span in st.spans && st.spans[Of(st, b)[0].span].used > 0
    ensures OnlyOwn(st, PutBit(st, b), u, held)
  {}

  lemma OwnFree(s: Sys, s': Sys, t: nat)
    requires FreeWork(s, s', t)
    ensures OnlyOwn(s.st, s'.st, t, HeldT(s.threads[t].pc))
  {
    if FreeOne(s, s', t) { OwnPut(s.st, Ptrs(t), t, HeldT(s.threads[t].pc)); }
  }

  lemma OwnDrain(s: Sys, s': Sys, t: nat)
    requires DrainWork(s, s', t)
    ensures OnlyOwn(s.st, s'.st, t, HeldT(s.threads[t].pc))
  {
    var held := HeldT(s.threads[t].pc);
    if DrainClass(s, s', t) {
      assert s'.st.boxes == s.st.boxes;
    } else if DrainCold(s, s', t) {
      OwnShift(s.st, Transfer(s.threads[t].pc.c), Scratch(t), 1, t, held);
    } else if DrainRelease(s, s', t) {
      var q := Of(s.st, Scratch(t));
      OwnMove(s.st, Scratch(t), Batch(t), q, [], Reversed(q), t, held);
    }
  }

  lemma OwnWorks(s: Sys, s': Sys, t: nat)
    requires Works(s, s', t)
    ensures OnlyOwn(s.st, s'.st, t, HeldT(s.threads[t].pc))
  {
    if PopWork(s, s', t) { OwnPop(s, s', t); }
    else if PushWork(s, s', t) { OwnPush(s, s', t); }
    else if EnterWork(s, s', t) { assert s'.st == s.st; }
    else if ScanWork(s, s', t) { assert s'.st == s.st; }
    else if StoreWork(s, s', t) { OwnStore(s, s', t); }
    else if FreeWork(s, s', t) { OwnFree(s, s', t); }
    else { OwnDrain(s, s', t); }
  }

  lemma OwnGiveBack(st: Store, c: nat, i: nat, b: Box, u: nat, held: Option<nat>)
    requires i < |Of(st, User(c))| && MayTouch(b, u, held)
    ensures OnlyOwn(st, GiveBack(st, c, i, b), u, held)
  {}

  lemma OwnRelease(s: Sys, s': Sys, t: nat, c: nat, k: nat, mode: Mode)
    requires StartRelease(s, s', t, c, k, mode)
    ensures OnlyOwn(s.st, s'.st, t, HeldT(s.threads[t].pc))
  {
    var m := Enter(s.st, t, c);
    assert forall b: Box {:trigger Of(m, b)} :: Of(m, b) == Of(s.st, b);
    OwnShift(m, Local(t, c), Batch(t), k, t, HeldT(s.threads[t].pc));
  }

  lemma OwnSingle(s: Sys, s': Sys, t: nat, c: nat, i: nat)
    requires StartSingle(s, s', t, c, i)
    ensures OnlyOwn(s.st, s'.st, t, HeldT(s.threads[t].pc))
  {
    var m := Enter(s.st, t, c);
    assert forall b: Box {:trigger Of(m, b)} :: Of(m, b) == Of(s.st, b);
    OwnGiveBack(m, c, i, Batch(t), t, HeldT(s.threads[t].pc));
  }

  lemma OwnTake(s: Sys, s': Sys, t: nat, slot: nat)
    requires TakeObject(s, s', t, slot)
    ensures OnlyOwn(s.st, s'.st, t, HeldT(s.threads[t].pc))
  {}

  /** A step of thread t touches only t's own boxes, the transfer cache whose lock t
      holds, and the user's blocks. */
  lemma DoOwn(s: Sys, s': Sys, t: nat, a: Action)
    requires Do(s, s', t, a)
    ensures t < |s.threads| && OnlyOwn(s.st, s'.st, t, HeldT(s.threads[t].pc))
  {
    match a
    case CallMalloc(c) => OwnShift(s.st, Local(t, c), User(c), 1, t, HeldT(s.threads[t].pc));
    case CallFree(c, i) => OwnGiveBack(s.st, c, i, Local(t, c), t, HeldT(s.threads[t].pc));
    case CallFetch(c, n) => assert s'.st.boxes == s.st.boxes;
    case CallRelease(c, k, mode) => OwnRelease(s, s', t, c, k, mode);
    case CallReleaseOne(c, i) => OwnSingle(s, s', t, c, i);
    case CallDrain(bytes) => assert s'.st == s.st;
    case GiveSlot(slot) => OwnTake(s, s', t, slot);
    case GiveSpan(id) => assert s'.st.boxes == s.st.boxes;
    case Continue => OwnWorks(s, s', t);
  }

  /** What thread t has stays what it is while another thread moves; and so does the
      transfer cache whose lock t holds. */
  lemma OthersKeep(s: Sys, s': Sys, u: nat, a: Action, t: nat, b: Box)
    requires Do(s, s', u, a) && u != t && t < |s.threads| && LocksOk(s)
    requires Owner(b) == Some(t) || (b.Transfer? && HeldT(s.threads[t].pc) == Some(b.c) && b.c < |s.tlock|)
    ensures Of(s'.st, b) == Of(s.st, b)
  {
    DoOwn(s, s', u, a);
    if b.Transfer? { assert s.tlock[b.c] == Some(t); }
  }
}
