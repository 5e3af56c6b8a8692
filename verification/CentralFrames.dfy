/** Which CentralCache steps touch the user's blocks and the set of carved spans. */
module CentralFrames {
  import opened Config
  import opened CentralStore
  import opened CentralCache
  import opened SizeClass

  /** The same spans are carved for the same classes, and the user holds the same
      blocks. */
  ghost predicate Kept(st: Store, st': Store)
  {
    && SameSpans(st, st')
    && (forall c: nat {:trigger Of(st', User(c))} :: Of(st', User(c)) == Of(st, User(c)))
  }

  ghost predicate SameSpans(st: Store, st': Store)
  {
    && (forall id: nat :: id in st.spans <==> id in st'.spans)
    && (forall id: nat :: id in st.spans ==>
          st'.spans[id].cls == st.spans[id].cls && st'.spans[id].cap == st.spans[id].cap)
  }

  lemma MoveKept(st: Store, a: Box, b: Box, moved: seq<Obj>, a': seq<Obj>, b': seq<Obj>)
    requires !a.User? && !b.User?
    ensures Kept(st, Move(st, a, b, moved, a', b'))
  {}

  lemma TakeKept(st: Store, id: nat, slot: nat, b: Box, b': seq<Obj>)
    requires id in st.spans && !b.User?
    ensures Kept(st, TakeBit(st, id, slot, b, b'))
  {}

  lemma PutKept(st: Store, b: Box)
    requires !b.User? && Of(st, b) != [] && Of(st, b)[0].span in st.spans && st.spans[Of(st, b)[0].span].used > 0
    ensures Kept(st, PutBit(st, b))
  {}

  lemma EnterKept(st: Store, t: nat, c: nat)
    ensures Kept(st, Enter(st, t, c))
  {}

  lemma PopHotKept(s: Sys, s': Sys, t: nat)
    requires PopHot(s, s', t)
    ensures Kept(s.st, s'.st)
  {
    var q := Of(s.st, Transfer(s.threads[t].pc.c));
    var j := |q| - 1;
    MoveKept(s.st, Transfer(s.threads[t].pc.c), Scratch(t), q[j..], q[..j], Of(s.st, Scratch(t)) + q[j..]);
  }

  lemma LinkAllKept(s: Sys, s': Sys, t: nat)
    requires LinkAll(s, s', t)
    ensures Kept(s.st, s'.st)
  {
    var q := Of(s.st, Scratch(t));
    MoveKept(s.st, Scratch(t), Chain(t), q[..|q|], q[|q|..], Of(s.st, Chain(t)) + q[..|q|]);
  }

  lemma AcceptKept(s: Sys, s': Sys, t: nat)
    requires Accept(s, s', t)
    ensures Kept(s.st, s'.st)
  {
    var a, b := Chain(t), Local(t, s.threads[t].pc.c);
    MoveKept(s.st, a, b, Of(s.st, a), [], Of(s.st, a) + Of(s.st, b));
  }

  lemma PopWorkKept(s: Sys, s': Sys, t: nat)
    requires PopWork(s, s', t)
    ensures Kept(s.st, s'.st)
  {
    if PopHot(s, s', t) { PopHotKept(s, s', t); }
    else if LinkAll(s, s', t) { LinkAllKept(s, s', t); }
    else if Accept(s, s', t) { AcceptKept(s, s', t); }
  }

  lemma PushOneKept(s: Sys, s': Sys, t: nat)
    requires PushOne(s, s', t)
    ensures Kept(s.st, s'.st)
  {
    var q := Of(s.st, Scratch(t));
    var b := Transfer(s.threads[t].pc.c);
    MoveKept(s.st, Scratch(t), b, q[..1], q[1..], Of(s.st, b) + q[..1]);
  }

  lemma ReturnExcessKept(s: Sys, s': Sys, t: nat)
    requires ReturnExcess(s, s', t)
    ensures Kept(s.st, s'.st)
  {
    var q := Of(s.st, Scratch(t));
    MoveKept(s.st, Scratch(t), Batch(t), q, [], Reversed(q));
  }

  lemma PushWorkKept(s: Sys, s': Sys, t: nat)
    requires PushWork(s, s', t)
    ensures Kept(s.st, s'.st)
  {
    if PushOne(s, s', t) { PushOneKept(s, s', t); }
    else if ReturnExcess(s, s', t) { ReturnExcessKept(s, s', t); }
  }

  lemma EnterWorkKept(s: Sys, s': Sys, t: nat)
    requires EnterWork(s, s', t)
    ensures Kept(s.st, s'.st)
  {
  }

  lemma ScanWorkKept(s: Sys, s': Sys, t: nat)
    requires ScanWork(s, s', t)
    ensures Kept(s.st, s'.st)
  {
  }

  lemma ReleaseTurnKept(s: Sys, s': Sys, t: nat)
    requires ReleaseTurn(s, s', t)
    ensures Kept(s.st, s'.st)
  {
    var q := Of(s.st, Batch(t));
    if q != [] {
      var k := Min(|q|, MAX_BATCH);
      MoveKept(s.st, Batch(t), Ptrs(t), q[..k], q[k..], Of(s.st, Ptrs(t)) + q[..k]);
    }
  }

  lemma RPushOneKept(s: Sys, s': Sys, t: nat)
    requires RPushOne(s, s', t)
    ensures Kept(s.st, s'.st)
  {
    var q := Of(s.st, Ptrs(t));
    var b := Transfer(s.threads[t].pc.c);
    MoveKept(s.st, Ptrs(t), b, q[..1], q[1..], Of(s.st, b) + q[..1]);
  }

  lemma StoreWorkKept(s: Sys, s': Sys, t: nat)
    requires StoreWork(s, s', t)
    ensures Kept(s.st, s'.st)
  {
    if ReleaseTurn(s, s', t) { ReleaseTurnKept(s, s', t); }
    else if RPushOne(s, s', t) { RPushOneKept(s, s', t); }
  }

  lemma FreeOneKept(s: Sys, s': Sys, t: nat)
    requires FreeOne(s, s', t)
    ensures Kept(s.st, s'.st)
  {
    PutKept(s.st, Ptrs(t));
  }

  lemma FreeWorkKept(s: Sys, s': Sys, t: nat)
    requires FreeWork(s, s', t) && !DropEmpty(s, s', t)
    ensures Kept(s.st, s'.st)
  {
    if FreeOne(s, s', t) { FreeOneKept(s, s', t); }
  }

  lemma DrainClassKept(s: Sys, s': Sys, t: nat)
    requires DrainClass(s, s', t)
    ensures Kept(s.st, s'.st)
  {
    if s.threads[t].pc.i > 0 { EnterKept(s.st, t, s.threads[t].pc.i - 1); }
  }

  lemma DrainColdKept(s: Sys, s': Sys, t: nat)
    requires DrainCold(s, s', t)
    ensures Kept(s.st, s'.st)
  {
    var q := Of(s.st, Transfer(s.threads[t].pc.c));
    MoveKept(s.st, Transfer(s.threads[t].pc.c), Scratch(t), q[..1], q[1..], Of(s.st, Scratch(t)) + q[..1]);
  }

  lemma DrainReleaseKept(s: Sys, s': Sys, t: nat)
    requires DrainRelease(s, s', t)
    ensures Kept(s.st, s'.st)
  {
    var q := Of(s.st, Scratch(t));
    MoveKept(s.st, Scratch(t), Batch(t), q, [], Reversed(q));
  }

  lemma DrainWorkKept(s: Sys, s': Sys, t: nat)
    requires DrainWork(s, s', t)
    ensures Kept(s.st, s'.st)
  {
    if DrainClass(s, s', t) { DrainClassKept(s, s', t); }
    else if DrainCold(s, s', t) { DrainColdKept(s, s', t); }
    else if DrainRelease(s, s', t) { DrainReleaseKept(s, s', t); }
  }

  /** Going on with a call leaves the user's blocks and the carved spans alone,
      except where a span goes back to PageCache. */
  lemma WorksKept(s: Sys, s': Sys, t: nat)
    requires Works(s, s', t) && !DropEmpty(s, s', t)
    ensures Kept(s.st, s'.st)
  {
    if PopWork(s, s', t) { PopWorkKept(s, s', t); }
    else if PushWork(s, s', t) { PushWorkKept(s, s', t); }
    else if EnterWork(s, s', t) { EnterWorkKept(s, s', t); }
    else if ScanWork(s, s', t) { ScanWorkKept(s, s', t); }
    else if StoreWork(s, s', t) { StoreWorkKept(s, s', t); }
    else if FreeWork(s, s', t) { FreeWorkKept(s, s', t); }
    else { DrainWorkKept(s, s', t); }
  }

  lemma TakeObjectKept(s: Sys, s': Sys, t: nat, slot: nat)
    requires TakeObject(s, s', t, slot)
    ensures Kept(s.st, s'.st)
  {
    var pc, id := s.threads[t].pc, s.lists[s.threads[t].pc.c][0];
    var b := if pc.k < pc.need then Chain(t) else Scratch(t);
    TakeKept(s.st, id, slot, b, if pc.k < pc.need then [Obj(id, slot)] + Of(s.st, b)
             else Of(s.st, b) + [Obj(id, slot)]);
  }

  lemma StartReleaseKept(s: Sys, s': Sys, t: nat, c: nat, k: nat, mode: Mode)
    requires StartRelease(s, s', t, c, k, mode)
    ensures Kept(s.st, s'.st)
  {
    var m := Enter(s.st, t, c);
    var q := Of(m, Local(t, c));
    var j := |q| - k;
    EnterKept(s.st, t, c);
    MoveKept(m, Local(t, c), Batch(t), q[j..], q[..j], Of(m, Batch(t)) + q[j..]);
    assert s'.st == Move(m, Local(t, c), Batch(t), q[j..], q[..j], Of(m, Batch(t)) + q[j..]);
    KeptTwice(s.st, m, s'.st);
  }

  lemma KeptTwice(st: Store, m: Store, st': Store)
    requires Kept(st, m) && Kept(m, st')
    ensures Kept(st, st')
  {}

  /** The actions that neither serve nor take back a block, nor move a span to or
      from PageCache. */
  predicate Internal(a: Action) { a.CallFetch? || a.CallRelease? || a.CallDrain? || a.GiveSlot? || a.Continue? }

  lemma InternalKept(s: Sys, s': Sys, t: nat, a: Action)
    requires Internal(a) && Do(s, s', t, a) && !(a.Continue? && DropEmpty(s, s', t))
    ensures Kept(s.st, s'.st)
  {
    match a
    case CallFetch(c, n) => EnterKept(s.st, t, c);
    case CallRelease(c, k, mode) => StartReleaseKept(s, s', t, c, k, mode);
    case CallDrain(bytes) =>
    case GiveSlot(slot) => TakeObjectKept(s, s', t, slot);
    case Continue => WorksKept(s, s', t);
  }

  // ---- the user's blocks

  lemma MallocGives(s: Sys, s': Sys, t: nat, c: nat)
    requires Malloc(s, s', t, c)
    ensures SameSpans(s.st, s'.st) && Of(s'.st, User(c)) == Of(s.st, User(c)) + [Of(s.st, Local(t, c))[0]]
    ensures forall d: nat {:trigger Of(s'.st, User(d))} :: d != c ==> Of(s'.st, User(d)) == Of(s.st, User(d))
  {
    assert Of(s.st, Local(t, c))[..1] == [Of(s.st, Local(t, c))[0]];
  }

  ghost predicate Gone(st: Store, st': Store, c: nat, i: nat)
  {
    && SameSpans(st, st') && i < |Of(st, User(c))|
    && Of(st', User(c)) == Of(st, User(c))[..i] + Of(st, User(c))[i + 1..]
    && (forall d: nat {:trigger Of(st', User(d))} :: d != c ==> Of(st', User(d)) == Of(st, User(d)))
  }

  lemma UserFreeTakes(s: Sys, s': Sys, t: nat, c: nat, i: nat)
    requires UserFree(s, s', t, c, i)
    ensures Gone(s.st, s'.st, c, i)
  {}

  lemma StartSingleTakes(s: Sys, s': Sys, t: nat, c: nat, i: nat)
    requires StartSingle(s, s', t, c, i)
    ensures Gone(s.st, s'.st, c, i)
  {}
}
