/** No CentralCache call gets stuck. */
module CentralProgress {
  import opened Config
  import opened Lists
  import opened CentralStore
  import opened CentralCache
  import opened CentralInvariant
  import opened SizeClass

  ghost predicate CanMove(s: Sys, t: nat) { exists s': Sys, a: Action :: Do(s, s', t, a) }

  predicate Holds(pc: Pc) { HeldT(pc).Some? || HeldS(pc).Some? }

  lemma Moves(s: Sys, s': Sys, t: nat, a: Action)
    requires Do(s, s', t, a)
    ensures CanMove(s, t)
  {}

  // ---- inside a transfer lock

  lemma PopMoves(s: Sys, t: nat)
    requires At(s, t) && PcOk(s.st, t, s.threads[t].pc) && s.threads[t].pc.Pop?
    ensures CanMove(s, t)
  {
    var pc := s.threads[t].pc;
    if |Of(s.st, Scratch(t))| < pc.grab {
      var s' := Goto(s, t, pc).(st := ShiftLast(s.st, Transfer(pc.c), Scratch(t), 1));
      assert PopHot(s, s', t);
      Moves(s, s', t, Continue);
    } else {
      var s' := Goto(s, t, Link(pc.c, pc.n));
      assert PopDone(s, s', t);
      Moves(s, s', t, Continue);
    }
  }

  lemma PushMoves(s: Sys, t: nat)
    requires At(s, t) && PcOk(s.st, t, s.threads[t].pc) && s.threads[t].pc.Push?
    ensures CanMove(s, t)
  {
    var pc := s.threads[t].pc;
    if Of(s.st, Scratch(t)) != [] && |Of(s.st, Transfer(pc.c))| < s.caps[pc.c] {
      var s' := Goto(s, t, pc).(st := Shift(s.st, Scratch(t), Transfer(pc.c), 1));
      assert PushOne(s, s', t);
      Moves(s, s', t, Continue);
    } else {
      var s' := Goto(s, t, if Of(s.st, Scratch(t)) == [] then Fetched(pc.c, pc.n, pc.short)
                     else Leftover(pc.c, pc.n, pc.short));
      assert PushDone(s, s', t);
      Moves(s, s', t, Continue);
    }
  }

  lemma RPushMoves(s: Sys, t: nat)
    requires At(s, t) && PcOk(s.st, t, s.threads[t].pc) && s.threads[t].pc.RPush?
    ensures CanMove(s, t)
  {
    var pc := s.threads[t].pc;
    if Of(s.st, Ptrs(t)) != [] && |Of(s.st, Transfer(pc.c))| < s.caps[pc.c] {
      var s' := Goto(s, t, pc).(st := Shift(s.st, Ptrs(t), Transfer(pc.c), 1));
      assert RPushOne(s, s', t);
      Moves(s, s', t, Continue);
    } else {
      var s' := Goto(s, t, if Of(s.st, Ptrs(t)) == [] then Release(pc.c, ToTransfer, pc.ret)
                           else RSpans(pc.c, ToTransfer, pc.ret));
      assert RPushDone(s, s', t);
      Moves(s, s', t, Continue);
    }
  }

  lemma DTakeMoves(s: Sys, t: nat)
    requires At(s, t) && PcOk(s.st, t, s.threads[t].pc) && s.threads[t].pc.DTake?
    ensures CanMove(s, t)
  {
    var pc := s.threads[t].pc;
    if |Of(s.st, Scratch(t))| < pc.d {
      var s' := Goto(s, t, pc).(st := Shift(s.st, Transfer(pc.c), Scratch(t), 1));
      assert DrainCold(s, s', t);
      Moves(s, s', t, Continue);
    } else {
      var s' := Goto(s, t, Release(pc.c, ToBitmap, ToDrain(pc.rem, pc.d, pc.b)))
                .(st := Relink(s.st, Scratch(t), Batch(t)));
      assert DrainRelease(s, s', t);
      Moves(s, s', t, Continue);
    }
  }

  // ---- inside a span-list lock

  lemma ScanMoves(s: Sys, t: nat)
    requires At(s, t) && PcOk(s.st, t, s.threads[t].pc) && s.threads[t].pc.Scan?
    ensures CanMove(s, t)
  {
    var pc := s.threads[t].pc;
    var q := s.lists[pc.c];
    var s' := Goto(s, t, if pc.k >= pc.need + pc.n then Leave(pc.c, pc.n, false)
                         else if q == [] || Full(s.st.spans, q[0]) then Ask(pc.c, pc.n, pc.need, pc.k)
                         else Take(pc.c, pc.n, pc.need, pc.k, false));
    assert ScanNext(s, s', t);
    Moves(s, s', t, Continue);
  }

  /** A span that is not full has a slot to give. */
  lemma SlotExists(st: Store, id: nat) returns (slot: nat)
    requires StoreInv(st) && id in st.spans && !Full(st.spans, id)
    ensures slot in st.spans[id].free
  {
    assert st.spans[id].free != {};
    slot :| slot in st.spans[id].free;
  }

  /** At the front of the list under extraction there is a carved span. */
  lemma FrontIs(s: Sys, t: nat)
    requires Inv(s) && At(s, t) && (s.threads[t].pc.Take? || s.threads[t].pc.After?)
    ensures var q := s.lists[s.threads[t].pc.c]; q != [] && q[0] in s.st.spans
  {
    var pc := s.threads[t].pc;
    assert s.slock[pc.c] == Some(t) && ListOk(s.st.spans, s.lists[pc.c], PhaseOf(pc));
    assert s.lists[pc.c][0] in s.lists[pc.c];
  }

  lemma TakeMoves(s: Sys, t: nat)
    requires At(s, t) && PcOk(s.st, t, s.threads[t].pc) && s.threads[t].pc.Take? && StoreInv(s.st)
    requires var q := s.lists[s.threads[t].pc.c]; q != [] && q[0] in s.st.spans
    ensures CanMove(s, t)
  {
    var pc := s.threads[t].pc;
    var q := s.lists[pc.c];
    if pc.k >= pc.need + pc.n {
      var s' := Goto(s, t, After(pc.c, pc.n, pc.need, pc.k));
      assert TakeEnough(s, s', t);
      Moves(s, s', t, Continue);
    } else if Full(s.st.spans, q[0]) {
      var s' := Goto(s, t, After(pc.c, pc.n, pc.need, pc.k)).(lists := s.lists[pc.c := Rotated(q)]);
      assert TakeNull(s, s', t);
      Moves(s, s', t, Continue);
    } else {
      var slot := SlotExists(s.st, q[0]);
      TakeGives(s, t, slot);
    }
  }

  lemma TakeGives(s: Sys, t: nat, slot: nat)
    requires At(s, t) && s.threads[t].pc.Take? && s.threads[t].pc.c < NUM_CLASSES
    requires var pc := s.threads[t].pc;
             pc.k < pc.need + pc.n && s.lists[pc.c] != [] && s.lists[pc.c][0] in s.st.spans
             && slot in s.st.spans[s.lists[pc.c][0]].free
    ensures CanMove(s, t)
  {
    var pc := s.threads[t].pc;
    var id := s.lists[pc.c][0];
    var b := if pc.k < pc.need then Chain(t) else Scratch(t);
    var b' := if pc.k < pc.need then [Obj(id, slot)] + Of(s.st, b) else Of(s.st, b) + [Obj(id, slot)];
    var s' := Goto(s, t, Take(pc.c, pc.n, pc.need, pc.k + 1, true)).(st := TakeBit(s.st, id, slot, b, b'));
    assert TakeObject(s, s', t, slot);
    Moves(s, s', t, GiveSlot(slot));
  }

  lemma AfterMoves(s: Sys, t: nat)
    requires At(s, t) && PcOk(s.st, t, s.threads[t].pc) && s.threads[t].pc.After? && s.lists[s.threads[t].pc.c] != []
    ensures CanMove(s, t)
  {
    var pc := s.threads[t].pc;
    var q := s.lists[pc.c];
    var s' := Goto(s, t, Scan(pc.c, pc.n, pc.need, pc.k))
              .(lists := if Full(s.st.spans, q[0]) then s.lists[pc.c := Rotated(q)] else s.lists);
    assert AfterTurn(s, s', t);
    Moves(s, s', t, Continue);
  }

  lemma LeaveMoves(s: Sys, t: nat)
    requires At(s, t) && PcOk(s.st, t, s.threads[t].pc) && s.threads[t].pc.Leave?
    ensures CanMove(s, t)
  {
    var pc := s.threads[t].pc;
    var s' := Goto(s, t, if Of(s.st, Scratch(t)) == [] then Fetched(pc.c, pc.n, pc.short)
                   else Publish(pc.c, pc.n, pc.short));
    assert LeaveSpans(s, s', t);
    Moves(s, s', t, Continue);
  }

  lemma FreeMoves(s: Sys, t: nat)
    requires At(s, t) && PcOk(s.st, t, s.threads[t].pc) && s.threads[t].pc.Free? && StoreInv(s.st)
    ensures CanMove(s, t)
  {
    var pc := s.threads[t].pc;
    if Of(s.st, Ptrs(t)) == [] {
      var s' := Goto(s, t, Empties(pc.c, pc.mode, pc.ret));
      assert FreeDone(s, s', t);
      Moves(s, s', t, Continue);
    } else {
      PutBitReady(s.st, Ptrs(t));
      FreeGives(s, t);
    }
  }

  lemma FreeGives(s: Sys, t: nat)
    requires At(s, t) && s.threads[t].pc.Free? && s.threads[t].pc.c < NUM_CLASSES && Of(s.st, Ptrs(t)) != []
    requires var o := Of(s.st, Ptrs(t))[0]; o.span in s.st.spans && s.st.spans[o.span].used > 0
    ensures CanMove(s, t)
  {
    var pc, o := s.threads[t].pc, Of(s.st, Ptrs(t))[0];
    var st' := PutBit(s.st, Ptrs(t));
    var rest := Erase(s.lists[pc.c], o.span);
    var used := s.st.spans[o.span].used - 1;
    var s' := if used == 0 then s.(st := st', lists := s.lists[pc.c := rest], home := s.home[o.span := Emptied(t)],
                                   threads := s.threads[t := Thread(pc, [o.span] + s.threads[t].empties)])
              else if used + 1 == s.st.spans[o.span].cap then s.(st := st', lists := s.lists[pc.c := [o.span] + rest])
              else s.(st := st');
    assert FreeOne(s, s', t);
    Moves(s, s', t, Continue);
  }

  /** A thread inside a critical section can always take its next step. */
  lemma HolderMoves(s: Sys, t: nat)
    requires Inv(s) && At(s, t) && Holds(s.threads[t].pc)
    ensures CanMove(s, t)
  {
    var pc := s.threads[t].pc;
    assert PcOk(s.st, t, pc);
    if pc.Pop? { PopMoves(s, t); }
    else if pc.Push? { PushMoves(s, t); }
    else if pc.RPush? { RPushMoves(s, t); }
    else if pc.DTake? { DTakeMoves(s, t); }
    else if pc.Scan? { ScanMoves(s, t); }
    else if pc.Leave? { LeaveMoves(s, t); }
    else if pc.Free? { FreeMoves(s, t); }
    else {
      FrontIs(s, t);
      if pc.Take? { TakeMoves(s, t); } else { AfterMoves(s, t); }
    }
  }

  // ---- outside the locks

  /** The lock thread t is about to take. */
  predicate WaitsT(pc: Pc) { pc.Probe? || pc.Publish? || pc.RLock? || pc.DSnap? || (pc.DLoop? && pc.rem > 0) }

  predicate WaitsS(pc: Pc) { pc.WantSpans? || pc.Relock? || pc.RSpans? }

  lemma LockTMoves(s: Sys, t: nat)
    requires At(s, t) && PcOk(s.st, t, s.threads[t].pc) && WaitsT(s.threads[t].pc) && s.tlock[s.threads[t].pc.c].None?
    ensures CanMove(s, t)
  {
    var pc := s.threads[t].pc;
    var size := |Of(s.st, Transfer(pc.c))|;
    if pc.Probe? {
      var s' := Goto(s, t, Pop(pc.c, pc.n, Min(pc.n, size)));
      assert ProbeLock(s, s', t);
      Moves(s, s', t, Continue);
    } else if pc.Publish? {
      var s' := Goto(s, t, Push(pc.c, pc.n, pc.short));
      assert PublishLock(s, s', t);
      Moves(s, s', t, Continue);
    } else if pc.RLock? {
      var s' := Goto(s, t, RPush(pc.c, pc.ret));
      assert RLockStep(s, s', t);
      Moves(s, s', t, Continue);
    } else {
      DrainLockMoves(s, t);
    }
  }

  lemma DrainLockMoves(s: Sys, t: nat)
    requires At(s, t) && (s.threads[t].pc.DSnap? || s.threads[t].pc.DLoop?) && s.threads[t].pc.c < NUM_CLASSES
    requires s.tlock[s.threads[t].pc.c].None?
    ensures CanMove(s, t)
  {
    var pc := s.threads[t].pc;
    var size := |Of(s.st, Transfer(pc.c))|;
    if pc.DSnap? {
      var s' := Goto(s, t, DLoop(pc.c, SnapshotCount(pc.c, size, pc.b), pc.b));
      assert DrainSnapshot(s, s', t);
      Moves(s, s', t, Continue);
    } else {
      var d := Min(Min(MAX_BATCH, pc.rem), size);
      var s' := Goto(s, t, if pc.rem == 0 || d == 0 then DClass(pc.c, pc.b) else DTake(pc.c, pc.rem, d, pc.b));
      assert DrainLock(s, s', t);
      Moves(s, s', t, Continue);
    }
  }

  lemma LockSMoves(s: Sys, t: nat)
    requires At(s, t) && PcOk(s.st, t, s.threads[t].pc) && WaitsS(s.threads[t].pc) && s.slock[s.threads[t].pc.c].None?
    ensures CanMove(s, t)
  {
    var pc := s.threads[t].pc;
    if pc.WantSpans? {
      var s' := Goto(s, t, Scan(pc.c, pc.n, pc.need, 0));
      assert LockSpans(s, s', t);
      Moves(s, s', t, Continue);
    } else if pc.RSpans? {
      var s' := Goto(s, t, Free(pc.c, pc.mode, pc.ret));
      assert RSpansLock(s, s', t);
      Moves(s, s', t, Continue);
    } else if pc.got.None? {
      var s' := Goto(s, t, Leave(pc.c, pc.n, true));
      assert RelockNone(s, s', t);
      Moves(s, s', t, Continue);
    } else {
      var s' := Goto(s, t, Take(pc.c, pc.n, pc.need, pc.k, false))
                .(lists := s.lists[pc.c := [pc.got.value] + s.lists[pc.c]], home := s.home[pc.got.value := Listed]);
      assert RelockGot(s, s', t);
      Moves(s, s', t, Continue);
    }
  }

  lemma FreeRunning(s: Sys, t: nat)
    requires At(s, t) && PcOk(s.st, t, s.threads[t].pc)
    requires var pc := s.threads[t].pc; !pc.Idle? && !Holds(pc) && !WaitsT(pc) && !WaitsS(pc)
    ensures CanMove(s, t)
  {
    var pc := s.threads[t].pc;
    if pc.Link? {
      var got := |Of(s.st, Scratch(t))|;
      var s' := Goto(s, t, if got < pc.n then WantSpans(pc.c, pc.n, pc.n - got) else Fetched(pc.c, pc.n, false))
                .(st := Shift(s.st, Scratch(t), Chain(t), got));
      assert LinkAll(s, s', t);
      Moves(s, s', t, Continue);
    } else if pc.Ask? {
      var s' := Goto(s, t, Relock(pc.c, pc.n, pc.need, pc.k, None));
      assert AskNone(s, s', t);
      Moves(s, s', t, Continue);
    } else if pc.Leftover? {
      var s' := Goto(s, t, Release(pc.c, ToTransfer, ToFetch(pc.n, pc.short)))
                .(st := Relink(s.st, Scratch(t), Batch(t)));
      assert ReturnExcess(s, s', t);
      Moves(s, s', t, Continue);
    } else if pc.Fetched? {
      var s' := Goto(s, t, Idle).(st := Prepend(s.st, Chain(t), Local(t, pc.c)));
      assert Accept(s, s', t);
      Moves(s, s', t, Continue);
    } else {
      FreeRunningRelease(s, t);
    }
  }

  lemma FreeRunningRelease(s: Sys, t: nat)
    requires At(s, t)
    requires var pc := s.threads[t].pc;
             || pc.Release? || pc.Empties? || pc.DClass?
             || (pc.DLoop? && pc.rem == 0 && pc.c < NUM_CLASSES)
    ensures CanMove(s, t)
  {
    var pc := s.threads[t].pc;
    if pc.Release? {
      var q := Of(s.st, Batch(t));
      var s' := if q == [] then Goto(s, t, AfterRelease(pc.c, pc.ret))
                else Goto(s, t, if pc.mode.ToTransfer? then RLock(pc.c, pc.ret) else RSpans(pc.c, pc.mode, pc.ret))
                     .(st := Shift(s.st, Batch(t), Ptrs(t), Min(|q|, MAX_BATCH)));
      assert ReleaseTurn(s, s', t);
      Moves(s, s', t, Continue);
    } else if pc.Empties? {
      EmptiesMoves(s, t);
    } else {
      DrainMoves(s, t);
    }
  }

  lemma EmptiesMoves(s: Sys, t: nat)
    requires At(s, t) && s.threads[t].pc.Empties?
    ensures CanMove(s, t)
  {
    var pc, e := s.threads[t].pc, s.threads[t].empties;
    if e == [] {
      var s' := Goto(s, t, Release(pc.c, pc.mode, pc.ret));
      assert EmptiesDone(s, s', t);
      Moves(s, s', t, Continue);
    } else {
      var s' := s.(st := DropSpan(s.st, e[0]), home := s.home - {e[0]}, threads := s.threads[t := Thread(pc, e[1..])]);
      assert DropEmpty(s, s', t);
      Moves(s, s', t, Continue);
    }
  }

  lemma DrainMoves(s: Sys, t: nat)
    requires At(s, t)
    requires var pc := s.threads[t].pc; pc.DClass? || (pc.DLoop? && pc.rem == 0 && pc.c < NUM_CLASSES)
    ensures CanMove(s, t)
  {
    var pc := s.threads[t].pc;
    if pc.DLoop? {
      var s' := Goto(s, t, DClass(pc.c, pc.b));
      assert DrainLock(s, s', t);
      Moves(s, s', t, Continue);
    } else {
      var s' := if pc.i == 0 then Goto(s, t, Idle)
                else if !pc.b.unbounded && pc.b.left < CalculateSize(pc.i - 1) then Goto(s, t, DClass(pc.i - 1, pc.b))
                else Goto(s, t, DSnap(pc.i - 1, pc.b)).(st := Enter(s.st, t, pc.i - 1));
      assert DrainClass(s, s', t);
      Moves(s, s', t, Continue);
    }
  }

  ghost predicate WaitsFor(s: Sys, t: nat, u: nat)
    requires At(s, t)
  {
    var pc := s.threads[t].pc;
    && u < |s.threads| && Holds(s.threads[u].pc)
    && ((WaitsT(pc) && pc.c < NUM_CLASSES && s.tlock[pc.c] == Some(u))
        || (WaitsS(pc) && pc.c < NUM_CLASSES && s.slock[pc.c] == Some(u)))
  }

  /** In every reachable state a thread inside a call can take its next step, or
      waits for a lock whose holder can: no guard of the model is ever in the way,
      no loop runs out of objects it counts on, and nothing deadlocks. */
  lemma NeverStuck(r: seq<Sys>, i: nat, t: nat)
    requires Run(r) && i < |r| && t < |r[i].threads| && !r[i].threads[t].pc.Idle?
    ensures At(r[i], t)
    ensures CanMove(r[i], t) || exists u: nat :: WaitsFor(r[i], t, u) && CanMove(r[i], u)
  {
    RunInv(r, i);
    MoveOrWait(r[i], t);
  }

  lemma MoveOrWait(s: Sys, t: nat)
    requires Inv(s) && At(s, t) && !s.threads[t].pc.Idle?
    ensures CanMove(s, t) || exists u: nat :: WaitsFor(s, t, u) && CanMove(s, u)
  {
    var pc := s.threads[t].pc;
    assert PcOk(s.st, t, pc);
    if Holds(pc) {
      HolderMoves(s, t);
    } else if WaitsT(pc) {
      if s.tlock[pc.c].None? { LockTMoves(s, t); } else { HolderMoves(s, s.tlock[pc.c].value); }
    } else if WaitsS(pc) {
      if s.slock[pc.c].None? { LockSMoves(s, t); } else { HolderMoves(s, s.slock[pc.c].value); }
    } else {
      FreeRunning(s, t);
    }
  }
}
