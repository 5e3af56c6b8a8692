/** Every CentralCache call ends: each step of a thread inside a call descends on
    a lexicographic measure of that thread alone. */
module CentralMeasure {
  import opened Config
  import opened CentralStore
  import opened CentralCache
  import opened CentralInvariant
  import opened CentralRuns
  import opened CentralDrain
  import opened SizeClass

  /** Most significant first: the class a drain is at and what it has left there;
      the stage of the call; and inside a stage what its loops count down. In
      `FetchBatch` that is `extract_target - extracted`. */
  datatype Rank = Rank(cls: nat, rem: nat, stage: nat, work: nat, turn: nat, left: nat)

  predicate Below(a: Rank, b: Rank)
  {
    a.cls < b.cls || (a.cls == b.cls &&
    (a.rem < b.rem || (a.rem == b.rem &&
    (a.stage < b.stage || (a.stage == b.stage &&
    (a.work < b.work || (a.work == b.work &&
    (a.turn < b.turn || (a.turn == b.turn && a.left < b.left)))))))))
  }

  function ReleaseTurnOf(pc: Pc): nat
  {
    if pc.RLock? then 6 else if pc.RPush? then 5 else if pc.RSpans? then 4 else if pc.Free? then 3
    else if pc.Empties? then 2 else 1
  }

  function ReleaseLeft(pc: Pc, z: Sizes, empties: nat): nat
  {
    if pc.Empties? then empties else z.ptrs
  }

  function ScanTurnOf(pc: Pc): nat
  {
    if pc.Take? then (if pc.took then 6 else 1) else if pc.After? then 5 else if pc.Scan? then 4
    else if pc.Ask? then 3 else 2
  }

  function FetchStage(pc: Pc): nat
  {
    if pc.Probe? then 20 else if pc.Pop? then 19 else if pc.Link? then 18 else if pc.WantSpans? then 17
    else if pc.Leave? then 15 else if pc.Publish? then 14 else if pc.Push? then 13 else if pc.Leftover? then 12
    else if pc.Fetched? then 10 else 0
  }

  function RankOf(pc: Pc, z: Sizes, empties: nat): Rank
  {
    if Scanning(pc) then Rank(0, 0, 16, if pc.k < pc.need + pc.n then pc.need + pc.n - pc.k else 0, ScanTurnOf(pc), 0)
    else if Releasing(pc) then
      match pc.ret
      case ToIdle => Rank(0, 0, 1, z.batch, ReleaseTurnOf(pc), ReleaseLeft(pc, z, empties))
      case ToFetch(n, short) => Rank(0, 0, 11, z.batch, ReleaseTurnOf(pc), ReleaseLeft(pc, z, empties))
      case ToDrain(rem, d, b) => Rank(2 * pc.c + 1, rem, 1, z.batch, ReleaseTurnOf(pc), ReleaseLeft(pc, z, empties))
    else if pc.DClass? then Rank(2 * pc.i, 0, 1, 0, 0, 0)
    else if pc.DSnap? then Rank(2 * pc.c + 2, 0, 0, 0, 0, 0)
    else if pc.DLoop? then Rank(2 * pc.c + 1, pc.rem, 3, 0, 0, 0)
    else if pc.DTake? then Rank(2 * pc.c + 1, pc.rem, 2, 0, 0, if z.scratch < pc.d then pc.d - z.scratch else 0)
    else if pc.Pop? then Rank(0, 0, 19, 0, 0, if z.scratch < pc.grab then pc.grab - z.scratch else 0)
    else Rank(0, 0, FetchStage(pc), 0, 0, if pc.Push? then z.scratch else 0)
  }

  function RankAt(s: Sys, t: nat): Rank
    requires t < |s.threads|
  {
    RankOf(s.threads[t].pc, SizesOf(s.st, t), |s.threads[t].empties|)
  }

  ghost predicate Drops(s: Sys, s': Sys, t: nat)
  {
    t < |s.threads| && t < |s'.threads| && Below(RankAt(s', t), RankAt(s, t))
  }

  ghost predicate Fine(s: Sys, t: nat) { At(s, t) && PcOk(s.st, t, s.threads[t].pc) && DrainOk(s.threads[t].pc) }

  /** A null from `AllocObject` ends a turn that has extracted something. */
  ghost predicate FrontOpen(s: Sys, t: nat)
  {
    At(s, t) && s.threads[t].pc.Take? && s.threads[t].pc.c < NUM_CLASSES && !s.threads[t].pc.took ==>
      var q := s.lists[s.threads[t].pc.c]; q != [] && !Full(s.st.spans, q[0])
  }

  // ---- one lemma for each step

  lemma ProbeLockDrops(s: Sys, s': Sys, t: nat)
    requires Fine(s, t) && ProbeLock(s, s', t)
    ensures Drops(s, s', t)
  {}

  lemma PopHotDrops(s: Sys, s': Sys, t: nat)
    requires Fine(s, t) && PopHot(s, s', t)
    ensures Drops(s, s', t)
  {
    var a, b := Transfer(s.threads[t].pc.c), Scratch(t);
    var j := |Of(s.st, a)| - 1;
    ShiftLastIs(s.st, a, b, 1, j);
    MovedSizes(s.st, s'.st, t, a, b, Of(s.st, a)[..j], Of(s.st, b) + Of(s.st, a)[j..]);
  }

  lemma PopDoneDrops(s: Sys, s': Sys, t: nat)
    requires Fine(s, t) && PopDone(s, s', t)
    ensures Drops(s, s', t)
  {}

  lemma LinkAllDrops(s: Sys, s': Sys, t: nat)
    requires Fine(s, t) && LinkAll(s, s', t)
    ensures Drops(s, s', t)
  {}

  lemma AcceptDrops(s: Sys, s': Sys, t: nat)
    requires Fine(s, t) && Accept(s, s', t)
    ensures Drops(s, s', t)
  {}

  lemma PublishLockDrops(s: Sys, s': Sys, t: nat)
    requires Fine(s, t) && PublishLock(s, s', t)
    ensures Drops(s, s', t)
  {}

  lemma PushOneDrops(s: Sys, s': Sys, t: nat)
    requires Fine(s, t) && PushOne(s, s', t)
    ensures Drops(s, s', t)
  {
    var a, b := Scratch(t), Transfer(s.threads[t].pc.c);
    ShiftIs(s.st, a, b, 1);
    MovedSizes(s.st, s'.st, t, a, b, Of(s.st, a)[1..], Of(s.st, b) + Of(s.st, a)[..1]);
  }

  lemma PushDoneDrops(s: Sys, s': Sys, t: nat)
    requires Fine(s, t) && PushDone(s, s', t)
    ensures Drops(s, s', t)
  {}

  lemma ReturnExcessDrops(s: Sys, s': Sys, t: nat)
    requires Fine(s, t) && ReturnExcess(s, s', t)
    ensures Drops(s, s', t)
  {}

  lemma LockSpansDrops(s: Sys, s': Sys, t: nat)
    requires Fine(s, t) && LockSpans(s, s', t)
    ensures Drops(s, s', t)
  {}

  lemma RelockGotDrops(s: Sys, s': Sys, t: nat)
    requires Fine(s, t) && RelockGot(s, s', t)
    ensures Drops(s, s', t)
  {}

  lemma RelockNoneDrops(s: Sys, s': Sys, t: nat)
    requires Fine(s, t) && RelockNone(s, s', t)
    ensures Drops(s, s', t)
  {}

  lemma LeaveSpansDrops(s: Sys, s': Sys, t: nat)
    requires Fine(s, t) && LeaveSpans(s, s', t)
    ensures Drops(s, s', t)
  {}

  lemma ScanNextDrops(s: Sys, s': Sys, t: nat)
    requires Fine(s, t) && ScanNext(s, s', t)
    ensures Drops(s, s', t)
  {}

  lemma TakeNullDrops(s: Sys, s': Sys, t: nat)
    requires Fine(s, t) && FrontOpen(s, t) && TakeNull(s, s', t)
    ensures Drops(s, s', t)
  {}

  lemma TakeEnoughDrops(s: Sys, s': Sys, t: nat)
    requires Fine(s, t) && TakeEnough(s, s', t)
    ensures Drops(s, s', t)
  {}

  lemma AfterTurnDrops(s: Sys, s': Sys, t: nat)
    requires Fine(s, t) && AfterTurn(s, s', t)
    ensures Drops(s, s', t)
  {}

  lemma AskNoneDrops(s: Sys, s': Sys, t: nat)
    requires Fine(s, t) && AskNone(s, s', t)
    ensures Drops(s, s', t)
  {}

  lemma ReleaseTurnDrops(s: Sys, s': Sys, t: nat)
    requires Fine(s, t) && ReleaseTurn(s, s', t)
    ensures Drops(s, s', t)
  {
    if Of(s.st, Batch(t)) == [] { ReturnDrops(s, s', t); } else { BatchDrops(s, s', t); }
  }

  lemma ReturnDrops(s: Sys, s': Sys, t: nat)
    requires Fine(s, t) && ReleaseTurn(s, s', t) && Of(s.st, Batch(t)) == []
    ensures Drops(s, s', t)
  {}

  lemma BatchDrops(s: Sys, s': Sys, t: nat)
    requires Fine(s, t) && ReleaseTurn(s, s', t) && Of(s.st, Batch(t)) != []
    ensures Drops(s, s', t)
  {
    var q := Of(s.st, Batch(t));
    var k := Min(|q|, MAX_BATCH);
    ShiftIs(s.st, Batch(t), Ptrs(t), k);
    MovedSizes(s.st, s'.st, t, Batch(t), Ptrs(t), q[k..], Of(s.st, Ptrs(t)) + q[..k]);
  }

  lemma RLockStepDrops(s: Sys, s': Sys, t: nat)
    requires Fine(s, t) && RLockStep(s, s', t)
    ensures Drops(s, s', t)
  {}

  lemma RPushOneDrops(s: Sys, s': Sys, t: nat)
    requires Fine(s, t) && RPushOne(s, s', t)
    ensures Drops(s, s', t)
  {
    var a, b := Ptrs(t), Transfer(s.threads[t].pc.c);
    ShiftIs(s.st, a, b, 1);
    MovedSizes(s.st, s'.st, t, a, b, Of(s.st, a)[1..], Of(s.st, b) + Of(s.st, a)[..1]);
  }

  lemma RPushDoneDrops(s: Sys, s': Sys, t: nat)
    requires Fine(s, t) && RPushDone(s, s', t)
    ensures Drops(s, s', t)
  {}

  lemma RSpansLockDrops(s: Sys, s': Sys, t: nat)
    requires Fine(s, t) && RSpansLock(s, s', t)
    ensures Drops(s, s', t)
  {}

  lemma FreeOneDrops(s: Sys, s': Sys, t: nat)
    requires Fine(s, t) && FreeOne(s, s', t)
    ensures Drops(s, s', t)
  {
    PutBitIs(s.st, Ptrs(t));
    assert SizesOf(s'.st, t) == SizesOf(s.st, t).(ptrs := |Of(s.st, Ptrs(t))| - 1);
  }

  lemma FreeDoneDrops(s: Sys, s': Sys, t: nat)
    requires Fine(s, t) && FreeDone(s, s', t)
    ensures Drops(s, s', t)
  {}

  lemma DropEmptyDrops(s: Sys, s': Sys, t: nat)
    requires Fine(s, t) && DropEmpty(s, s', t)
    ensures Drops(s, s', t)
  {
    assert SizesOf(s'.st, t) == SizesOf(s.st, t);
  }

  lemma EmptiesDoneDrops(s: Sys, s': Sys, t: nat)
    requires Fine(s, t) && EmptiesDone(s, s', t)
    ensures Drops(s, s', t)
  {}

  lemma DrainClassDrops(s: Sys, s': Sys, t: nat)
    requires Fine(s, t) && DrainClass(s, s', t)
    ensures Drops(s, s', t) || s'.threads[t].pc.Idle?
  {}

  lemma DrainSnapshotDrops(s: Sys, s': Sys, t: nat)
    requires Fine(s, t) && DrainSnapshot(s, s', t)
    ensures Drops(s, s', t)
  {}

  lemma DrainLockDrops(s: Sys, s': Sys, t: nat)
    requires Fine(s, t) && DrainLock(s, s', t)
    ensures Drops(s, s', t)
  {}

  lemma DrainColdDrops(s: Sys, s': Sys, t: nat)
    requires Fine(s, t) && DrainCold(s, s', t)
    ensures Drops(s, s', t)
  {
    var a, b := Transfer(s.threads[t].pc.c), Scratch(t);
    ShiftIs(s.st, a, b, 1);
    MovedSizes(s.st, s'.st, t, a, b, Of(s.st, a)[1..], Of(s.st, b) + Of(s.st, a)[..1]);
  }

  lemma DrainReleaseDrops(s: Sys, s': Sys, t: nat)
    requires Fine(s, t) && DrainRelease(s, s', t)
    ensures Drops(s, s', t)
  {}

  lemma ObjectDrops(s: Sys, s': Sys, t: nat, slot: nat)
    requires Fine(s, t) && TakeObject(s, s', t, slot)
    ensures Drops(s, s', t)
  {}

  lemma GotDrops(s: Sys, s': Sys, t: nat, id: nat)
    requires Fine(s, t) && AskGot(s, s', t, id)
    ensures Drops(s, s', t)
  {}

  lemma PopWorkDrops(s: Sys, s': Sys, t: nat)
    requires Fine(s, t) && FrontOpen(s, t) && PopWork(s, s', t)
    ensures Drops(s, s', t)
  {
    if ProbeLock(s, s', t) { ProbeLockDrops(s, s', t); }
    else if PopHot(s, s', t) { PopHotDrops(s, s', t); }
    else if PopDone(s, s', t) { PopDoneDrops(s, s', t); }
    else if LinkAll(s, s', t) { LinkAllDrops(s, s', t); }
    else { AcceptDrops(s, s', t); }
  }

  lemma PushWorkDrops(s: Sys, s': Sys, t: nat)
    requires Fine(s, t) && FrontOpen(s, t) && PushWork(s, s', t)
    ensures Drops(s, s', t)
  {
    if PublishLock(s, s', t) { PublishLockDrops(s, s', t); }
    else if PushOne(s, s', t) { PushOneDrops(s, s', t); }
    else if PushDone(s, s', t) { PushDoneDrops(s, s', t); }
    else { ReturnExcessDrops(s, s', t); }
  }

  lemma EnterWorkDrops(s: Sys, s': Sys, t: nat)
    requires Fine(s, t) && FrontOpen(s, t) && EnterWork(s, s', t)
    ensures Drops(s, s', t)
  {
    if LockSpans(s, s', t) { LockSpansDrops(s, s', t); }
    else if RelockGot(s, s', t) { RelockGotDrops(s, s', t); }
    else if RelockNone(s, s', t) { RelockNoneDrops(s, s', t); }
    else { LeaveSpansDrops(s, s', t); }
  }

  lemma ScanWorkDrops(s: Sys, s': Sys, t: nat)
    requires Fine(s, t) && FrontOpen(s, t) && ScanWork(s, s', t)
    ensures Drops(s, s', t)
  {
    if ScanNext(s, s', t) { ScanNextDrops(s, s', t); }
    else if TakeNull(s, s', t) { TakeNullDrops(s, s', t); }
    else if TakeEnough(s, s', t) { TakeEnoughDrops(s, s', t); }
    else if AfterTurn(s, s', t) { AfterTurnDrops(s, s', t); }
    else { AskNoneDrops(s, s', t); }
  }

  lemma StoreWorkDrops(s: Sys, s': Sys, t: nat)
    requires Fine(s, t) && FrontOpen(s, t) && StoreWork(s, s', t)
    ensures Drops(s, s', t)
  {
    if ReleaseTurn(s, s', t) { ReleaseTurnDrops(s, s', t); }
    else if RLockStep(s, s', t) { RLockStepDrops(s, s', t); }
    else if RPushOne(s, s', t) { RPushOneDrops(s, s', t); }
    else { RPushDoneDrops(s, s', t); }
  }

  lemma FreeWorkDrops(s: Sys, s': Sys, t: nat)
    requires Fine(s, t) && FrontOpen(s, t) && FreeWork(s, s', t)
    ensures Drops(s, s', t)
  {
    if RSpansLock(s, s', t) { RSpansLockDrops(s, s', t); }
    else if FreeOne(s, s', t) { FreeOneDrops(s, s', t); }
    else if FreeDone(s, s', t) { FreeDoneDrops(s, s', t); }
    else if DropEmpty(s, s', t) { DropEmptyDrops(s, s', t); }
    else { EmptiesDoneDrops(s, s', t); }
  }

  lemma DrainWorkDrops(s: Sys, s': Sys, t: nat)
    requires Fine(s, t) && FrontOpen(s, t) && DrainWork(s, s', t)
    ensures Drops(s, s', t) || s'.threads[t].pc.Idle?
  {
    if DrainClass(s, s', t) { DrainClassDrops(s, s', t); }
    else if DrainSnapshot(s, s', t) { DrainSnapshotDrops(s, s', t); }
    else if DrainLock(s, s', t) { DrainLockDrops(s, s', t); }
    else if DrainCold(s, s', t) { DrainColdDrops(s, s', t); }
    else { DrainReleaseDrops(s, s', t); }
  }

  // ---- over runs

  /** Thread t takes a step inside a call. */
  ghost predicate StepsInside(s: Sys, s': Sys, t: nat)
  {
    Works(s, s', t) || (exists slot: nat :: TakeObject(s, s', t, slot)) || (exists id: nat :: AskGot(s, s', t, id))
  }

  /** Whatever other threads do in between, each step of a thread inside a call
      brings it down the measure or ends the call; so a call takes finitely many
      steps of its own. */
  lemma EveryCallDescends(r: seq<Sys>, i: nat, t: nat)
    requires Run(r) && i + 1 < |r| && StepsInside(r[i], r[i + 1], t)
    ensures t < |r[i].threads| == |r[i + 1].threads|
    ensures r[i + 1].threads[t].pc.Idle? || Below(RankAt(r[i + 1], t), RankAt(r[i], t))
  {
    RunInv(r, i);
    InsideAt(r[i], r[i + 1], t);
    RunBudget(r, i, t);
    FineAt(r[i], t);
    Descends(r[i], r[i + 1], t);
  }

  lemma InsideAt(s: Sys, s': Sys, t: nat)
    requires StepsInside(s, s', t)
    ensures At(s, t) && |s'.threads| == |s.threads|
  {
    if Works(s, s', t) { WorksAt(s, s', t); WorksStays(s, s', t, t); }
  }

  lemma WorksAt(s: Sys, s': Sys, t: nat)
    requires Works(s, s', t)
    ensures At(s, t)
  {}

  lemma FineAt(s: Sys, t: nat)
    requires Inv(s) && At(s, t) && DrainOk(s.threads[t].pc)
    ensures Fine(s, t) && FrontOpen(s, t)
  {
    var pc := s.threads[t].pc;
    assert PcOk(s.st, t, pc);
    if pc.Take? && !pc.took {
      assert s.slock[pc.c] == Some(t) && ListOk(s.st.spans, s.lists[pc.c], First);
    }
  }

  lemma Descends(s: Sys, s': Sys, t: nat)
    requires Fine(s, t) && FrontOpen(s, t) && StepsInside(s, s', t) && t < |s'.threads|
    ensures s'.threads[t].pc.Idle? || Drops(s, s', t)
  {
    if Works(s, s', t) { WorksDrops(s, s', t); }
    else if slot: nat :| TakeObject(s, s', t, slot) { ObjectDrops(s, s', t, slot); }
    else if id: nat :| AskGot(s, s', t, id) { GotDrops(s, s', t, id); }
  }

  lemma WorksDrops(s: Sys, s': Sys, t: nat)
    requires Fine(s, t) && FrontOpen(s, t) && t < |s'.threads| && Works(s, s', t)
    ensures Drops(s, s', t) || s'.threads[t].pc.Idle?
  {
    if PopWork(s, s', t) { PopWorkDrops(s, s', t); }
    else if PushWork(s, s', t) { PushWorkDrops(s, s', t); }
    else if EnterWork(s, s', t) { EnterWorkDrops(s, s', t); }
    else if ScanWork(s, s', t) { ScanWorkDrops(s, s', t); }
    else if StoreWork(s, s', t) { StoreWorkDrops(s, s', t); }
    else if FreeWork(s, s', t) { FreeWorkDrops(s, s', t); }
    else { DrainWorkDrops(s, s', t); }
  }
}
