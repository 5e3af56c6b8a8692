/** CentralCache under every interleaving of threads that fetch, release, drain
    and prefetch (src/central_cache.cpp). A step is one lock operation, one move
    of an object, or one call into PageCache; the two locks of every bucket are
    part of the state. */
module CentralCache {
  import opened Config
  import opened Lists
  import opened CentralStore
  import opened SizeClass
  import SpanLayout

  datatype Mode = ToTransfer | ToBitmap

  /** `max_bytes` and `drained_bytes` of a running drain, and what it began with. */
  datatype Budget = Budget(total: nat, left: nat, drained: nat, unbounded: bool)

  /** What a thread does once `ReleaseBatch` is over. */
  datatype Ret = ToIdle | ToFetch(n: nat, short: bool) | ToDrain(rem: nat, d: nat, b: Budget)

  /** Where a thread is. `c` is the size class, `n` the number of objects asked
      for, `need` what the transfer cache could not give and `k` the number
      extracted from spans; `took` says whether this turn of the inner loop has
      extracted an object; `short` records a failed span request. */
  datatype Pc =
    | Idle
    | Probe(c: nat, n: nat)
    | Pop(c: nat, n: nat, grab: nat)
    | Link(c: nat, n: nat)
    | WantSpans(c: nat, n: nat, need: nat)
    | Scan(c: nat, n: nat, need: nat, k: nat)
    | Take(c: nat, n: nat, need: nat, k: nat, took: bool)
    | After(c: nat, n: nat, need: nat, k: nat)
    | Ask(c: nat, n: nat, need: nat, k: nat)
    | Relock(c: nat, n: nat, need: nat, k: nat, got: Option<nat>)
    | Leave(c: nat, n: nat, short: bool)
    | Publish(c: nat, n: nat, short: bool)
    | Push(c: nat, n: nat, short: bool)
    | Leftover(c: nat, n: nat, short: bool)
    | Fetched(c: nat, n: nat, short: bool)
    | Release(c: nat, mode: Mode, ret: Ret)
    | RLock(c: nat, ret: Ret)
    | RPush(c: nat, ret: Ret)
    | RSpans(c: nat, mode: Mode, ret: Ret)
    | Free(c: nat, mode: Mode, ret: Ret)
    | Empties(c: nat, mode: Mode, ret: Ret)
    | DClass(i: nat, b: Budget)
    | DSnap(c: nat, b: Budget)
    | DLoop(c: nat, rem: nat, b: Budget)
    | DTake(c: nat, rem: nat, d: nat, b: Budget)

  /** `empties` is the private list of spans that became empty in this release. */
  datatype Thread = Thread(pc: Pc, empties: seq<nat>)

  /** History: who has a carved span. */
  datatype Home = Listed | Fresh(t: nat) | Emptied(t: nat)

  datatype Sys = Sys(st: Store, caps: seq<nat>, lists: seq<seq<nat>>, tlock: seq<Option<nat>>, slock: seq<Option<nat>>,
                     threads: seq<Thread>, home: map<nat, Home>)

  // ------------------------------------------------- what a position implies

  /** The bucket whose transfer lock, or span lock, a position holds. */
  function HeldT(pc: Pc): Option<nat> { if pc.Pop? || pc.Push? || pc.RPush? || pc.DTake? then Some(pc.c) else None }

  function HeldS(pc: Pc): Option<nat>
  {
    if pc.Scan? || pc.Take? || pc.After? || pc.Leave? || pc.Free? then Some(pc.c) else None
  }

  function FreshOf(pc: Pc): Option<nat> { if pc.Relock? then pc.got else None }

  /** How many objects a thread's private boxes hold. */
  datatype Sizes = Sizes(chain: nat, scratch: nat, batch: nat, ptrs: nat)

  function SizesOf(st: Store, t: nat): Sizes
  {
    Sizes(|Of(st, Chain(t))|, |Of(st, Scratch(t))|, |Of(st, Batch(t))|, |Of(st, Ptrs(t))|)
  }

  predicate Nothing(z: Sizes) { z.chain == 0 && z.scratch == 0 && z.batch == 0 && z.ptrs == 0 }

  predicate ChainOk(z: Sizes, n: nat, short: bool) { z.chain <= n && (!short ==> z.chain == n) }

  predicate RetOk(z: Sizes, ret: Ret)
  {
    match ret
    case ToIdle => z.chain == 0
    case ToFetch(n, short) => n <= MAX_BATCH && ChainOk(z, n, short)
    case ToDrain(rem, d, b) => z.chain == 0
  }

  /** The loop variables of `FetchBatch` count what is in the chain and in the
      scratch array. */
  predicate CountsOk(z: Sizes, n: nat, need: nat, k: nat)
  {
    && 0 < need <= n <= MAX_BATCH && k <= need + n && z.batch == 0 && z.ptrs == 0
    && z.chain == n - need + (if k < need then k else need)
    && z.scratch == if k < need then 0 else k - need
  }

  /** In the last part of a fetch the chain is complete and at most n objects are
      left to publish. */
  predicate EndOk(z: Sizes, n: nat, short: bool)
  {
    n <= MAX_BATCH && ChainOk(z, n, short) && z.scratch <= n && z.batch == 0 && z.ptrs == 0
  }

  predicate ReleaseOk(z: Sizes, ret: Ret) { RetOk(z, ret) && z.scratch == 0 && z.ptrs <= MAX_BATCH }

  predicate Outside(pc: Pc) { pc.Idle? || pc.Probe? || pc.DClass? || pc.DSnap? || pc.DLoop? }

  predicate Scanning(pc: Pc) { pc.Scan? || pc.Take? || pc.After? || pc.Ask? || pc.Relock? }

  predicate Ending(pc: Pc) { pc.Leave? || pc.Publish? || pc.Push? || pc.Leftover? || pc.Fetched? }

  predicate Releasing(pc: Pc) { pc.Release? || pc.RLock? || pc.RPush? || pc.RSpans? || pc.Free? || pc.Empties? }

  predicate SizesOk(z: Sizes, pc: Pc)
  {
    && (Outside(pc) ==> Nothing(z))
    && (pc.Pop? || pc.Link? || pc.DTake? ==> z.chain == 0 && z.batch == 0 && z.ptrs == 0)
    && (pc.Probe? || pc.Pop? || pc.Link? ==> 0 < pc.n <= MAX_BATCH)
    && (pc.Pop? ==> z.scratch <= pc.grab <= pc.n)
    && (pc.Link? ==> z.scratch <= pc.n)
    && (pc.WantSpans? ==> CountsOk(z, pc.n, pc.need, 0))
    && (Scanning(pc) ==> CountsOk(z, pc.n, pc.need, pc.k))
    && (pc.Ask? || pc.Relock? || (pc.Take? && !pc.took) ==> pc.k < pc.need + pc.n)
    && (Ending(pc) ==> EndOk(z, pc.n, pc.short))
    && (pc.Fetched? ==> z.scratch == 0)
    && (Releasing(pc) ==> ReleaseOk(z, pc.ret))
    && (pc.Release? || pc.Empties? ==> z.ptrs == 0)
    && (pc.DClass? ==> pc.i <= NUM_CLASSES)
    && (pc.DTake? ==> 0 < pc.d <= MAX_BATCH && z.scratch <= pc.d)
  }

  /** The objects still to be popped or drained under the lock are there. */
  predicate SupplyOk(z: Sizes, transfer: nat, pc: Pc)
  {
    (pc.Pop? ==> pc.grab <= z.scratch + transfer) && (pc.DTake? ==> pc.d <= z.scratch + transfer)
  }

  function ClassAt(pc: Pc): nat { if pc.Idle? || pc.DClass? then 0 else pc.c }

  predicate PcOk(st: Store, t: nat, pc: Pc)
  {
    && SizesOk(SizesOf(st, t), pc) && SupplyOk(SizesOf(st, t), |Of(st, Transfer(ClassAt(pc)))|, pc)
    && (pc.Idle? || pc.DClass? || (pc.c < NUM_CLASSES && Active(st, t) == pc.c))
  }

  // -------------------------------------------------------------- span lists

  predicate Full(spans: map<nat, CSpan>, id: nat) { id in spans && spans[id].used == spans[id].cap }

  /** Spans with free slots precede full ones. */
  ghost predicate Ordered(spans: map<nat, CSpan>, q: seq<nat>)
  {
    forall i, j :: 0 <= i < j < |q| && Full(spans, q[i]) ==> Full(spans, q[j])
  }

  ghost predicate InUse(spans: map<nat, CSpan>, q: seq<nat>)
  {
    forall i :: 0 <= i < |q| ==> q[i] in spans && 1 <= spans[q[i]].used <= spans[q[i]].cap
  }

  datatype Phase = Resting | First | Taken

  /** A list is in order unless its lock is held by a thread in the middle of
      extracting from the front span. */
  ghost predicate ListOk(spans: map<nat, CSpan>, q: seq<nat>, phase: Phase)
  {
    match phase
    case Resting => Ordered(spans, q) && InUse(spans, q)
    case First => |q| > 0 && !Full(spans, q[0]) && Ordered(spans, q[1..]) && InUse(spans, q[1..])
    case Taken => |q| > 0 && Ordered(spans, q[1..]) && InUse(spans, q)
  }

  function PhaseOf(pc: Pc): Phase
  {
    if pc.Take? then (if pc.took then Taken else First) else if pc.After? then Taken else Resting
  }

  ghost function PhaseAt(s: Sys, c: nat): Phase
    requires c < |s.slock|
  {
    if s.slock[c].Some? && s.slock[c].value < |s.threads| then PhaseOf(s.threads[s.slock[c].value].pc) else Resting
  }

  // ------------------------------------------------------------ the invariant

  ghost predicate Shape(s: Sys)
  {
    |s.caps| == NUM_CLASSES && |s.lists| == NUM_CLASSES && |s.tlock| == NUM_CLASSES && |s.slock| == NUM_CLASSES
  }

  ghost predicate KnownOk(home: map<nat, Home>, spans: map<nat, CSpan>)
  {
    && (forall id: nat :: id in home <==> id in spans)
    && (forall id: nat :: id in spans ==> spans[id].cls < NUM_CLASSES && spans[id].cap >= 1)
    && (forall id: nat :: id in spans && id in home && home[id] != Listed ==> spans[id].used == 0)
  }

  ghost predicate ListedOk(home: map<nat, Home>, spans: map<nat, CSpan>, lists: seq<seq<nat>>)
  {
    && (forall c: nat :: c < |lists| ==> NoDup(lists[c]))
    && (forall c: nat, id: nat {:trigger id in lists[c]} :: c < |lists| ==>
          (id in lists[c] <==> id in spans && id in home && home[id] == Listed && spans[id].cls == c))
  }

  ghost predicate EmptiesOk(home: map<nat, Home>, threads: seq<Thread>)
  {
    && (forall t: nat :: t < |threads| ==> NoDup(threads[t].empties))
    && (forall t: nat, id: nat {:trigger id in threads[t].empties} :: t < |threads| ==>
          (id in threads[t].empties <==> id in home && home[id] == Emptied(t)))
    && (forall id: nat :: id in home && home[id].Emptied? ==> home[id].t < |threads|)
  }

  ghost predicate FreshOk(home: map<nat, Home>, spans: map<nat, CSpan>, threads: seq<Thread>)
  {
    && (forall t: nat :: t < |threads| && FreshOf(threads[t].pc).Some? ==>
          var id := FreshOf(threads[t].pc).value;
          id in home && home[id] == Fresh(t) && id in spans && spans[id].cls == threads[t].pc.c)
    && (forall id: nat :: id in home && home[id].Fresh? ==>
          home[id].t < |threads| && FreshOf(threads[home[id].t].pc) == Some(id))
  }

  /** Every carved span is in the list of its class, or on its way from or to
      PageCache in the hands of one thread. */
  ghost predicate HomesOk(s: Sys)
  {
    && KnownOk(s.home, s.st.spans) && ListedOk(s.home, s.st.spans, s.lists)
    && EmptiesOk(s.home, s.threads) && FreshOk(s.home, s.st.spans, s.threads)
  }

  ghost predicate LocksOk(s: Sys)
  {
    && (forall c: nat, t: nat {:trigger s.tlock[c], s.threads[t]} :: c < |s.tlock| && t < |s.threads| ==>
          (s.tlock[c] == Some(t) <==> HeldT(s.threads[t].pc) == Some(c)))
    && (forall c: nat, t: nat {:trigger s.slock[c], s.threads[t]} :: c < |s.slock| && t < |s.threads| ==>
          (s.slock[c] == Some(t) <==> HeldS(s.threads[t].pc) == Some(c)))
    && (forall c: nat :: c < |s.tlock| && s.tlock[c].Some? ==> s.tlock[c].value < |s.threads|)
    && (forall c: nat :: c < |s.slock| && s.slock[c].Some? ==> s.slock[c].value < |s.threads|)
  }

  ghost predicate ListsOk(s: Sys)
    requires Shape(s)
  {
    forall c: nat {:trigger s.lists[c]} :: c < NUM_CLASSES ==> ListOk(s.st.spans, s.lists[c], PhaseAt(s, c))
  }

  ghost predicate PcsOk(s: Sys)
  {
    forall t: nat :: t < |s.threads| ==> PcOk(s.st, t, s.threads[t].pc)
  }

  ghost predicate CapsOk(s: Sys)
  {
    forall c: nat {:trigger s.caps[c]} :: c < |s.caps| ==> |Of(s.st, Transfer(c))| <= s.caps[c]
  }

  ghost predicate Inv(s: Sys)
  {
    Shape(s) && StoreInv(s.st) && HomesOk(s) && LocksOk(s) && ListsOk(s) && PcsOk(s) && CapsOk(s)
  }

  // -------------------------------------------------------------------- steps

  ghost predicate At(s: Sys, t: nat) { Shape(s) && t < |s.threads| }

  /** Lock words after t, which held lock `from`, holds lock `to`. */
  function Swap(held: seq<Option<nat>>, t: nat, from: Option<nat>, to: Option<nat>): seq<Option<nat>>
  {
    if from == to then held
    else
      var left := if from.Some? && from.value < |held| then held[from.value := None] else held;
      if to.Some? && to.value < |left| then left[to.value := Some(t)] else left
  }

  /** A lock to be taken is free. */
  predicate CanSwap(held: seq<Option<nat>>, from: Option<nat>, to: Option<nat>)
  {
    to.Some? && to != from ==> to.value < |held| && held[to.value].None?
  }

  /** Thread t moves to position `pc`, leaving and taking the locks that go with
      the two positions. */
  function Goto(s: Sys, t: nat, pc: Pc): Sys
    requires t < |s.threads|
  {
    var was := s.threads[t].pc;
    Sys(s.st, s.caps, s.lists, Swap(s.tlock, t, HeldT(was), HeldT(pc)), Swap(s.slock, t, HeldS(was), HeldS(pc)),
        s.threads[t := Thread(pc, s.threads[t].empties)], s.home)
  }

  /** The first k objects of box a go to the back of box b. */
  function Shift(st: Store, a: Box, b: Box, k: nat): Store
    requires k <= |Of(st, a)|
  {
    var q := Of(st, a);
    Move(st, a, b, q[..k], q[k..], Of(st, b) + q[..k])
  }

  /** The last k objects of box a go to the back of box b. */
  function ShiftLast(st: Store, a: Box, b: Box, k: nat): Store
    requires k <= |Of(st, a)|
  {
    var q := Of(st, a);
    var j := |q| - k;
    Move(st, a, b, q[j..], q[..j], Of(st, b) + q[j..])
  }

  /** The whole of box a goes in front of box b. */
  function Prepend(st: Store, a: Box, b: Box): Store
  {
    Move(st, a, b, Of(st, a), [], Of(st, a) + Of(st, b))
  }

  /** The whole of box a is relinked by head insertion into the empty box b. */
  function Relink(st: Store, a: Box, b: Box): Store
  {
    Move(st, a, b, Of(st, a), [], Reversed(Of(st, a)))
  }

  /** The i-th block of the user goes back, to the front of box b. */
  function GiveBack(st: Store, c: nat, i: nat, b: Box): Store
    requires i < |Of(st, User(c))|
  {
    var u := Of(st, User(c));
    Move(st, User(c), b, [u[i]], u[..i] + u[i + 1..], [u[i]] + Of(st, b))
  }

  // ---- a thread's own list, and the user

  /** `Allocate` on a nonempty free list. */
  ghost predicate Malloc(s: Sys, s': Sys, t: nat, c: nat)
  {
    && At(s, t) && s.threads[t].pc.Idle? && c < NUM_CLASSES && Of(s.st, Local(t, c)) != []
    && s' == Goto(s, t, Idle).(st := Shift(s.st, Local(t, c), User(c), 1))
  }

  /** `Deallocate`: any thread may free any block of the user. */
  ghost predicate UserFree(s: Sys, s': Sys, t: nat, c: nat, i: nat)
  {
    && At(s, t) && s.threads[t].pc.Idle? && c < NUM_CLASSES && i < |Of(s.st, User(c))|
    && s' == Goto(s, t, Idle).(st := GiveBack(s.st, c, i, Local(t, c)))
  }

  // ---- FetchBatch

  ghost predicate StartFetch(s: Sys, s': Sys, t: nat, c: nat, n: nat)
  {
    && At(s, t) && s.threads[t].pc.Idle? && c < NUM_CLASSES && 0 < n <= MAX_BATCH
    && s' == Goto(s, t, Probe(c, n)).(st := Enter(s.st, t, c))
  }

  ghost predicate ProbeLock(s: Sys, s': Sys, t: nat)
  {
    && At(s, t) && s.threads[t].pc.Probe?
    && var pc := s.threads[t].pc;
       && pc.c < NUM_CLASSES && s.tlock[pc.c].None?
       && s' == Goto(s, t, Pop(pc.c, pc.n, Min(pc.n, |Of(s.st, Transfer(pc.c))|)))
  }

  ghost predicate PopHot(s: Sys, s': Sys, t: nat)
  {
    && At(s, t) && s.threads[t].pc.Pop?
    && var pc := s.threads[t].pc;
       && |Of(s.st, Scratch(t))| < pc.grab && Of(s.st, Transfer(pc.c)) != []
       && s' == Goto(s, t, pc).(st := ShiftLast(s.st, Transfer(pc.c), Scratch(t), 1))
  }

  ghost predicate PopDone(s: Sys, s': Sys, t: nat)
  {
    && At(s, t) && s.threads[t].pc.Pop?
    && var pc := s.threads[t].pc;
       && pc.c < NUM_CLASSES && |Of(s.st, Scratch(t))| == pc.grab
       && s' == Goto(s, t, Link(pc.c, pc.n))
  }

  /** The chain is linked hottest first; then the call is over or goes to spans. */
  ghost predicate LinkAll(s: Sys, s': Sys, t: nat)
  {
    && At(s, t) && s.threads[t].pc.Link?
    && var pc := s.threads[t].pc;
       var got := |Of(s.st, Scratch(t))|;
       && got <= pc.n
       && s' == Goto(s, t, if got < pc.n then WantSpans(pc.c, pc.n, pc.n - got) else Fetched(pc.c, pc.n, false))
                .(st := Shift(s.st, Scratch(t), Chain(t), got))
  }

  ghost predicate LockSpans(s: Sys, s': Sys, t: nat)
  {
    && At(s, t) && s.threads[t].pc.WantSpans?
    && var pc := s.threads[t].pc;
       && pc.c < NUM_CLASSES && s.slock[pc.c].None?
       && s' == Goto(s, t, Scan(pc.c, pc.n, pc.need, 0))
  }

  /** The outer loop: enough, no candidate at the front, or on to the front span. */
  ghost predicate ScanNext(s: Sys, s': Sys, t: nat)
  {
    && At(s, t) && s.threads[t].pc.Scan?
    && var pc := s.threads[t].pc;
       && pc.c < NUM_CLASSES
       && var q := s.lists[pc.c];
          if pc.k >= pc.need + pc.n then s' == Goto(s, t, Leave(pc.c, pc.n, false))
          else if q == [] || Full(s.st.spans, q[0]) then
            s' == Goto(s, t, Ask(pc.c, pc.n, pc.need, pc.k))
          else s' == Goto(s, t, Take(pc.c, pc.n, pc.need, pc.k, false))
  }

  /** `AllocObject` gives a slot; the first `need` go to the caller's chain. */
  ghost predicate TakeObject(s: Sys, s': Sys, t: nat, slot: nat)
  {
    && At(s, t) && s.threads[t].pc.Take?
    && var pc := s.threads[t].pc;
       && pc.c < NUM_CLASSES && pc.k < pc.need + pc.n && s.lists[pc.c] != []
       && var id := s.lists[pc.c][0];
          && id in s.st.spans && slot in s.st.spans[id].free
          && var b := if pc.k < pc.need then Chain(t) else Scratch(t);
             var b' := if pc.k < pc.need then [Obj(id, slot)] + Of(s.st, b) else Of(s.st, b) + [Obj(id, slot)];
             s' == Goto(s, t, Take(pc.c, pc.n, pc.need, pc.k + 1, true)).(st := TakeBit(s.st, id, slot, b, b'))
  }

  function Rotated(q: seq<nat>): seq<nat>
    requires q != []
  {
    q[1..] + [q[0]]
  }

  /** `AllocObject` gives null: the front span goes behind the others. */
  ghost predicate TakeNull(s: Sys, s': Sys, t: nat)
  {
    && At(s, t) && s.threads[t].pc.Take?
    && var pc := s.threads[t].pc;
       && pc.c < NUM_CLASSES && pc.k < pc.need + pc.n && s.lists[pc.c] != []
       && var id := s.lists[pc.c][0];
          && Full(s.st.spans, id)
          && s' == Goto(s, t, After(pc.c, pc.n, pc.need, pc.k)).(lists := s.lists[pc.c := Rotated(s.lists[pc.c])])
  }

  ghost predicate TakeEnough(s: Sys, s': Sys, t: nat)
  {
    && At(s, t) && s.threads[t].pc.Take?
    && var pc := s.threads[t].pc;
       pc.k >= pc.need + pc.n && s' == Goto(s, t, After(pc.c, pc.n, pc.need, pc.k))
  }

  ghost predicate AfterTurn(s: Sys, s': Sys, t: nat)
  {
    && At(s, t) && s.threads[t].pc.After?
    && var pc := s.threads[t].pc;
       && pc.c < NUM_CLASSES && s.lists[pc.c] != []
       && var q := s.lists[pc.c];
          s' == Goto(s, t, Scan(pc.c, pc.n, pc.need, pc.k))
                .(lists := if Full(s.st.spans, q[0]) then s.lists[pc.c := Rotated(q)] else s.lists)
  }

  function ClassCapacity(c: nat): nat
  {
    SpanLayout.ComputeSpanLayout(CalculateSize(c), MovePages(c)).capacity
  }

  /** PageCache gives a span, carved for the class, or nothing; no lock is held. */
  ghost predicate AskGot(s: Sys, s': Sys, t: nat, id: nat)
  {
    && At(s, t) && s.threads[t].pc.Ask?
    && var pc := s.threads[t].pc;
       && id !in s.st.spans
       && s' == Goto(s, t, Relock(pc.c, pc.n, pc.need, pc.k, Some(id)))
                .(st := AddSpan(s.st, id, pc.c, ClassCapacity(pc.c)), home := s.home[id := Fresh(t)])
  }

  ghost predicate AskNone(s: Sys, s': Sys, t: nat)
  {
    && At(s, t) && s.threads[t].pc.Ask?
    && var pc := s.threads[t].pc;
       s' == Goto(s, t, Relock(pc.c, pc.n, pc.need, pc.k, None))
  }

  ghost predicate RelockGot(s: Sys, s': Sys, t: nat)
  {
    && At(s, t) && s.threads[t].pc.Relock?
    && var pc := s.threads[t].pc;
       && pc.c < NUM_CLASSES && s.slock[pc.c].None? && pc.got.Some?
       && s' == Goto(s, t, Take(pc.c, pc.n, pc.need, pc.k, false))
                .(lists := s.lists[pc.c := [pc.got.value] + s.lists[pc.c]],
                  home := s.home[pc.got.value := Listed])
  }

  ghost predicate RelockNone(s: Sys, s': Sys, t: nat)
  {
    && At(s, t) && s.threads[t].pc.Relock?
    && var pc := s.threads[t].pc;
       && pc.c < NUM_CLASSES && s.slock[pc.c].None? && pc.got.None?
       && s' == Goto(s, t, Leave(pc.c, pc.n, true))
  }

  ghost predicate LeaveSpans(s: Sys, s': Sys, t: nat)
  {
    && At(s, t) && s.threads[t].pc.Leave?
    && var pc := s.threads[t].pc;
       && pc.c < NUM_CLASSES
       && s' == Goto(s, t, if Of(s.st, Scratch(t)) == [] then Fetched(pc.c, pc.n, pc.short)
                           else Publish(pc.c, pc.n, pc.short))
  }

  ghost predicate PublishLock(s: Sys, s': Sys, t: nat)
  {
    && At(s, t) && s.threads[t].pc.Publish?
    && var pc := s.threads[t].pc;
       && pc.c < NUM_CLASSES && s.tlock[pc.c].None?
       && s' == Goto(s, t, Push(pc.c, pc.n, pc.short))
  }

  ghost predicate PushOne(s: Sys, s': Sys, t: nat)
  {
    && At(s, t) && s.threads[t].pc.Push?
    && var pc := s.threads[t].pc;
       && pc.c < NUM_CLASSES && Of(s.st, Scratch(t)) != [] && |Of(s.st, Transfer(pc.c))| < s.caps[pc.c]
       && s' == Goto(s, t, pc).(st := Shift(s.st, Scratch(t), Transfer(pc.c), 1))
  }

  ghost predicate PushDone(s: Sys, s': Sys, t: nat)
  {
    && At(s, t) && s.threads[t].pc.Push?
    && var pc := s.threads[t].pc;
       && pc.c < NUM_CLASSES && (Of(s.st, Scratch(t)) == [] || |Of(s.st, Transfer(pc.c))| >= s.caps[pc.c])
       && s' == Goto(s, t, if Of(s.st, Scratch(t)) == [] then Fetched(pc.c, pc.n, pc.short)
                           else Leftover(pc.c, pc.n, pc.short))
  }

  /** The excess prefetch goes back through `ReleaseBatch`. */
  ghost predicate ReturnExcess(s: Sys, s': Sys, t: nat)
  {
    && At(s, t) && s.threads[t].pc.Leftover?
    && var pc := s.threads[t].pc;
       s' == Goto(s, t, Release(pc.c, ToTransfer, ToFetch(pc.n, pc.short)))
             .(st := Relink(s.st, Scratch(t), Batch(t)))
  }

  /** `AcceptFetchedBatch`: the chain goes in front of the thread's list. */
  ghost predicate Accept(s: Sys, s': Sys, t: nat)
  {
    && At(s, t) && s.threads[t].pc.Fetched?
    && var pc := s.threads[t].pc;
       s' == Goto(s, t, Idle).(st := Prepend(s.st, Chain(t), Local(t, pc.c)))
  }

  // ---- ReleaseBatch

  /** The oldest k objects of a free list: overflow, trim, or the whole list. */
  ghost predicate StartRelease(s: Sys, s': Sys, t: nat, c: nat, k: nat, mode: Mode)
  {
    && At(s, t) && s.threads[t].pc.Idle? && c < NUM_CLASSES && k <= |Of(s.st, Local(t, c))|
    && s' == Goto(s, t, Release(c, mode, ToIdle)).(st := ShiftLast(Enter(s.st, t, c), Local(t, c), Batch(t), k))
  }

  /** A free in a thread that has no cache: a batch of one. */
  ghost predicate StartSingle(s: Sys, s': Sys, t: nat, c: nat, i: nat)
  {
    && At(s, t) && s.threads[t].pc.Idle? && c < NUM_CLASSES && i < |Of(s.st, User(c))|
    && s' == Goto(s, t, Release(c, ToTransfer, ToIdle)).(st := GiveBack(Enter(s.st, t, c), c, i, Batch(t)))
  }

  function AfterRelease(c: nat, ret: Ret): Pc
  {
    match ret
    case ToIdle => Idle
    case ToFetch(n, short) => Fetched(c, n, short)
    case ToDrain(rem, d, b) =>
      DLoop(c, if d <= rem then rem - d else 0, Spent(b, Bytes(c, d)))
  }

  function Spent(b: Budget, bytes: nat): Budget
  {
    Budget(b.total, if b.unbounded || b.left < bytes then b.left else b.left - bytes, b.drained + bytes, b.unbounded)
  }

  ghost predicate ReleaseTurn(s: Sys, s': Sys, t: nat)
  {
    && At(s, t) && s.threads[t].pc.Release?
    && var pc := s.threads[t].pc;
       var q := Of(s.st, Batch(t));
       if q == [] then s' == Goto(s, t, AfterRelease(pc.c, pc.ret))
       else s' == Goto(s, t, if pc.mode.ToTransfer? then RLock(pc.c, pc.ret) else RSpans(pc.c, pc.mode, pc.ret))
                  .(st := Shift(s.st, Batch(t), Ptrs(t), Min(|q|, MAX_BATCH)))
  }

  ghost predicate RLockStep(s: Sys, s': Sys, t: nat)
  {
    && At(s, t) && s.threads[t].pc.RLock?
    && var pc := s.threads[t].pc;
       && pc.c < NUM_CLASSES && s.tlock[pc.c].None?
       && s' == Goto(s, t, RPush(pc.c, pc.ret))
  }

  ghost predicate RPushOne(s: Sys, s': Sys, t: nat)
  {
    && At(s, t) && s.threads[t].pc.RPush?
    && var pc := s.threads[t].pc;
       && pc.c < NUM_CLASSES && Of(s.st, Ptrs(t)) != [] && |Of(s.st, Transfer(pc.c))| < s.caps[pc.c]
       && s' == Goto(s, t, pc).(st := Shift(s.st, Ptrs(t), Transfer(pc.c), 1))
  }

  ghost predicate RPushDone(s: Sys, s': Sys, t: nat)
  {
    && At(s, t) && s.threads[t].pc.RPush?
    && var pc := s.threads[t].pc;
       && pc.c < NUM_CLASSES && (Of(s.st, Ptrs(t)) == [] || |Of(s.st, Transfer(pc.c))| >= s.caps[pc.c])
       && s' == Goto(s, t, if Of(s.st, Ptrs(t)) == [] then Release(pc.c, ToTransfer, pc.ret)
                           else RSpans(pc.c, ToTransfer, pc.ret))
  }

  ghost predicate RSpansLock(s: Sys, s': Sys, t: nat)
  {
    && At(s, t) && s.threads[t].pc.RSpans?
    && var pc := s.threads[t].pc;
       && pc.c < NUM_CLASSES && s.slock[pc.c].None?
       && s' == Goto(s, t, Free(pc.c, pc.mode, pc.ret))
  }

  /** `FreeObject`; a span left empty is collected, a newly non-full one goes to
      the front. */
  ghost predicate FreeOne(s: Sys, s': Sys, t: nat)
  {
    && At(s, t) && s.threads[t].pc.Free?
    && var pc := s.threads[t].pc;
       && pc.c < NUM_CLASSES && Of(s.st, Ptrs(t)) != []
       && var o := Of(s.st, Ptrs(t))[0];
          && o.span in s.st.spans && s.st.spans[o.span].used > 0
          && var st' := PutBit(s.st, Ptrs(t));
             var used := s.st.spans[o.span].used - 1;
             var rest := Erase(s.lists[pc.c], o.span);
             if used == 0 then
               s' == s.(st := st', lists := s.lists[pc.c := rest], home := s.home[o.span := Emptied(t)],
                        threads := s.threads[t := Thread(pc, [o.span] + s.threads[t].empties)])
             else if used + 1 == s.st.spans[o.span].cap then
               s' == s.(st := st', lists := s.lists[pc.c := [o.span] + rest])
             else s' == s.(st := st')
  }

  ghost predicate FreeDone(s: Sys, s': Sys, t: nat)
  {
    && At(s, t) && s.threads[t].pc.Free?
    && var pc := s.threads[t].pc;
       && pc.c < NUM_CLASSES && Of(s.st, Ptrs(t)) == []
       && s' == Goto(s, t, Empties(pc.c, pc.mode, pc.ret))
  }

  /** One collected span goes back to PageCache; no lock is held. */
  ghost predicate DropEmpty(s: Sys, s': Sys, t: nat)
  {
    && At(s, t) && s.threads[t].pc.Empties? && s.threads[t].empties != []
    && var id := s.threads[t].empties[0];
       s' == s.(st := DropSpan(s.st, id), home := s.home - {id},
                threads := s.threads[t := Thread(s.threads[t].pc, s.threads[t].empties[1..])])
  }

  ghost predicate EmptiesDone(s: Sys, s': Sys, t: nat)
  {
    && At(s, t) && s.threads[t].pc.Empties? && s.threads[t].empties == []
    && s' == Goto(s, t, Release(s.threads[t].pc.c, s.threads[t].pc.mode, s.threads[t].pc.ret))
  }

  // ---- DrainTransferCaches

  ghost predicate StartDrain(s: Sys, s': Sys, t: nat, bytes: nat)
  {
    && At(s, t) && s.threads[t].pc.Idle? && 0 < bytes <= MAX_SIZE_T
    && s' == Goto(s, t, DClass(NUM_CLASSES, Budget(bytes, bytes, 0, bytes == MAX_SIZE_T)))
  }

  ghost predicate DrainClass(s: Sys, s': Sys, t: nat)
  {
    && At(s, t) && s.threads[t].pc.DClass?
    && var pc := s.threads[t].pc;
       if pc.i == 0 then s' == Goto(s, t, Idle)
       else if !pc.b.unbounded && pc.b.left < CalculateSize(pc.i - 1) then s' == Goto(s, t, DClass(pc.i - 1, pc.b))
       else s' == Goto(s, t, DSnap(pc.i - 1, pc.b)).(st := Enter(s.st, t, pc.i - 1))
  }

  function SnapshotCount(c: nat, size: nat, b: Budget): nat
  {
    SizePositive(c);
    if b.unbounded || size < Quot(b.left, CalculateSize(c)) then size else Quot(b.left, CalculateSize(c))
  }

  /** The snapshot is read under the transfer lock. */
  ghost predicate DrainSnapshot(s: Sys, s': Sys, t: nat)
  {
    && At(s, t) && s.threads[t].pc.DSnap?
    && var pc := s.threads[t].pc;
       && pc.c < NUM_CLASSES && s.tlock[pc.c].None?
       && s' == Goto(s, t, DLoop(pc.c, SnapshotCount(pc.c, |Of(s.st, Transfer(pc.c))|, pc.b), pc.b))
  }

  ghost predicate DrainLock(s: Sys, s': Sys, t: nat)
  {
    && At(s, t) && s.threads[t].pc.DLoop?
    && var pc := s.threads[t].pc;
       && pc.c < NUM_CLASSES
       && var d := Min(Min(MAX_BATCH, pc.rem), |Of(s.st, Transfer(pc.c))|);
          if pc.rem == 0 then s' == Goto(s, t, DClass(pc.c, pc.b))
          else if d == 0 then s.tlock[pc.c].None? && s' == Goto(s, t, DClass(pc.c, pc.b))
          else
            && s.tlock[pc.c].None?
            && s' == Goto(s, t, DTake(pc.c, pc.rem, d, pc.b))
  }

  /** The coldest object leaves the transfer cache. */
  ghost predicate DrainCold(s: Sys, s': Sys, t: nat)
  {
    && At(s, t) && s.threads[t].pc.DTake?
    && var pc := s.threads[t].pc;
       && |Of(s.st, Scratch(t))| < pc.d && Of(s.st, Transfer(pc.c)) != []
       && s' == Goto(s, t, pc).(st := Shift(s.st, Transfer(pc.c), Scratch(t), 1))
  }

  ghost predicate DrainRelease(s: Sys, s': Sys, t: nat)
  {
    && At(s, t) && s.threads[t].pc.DTake?
    && var pc := s.threads[t].pc;
       && pc.c < NUM_CLASSES && |Of(s.st, Scratch(t))| == pc.d
       && s' == Goto(s, t, Release(pc.c, ToBitmap, ToDrain(pc.rem, pc.d, pc.b)))
                .(st := Relink(s.st, Scratch(t), Batch(t)))
  }

  // --------------------------------------------------------- steps, together

  /** The environment's and the callers' choices. */
  datatype Action =
    | CallMalloc(c: nat)
    | CallFree(c: nat, i: nat)
    | CallFetch(c: nat, n: nat)
    | CallRelease(c: nat, k: nat, mode: Mode)
    | CallReleaseOne(c: nat, i: nat)
    | CallDrain(bytes: nat)
    | GiveSlot(slot: nat)
    | GiveSpan(id: nat)
    | Continue

  ghost predicate PopWork(s: Sys, s': Sys, t: nat)
  {
    ProbeLock(s, s', t) || PopHot(s, s', t) || PopDone(s, s', t) || LinkAll(s, s', t) || Accept(s, s', t)
  }

  ghost predicate PushWork(s: Sys, s': Sys, t: nat)
  {
    PublishLock(s, s', t) || PushOne(s, s', t) || PushDone(s, s', t) || ReturnExcess(s, s', t)
  }

  ghost predicate EnterWork(s: Sys, s': Sys, t: nat)
  {
    LockSpans(s, s', t) || RelockGot(s, s', t) || RelockNone(s, s', t) || LeaveSpans(s, s', t)
  }

  ghost predicate ScanWork(s: Sys, s': Sys, t: nat)
  {
    ScanNext(s, s', t) || TakeNull(s, s', t) || TakeEnough(s, s', t) || AfterTurn(s, s', t) || AskNone(s, s', t)
  }

  ghost predicate StoreWork(s: Sys, s': Sys, t: nat)
  {
    ReleaseTurn(s, s', t) || RLockStep(s, s', t) || RPushOne(s, s', t) || RPushDone(s, s', t)
  }

  ghost predicate FreeWork(s: Sys, s': Sys, t: nat)
  {
    RSpansLock(s, s', t) || FreeOne(s, s', t) || FreeDone(s, s', t) || DropEmpty(s, s', t) || EmptiesDone(s, s', t)
  }

  ghost predicate DrainWork(s: Sys, s': Sys, t: nat)
  {
    || DrainClass(s, s', t) || DrainSnapshot(s, s', t) || DrainLock(s, s', t) || DrainCold(s, s', t)
    || DrainRelease(s, s', t)
  }

  /** Thread t goes on with its call. */
  ghost predicate Works(s: Sys, s': Sys, t: nat)
  {
    || PopWork(s, s', t) || PushWork(s, s', t) || EnterWork(s, s', t) || ScanWork(s, s', t)
    || StoreWork(s, s', t) || FreeWork(s, s', t) || DrainWork(s, s', t)
  }

  ghost predicate Do(s: Sys, s': Sys, t: nat, a: Action)
  {
    match a
    case CallMalloc(c) => Malloc(s, s', t, c)
    case CallFree(c, i) => UserFree(s, s', t, c, i)
    case CallFetch(c, n) => StartFetch(s, s', t, c, n)
    case CallRelease(c, k, mode) => StartRelease(s, s', t, c, k, mode)
    case CallReleaseOne(c, i) => StartSingle(s, s', t, c, i)
    case CallDrain(bytes) => StartDrain(s, s', t, bytes)
    case GiveSlot(slot) => TakeObject(s, s', t, slot)
    case GiveSpan(id) => AskGot(s, s', t, id)
    case Continue => Works(s, s', t)
  }

  ghost predicate Next(s: Sys, s': Sys) { exists t: nat, a: Action :: Do(s, s', t, a) }

  /** Transfer caches have their full capacity, or none when their backing could
      not be mapped. */
  ghost predicate Init(s: Sys)
  {
    && Shape(s) && s.st == Store(map[], map[], map[], map[]) && s.home == map[]
    && (|| (forall c: nat {:trigger s.caps[c]} :: c < NUM_CLASSES ==> s.caps[c] == 8 * BatchSize(c))
        || (forall c: nat {:trigger s.caps[c]} :: c < NUM_CLASSES ==> s.caps[c] == 0))
    && (forall c: nat :: c < NUM_CLASSES ==> s.lists[c] == [])
    && (forall c: nat :: c < NUM_CLASSES ==> s.tlock[c] == None)
    && (forall c: nat :: c < NUM_CLASSES ==> s.slock[c] == None)
    && (forall t: nat :: t < |s.threads| ==> s.threads[t] == Thread(Idle, []))
  }

  ghost predicate StepAt(r: seq<Sys>, i: nat) { i + 1 < |r| && Next(r[i], r[i + 1]) }

  ghost predicate Run(r: seq<Sys>)
  {
    |r| > 0 && Init(r[0]) && forall i: nat :: i + 1 < |r| ==> StepAt(r, i)
  }
}
