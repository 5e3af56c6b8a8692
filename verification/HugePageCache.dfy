/** The lock-free cache of 2 MiB mappings (`HugePageCache`, src/page_allocator.cpp):
    two tagged Treiber stacks over one slot array, as a step machine in which any
    number of threads interleave single loads, stores and compare-and-swaps. */
module HugePageCache {
  import opened Config
  import opened Lists

  const CAPACITY: nat := 16
  const INVALID: nat := 0xFFFF
  const TAG_RANGE: nat := 0x1_0000_0000_0000

  /** A stack head: the top slot index and a tag that every update increases. The
      stored word keeps 48 bits of the tag; the machine keeps all of it. */
  datatype Head = Head(index: nat, tag: nat)

  function Pack(h: Head): nat { (h.tag % 0x1_0000_0000_0000) * 0x1_0000 + h.index }

  /** Two heads are the same word exactly when their index agrees and their tags
      agree up to the 48 bits kept. */
  lemma PackEqual(a: Head, b: Head)
    requires a.index <= INVALID && b.index <= INVALID
    ensures Pack(a) == Pack(b) <==> a.index == b.index && a.tag % 0x1_0000_0000_0000 == b.tag % 0x1_0000_0000_0000
  {}

  /** Within a window of 2^48 updates the stored word identifies the head. */
  lemma PackInWindow(cur: Head, seen: Head)
    requires cur.index <= INVALID && seen.index <= INVALID
    requires seen.tag <= cur.tag < seen.tag + TAG_RANGE && Pack(cur) == Pack(seen)
    ensures cur == seen
  {
    PackEqual(cur, seen);
  }

  datatype Which = FreeStack | UsedStack

  /** What a thread is doing: fetching a mapping, storing the mapping of one
      `Put` call (its ticket), or handing a fetched one back to the caller. */
  datatype Job = Getting | Putting(ticket: nat) | Got(ticket: nat)

  datatype Pc =
    | Idle
    | PopLoaded(job: Job, seen: Head)
    | PopNext(job: Job, seen: Head, next: nat)
    | Popped(job: Job, idx: nat)
    | PushReady(job: Job, idx: nat)
    | PushLoaded(job: Job, idx: nat, seen: Head)
    | PushLinked(job: Job, idx: nat, seen: Head)

  /** Where a slot index is. */
  datatype Place = InFree | InUsed | Hand(thread: nat)

  /** What became of the mapping passed to one `Put` call. */
  datatype Fate = Offered(thread: nat) | Cached(idx: nat) | Held(thread: nat) | Delivered | Refused

  /** Shared memory (heads, links, stored mappings), one program counter per
      thread, and the history the invariants speak of: the two stacks as
      sequences, the place of every slot and the fate of every ticket. */
  datatype State = State(
    free: Head, used: Head, next: seq<nat>, stored: seq<nat>, threads: map<nat, Pc>,
    freeStack: seq<nat>, usedStack: seq<nat>, place: seq<Place>, fate: map<nat, Fate>)

  function PopFrom(job: Job): Which { if job.Getting? then UsedStack else FreeStack }

  function PushTo(job: Job): Which { if job.Got? then FreeStack else UsedStack }

  function HeadOf(s: State, w: Which): Head { if w.FreeStack? then s.free else s.used }

  function StackOf(s: State, w: Which): seq<nat> { if w.FreeStack? then s.freeStack else s.usedStack }

  function Tail(q: seq<nat>): seq<nat> { if |q| > 0 then q[1..] else [] }

  function SetStack(s: State, w: Which, h: Head, stack: seq<nat>): State
  {
    if w.FreeStack? then s.(free := h, freeStack := stack) else s.(used := h, usedStack := stack)
  }

  function At(s: State, t: nat, pc: Pc): State { s.(threads := s.threads[t := pc]) }

  // ---------------------------------------------------------------- the steps

  ghost predicate Init(s: State)
  {
    && s.free == Head(0, 0) && s.used == Head(INVALID, 0)
    && |s.next| == CAPACITY && |s.stored| == CAPACITY && |s.place| == CAPACITY
    && (forall i :: 0 <= i < CAPACITY ==> s.next[i] == if i + 1 < CAPACITY then i + 1 else INVALID)
    && (forall t: nat :: t in s.threads ==> s.threads[t] == Idle)
    && s.freeStack == seq(CAPACITY, i => i) && s.usedStack == []
    && (forall i :: 0 <= i < CAPACITY ==> s.place[i] == InFree)
    && s.fate == map[]
  }

  ghost predicate StartGet(s: State, s': State, t: nat)
  {
    t in s.threads && s.threads[t].Idle? && s' == At(s, t, PopLoaded(Getting, s.used))
  }

  ghost predicate StartPut(s: State, s': State, t: nat)
  {
    && t in s.threads && s.threads[t].Idle?
    && (exists k: nat :: k !in s.fate &&
          s' == At(s, t, PopLoaded(Putting(k), s.free)).(fate := s.fate[k := Offered(t)]))
  }

  /** Pop found the stack empty: `Get` returns null, `Put` refuses. */
  ghost predicate PopEmpty(s: State, s': State, t: nat)
  {
    && t in s.threads && s.threads[t].PopLoaded? && s.threads[t].seen.index == INVALID
    && s' == At(s, t, Idle).(fate :=
         if s.threads[t].job.Putting? then s.fate[s.threads[t].job.ticket := Refused] else s.fate)
  }

  ghost predicate PopReadNext(s: State, s': State, t: nat)
  {
    && t in s.threads && s.threads[t].PopLoaded? && s.threads[t].seen.index < |s.next|
    && s' == At(s, t, PopNext(s.threads[t].job, s.threads[t].seen, s.next[s.threads[t].seen.index]))
  }

  /** The compare-and-swap compares stored words. */
  ghost predicate PopCas(s: State, s': State, t: nat)
  {
    && t in s.threads && s.threads[t].PopNext?
    && var PopNext(job, seen, next) := s.threads[t];
       var w := PopFrom(job);
       && Pack(HeadOf(s, w)) == Pack(seen) && seen.index < |s.place|
       && s' == At(SetStack(s, w, Head(next, seen.tag + 1), Tail(StackOf(s, w))), t, Popped(job, seen.index))
                .(place := s.place[seen.index := Hand(t)],
                  fate := if job.Getting? && seen.index < |s.stored|
                          then s.fate[s.stored[seen.index] := Held(t)] else s.fate)
  }

  /** A failed (or spuriously failing weak) compare-and-swap reloads the head. */
  ghost predicate PopRetry(s: State, s': State, t: nat)
  {
    && t in s.threads && s.threads[t].PopNext?
    && s' == At(s, t, PopLoaded(s.threads[t].job, HeadOf(s, PopFrom(s.threads[t].job))))
  }

  ghost predicate ReadStored(s: State, s': State, t: nat)
  {
    && t in s.threads && s.threads[t].Popped? && s.threads[t].job.Getting? && s.threads[t].idx < |s.stored|
    && s' == At(s, t, PushReady(Got(s.stored[s.threads[t].idx]), s.threads[t].idx))
  }

  ghost predicate WriteStored(s: State, s': State, t: nat)
  {
    && t in s.threads && s.threads[t].Popped? && s.threads[t].job.Putting? && s.threads[t].idx < |s.stored|
    && s' == At(s, t, PushReady(s.threads[t].job, s.threads[t].idx))
             .(stored := s.stored[s.threads[t].idx := s.threads[t].job.ticket])
  }

  ghost predicate PushLoad(s: State, s': State, t: nat)
  {
    && t in s.threads && s.threads[t].PushReady?
    && s' == At(s, t, PushLoaded(s.threads[t].job, s.threads[t].idx, HeadOf(s, PushTo(s.threads[t].job))))
  }

  ghost predicate PushLink(s: State, s': State, t: nat)
  {
    && t in s.threads && s.threads[t].PushLoaded? && s.threads[t].idx < |s.next|
    && s' == At(s, t, PushLinked(s.threads[t].job, s.threads[t].idx, s.threads[t].seen))
             .(next := s.next[s.threads[t].idx := s.threads[t].seen.index])
  }

  /** The push that ends an operation: `Get` returns its mapping, `Put` has
      cached it. */
  ghost predicate PushCas(s: State, s': State, t: nat)
  {
    && t in s.threads && s.threads[t].PushLinked?
    && var PushLinked(job, idx, seen) := s.threads[t];
       var w := PushTo(job);
       && Pack(HeadOf(s, w)) == Pack(seen) && idx < |s.place| && !job.Getting?
       && s' == At(SetStack(s, w, Head(idx, seen.tag + 1), [idx] + StackOf(s, w)), t, Idle)
                .(place := s.place[idx := if w.FreeStack? then InFree else InUsed],
                  fate := s.fate[job.ticket := if job.Got? then Delivered else Cached(idx)])
  }

  ghost predicate PushRetry(s: State, s': State, t: nat)
  {
    && t in s.threads && s.threads[t].PushLinked?
    && s' == At(s, t, PushLoaded(s.threads[t].job, s.threads[t].idx, HeadOf(s, PushTo(s.threads[t].job))))
  }

  ghost predicate StepOf(s: State, s': State, t: nat)
  {
    || StartGet(s, s', t) || StartPut(s, s', t) || PopEmpty(s, s', t) || PopReadNext(s, s', t)
    || PopCas(s, s', t) || PopRetry(s, s', t) || ReadStored(s, s', t) || WriteStored(s, s', t)
    || PushLoad(s, s', t) || PushLink(s, s', t) || PushCas(s, s', t) || PushRetry(s, s', t)
  }

  /** The head a thread has loaded, and from which stack. */
  predicate HasLoaded(pc: Pc) { pc.PopLoaded? || pc.PopNext? || pc.PushLoaded? || pc.PushLinked? }

  function LoadedFrom(pc: Pc): Which
    requires HasLoaded(pc)
  {
    if pc.PopLoaded? || pc.PopNext? then PopFrom(pc.job) else PushTo(pc.job)
  }

  /** The assumption behind 48-bit tags: no operation is overtaken by 2^48
      updates of the head it loaded. */
  ghost predicate NotOvertaken(s: State)
  {
    forall t: nat :: t in s.threads && HasLoaded(s.threads[t]) ==>
      HeadOf(s, LoadedFrom(s.threads[t])).tag < s.threads[t].seen.tag + TAG_RANGE
  }

  ghost predicate Next(s: State, s': State)
  {
    NotOvertaken(s) && exists t: nat :: StepOf(s, s', t)
  }

  // ------------------------------------------------------------ the invariant

  function After(stack: seq<nat>, i: nat): nat { if i + 1 < |stack| then stack[i + 1] else INVALID }

  /** `stack` is the list reached from the head through the links. */
  ghost predicate Linked(next: seq<nat>, h: Head, stack: seq<nat>)
  {
    && h.index == (if |stack| > 0 then stack[0] else INVALID)
    && forall i: nat :: i < |stack| ==> stack[i] < |next| && next[stack[i]] == After(stack, i)
  }

  ghost predicate Shape(s: State)
  {
    && |s.next| == CAPACITY && |s.stored| == CAPACITY && |s.place| == CAPACITY
    && Linked(s.next, s.free, s.freeStack) && Linked(s.next, s.used, s.usedStack)
    && NoDup(s.freeStack) && NoDup(s.usedStack)
  }

  predicate Holds(pc: Pc, i: nat)
  {
    (pc.Popped? || pc.PushReady? || pc.PushLoaded? || pc.PushLinked?) && pc.idx == i
  }

  /** Every index has one place, and the stacks and threads agree with it. */
  ghost predicate Places(s: State)
  {
    && |s.place| == CAPACITY
    && (forall i: nat :: i in s.freeStack <==> i < CAPACITY && s.place[i] == InFree)
    && (forall i: nat :: i in s.usedStack <==> i < CAPACITY && s.place[i] == InUsed)
    && (forall t: nat, i: nat {:trigger Holds(s.threads[t], i)} :: t in s.threads && Holds(s.threads[t], i) ==>
          i < CAPACITY && s.place[i] == Hand(t))
    && (forall i: nat :: i < CAPACITY && s.place[i].Hand? ==>
          s.place[i].thread in s.threads && Holds(s.threads[s.place[i].thread], i))
  }

  /** A loaded head is not newer than the head, and while the tag has not moved
      it is the head and the link read through it is still the true one. */
  ghost predicate LoadedOk(s: State, pc: Pc)
  {
    HasLoaded(pc) ==>
      var cur := HeadOf(s, LoadedFrom(pc));
      && pc.seen.tag <= cur.tag
      && (pc.seen.index < CAPACITY || pc.seen.index == INVALID)
      && (pc.seen.tag == cur.tag ==> pc.seen == cur)
      && (pc.PopNext? ==> pc.seen.index < CAPACITY)
      && (pc.PopNext? && pc.seen.tag == cur.tag && |s.next| == CAPACITY ==> s.next[pc.seen.index] == pc.next)
      && (pc.PushLinked? && pc.idx < |s.next| ==> s.next[pc.idx] == pc.seen.index)
  }

  ghost predicate Loads(s: State)
  {
    forall t: nat :: t in s.threads ==> LoadedOk(s, s.threads[t])
  }

  ghost predicate JobOk(s: State, t: nat, pc: Pc)
  {
    && (pc.PopLoaded? || pc.PopNext? || pc.Popped? ==> !pc.job.Got?)
    && (pc.PushReady? || pc.PushLoaded? || pc.PushLinked? ==> !pc.job.Getting?)
    && (!pc.Idle? && pc.job.Putting? ==> pc.job.ticket in s.fate && s.fate[pc.job.ticket] == Offered(t))
    && (!pc.Idle? && pc.job.Got? ==> pc.job.ticket in s.fate && s.fate[pc.job.ticket] == Held(t))
    && (pc.Popped? && pc.job.Getting? && pc.idx < |s.stored| ==>
          s.stored[pc.idx] in s.fate && s.fate[s.stored[pc.idx]] == Held(t))
    && ((pc.PushReady? || pc.PushLoaded? || pc.PushLinked?) && pc.job.Putting? && pc.idx < |s.stored| ==>
          s.stored[pc.idx] == pc.job.ticket)
  }

  /** Every cached slot stores the ticket whose fate names that slot. */
  ghost predicate Tickets(s: State)
  {
    && (forall t: nat :: t in s.threads ==> JobOk(s, t, s.threads[t]))
    && (forall i: nat :: i in s.usedStack && i < |s.stored| ==>
          s.stored[i] in s.fate && s.fate[s.stored[i]] == Cached(i))
  }

  ghost predicate Inv(s: State)
  {
    Shape(s) && Places(s) && Loads(s) && Tickets(s)
  }

  // ------------------------------------------------------------- preservation

  /** A held index is in neither stack and in no other thread's hands. */
  lemma HeldByOne(s: State, t: nat, i: nat)
    requires Places(s) && t in s.threads && Holds(s.threads[t], i)
    ensures i < CAPACITY && s.place[i] == Hand(t) && i !in s.freeStack && i !in s.usedStack
    ensures forall u: nat :: u in s.threads && u != t ==> !Holds(s.threads[u], i)
  {}

  lemma LinkedFrame(next: seq<nat>, h: Head, stack: seq<nat>, i: nat, v: nat)
    requires Linked(next, h, stack) && i < |next| && i !in stack
    ensures Linked(next[i := v], h, stack)
  {}

  /** Taking the top: the new head is the link read through the old one. */
  lemma LinkedPop(next: seq<nat>, h: Head, stack: seq<nat>, tag: nat)
    requires Linked(next, h, stack) && h.index < |next| <= INVALID
    ensures |stack| > 0 && stack[0] == h.index && Linked(next, Head(next[h.index], tag), Tail(stack))
  {
    var rest := Tail(stack);
    forall k: nat | k < |rest|
      ensures rest[k] < |next| && next[rest[k]] == After(rest, k)
    {
      assert rest[k] == stack[k + 1];
      assert k + 1 < |rest| ==> rest[k + 1] == stack[k + 2];
    }
  }

  lemma LinkedPush(next: seq<nat>, h: Head, stack: seq<nat>, i: nat, tag: nat)
    requires Linked(next, h, stack) && i < |next| && next[i] == h.index
    ensures Linked(next, Head(i, tag), [i] + stack)
  {
    var pushed := [i] + stack;
    forall k: nat | k < |pushed|
      ensures pushed[k] < |next| && next[pushed[k]] == After(pushed, k)
    {
      assert k > 0 ==> pushed[k] == stack[k - 1];
      assert k + 1 < |pushed| ==> pushed[k + 1] == stack[k];
    }
  }

  lemma InitInv(s: State)
    requires Init(s)
    ensures Inv(s)
  {
    forall i: nat | i < CAPACITY
      ensures i in s.freeStack
    {
      assert s.freeStack[i] == i;
    }
  }

  lemma StartGetInv(s: State, s': State, t: nat)
    requires Inv(s) && StartGet(s, s', t)
    ensures Inv(s')
  {}

  lemma StartPutInv(s: State, s': State, t: nat)
    requires Inv(s) && StartPut(s, s', t)
    ensures Inv(s')
  {}

  lemma PopEmptyInv(s: State, s': State, t: nat)
    requires Inv(s) && PopEmpty(s, s', t)
    ensures Inv(s')
  {}

  lemma PopReadNextInv(s: State, s': State, t: nat)
    requires Inv(s) && PopReadNext(s, s', t)
    ensures Inv(s')
  {}

  lemma PopRetryInv(s: State, s': State, t: nat)
    requires Inv(s) && PopRetry(s, s', t)
    ensures Inv(s')
  {}

  lemma ReadStoredInv(s: State, s': State, t: nat)
    requires Inv(s) && ReadStored(s, s', t)
    ensures Inv(s')
  {
    HeldByOne(s, t, s.threads[t].idx);
  }

  lemma WriteStoredInv(s: State, s': State, t: nat)
    requires Inv(s) && WriteStored(s, s', t)
    ensures Inv(s')
  {
    var idx := s.threads[t].idx;
    HeldByOne(s, t, idx);
    forall u: nat | u in s'.threads
      ensures JobOk(s', u, s'.threads[u])
    {
      assert u != t ==> !Holds(s.threads[u], idx);
    }
  }

  lemma PushLoadInv(s: State, s': State, t: nat)
    requires Inv(s) && PushLoad(s, s', t)
    ensures Inv(s')
  {
    HeldByOne(s, t, s.threads[t].idx);
  }

  lemma PushLinkInv(s: State, s': State, t: nat)
    requires Inv(s) && PushLink(s, s', t)
    ensures Inv(s')
  {
    var idx := s.threads[t].idx;
    HeldByOne(s, t, idx);
    LinkedFrame(s.next, s.free, s.freeStack, idx, s.threads[t].seen.index);
    LinkedFrame(s.next, s.used, s.usedStack, idx, s.threads[t].seen.index);
    forall u: nat | u in s'.threads
      ensures LoadedOk(s', s'.threads[u])
    {
      assert u != t ==> !Holds(s.threads[u], idx);
    }
  }

  lemma PushRetryInv(s: State, s': State, t: nat)
    requires Inv(s) && PushRetry(s, s', t)
    ensures Inv(s')
  {
    HeldByOne(s, t, s.threads[t].idx);
  }

  /** A successful pop swap met the very head it had loaded (no ABA), took the
      top slot and installed that slot's true successor. */
  lemma PopCasTakesTop(s: State, s': State, t: nat)
    requires Inv(s) && NotOvertaken(s) && PopCas(s, s', t)
    ensures var w := PopFrom(s.threads[t].job);
            && s.threads[t].seen == HeadOf(s, w)
            && |StackOf(s, w)| > 0 && s.threads[t].seen.index == StackOf(s, w)[0]
            && s.threads[t].next == s.next[StackOf(s, w)[0]]
            && StackOf(s', w) == StackOf(s, w)[1..]
            && Linked(s'.next, HeadOf(s', w), StackOf(s', w))
  {
    var w := PopFrom(s.threads[t].job);
    assert LoadedOk(s, s.threads[t]);
    PackInWindow(HeadOf(s, w), s.threads[t].seen);
    LinkedPop(s.next, HeadOf(s, w), StackOf(s, w), s.threads[t].seen.tag + 1);
  }

  lemma PopCasInv(s: State, s': State, t: nat)
    requires Inv(s) && NotOvertaken(s) && PopCas(s, s', t)
    ensures Inv(s')
  {
    PopCasTakesTop(s, s', t);
    PopMembers(StackOf(s, PopFrom(s.threads[t].job)));
    PopCasPlaces(s, s', t);
    PopCasLoads(s, s', t);
    PopCasTickets(s, s', t);
  }

  lemma PopCasPlaces(s: State, s': State, t: nat)
    requires Places(s) && PopCas(s, s', t)
    requires var stack := StackOf(s, PopFrom(s.threads[t].job));
             && |stack| > 0 && s.threads[t].seen.index == stack[0]
             && forall i: nat :: i in Tail(stack) <==> i in stack && i != stack[0]
    ensures Places(s')
  {
    var idx := s.threads[t].seen.index;
    assert idx in StackOf(s, PopFrom(s.threads[t].job));
    assert Holds(s'.threads[t], idx);
  }

  lemma PopCasLoads(s: State, s': State, t: nat)
    requires Loads(s) && PopCas(s, s', t) && s.threads[t].seen == HeadOf(s, PopFrom(s.threads[t].job))
    ensures Loads(s')
  {
    forall u: nat | u in s'.threads
      ensures LoadedOk(s', s'.threads[u])
    {
      assert u != t ==> LoadedOk(s, s.threads[u]);
    }
  }

  lemma PopCasTickets(s: State, s': State, t: nat)
    requires Shape(s) && Tickets(s) && PopCas(s, s', t)
    requires var stack := StackOf(s, PopFrom(s.threads[t].job));
             && |stack| > 0 && s.threads[t].seen.index == stack[0]
             && forall i: nat :: i in Tail(stack) <==> i in stack && i != stack[0]
    ensures Tickets(s')
  {
    var idx := s.threads[t].seen.index;
    assert idx in StackOf(s, PopFrom(s.threads[t].job));
    forall u: nat | u in s'.threads
      ensures JobOk(s', u, s'.threads[u])
    {
      assert JobOk(s, u, s.threads[u]);
    }
  }

  lemma PushCasInv(s: State, s': State, t: nat)
    requires Inv(s) && NotOvertaken(s) && PushCas(s, s', t)
    ensures Inv(s')
  {
    var w := PushTo(s.threads[t].job);
    assert LoadedOk(s, s.threads[t]);
    PackInWindow(HeadOf(s, w), s.threads[t].seen);
    HeldByOne(s, t, s.threads[t].idx);
    LinkedPush(s.next, HeadOf(s, w), StackOf(s, w), s.threads[t].idx, s.threads[t].seen.tag + 1);
    PushMembers(StackOf(s, w), s.threads[t].idx);
    PushCasPlaces(s, s', t);
    PushCasLoads(s, s', t);
    PushCasTickets(s, s', t);
  }

  lemma PushCasPlaces(s: State, s': State, t: nat)
    requires Places(s) && PushCas(s, s', t)
    ensures Places(s')
  {
    HeldByOne(s, t, s.threads[t].idx);
  }

  lemma PushCasLoads(s: State, s': State, t: nat)
    requires Loads(s) && PushCas(s, s', t) && s.threads[t].seen == HeadOf(s, PushTo(s.threads[t].job))
    ensures Loads(s')
  {
    forall u: nat | u in s'.threads
      ensures LoadedOk(s', s'.threads[u])
    {
      assert u != t ==> LoadedOk(s, s.threads[u]);
    }
  }

  lemma PushCasTickets(s: State, s': State, t: nat)
    requires Shape(s) && Tickets(s) && PushCas(s, s', t) && s.threads[t].idx !in s.usedStack
    ensures Tickets(s')
  {
    forall u: nat | u in s'.threads
      ensures JobOk(s', u, s'.threads[u])
    {
      assert JobOk(s, u, s.threads[u]);
    }
    assert JobOk(s, t, s.threads[t]);
  }

  lemma NextInv(s: State, s': State)
    requires Inv(s) && Next(s, s')
    ensures Inv(s')
  {
    var t: nat :| StepOf(s, s', t);
    if StartGet(s, s', t) { StartGetInv(s, s', t); }
    else if StartPut(s, s', t) { StartPutInv(s, s', t); }
    else if PopEmpty(s, s', t) { PopEmptyInv(s, s', t); }
    else if PopReadNext(s, s', t) { PopReadNextInv(s, s', t); }
    else if PopCas(s, s', t) { PopCasInv(s, s', t); }
    else if PopRetry(s, s', t) { PopRetryInv(s, s', t); }
    else if ReadStored(s, s', t) { ReadStoredInv(s, s', t); }
    else if WriteStored(s, s', t) { WriteStoredInv(s, s', t); }
    else if PushLoad(s, s', t) { PushLoadInv(s, s', t); }
    else if PushLink(s, s', t) { PushLinkInv(s, s', t); }
    else if PushCas(s, s', t) { PushCasInv(s, s', t); }
    else { PushRetryInv(s, s', t); }
  }

  // ---------------------------------------------------------- over whole runs

  ghost predicate StepAt(r: seq<State>, i: nat) { i + 1 < |r| && Next(r[i], r[i + 1]) }

  ghost predicate Run(r: seq<State>)
  {
    |r| > 0 && Init(r[0]) && forall i: nat :: i + 1 < |r| ==> StepAt(r, i)
  }

  lemma {:induction false} RunInv(r: seq<State>, i: nat)
    requires Run(r) && i < |r|
    ensures Inv(r[i])
  {
    if i == 0 {
      InitInv(r[0]);
    } else {
      RunInv(r, i - 1);
      assert StepAt(r, i - 1);
      NextInv(r[i - 1], r[i]);
    }
  }

  /** In every interleaving, what the two heads reach through the links are lists
      without repetition, and every slot index is in exactly one of them or in one
      thread's hands. */
  lemma SlotInExactlyOnePlace(r: seq<State>, i: nat, idx: nat)
    requires Run(r) && i < |r| && idx < CAPACITY
    ensures Linked(r[i].next, r[i].free, r[i].freeStack) && Linked(r[i].next, r[i].used, r[i].usedStack)
    ensures idx in r[i].freeStack || idx in r[i].usedStack
            || exists t: nat :: t in r[i].threads && Holds(r[i].threads[t], idx)
    ensures !(idx in r[i].freeStack && idx in r[i].usedStack)
    ensures forall t: nat :: t in r[i].threads && Holds(r[i].threads[t], idx) ==>
              && idx !in r[i].freeStack && idx !in r[i].usedStack
              && forall u: nat :: u in r[i].threads && Holds(r[i].threads[u], idx) ==> u == t
    ensures NoDup(r[i].freeStack) && NoDup(r[i].usedStack)
  {
    RunInv(r, i);
    forall t: nat | t in r[i].threads && Holds(r[i].threads[t], idx)
      ensures idx !in r[i].freeStack && idx !in r[i].usedStack
      ensures forall u: nat :: u in r[i].threads && Holds(r[i].threads[u], idx) ==> u == t
    {
      HeldByOne(r[i], t, idx);
    }
  }

  /** In every interleaving, a pop's successful compare-and-swap met the very
      head the thread had loaded and left the rest of the stack, in order. */
  lemma PopNeverABA(r: seq<State>, i: nat, t: nat)
    requires Run(r) && i + 1 < |r| && PopCas(r[i], r[i + 1], t)
    ensures var w := PopFrom(r[i].threads[t].job);
            && r[i].threads[t].seen == HeadOf(r[i], w)
            && |StackOf(r[i], w)| > 0
            && r[i].threads[t].seen.index == StackOf(r[i], w)[0]
            && HeadOf(r[i + 1], w).index == After(StackOf(r[i], w), 0)
            && StackOf(r[i + 1], w) == StackOf(r[i], w)[1..]
  {
    RunInv(r, i);
    assert StepAt(r, i);
    PopCasTakesTop(r[i], r[i + 1], t);
  }

  /** The step in which a `Get` call returns the mapping of ticket k. */
  ghost predicate Returns(s: State, s': State, k: nat)
  {
    exists t: nat :: PushCas(s, s', t) && s.threads[t].job == Got(k)
  }

  lemma ReturnsDelivers(s: State, s': State, k: nat)
    requires Inv(s) && Returns(s, s', k)
    ensures k in s.fate && s.fate[k].Held? && k in s'.fate && s'.fate[k] == Delivered
  {
    var t: nat :| PushCas(s, s', t) && s.threads[t].job == Got(k);
    assert JobOk(s, t, s.threads[t]);
  }

  predicate Final(f: Fate) { f.Delivered? || f.Refused? }

  /** Returning a mapping or refusing it ends its ticket's story. */
  lemma FinalFates(s: State, s': State, k: nat)
    requires Inv(s) && Next(s, s') && k in s.fate && Final(s.fate[k])
    ensures k in s'.fate && s'.fate[k] == s.fate[k]
  {
    var t: nat :| StepOf(s, s', t);
    if PopCas(s, s', t) {
      FinalAcrossPop(s, s', t, k);
    } else if PushCas(s, s', t) || PopEmpty(s, s', t) {
      FinalAcrossEnd(s, s', t, k);
    }
  }

  lemma FinalAcrossPop(s: State, s': State, t: nat, k: nat)
    requires Inv(s) && NotOvertaken(s) && PopCas(s, s', t) && k in s.fate && Final(s.fate[k])
    ensures k in s'.fate && s'.fate[k] == s.fate[k]
  {
    if s.threads[t].job.Getting? {
      PopCasTakesTop(s, s', t);
      assert s.usedStack[0] in s.usedStack;
    }
  }

  lemma FinalAcrossEnd(s: State, s': State, t: nat, k: nat)
    requires Tickets(s) && (PushCas(s, s', t) || PopEmpty(s, s', t)) && k in s.fate && Final(s.fate[k])
    ensures k in s'.fate && s'.fate[k] == s.fate[k]
  {
    assert JobOk(s, t, s.threads[t]);
  }

  lemma FinalInRun(r: seq<State>, i: nat, k: nat)
    requires Run(r) && i + 1 < |r| && k in r[i].fate && Final(r[i].fate[k])
    ensures k in r[i + 1].fate && r[i + 1].fate[k] == r[i].fate[k]
  {
    RunInv(r, i);
    assert StepAt(r, i);
    FinalFates(r[i], r[i + 1], k);
  }

  lemma {:induction false} FinalFatesStay(r: seq<State>, i: nat, j: nat, k: nat)
    requires Run(r) && i <= j < |r| && k in r[i].fate && Final(r[i].fate[k])
    ensures k in r[j].fate && r[j].fate[k] == r[i].fate[k]
    decreases j
  {
    if i < j {
      FinalFatesStay(r, i, j - 1, k);
      FinalInRun(r, j - 1, k);
    }
  }

  /** In every interleaving, the mapping of one `Put` call is handed out by at
      most one `Get`, and never after a refusal. */
  lemma HandedOutAtMostOnce(r: seq<State>, i: nat, j: nat, k: nat)
    requires Run(r) && i < |r| - 1 && j < |r| - 1
    requires Returns(r[i], r[i + 1], k) && Returns(r[j], r[j + 1], k)
    ensures i == j
  {
    ReturnedInRun(r, i, k);
    ReturnedInRun(r, j, k);
    if i < j {
      FinalFatesStay(r, i + 1, j, k);
    } else if j < i {
      FinalFatesStay(r, j + 1, i, k);
    }
  }

  lemma ReturnedInRun(r: seq<State>, i: nat, k: nat)
    requires Run(r) && i + 1 < |r| && Returns(r[i], r[i + 1], k)
    ensures k in r[i].fate && r[i].fate[k].Held?
    ensures k in r[i + 1].fate && r[i + 1].fate[k] == Delivered
  {
    RunInv(r, i);
    ReturnsDelivers(r[i], r[i + 1], k);
  }

  // ---- what a call is told, and why it waits

  /** A head that a pop works with was loaded in this step, or before it. */
  lemma LoadedBefore(s: State, s': State, t: nat)
    requires Next(s, s') && t in s'.threads && s'.threads[t].PopLoaded?
    ensures t in s.threads
    ensures s.threads[t] == s'.threads[t] || HeadOf(s, PopFrom(s'.threads[t].job)) == s'.threads[t].seen
  {}

  lemma EmptyHead(s: State, w: Which)
    requires Shape(s)
    ensures HeadOf(s, w).index == INVALID <==> StackOf(s, w) == []
  {}

  /** Thread t is where it is at step j. */
  predicate SamePc(r: seq<State>, k: nat, t: nat, pc: Pc) { k < |r| && t in r[k].threads && r[k].threads[t] == pc }

  lemma {:induction false} LoadOf(r: seq<State>, j: nat, t: nat, pc: Pc) returns (i: nat)
    requires Run(r) && SamePc(r, j, t, pc) && pc.PopLoaded?
    ensures i < j && HeadOf(r[i], PopFrom(pc.job)) == pc.seen && forall k: nat :: i < k <= j ==> SamePc(r, k, t, pc)
    decreases j
  {
    assert j > 0;
    var m := j - 1;
    assert StepAt(r, m);
    LoadedBefore(r[m], r[m + 1], t);
    if HeadOf(r[m], PopFrom(pc.job)) == pc.seen {
      i := m;
    } else {
      i := LoadOf(r, m, t, pc);
    }
  }

  /** Thread t ends a `Get` with null, or refuses the mapping of ticket k. */
  ghost predicate GetIsNull(s: State, s': State, t: nat)
  {
    t in s.threads && !s.threads[t].Idle? && s.threads[t].job.Getting? && t in s'.threads && s'.threads[t].Idle?
  }

  ghost predicate PutIsRefused(s: State, s': State, k: nat)
  {
    k in s'.fate && s'.fate[k].Refused? && !(k in s.fate && s.fate[k].Refused?)
  }

  lemma PopFinds(r: seq<State>, j: nat, t: nat) returns (i: nat)
    requires Run(r) && j + 1 < |r| && PopEmpty(r[j], r[j + 1], t)
    ensures i < j && StackOf(r[i], PopFrom(r[j].threads[t].job)) == []
    ensures forall k: nat :: i < k <= j ==> SamePc(r, k, t, r[j].threads[t])
  {
    var pc := r[j].threads[t];
    i := LoadOf(r, j, t, pc);
    RunInv(r, i);
    EmptyHead(r[i], PopFrom(pc.job));
  }

  lemma NullIsEmpty(s: State, s': State, t: nat)
    requires Next(s, s') && GetIsNull(s, s', t)
    ensures PopEmpty(s, s', t)
  {}

  /** In every interleaving, a `Get` that answers null found no cached mapping: the
      used stack was empty at a moment within the call. */
  lemma NullGetWasEmpty(r: seq<State>, j: nat, t: nat) returns (i: nat)
    requires Run(r) && j + 1 < |r| && GetIsNull(r[j], r[j + 1], t)
    ensures i < j && r[i].usedStack == [] && forall k: nat :: i < k <= j ==> SamePc(r, k, t, r[j].threads[t])
  {
    assert StepAt(r, j);
    NullIsEmpty(r[j], r[j + 1], t);
    i := PopFinds(r, j, t);
  }

  lemma RefusalIsEmpty(s: State, s': State, k: nat) returns (t: nat)
    requires Next(s, s') && PutIsRefused(s, s', k)
    ensures PopEmpty(s, s', t) && s.threads[t].job == Putting(k)
  {
    t :| StepOf(s, s', t);
  }

  /** In every interleaving, a `Put` that is refused found no free slot: the free
      stack was empty, so every slot was cached or in some thread's hands, at a
      moment within the call. */
  lemma RefusedPutWasFull(r: seq<State>, j: nat, k: nat) returns (i: nat, t: nat)
    requires Run(r) && j + 1 < |r| && PutIsRefused(r[j], r[j + 1], k)
    ensures i < j && r[i].freeStack == []
    ensures forall m: nat :: i < m <= j ==> m < |r| && t in r[m].threads && r[m].threads[t].PopLoaded?
                                            && r[m].threads[t].job == Putting(k)
  {
    assert StepAt(r, j);
    t := RefusalIsEmpty(r[j], r[j + 1], k);
    i := PopFinds(r, j, t);
    forall m: nat | i < m <= j
      ensures t in r[m].threads && r[m].threads[t].PopLoaded? && r[m].threads[t].job == Putting(k)
    {
      assert SamePc(r, m, t, r[j].threads[t]);
    }
  }

  /** Thread u updates the head of stack w. */
  ghost predicate Advances(s: State, s': State, u: nat, w: Which)
  {
    || (PopCas(s, s', u) && PopFrom(s.threads[u].job) == w)
    || (PushCas(s, s', u) && PushTo(s.threads[u].job) == w)
  }

  ghost predicate LoadedAt(r: seq<State>, k: nat, t: nat, w: Which, seen: Head)
  {
    && k < |r| && t in r[k].threads && HasLoaded(r[k].threads[t])
    && LoadedFrom(r[k].threads[t]) == w && r[k].threads[t].seen == seen
  }

  /** Only a compare-and-swap changes a head. */
  lemma HeadChange(s: State, s': State, u: nat, w: Which)
    requires StepOf(s, s', u) && HeadOf(s', w) != HeadOf(s, w)
    ensures Advances(s, s', u, w)
  {}

  /** A thread whose loaded head is not the head did not load it in this step. */
  lemma StaleLoad(s: State, s': State, u: nat, t: nat, w: Which)
    requires StepOf(s, s', u) && t in s'.threads && HasLoaded(s'.threads[t]) && LoadedFrom(s'.threads[t]) == w
    requires HeadOf(s', w) != s'.threads[t].seen
    ensures t in s.threads && HasLoaded(s.threads[t]) && LoadedFrom(s.threads[t]) == w
    ensures s.threads[t].seen == s'.threads[t].seen
  {
    if u == t { OwnStaleLoad(s, s', t); } else { OthersKeepPc(s, s', u, t); }
  }

  lemma OthersKeepPc(s: State, s': State, u: nat, t: nat)
    requires StepOf(s, s', u) && u != t && t in s'.threads
    ensures t in s.threads && s.threads[t] == s'.threads[t]
  {}

  lemma OwnStaleLoad(s: State, s': State, t: nat)
    requires StepOf(s, s', t) && t in s'.threads && HasLoaded(s'.threads[t])
    requires HeadOf(s', LoadedFrom(s'.threads[t])) != s'.threads[t].seen
    ensures t in s.threads && HasLoaded(s.threads[t]) && LoadedFrom(s.threads[t]) == LoadedFrom(s'.threads[t])
    ensures s.threads[t].seen == s'.threads[t].seen
  {
    assert PopReadNext(s, s', t) || PushLink(s, s', t);
  }

  lemma OwnSwapEnds(s: State, s': State, t: nat, w: Which)
    requires Advances(s, s', t, w)
    ensures t in s'.threads && !HasLoaded(s'.threads[t])
  {}

  /** One step back from a stale load: it was stale before, or this step is another
      thread's update. */
  lemma StaleBefore(s: State, s': State, t: nat, w: Which) returns (u: Option<nat>)
    requires Next(s, s') && t in s'.threads && HasLoaded(s'.threads[t]) && LoadedFrom(s'.threads[t]) == w
    requires HeadOf(s', w) != s'.threads[t].seen
    ensures t in s.threads && HasLoaded(s.threads[t]) && LoadedFrom(s.threads[t]) == w
    ensures s.threads[t].seen == s'.threads[t].seen
    ensures if u.None? then HeadOf(s', w) == HeadOf(s, w) else u.value != t && Advances(s, s', u.value, w)
  {
    var x: nat :| StepOf(s, s', x);
    StaleLoad(s, s', x, t, w);
    u := None;
    if HeadOf(s', w) != HeadOf(s, w) {
      HeadChange(s, s', x, w);
      if x == t { OwnSwapEnds(s, s', t, w); }
      u := Some(x);
    }
  }

  /** In every interleaving, a compare-and-swap that meets a different word was
      overtaken: since the thread loaded the head, another thread completed an update
      of that same head, and the tag has grown. */
  lemma {:induction false} FailureMeansProgress(r: seq<State>, i: nat, t: nat, w: Which, seen: Head)
    returns (k: nat, u: nat)
    requires Run(r) && LoadedAt(r, i, t, w, seen) && HeadOf(r[i], w) != seen
    ensures seen.tag < HeadOf(r[i], w).tag
    ensures k < i && u != t && Advances(r[k], r[k + 1], u, w)
    ensures forall m: nat :: k <= m <= i ==> LoadedAt(r, m, t, w, seen)
    decreases i
  {
    TagGrew(r, i, t, w, seen);
    var x := StaleAt(r, i - 1, t, w, seen);
    if x.Some? {
      k, u := i - 1, x.value;
    } else {
      k, u := FailureMeansProgress(r, i - 1, t, w, seen);
    }
  }

  lemma TagGrew(r: seq<State>, i: nat, t: nat, w: Which, seen: Head)
    requires Run(r) && LoadedAt(r, i, t, w, seen) && HeadOf(r[i], w) != seen
    ensures i > 0 && seen.tag < HeadOf(r[i], w).tag
  {
    RunInv(r, i);
    assert LoadedOk(r[i], r[i].threads[t]);
  }

  lemma StaleAt(r: seq<State>, m: nat, t: nat, w: Which, seen: Head) returns (u: Option<nat>)
    requires Run(r) && LoadedAt(r, m + 1, t, w, seen) && HeadOf(r[m + 1], w) != seen
    ensures LoadedAt(r, m, t, w, seen)
    ensures if u.None? then HeadOf(r[m], w) != seen else u.value != t && Advances(r[m], r[m + 1], u.value, w)
  {
    assert StepAt(r, m);
    u := StaleBefore(r[m], r[m + 1], t, w);
  }

  /** A step that is not an idle retry: a retry only where the stored word differs
      from the loaded one. */
  ghost predicate Works(s: State, s': State, t: nat)
  {
    && StepOf(s, s', t)
    && (PopRetry(s, s', t) || PushRetry(s, s', t) ==>
          Pack(HeadOf(s, LoadedFrom(s.threads[t]))) != Pack(s.threads[t].seen))
  }

  lemma PopSwap(s: State, t: nat) returns (s': State)
    requires t in s.threads && s.threads[t].PopNext? && s.threads[t].seen.index < |s.place|
    requires Pack(HeadOf(s, PopFrom(s.threads[t].job))) == Pack(s.threads[t].seen)
    ensures PopCas(s, s', t) && !PopRetry(s, s', t)
  {
    var PopNext(job, seen, next) := s.threads[t];
    var w := PopFrom(job);
    s' := At(SetStack(s, w, Head(next, seen.tag + 1), Tail(StackOf(s, w))), t, Popped(job, seen.index))
          .(place := s.place[seen.index := Hand(t)],
            fate := if job.Getting? && seen.index < |s.stored|
                    then s.fate[s.stored[seen.index] := Held(t)] else s.fate);
    assert s'.threads[t].Popped?;
  }

  lemma CanPop(s: State, t: nat)
    requires Inv(s) && t in s.threads && s.threads[t].PopNext?
    ensures exists s': State :: Works(s, s', t)
  {
    var PopNext(job, seen, next) := s.threads[t];
    var w := PopFrom(job);
    if Pack(HeadOf(s, w)) == Pack(seen) {
      assert LoadedOk(s, s.threads[t]);
      var s' := PopSwap(s, t);
      assert Works(s, s', t);
    } else {
      var s' := At(s, t, PopLoaded(job, HeadOf(s, w)));
      assert PopRetry(s, s', t) && Works(s, s', t);
    }
  }

  lemma CanPush(s: State, t: nat)
    requires Inv(s) && t in s.threads && s.threads[t].PushLinked?
    ensures exists s': State :: Works(s, s', t)
  {
    var PushLinked(job, idx, seen) := s.threads[t];
    assert JobOk(s, t, s.threads[t]);
    HeldByOne(s, t, idx);
    var w := PushTo(job);
    if Pack(HeadOf(s, w)) == Pack(seen) {
      var s' := At(SetStack(s, w, Head(idx, seen.tag + 1), [idx] + StackOf(s, w)), t, Idle)
                .(place := s.place[idx := if w.FreeStack? then InFree else InUsed],
                  fate := s.fate[job.ticket := if job.Got? then Delivered else Cached(idx)]);
      assert PushCas(s, s', t) && Works(s, s', t);
    } else {
      var s' := At(s, t, PushLoaded(job, idx, HeadOf(s, w)));
      assert PushRetry(s, s', t) && Works(s, s', t);
    }
  }

  lemma CanStep(s: State, t: nat)
    requires Inv(s) && t in s.threads && !s.threads[t].PopNext? && !s.threads[t].PushLinked?
    ensures exists s': State :: Works(s, s', t)
  {
    var pc := s.threads[t];
    assert LoadedOk(s, pc) && JobOk(s, t, pc);
    var s': State;
    match pc {
      case Idle => s' := At(s, t, PopLoaded(Getting, s.used)); assert StartGet(s, s', t);
      case PopLoaded(job, seen) =>
        if seen.index == INVALID {
          s' := At(s, t, Idle).(fate := if job.Putting? then s.fate[job.ticket := Refused] else s.fate);
          assert PopEmpty(s, s', t);
        } else {
          s' := At(s, t, PopNext(job, seen, s.next[seen.index]));
          assert PopReadNext(s, s', t);
        }
      case Popped(job, idx) =>
        HeldByOne(s, t, idx);
        if job.Getting? {
          s' := At(s, t, PushReady(Got(s.stored[idx]), idx));
          assert ReadStored(s, s', t);
        } else {
          s' := At(s, t, PushReady(job, idx)).(stored := s.stored[idx := job.ticket]);
          assert WriteStored(s, s', t);
        }
      case PushReady(job, idx) =>
        s' := At(s, t, PushLoaded(job, idx, HeadOf(s, PushTo(job)))); assert PushLoad(s, s', t);
      case PushLoaded(job, idx, seen) =>
        HeldByOne(s, t, idx);
        s' := At(s, t, PushLinked(job, idx, seen)).(next := s.next[idx := seen.index]);
        assert PushLink(s, s', t);
    }
    assert Works(s, s', t);
  }

  /** In every interleaving, no thread reads outside the slot array or gets stuck:
      it can take its next step, and its compare-and-swap whenever the word it
      loaded is still there. */
  lemma NeverStuck(r: seq<State>, i: nat, t: nat)
    requires Run(r) && i < |r| && t in r[i].threads
    ensures exists s': State :: Works(r[i], s', t)
  {
    RunInv(r, i);
    var pc := r[i].threads[t];
    if pc.PopNext? { CanPop(r[i], t); } else if pc.PushLinked? { CanPush(r[i], t); } else { CanStep(r[i], t); }
  }
}
