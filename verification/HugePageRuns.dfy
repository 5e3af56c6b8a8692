/** The way of a mapping through the lock-free cache, from the `Put` that stores it to
    the `Get` that returns it (src/page_allocator.cpp). */
module HugePageRuns {
  import opened Lists
  import opened HugePageCache

  /** Ticket k's mapping is in a slot of the used stack. */
  ghost predicate IsCached(s: State, k: nat)
  {
    exists i: nat :: i in s.usedStack && i < |s.stored| && s.stored[i] == k
  }

  /** Thread t completes the `Put` of ticket k: its call ends without a refusal. */
  ghost predicate PutDone(s: State, s': State, t: nat, k: nat)
  {
    && t in s.threads && !s.threads[t].Idle? && s.threads[t].job == Putting(k)
    && t in s'.threads && s'.threads[t].Idle? && !PutIsRefused(s, s', k)
  }

  /** Thread u, in a `Get`, takes the top slot of the used stack, which holds k's
      mapping. */
  ghost predicate GetTakes(s: State, s': State, u: nat, k: nat)
  {
    && u in s.threads && !s.threads[u].Idle? && s.threads[u].job.Getting? && s.usedStack != []
    && s.usedStack[0] < |s.stored| && s.stored[s.usedStack[0]] == k
    && s'.usedStack == s.usedStack[1..] && u in s'.threads && Holds(s'.threads[u], s.usedStack[0])
  }

  ghost predicate PutAt(r: seq<State>, i: nat, t: nat, k: nat) { i + 1 < |r| && PutDone(r[i], r[i + 1], t, k) }

  ghost predicate Taken(s: State, s': State, k: nat) { exists u: nat :: GetTakes(s, s', u, k) }

  ghost predicate TakenAt(r: seq<State>, i: nat, k: nat) { i + 1 < |r| && Taken(r[i], r[i + 1], k) }

  ghost predicate CachedAt(r: seq<State>, i: nat, k: nat) { i < |r| && IsCached(r[i], k) }

  // ------------------------------------------------------------ completed puts

  lemma DoneIsPush(s: State, s': State, t: nat, k: nat)
    requires Tickets(s) && Next(s, s') && PutDone(s, s', t, k)
    ensures PushCas(s, s', t)
  {
    assert JobOk(s, t, s.threads[t]);
  }

  lemma DoneCaches(s: State, s': State, t: nat, k: nat)
    requires Inv(s) && Next(s, s') && PutDone(s, s', t, k)
    ensures IsCached(s', k)
  {
    DoneIsPush(s, s', t, k);
    assert JobOk(s, t, s.threads[t]);
    var i := s.threads[t].idx;
    HeldByOne(s, t, i);
    assert i in s'.usedStack && s'.stored[i] == k;
  }

  /** A `Put` takes its slot off the free stack: no cached mapping is touched. */
  lemma PutPopsFree(s: State, s': State, t: nat)
    requires Inv(s) && NotOvertaken(s) && PopCas(s, s', t) && s.threads[t].job.Putting?
    ensures s.freeStack != [] && s'.freeStack == s.freeStack[1..] && s'.usedStack == s.usedStack
    ensures s'.stored == s.stored && Holds(s'.threads[t], s.freeStack[0])
  {
    PopCasTakesTop(s, s', t);
  }

  /** A `Get` takes the most recently cached mapping and leaves the free stack. */
  lemma GetPopsUsed(s: State, s': State, t: nat)
    requires Inv(s) && NotOvertaken(s) && PopCas(s, s', t) && s.threads[t].job.Getting?
    ensures s.usedStack != [] && s.usedStack[0] < |s.stored| && s'.usedStack == s.usedStack[1..]
    ensures s'.freeStack == s.freeStack && s'.stored == s.stored && Holds(s'.threads[t], s.usedStack[0])
  {
    PopCasTakesTop(s, s', t);
    assert s.usedStack[0] in s.usedStack;
  }

  // --------------------------------------------------------- while it is cached

  /** Only the holder of a slot writes it. */
  lemma StillStored(s: State, s': State, i: nat)
    requires Inv(s) && Next(s, s') && i in s.usedStack
    ensures i < |s.stored| == |s'.stored| && s'.stored[i] == s.stored[i]
  {
    var t: nat :| StepOf(s, s', t);
    if WriteStored(s, s', t) { HeldByOne(s, t, s.threads[t].idx); }
  }

  lemma SameUsed(s: State, s': State, t: nat)
    requires StepOf(s, s', t) && !PopCas(s, s', t) && !PushCas(s, s', t)
    ensures s'.usedStack == s.usedStack
  {}

  lemma PushKeepsUsed(s: State, s': State, t: nat, i: nat)
    requires PushCas(s, s', t) && i in s.usedStack
    ensures i in s'.usedStack
  {}

  /** Only the top of the used stack ever leaves it, and only to a `Get`. */
  lemma UsedLoses(s: State, s': State, t: nat, i: nat)
    requires Inv(s) && NotOvertaken(s) && PopCas(s, s', t) && i in s.usedStack && i !in s'.usedStack && i < |s.stored|
    ensures GetTakes(s, s', t, s.stored[i])
  {
    assert JobOk(s, t, s.threads[t]);
    if s.threads[t].job.Putting? {
      PutPopsFree(s, s', t);
    } else {
      GetPopsUsed(s, s', t);
      PopMembers(s.usedStack);
    }
  }

  lemma CachedStep(r: seq<State>, n: nat, k: nat)
    requires Run(r) && n + 1 < |r| && CachedAt(r, n, k)
    ensures CachedAt(r, n + 1, k) || TakenAt(r, n, k)
  {
    RunInv(r, n);
    assert StepAt(r, n);
    var s, s' := r[n], r[n + 1];
    var i: nat :| i in s.usedStack && i < |s.stored| && s.stored[i] == k;
    StillStored(s, s', i);
    if i !in s'.usedStack {
      var t: nat :| StepOf(s, s', t);
      if PopCas(s, s', t) { UsedLoses(s, s', t, i); }
      else if PushCas(s, s', t) { PushKeepsUsed(s, s', t, i); }
      else { SameUsed(s, s', t); }
    }
  }

  lemma {:induction false} CachedUntil(r: seq<State>, i: nat, j: nat, k: nat) returns (m: nat)
    requires Run(r) && i <= j < |r| && CachedAt(r, i, k)
    ensures CachedAt(r, j, k) || (i <= m < j && TakenAt(r, m, k))
    decreases j - i
  {
    m := i;
    if i < j {
      m := CachedUntil(r, i, j - 1, k);
      if CachedAt(r, j - 1, k) {
        CachedStep(r, j - 1, k);
        m := j - 1;
      }
    }
  }

  lemma PutCaches(r: seq<State>, i: nat, t: nat, k: nat)
    requires Run(r) && i + 1 < |r| && PutAt(r, i, t, k)
    ensures CachedAt(r, i + 1, k)
  {
    RunInv(r, i);
    assert StepAt(r, i);
    DoneCaches(r[i], r[i + 1], t, k);
  }

  /** In every interleaving, a completed `Put` leaves its mapping in a slot of the used
      stack until a `Get` takes that slot. */
  lemma PutStaysCached(r: seq<State>, i: nat, j: nat, t: nat, k: nat) returns (m: nat)
    requires Run(r) && i < j < |r| && PutAt(r, i, t, k)
    ensures CachedAt(r, i + 1, k)
    ensures CachedAt(r, j, k) || (i < m < j && TakenAt(r, m, k))
  {
    PutCaches(r, i, t, k);
    m := CachedUntil(r, i + 1, j, k);
  }

  // ------------------------------------------------------- what a Get returns

  /** The tickets whose mapping is, or was, in the cache. */
  ghost predicate Once(s: State, k: nat)
  {
    k in s.fate && (s.fate[k].Cached? || s.fate[k].Held? || s.fate[k].Delivered?)
  }

  lemma OnceSame(s: State, s': State, t: nat, k: nat)
    requires StepOf(s, s', t) && !PopCas(s, s', t) && !PushCas(s, s', t) && Once(s', k)
    ensures Once(s, k)
  {}

  lemma OncePushed(s: State, s': State, t: nat, k: nat)
    requires Tickets(s) && PushCas(s, s', t) && Once(s', k)
    ensures Once(s, k) || PutDone(s, s', t, k)
  {
    assert JobOk(s, t, s.threads[t]);
  }

  lemma OncePopped(s: State, s': State, t: nat, k: nat)
    requires Inv(s) && NotOvertaken(s) && PopCas(s, s', t) && Once(s', k)
    ensures Once(s, k)
  {
    if s.threads[t].job.Getting? {
      PopCasTakesTop(s, s', t);
      assert s.usedStack[0] in s.usedStack;
    }
  }

  lemma OnceBefore(r: seq<State>, n: nat, k: nat) returns (t: nat)
    requires Run(r) && n + 1 < |r| && Once(r[n + 1], k)
    ensures Once(r[n], k) || PutAt(r, n, t, k)
  {
    RunInv(r, n);
    assert StepAt(r, n);
    t :| StepOf(r[n], r[n + 1], t);
    if PopCas(r[n], r[n + 1], t) { OncePopped(r[n], r[n + 1], t, k); }
    else if PushCas(r[n], r[n + 1], t) { OncePushed(r[n], r[n + 1], t, k); }
    else { OnceSame(r[n], r[n + 1], t, k); }
  }

  lemma {:induction false} OnceSince(r: seq<State>, j: nat, k: nat) returns (i: nat, t: nat)
    requires Run(r) && j < |r| && Once(r[j], k)
    ensures i < j && PutAt(r, i, t, k)
    decreases j
  {
    assert j > 0;
    i := j - 1;
    t := OnceBefore(r, i, k);
    if !PutAt(r, i, t, k) { i, t := OnceSince(r, i, k); }
  }

  /** In every interleaving, what a `Get` returns was put before, by a `Put` that
      completed. */
  lemma GetReturnsAPut(r: seq<State>, j: nat, k: nat) returns (i: nat, t: nat)
    requires Run(r) && j + 1 < |r| && Returns(r[j], r[j + 1], k)
    ensures i < j && PutAt(r, i, t, k)
  {
    ReturnedInRun(r, j, k);
    i, t := OnceSince(r, j, k);
  }
}
