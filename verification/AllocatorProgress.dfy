/** Nothing the composed allocator has to do is ever impossible: the guards inside
    its steps hold whenever the invariant does, so a free, a refill or a return of a
    span never finds the layer below unable to take it. */
module AllocatorProgress {
  import opened Config
  import opened CentralStore
  import opened PageHeap
  import opened SizeClass
  import opened Allocator
  import opened AllocatorRuns
  import C = CentralCache
  import P = PageLayer
  import PageCache

  predicate IdleThread(s: Sys, t: nat) { t < |s.central.threads| && s.central.threads[t].pc.Idle? }

  lemma IndexOf(q: seq<Obj>, o: Obj) returns (i: nat)
    requires o in q
    ensures i < |q| && q[i] == o
  {
    i :| 0 <= i < |q| && q[i] == o;
  }

  lemma CentralTakesBack(k: C.Sys, t: nat, c: nat, i: nat, cacheless: bool) returns (k': C.Sys)
    requires C.At(k, t) && k.threads[t].pc.Idle? && c < NUM_CLASSES && i < |Of(k.st, User(c))|
    ensures if cacheless then C.StartSingle(k, k', t, c, i) else C.UserFree(k, k', t, c, i)
  {
    k' := if cacheless
          then C.Goto(k, t, C.Release(c, C.ToTransfer, C.ToIdle)).(st := C.GiveBack(Enter(k.st, t, c), c, i, Batch(t)))
          else C.Goto(k, t, C.Idle).(st := C.GiveBack(k.st, c, i, Local(t, c)));
  }

  lemma SmallCanBeFreed(s: Sys, t: nat, o: Obj, cacheless: bool) returns (s': Sys, i: nat)
    requires Inv(s) && Live(s, Small(o)) && IdleThread(s, t)
    ensures Free(s, s', t, Small(o), i, cacheless)
  {
    Resolves(s, Small(o));
    var c := s.central.st.spans[o.span].cls;
    i := IndexOf(Of(s.central.st, User(c)), o);
    assert c < NUM_CLASSES && C.At(s.central, t);
    var k := CentralTakesBack(s.central, t, c, i, cacheless);
    s' := s.(central := k);
  }

  lemma LargeCanBeFreed(s: Sys, t: nat, id: nat, cacheless: bool) returns (s': Sys)
    requires Inv(s) && Live(s, Large(id))
    ensures Free(s, s', t, Large(id), 0, cacheless)
  {
    Resolves(s, Large(id));
    LiveSpan(s, Large(id));
    var h', ops := PageCache.ReleaseExists(s.page.h, id);
    s' := Sys(P.Sys(h', s.page.detached), s.central, s.large - {id}, s.asked);
    assert P.Release(s.page, s'.page, id);
  }

  /** Over any run: every live block can be freed, by any idle thread, with a cache
      or without. */
  lemma EveryBlockCanBeFreed(r: seq<Sys>, j: nat, t: nat, b: Block, cacheless: bool) returns (s': Sys, i: nat)
    requires Run(r) && j < |r| && Live(r[j], b) && IdleThread(r[j], t)
    ensures Free(r[j], s', t, b, i, cacheless) && !Live(s', b)
  {
    RunInv(r, j);
    if b.Small? {
      s', i := SmallCanBeFreed(r[j], t, b.o, cacheless);
    } else {
      i := 0;
      s' := LargeCanBeFreed(r[j], t, b.id, cacheless);
    }
    FreeTakes(r[j], s', t, b, i, cacheless, b);
  }

  ghost predicate Asking(s: Sys, t: nat) { t < |s.central.threads| && s.central.threads[t].pc.Ask? }

  /** The pages a thread asks PageCache for. */
  function Wanted(s: Sys, t: nat): nat
    requires t < |s.central.threads| && s.central.threads[t].pc.Ask?
  {
    MovePages(s.central.threads[t].pc.c)
  }

  lemma CentralGets(k: C.Sys, t: nat, id: nat) returns (k': C.Sys)
    requires C.At(k, t) && k.threads[t].pc.Ask? && id !in k.st.spans
    ensures C.AskGot(k, k', t, id)
  {
    var pc := k.threads[t].pc;
    k' := C.Goto(k, t, C.Relock(pc.c, pc.n, pc.need, pc.k, Some(id)))
          .(st := AddSpan(k.st, id, pc.c, C.ClassCapacity(pc.c)), home := k.home[id := C.Fresh(t)]);
  }

  lemma GivenSpan(s: Sys, t: nat, env: PageCache.Env, id: nat) returns (m: P.Sys, s': Sys)
    requires Inv(s) && Asking(s, t) && PageCache.EnvOk(s.page.h, Wanted(s, t), env)
    requires PageCache.AllocHeap(s.page.h, Wanted(s, t), env).1 == Some(id)
    ensures RefillSpan(s, m, s', t, env, id)
  {
    var pc := s.central.threads[t].pc;
    m := P.Sys(PageCache.AllocHeap(s.page.h, Wanted(s, t), env).0, s.page.detached);
    P.AllocInv(s.page, m, Wanted(s, t), env);
    assert P.AllocReturns(s.page, m, Wanted(s, t), env, id);
    assert id !in s.central.st.spans && C.At(s.central, t);
    var k := CentralGets(s.central, t, id);
    var h' := Annotate(m.h, id, m.h.spans[id].committed, CalculateSize(pc.c), pc.c);
    s' := Sys(P.Sys(h', m.detached), k, s.large, s.asked);
  }

  lemma RefusedSpan(s: Sys, t: nat, env: PageCache.Env) returns (s': Sys)
    requires Inv(s) && Asking(s, t) && PageCache.EnvOk(s.page.h, Wanted(s, t), env)
    requires PageCache.AllocHeap(s.page.h, Wanted(s, t), env).1.None?
    ensures RefillFails(s, s', t, env)
  {
    var pc := s.central.threads[t].pc;
    s' := Sys(P.Sys(PageCache.AllocHeap(s.page.h, Wanted(s, t), env).0, s.page.detached),
              C.Goto(s.central, t, C.Relock(pc.c, pc.n, pc.need, pc.k, None)), s.large, s.asked);
  }

  /** Over any run: whatever the system, the descriptor pool and the radix nodes
      answer, a thread that asks PageCache for a span goes on: with the span, which
      can be carved, or with the refusal, and with the refusal exactly when nothing
      free is long enough and the system fails, or a needed descriptor does. */
  lemma EveryRequestIsAnswered(r: seq<Sys>, j: nat, t: nat, env: PageCache.Env) returns (s': Sys, a: Action)
    requires Run(r) && j < |r| && Asking(r[j], t)
    requires PageCache.EnvOk(r[j].page.h, Wanted(r[j], t), env)
    ensures Does(r[j], s', t, a) && s'.central.threads[t].pc.Relock?
    ensures if PageCache.Refused(r[j].page.h, Wanted(r[j], t), env) then a == DoRefillFail(env)
            else a.DoRefill? && a.env == env && s'.central.threads[t].pc.got == Some(a.id)
  {
    RunInv(r, j);
    var s := r[j];
    PageCache.AllocRefusedExactly(s.page.h, Wanted(s, t), env);
    var got := PageCache.AllocHeap(s.page.h, Wanted(s, t), env).1;
    if got.None? {
      s' := RefusedSpan(s, t, env);
      a := DoRefillFail(env);
    } else {
      var m;
      m, s' := GivenSpan(s, t, env, got.value);
      a := DoRefill(m, env, got.value);
    }
  }

  ghost predicate Returning(s: Sys, t: nat)
  {
    t < |s.central.threads| && s.central.threads[t].pc.Empties? && s.central.threads[t].empties != []
  }

  /** Over any run: an empty span a thread has collected can go back to PageCache. */
  lemma EveryEmptySpanGoesBack(r: seq<Sys>, j: nat, t: nat) returns (s': Sys)
    requires Run(r) && j < |r| && Returning(r[j], t)
    ensures ReturnSpan(r[j], s', t)
  {
    RunInv(r, j);
    s' := CanReturn(r[j], t);
  }

  lemma EmptyIsUsed(s: Sys, t: nat)
    requires Inv(s) && Returning(s, t)
    ensures var id := s.central.threads[t].empties[0];
            id in s.page.h.spans && s.page.h.spans[id].used && id !in s.page.detached && C.At(s.central, t)
  {
    var e := s.central.threads[t].empties;
    assert e[0] in e;
    assert e[0] in s.central.st.spans;
    assert e[0] in Used(s.page.h);
  }

  lemma CentralDrops(k: C.Sys, t: nat) returns (k': C.Sys)
    requires C.At(k, t) && k.threads[t].pc.Empties? && k.threads[t].empties != []
    ensures C.DropEmpty(k, k', t)
  {
    var e := k.threads[t].empties;
    k' := k.(st := DropSpan(k.st, e[0]), home := k.home - {e[0]},
             threads := k.threads[t := C.Thread(k.threads[t].pc, e[1..])]);
  }

  lemma CanReturn(s: Sys, t: nat) returns (s': Sys)
    requires Inv(s) && Returning(s, t)
    ensures ReturnSpan(s, s', t)
  {
    EmptyIsUsed(s, t);
    var id := s.central.threads[t].empties[0];
    var h', ops := PageCache.ReleaseExists(s.page.h, id);
    var k := CentralDrops(s.central, t);
    s' := Sys(P.Sys(h', s.page.detached), k, s.large, s.asked);
    assert P.Release(s.page, s'.page, id);
  }

  /** Over any run: a large request is served, or refused exactly when nothing free is
      long enough and the system fails, or a needed descriptor does. */
  lemma EveryLargeRequestIsAnswered(r: seq<Sys>, j: nat, size: nat, env: PageCache.Env) returns (s': Sys)
    requires Run(r) && j < |r| && MAX_TC_SIZE < size <= MAX_SIZE_T - 4095
    requires PageCache.EnvOk(r[j].page.h, CeilDiv(size, 4096), env)
    ensures if PageCache.Refused(r[j].page.h, CeilDiv(size, 4096), env)
            then MallocFails(r[j], s', CeilDiv(size, 4096), env)
            else exists id: nat :: MallocLarge(r[j], s', size, env, id)
  {
    RunInv(r, j);
    PageCache.AllocRefusedExactly(r[j].page.h, CeilDiv(size, 4096), env);
    s' := LargeAnswer(r[j], size, env);
  }

  lemma LargeAnswer(s: Sys, size: nat, env: PageCache.Env) returns (s': Sys)
    requires Inv(s) && MAX_TC_SIZE < size <= MAX_SIZE_T - 4095 && PageCache.EnvOk(s.page.h, CeilDiv(size, 4096), env)
    ensures if PageCache.AllocHeap(s.page.h, CeilDiv(size, 4096), env).1.None?
            then MallocFails(s, s', CeilDiv(size, 4096), env) else exists id: nat :: MallocLarge(s, s', size, env, id)
  {
    var (h', got) := PageCache.AllocHeap(s.page.h, CeilDiv(size, 4096), env);
    var page := P.Sys(h', s.page.detached);
    if got.None? {
      s' := s.(page := page);
    } else {
      s' := s.(page := page, large := s.large[got.value := size]);
      assert MallocLarge(s, s', size, env, got.value);
    }
  }
}
