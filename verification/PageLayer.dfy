/** The page layer under every interleaving of allocations, releases and the
    scavenger: each locked section of PageCache and of `ScavengeOnePass`
    (src/page_heap_scavenger.cpp) is one step, and `madvise` runs between them. */
module PageLayer {
  import opened Config
  import opened PageHeap
  import opened PageCache

  /** The heap, and the spans the scavenger has detached with the record each had
      when it left its bucket. */
  datatype Sys = Sys(h: Heap, detached: map<nat, SpanRec>)

  ghost predicate Init(s: Sys)
  {
    Valid(s.h) && s.h.spans == map[] && s.detached == map[]
  }

  /** One allocation, with any answers from the system, the descriptor pool and
      the radix nodes. */
  ghost predicate Alloc(s: Sys, s': Sys, n: nat, env: Env)
  {
    && Valid(s.h) && EnvOk(s.h, n, env)
    && s'.h == AllocHeap(s.h, n, env).0 && s'.detached == s.detached
  }

  /** The span an allocation returned. */
  ghost predicate AllocReturns(s: Sys, s': Sys, n: nat, env: Env, id: nat)
  {
    Alloc(s, s', n, env) && AllocHeap(s.h, n, env).1 == Some(id)
  }

  /** A client releases a span of its own, never one the scavenger holds. */
  ghost predicate Release(s: Sys, s': Sys, id: nat)
  {
    id !in s.detached && Releases(s.h, s'.h, id) && s'.detached == s.detached
  }

  /** A client carves a span of its own for objects of one class. */
  ghost predicate Carve(s: Sys, s': Sys, id: nat, objSize: nat, classIdx: nat)
  {
    && id in Used(s.h) && id !in s.detached
    && s'.h == Annotate(s.h, id, s.h.spans[id].committed, objSize, classIdx) && s'.detached == s.detached
  }

  ghost predicate Detach(s: Sys, s': Sys, id: nat)
  {
    && id in s.h.spans && !s.h.spans[id].used && s.h.spans[id].committed
    && s.h.spans[id].pages < |s.h.lists| && id in s.h.lists[s.h.spans[id].pages]
    && s'.h == DetachOne(s.h, id) && s'.detached == s.detached[id := s.h.spans[id]]
  }

  ghost predicate Advise(s: Sys, s': Sys, id: nat)
  {
    && id in s.detached && id in s.h.spans
    && s'.h == Annotate(s.h, id, false, s.h.spans[id].objSize, s.h.spans[id].classIdx)
    && s'.detached == s.detached
  }

  /** The span is pushed to the bucket it was taken from, whatever its record
      says now. */
  ghost predicate Return(s: Sys, s': Sys, id: nat)
  {
    && id in s.detached && id in s.h.spans && s.detached[id].pages < |s.h.lists|
    && s'.h == ReturnOne(s.h, s.detached[id].pages, id) && s'.detached == s.detached - {id}
  }

  ghost predicate Next(s: Sys, s': Sys)
  {
    || (exists n: nat, env: Env :: Alloc(s, s', n, env))
    || (exists id: nat :: Release(s, s', id) || Detach(s, s', id) || Advise(s, s', id) || Return(s, s', id))
    || (exists id: nat, size: nat, idx: nat :: Carve(s, s', id, size, idx))
  }

  /** A detached span is still used, covers the pages it covered when it left its
      bucket, and carries no objects. */
  ghost predicate Apart(s: Sys)
  {
    forall id: nat :: id in s.detached ==>
      && id in Used(s.h)
      && Used(s.h)[id].start == s.detached[id].start && Used(s.h)[id].pages == s.detached[id].pages
      && Used(s.h)[id].objSize == 0
  }

  ghost predicate Inv(s: Sys) { Valid(s.h) && Apart(s) }

  lemma AllocInv(s: Sys, s': Sys, n: nat, env: Env)
    requires Inv(s) && Alloc(s, s', n, env)
    ensures Inv(s')
    ensures AllocHeap(s.h, n, env).1.None? ==> Used(s'.h) == Used(s.h)
    ensures forall id: nat :: AllocReturns(s, s', n, env, id) ==> Allocated(s.h, s'.h, id, n) && id !in s.detached
  {
    AllocHeapOk(s.h, n, env);
  }

  lemma ReleaseInv(s: Sys, s': Sys, id: nat)
    requires Inv(s) && Release(s, s', id)
    ensures Inv(s') && Used(s'.h) == Used(s.h) - {id}
  {
    ReleasesOk(s.h, s'.h, id);
  }

  lemma DetachInv(s: Sys, s': Sys, id: nat)
    requires Inv(s) && Detach(s, s', id)
    ensures Inv(s')
  {
    DetachOneOk(s.h, id);
  }

  lemma AdviseInv(s: Sys, s': Sys, id: nat)
    requires Inv(s) && Advise(s, s', id)
    ensures Inv(s')
  {
    AnnotateOk(s.h, id, false, s.h.spans[id].objSize, s.h.spans[id].classIdx);
  }

  /** Returning needs the bucket to match the span's length at that moment; the
      span's isolation is what makes it match. */
  lemma ReturnInv(s: Sys, s': Sys, id: nat)
    requires Inv(s) && Return(s, s', id)
    ensures Inv(s') && id in s'.h.lists[s.h.spans[id].pages]
  {
    ReturnOneOk(s.h, s.detached[id].pages, id);
  }

  lemma CarveInv(s: Sys, s': Sys, id: nat, objSize: nat, classIdx: nat)
    requires Inv(s) && Carve(s, s', id, objSize, classIdx)
    ensures Inv(s')
    ensures Used(s'.h) == Used(s.h)[id := Used(s.h)[id].(objSize := objSize, classIdx := classIdx)]
  {
    AnnotateOk(s.h, id, s.h.spans[id].committed, objSize, classIdx);
  }

  lemma NextInv(s: Sys, s': Sys)
    requires Inv(s) && Next(s, s')
    ensures Inv(s')
  {
    if n: nat, env: Env :| Alloc(s, s', n, env) {
      AllocInv(s, s', n, env);
    } else if id: nat :| Release(s, s', id) {
      ReleaseInv(s, s', id);
    } else if id: nat :| Detach(s, s', id) {
      DetachInv(s, s', id);
    } else if id: nat :| Advise(s, s', id) {
      AdviseInv(s, s', id);
    } else if id: nat :| Return(s, s', id) {
      ReturnInv(s, s', id);
    } else if id: nat, size: nat, idx: nat :| Carve(s, s', id, size, idx) {
      CarveInv(s, s', id, size, idx);
    }
  }

  ghost predicate Run(r: seq<Sys>)
  {
    |r| > 0 && Init(r[0]) && forall i :: 0 <= i < |r| - 1 ==> Next(r[i], r[i + 1])
  }

  lemma {:induction false} RunInv(r: seq<Sys>, i: nat)
    requires Run(r) && i < |r|
    ensures Inv(r[i])
  {
    if i > 0 {
      RunInv(r, i - 1);
      NextInv(r[i - 1], r[i]);
    }
  }

  /** In every run with arbitrary failures: `GetSpan(p) == id` exactly when p lies
      in live span `id`, live spans partition the held pages, every free span is
      in the bucket of its page count and in no other, and every leaf names a
      live descriptor. */
  lemma PageMapExactInRuns(r: seq<Sys>, i: nat)
    requires Run(r) && i < |r|
    ensures forall id: nat, p: nat :: id in r[i].h.spans ==>
              (Covers(r[i].h.spans[id], p) <==> p in r[i].h.pageMap && r[i].h.pageMap[p] == id)
    ensures forall p: nat :: p in r[i].h.held <==> p in r[i].h.pageMap
    ensures forall p: nat :: p in r[i].h.pageMap ==> r[i].h.pageMap[p] in r[i].h.spans
    ensures forall id: nat, k: nat :: id in r[i].h.spans && k < |r[i].h.lists| ==>
              (id in r[i].h.lists[k] <==> !r[i].h.spans[id].used && k == r[i].h.spans[id].pages)
  {
    RunInv(r, i);
    var h := r[i].h;
    forall id: nat, p: nat | id in h.spans
      ensures Covers(h.spans[id], p) <==> p in h.pageMap && h.pageMap[p] == id
    {
      LookupExact(h, p);
    }
    forall id: nat, k: nat | id in h.spans && k < |h.lists|
      ensures id in h.lists[k] <==> !h.spans[id].used && k == h.spans[id].pages
    {
      FreeSpanInOneBucket(h, id);
    }
  }

  /** A step other than its own return leaves a detached span used and over the
      same pages: it is not split, merged or recycled. */
  lemma DetachedUntouched(r: seq<Sys>, i: nat, id: nat)
    requires Run(r) && i + 1 < |r| && id in r[i].detached && id in r[i + 1].detached
    ensures id in Used(r[i].h) && id in Used(r[i + 1].h)
    ensures Used(r[i + 1].h)[id].start == Used(r[i].h)[id].start && Used(r[i + 1].h)[id].pages == Used(r[i].h)[id].pages
  {
    RunInv(r, i);
    RunInv(r, i + 1);
    SameRecord(r[i], r[i + 1], id);
  }

  /** No allocation of any run hands out a span the scavenger holds or a client
      still uses. */
  lemma AllocNeverTakesUsed(r: seq<Sys>, i: nat, n: nat, env: Env, id: nat)
    requires Run(r) && i + 1 < |r| && AllocReturns(r[i], r[i + 1], n, env, id)
    ensures id !in r[i].detached && id !in Used(r[i].h) && id in Used(r[i + 1].h)
    ensures Used(r[i + 1].h)[id].pages == n
    ensures AddedApart(Used(r[i].h), Used(r[i + 1].h), id)
  {
    RunInv(r, i);
    RunInv(r, i + 1);
    AllocInv(r[i], r[i + 1], n, env);
    NewSpanApart(r[i].h, r[i + 1].h, id, n);
  }

  /** The used spans of before are unchanged and share no page with span `id`. */
  ghost predicate AddedApart(before: map<nat, SpanRec>, after: map<nat, SpanRec>, id: nat)
  {
    && id in after
    && forall x: nat :: x in before ==>
         x in after && after[x] == before[x] && forall p: nat :: !(Covers(before[x], p) && Covers(after[id], p))
  }

  lemma NewSpanApart(h: Heap, h': Heap, id: nat, n: nat)
    requires Valid(h') && Allocated(h, h', id, n)
    ensures AddedApart(Used(h), Used(h'), id)
  {
    forall x: nat, p: nat | x in Used(h)
      ensures !(Covers(Used(h)[x], p) && Covers(Used(h')[id], p))
    {
      assert Used(h')[x] == Used(h)[x];
      LookupExact(h', p);
    }
  }

  lemma SameRecord(s: Sys, s': Sys, id: nat)
    requires Inv(s) && Next(s, s') && id in s.detached && id in s'.detached
    ensures s'.detached[id] == s.detached[id]
  {
    if x: nat :| Detach(s, s', x) {
      assert x != id;
    }
  }

  /** When the scavenger gives a span back, it joins the bucket of its own page
      count and covers the pages it covered when it was taken. */
  lemma ReturnsToItsBucket(r: seq<Sys>, i: nat, id: nat)
    requires Run(r) && i + 1 < |r| && Return(r[i], r[i + 1], id)
    ensures id in r[i + 1].h.spans && !r[i + 1].h.spans[id].used
    ensures r[i + 1].h.spans[id].start == r[i].detached[id].start
    ensures r[i + 1].h.spans[id].pages == r[i].detached[id].pages < |r[i + 1].h.lists|
    ensures id in r[i + 1].h.lists[r[i + 1].h.spans[id].pages]
  {
    RunInv(r, i);
    ReturnInv(r[i], r[i + 1], id);
  }
}
