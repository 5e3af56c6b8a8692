/** Bounded drains stay within their byte budget. */
module CentralDrain {
  import opened Config
  import opened CentralStore
  import opened CentralCache
  import opened CentralInvariant
  import opened CentralRuns
  import opened SizeClass

  // --------------------------------------------------------------- byte budget

  predicate BudgetOk(b: Budget) { b.unbounded || b.left + b.drained == b.total }

  /** The objects still to be detached fit what is left of the budget. */
  predicate RemOk(c: nat, rem: nat, b: Budget) { BudgetOk(b) && (b.unbounded || Bytes(c, rem) <= b.left) }

  predicate Draining(pc: Pc)
  {
    pc.DClass? || pc.DSnap? || pc.DLoop? || pc.DTake? || (Releasing(pc) && pc.ret.ToDrain?)
  }

  predicate DrainOk(pc: Pc)
  {
    && (pc.DClass? || pc.DSnap? ==> BudgetOk(pc.b))
    && (pc.DLoop? ==> RemOk(pc.c, pc.rem, pc.b))
    && (pc.DTake? ==> RemOk(pc.c, pc.rem, pc.b) && 0 < pc.d <= pc.rem)
    && (Releasing(pc) && pc.ret.ToDrain? ==> RemOk(pc.c, pc.ret.rem, pc.ret.b) && 0 < pc.ret.d <= pc.ret.rem)
  }

  lemma SpentOk(c: nat, rem: nat, d: nat, b: Budget)
    requires RemOk(c, rem, b) && d <= rem
    ensures RemOk(c, rem - d, Spent(b, Bytes(c, d)))
    ensures !b.unbounded ==> b.drained + Bytes(c, d) <= b.total
  {
    MulMonotone(d, rem, CalculateSize(c));
    Distribute(rem, d, CalculateSize(c));
  }

  lemma Distribute(rem: nat, d: nat, size: nat)
    requires d <= rem
    ensures (rem - d) * size == rem * size - d * size
  {}

  lemma SnapshotFits(c: nat, size: nat, b: Budget)
    requires BudgetOk(b)
    ensures RemOk(c, SnapshotCount(c, size, b), b)
  {
    SizePositive(c);
    var q := Quot(b.left, CalculateSize(c));
    DivBounds(b.left, CalculateSize(c));
    MulMonotone(SnapshotCount(c, size, b), if b.unbounded then SnapshotCount(c, size, b) else q, CalculateSize(c));
  }

  lemma BudgetPop(s: Sys, s': Sys, t: nat)
    requires PopWork(s, s', t)
    ensures !Draining(s'.threads[t].pc)
  {}

  lemma BudgetPush(s: Sys, s': Sys, t: nat)
    requires PushWork(s, s', t)
    ensures !Draining(s'.threads[t].pc)
  {}

  lemma BudgetEnter(s: Sys, s': Sys, t: nat)
    requires EnterWork(s, s', t)
    ensures !Draining(s'.threads[t].pc)
  {}

  lemma BudgetScan(s: Sys, s': Sys, t: nat)
    requires ScanWork(s, s', t)
    ensures !Draining(s'.threads[t].pc)
  {}

  lemma BudgetStore(s: Sys, s': Sys, t: nat)
    requires StoreWork(s, s', t) && DrainOk(s.threads[t].pc)
    ensures DrainOk(s'.threads[t].pc)
  {
    var pc := s.threads[t].pc;
    if pc.Release? && pc.ret.ToDrain? { SpentOk(pc.c, pc.ret.rem, pc.ret.d, pc.ret.b); }
  }

  lemma BudgetFree(s: Sys, s': Sys, t: nat)
    requires FreeWork(s, s', t) && DrainOk(s.threads[t].pc)
    ensures DrainOk(s'.threads[t].pc)
  {
  }

  lemma BudgetDrain(s: Sys, s': Sys, t: nat)
    requires DrainWork(s, s', t) && DrainOk(s.threads[t].pc)
    ensures DrainOk(s'.threads[t].pc)
  {
    var pc := s.threads[t].pc;
    if pc.DSnap? { SnapshotFits(pc.c, |Of(s.st, Transfer(pc.c))|, pc.b); }
  }

  lemma BudgetWorks(s: Sys, s': Sys, t: nat)
    requires Works(s, s', t) && DrainOk(s.threads[t].pc)
    ensures DrainOk(s'.threads[t].pc)
  {
    if PopWork(s, s', t) { BudgetPop(s, s', t); }
    else if PushWork(s, s', t) { BudgetPush(s, s', t); }
    else if EnterWork(s, s', t) { BudgetEnter(s, s', t); }
    else if ScanWork(s, s', t) { BudgetScan(s, s', t); }
    else if StoreWork(s, s', t) { BudgetStore(s, s', t); }
    else if FreeWork(s, s', t) { BudgetFree(s, s', t); }
    else { BudgetDrain(s, s', t); }
  }

  lemma BudgetDo(s: Sys, s': Sys, u: nat, a: Action, t: nat)
    requires Do(s, s', u, a) && t < |s.threads| && DrainOk(s.threads[t].pc)
    ensures t < |s'.threads| && DrainOk(s'.threads[t].pc)
  {
    OthersStay(s, s', u, a, t);
    if u == t && a.Continue? { BudgetWorks(s, s', t); }
  }

  lemma {:induction false} RunBudget(r: seq<Sys>, i: nat, t: nat)
    requires Run(r) && i < |r| && t < |r[i].threads|
    ensures DrainOk(r[i].threads[t].pc)
  {
    if i > 0 {
      assert StepAt(r, i - 1);
      var u: nat, a :| Do(r[i - 1], r[i], u, a);
      OthersStay(r[i - 1], r[i], u, a, t);
      RunBudget(r, i - 1, t);
      BudgetDo(r[i - 1], r[i], u, a, t);
    }
  }

  /** What thread t has taken from the transfer caches for its drain: the bytes
      accounted for and those of the batch it is working on. */
  function TakenBytes(pc: Pc): nat
  {
    if pc.DClass? || pc.DSnap? || pc.DLoop? then pc.b.drained
    else if pc.DTake? then pc.b.drained + Bytes(pc.c, pc.d)
    else if Releasing(pc) && pc.ret.ToDrain? then pc.ret.b.drained + Bytes(pc.c, pc.ret.d)
    else 0
  }

  function BudgetOf(pc: Pc): Budget
    requires Draining(pc)
  {
    if Releasing(pc) then pc.ret.b else pc.b
  }

  /** A bounded drain never takes more bytes than it was asked to, whatever other
      threads do meanwhile. */
  lemma DrainWithinBudget(r: seq<Sys>, i: nat, t: nat)
    requires Run(r) && i < |r| && t < |r[i].threads| && Draining(r[i].threads[t].pc)
    ensures var pc := r[i].threads[t].pc;
            var b := BudgetOf(pc);
            !b.unbounded ==> TakenBytes(pc) <= b.total && b.left + b.drained == b.total
  {
    var pc := r[i].threads[t].pc;
    RunBudget(r, i, t);
    if pc.DTake? { SpentOk(pc.c, pc.rem, pc.d, pc.b); }
    if Releasing(pc) { SpentOk(pc.c, pc.ret.rem, pc.ret.d, pc.ret.b); }
  }
}
