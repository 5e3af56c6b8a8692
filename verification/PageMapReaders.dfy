/** Lock-free `PageMap::GetSpan` (src/page_cache.cpp) as five separate loads, run
    against writers that publish nodes and store leaves between any two of them. */
module PageMapReaders {
  import opened PageMap

  /** How far a reader has walked: it holds the node of the level it reached. */
  datatype Pc = Start | AtRoot | At1(node: nat) | At2(node: nat) | At3(node: nat) | Done(span: nat)

  datatype State = State(tree: Tree, pc: Pc)

  /** One publication by a writer: the root, a node with null children, or a leaf. */
  ghost predicate Write(t: Tree, t': Tree)
  {
    || (!t.rooted && t' == SetRoot(t))
    || (exists p: nat :: GrowAt(t, t', p))
    || (exists p: nat, v: nat :: StoreAt(t, t', p, v))
  }

  ghost predicate GrowAt(t: Tree, t': Tree, p: nat)
  {
    WellFormed(t) && t.rooted && I0(p) < NODE &&
    ( || (Node1(t, p) == 0 && t' == AddNode1(t, p))
      || (Node1(t, p) != 0 && Node2(t, p) == 0 && t' == AddNode2(t, p))
      || (Node2(t, p) != 0 && Node3(t, p) == 0 && t' == AddNode3(t, p)))
  }

  ghost predicate StoreAt(t: Tree, t': Tree, p: nat, v: nat)
  {
    WellFormed(t) && HasPath(t, p) && t' == StoreLeaf(t, p, v)
  }

  /** One load of the reader looking for `page`. */
  function Read(t: Tree, pc: Pc, page: nat): Pc
  {
    match pc
    case Start => if !t.rooted || I0(page) >= NODE then Done(0) else AtRoot
    case AtRoot =>
      var n := if I0(page) < |t.root| then t.root[I0(page)] else 0;
      if n == 0 then Done(0) else At1(n)
    case At1(n) => var m := Child(t.l1, n, I1(page)); if m == 0 then Done(0) else At2(m)
    case At2(n) => var m := Child(t.l2, n, I2(page)); if m == 0 then Done(0) else At3(m)
    case At3(n) => Done(Child(t.l3, n, I3(page)))
    case Done(v) => pc
  }

  ghost predicate Next(s: State, s': State, page: nat)
  {
    || (s'.pc == s.pc && Write(s.tree, s'.tree))
    || (s'.tree == s.tree && !s.pc.Done? && s'.pc == Read(s.tree, s.pc, page))
  }

  /** A walking reader holds the page's own node of its level. */
  ghost predicate OnPath(s: State, page: nat)
  {
    && WellFormed(s.tree)
    && (!s.pc.Start? && !s.pc.Done? ==> s.tree.rooted && I0(page) < NODE)
    && (s.pc.At1? ==> s.pc.node == Node1(s.tree, page) != 0)
    && (s.pc.At2? ==> s.pc.node == Node2(s.tree, page) != 0)
    && (s.pc.At3? ==> s.pc.node == Node3(s.tree, page) != 0)
  }

  lemma WriteGrows(t: Tree, t': Tree)
    requires WellFormed(t) && Write(t, t')
    ensures WellFormed(t') && Extends(t, t')
  {
    if !t.rooted && t' == SetRoot(t) {
      SetRootGrows(t);
    } else if p: nat :| GrowAt(t, t', p) {
      GrowthGrows(t, t', p);
    } else {
      var p: nat, v: nat :| StoreAt(t, t', p, v);
      StoreLeafExact(t, p, v);
    }
  }

  lemma GrowthGrows(t: Tree, t': Tree, p: nat)
    requires GrowAt(t, t', p)
    ensures WellFormed(t') && Extends(t, t') && SameLookups(t, t')
  {
    if Node1(t, p) == 0 {
      AddNode1Grows(t, p);
    } else if Node2(t, p) == 0 {
      AddNode2Grows(t, p);
    } else {
      AddNode3Grows(t, p);
    }
  }

  lemma NextOnPath(s: State, s': State, page: nat)
    requires OnPath(s, page) && Next(s, s', page)
    ensures OnPath(s', page)
  {
    if s'.pc == s.pc && Write(s.tree, s'.tree) {
      WriteGrows(s.tree, s'.tree);
    } else {
      PathHome(s.tree, page);
    }
  }

  /** The load that finishes a read answers with the mapping of that moment. */
  lemma AnswerIsCurrent(s: State, s': State, page: nat)
    requires OnPath(s, page) && Next(s, s', page) && !s.pc.Done? && s'.pc.Done?
    ensures s'.tree == s.tree && s'.pc.span == Lookup(s.tree, page)
  {
    PathHome(s.tree, page);
  }

  /** A call: it starts at the first state and the last state holds its answer. */
  ghost predicate Call(r: seq<State>, page: nat)
  {
    && |r| > 0 && WellFormed(r[0].tree) && r[0].pc == Start
    && (forall i :: 0 <= i < |r| - 1 ==> Next(r[i], r[i + 1], page))
  }

  lemma {:induction false} CallOnPath(r: seq<State>, page: nat, i: nat)
    requires Call(r, page) && i < |r|
    ensures OnPath(r[i], page)
  {
    if i > 0 {
      CallOnPath(r, page, i - 1);
      NextOnPath(r[i - 1], r[i], page);
    }
  }

  /** Every lock-free read returns what the page was mapped to at some moment
      between its first load and its return, whatever writers did meanwhile. */
  lemma {:induction false} ReadIsLinearizable(r: seq<State>, page: nat) returns (i: nat)
    requires Call(r, page) && r[|r| - 1].pc.Done?
    ensures i < |r| && Lookup(r[i].tree, page) == r[|r| - 1].pc.span
    decreases |r|
  {
    var last := |r| - 1;
    assert r[last - 1 + 1] == r[last];
    CallOnPath(r, page, last - 1);
    if r[last - 1].pc.Done? {
      i := ReadIsLinearizable(r[..last], page);
    } else {
      i := last - 1;
      AnswerIsCurrent(r[last - 1], r[last], page);
    }
  }
}
