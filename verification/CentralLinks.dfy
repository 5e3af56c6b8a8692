/** The links CentralCache and the thread lists write into free objects, under
    every interleaving (src/central_cache.cpp, include/ammalloc/free_list.h).
    Each step of CentralCache comes with the pointer writes it does, while the
    user writes whatever they like into the blocks they hold. */
module CentralLinks {
  import opened Config
  import opened Lists
  import opened CentralStore
  import opened CentralCache
  import CI = CentralInvariant
  import F = FreeLists

  /** `lists` has the descriptor of every chained box: a thread's list (head and
      size), the chain a fetch builds and the part of a batch still to be read. */
  datatype State = State(s: Sys, next: F.Links, lists: map<Box, F.FreeChain>)

  /** The boxes whose objects are linked; the others are arrays, or the user's. */
  predicate Chained(b: Box) { b.Local? || b.Chain? || b.Batch? }

  function Desc(lists: map<Box, F.FreeChain>, b: Box): F.FreeChain { if b in lists then lists[b] else F.EMPTY }

  // ------------------------------------------------------------------- writes

  /** `FreeList::pop`: the head's link becomes the head. */
  function Popped(next: F.Links, d: F.FreeChain): F.FreeChain
  {
    F.FreeChain(if d.head.None? then None else F.Link(next, d.head.value), d.tail,
                if d.count == 0 then 0 else d.count - 1)
  }

  /** Head insertion of o; an object put into an empty chain is also its tail. */
  function Pushed(d: F.FreeChain, o: Obj): F.FreeChain
  {
    F.FreeChain(Some(o), if d.head.None? then Some(o) else d.tail, d.count + 1)
  }

  /** The last of the `keep` nodes that stay is found by a walk, and cut off. */
  function Cut(next: F.Links, d: F.FreeChain, keep: nat): F.Links
  {
    var p := if keep == 0 then None else F.Walk(next, d.head, keep - 1);
    if p.None? then next else next[p.value := None]
  }

  /** The first of the `k` nodes that leave, and the last one, found by walks. */
  function Suffix(next: F.Links, d: F.FreeChain, keep: nat, k: nat): F.FreeChain
  {
    if k == 0 then F.EMPTY else F.FreeChain(F.Walk(next, d.head, keep), F.Walk(next, d.head, keep + k - 1), k)
  }

  /** `ReleaseBatch` has read k more nodes. */
  function Advanced(next: F.Links, d: F.FreeChain, k: nat): F.FreeChain
  {
    F.FreeChain(F.Walk(next, d.head, k), if d.count <= k then None else d.tail, if d.count <= k then 0 else d.count - k)
  }

  /** The chain of an array of pointers, linked in the order of q. */
  function Array(q: seq<Obj>): F.FreeChain { F.FreeChain(F.NodeAt(q, 0), F.LastOf(q), |q|) }

  /** `PushBatch`: the chain's tail is linked to the list's head. */
  function JoinLinks(next: F.Links, chain: F.FreeChain, list: F.FreeChain): F.Links
  {
    if chain.tail.None? then next else next[chain.tail.value := list.head]
  }

  function Join(chain: F.FreeChain, list: F.FreeChain): F.FreeChain
  {
    if chain.tail.None? then list else F.FreeChain(chain.head, list.tail, chain.count + list.count)
  }

  /** What a call that goes on writes; it depends on where the thread is. */
  ghost function Continued(x: State, t: nat): State
    requires t < |x.s.threads|
  {
    var pc, st := x.s.threads[t].pc, x.s.st;
    var scratch := Of(st, Scratch(t));
    if pc.Link? then State(x.s, F.LinkUp(x.next, scratch), x.lists[Chain(t) := Array(scratch)])
    else if pc.Leftover? || (pc.DTake? && |scratch| == pc.d) then
      State(x.s, F.LinkUp(x.next, Reversed(scratch)), x.lists[Batch(t) := Array(Reversed(scratch))])
    else if pc.Fetched? then
      var chain, list := Desc(x.lists, Chain(t)), Desc(x.lists, Local(t, pc.c));
      State(x.s, JoinLinks(x.next, chain, list), x.lists[Local(t, pc.c) := Join(chain, list)][Chain(t) := F.EMPTY])
    else if pc.Release? then
      var d := Desc(x.lists, Batch(t));
      State(x.s, x.next, x.lists[Batch(t) := Advanced(x.next, d, Min(d.count, MAX_BATCH))])
    else x
  }

  /** Links and descriptors after an action of thread t. */
  ghost function Written(x: State, t: nat, a: Action): State
    requires t < |x.s.threads|
  {
    match a
    case CallMalloc(c) =>
      State(x.s, x.next, x.lists[Local(t, c) := Popped(x.next, Desc(x.lists, Local(t, c)))])
    case CallFree(c, i) =>
      var u := Of(x.s.st, User(c));
      if i >= |u| then x
      else
        var d := Desc(x.lists, Local(t, c));
        State(x.s, x.next[u[i] := d.head], x.lists[Local(t, c) := Pushed(d, u[i])])
    case CallFetch(c, n) => State(x.s, x.next, x.lists[Chain(t) := F.EMPTY])
    case CallRelease(c, k, mode) =>
      var d := Desc(x.lists, Local(t, c));
      if k > d.count then x
      else
        var keep := d.count - k;
        State(x.s, if k == 0 then x.next else Cut(x.next, d, keep),
              x.lists[Local(t, c) := F.FreeChain(if keep == 0 then None else d.head, d.tail, keep)]
                     [Batch(t) := Suffix(x.next, d, keep, k)])
    case CallReleaseOne(c, i) =>
      var u := Of(x.s.st, User(c));
      if i >= |u| then x else State(x.s, x.next[u[i] := None], x.lists[Batch(t) := Pushed(F.EMPTY, u[i])])
    case CallDrain(bytes) => x
    case GiveSlot(slot) =>
      var pc := x.s.threads[t].pc;
      if !pc.Take? || pc.k >= pc.need || pc.c >= |x.s.lists| || x.s.lists[pc.c] == [] then x
      else
        var o, d := Obj(x.s.lists[pc.c][0], slot), Desc(x.lists, Chain(t));
        State(x.s, x.next[o := d.head], x.lists[Chain(t) := Pushed(d, o)])
    case GiveSpan(id) => x
    case Continue => Continued(x, t)
  }

  /** One step of CentralCache with its writes. */
  ghost predicate Acts(x: State, x': State, t: nat, a: Action)
  {
    && Do(x.s, x'.s, t, a) && t < |x.s.threads|
    && x'.next == Written(x, t, a).next && x'.lists == Written(x, t, a).lists
  }

  /** The user writes into a block they hold; memory that is not carved belongs to
      others, who write into it too. */
  ghost predicate Scribbles(x: State, x': State, o: Obj, p: F.Ptr)
  {
    && (o.span !in x.s.st.spans || exists c: nat :: o in Of(x.s.st, User(c)))
    && x' == State(x.s, x.next[o := p], x.lists)
  }

  ghost predicate Step(x: State, x': State)
  {
    || (exists t: nat, a: Action :: Acts(x, x', t, a))
    || (exists o: Obj, p: F.Ptr :: Scribbles(x, x', o, p))
  }

  ghost predicate Steps(r: seq<State>, i: nat) { i + 1 < |r| && Step(r[i], r[i + 1]) }

  ghost predicate LinkedRun(r: seq<State>)
  {
    && |r| > 0 && CentralCache.Init(r[0].s) && r[0].lists == map[]
    && forall i: nat :: i + 1 < |r| ==> Steps(r, i)
  }

  // ------------------------------------------------------------ the invariant

  /** Descriptor d has exactly the objects q; a thread's list keeps no tail. */
  ghost predicate Good(next: F.Links, d: F.FreeChain, q: seq<Obj>, tailed: bool)
  {
    F.Linked(next, d.head, q) && d.count == |q| && (tailed ==> d.tail == F.LastOf(q))
  }

  ghost predicate BoxGood(st: Store, next: F.Links, lists: map<Box, F.FreeChain>, b: Box)
  {
    Good(next, Desc(lists, b), Of(st, b), !b.Local?)
  }

  ghost predicate LinksOk(st: Store, next: F.Links, lists: map<Box, F.FreeChain>)
  {
    forall b: Box {:trigger BoxGood(st, next, lists, b)} :: Chained(b) ==> BoxGood(st, next, lists, b)
  }

  // ------------------------------------------------------------------ one chain

  lemma PoppedGood(next: F.Links, d: F.FreeChain, q: seq<Obj>)
    requires Good(next, d, q, false) && q != []
    ensures Good(next, Popped(next, d), q[1..], false) && d.head == Some(q[0])
  {}

  lemma PushedGood(next: F.Links, d: F.FreeChain, q: seq<Obj>, o: Obj, tailed: bool)
    requires Good(next, d, q, tailed) && o !in q
    ensures Good(next[o := d.head], Pushed(d, o), [o] + q, tailed)
  {
    F.HeadInsert(next, d.head, q, o);
  }

  lemma ArrayGood(next: F.Links, q: seq<Obj>)
    requires NoDup(q)
    ensures Good(F.LinkUp(next, q), Array(q), q, true)
    ensures forall o: Obj :: o !in q ==> F.Link(F.LinkUp(next, q), o) == F.Link(next, o)
  {
    F.LinkUpChain(next, q);
  }

  lemma JoinGood(next: F.Links, a: F.FreeChain, p: seq<Obj>, b: F.FreeChain, q: seq<Obj>)
    requires Good(next, a, p, true) && Good(next, b, q, false) && forall o: Obj :: o in p ==> o !in q
    ensures Good(JoinLinks(next, a, b), Join(a, b), p + q, false)
    ensures forall o: Obj :: o !in p ==> F.Link(JoinLinks(next, a, b), o) == F.Link(next, o)
  {
    if p == [] {
      assert p + q == q;
    } else {
      assert p[|p| - 1] in p;
      F.LinkedJoin(next, a.head, p, b.head, q);
    }
  }

  lemma AdvancedGood(next: F.Links, d: F.FreeChain, q: seq<Obj>, k: nat)
    requires Good(next, d, q, true) && k <= |q|
    ensures Good(next, Advanced(next, d, k), q[k..], true) && F.Reads(next, d.head, k) == q[..k]
  {
    F.WalkChain(next, d.head, q, k);
  }

  /** `PopRangeTail`: the newest `keep` objects stay, the oldest k leave. */
  lemma CutGood(next: F.Links, d: F.FreeChain, q: seq<Obj>, k: nat)
    requires Good(next, d, q, false) && 0 < k <= |q|
    ensures var keep := |q| - k;
            && Good(Cut(next, d, keep), F.FreeChain(if keep == 0 then None else d.head, d.tail, keep), q[..keep], false)
            && Good(Cut(next, d, keep), Suffix(next, d, keep, k), q[keep..], true)
            && forall o: Obj :: o !in q ==> F.Link(Cut(next, d, keep), o) == F.Link(next, o)
  {
    var keep := |q| - k;
    F.WalkChain(next, d.head, q, keep);
    F.WalkChain(next, d.head, q, |q| - 1);
    if keep > 0 {
      F.WalkChain(next, d.head, q, keep - 1);
      F.LinkedCut(next, d.head, q, keep);
      F.AfterCut(next, d.head, q, keep);
    }
  }

  // ------------------------------------------------------------------ all chains

  /** An object in one box is in no other. */
  lemma Elsewhere(st: Store, a: Box, b: Box)
    requires BoxesOk(st) && a != b
    ensures forall o: Obj :: o in Of(st, a) ==> o !in Of(st, b)
  {}

  /** Only links of objects in box a may differ. */
  ghost predicate WritesIn(st: Store, next: F.Links, next': F.Links, a: Box)
  {
    forall o: Obj :: o !in Of(st, a) ==> F.Link(next', o) == F.Link(next, o)
  }

  /** Boxes other than a and b have the same objects and descriptors. */
  ghost predicate OnlyThese(st: Store, st': Store, lists: map<Box, F.FreeChain>, lists': map<Box, F.FreeChain>, a: Box,
                            b: Box)
  {
    forall x: Box {:trigger Of(st', x)} :: Chained(x) && x != a && x != b ==>
      Of(st', x) == Of(st, x) && Desc(lists', x) == Desc(lists, x)
  }

  lemma KeptGood(st: Store, st': Store, next: F.Links, next': F.Links, lists: map<Box, F.FreeChain>,
                 lists': map<Box, F.FreeChain>, w: Box, x: Box)
    requires BoxesOk(st) && x != w && WritesIn(st, next, next', w)
    requires BoxGood(st, next, lists, x) && Of(st', x) == Of(st, x) && Desc(lists', x) == Desc(lists, x)
    ensures BoxGood(st', next', lists', x)
  {
    Elsewhere(st, w, x);
    F.LinkedFrame(next, next', Desc(lists, x).head, Of(st, x));
  }

  /** A step that writes links of objects in box w and changes boxes a and b. */
  lemma OthersGood(st: Store, st': Store, next: F.Links, next': F.Links, lists: map<Box, F.FreeChain>,
                   lists': map<Box, F.FreeChain>, w: Box, a: Box, b: Box)
    requires BoxesOk(st) && LinksOk(st, next, lists) && WritesIn(st, next, next', w)
    requires OnlyThese(st, st', lists, lists', a, b) && (Chained(w) ==> w == a || w == b)
    requires Chained(a) ==> BoxGood(st', next', lists', a)
    requires Chained(b) ==> BoxGood(st', next', lists', b)
    ensures LinksOk(st', next', lists')
  {
    forall x: Box | Chained(x)
      ensures BoxGood(st', next', lists', x)
    {
      if x != a && x != b {
        assert BoxGood(st, next, lists, x);
        KeptGood(st, st', next, next', lists, lists', w, x);
      }
    }
  }

  /** The objects move from box a to box b, and the descriptors of both are set. */
  lemma MovedLinks(st: Store, st': Store, next: F.Links, next': F.Links, lists: map<Box, F.FreeChain>,
                   lists': map<Box, F.FreeChain>, w: Box, a: Box, b: Box)
    requires BoxesOk(st) && LinksOk(st, next, lists) && WritesIn(st, next, next', w) && (w == a || w == b)
    requires st'.boxes == st.boxes[a := Of(st', a)][b := Of(st', b)]
    requires forall x: Box :: x in lists' && x != a && x != b ==> x in lists && lists'[x] == lists[x]
    requires forall x: Box :: x in lists && x != a && x != b ==> x in lists'
    requires Chained(a) ==> Good(next', Desc(lists', a), Of(st', a), !a.Local?)
    requires Chained(b) ==> Good(next', Desc(lists', b), Of(st', b), !b.Local?)
    ensures LinksOk(st', next', lists')
  {
    OthersGood(st, st', next, next', lists, lists', w, a, b);
  }

  lemma MallocLinks(x: State, x': State, t: nat, c: nat)
    requires BoxesOk(x.s.st) && LinksOk(x.s.st, x.next, x.lists) && Acts(x, x', t, CallMalloc(c))
    ensures LinksOk(x'.s.st, x'.next, x'.lists)
  {
    var st, b := x.s.st, Local(t, c);
    assert BoxGood(st, x.next, x.lists, b);
    PoppedGood(x.next, Desc(x.lists, b), Of(st, b));
    assert x'.lists == x.lists[b := Popped(x.next, Desc(x.lists, b))];
    assert x'.s.st == Shift(st, b, User(c), 1);
    OthersGood(st, x'.s.st, x.next, x'.next, x.lists, x'.lists, User(c), User(c), b);
  }

  lemma FreeLinks(x: State, x': State, t: nat, c: nat, i: nat)
    requires BoxesOk(x.s.st) && LinksOk(x.s.st, x.next, x.lists) && Acts(x, x', t, CallFree(c, i))
    ensures LinksOk(x'.s.st, x'.next, x'.lists)
  {
    var st, b, o := x.s.st, Local(t, c), Of(x.s.st, User(c))[i];
    assert BoxGood(st, x.next, x.lists, b);
    Elsewhere(st, User(c), b);
    PushedGood(x.next, Desc(x.lists, b), Of(st, b), o, false);
    OthersGood(st, x'.s.st, x.next, x'.next, x.lists, x'.lists, User(c), User(c), b);
  }

  lemma FetchLinks(x: State, x': State, t: nat, c: nat, n: nat)
    requires BoxesOk(x.s.st) && LinksOk(x.s.st, x.next, x.lists) && Acts(x, x', t, CallFetch(c, n))
    requires Of(x.s.st, Chain(t)) == []
    ensures LinksOk(x'.s.st, x'.next, x'.lists)
  {
    assert x'.lists == x.lists[Chain(t) := F.EMPTY] && x'.s.st.boxes == x.s.st.boxes;
    OthersGood(x.s.st, x'.s.st, x.next, x'.next, x.lists, x'.lists, User(c), Chain(t), User(c));
  }

  lemma ReleaseWrites(x: State, x': State, t: nat, c: nat, k: nat, mode: Mode)
    requires Acts(x, x', t, CallRelease(c, k, mode)) && Of(x.s.st, Batch(t)) == []
    requires Desc(x.lists, Local(t, c)).count == |Of(x.s.st, Local(t, c))|
    ensures var b, d, q := Local(t, c), Desc(x.lists, Local(t, c)), Of(x.s.st, Local(t, c));
            && k <= |q| && var keep := |q| - k;
            && x'.s.st.boxes == x.s.st.boxes[b := q[..keep]][Batch(t) := q[keep..]]
            && x'.next == (if k == 0 then x.next else Cut(x.next, d, keep))
            && x'.lists == x.lists[b := F.FreeChain(if keep == 0 then None else d.head, d.tail, keep)]
                                  [Batch(t) := Suffix(x.next, d, keep, k)]
  {
    var q := Of(x.s.st, Local(t, c));
    assert Of(Enter(x.s.st, t, c), Local(t, c)) == q && [] + q[|q| - k..] == q[|q| - k..];
  }

  lemma ReleaseLinks(x: State, x': State, t: nat, c: nat, k: nat, mode: Mode)
    requires BoxesOk(x.s.st) && LinksOk(x.s.st, x.next, x.lists) && Acts(x, x', t, CallRelease(c, k, mode))
    requires Of(x.s.st, Batch(t)) == []
    ensures LinksOk(x'.s.st, x'.next, x'.lists)
  {
    assert BoxGood(x.s.st, x.next, x.lists, Local(t, c));
    ReleaseWrites(x, x', t, c, k, mode);
    CutLinks(x.s.st, x'.s.st, x.next, x'.next, x.lists, x'.lists, t, c, k);
  }

  lemma CutLinks(st: Store, st': Store, next: F.Links, next': F.Links, lists: map<Box, F.FreeChain>,
                 lists': map<Box, F.FreeChain>, t: nat, c: nat, k: nat)
    requires BoxesOk(st) && LinksOk(st, next, lists) && k <= |Of(st, Local(t, c))|
    requires var b, d, q, keep := Local(t, c), Desc(lists, Local(t, c)), Of(st, Local(t, c)), |Of(st, Local(t, c))| - k;
             && st'.boxes == st.boxes[b := q[..keep]][Batch(t) := q[keep..]]
             && next' == (if k == 0 then next else Cut(next, d, keep))
             && lists' == lists[b := F.FreeChain(if keep == 0 then None else d.head, d.tail, keep)]
                               [Batch(t) := Suffix(next, d, keep, k)]
    ensures LinksOk(st', next', lists')
  {
    var b, d, q := Local(t, c), Desc(lists, Local(t, c)), Of(st, Local(t, c));
    assert BoxGood(st, next, lists, b);
    if k == 0 {
      assert q[..|q|] == q && q[|q|..] == [];
    } else {
      CutGood(next, d, q, k);
    }
    MovedLinks(st, st', next, next', lists, lists', b, b, Batch(t));
  }

  lemma SingleLinks(x: State, x': State, t: nat, c: nat, i: nat)
    requires BoxesOk(x.s.st) && LinksOk(x.s.st, x.next, x.lists) && Acts(x, x', t, CallReleaseOne(c, i))
    requires Of(x.s.st, Batch(t)) == []
    ensures LinksOk(x'.s.st, x'.next, x'.lists)
  {
    var o := Of(x.s.st, User(c))[i];
    PushedGood(x.next, F.EMPTY, [], o, true);
    assert Of(x'.s.st, Batch(t)) == [o] + [];
    OthersGood(x.s.st, x'.s.st, x.next, x'.next, x.lists, x'.lists, User(c), User(c), Batch(t));
  }

  lemma SlotLinks(x: State, x': State, t: nat, slot: nat)
    requires BoxesOk(x.s.st) && BitsOk(x.s.st) && Carved(x.s.st) && LinksOk(x.s.st, x.next, x.lists)
    requires Acts(x, x', t, GiveSlot(slot))
    ensures LinksOk(x'.s.st, x'.next, x'.lists)
  {
    var pc, st := x.s.threads[t].pc, x.s.st;
    var o, b := Obj(x.s.lists[pc.c][0], slot), Chain(t);
    assert o in st.places && st.places[o] == Bitmap;
    if pc.k < pc.need {
      assert BoxGood(st, x.next, x.lists, b) && o !in Of(st, b);
      PushedGood(x.next, Desc(x.lists, b), Of(st, b), o, true);
      forall y: Box | Chained(y)
        ensures BoxGood(x'.s.st, x'.next, x'.lists, y)
      {
        if y != b {
          assert BoxGood(st, x.next, x.lists, y) && o !in Of(st, y);
          F.LinkedFrame(x.next, x'.next, Desc(x.lists, y).head, Of(st, y));
        }
      }
    } else {
      OthersGood(st, x'.s.st, x.next, x'.next, x.lists, x'.lists, Scratch(t), Scratch(t), Scratch(t));
    }
  }

  // ---- going on with a call

  lemma LinkAllLinks(x: State, x': State, t: nat)
    requires BoxesOk(x.s.st) && LinksOk(x.s.st, x.next, x.lists) && Acts(x, x', t, Continue)
    requires LinkAll(x.s, x'.s, t) && Of(x.s.st, Chain(t)) == []
    ensures LinksOk(x'.s.st, x'.next, x'.lists)
  {
    var q := Of(x.s.st, Scratch(t));
    assert NoDup(q);
    ArrayGood(x.next, q);
    assert Of(x'.s.st, Chain(t)) == [] + q[..|q|] == q;
    OthersGood(x.s.st, x'.s.st, x.next, x'.next, x.lists, x'.lists, Scratch(t), Scratch(t), Chain(t));
  }

  lemma RelinkLinks(x: State, x': State, t: nat)
    requires BoxesOk(x.s.st) && LinksOk(x.s.st, x.next, x.lists) && Acts(x, x', t, Continue)
    requires ReturnExcess(x.s, x'.s, t) || DrainRelease(x.s, x'.s, t)
    ensures LinksOk(x'.s.st, x'.next, x'.lists)
  {
    var q := Of(x.s.st, Scratch(t));
    assert NoDup(q);
    ReversedMembers(q);
    ArrayGood(x.next, Reversed(q));
    assert x'.s.st == Relink(x.s.st, Scratch(t), Batch(t));
    assert x'.lists == x.lists[Batch(t) := Array(Reversed(q))];
    MovedLinks(x.s.st, x'.s.st, x.next, x'.next, x.lists, x'.lists, Scratch(t), Scratch(t), Batch(t));
  }

  lemma AcceptLinks(x: State, x': State, t: nat)
    requires BoxesOk(x.s.st) && LinksOk(x.s.st, x.next, x.lists) && Acts(x, x', t, Continue)
    requires Accept(x.s, x'.s, t)
    ensures LinksOk(x'.s.st, x'.next, x'.lists)
  {
    var a, b := Chain(t), Local(t, x.s.threads[t].pc.c);
    assert x'.lists == x.lists[b := Join(Desc(x.lists, a), Desc(x.lists, b))][a := F.EMPTY];
    assert x'.s.st == Prepend(x.s.st, a, b);
    JoinedLinks(x.s.st, x'.s.st, x.next, x.lists, x'.lists, a, b);
  }

  lemma JoinedLinks(st: Store, st': Store, next: F.Links, lists: map<Box, F.FreeChain>, lists': map<Box, F.FreeChain>,
                    a: Box, b: Box)
    requires BoxesOk(st) && LinksOk(st, next, lists) && a.Chain? && b.Local? && st' == Prepend(st, a, b)
    requires lists' == lists[b := Join(Desc(lists, a), Desc(lists, b))][a := F.EMPTY]
    ensures LinksOk(st', JoinLinks(next, Desc(lists, a), Desc(lists, b)), lists')
  {
    assert BoxGood(st, next, lists, a) && BoxGood(st, next, lists, b);
    Elsewhere(st, a, b);
    JoinGood(next, Desc(lists, a), Of(st, a), Desc(lists, b), Of(st, b));
    MovedLinks(st, st', next, JoinLinks(next, Desc(lists, a), Desc(lists, b)), lists, lists', a, a, b);
  }

  lemma TurnWrites(x: State, x': State, t: nat)
    requires Acts(x, x', t, Continue) && ReleaseTurn(x.s, x'.s, t)
    requires Desc(x.lists, Batch(t)).count == |Of(x.s.st, Batch(t))|
    ensures var b, q, k := Batch(t), Of(x.s.st, Batch(t)), Min(|Of(x.s.st, Batch(t))|, MAX_BATCH);
            && x'.next == x.next && x'.lists == x.lists[b := Advanced(x.next, Desc(x.lists, b), k)]
            && x'.s.st == if q == [] then x.s.st else Shift(x.s.st, b, Ptrs(t), k)
  {}

  lemma TurnLinks(x: State, x': State, t: nat)
    requires BoxesOk(x.s.st) && LinksOk(x.s.st, x.next, x.lists) && Acts(x, x', t, Continue)
    requires ReleaseTurn(x.s, x'.s, t)
    ensures LinksOk(x'.s.st, x'.next, x'.lists)
  {
    assert BoxGood(x.s.st, x.next, x.lists, Batch(t));
    TurnWrites(x, x', t);
    AdvanceLinks(x.s.st, x'.s.st, x.next, x.lists, x'.lists, t);
  }

  lemma AdvanceLinks(st: Store, st': Store, next: F.Links, lists: map<Box, F.FreeChain>, lists': map<Box, F.FreeChain>,
                     t: nat)
    requires BoxesOk(st) && LinksOk(st, next, lists)
    requires var b, q, k := Batch(t), Of(st, Batch(t)), Min(|Of(st, Batch(t))|, MAX_BATCH);
             && lists' == lists[b := Advanced(next, Desc(lists, b), k)]
             && st' == if q == [] then st else Shift(st, b, Ptrs(t), k)
    ensures LinksOk(st', next, lists')
  {
    var b, q := Batch(t), Of(st, Batch(t));
    assert BoxGood(st, next, lists, b);
    AdvancedGood(next, Desc(lists, b), q, Min(|q|, MAX_BATCH));
    assert q == [] ==> q[0..] == q;
    assert OnlyThese(st, st', lists, lists', b, b) by {
      forall x: Box | Chained(x) && x != b
        ensures Of(st', x) == Of(st, x) && Desc(lists', x) == Desc(lists, x)
      {}
    }
    OthersGood(st, st', next, next, lists, lists', b, b, b);
  }

  /** No chained box changes. */
  ghost predicate Quiet(st: Store, st': Store)
  {
    forall b: Box {:trigger Of(st', b)} :: Chained(b) ==> Of(st', b) == Of(st, b)
  }

  lemma QuietMove(st: Store, a: Box, b: Box, moved: seq<Obj>, a': seq<Obj>, b': seq<Obj>)
    requires !Chained(a) && !Chained(b)
    ensures Quiet(st, Move(st, a, b, moved, a', b'))
  {}

  lemma QuietPut(st: Store, b: Box)
    requires !Chained(b) && Of(st, b) != [] && Of(st, b)[0].span in st.spans && st.spans[Of(st, b)[0].span].used > 0
    ensures Quiet(st, PutBit(st, b))
  {}

  /** The positions whose next step links, joins or reads a chain. */
  predicate Linking(pc: Pc, scratch: nat)
  {
    pc.Link? || pc.Fetched? || pc.Leftover? || pc.Release? || (pc.DTake? && scratch == pc.d)
  }

  lemma QuietPop(s: Sys, s': Sys, t: nat)
    requires PopWork(s, s', t) && !s.threads[t].pc.Link? && !s.threads[t].pc.Fetched?
    ensures Quiet(s.st, s'.st)
  {
    if PopHot(s, s', t) {
      var q := Of(s.st, Transfer(s.threads[t].pc.c));
      var j := |q| - 1;
      QuietMove(s.st, Transfer(s.threads[t].pc.c), Scratch(t), q[j..], q[..j], Of(s.st, Scratch(t)) + q[j..]);
    }
  }

  lemma QuietPush(s: Sys, s': Sys, t: nat)
    requires PushWork(s, s', t) && !s.threads[t].pc.Leftover?
    ensures Quiet(s.st, s'.st)
  {
    if PushOne(s, s', t) {
      var q, b := Of(s.st, Scratch(t)), Transfer(s.threads[t].pc.c);
      QuietMove(s.st, Scratch(t), b, q[..1], q[1..], Of(s.st, b) + q[..1]);
    }
  }

  lemma QuietStore(s: Sys, s': Sys, t: nat)
    requires StoreWork(s, s', t) && !s.threads[t].pc.Release?
    ensures Quiet(s.st, s'.st)
  {
    if RPushOne(s, s', t) {
      var q, b := Of(s.st, Ptrs(t)), Transfer(s.threads[t].pc.c);
      QuietMove(s.st, Ptrs(t), b, q[..1], q[1..], Of(s.st, b) + q[..1]);
    }
  }

  lemma QuietFree(s: Sys, s': Sys, t: nat)
    requires FreeWork(s, s', t)
    ensures Quiet(s.st, s'.st)
  {
    if FreeOne(s, s', t) { QuietPut(s.st, Ptrs(t)); }
  }

  lemma QuietDrain(s: Sys, s': Sys, t: nat)
    requires DrainWork(s, s', t) && !Linking(s.threads[t].pc, |Of(s.st, Scratch(t))|)
    ensures Quiet(s.st, s'.st)
  {
    if DrainCold(s, s', t) {
      var q := Of(s.st, Transfer(s.threads[t].pc.c));
      QuietMove(s.st, Transfer(s.threads[t].pc.c), Scratch(t), q[..1], q[1..], Of(s.st, Scratch(t)) + q[..1]);
    } else if DrainClass(s, s', t) {
      QuietClass(s, s', t);
    }
  }

  lemma QuietClass(s: Sys, s': Sys, t: nat)
    requires DrainClass(s, s', t)
    ensures Quiet(s.st, s'.st)
  {
    assert s'.st.boxes == s.st.boxes;
  }

  lemma QuietWork(s: Sys, s': Sys, t: nat)
    requires t < |s.threads| && Works(s, s', t) && !Linking(s.threads[t].pc, |Of(s.st, Scratch(t))|)
    ensures Quiet(s.st, s'.st)
  {
    if PopWork(s, s', t) { QuietPop(s, s', t); }
    else if PushWork(s, s', t) { QuietPush(s, s', t); }
    else if EnterWork(s, s', t) { assert s'.st == s.st; }
    else if ScanWork(s, s', t) { assert s'.st == s.st; }
    else if StoreWork(s, s', t) { QuietStore(s, s', t); }
    else if FreeWork(s, s', t) { QuietFree(s, s', t); }
    else { QuietDrain(s, s', t); }
  }

  /** Where a chain is worked on, only that step is possible. */
  lemma LinkingStep(s: Sys, s': Sys, t: nat)
    requires t < |s.threads| && Works(s, s', t) && Linking(s.threads[t].pc, |Of(s.st, Scratch(t))|)
    ensures || LinkAll(s, s', t) || Accept(s, s', t) || ReturnExcess(s, s', t) || ReleaseTurn(s, s', t)
            || DrainRelease(s, s', t)
  {}

  lemma QuietLinks(x: State, x': State)
    requires LinksOk(x.s.st, x.next, x.lists) && Quiet(x.s.st, x'.s.st) && x'.next == x.next && x'.lists == x.lists
    ensures LinksOk(x'.s.st, x'.next, x'.lists)
  {
    forall b: Box | Chained(b)
      ensures BoxGood(x'.s.st, x'.next, x'.lists, b)
    {
      assert BoxGood(x.s.st, x.next, x.lists, b) && Of(x'.s.st, b) == Of(x.s.st, b);
    }
  }

  lemma ContinueLinks(x: State, x': State, t: nat)
    requires BoxesOk(x.s.st) && LinksOk(x.s.st, x.next, x.lists) && Acts(x, x', t, Continue)
    requires x.s.threads[t].pc.Link? ==> Of(x.s.st, Chain(t)) == []
    ensures LinksOk(x'.s.st, x'.next, x'.lists)
  {
    if Linking(x.s.threads[t].pc, |Of(x.s.st, Scratch(t))|) {
      LinkingStep(x.s, x'.s, t);
      if LinkAll(x.s, x'.s, t) { LinkAllLinks(x, x', t); }
      else if Accept(x.s, x'.s, t) { AcceptLinks(x, x', t); }
      else if ReleaseTurn(x.s, x'.s, t) { TurnLinks(x, x', t); }
      else { RelinkLinks(x, x', t); }
    } else {
      QuietWork(x.s, x'.s, t);
      QuietLinks(x, x');
    }
  }

  lemma ActsLinks(x: State, x': State, t: nat, a: Action)
    requires BoxesOk(x.s.st) && BitsOk(x.s.st) && Carved(x.s.st) && LinksOk(x.s.st, x.next, x.lists)
             && Acts(x, x', t, a)
    requires x.s.threads[t].pc.Idle? || x.s.threads[t].pc.Link? ==>
               Of(x.s.st, Chain(t)) == [] && Of(x.s.st, Batch(t)) == []
    ensures LinksOk(x'.s.st, x'.next, x'.lists)
  {
    match a
    case CallMalloc(c) => MallocLinks(x, x', t, c);
    case CallFree(c, i) => FreeLinks(x, x', t, c, i);
    case CallFetch(c, n) => FetchLinks(x, x', t, c, n);
    case CallRelease(c, k, mode) => ReleaseLinks(x, x', t, c, k, mode);
    case CallReleaseOne(c, i) => SingleLinks(x, x', t, c, i);
    case CallDrain(bytes) => QuietLinks(x, x');
    case GiveSlot(slot) => SlotLinks(x, x', t, slot);
    case GiveSpan(id) => QuietLinks(x, x');
    case Continue => ContinueLinks(x, x', t);
  }

  lemma PrivateEmpty(st: Store, t: nat, pc: Pc)
    requires PcOk(st, t, pc)
    ensures pc.Idle? || pc.Link? ==> Of(st, Chain(t)) == [] && Of(st, Batch(t)) == []
  {}

  lemma ActsInv(x: State, x': State, t: nat, a: Action)
    requires Inv(x.s) && LinksOk(x.s.st, x.next, x.lists) && Acts(x, x', t, a)
    ensures Inv(x'.s) && LinksOk(x'.s.st, x'.next, x'.lists)
  {
    CI.DoInv(x.s, x'.s, t, a);
    assert PcOk(x.s.st, t, x.s.threads[t].pc);
    PrivateEmpty(x.s.st, t, x.s.threads[t].pc);
    ActsLinks(x, x', t, a);
  }

  lemma ScribbleLinks(x: State, x': State, o: Obj, p: F.Ptr)
    requires StoreInv(x.s.st) && LinksOk(x.s.st, x.next, x.lists) && Scribbles(x, x', o, p)
    ensures LinksOk(x'.s.st, x'.next, x'.lists)
  {
    var st := x.s.st;
    forall b: Box | Chained(b)
      ensures BoxGood(st, x'.next, x'.lists, b)
    {
      assert BoxGood(st, x.next, x.lists, b);
      assert o !in Of(st, b);
      F.LinkedFrame(x.next, x'.next, Desc(x.lists, b).head, Of(st, b));
    }
  }

  lemma InitLinks(x: State)
    requires x.s.st == Store(map[], map[], map[], map[]) && x.lists == map[]
    ensures LinksOk(x.s.st, x.next, x.lists)
  {
    forall b: Box | Chained(b)
      ensures BoxGood(x.s.st, x.next, x.lists, b)
    {}
  }

  lemma StepInv(x: State, x': State)
    requires Inv(x.s) && LinksOk(x.s.st, x.next, x.lists) && Step(x, x')
    ensures Inv(x'.s) && LinksOk(x'.s.st, x'.next, x'.lists)
  {
    if t: nat, a: Action :| Acts(x, x', t, a) {
      ActsInv(x, x', t, a);
    } else {
      var o: Obj, p: F.Ptr :| Scribbles(x, x', o, p);
      ScribbleLinks(x, x', o, p);
    }
  }

  /** Whatever the interleaving and whatever the user writes, every list, chain and
      batch is what its descriptor says. */
  lemma {:induction false} ChainsHold(r: seq<State>, i: nat)
    requires LinkedRun(r) && i < |r|
    ensures Inv(r[i].s) && LinksOk(r[i].s.st, r[i].next, r[i].lists)
  {
    if i == 0 {
      CI.InitInv(r[0].s);
      InitLinks(r[0]);
    } else {
      ChainsHold(r, i - 1);
      assert Steps(r, i - 1);
      StepInv(r[i - 1], r[i]);
    }
  }

  // ------------------------------------------------------------- over whole runs

  /** A finished fetch returns a terminated chain, of exactly `count` nodes, that
      ends at `tail`: distinct objects of the class, as many as asked for unless a
      span request failed. */
  lemma FetchReturnsChain(r: seq<State>, i: nat, t: nat)
    requires LinkedRun(r) && i < |r| && t < |r[i].s.threads| && r[i].s.threads[t].pc.Fetched?
    ensures var st, pc := r[i].s.st, r[i].s.threads[t].pc;
            var d, q := Desc(r[i].lists, Chain(t)), Of(st, Chain(t));
            && F.Holds(r[i].next, d, q) && NoDup(q) && d.count <= pc.n && (d.count < pc.n ==> pc.short)
            && (d.count == 0 <==> d == F.EMPTY)
            && forall o: Obj :: o in q ==> o.span in st.spans && st.spans[o.span].cls == pc.c
  {
    ChainsHold(r, i);
    var st := r[i].s.st;
    assert BoxGood(st, r[i].next, r[i].lists, Chain(t));
    assert PcOk(st, t, r[i].s.threads[t].pc);
    forall o: Obj | o in Of(st, Chain(t))
      ensures o.span in st.spans && st.spans[o.span].cls == r[i].s.threads[t].pc.c
    {
      assert o in st.places;
    }
  }

  /** Whenever `ReleaseBatch` is between two groups, walking the links from `cur`
      for the remaining count reads exactly the objects still to be released and
      ends on null. */
  lemma ReleaseReadsBatch(r: seq<State>, i: nat, t: nat)
    requires LinkedRun(r) && i < |r|
    ensures var d := Desc(r[i].lists, Batch(t));
            && F.Holds(r[i].next, d, Of(r[i].s.st, Batch(t)))
            && F.Reads(r[i].next, d.head, d.count) == Of(r[i].s.st, Batch(t))
            && F.Walk(r[i].next, d.head, d.count).None?
  {
    ChainsHold(r, i);
    var q := Of(r[i].s.st, Batch(t));
    assert BoxGood(r[i].s.st, r[i].next, r[i].lists, Batch(t));
    F.WalkChain(r[i].next, Desc(r[i].lists, Batch(t)).head, q, |q|);
    assert q[..|q|] == q;
  }

  /** One group: what the loop reads through the links is what the group's array
      then holds. */
  lemma GroupIsRead(r: seq<State>, i: nat, t: nat)
    requires LinkedRun(r) && i + 1 < |r| && Acts(r[i], r[i + 1], t, Continue) && r[i].s.threads[t].pc.Release?
    requires Of(r[i].s.st, Batch(t)) != []
    ensures var d := Desc(r[i].lists, Batch(t));
            Of(r[i + 1].s.st, Ptrs(t)) == F.Reads(r[i].next, d.head, Min(d.count, MAX_BATCH))
  {
    ChainsHold(r, i);
    var st, b := r[i].s.st, Batch(t);
    var q := Of(st, b);
    assert BoxGood(st, r[i].next, r[i].lists, b);
    assert PcOk(st, t, r[i].s.threads[t].pc);
    TurnReads(r[i], r[i + 1], t);
    F.WalkChain(r[i].next, Desc(r[i].lists, b).head, q, Min(|q|, MAX_BATCH));
  }

  lemma TurnReads(x: State, x': State, t: nat)
    requires Acts(x, x', t, Continue) && x.s.threads[t].pc.Release? && Of(x.s.st, Batch(t)) != []
    requires Of(x.s.st, Ptrs(t)) == []
    ensures var q := Of(x.s.st, Batch(t)); Of(x'.s.st, Ptrs(t)) == q[..Min(|q|, MAX_BATCH)]
  {
    LinkingStep(x.s, x'.s, t);
    assert ReleaseTurn(x.s, x'.s, t);
  }

  /** A thread's list is what its head leads to; in particular it is empty exactly
      when the head is null, and an allocation hands out the head. */
  lemma ListIsLinked(r: seq<State>, i: nat, t: nat, c: nat)
    requires LinkedRun(r) && i < |r|
    ensures var d, q := Desc(r[i].lists, Local(t, c)), Of(r[i].s.st, Local(t, c));
            F.Linked(r[i].next, d.head, q) && d.count == |q| && d.head == F.NodeAt(q, 0)
  {
    ChainsHold(r, i);
    assert BoxGood(r[i].s.st, r[i].next, r[i].lists, Local(t, c));
  }

  /** Every run of CentralCache is the run of some linked state. */
  lemma {:induction false} RunHasLinks(r: seq<Sys>) returns (q: seq<State>)
    requires Run(r)
    ensures LinkedRun(q) && |q| == |r| && forall i: nat :: i < |r| ==> q[i].s == r[i]
  {
    if |r| == 1 {
      q := [State(r[0], map[], map[])];
    } else {
      var n := |r| - 1;
      forall i: nat | i + 1 < n
        ensures StepAt(r[..n], i)
      {
        assert StepAt(r, i);
      }
      var p := RunHasLinks(r[..n]);
      assert StepAt(r, n - 1) && p[n - 1].s == r[n - 1];
      var t: nat, a: Action :| Do(r[n - 1], r[n], t, a);
      var w := Written(p[n - 1], t, a);
      var x := State(r[n], w.next, w.lists);
      q := p + [x];
      forall i: nat | i + 1 < |q|
        ensures Steps(q, i)
      {
        if i + 1 < n { assert Steps(p, i); } else { assert Acts(q[i], q[i + 1], t, a); }
      }
    }
  }
}
