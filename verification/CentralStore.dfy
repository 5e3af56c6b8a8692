/** Where the objects of carved spans are: their bitmaps, the transfer caches, the
    thread lists, the batches and scratch arrays of running calls, and the user
    (src/central_cache.cpp, src/span.cpp, include/ammalloc/free_list.h). */
module CentralStore {
  import opened Lists

  /** An object is a slot of a carved span. */
  datatype Obj = Obj(span: nat, slot: nat)

  /** The sequences an object can be in besides its span's bitmap: per class the
      shared transfer cache, each thread's free list and the blocks the user
      holds; and per thread the chain `FetchBatch` builds, the scratch array, the
      batch being released and the part of it under work. */
  datatype Box =
    | Transfer(c: nat)
    | Local(t: nat, c: nat)
    | User(c: nat)
    | Chain(t: nat)
    | Scratch(t: nat)
    | Batch(t: nat)
    | Ptrs(t: nat)

  datatype CSpan = CSpan(cls: nat, cap: nat, free: set<nat>, used: nat)

  /** History: the place of an object. */
  datatype Place = Bitmap | In(box: Box)

  /** `active` is the size class of the call each thread is in. */
  datatype Store = Store(spans: map<nat, CSpan>, boxes: map<Box, seq<Obj>>, places: map<Obj, Place>,
                         active: map<nat, nat>)

  function Of(st: Store, b: Box): seq<Obj>
  {
    if b in st.boxes then st.boxes[b] else []
  }

  function Active(st: Store, t: nat): nat
  {
    if t in st.active then st.active[t] else 0
  }

  function ClassOf(st: Store, b: Box): nat
  {
    match b
    case Transfer(c) => c
    case Local(_, c) => c
    case User(c) => c
    case _ => Active(st, b.t)
  }

  // ------------------------------------------------------------ the invariant

  ghost predicate Carved(st: Store)
  {
    forall o: Obj {:trigger o in st.places} {:trigger st.spans[o.span]} ::
      o in st.places <==> o.span in st.spans && o.slot < st.spans[o.span].cap
  }

  ghost predicate BitsOk(st: Store)
  {
    && (forall o: Obj {:trigger st.places[o]} :: o in st.places && o.span in st.spans ==>
          (st.places[o] == Bitmap <==> o.slot in st.spans[o.span].free))
    && (forall id: nat :: id in st.spans ==>
          && (forall k: nat :: k in st.spans[id].free ==> k < st.spans[id].cap)
          && st.spans[id].used + |st.spans[id].free| == st.spans[id].cap)
  }

  ghost predicate BoxesOk(st: Store)
  {
    && (forall b: Box, o: Obj {:trigger o in Of(st, b)} :: o in Of(st, b) <==> o in st.places && st.places[o] == In(b))
    && (forall b: Box {:trigger Of(st, b)} :: NoDup(Of(st, b)))
  }

  ghost predicate ClassesOk(st: Store)
  {
    forall b: Box, o: Obj {:trigger o in Of(st, b)} :: o in Of(st, b) && o.span in st.spans ==>
          st.spans[o.span].cls == ClassOf(st, b)
  }

  ghost predicate StoreInv(st: Store) { Carved(st) && BitsOk(st) && BoxesOk(st) && ClassesOk(st) }

  /** `o` is in the sequence, at one position. */
  ghost predicate Once(q: seq<Obj>, o: Obj)
  {
    exists i :: 0 <= i < |q| && q[i] == o && forall j :: 0 <= j < |q| && q[j] == o ==> j == i
  }

  /** Slot `o` is in exactly one place: free in its bitmap and in no sequence, or
      taken and in one sequence, once. */
  ghost predicate InOnePlace(st: Store, o: Obj)
    requires o.span in st.spans
  {
    if o.slot in st.spans[o.span].free then forall b: Box {:trigger Of(st, b)} :: o !in Of(st, b)
    else exists b: Box {:trigger Of(st, b)} :: Once(Of(st, b), o) && OnlyIn(st, b, o)
  }

  ghost predicate OnlyIn(st: Store, b: Box, o: Obj)
  {
    forall x: Box {:trigger Of(st, x)} :: o in Of(st, x) ==> x == b
  }

  lemma OccursOnce(q: seq<Obj>, o: Obj)
    requires NoDup(q) && o in q
    ensures Once(q, o)
  {
    var i :| 0 <= i < |q| && q[i] == o;
  }

  lemma OnePlace(st: Store, o: Obj)
    requires StoreInv(st) && o.span in st.spans && o.slot < st.spans[o.span].cap
    ensures InOnePlace(st, o)
  {
    assert o in st.places;
    if o.slot in st.spans[o.span].free {
      forall b: Box ensures o !in Of(st, b) {}
    } else {
      var b := st.places[o].box;
      assert o in Of(st, b);
      OccursOnce(Of(st, b), o);
      assert OnlyIn(st, b, o);
    }
  }

  // ----------------------------------------------------- sequences of objects

  lemma TakeMembers(q: seq<Obj>, k: nat)
    requires k <= |q| && NoDup(q)
    ensures NoDup(q[..k]) && NoDup(q[k..])
    ensures forall o: Obj :: o in q[k..] <==> o in q && o !in q[..k]
    ensures forall o: Obj :: o in q[..k] <==> o in q && o !in q[k..]
  {
    assert q == q[..k] + q[k..];
  }

  lemma JoinMembers(x: seq<Obj>, y: seq<Obj>)
    requires NoDup(x) && NoDup(y) && forall o: Obj :: o in x ==> o !in y
    ensures NoDup(x + y) && forall o: Obj :: o in x + y <==> o in x || o in y
  {
    forall i, j | 0 <= i < j < |x + y|
      ensures (x + y)[i] != (x + y)[j]
    {
      if i < |x| && |x| <= j { assert x[i] in x && y[j - |x|] in y; }
    }
  }

  lemma DropMembers(q: seq<Obj>, i: nat)
    requires i < |q| && NoDup(q)
    ensures NoDup(q[..i] + q[i + 1..])
    ensures forall o: Obj :: o in q[..i] + q[i + 1..] <==> o in q && o !in [q[i]]
  {
    assert q == q[..i] + [q[i]] + q[i + 1..];
  }

  function Reversed(q: seq<Obj>): (r: seq<Obj>)
    ensures |r| == |q|
  {
    if q == [] then [] else Reversed(q[1..]) + [q[0]]
  }

  lemma {:induction false} ReversedMembers(q: seq<Obj>)
    requires NoDup(q)
    ensures NoDup(Reversed(q)) && forall o: Obj :: o in Reversed(q) <==> o in q
  {
    if q != [] {
      TakeMembers(q, 1);
      ReversedMembers(q[1..]);
      assert q[..1] == [q[0]] && q == [q[0]] + q[1..];
      JoinMembers(Reversed(q[1..]), [q[0]]);
    }
  }

  // ------------------------------------------------------------------- effects

  /** The objects in `moved` go from box a, which keeps `a'`, to box b, which then
      holds `b'`. */
  function Move(st: Store, a: Box, b: Box, moved: seq<Obj>, a': seq<Obj>, b': seq<Obj>): Store
  {
    Store(st.spans, st.boxes[a := a'][b := b'],
          map o: Obj | o in st.places :: if o in moved then In(b) else st.places[o],
          st.active)
  }

  ghost predicate Splits(q: seq<Obj>, moved: seq<Obj>, rest: seq<Obj>)
  {
    && NoDup(rest) && (forall o: Obj :: o in moved ==> o in q)
    && (forall o: Obj :: o in rest <==> o in q && o !in moved)
  }

  ghost predicate Joins(q: seq<Obj>, moved: seq<Obj>, all: seq<Obj>)
  {
    NoDup(all) && forall o: Obj :: o in all <==> o in q || o in moved
  }

  lemma MoveOk(st: Store, a: Box, b: Box, moved: seq<Obj>, a': seq<Obj>, b': seq<Obj>)
    requires StoreInv(st) && a != b && ClassOf(st, a) == ClassOf(st, b)
    requires Splits(Of(st, a), moved, a') && Joins(Of(st, b), moved, b')
    ensures StoreInv(Move(st, a, b, moved, a', b'))
  {
    MovedBoxes(st, a, b, moved, a', b');
    MovedClasses(st, a, b, moved, a', b');
    MovedBits(st, a, b, moved, a', b');
  }

  lemma MovedBits(st: Store, a: Box, b: Box, moved: seq<Obj>, a': seq<Obj>, b': seq<Obj>)
    requires Carved(st) && BitsOk(st) && BoxesOk(st) && forall o: Obj :: o in moved ==> o in Of(st, a)
    ensures Carved(Move(st, a, b, moved, a', b')) && BitsOk(Move(st, a, b, moved, a', b'))
  {}

  lemma MovedClasses(st: Store, a: Box, b: Box, moved: seq<Obj>, a': seq<Obj>, b': seq<Obj>)
    requires ClassesOk(st) && a != b && ClassOf(st, a) == ClassOf(st, b)
    requires Splits(Of(st, a), moved, a') && Joins(Of(st, b), moved, b')
    ensures ClassesOk(Move(st, a, b, moved, a', b'))
  {
    var st' := Move(st, a, b, moved, a', b');
    assert Of(st', a) == a' && Of(st', b) == b';
    assert forall x: Box {:trigger Of(st', x)} :: x != a && x != b ==> Of(st', x) == Of(st, x);
  }

  lemma MovedBoxes(st: Store, a: Box, b: Box, moved: seq<Obj>, a': seq<Obj>, b': seq<Obj>)
    requires BoxesOk(st) && a != b
    requires Splits(Of(st, a), moved, a') && Joins(Of(st, b), moved, b')
    ensures BoxesOk(Move(st, a, b, moved, a', b'))
  {
    var st' := Move(st, a, b, moved, a', b');
    assert Of(st', a) == a' && Of(st', b) == b';
    forall x: Box, o: Obj
      ensures o in Of(st', x) <==> o in st'.places && st'.places[o] == In(x)
    {
      assert x != a && x != b ==> Of(st', x) == Of(st, x);
      assert o in moved ==> o in Of(st, a);
      assert o in Of(st, x) <==> o in st.places && st.places[o] == In(x);
    }
    forall x: Box ensures NoDup(Of(st', x)) { assert x != a && x != b ==> Of(st', x) == Of(st, x); }
  }

  /** `AllocObject` clears a bit and the object goes into box b. */
  function TakeBit(st: Store, id: nat, slot: nat, b: Box, b': seq<Obj>): Store
    requires id in st.spans
  {
    var r := st.spans[id];
    Store(st.spans[id := CSpan(r.cls, r.cap, r.free - {slot}, r.used + 1)], st.boxes[b := b'],
          st.places[Obj(id, slot) := In(b)], st.active)
  }

  lemma TakeBitOk(st: Store, id: nat, slot: nat, b: Box, b': seq<Obj>)
    requires StoreInv(st) && id in st.spans && slot in st.spans[id].free && st.spans[id].cls == ClassOf(st, b)
    requires b' == [Obj(id, slot)] + Of(st, b) || b' == Of(st, b) + [Obj(id, slot)]
    ensures StoreInv(TakeBit(st, id, slot, b, b'))
  {
    var o := Obj(id, slot);
    var st' := TakeBit(st, id, slot, b, b');
    assert o in st.places && st.places[o] == Bitmap;
    assert o !in Of(st, b);
    JoinMembers([o], Of(st, b));
    JoinMembers(Of(st, b), [o]);
    PlacedBoxes(st, st', b, o);
    TakeBitBits(st, id, slot, b, b');
  }

  lemma TakeBitBits(st: Store, id: nat, slot: nat, b: Box, b': seq<Obj>)
    requires Carved(st) && BitsOk(st) && id in st.spans && slot in st.spans[id].free
    ensures Carved(TakeBit(st, id, slot, b, b')) && BitsOk(TakeBit(st, id, slot, b, b'))
  {
    assert Obj(id, slot) in st.places;
  }

  /** Only box b and the place of `o`, which was in none, change. */
  lemma PlacedBoxes(st: Store, st': Store, b: Box, o: Obj)
    requires BoxesOk(st) && Carved(st) && ClassesOk(st) && o in st.places && st.places[o] == Bitmap
    requires NoDup(Of(st', b)) && st'.active == st.active
    requires forall id: nat :: id in st.spans <==> id in st'.spans
    requires forall id: nat :: id in st.spans ==> st'.spans[id].cls == st.spans[id].cls
    requires st.spans[o.span].cls == ClassOf(st, b)
    requires forall x: Obj :: x in Of(st', b) <==> x == o || x in Of(st, b)
    requires st'.boxes == st.boxes[b := Of(st', b)] && st'.places == st.places[o := In(b)]
    ensures BoxesOk(st') && ClassesOk(st')
  {
    assert forall x: Box {:trigger Of(st', x)} :: x != b ==> Of(st', x) == Of(st, x);
  }

  /** `FreeObject` sets the bit of the first object of box b. */
  function PutBit(st: Store, b: Box): Store
    requires Of(st, b) != [] && Of(st, b)[0].span in st.spans && st.spans[Of(st, b)[0].span].used > 0
  {
    var o := Of(st, b)[0];
    var r := st.spans[o.span];
    Store(st.spans[o.span := CSpan(r.cls, r.cap, r.free + {o.slot}, r.used - 1)], st.boxes[b := Of(st, b)[1..]],
          st.places[o := Bitmap], st.active)
  }

  lemma PutBitReady(st: Store, b: Box)
    requires StoreInv(st) && Of(st, b) != []
    ensures var o := Of(st, b)[0];
            && o.span in st.spans && o.slot < st.spans[o.span].cap && o.slot !in st.spans[o.span].free
            && st.spans[o.span].used > 0 && st.spans[o.span].cls == ClassOf(st, b)
  {
    var o := Of(st, b)[0];
    assert o in Of(st, b);
    var r := st.spans[o.span];
    FewerThanAll(r.free, o.slot, r.cap);
  }

  lemma FewerThanAll(free: set<nat>, k: nat, cap: nat)
    requires k < cap && k !in free && forall j: nat :: j in free ==> j < cap
    ensures |free| < cap
  {
    assert free <= Range(cap);
    SubsetSize(free, Range(cap));
  }

  lemma PutBitOk(st: Store, b: Box)
    requires StoreInv(st) && Of(st, b) != []
    requires Of(st, b)[0].span in st.spans && st.spans[Of(st, b)[0].span].used > 0
    ensures StoreInv(PutBit(st, b))
  {
    PutBitReady(st, b);
    var o := Of(st, b)[0];
    assert o in Of(st, b);
    TakeMembers(Of(st, b), 1);
    assert Of(st, b)[..1] == [o];
    RemovedBoxes(st, PutBit(st, b), b, o);
    PutBitBits(st, b);
  }

  lemma PutBitBits(st: Store, b: Box)
    requires Carved(st) && BitsOk(st) && Of(st, b) != []
    requires var o := Of(st, b)[0]; o in st.places && o.slot !in st.spans[o.span].free && st.spans[o.span].used > 0
    ensures Carved(PutBit(st, b)) && BitsOk(PutBit(st, b))
  {}

  /** Only box b and the place of `o`, which leaves it, change. */
  lemma RemovedBoxes(st: Store, st': Store, b: Box, o: Obj)
    requires BoxesOk(st) && Carved(st) && ClassesOk(st) && o in Of(st, b) && NoDup(Of(st', b))
    requires st'.active == st.active
    requires forall x: Obj :: x in Of(st', b) <==> x in Of(st, b) && x != o
    requires st'.boxes == st.boxes[b := Of(st', b)] && st'.places == st.places[o := Bitmap]
    requires forall id: nat :: id in st.spans <==> id in st'.spans
    requires forall id: nat :: id in st.spans ==> st'.spans[id].cls == st.spans[id].cls
    ensures BoxesOk(st') && ClassesOk(st')
  {
    assert forall x: Box {:trigger Of(st', x)} :: x != b ==> Of(st', x) == Of(st, x);
  }

  function FreshPlaces(id: nat, cap: nat): (m: map<Obj, Place>)
    ensures forall o: Obj :: o in m <==> o.span == id && o.slot < cap
    ensures forall o: Obj :: o in m ==> m[o] == Bitmap
  {
    var m := map k: nat | k in Range(cap) :: Obj(id, k) := Bitmap;
    assert forall o: Obj :: o.span == id && o.slot < cap ==> o.slot in Range(cap) && o == Obj(id, o.slot);
    m
  }

  /** `Span::Init`: a fresh span of class c, every slot free. */
  function AddSpan(st: Store, id: nat, c: nat, cap: nat): Store
  {
    Store(st.spans[id := CSpan(c, cap, Range(cap), 0)], st.boxes,
          st.places + FreshPlaces(id, cap), st.active)
  }

  lemma AddSpanOk(st: Store, id: nat, c: nat, cap: nat)
    requires StoreInv(st) && id !in st.spans
    ensures StoreInv(AddSpan(st, id, c, cap))
  {
    AddSpanBits(st, id, c, cap);
    SameBoxes(st, AddSpan(st, id, c, cap));
  }

  lemma AddSpanBits(st: Store, id: nat, c: nat, cap: nat)
    requires Carved(st) && BitsOk(st) && id !in st.spans
    ensures Carved(AddSpan(st, id, c, cap)) && BitsOk(AddSpan(st, id, c, cap))
  {}

  lemma SameBoxes(st: Store, st': Store)
    requires Carved(st) && BoxesOk(st) && ClassesOk(st) && st'.boxes == st.boxes && st'.active == st.active
    requires forall o: Obj, b: Box ::
               (o in st'.places && st'.places[o] == In(b)) <==> (o in st.places && st.places[o] == In(b))
    requires forall id: nat :: id in st.spans && id in st'.spans ==> st'.spans[id].cls == st.spans[id].cls
    ensures BoxesOk(st') && ClassesOk(st')
  {
    assert forall x: Box {:trigger Of(st', x)} :: Of(st', x) == Of(st, x);
  }

  /** A span with no object outside its bitmap leaves the object layer. */
  function DropSpan(st: Store, id: nat): Store
  {
    Store(st.spans - {id}, st.boxes, map o: Obj | o in st.places && o.span != id :: st.places[o], st.active)
  }

  lemma DropSpanOk(st: Store, id: nat)
    requires StoreInv(st) && id in st.spans && st.spans[id].used == 0
    ensures StoreInv(DropSpan(st, id))
  {
    var st' := DropSpan(st, id);
    assert forall o: Obj :: o in st.places && o.span == id ==> st.places[o] == Bitmap by {
      forall o: Obj | o in st.places && o.span == id ensures o.slot in st.spans[id].free {
        if o.slot !in st.spans[id].free { FewerThanAll(st.spans[id].free, o.slot, st.spans[id].cap); }
      }
    }
    SameBoxes(st, st');
  }

  predicate Clear(st: Store, t: nat)
  {
    Of(st, Chain(t)) == [] && Of(st, Scratch(t)) == [] && Of(st, Batch(t)) == [] && Of(st, Ptrs(t)) == []
  }

  /** Thread t begins a call for class c. */
  function Enter(st: Store, t: nat, c: nat): Store
  {
    Store(st.spans, st.boxes, st.places, st.active[t := c])
  }

  lemma EnterOk(st: Store, t: nat, c: nat)
    requires StoreInv(st) && Clear(st, t)
    ensures StoreInv(Enter(st, t, c))
  {
    var st' := Enter(st, t, c);
    forall x: Box
      ensures Of(st', x) == Of(st, x) && (Of(st, x) != [] ==> ClassOf(st', x) == ClassOf(st, x))
    {
      match x
      case Transfer(_) => case Local(_, _) => case User(_) =>
      case Chain(_) => case Scratch(_) => case Batch(_) => case Ptrs(_) =>
    }
  }
}
