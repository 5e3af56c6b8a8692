/** Where a span keeps its bitmap and its objects: `ComputeSpanLayout`
    (include/ammalloc/span.h) and `AlignUp` (include/ammalloc/common.h). */
module SpanLayout {
  import opened Config
  import SizeClass

  datatype Layout = Layout(bitmapNum: nat, objOffset: nat, capacity: nat)

  const EMPTY := Layout(0, 0, 0)

  /** `AlignUp` to the fundamental alignment; zero maps to one unit. */
  function AlignUp16(size: nat): (r: nat)
    ensures r % 16 == 0 && size <= r && r >= 16 && r <= Max(16, size + 15)
  {
    if size == 0 then 16 else (size + 15) / 16 * 16
  }

  /** One bit of bitmap per object: the estimate the layout starts from. */
  function MaxObjects(size: nat, total: nat): nat
  {
    Quot(total * 8, size * 8 + 1)
  }

  function BitmapWords(objects: nat): (words: nat)
    ensures objects <= 64 * words < objects + 64
  {
    objects / 64 + if objects % 64 != 0 then 1 else 0
  }

  /** The inputs that pass the guards against overflow of a 64-bit size. */
  predicate Accepted(size: nat, pages: nat)
  {
    && size > 0 && pages > 0
    && pages <= MAX_SIZE_T / 4096
    && size <= (MAX_SIZE_T - 1) / 8
    && pages * 4096 <= MAX_SIZE_T / 8
    && BitmapWords(MaxObjects(size, pages * 4096)) <= MAX_SIZE_T / 8
    && BitmapWords(MaxObjects(size, pages * 4096)) * 8 <= MAX_SIZE_T - 15
  }

  function ComputeSpanLayout(size: nat, pages: nat): Layout
  {
    if !Accepted(size, pages) then EMPTY
    else
      var total := pages * 4096;
      var maxObjects := MaxObjects(size, total);
      var words := BitmapWords(maxObjects);
      var dataStart := AlignUp16(words * 8);
      var raw := if dataStart >= total then 0 else Quot(total - dataStart, size);
      var capacity := Min(maxObjects, raw);
      if dataStart > MAX_UINT32 || capacity > MAX_UINT32 then EMPTY
      else Layout(words, dataStart, capacity)
  }

  /** k objects and their k bitmap bits fit in `total` bytes. */
  predicate Fits(k: nat, size: nat, total: nat)
  {
    k * (8 * size + 1) <= 8 * total
  }

  /** The estimate is the largest count that fits with one bit per object. */
  lemma MaxObjectsIsIdeal(size: nat, total: nat)
    ensures Fits(MaxObjects(size, total), size, total)
    ensures forall k: nat :: Fits(k, size, total) ==> k <= MaxObjects(size, total)
  {
    var d := 8 * size + 1;
    var m := MaxObjects(size, total);
    DivBounds(8 * total, d);
    forall k: nat | Fits(k, size, total)
      ensures k <= m
    {
      if k > m { MulMonotone(m + 1, k, d); }
    }
  }

  /** Bitmap and objects lie one after the other inside the span, the objects
      are aligned, and every slot has its own bitmap bit. */
  lemma LayoutSound(size: nat, pages: nat)
    ensures var l := ComputeSpanLayout(size, pages);
            && l.bitmapNum * 8 <= l.objOffset && l.objOffset % 16 == 0
            && l.capacity <= 64 * l.bitmapNum
            && (l.capacity > 0 ==> l.objOffset + l.capacity * size <= pages * 4096)
  {
    var l := ComputeSpanLayout(size, pages);
    if l.capacity > 0 {
      var room := pages * 4096 - l.objOffset;
      DivBounds(room, size);
      MulMonotone(l.capacity, room / size, size);
    }
  }

  /** For objects of at least 16 bytes, alignment and whole-word rounding cost at
      most one object against the ideal count. */
  lemma LayoutNearIdeal(size: nat, pages: nat)
    requires size >= 16 && ComputeSpanLayout(size, pages) != EMPTY
    ensures var m := MaxObjects(size, pages * 4096);
            var c := ComputeSpanLayout(size, pages).capacity;
            c == m || c == m - 1
  {
    var m := MaxObjects(size, pages * 4096);
    if m > 0 {
      RoomForAllButOne(size, pages * 4096);
      CapacityAtLeast(pages * 4096, AlignUp16(BitmapWords(m) * 8), size, m - 1);
    }
  }

  lemma RoomForAllButOne(size: nat, total: nat)
    requires size >= 16 && MaxObjects(size, total) > 0
    ensures var m := MaxObjects(size, total);
            (m - 1) * size <= total - AlignUp16(BitmapWords(m) * 8)
  {
    var m := MaxObjects(size, total);
    MaxObjectsIsIdeal(size, total);
    assert m * (8 * size + 1) == 8 * (m * size) + m;
    AlignedBitmapBytes(m);
    assert (m - 1) * size == m * size - size;
  }

  lemma CapacityAtLeast(total: nat, dataStart: nat, size: nat, k: nat)
    requires size > 0 && k * size <= total - dataStart
    ensures k > 0 ==> dataStart < total
    ensures dataStart < total ==> k <= Quot(total - dataStart, size)
  {
    if k > 0 { MulMonotone(1, k, size); }
    if dataStart < total {
      var room := total - dataStart;
      DivBounds(room, size);
      if room / size < k { MulMonotone(room / size + 1, k, size); }
    }
  }

  lemma AlignedBitmapBytes(m: nat)
    requires m > 0
    ensures 8 * AlignUp16(BitmapWords(m) * 8) <= m + 127
  {
    var w := BitmapWords(m);
    assert w * 8 > 0;
    assert AlignUp16(w * 8) == (w + 1) / 2 * 16;
  }

  /** Two slots of one span never share a byte. */
  lemma SlotsDisjoint(size: nat, i: nat, j: nat)
    requires i < j
    ensures i * size + size <= j * size
  {
    MulMonotone(i + 1, j, size);
  }

  /** The refill span of every served class is accepted and holds at least one
      object, so a fresh span always serves an allocation. */
  lemma EveryClassHoldsAnObject(idx: nat)
    requires idx < SizeClass.NUM_CLASSES
    ensures ComputeSpanLayout(SizeClass.CalculateSize(idx), SizeClass.MovePages(idx)).capacity >= 1
  {
    var size, pages := SizeClass.CalculateSize(idx), SizeClass.MovePages(idx);
    var total := pages * 4096;
    SizeClass.SizePositive(idx);
    SizeClass.IndexOfSize(idx);
    SizeClass.ClassRange(size);
    SizeClass.RefillHoldsTwo(idx);
    MaxObjectsIsIdeal(size, total);
    assert Fits(2, size, total);
    SmallRequestAccepted(size, pages);
    LayoutNearIdeal(size, pages);
  }

  lemma SmallRequestAccepted(size: nat, pages: nat)
    requires 16 <= size <= MAX_TC_SIZE && 0 < pages <= MAX_PAGE_NUM
    requires MaxObjects(size, pages * 4096) >= 1
    ensures ComputeSpanLayout(size, pages) != EMPTY
  {
    var total := pages * 4096;
    var m := MaxObjects(size, total);
    MaxObjectsIsIdeal(size, total);
    MulMonotone(1, 8 * size + 1, m);
    assert m <= 8 * total;
    AlignedBitmapBytes(m);
  }
}
