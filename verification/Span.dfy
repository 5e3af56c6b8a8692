/** A span that serves small objects from an in-page bitmap: `Span::Init`,
    `AllocObject`, `FreeObject` and `ObjectSlotOf` (src/span.cpp). A set bit is a
    free slot. */
module SpanObjects {
  import opened Config
  import opened Bits
  import opened Lists
  import SpanLayout

  predicate IsFree(words: seq<nat>, k: nat)
  {
    k / 64 < |words| && Bit(words[k / 64], k % 64)
  }

  /** The set of free slots a bitmap stands for. */
  function FreeSlots(words: seq<nat>, capacity: nat): (s: set<nat>)
    ensures forall k: nat :: k in s <==> k < capacity && IsFree(words, k)
  {
    set k: nat | k < capacity && IsFree(words, k)
  }

  /** Words are 64-bit and carry no bit beyond the capacity. */
  ghost predicate WellFormed(words: seq<nat>, capacity: nat)
  {
    && capacity <= 64 * |words|
    && (forall i :: 0 <= i < |words| ==> words[i] < WORD)
    && (forall k: nat :: IsFree(words, k) ==> k < capacity)
  }

  lemma SlotParts(i: nat, b: nat)
    requires b < 64
    ensures (64 * i + b) / 64 == i && (64 * i + b) % 64 == b
  {}

  /** Clearing bit b of word i takes slot 64i+b out of the free set. */
  lemma ClearSlot(words: seq<nat>, capacity: nat, i: nat, b: nat)
    requires i < |words| && b < 64 && WellFormed(words, capacity)
    ensures var w := words[i := ClearBit(words[i], b)];
            && WellFormed(w, capacity)
            && FreeSlots(w, capacity) == FreeSlots(words, capacity) - {64 * i + b}
  {
    var w := words[i := ClearBit(words[i], b)];
    WordIsPow2();
    BitInWord(words[i], 64, b);
    SlotParts(i, b);
    forall k: nat
      ensures IsFree(w, k) <==> k != 64 * i + b && IsFree(words, k)
    {
      ClearBitAt(words[i], b, k % 64);
    }
  }

  /** Setting bit b of word i puts slot 64i+b into the free set. */
  lemma SetSlot(words: seq<nat>, capacity: nat, i: nat, b: nat)
    requires i < |words| && b < 64 && 64 * i + b < capacity && WellFormed(words, capacity)
    ensures var w := words[i := SetBit(words[i], b)];
            && WellFormed(w, capacity)
            && FreeSlots(w, capacity) == FreeSlots(words, capacity) + {64 * i + b}
  {
    var w := words[i := SetBit(words[i], b)];
    WordIsPow2();
    BitInWord(words[i], 64, b);
    SlotParts(i, b);
    forall k: nat
      ensures IsFree(w, k) <==> k == 64 * i + b || IsFree(words, k)
    {
      SetBitAt(words[i], b, k % 64);
    }
  }

  /** The lowest set bit of the first nonzero word is the lowest free slot. */
  lemma LowestFree(words: seq<nat>, capacity: nat, i: nat)
    requires WellFormed(words, capacity)
    requires i < |words| && words[i] > 0 && forall j :: 0 <= j < i ==> words[j] == 0
    ensures var k := 64 * i + CountrZero(words[i]);
            && CountrZero(words[i]) < 64 && k < capacity && k in FreeSlots(words, capacity)
            && forall j :: j in FreeSlots(words, capacity) ==> k <= j
  {
    var b := CountrZero(words[i]);
    CountrZeroIsLowest(words[i]);
    WordIsPow2();
    BitInWord(words[i], 64, b);
    SlotParts(i, b);
    assert IsFree(words, 64 * i + b);
    forall j | j in FreeSlots(words, capacity)
      ensures 64 * i + b <= j
    {
      if j / 64 < i { ZeroHasNoBits(j % 64); }
    }
  }

  /** Clearing it leaves the words below empty, and this word too if it was the only
      one set. */
  lemma TakesLowest(words: seq<nat>, capacity: nat, i: nat)
    requires WellFormed(words, capacity) && i < |words| && words[i] > 0 && EmptyBelow(words, i)
    ensures var b := CountrZero(words[i]);
            var k, w := 64 * i + b, words[i := ClearBit(words[i], b)];
            && b < 64 && TookLowest(FreeSlots(words, capacity), FreeSlots(w, capacity), k) && WellFormed(w, capacity)
            && |FreeSlots(w, capacity)| == |FreeSlots(words, capacity)| - 1
            && EmptyBelow(w, if w[i] == 0 then i + 1 else i)
  {
    LowestFree(words, capacity, i);
    ClearSlot(words, capacity, i, CountrZero(words[i]));
  }

  /** Slot k, the lowest, was taken out of the free set. */
  ghost predicate TookLowest(free: set<nat>, free': set<nat>, k: nat)
  {
    k in free && free' == free - {k} && forall j :: j in free ==> k <= j
  }

  /** `GetBitmapNum`: the words that carry the bits of `capacity` slots. */
  function WordCount(capacity: nat): nat { (capacity + 63) / 64 }

  lemma ZeroWordsNoneFree(words: seq<nat>, capacity: nat)
    requires EmptyBelow(words, WordCount(capacity))
    ensures FreeSlots(words, capacity) == {}
  {
    forall k: nat | k < capacity && IsFree(words, k)
      ensures false
    {
      ZeroHasNoBits(k % 64);
    }
  }

  /** A freed slot below the cursor's word lowers the cursor, so words before it
      stay empty. */
  ghost predicate EmptyBelow(words: seq<nat>, cursor: nat)
  {
    cursor <= |words| && forall j :: 0 <= j < cursor ==> words[j] == 0
  }

  /** With one slot taken, not every slot is free. */
  lemma TakenSlot(words: seq<nat>, capacity: nat, slot: nat)
    requires slot < capacity && slot !in FreeSlots(words, capacity)
    ensures |FreeSlots(words, capacity)| < capacity
  {
    FreeCount(words, capacity);
  }

  lemma FreeCount(words: seq<nat>, capacity: nat)
    ensures |FreeSlots(words, capacity)| <= capacity
    ensures |FreeSlots(words, capacity)| == capacity <==> FreeSlots(words, capacity) == Range(capacity)
  {
    var free, all := FreeSlots(words, capacity), Range(capacity);
    assert free <= all;
    SubsetSize(free, all);
  }

  class Span {
    var startPage: nat
    var pageNum: nat
    var bitmap: array<nat>
    var objSize: nat
    var capacity: nat
    var useCount: nat
    var scanCursor: nat
    var objOffset: nat

    /** What every operation keeps: the bitmap is well formed, `use_count` is the
        number of slots absent from it, and words below the cursor are empty. */
    ghost predicate Valid()
      reads this, bitmap
    {
      && objSize > 0
      && WordCount(capacity) <= bitmap.Length
      && WellFormed(bitmap[..], capacity)
      && EmptyBelow(bitmap[..], scanCursor)
      && useCount + |Free()| == capacity
    }

    ghost function Free(): set<nat>
      reads this, bitmap
    {
      FreeSlots(bitmap[..], capacity)
    }

    function DataBase(): nat
      reads this
    {
      startPage * 4096 + objOffset
    }

    function SlotAddress(k: nat): nat
      reads this
    {
      DataBase() + k * objSize
    }

    constructor (startPage: nat, pageNum: nat)
      ensures this.startPage == startPage && this.pageNum == pageNum && capacity == 0 && objSize == 0
      ensures fresh(bitmap)
    {
      this.startPage, this.pageNum := startPage, pageNum;
      objSize, capacity, useCount, scanCursor, objOffset := 0, 0, 0, 0, 0;
      bitmap := new nat[0];
    }

    /** Carves the span for objects of one size: every slot starts free. The
        layout reserves at least the words the capacity needs. */
    method Init(size: nat)
      requires size > 0 && SpanLayout.ComputeSpanLayout(size, pageNum).capacity > 0
      modifies this
      ensures Valid() && fresh(bitmap)
      ensures startPage == old(startPage) && pageNum == old(pageNum) && objSize == size
      ensures capacity == SpanLayout.ComputeSpanLayout(size, pageNum).capacity
      ensures objOffset == SpanLayout.ComputeSpanLayout(size, pageNum).objOffset
      ensures useCount == 0 && Free() == Range(capacity)
    {
      SpanLayout.LayoutSound(size, pageNum);
      Carve(size, SpanLayout.ComputeSpanLayout(size, pageNum));
    }

    method Carve(size: nat, layout: SpanLayout.Layout)
      requires size > 0 && layout.capacity <= 64 * layout.bitmapNum
      modifies this
      ensures Valid() && fresh(bitmap)
      ensures startPage == old(startPage) && pageNum == old(pageNum) && objSize == size
      ensures capacity == layout.capacity && objOffset == layout.objOffset
      ensures useCount == 0 && Free() == Range(capacity)
    {
      objSize, capacity, objOffset := size, layout.capacity, layout.objOffset;
      useCount, scanCursor := 0, 0;
      bitmap := FilledBitmap(capacity, layout.bitmapNum);
    }

    /** The lowest free slot, or nothing when the span is full. */
    method AllocObject() returns (ptr: Option<nat>)
      requires Valid()
      modifies this`useCount, this`scanCursor, bitmap
      ensures Valid()
      ensures ptr.None? <==> old(Free()) == {}
      ensures ptr.None? <==> old(useCount) >= capacity
      ensures ptr.None? ==> Free() == old(Free()) && useCount == old(useCount)
      ensures ptr.Some? ==> exists k: nat :: TookLowest(old(Free()), Free(), k) && ptr.value == SlotAddress(k)
      ensures ptr.Some? ==> useCount == old(useCount) + 1
    {
      if useCount >= capacity {
        assert Free() == {};
        return None;
      }
      var i := scanCursor;
      while i < WordCount(capacity) && bitmap[i] == 0
        invariant scanCursor <= i <= bitmap.Length
        invariant EmptyBelow(bitmap[..], i)
      {
        i := i + 1;
      }
      if i >= WordCount(capacity) {
        ZeroWordsNoneFree(bitmap[..], capacity);
        assert false;
      }
      ptr := TakeLowest(i);
    }

    /** Clears the lowest bit of the first nonzero word. */
    method TakeLowest(i: nat) returns (ptr: Option<nat>)
      requires Valid() && i < bitmap.Length && bitmap[i] > 0 && EmptyBelow(bitmap[..], i)
      requires useCount < capacity
      modifies this`useCount, this`scanCursor, bitmap
      ensures Valid() && ptr.Some? && old(Free()) != {}
      ensures exists k: nat :: TookLowest(old(Free()), Free(), k) && ptr.value == SlotAddress(k)
      ensures useCount == old(useCount) + 1
    {
      ghost var words := bitmap[..];
      TakesLowest(words, capacity, i);
      var bit := CountrZero(bitmap[i]);
      var val := ClearBit(bitmap[i], bit);
      bitmap[i] := val;
      assert bitmap[..] == words[i := ClearBit(words[i], bit)];
      useCount := useCount + 1;
      scanCursor := if val == 0 then i + 1 else i;
      var k := 64 * i + bit;
      assert TookLowest(old(Free()), Free(), k);
      ptr := Some(SlotAddress(k));
    }

    /** Puts an allocated slot back. Power-of-two sizes take the shift path and
        other sizes divide; both find the same slot. */
    method FreeObject(ptr: nat, ghost slot: nat)
      requires Valid()
      requires slot < capacity && slot !in Free() && ptr == SlotAddress(slot)
      modifies this`useCount, this`scanCursor, bitmap
      ensures Valid()
      ensures Free() == old(Free()) + {slot}
      ensures useCount == old(useCount) - 1
    {
      var offset := ptr - DataBase();
      QuotientUnique(offset, objSize, slot) by { assert (slot + 1) * objSize == slot * objSize + objSize; }
      var index;
      if HasSingleBit(objSize) {
        ShiftIsDivision(offset, objSize);
        index := Shr(offset, CountrZero(objSize));
      } else {
        index := offset / objSize;
      }
      assert index == slot;
      PutBack(index);
    }

    method PutBack(index: nat)
      requires Valid() && index < capacity && index !in Free()
      modifies this`useCount, this`scanCursor, bitmap
      ensures Valid()
      ensures Free() == old(Free()) + {index}
      ensures useCount == old(useCount) - 1
    {
      ghost var words := bitmap[..];
      var i, bit := index / 64, index % 64;
      TakenSlot(words, capacity, index);
      SetSlot(words, capacity, i, bit);
      bitmap[i] := SetBit(bitmap[i], bit);
      assert bitmap[..] == words[i := SetBit(words[i], bit)];
      useCount := useCount - 1;
      scanCursor := Min(scanCursor, i);
    }

    /** The slot an address names, or nothing when the address is outside the
        object area or off the grid. */
    function ObjectSlotOf(ptr: nat): (slot: Option<nat>)
      reads this, bitmap
      requires Valid()
      ensures slot.Some? ==> slot.value < capacity && ptr == SlotAddress(slot.value)
      ensures slot.None? ==> forall k: nat :: k < capacity ==> ptr != SlotAddress(k)
    {
      SlotOf(DataBase(), ptr, capacity, objSize)
    }
  }

  function SlotOf(base: nat, ptr: nat, capacity: nat, size: nat): (slot: Option<nat>)
    requires size > 0
    ensures slot.Some? ==> slot.value < capacity && ptr == base + slot.value * size
    ensures slot.None? ==> forall k: nat :: k < capacity ==> ptr != base + k * size
  {
    if ptr < base || ptr - base >= capacity * size || (ptr - base) % size != 0 then
      OffGrid(base, ptr, capacity, size); None
    else
      SlotNumber(ptr - base, capacity, size); Some(Quot(ptr - base, size))
  }

  lemma OffGrid(base: nat, ptr: nat, capacity: nat, size: nat)
    requires size > 0 && (ptr < base || ptr - base >= capacity * size || (ptr - base) % size != 0)
    ensures forall k: nat :: k < capacity ==> ptr != base + k * size
  {
    SlotOffsets(capacity, size);
  }

  lemma SlotOffsets(capacity: nat, size: nat)
    requires size > 0
    ensures forall k: nat :: k < capacity ==> k * size < capacity * size && (k * size) % size == 0
  {
    forall k: nat | k < capacity
      ensures k * size < capacity * size && (k * size) % size == 0
    {
      MulMonotone(k + 1, capacity, size);
      assert (k + 1) * size == k * size + size;
      QuotientUnique(k * size, size, k);
    }
  }

  lemma SlotNumber(offset: nat, capacity: nat, size: nat)
    requires size > 0 && offset < capacity * size && offset % size == 0
    ensures Quot(offset, size) < capacity && Quot(offset, size) * size == offset
  {
    var k := offset / size;
    if k >= capacity { MulMonotone(capacity, k, size); }
  }

  /** The words `Init` writes: full words, one partial word, no bit beyond. */
  method FilledBitmap(capacity: nat, bitmapNum: nat) returns (words: array<nat>)
    requires capacity <= 64 * bitmapNum
    ensures fresh(words) && words.Length == bitmapNum
    ensures WellFormed(words[..], capacity) && FreeSlots(words[..], capacity) == Range(capacity)
  {
    words := new nat[bitmapNum];
    var full, tail := capacity / 64, capacity % 64;
    for i := 0 to full
      invariant forall j :: 0 <= j < i ==> words[j] == WORD - 1
    {
      words[i] := WORD - 1;
    }
    if full < bitmapNum {
      words[full] := if tail == 0 then 0 else Pow2(tail) - 1;
      for i := full + 1 to bitmapNum
        invariant forall j :: 0 <= j < full ==> words[j] == WORD - 1
        invariant words[full] == Pow2(tail) - 1
        invariant forall j :: full < j < i ==> words[j] == 0
      {
        words[i] := 0;
      }
    }
    FilledBits(words[..], capacity);
  }

  lemma FilledBits(words: seq<nat>, capacity: nat)
    requires capacity <= 64 * |words|
    requires forall j :: 0 <= j < capacity / 64 ==> words[j] == WORD - 1
    requires forall j :: capacity / 64 < j < |words| ==> words[j] == 0
    requires capacity / 64 < |words| ==> words[capacity / 64] == Pow2(capacity % 64) - 1
    ensures WellFormed(words, capacity) && FreeSlots(words, capacity) == Range(capacity)
  {
    WordIsPow2();
    Pow2Monotone(capacity % 64, 64);
    forall k: nat
      ensures IsFree(words, k) <==> k < capacity
    {
      if k / 64 < capacity / 64 {
        LowMaskBits(64, k % 64);
      } else if k / 64 == capacity / 64 {
        LowMaskBits(capacity % 64, k % 64);
      } else {
        ZeroHasNoBits(k % 64);
      }
    }
  }
}
