/** Size classes: the map between request sizes and fixed object sizes, and the
    batch and span-length policy tables (include/ammalloc/size_class.h). */
module SizeClass {
  import opened Config

  const LINEAR_LIMIT: nat := 128
  const LINEAR_BUCKETS: nat := 8
  const LINEAR_MSB: nat := 7
  const NUM_CLASSES: nat := 40

  /** `std::bit_width`: the number of bits needed to write x. */
  function BitWidth(x: nat): nat
  {
    if x == 0 then 0 else 1 + BitWidth(x / 2)
  }

  lemma {:induction false} BitWidthBounds(x: nat)
    requires x > 0
    ensures BitWidth(x) > 0 && Pow2(BitWidth(x) - 1) <= x < Pow2(BitWidth(x))
  {
    if x > 1 { BitWidthBounds(x / 2); }
  }

  /** The bit width is the only w with 2^(w-1) <= x < 2^w. */
  lemma BitWidthUnique(x: nat, w: nat)
    requires w > 0 && Pow2(w - 1) <= x < Pow2(w)
    ensures BitWidth(x) == w
  {
    var v := BitWidth(x);
    BitWidthBounds(x);
    if v < w {
      Pow2Monotone(v, w - 1);
    } else if w < v {
      Pow2Monotone(w, v - 1);
    }
  }

  /** The index of a size in the group of exponent msb, whose high bits number
      its step. */
  function GroupedIndex(msb: nat, step: nat): nat
    requires msb >= LINEAR_MSB
  {
    LINEAR_BUCKETS + (msb - LINEAR_MSB) * 4 + step % 4
  }

  function CalculateIndex(size: nat): nat
  {
    if size == 0 then 0
    else if size <= LINEAR_LIMIT then (size - 1) / 16
    else
      BitWidthAbove(size - 1);
      var msb := BitWidth(size - 1) - 1;
      GroupedIndex(msb, Shr(size - 1, msb - 2))
  }

  function CalculateSize(idx: nat): nat
  {
    if idx < LINEAR_BUCKETS then (idx + 1) * 16
    else
      var rel := idx - LINEAR_BUCKETS;
      var msb := rel / 4 + LINEAR_MSB;
      Pow2(msb) + (rel % 4 + 1) * Pow2(msb - 2)
  }

  lemma BitWidthAbove(x: nat)
    requires x >= LINEAR_LIMIT
    ensures BitWidth(x) >= LINEAR_MSB + 1
  {
    BitWidthAtLeast(x, 7);
    assert Pow2(7) == 128 by { assert Pow2(3) == 8; assert Pow2(5) == 32; }
  }

  lemma {:induction false} BitWidthAtLeast(x: nat, n: nat)
    ensures x >= Pow2(n) ==> BitWidth(x) > n
    decreases n
  {
    if n > 0 { BitWidthAtLeast(x / 2, n - 1); }
  }

  /** Pow2(m) is four times the step width of the group at exponent m. */
  lemma StepWidth(m: nat)
    requires m >= 2
    ensures Pow2(m) == 4 * Pow2(m - 2) && Pow2(m + 1) == 8 * Pow2(m - 2)
  {}

  /** n steps of width q for the step numbers a group uses. */
  function Steps(n: nat, q: nat): nat
    requires 4 <= n <= 8
  {
    if n == 4 then 4 * q else if n == 5 then 5 * q else if n == 6 then 6 * q
    else if n == 7 then 7 * q else 8 * q
  }

  /** The top three bits of x number the step of width 2^n that x falls in. */
  lemma {:induction false} StepNumber(x: nat, n: nat)
    requires Pow2(n + 2) <= x < Pow2(n + 3)
    ensures 4 <= Shr(x, n) < 8
    ensures Steps(Shr(x, n), Pow2(n)) <= x < Steps(Shr(x, n) + 1, Pow2(n))
    decreases n
  {
    if n == 0 {
      assert Pow2(2) == 4 && Pow2(3) == 8;
    } else {
      StepNumber(x / 2, n - 1);
    }
  }

  /** A class index above the linear region and the size it decodes to. */
  lemma SizeInGroup(m: nat, step: nat)
    requires m >= LINEAR_MSB && 4 <= step < 8
    ensures CalculateSize(GroupedIndex(m, step)) == Steps(step + 1, Pow2(m - 2))
  {
    StepWidth(m);
    GroupedIndexDecodes(m, step);
  }

  lemma GroupedIndexDecodes(m: nat, step: nat)
    requires m >= LINEAR_MSB && 4 <= step < 8
    ensures var rel := GroupedIndex(m, step) - LINEAR_BUCKETS;
            rel >= 0 && rel / 4 == m - LINEAR_MSB && rel % 4 == step - 4
  {}

  lemma GroupedIndexPredecessor(m: nat, step: nat)
    requires m >= LINEAR_MSB && 4 <= step < 8
    ensures step > 4 ==> GroupedIndex(m, step) - 1 == GroupedIndex(m, step - 1)
    ensures step == 4 && m > LINEAR_MSB ==> GroupedIndex(m, step) - 1 == GroupedIndex(m - 1, 7)
    ensures step == 4 && m == LINEAR_MSB ==> GroupedIndex(m, step) - 1 == LINEAR_BUCKETS - 1
  {}

  lemma GroupedIndexSplits(idx: nat) returns (m: nat, step: nat)
    requires idx >= LINEAR_BUCKETS
    ensures m >= LINEAR_MSB && 4 <= step < 8 && idx == GroupedIndex(m, step)
    ensures idx + 1 == if step < 7 then GroupedIndex(m, step + 1) else GroupedIndex(m + 1, 4)
  {
    var rel := idx - LINEAR_BUCKETS;
    m, step := rel / 4 + LINEAR_MSB, rel % 4 + 4;
  }

  /** The group of a size above 128: its msb m and its step number k. */
  lemma GroupOf(size: nat) returns (m: nat, k: nat)
    requires size > LINEAR_LIMIT
    ensures m >= LINEAR_MSB && m == BitWidth(size - 1) - 1 && k == Shr(size - 1, m - 2)
    ensures Pow2(m) <= size - 1 < Pow2(m + 1)
    ensures CalculateIndex(size) == GroupedIndex(m, k)
  {
    BitWidthAbove(size - 1);
    BitWidthBounds(size - 1);
    m := BitWidth(size - 1) - 1;
    k := Shr(size - 1, m - 2);
  }

  lemma StepBounds(size: nat, m: nat, k: nat)
    requires m >= LINEAR_MSB && Pow2(m) <= size - 1 < Pow2(m + 1) && k == Shr(size - 1, m - 2)
    ensures 4 <= k < 8 && Steps(k, Pow2(m - 2)) <= size - 1 < Steps(k + 1, Pow2(m - 2))
  {
    StepNumber(size - 1, m - 2);
  }

  /** The geometric class of a size above 128: with msb m and step number k the
      size is rounded up to the next multiple of the step width. */
  lemma GeometricClass(size: nat) returns (m: nat, k: nat)
    requires size > LINEAR_LIMIT
    ensures m >= LINEAR_MSB && 4 <= k < 8 && m == BitWidth(size - 1) - 1
    ensures Steps(k, Pow2(m - 2)) <= size - 1 < Steps(k + 1, Pow2(m - 2))
    ensures CalculateIndex(size) == GroupedIndex(m, k)
  {
    m, k := GroupOf(size);
    StepBounds(size, m, k);
  }

  /** Every class is strictly larger than the class before it. */
  lemma SizeStep(idx: nat)
    ensures CalculateSize(idx) < CalculateSize(idx + 1)
  {
    if idx + 1 < LINEAR_BUCKETS {
    } else if idx < LINEAR_BUCKETS {
      SizeInGroup(LINEAR_MSB, 4);
      assert Pow2(5) == 32 by { assert Pow2(3) == 8; }
    } else {
      var m, step := GroupedIndexSplits(idx);
      SizeInGroup(m, step);
      if step < 7 {
        SizeInGroup(m, step + 1);
      } else {
        SizeInGroup(m + 1, 4);
      }
    }
  }

  /** `CalculateSize` is strictly increasing, for all indices. */
  lemma {:induction false} SizeStrictlyIncreasing(i: nat, j: nat)
    requires i < j
    ensures CalculateSize(i) < CalculateSize(j)
    decreases j
  {
    SizeStep(j - 1);
    if i < j - 1 { SizeStrictlyIncreasing(i, j - 1); }
  }

  /** `CalculateIndex` undoes `CalculateSize`. */
  lemma IndexOfSize(idx: nat)
    ensures CalculateIndex(CalculateSize(idx)) == idx
  {
    if idx >= LINEAR_BUCKETS {
      var m, step := GroupedIndexSplits(idx);
      IndexOfGroupSize(m, step);
    }
  }

  lemma IndexOfGroupSize(m: nat, step: nat)
    requires m >= LINEAR_MSB && 4 <= step < 8
    ensures CalculateIndex(CalculateSize(GroupedIndex(m, step))) == GroupedIndex(m, step)
  {
    var q := Pow2(m - 2);
    SizeInGroup(m, step);
    StepWidth(m);
    Pow2Monotone(LINEAR_MSB - 2, m - 2);
    assert Pow2(5) == 32 by { assert Pow2(3) == 8; }
    var size := Steps(step + 1, q);
    BitWidthUnique(size - 1, m + 1);
    var m', k := GeometricClass(size);
  }

  /** `CalculateIndex` picks the smallest class that holds the request. */
  lemma IndexIsSmallest(size: nat)
    ensures size <= CalculateSize(CalculateIndex(size))
    ensures forall j: nat :: j < CalculateIndex(size) ==> CalculateSize(j) < size
  {
    var idx := CalculateIndex(size);
    if size > LINEAR_LIMIT { PreviousClassTooSmall(size); }
    forall j: nat | j < idx
      ensures CalculateSize(j) < size
    {
      if j < idx - 1 { SizeStrictlyIncreasing(j, idx - 1); }
    }
  }

  lemma PreviousClassTooSmall(size: nat)
    requires size > LINEAR_LIMIT
    ensures size <= CalculateSize(CalculateIndex(size))
    ensures CalculateIndex(size) > 0 && CalculateSize(CalculateIndex(size) - 1) < size
  {
    var m, k := GeometricClass(size);
    SizeInGroup(m, k);
    GroupedIndexPredecessor(m, k);
    StepBefore(m, k);
  }

  /** The class before step k of a group holds k step widths. */
  lemma StepBefore(m: nat, k: nat)
    requires m >= LINEAR_MSB && 4 <= k < 8
    ensures CalculateSize(GroupedIndex(m, k) - 1) == Steps(k, Pow2(m - 2))
  {
    GroupedIndexPredecessor(m, k);
    if k > 4 {
      SizeInGroup(m, k - 1);
    } else if m > LINEAR_MSB {
      SizeInGroup(m - 1, 7);
    } else {
      assert Pow2(5) == 32 by { assert Pow2(3) == 8; }
    }
  }

  /** Above 128 bytes a request wastes less than a quarter of its size. */
  lemma WasteUnderQuarter(size: nat)
    requires size > LINEAR_LIMIT
    ensures 4 * (CalculateSize(CalculateIndex(size)) - size) < size
  {
    var m, k := GeometricClass(size);
    SizeInGroup(m, k);
  }

  /** Every class size is a multiple of the fundamental alignment. */
  lemma SizeAligned(idx: nat)
    ensures CalculateSize(idx) % 16 == 0
  {
    if idx >= LINEAR_BUCKETS {
      var m, step := GroupedIndexSplits(idx);
      SizeInGroup(m, step);
      Pow2Aligned(m - 2);
      StepsAligned(step + 1, Pow2(m - 2), Pow2(m - 2) / 16);
    }
  }

  lemma StepsAligned(n: nat, q: nat, u: nat)
    requires 4 <= n <= 8 && q == 16 * u
    ensures Steps(n, q) % 16 == 0
  {
    assert Steps(n, q) == 16 * Steps(n, u);
  }

  lemma {:induction false} Pow2Aligned(n: nat)
    requires n >= 4
    ensures Pow2(n) % 16 == 0
  {
    if n == 4 { assert Pow2(2) == 4; } else { Pow2Aligned(n - 1); }
  }

  /** The decoded size fits a 64-bit word exactly for the first 235 indices; the
      power-of-two top class 2^64 is the first that does not. */
  lemma SizeFitsWord(idx: nat)
    ensures CalculateSize(idx) <= MAX_SIZE_T <==> idx < 235
  {
    SizeInGroup(63, 6);
    SizeInGroup(63, 7);
    Pow2Of(61);
    if idx < 234 { SizeStrictlyIncreasing(idx, 234); }
    if idx > 235 { SizeStrictlyIncreasing(235, idx); }
  }

  lemma Pow2Of(n: nat)
    requires n == 61
    ensures Pow2(n) == 0x2000_0000_0000_0000
  {
    assert Pow2(10) == 1024 by { assert Pow2(5) == 32; }
    assert Pow2(20) == 0x10_0000 by { Pow2Add(10, 10); }
    assert Pow2(40) == 0x100_0000_0000 by { Pow2Add(20, 20); }
    assert Pow2(60) == 0x1000_0000_0000_0000 by { Pow2Add(40, 20); }
  }

  /** The classes the caches serve are exactly those up to MAX_TC_SIZE. */
  lemma ClassRange(size: nat)
    ensures size <= MAX_TC_SIZE <==> CalculateIndex(size) < NUM_CLASSES
  {
    SizeInGroup(14, 7);
    assert CalculateSize(39) == MAX_TC_SIZE by {
      assert Pow2(12) == 4096 by { assert Pow2(6) == 64; Pow2Add(6, 6); }
    }
    IndexIsSmallest(size);
    if size <= MAX_TC_SIZE {
    } else if CalculateIndex(size) < 39 {
      SizeStrictlyIncreasing(CalculateIndex(size), 39);
    }
  }

  /** `batch_table_`: objects moved between the caches in one transfer. */
  function BatchSize(idx: nat): (b: nat)
    ensures 2 <= b <= MAX_BATCH
  {
    SizePositive(idx);
    Min(MAX_BATCH, Max(2, MAX_TC_SIZE / CalculateSize(idx)))
  }

  lemma SizePositive(idx: nat)
    ensures CalculateSize(idx) >= ALIGNMENT
  {
    if idx > 0 { SizeStrictlyIncreasing(0, idx); }
  }

  /** `move_page_table_`: pages of the span that refills a class. */
  function MovePages(idx: nat): (p: nat)
    ensures 8 <= p <= MAX_PAGE_NUM
  {
    var bytes := Max(32 * 1024, 8 * BatchSize(idx) * CalculateSize(idx));
    Min(MAX_PAGE_NUM, CeilDiv(bytes, 4096))
  }

  /** The refill span of every served class has room for two objects and their
      two bitmap bits. */
  lemma RefillHoldsTwo(idx: nat)
    requires idx < NUM_CLASSES
    ensures 2 * (8 * CalculateSize(idx) + 1) <= 8 * (MovePages(idx) * 4096)
  {
    var size := CalculateSize(idx);
    IndexOfSize(idx);
    ClassRange(size);
    var objects := 8 * BatchSize(idx);
    assert 16 * size <= objects * size by { MulMonotone(16, objects, size); }
    var bytes := Max(32 * 1024, objects * size);
    assert CeilDiv(bytes, 4096) * 4096 >= bytes;
  }

  /** The size of k objects of class c. */
  function Bytes(c: nat, k: nat): nat { k * CalculateSize(c) }

  lemma BytesAdd(c: nat, a: nat, b: nat)
    ensures Bytes(c, a + b) == Bytes(c, a) + Bytes(c, b)
  {}

  lemma BytesMonotone(c: nat, a: nat, b: nat)
    requires a <= b
    ensures Bytes(c, a) <= Bytes(c, b)
  {
    MulMonotone(a, b, CalculateSize(c));
  }
}
