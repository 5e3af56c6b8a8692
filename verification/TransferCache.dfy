/** The circular transfer caches of a bucket and the bounded drain over all of them
    (include/ammalloc/central_cache.h, src/central_cache.cpp). */
module TransferCache {
  import opened Config
  import opened SizeClass

  /** `TransferIndex`: the slot of a logical cold-to-hot offset. */
  function TransferIndex(begin: nat, capacity: nat, offset: nat): nat
    requires begin < capacity && offset < capacity
  {
    var index := begin + offset;
    if index < capacity then index else index - capacity
  }

  /** Different offsets have different slots. */
  lemma IndexInjective(begin: nat, capacity: nat, i: nat, j: nat)
    requires begin < capacity && i < capacity && j < capacity
    ensures TransferIndex(begin, capacity, i) < capacity
    ensures TransferIndex(begin, capacity, i) == TransferIndex(begin, capacity, j) ==> i == j
  {}

  class Ring {
    const slots: array<nat>
    var begin: nat
    var size: nat
    ghost var contents: seq<nat>

    /** The slots hold `contents`, the coldest object at `begin`. Without backing
        the capacity is zero. */
    ghost predicate Valid()
      reads this, slots
    {
      && size == |contents| <= slots.Length && (begin < slots.Length || (slots.Length == 0 && begin == 0))
      && forall k: nat :: k < size ==> slots[TransferIndex(begin, slots.Length, k)] == contents[k]
    }

    constructor (capacity: nat)
      ensures Valid() && fresh(slots) && slots.Length == capacity && contents == []
    {
      slots := new nat[capacity](_ => 0);
      begin, size, contents := 0, 0, [];
    }

    /** Pops the hottest min(n, size) objects into a scratch array, hottest first. */
    method PopHot(n: nat, scratch: array<nat>) returns (grab: nat)
      requires Valid() && n <= scratch.Length && scratch != slots
      modifies this, scratch
      ensures Valid() && grab == Min(n, |old(contents)|)
      ensures contents == old(contents)[..|old(contents)| - grab]
      ensures forall i: nat :: i < grab ==> scratch[i] == old(contents)[|old(contents)| - 1 - i]
    {
      grab := if n < size then n else size;
      var i := 0;
      while i < grab
        invariant i <= grab && begin == old(begin) && contents == old(contents) && size == |contents| - i
        invariant forall j: nat :: j < i ==> scratch[j] == old(contents)[|old(contents)| - 1 - j]
      {
        size := size - 1;
        scratch[i] := slots[TransferIndex(begin, slots.Length, size)];
        i := i + 1;
      }
      contents := contents[..size];
    }

    /** Pushes objects of `ptrs`, in order, until they or the capacity run out. */
    method PushHot(ptrs: seq<nat>) returns (pushed: nat)
      requires Valid()
      modifies this, slots
      ensures Valid() && pushed == Min(|ptrs|, slots.Length - |old(contents)|)
      ensures contents == old(contents) + ptrs[..pushed]
    {
      pushed := 0;
      while pushed < |ptrs| && size < slots.Length
        invariant pushed <= |ptrs| && Valid() && size == |old(contents)| + pushed
        invariant contents == old(contents) + ptrs[..pushed]
        decreases |ptrs| - pushed
      {
        PushOne(ptrs[pushed]);
        pushed := pushed + 1;
      }
    }

    method PushOne(ptr: nat)
      requires Valid() && size < slots.Length
      modifies this, slots
      ensures Valid() && contents == old(contents) + [ptr] && size == old(size) + 1
    {
      var at := TransferIndex(begin, slots.Length, size);
      forall k: nat | k < size
        ensures TransferIndex(begin, slots.Length, k) != at
      {
        IndexInjective(begin, slots.Length, k, size);
      }
      slots[at] := ptr;
      size := size + 1;
      contents := contents + [ptr];
    }

    /** Detaches the coldest min(limit, size) objects, coldest first; the others
        keep their order. */
    method DrainCold(limit: nat) returns (detached: seq<nat>)
      requires Valid()
      modifies this
      ensures Valid() && |detached| == Min(limit, |old(contents)|)
      ensures old(contents) == detached + contents
    {
      var d := if limit < size then limit else size;
      detached := [];
      if d == 0 { return; }
      var j := 0;
      while j < d
        invariant j <= d && detached == old(contents)[..j] && Valid()
        invariant begin == old(begin) && size == old(size) && contents == old(contents)
      {
        detached := detached + [slots[TransferIndex(begin, slots.Length, j)]];
        j := j + 1;
      }
      begin := if d == slots.Length then 0 else TransferIndex(begin, slots.Length, d);
      size := size - d;
      contents := contents[d..];
    }
  }

  /** The bytes of the objects in caches i and above. */
  function BytesFrom(caches: seq<seq<nat>>, i: nat): nat
    decreases |caches| - i
  {
    if i >= |caches| then 0 else Bytes(i, |caches[i]|) + BytesFrom(caches, i + 1)
  }

  lemma {:induction false} BytesFromSame(a: seq<seq<nat>>, b: seq<seq<nat>>, i: nat)
    requires |a| == |b| && forall c: nat :: i <= c < |a| ==> a[c] == b[c]
    ensures BytesFrom(a, i) == BytesFrom(b, i)
    decreases |a| - i
  {
    if i < |a| { BytesFromSame(a, b, i + 1); }
  }

  /** Taking all objects that fit leaves less than one object's size. */
  lemma QuotientLeaves(c: nat, left: nat)
    ensures CalculateSize(c) > 0
    ensures Bytes(c, Quot(left, CalculateSize(c))) <= left
    ensures left - Bytes(c, Quot(left, CalculateSize(c))) < CalculateSize(c)
  {
    SizePositive(c);
    DivBounds(left, CalculateSize(c));
  }

  /** How many objects of class c this drain takes. */
  function Snapshot(c: nat, size: nat, left: nat, unbounded: bool): nat
  {
    SizePositive(c);
    if unbounded then size
    else if left < CalculateSize(c) then 0
    else if size < Quot(left, CalculateSize(c)) then size else Quot(left, CalculateSize(c))
  }

  /** Class c holds nothing, or the budget is too small for one more object. */
  predicate Spent(caches: seq<seq<nat>>, c: nat, left: nat, unbounded: bool)
  {
    c < |caches| && (caches[c] == [] || (!unbounded && left < CalculateSize(c)))
  }

  ghost predicate Split(was: seq<seq<nat>>, now: seq<seq<nat>>, gone: seq<seq<nat>>, i: nat)
  {
    && |was| == |now| == |gone|
    && (forall c: nat :: c < |was| ==> gone[c] + now[c] == was[c])
    && (forall c: nat :: c < i && c < |was| ==> gone[c] == [])
  }

  /** The state of a drain that is through with the classes from i up. */
  ghost predicate Progress(was: seq<seq<nat>>, now: seq<seq<nat>>, gone: seq<seq<nat>>, i: nat,
                           drained: nat, left: nat, maxBytes: nat, unbounded: bool)
  {
    && Split(was, now, gone, i) && drained == BytesFrom(gone, i) && (unbounded || left + drained == maxBytes)
    && forall c: nat :: i <= c < |now| ==> Spent(now, c, left, unbounded)
  }

  lemma ProgressMore(was: seq<seq<nat>>, now: seq<seq<nat>>, now': seq<seq<nat>>, gone: seq<seq<nat>>, i: nat,
                     batch: seq<nat>, drained: nat, left: nat, maxBytes: nat, unbounded: bool)
    requires Progress(was, now, gone, i + 1, drained, left, maxBytes, unbounded)
    requires i < |now| == |now'| && now' == now[i := now'[i]] && batch + now'[i] == now[i]
    requires |batch| == Snapshot(i, |now[i]|, left, unbounded)
    ensures !unbounded ==> Bytes(i, |batch|) <= left
    ensures Progress(was, now', gone[i := batch], i, drained + Bytes(i, |batch|),
                     if unbounded then left else left - Bytes(i, |batch|), maxBytes, unbounded)
  {
    SplitMore(was, now, now', gone, i, batch);
    BytesFromSame(gone, gone[i := batch], i + 1);
    SpentMore(now, now', i, |batch|, left, unbounded);
  }

  lemma ProgressDone(was: seq<seq<nat>>, now: seq<seq<nat>>, gone: seq<seq<nat>>,
                     drained: nat, left: nat, maxBytes: nat, unbounded: bool)
    requires Progress(was, now, gone, 0, drained, left, maxBytes, unbounded)
    ensures forall c: nat :: c < |now| && now[c] != [] ==> !unbounded && maxBytes - drained < CalculateSize(c)
    ensures !unbounded ==> drained <= maxBytes
  {
    forall c: nat | c < |now| && now[c] != []
      ensures !unbounded && maxBytes - drained < CalculateSize(c)
    {
      assert Spent(now, c, left, unbounded);
    }
  }

  lemma SnapshotFits(c: nat, size: nat, left: nat, unbounded: bool)
    ensures var n := Snapshot(c, size, left, unbounded);
            && n <= size && (!unbounded ==> Bytes(c, n) <= left)
            && (n == size || (!unbounded && left - Bytes(c, n) < CalculateSize(c)))
  {
    QuotientLeaves(c, left);
    if !unbounded && left >= CalculateSize(c) {
      BytesMonotone(c, Snapshot(c, size, left, unbounded), Quot(left, CalculateSize(c)));
    }
  }

  lemma SplitMore(was: seq<seq<nat>>, now: seq<seq<nat>>, now': seq<seq<nat>>, gone: seq<seq<nat>>, i: nat,
                  batch: seq<nat>)
    requires Split(was, now, gone, i + 1) && i < |now| == |now'| && now' == now[i := now'[i]]
    requires batch + now'[i] == now[i]
    ensures Split(was, now', gone[i := batch], i)
  {
    assert gone[i] == [] && gone[i] + now[i] == now[i];
  }

  lemma SpentMore(caches: seq<seq<nat>>, caches': seq<seq<nat>>, i: nat, count: nat, left: nat, unbounded: bool)
    requires i < |caches| == |caches'| && caches' == caches[i := caches'[i]]
    requires count == Snapshot(i, |caches[i]|, left, unbounded) && |caches'[i]| == |caches[i]| - count
    requires forall c: nat :: i < c < |caches| ==> Spent(caches, c, left, unbounded)
    ensures !unbounded ==> Bytes(i, count) <= left
    ensures var left' := if unbounded then left else left - Bytes(i, count);
            forall c: nat :: i <= c < |caches| ==> Spent(caches', c, left', unbounded)
  {
    SnapshotFits(i, |caches[i]|, left, unbounded);
    var left' := if unbounded then left else left - Bytes(i, count);
    forall c: nat | i <= c < |caches|
      ensures Spent(caches', c, left', unbounded)
    {
      if c > i { assert Spent(caches, c, left, unbounded); }
    }
  }

  lemma {:induction false} NothingGone(gone: seq<seq<nat>>, i: nat)
    requires forall c: nat :: c < |gone| ==> gone[c] == []
    ensures BytesFrom(gone, i) == 0
    decreases |gone| - i
  {
    if i < |gone| { NothingGone(gone, i + 1); }
  }

  lemma ClassSizesPositive()
    ensures forall c: nat :: CalculateSize(c) > 0
  {
    forall c: nat ensures CalculateSize(c) > 0 { SizePositive(c); }
  }

  /** The rings of all buckets, as one thread sees them while no other runs. */
  class TransferCaches {
    const rings: seq<Ring>

    ghost predicate Valid()
      reads this, rings, set r: Ring | r in rings :: r.slots
    {
      && |rings| == NUM_CLASSES && (forall i, j :: 0 <= i < j < |rings| ==> rings[i] != rings[j])
      && forall i: nat {:trigger rings[i]} :: i < |rings| ==> rings[i].Valid()
    }

    /** Per class, cold to hot. */
    ghost function Contents(): (q: seq<seq<nat>>)
      reads rings
      ensures |q| == |rings| && forall c: nat {:trigger q[c]} :: c < |rings| ==> q[c] == rings[c].contents
    {
      seq(|rings|, c requires 0 <= c < |rings| reads rings => rings[c].contents)
    }

    /** Eight batches per class, or nothing when the backing could not be mapped. */
    constructor (backed: bool)
      ensures Valid() && forall c: nat {:trigger rings[c]} :: c < NUM_CLASSES ==>
                rings[c].contents == [] && rings[c].slots.Length == if backed then 8 * BatchSize(c) else 0
    {
      var q: seq<Ring> := [];
      while |q| < NUM_CLASSES
        invariant |q| <= NUM_CLASSES && forall i: nat {:trigger q[i]} :: i < |q| ==> fresh(q[i]) && q[i].Valid()
        invariant forall i, j :: 0 <= i < j < |q| ==> q[i] != q[j]
        invariant forall i: nat {:trigger q[i]} :: i < |q| ==>
                    q[i].contents == [] && q[i].slots.Length == if backed then 8 * BatchSize(i) else 0
      {
        var ring := new Ring(if backed then 8 * BatchSize(|q|) else 0);
        q := q + [ring];
      }
      rings := q;
    }

    /** One class of a drain: the snapshot of `count` objects leaves in batches of
        at most 512, oldest first. */
    method DrainClass(c: nat, count: nat) returns (gone: seq<nat>)
      requires Valid() && c < NUM_CLASSES && count <= |rings[c].contents|
      modifies rings[c]
      ensures Valid() && Contents() == old(Contents())[c := rings[c].contents]
      ensures |gone| == count && gone + rings[c].contents == old(rings[c].contents)
    {
      gone := [];
      var ring := rings[c];
      var remaining: nat := count;
      while remaining > 0
        invariant ring.Valid() && |gone| == count - remaining && remaining <= |ring.contents|
        invariant gone + ring.contents == old(ring.contents)
      {
        var detached := ring.DrainCold(if remaining < MAX_BATCH then remaining else MAX_BATCH);
        gone := gone + detached;
        remaining := remaining - |detached|;
      }
      assert forall i: nat {:trigger rings[i]} :: i < |rings| && i != c ==> rings[i] != ring;
      assert Contents() == old(Contents())[c := ring.contents];
    }

    /** As much of one class as the budget allows. */
    method DrainBucket(c: nat, left: nat, unbounded: bool) returns (batch: seq<nat>)
      requires Valid() && c < NUM_CLASSES
      modifies rings[c]
      ensures Valid() && Contents() == old(Contents())[c := Contents()[c]]
      ensures |batch| == Snapshot(c, |old(Contents())[c]|, left, unbounded)
      ensures batch + Contents()[c] == old(Contents())[c]
    {
      var count := Snapshot(c, rings[c].size, left, unbounded);
      SnapshotFits(c, rings[c].size, left, unbounded);
      batch := DrainClass(c, count);
    }

    /** `DrainTransferCaches`, large classes first. */
    method Drain(maxBytes: nat) returns (drained: nat, ghost gone: seq<seq<nat>>)
      requires Valid() && maxBytes <= MAX_SIZE_T
      modifies rings
      ensures Valid() && |gone| == NUM_CLASSES
      ensures forall c: nat :: c < NUM_CLASSES ==> gone[c] + Contents()[c] == old(Contents())[c]
      ensures drained == BytesFrom(gone, 0)
      ensures maxBytes < MAX_SIZE_T ==> drained <= maxBytes
      ensures maxBytes < MAX_SIZE_T ==>
                forall c: nat :: c < NUM_CLASSES && Contents()[c] != [] ==> maxBytes - drained < CalculateSize(c)
      ensures maxBytes == MAX_SIZE_T ==> forall c: nat :: c < NUM_CLASSES ==> Contents()[c] == []
    {
      gone := seq(NUM_CLASSES, _ => []);
      drained := 0;
      NothingGone(gone, 0);
      if maxBytes == 0 {
        ClassSizesPositive();
        return;
      }
      var unbounded := maxBytes == MAX_SIZE_T;
      var left: nat := maxBytes;
      var i: nat := NUM_CLASSES;
      NothingGone(gone, i);
      while i > 0
        invariant i <= NUM_CLASSES == |gone| && Valid()
        invariant Progress(old(Contents()), Contents(), gone, i, drained, left, maxBytes, unbounded)
      {
        i := i - 1;
        ghost var had := Contents();
        var batch := DrainBucket(i, left, unbounded);
        ProgressMore(old(Contents()), had, Contents(), gone, i, batch, drained, left, maxBytes, unbounded);
        gone := gone[i := batch];
        drained := drained + Bytes(i, |batch|);
        left := if unbounded then left else left - Bytes(i, |batch|);
      }
      ProgressDone(old(Contents()), Contents(), gone, drained, left, maxBytes, unbounded);
    }
  }
}
