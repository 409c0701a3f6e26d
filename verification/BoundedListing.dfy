/**
 Memory accounting of a directory listing: the vector grows within a byte
 budget that counts the old and the new buffer together, in saturating
 `usize` arithmetic.
 */
module BoundedListing {
  import opened Basics

  const VEC_HEADER: nat := 24            // size of an empty vector value
  const USIZE_BYTES: nat := 8

  datatype Item = Item(nameCapacity: nat, sortNameCapacity: nat)

  datatype ReserveResult = Reserved | OverBudget | AllocationFailed

  datatype PushResult = Pushed | LimitReached | NoMemory

  // ----- the arithmetic of the code

  function ItemHeapBytes(item: Item): nat {
    SaturatingAdd(item.nameCapacity, item.sortNameCapacity)
  }

  function CollectionBytes(capacity: nat, itemSize: nat, heapBytes: nat): nat {
    SaturatingAdd(SaturatingAdd(VEC_HEADER, SaturatingMul(capacity, itemSize)), heapBytes)
  }

  // ----- what is really allocated

  ghost function HeapBytes(items: seq<Item>): nat {
    if items == [] then 0
    else HeapBytes(items[..|items| - 1]) + items[|items| - 1].nameCapacity + items[|items| - 1].sortNameCapacity
  }

  ghost function FootPrint(capacity: nat, itemSize: nat, items: seq<Item>): nat {
    VEC_HEADER + capacity * itemSize + HeapBytes(items)
  }

  /** The running total: exact until it would leave the word. */
  ghost predicate Counts(counter: nat, items: seq<Item>) {
    counter == Min(HeapBytes(items), USIZE_MAX)
  }

  lemma CountOne(counter: nat, items: seq<Item>, item: Item)
    requires Counts(counter, items)
    ensures Counts(SaturatingAdd(counter, ItemHeapBytes(item)), items + [item])
  {
    assert (items + [item])[..|items|] == items;
  }

  /** A saturating total below the largest word is the true one. */
  lemma TotalIsExact(capacity: nat, itemSize: nat, counter: nat, items: seq<Item>, maxBytes: nat)
    requires Counts(counter, items) && maxBytes < USIZE_MAX
    ensures CollectionBytes(capacity, itemSize, counter) <= maxBytes <==>
      FootPrint(capacity, itemSize, items) <= maxBytes
  {
  }

  /** The largest capacity the new buffer may have while the old one is still held. */
  function CapacityLimit(capacity: nat, itemSize: nat, nonVectorBytes: nat, maximumBytes: nat): nat
    requires itemSize > 0
  {
    SaturatingSub(maximumBytes, SaturatingAdd(nonVectorBytes, SaturatingMul(capacity, itemSize))) / itemSize
  }

  lemma DivisionBound(c: nat, size: nat, room: nat)
    requires size > 0
    ensures c <= room / size <==> c * size <= room
  {
    var q := room / size;
    assert room == q * size + room % size;
    if c <= q {
      assert c * size <= q * size;
    } else {
      assert c * size >= (q + 1) * size;
    }
  }

  /** The saturating limit is exact: both buffers and everything else fit, or they do not. */
  lemma CapacityLimitIsExact(capacity: nat, itemSize: nat, nonVectorBytes: nat, maximumBytes: nat, c: nat)
    requires itemSize > 0 && maximumBytes <= USIZE_MAX && c > 0
    ensures c <= CapacityLimit(capacity, itemSize, nonVectorBytes, maximumBytes) <==>
      nonVectorBytes + capacity * itemSize + c * itemSize <= maximumBytes
  {
    var held := nonVectorBytes + capacity * itemSize;
    var room := SaturatingSub(maximumBytes, SaturatingAdd(nonVectorBytes, SaturatingMul(capacity, itemSize)));
    DivisionBound(c, itemSize, room);
    assert c * itemSize > 0;
    assert room == SaturatingSub(maximumBytes, held);
  }

  /** A growing vector doubles, from four on, or takes all the room there is. */
  ghost predicate DoublesOrFills(
      oldCapacity: nat, capacity: nat, itemSize: nat, nonVectorBytes: nat, maximumBytes: nat)
  {
    var doubled := if oldCapacity == 0 then 4 else 2 * oldCapacity;
    || capacity == doubled
    || (capacity < doubled && nonVectorBytes + oldCapacity * itemSize + (capacity + 1) * itemSize > maximumBytes)
  }

  lemma RequestIsGenerous(capacity: nat, itemSize: nat, nonVectorBytes: nat, maximumBytes: nat, requested: nat)
    requires itemSize > 0 && maximumBytes <= USIZE_MAX && capacity < USIZE_MAX
    requires
      var limit := CapacityLimit(capacity, itemSize, nonVectorBytes, maximumBytes);
      && limit <= USIZE_MAX
      && requested == Min(if capacity == 0 then 4 else Max(SaturatingMul(capacity, 2), capacity + 1), limit)
    ensures DoublesOrFills(capacity, requested, itemSize, nonVectorBytes, maximumBytes)
  {
    CapacityLimitIsExact(capacity, itemSize, nonVectorBytes, maximumBytes, requested + 1);
  }

  class BoundedVec {
    const itemSize: nat
    var items: seq<Item>
    var capacity: nat

    ghost predicate Valid()
      reads this
    {
      |items| <= capacity <= USIZE_MAX && |items| < USIZE_MAX
    }

    constructor (itemSize: nat)
      ensures Valid() && items == [] && capacity == 0 && this.itemSize == itemSize
    {
      this.itemSize := itemSize;
      items, capacity := [], 0;
    }

    /** `Vec::try_reserve_exact`: at least what was asked, or whatever larger
        capacity the allocator chose, or nothing. */
    method TryReserveExact(additional: nat, granted: Option<nat>) returns (ok: bool)
      requires Valid() && |items| + additional <= USIZE_MAX && (granted.Some? ==> granted.value <= USIZE_MAX)
      modifies this`capacity
      ensures Valid() && capacity >= old(capacity)
      ensures ok ==> capacity >= |items| + additional
      ensures !ok ==> capacity == old(capacity) && granted.None?
      ensures granted.Some? && granted.value <= |items| + additional ==>
        capacity == Max(old(capacity), |items| + additional)
    {
      ok := granted.Some? || |items| + additional <= capacity;
      if granted.Some? && |items| + additional > capacity {
        capacity := Max(|items| + additional, granted.value);
      }
    }

    /** `try_reserve_bounded_vec_slot`. */
    method TryReserveSlot(nonVectorBytes: nat, maximumBytes: nat, granted: Option<nat>) returns (r: ReserveResult)
      requires Valid() && maximumBytes <= USIZE_MAX && (granted.Some? ==> granted.value <= USIZE_MAX)
      modifies this`capacity
      ensures Valid() && capacity >= old(capacity)
      ensures r.Reserved? && itemSize > 0 ==> |items| < capacity
      ensures r.Reserved? && capacity != old(capacity) ==>
        nonVectorBytes + old(capacity) * itemSize + capacity * itemSize <= maximumBytes
      ensures r.OverBudget? ==> itemSize > 0 && |items| == old(capacity)
      ensures r.OverBudget? && capacity == old(capacity) ==>
        nonVectorBytes + old(capacity) * itemSize + (|items| + 1) * itemSize > maximumBytes
      ensures r.OverBudget? && capacity != old(capacity) ==>
        nonVectorBytes + old(capacity) * itemSize + capacity * itemSize > maximumBytes
      ensures r.AllocationFailed? ==> granted.None?
      ensures |items| < old(capacity) ==> r.Reserved? && capacity == old(capacity)
      ensures r.Reserved? && capacity != old(capacity) && granted == Some(0) ==>
        DoublesOrFills(old(capacity), capacity, itemSize, nonVectorBytes, maximumBytes)
    {
      if |items| < capacity || itemSize == 0 {
        return Reserved;
      }
      var limit := CapacityLimit(capacity, itemSize, nonVectorBytes, maximumBytes);
      var required := SaturatingAdd(|items|, 1);
      CapacityLimitIsExact(capacity, itemSize, nonVectorBytes, maximumBytes, required);
      if limit < required {
        return OverBudget;
      }
      LimitIsAWord(capacity, itemSize, nonVectorBytes, maximumBytes);
      var preferred := if capacity == 0 then Max(required, 4) else Max(SaturatingMul(capacity, 2), required);
      var requested := Min(preferred, limit);
      ghost var before := capacity;
      RequestIsGenerous(capacity, itemSize, nonVectorBytes, maximumBytes, requested);
      var ok := TryReserveExact(SaturatingSub(requested, |items|), granted);
      if !ok {
        return AllocationFailed;
      }
      CapacityLimitIsExact(before, itemSize, nonVectorBytes, maximumBytes, capacity);
      if capacity > limit {
        return OverBudget;
      }
      r := Reserved;
    }
  }

  lemma LimitIsAWord(capacity: nat, itemSize: nat, nonVectorBytes: nat, maximumBytes: nat)
    requires itemSize > 0 && maximumBytes <= USIZE_MAX
    ensures CapacityLimit(capacity, itemSize, nonVectorBytes, maximumBytes) <= USIZE_MAX
  {
    var room := SaturatingSub(maximumBytes, SaturatingAdd(nonVectorBytes, SaturatingMul(capacity, itemSize)));
    QuotientIsSmaller(room, itemSize);
  }

  lemma QuotientIsSmaller(room: nat, size: nat)
    requires size > 0
    ensures room / size <= room
  {
    var q := room / size;
    TimesAtLeast(q, size);
    DivisionBound(q, size, room);
  }

  lemma {:induction false} TimesAtLeast(x: nat, size: nat)
    requires size > 0
    ensures x * size >= x
  {
    if x > 0 {
      TimesAtLeast(x - 1, size);
      assert x * size == (x - 1) * size + size;
    }
  }

  // ----- the accumulation loop

  /** Why an item is refused: the listing with it, its buffer, or both buffers during growth exceed the budget. */
  ghost predicate NoRoom(oldCapacity: nat, capacity: nat, itemSize: nat, items: seq<Item>, maxBytes: nat) {
    || FootPrint(|items|, itemSize, items) > maxBytes
    || FootPrint(capacity, itemSize, items) > maxBytes
    || (|items| == oldCapacity + 1
        && FootPrint(oldCapacity + (if capacity == oldCapacity then |items| else capacity), itemSize, items) > maxBytes)
  }

  lemma GrowthHasNoRoom(oldCapacity: nat, capacity: nat, itemSize: nat, counter: nat, items: seq<Item>, maxBytes: nat)
    requires Counts(counter, items) && |items| == oldCapacity + 1 && maxBytes < USIZE_MAX
    requires var c := if capacity == oldCapacity then |items| else capacity;
      SaturatingAdd(VEC_HEADER, counter) + oldCapacity * itemSize + c * itemSize > maxBytes
    ensures NoRoom(oldCapacity, capacity, itemSize, items, maxBytes)
  {
    var c := if capacity == oldCapacity then |items| else capacity;
    assert (oldCapacity + c) * itemSize == oldCapacity * itemSize + c * itemSize;
    assert FootPrint(oldCapacity + c, itemSize, items)
      >= SaturatingAdd(VEC_HEADER, counter) + (oldCapacity + c) * itemSize;
  }

  class Accumulator {
    const maxBytes: nat
    const paths: BoundedVec
    var heapBytes: nat

    ghost predicate Valid()
      reads this, paths
    {
      && paths.Valid() && paths.itemSize > 0 && maxBytes <= USIZE_MAX
      && Counts(heapBytes, paths.items)
      && (maxBytes < USIZE_MAX ==>
            paths.items == [] || FootPrint(paths.capacity, paths.itemSize, paths.items) <= maxBytes)
    }

    constructor (itemSize: nat, maxBytes: nat)
      requires itemSize > 0 && maxBytes <= USIZE_MAX
      ensures Valid() && fresh(paths) && paths.items == [] && this.maxBytes == maxBytes && paths.itemSize == itemSize
      ensures paths.capacity == 0 && heapBytes == 0
    {
      this.maxBytes, heapBytes := maxBytes, 0;
      paths := new BoundedVec(itemSize);
    }

    /** One listed entry: the listing ends at the first one that is not pushed. */
    method Push(item: Item, granted: Option<nat>) returns (r: PushResult)
      requires Valid() && |paths.items| + 1 < USIZE_MAX && (granted.Some? ==> granted.value <= USIZE_MAX)
      modifies this`heapBytes, paths
      ensures r.Pushed? ==> Valid() && paths.items == old(paths.items) + [item]
      ensures r.LimitReached? && maxBytes < USIZE_MAX ==>
        NoRoom(old(paths.capacity), paths.capacity, paths.itemSize, paths.items + [item], maxBytes)
      ensures r.NoMemory? ==> granted.None?
      ensures !r.Pushed? ==> paths.items == old(paths.items) && heapBytes == old(heapBytes)
      ensures maxBytes == USIZE_MAX && |old(paths.items)| < old(paths.capacity) ==>
        r.Pushed? && paths.capacity == old(paths.capacity)
    {
      var proposed := SaturatingAdd(heapBytes, ItemHeapBytes(item));
      CountOne(heapBytes, paths.items, item);
      ghost var all, before := paths.items + [item], paths.capacity;
      if maxBytes < USIZE_MAX {
        TotalIsExact(|all|, paths.itemSize, proposed, all, maxBytes);
      }
      if CollectionBytes(SaturatingAdd(|paths.items|, 1), paths.itemSize, proposed) > maxBytes {
        return LimitReached;
      }
      var reserved := paths.TryReserveSlot(SaturatingAdd(VEC_HEADER, proposed), maxBytes, granted);
      if reserved.OverBudget? {
        if maxBytes < USIZE_MAX {
          GrowthHasNoRoom(before, paths.capacity, paths.itemSize, proposed, all, maxBytes);
        }
        return LimitReached;
      }
      if reserved.AllocationFailed? {
        return NoMemory;
      }
      if maxBytes < USIZE_MAX {
        TotalIsExact(paths.capacity, paths.itemSize, proposed, all, maxBytes);
      }
      if CollectionBytes(paths.capacity, paths.itemSize, proposed) > maxBytes {
        return LimitReached;
      }
      heapBytes := proposed;
      paths.items := paths.items + [item];
      r := Pushed;
    }
  }

  /** The bound needs a budget below the largest word: at that budget the checks
      saturate, and two string capacities that each fit are accepted together. */
  method LargestBudgetIsNoBound(acc: Accumulator)
    requires acc.Valid() && acc.maxBytes == USIZE_MAX && |acc.paths.items| < acc.paths.capacity
    requires |acc.paths.items| + 1 < USIZE_MAX
    modifies acc`heapBytes, acc.paths
    ensures acc.Valid() && FootPrint(acc.paths.capacity, acc.paths.itemSize, acc.paths.items) > acc.maxBytes
  {
    var item := Item(I64_MAX, I64_MAX);
    ghost var before := acc.paths.items;
    var r := acc.Push(item, None);
    assert (before + [item])[..|before|] == before;
    assert acc.paths.capacity * acc.paths.itemSize >= 0;
  }

  /** `ensure_path_sort_budget`: the two index vectors of the sort fit as well. */
  method SortFits(items: seq<Item>, capacity: nat, itemSize: nat, maxBytes: nat) returns (fits: bool)
    requires maxBytes <= USIZE_MAX
    ensures fits <==>
      maxBytes == USIZE_MAX || FootPrint(capacity, itemSize, items) + 2 * USIZE_BYTES * |items| <= maxBytes
  {
    var heapBytes := 0;
    for i := 0 to |items|
      invariant Counts(heapBytes, items[..i])
    {
      CountOne(heapBytes, items[..i], items[i]);
      assert items[..i] + [items[i]] == items[..i + 1];
      heapBytes := SaturatingAdd(heapBytes, ItemHeapBytes(items[i]));
    }
    assert items[..|items|] == items;
    var retained := CollectionBytes(capacity, itemSize, heapBytes);
    var scratch := SaturatingMul(SaturatingMul(|items|, USIZE_BYTES), 2);
    fits := SaturatingAdd(retained, scratch) <= maxBytes;
    SaturatedTotal(capacity, itemSize, heapBytes, items);
  }

  lemma SaturatedTotal(capacity: nat, itemSize: nat, counter: nat, items: seq<Item>)
    requires Counts(counter, items)
    ensures CollectionBytes(capacity, itemSize, counter) == Min(FootPrint(capacity, itemSize, items), USIZE_MAX)
  {
  }
}
