/**
 Disk-space reservation accounting: the per-device buckets and revisions kept
 under one mutex, and the reservation objects that give bytes back in batches.
 */
module DiskSpace {
  import opened Basics

  const MAX_CAPACITY_SNAPSHOT_RETRIES: nat := 8
  const RESERVATION_RELEASE_BATCH_BYTES: nat := 1024 * 1024

  type U64 = x: nat | x <= U64_MAX

  function CheckedAdd(a: U64, b: U64): Option<U64> {
    if a + b <= U64_MAX then Some(a + b) else None
  }

  predicate SpaceBudgetFits(available: U64, alreadyReserved: U64, requested: U64, minimumFree: U64) {
    match CheckedAdd(minimumFree, alreadyReserved)
    case None => false
    case Some(floor) =>
      match CheckedAdd(floor, requested)
      case None => false
      case Some(required) => available >= required
  }

  /** The overflow checks never change the answer of the exact inequality. */
  lemma BudgetCheckIsExact(available: U64, alreadyReserved: U64, requested: U64, minimumFree: U64)
    ensures SpaceBudgetFits(available, alreadyReserved, requested, minimumFree)
      <==> minimumFree + alreadyReserved + requested <= available
  {
  }

  // ----- allocation rounding

  function RoundUp(value: U64, unit: U64): Option<nat>
    requires unit > 0
  {
    if value == 0 then Some(0)
    else match CheckedAdd(value, unit - 1)
      case None => None
      case Some(padded) => Some(padded / unit * unit)
  }

  function AllocationBudget(logical: U64, unit: U64, metadata: U64): Option<nat>
    requires unit > 0
  {
    match RoundUp(logical, unit)
    case None => None
    case Some(a) =>
      match RoundUp(metadata, unit)
      case None => None
      case Some(b) => if a + b <= U64_MAX then Some(a + b) else None
  }

  ghost predicate IsMultiple(n: nat, unit: nat) {
    exists k: nat :: n == k * unit
  }

  /** `n` is the least multiple of the allocation unit that covers `value`. */
  ghost predicate IsAllocationOf(n: nat, value: nat, unit: nat) {
    && IsMultiple(n, unit)
    && value <= n
    && forall k: nat :: value <= k * unit ==> n <= k * unit
  }

  lemma RoundUpIsLeastMultiple(value: U64, unit: U64)
    requires unit > 0
    ensures RoundUp(value, unit).Some? <==> value == 0 || value + unit - 1 <= U64_MAX
    ensures RoundUp(value, unit).Some? ==> IsAllocationOf(RoundUp(value, unit).value, value, unit)
  {
    if RoundUp(value, unit).Some? {
      if value == 0 {
        assert 0 == 0 * unit;
        forall k: nat | value <= k * unit ensures 0 <= k * unit {
        }
      } else {
        var q := (value + unit - 1) / unit;
        var n := q * unit;
        assert value + unit - 1 == q * unit + (value + unit - 1) % unit;
        forall k: nat | value <= k * unit ensures n <= k * unit {
          assert (k + 1) * unit == k * unit + unit;
          if k < q {
            MultiplesGrow(k + 1, q, unit);
          } else {
            MultiplesGrow(q, k, unit);
          }
        }
      }
    }
  }

  lemma MultiplesGrow(a: nat, b: nat, unit: nat)
    requires a <= b
    ensures a * unit <= b * unit
  {
    assert (b - a) * unit >= 0;
    assert b * unit == a * unit + (b - a) * unit;
  }

  lemma AllocationIsUnique(m: nat, n: nat, value: nat, unit: nat)
    requires IsAllocationOf(m, value, unit) && IsAllocationOf(n, value, unit)
    ensures m == n
  {
    var j: nat :| m == j * unit;
    var k: nat :| n == k * unit;
    assert value <= j * unit && value <= k * unit;
  }

  /** Both rounded sizes exist and their sum fits 64 bits. */
  ghost predicate AllocationFits(logical: nat, unit: nat, metadata: nat) {
    exists a: nat, b: nat :: IsAllocationOf(a, logical, unit) && IsAllocationOf(b, metadata, unit) && a + b <= U64_MAX
  }

  predicate PaddingFits(value: nat, unit: nat) {
    value + unit - 1 <= U64_MAX
  }

  /** The budget is the sum of two least multiples. It is granted exactly when
      that sum and both intermediate paddings fit 64 bits. */
  lemma AllocationBudgetIsExact(logical: U64, unit: U64, metadata: U64)
    requires unit > 0
    ensures AllocationBudget(logical, unit, metadata).Some? <==>
      PaddingFits(logical, unit) && PaddingFits(metadata, unit) && AllocationFits(logical, unit, metadata)
    ensures AllocationBudget(logical, unit, metadata).Some? ==>
      exists a: nat, b: nat ::
        && IsAllocationOf(a, logical, unit) && IsAllocationOf(b, metadata, unit)
        && AllocationBudget(logical, unit, metadata).value == a + b
  {
    RoundUpIsLeastMultiple(logical, unit);
    RoundUpIsLeastMultiple(metadata, unit);
    if PaddingFits(logical, unit) && PaddingFits(metadata, unit) && AllocationFits(logical, unit, metadata) {
      var a: nat, b: nat :| IsAllocationOf(a, logical, unit) && IsAllocationOf(b, metadata, unit) && a + b <= U64_MAX;
      AllocationIsUnique(a, RoundUp(logical, unit).value, logical, unit);
      AllocationIsUnique(b, RoundUp(metadata, unit).value, metadata, unit);
    }
  }

  /** The padding can overflow although the rounded size fits: a whole number of
      three-byte units just below 2^64 is refused. */
  lemma PaddingOverflowRefusesAFittingSize()
    ensures IsAllocationOf(U64_MAX, U64_MAX, 3)
    ensures AllocationBudget(U64_MAX, 3, 0).None?
  {
    assert U64_MAX == 0x5555_5555_5555_5555 * 3;
  }

  /** A rounded size that fits 64 bits leaves room for its padding, if the unit divides 2^64. */
  lemma DividingUnitLeavesRoom(n: nat, value: nat, unit: nat)
    requires unit > 0 && IsMultiple(U64_MAX + 1, unit) && IsAllocationOf(n, value, unit) && n <= U64_MAX
    ensures PaddingFits(value, unit)
  {
    var k: nat :| n == k * unit;
    var m: nat :| U64_MAX + 1 == m * unit;
    if k >= m {
      MultiplesGrow(m, k, unit);
    }
    MultiplesGrow(k + 1, m, unit);
    assert (k + 1) * unit == k * unit + unit;
  }

  /** So with a unit that divides 2^64, as every power of two does, the budget is
      granted exactly when it fits. */
  lemma DividingUnitRefusesNothingThatFits(logical: U64, unit: U64, metadata: U64)
    requires unit > 0 && IsMultiple(U64_MAX + 1, unit)
    ensures AllocationBudget(logical, unit, metadata).Some? <==> AllocationFits(logical, unit, metadata)
  {
    AllocationBudgetIsExact(logical, unit, metadata);
    if AllocationFits(logical, unit, metadata) {
      var a: nat, b: nat :| IsAllocationOf(a, logical, unit) && IsAllocationOf(b, metadata, unit) && a + b <= U64_MAX;
      DividingUnitLeavesRoom(a, logical, unit);
      DividingUnitLeavesRoom(b, metadata, unit);
    }
  }

  // ----- accounting under the mutex

  datatype Accounting = Accounting(reserved: map<nat, nat>, revisions: map<nat, nat>)

  function Reserved(a: Accounting, device: nat): nat {
    if device in a.reserved then a.reserved[device] else 0
  }

  function Revision(a: Accounting, device: nat): nat {
    if device in a.revisions then a.revisions[device] else 0
  }

  function BumpRevision(a: Accounting, device: nat): Accounting {
    a.(revisions := a.revisions[device := Revision(a, device) + 1])
  }

  function Reserve(a: Accounting, device: nat, requested: nat): Accounting {
    if requested == 0 then a
    else BumpRevision(a.(reserved := a.reserved[device := Reserved(a, device) + requested]), device)
  }

  function Release(a: Accounting, device: nat, bytes: nat): Accounting {
    if bytes == 0 then a
    else
      var left := Max(Reserved(a, device) - bytes, 0);
      BumpRevision(a.(reserved := if left == 0 then a.reserved - {device} else a.reserved[device := left]), device)
  }

  datatype Reservation = Reservation(device: nat, remaining: nat, pendingRelease: nat)

  function Flush(a: Accounting, r: Reservation): (Accounting, Reservation) {
    (Release(a, r.device, r.pendingRelease), r.(pendingRelease := 0))
  }

  function Consume(a: Accounting, r: Reservation, bytes: nat): (Accounting, Reservation) {
    var consumed := if bytes <= r.remaining then bytes else r.remaining;
    var r' := Reservation(r.device, r.remaining - consumed, r.pendingRelease + consumed);
    if r'.pendingRelease >= RESERVATION_RELEASE_BATCH_BYTES then Flush(a, r') else (a, r')
  }

  /** Consumed bytes, at most what remains, are withheld below one mebibyte, and
      from there on given back all at once. */
  lemma ConsumeIsBatched(a: Accounting, r: Reservation, bytes: nat)
    requires r.pendingRelease <= Reserved(a, r.device) && r.remaining <= Reserved(a, r.device) - r.pendingRelease
    ensures
      var (a', r') := Consume(a, r, bytes);
      var withheld := r.pendingRelease + r.remaining - r'.remaining;
      && r'.device == r.device && r'.remaining == Max(r.remaining - bytes, 0)
      && (withheld < 1024 * 1024 ==> a' == a && r'.pendingRelease == withheld)
      && (withheld >= 1024 * 1024 ==>
            && r'.pendingRelease == 0 && Reserved(a', r.device) == Reserved(a, r.device) - withheld
            && Revision(a', r.device) == Revision(a, r.device) + 1)
  {
  }

  function Drop(a: Accounting, r: Reservation): Accounting {
    Release(a, r.device, r.remaining + r.pendingRelease)
  }

  class DiskSpaceTracker {
    var reserved: map<nat, nat>
    var revisions: map<nat, nat>

    ghost function View(): Accounting
      reads this
    {
      Accounting(reserved, revisions)
    }

    constructor ()
      ensures View() == Accounting(map[], map[])
    {
      reserved, revisions := map[], map[];
    }

    method BumpRevisionOf(device: nat)
      modifies this`revisions
      ensures View() == BumpRevision(old(View()), device)
    {
      var revision := if device in revisions then revisions[device] else 0;
      revisions := revisions[device := revision + 1];
    }

    /** The checked addition of the source cannot panic: a granted request fits. */
    method ReserveLocked(device: nat, available: U64, requested: U64, minimumFree: U64)
      returns (granted: bool)
      requires Reserved(View(), device) <= U64_MAX
      modifies this
      ensures granted <==> minimumFree + old(Reserved(View(), device)) + requested <= available
      ensures View() == if granted then Reserve(old(View()), device, requested) else old(View())
      ensures granted ==> Reserved(View(), device) <= U64_MAX
    {
      var already := if device in reserved then reserved[device] else 0;
      BudgetCheckIsExact(available, already, requested, minimumFree);
      if !SpaceBudgetFits(available, already, requested, minimumFree) {
        return false;
      }
      if requested > 0 {
        var total: U64 := already + requested;
        reserved := reserved[device := total];
        BumpRevisionOf(device);
      }
      return true;
    }

    method ReleaseBytes(device: nat, bytes: nat)
      modifies this
      ensures View() == Release(old(View()), device, bytes)
    {
      if bytes == 0 {
        return;
      }
      var removeBucket := false;
      if device in reserved {
        var left := if bytes <= reserved[device] then reserved[device] - bytes else 0;
        reserved := reserved[device := left];
        removeBucket := left == 0;
      }
      if removeBucket {
        reserved := reserved - {device};
      }
      BumpRevisionOf(device);
      assert reserved == Release(old(View()), device, bytes).reserved;
    }
  }

  class DiskSpaceReservation {
    const tracker: DiskSpaceTracker
    const device: nat
    var remaining: nat
    var pendingRelease: nat

    ghost function Value(): Reservation
      reads this
    {
      Reservation(device, remaining, pendingRelease)
    }

    /** Everything a reservation tracks was once granted as one 64-bit amount. */
    ghost predicate Valid()
      reads this
    {
      remaining + pendingRelease <= U64_MAX
    }

    constructor (tracker: DiskSpaceTracker, device: nat, requested: U64)
      ensures Valid() && this.tracker == tracker
      ensures Value() == Reservation(device, requested, 0)
    {
      this.tracker, this.device := tracker, device;
      remaining, pendingRelease := requested, 0;
    }

    method FlushPendingRelease()
      requires Valid()
      modifies this, tracker
      ensures Valid()
      ensures (tracker.View(), Value()) == Flush(old(tracker.View()), old(Value()))
    {
      var released := pendingRelease;
      pendingRelease := 0;
      tracker.ReleaseBytes(device, released);
    }

    method ConsumeBytes(bytes: nat)
      requires Valid()
      modifies this, tracker
      ensures Valid()
      ensures (tracker.View(), Value()) == Consume(old(tracker.View()), old(Value()), bytes)
    {
      var consumed := if bytes <= remaining then bytes else remaining;
      remaining := remaining - consumed;
      var pending: U64 := pendingRelease + consumed;
      pendingRelease := pending;
      if pendingRelease >= RESERVATION_RELEASE_BATCH_BYTES {
        FlushPendingRelease();
      }
    }

    method DropReservation()
      requires Valid()
      modifies this, tracker
      ensures tracker.View() == Drop(old(tracker.View()), old(Value()))
      ensures Value() == Reservation(device, 0, 0)
    {
      var tracked: U64 := remaining + pendingRelease;
      tracker.ReleaseBytes(device, tracked);
      remaining, pendingRelease := 0, 0;
    }
  }
}
