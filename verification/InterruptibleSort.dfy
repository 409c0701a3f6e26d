/**
 `stable_sort_by_interruptible` as it runs: counted steps, polls, scratch
 vectors and the slice permuted in place.
 */
module InterruptibleSort {
  import opened Basics
  import opened StableSort

  /** At most one interval of counted steps before this poll. */
  ghost predicate PolledInTime(at: seq<nat>, k: nat)
    requires 0 < k < |at|
  {
    at[k - 1] <= at[k] <= at[k - 1] + INTERRUPT_CHECK_INTERVAL
  }

  /** The step counter and the `active` callback, whose k-th call answers `answer(k)`.
      `at[k]` is the number of steps counted before the k-th poll. */
  class Poller {
    const answer: nat -> bool
    var work: nat
    var polls: nat
    ghost var steps: nat
    ghost var at: seq<nat>

    ghost predicate Valid()
      reads this
    {
      && polls == |at| > 0 && at[0] == 0
      && at[polls - 1] <= steps
      && (forall k :: 0 < k < polls ==> PolledInTime(at, k))
      && (forall k :: 0 <= k < polls - 1 ==> answer(k))
    }

    /** Every poll so far said to go on. */
    ghost predicate Running()
      reads this
    {
      Valid() && answer(polls - 1) && steps == at[polls - 1] + work && work < INTERRUPT_CHECK_INTERVAL
    }

    ghost predicate Stopped()
      reads this
    {
      Valid() && !answer(polls - 1) && steps == at[polls - 1]
    }

    constructor (answer: nat -> bool)
      ensures this.answer == answer && work == 0 && polls == 0 && steps == 0 && at == []
    {
      this.answer := answer;
      work, polls, steps, at := 0, 0, 0, [];
    }

    method Poll() returns (active: bool)
      requires (polls == 0 && at == [] && steps == 0 && work == 0)
        || (Valid() && answer(polls - 1) && steps == at[polls - 1] + work && work <= INTERRUPT_CHECK_INTERVAL)
      modifies this`polls, this`at
      ensures Valid() && polls == old(polls) + 1 && at == old(at) + [steps] && active == answer(polls - 1)
    {
      active := answer(polls);
      polls := polls + 1;
      assert forall k :: 0 < k < |at| ==> PolledInTime(at, k) ==> PolledInTime(at + [steps], k);
      at := at + [steps];
    }

    method Tick() returns (active: bool)
      requires Running()
      modifies this
      ensures steps == old(steps) + 1
      ensures active ==> Running()
      ensures !active ==> Stopped()
      ensures polls == old(polls) + if old(work) == 255 then 1 else 0
    {
      work := work + 1;
      steps := steps + 1;
      active := true;
      if work >= INTERRUPT_CHECK_INTERVAL {
        active := Poll();
        if !active {
          return;
        }
        work := 0;
      }
    }
  }

  // ----- the merge phase

  method Indices(n: nat, poller: Poller) returns (ok: bool, current: seq<nat>)
    requires poller.Running()
    modifies poller
    ensures ok ==> poller.Running() && current == Range(0, n) && poller.steps == old(poller.steps) + n
    ensures !ok ==> poller.Stopped() && poller.steps <= old(poller.steps) + n
  {
    current := [];
    for index := 0 to n
      invariant poller.Running() && current == Range(0, index) && poller.steps == old(poller.steps) + index
    {
      ok := poller.Tick();
      if !ok {
        return;
      }
      current := current + [index];
    }
    ok := true;
  }

  /** Moving a piece from the front of what is left to the end of what is done. */
  lemma Shift<T>(done: seq<T>, piece: seq<T>, left: seq<T>)
    ensures done + (piece + left) == (done + piece) + left
  {
  }

  /** What the merge loop still has to take, by positions. */
  ghost function MergeFrom(
      le: (nat, nat) -> bool, current: seq<nat>, left: nat, middle: nat, right: nat, end: nat): seq<nat>
    requires left <= middle <= right <= end <= |current|
    decreases (middle - left) + (end - right)
  {
    if left == middle && right == end then []
    else if right == end || (left < middle && le(current[left], current[right]))
    then [current[left]] + MergeFrom(le, current, left + 1, middle, right, end)
    else [current[right]] + MergeFrom(le, current, left, middle, right + 1, end)
  }

  /** It is the merge of the two runs. */
  lemma {:induction false} MergeFromIsMerge(
      le: (nat, nat) -> bool, current: seq<nat>, left: nat, middle: nat, right: nat, end: nat)
    requires left <= middle <= right <= end <= |current|
    ensures MergeFrom(le, current, left, middle, right, end) == Merge(le, current[left..middle], current[right..end])
    decreases (middle - left) + (end - right)
  {
    var a, b := current[left..middle], current[right..end];
    if left < middle {
      assert a[1..] == current[left + 1..middle] && a == [a[0]] + a[1..];
    }
    if right < end {
      assert b[1..] == current[right + 1..end] && b == [b[0]] + b[1..];
    }
    if left == middle && right == end {
    } else if right == end || (left < middle && le(current[left], current[right])) {
      MergeFromIsMerge(le, current, left + 1, middle, right, end);
    } else {
      MergeFromIsMerge(le, current, left, middle, right + 1, end);
    }
  }

  lemma MergeTakes(le: (nat, nat) -> bool, current: seq<nat>, left: nat, middle: nat, right: nat, end: nat,
                   next: seq<nat>, takeLeft: bool)
    requires left <= middle <= right <= end <= |current| && (left < middle || right < end)
    requires takeLeft <==> right == end || (left < middle && le(current[left], current[right]))
    ensures next + MergeFrom(le, current, left, middle, right, end) ==
      if takeLeft then next + [current[left]] + MergeFrom(le, current, left + 1, middle, right, end)
      else next + [current[right]] + MergeFrom(le, current, left, middle, right + 1, end)
  {
    if takeLeft {
      Shift(next, [current[left]], MergeFrom(le, current, left + 1, middle, right, end));
    } else {
      Shift(next, [current[right]], MergeFrom(le, current, left, middle, right + 1, end));
    }
  }

  /** The left run gives the next index unless it is used up or the right one compares less. */
  method MergeOne<T(!new)>(v: seq<T>, cmp: (T, T) -> Ordering, current: seq<nat>,
                           left: nat, middle: nat, right: nat, end: nat, next: seq<nat>)
    returns (left': nat, right': nat, next': seq<nat>)
    requires left <= middle <= right <= end <= |current| && (left < middle || right < end)
    requires forall k :: 0 <= k < |current| ==> current[k] < |v|
    ensures left <= left' <= middle <= right <= right' <= end && left' + right' == left + right + 1
    ensures
      var le := TakesLeft(v, cmp);
      next' + MergeFrom(le, current, left', middle, right', end)
      == next + MergeFrom(le, current, left, middle, right, end)
  {
    var takeLeft := right == end || (left < middle && cmp(v[current[left]], v[current[right]]) != Greater);
    MergeTakes(TakesLeft(v, cmp), current, left, middle, right, end, next, takeLeft);
    if takeLeft {
      return left + 1, right, next + [current[left]];
    }
    return left, right + 1, next + [current[right]];
  }

  method MergeRun<T(!new)>(v: seq<T>, cmp: (T, T) -> Ordering, current: seq<nat>,
                           start: nat, middle: nat, end: nat, before: seq<nat>, poller: Poller)
    returns (ok: bool, next: seq<nat>)
    requires start <= middle <= end <= |current| && (forall k :: 0 <= k < |current| ==> current[k] < |v|)
    requires poller.Running()
    modifies poller
    ensures ok ==> poller.Running() && poller.steps == old(poller.steps) + (end - start)
    ensures ok ==> next == before + Merge(TakesLeft(v, cmp), current[start..middle], current[middle..end])
    ensures !ok ==> poller.Stopped() && poller.steps <= old(poller.steps) + (end - start)
  {
    ghost var le := TakesLeft(v, cmp);
    MergeFromIsMerge(le, current, start, middle, middle, end);
    ghost var all := before + MergeFrom(le, current, start, middle, middle, end);
    next := before;
    var left, right := start, middle;
    while left < middle || right < end
      invariant start <= left <= middle <= right <= end
      invariant poller.Running() && poller.steps == old(poller.steps) + (left - start) + (right - middle)
      invariant next + MergeFrom(le, current, left, middle, right, end) == all
      decreases (middle - left) + (end - right)
    {
      ok := poller.Tick();
      if !ok {
        return;
      }
      left, right, next := MergeOne(v, cmp, current, left, middle, right, end, next);
    }
    ok := true;
  }

  /** The ends of the run at `start`, computed without overflow. */
  function RunEnd(start: nat, width: nat, len: nat): (end: nat)
    requires start <= len <= USIZE_MAX
    ensures end == start + Min(width, len - start)
  {
    Min(SaturatingAdd(start, width), len)
  }

  lemma SaturatingWidth(le: (nat, nat) -> bool, s: seq<nat>, width: nat)
    requires 0 < width && |s| <= USIZE_MAX
    ensures Passes(le, s, SaturatingMul(width, 2)) == Passes(le, s, 2 * width)
    ensures Doublings(SaturatingMul(width, 2), |s|) == Doublings(2 * width, |s|)
  {
  }

  lemma PassTakesRun(le: (nat, nat) -> bool, current: seq<nat>, start: nat, width: nat, next: seq<nat>)
    requires start < |current| <= USIZE_MAX && width > 0
    ensures var middle, end := RunEnd(start, width, |current|), RunEnd(start, SaturatingMul(width, 2), |current|);
      && start <= middle <= end && start < end
      && next + Pass(le, current[start..], width)
         == (next + Merge(le, current[start..middle], current[middle..end])) + Pass(le, current[end..], width)
  {
    RunSlices(current, start, width);
    var middle, end := RunEnd(start, width, |current|), RunEnd(start, SaturatingMul(width, 2), |current|);
    Shift(next, Merge(le, current[start..middle], current[middle..end]), Pass(le, current[end..], width));
  }

  lemma RunSlices(current: seq<nat>, start: nat, width: nat)
    requires start < |current| <= USIZE_MAX && width > 0
    ensures
      var rest := current[start..];
      var middle, end := RunEnd(start, width, |current|), RunEnd(start, SaturatingMul(width, 2), |current|);
      && middle == start + Min(width, |rest|) && end == start + Min(2 * width, |rest|)
      && rest[..Min(width, |rest|)] == current[start..middle]
      && rest[Min(width, |rest|)..Min(2 * width, |rest|)] == current[middle..end]
      && rest[Min(2 * width, |rest|)..] == current[end..]
  {
  }

  method MergePass<T(!new)>(v: seq<T>, cmp: (T, T) -> Ordering, current: seq<nat>, width: nat, poller: Poller)
    returns (ok: bool, next: seq<nat>)
    requires 0 < width && |current| <= USIZE_MAX && (forall k :: 0 <= k < |current| ==> current[k] < |v|)
    requires poller.Running()
    modifies poller
    ensures ok ==> poller.Running() && poller.steps == old(poller.steps) + |current|
    ensures ok ==> next == Pass(TakesLeft(v, cmp), current, width)
    ensures !ok ==> poller.Stopped() && poller.steps <= old(poller.steps) + |current|
  {
    ghost var le := TakesLeft(v, cmp);
    var len := |current|;
    var runWidth := SaturatingMul(width, 2);
    next := [];
    var start := 0;
    while start < len
      invariant start <= len && poller.Running() && poller.steps == old(poller.steps) + start
      invariant next + Pass(le, current[start..], width) == Pass(le, current, width)
    {
      var middle, end := RunEnd(start, width, len), RunEnd(start, runWidth, len);
      PassTakesRun(le, current, start, width, next);
      ok, next := MergeRun(v, cmp, current, start, middle, end, next, poller);
      if !ok {
        return;
      }
      start := end;
    }
    ok := true;
  }

  lemma PassCost(width: nat, len: nat)
    requires 0 < width < len
    ensures len * Doublings(width, len) == len + len * Doublings(2 * width, len)
    ensures len * Doublings(2 * width, len) >= 0
  {
  }

  method MergeIndices<T(!new)>(v: seq<T>, cmp: (T, T) -> Ordering, indices: seq<nat>, poller: Poller)
    returns (ok: bool, current: seq<nat>)
    requires indices == Range(0, |v|) && |v| <= USIZE_MAX && poller.Running()
    modifies poller
    ensures ok ==> poller.Running() && current == SortedIndices(TakesLeft(v, cmp), |v|)
    ensures ok ==> poller.steps == old(poller.steps) + |v| * CeilLog2(|v|)
    ensures !ok ==> poller.Stopped() && poller.steps <= old(poller.steps) + |v| * CeilLog2(|v|)
  {
    ghost var le := TakesLeft(v, cmp);
    var len := |v|;
    current := indices;
    var width := 1;
    while width < len
      invariant 0 < width && |current| == len && multiset(current) == multiset(indices)
      invariant Passes(le, current, width) == SortedIndices(le, len)
      invariant poller.Running()
      invariant poller.steps + len * Doublings(width, len) == old(poller.steps) + len * CeilLog2(len)
      decreases len - width
    {
      RearrangedRangeIsPermutation(current, len);
      PassCost(width, len);
      PassKeepsIndices(le, current, width);
      var next;
      ok, next := MergePass(v, cmp, current, width, poller);
      if !ok {
        return;
      }
      SaturatingWidth(le, next, width);
      current := next;
      width := SaturatingMul(width, 2);
    }
    ok := true;
  }

  // ----- applying the permutation

  method Invert(current: seq<nat>, poller: Poller) returns (ok: bool, next: seq<nat>)
    requires IsPermutation(current, |current|) && poller.Running()
    modifies poller
    ensures ok ==> poller.Running() && poller.steps == old(poller.steps) + |current|
    ensures ok ==> |next| == |current| && forall k :: 0 <= k < |current| ==> next[current[k]] == k
    ensures !ok ==> poller.Stopped() && poller.steps <= old(poller.steps) + |current|
  {
    next := seq(|current|, _ => 0);
    for newPosition := 0 to |current|
      invariant |next| == |current| && poller.Running() && poller.steps == old(poller.steps) + newPosition
      invariant forall k :: 0 <= k < newPosition ==> next[current[k]] == k
    {
      ok := poller.Tick();
      if !ok {
        return;
      }
      next := next[current[newPosition] := newPosition];
    }
    ok := true;
  }

  ghost function FixedPoints(next: seq<nat>, n: nat): (r: nat)
    requires n <= |next|
    ensures r <= n
  {
    if n == 0 then 0 else FixedPoints(next, n - 1) + if next[n - 1] == n - 1 then 1 else 0
  }

  function Swap<T>(s: seq<T>, i: nat, j: nat): seq<T>
    requires i < |s| && j < |s|
  {
    s[i := s[j]][j := s[i]]
  }

  lemma SwapKeepsMultiset<T>(s: seq<T>, i: nat, j: nat)
    requires i < |s| && j < |s|
    ensures multiset(Swap(s, i, j)) == multiset(s)
  {
  }

  lemma {:induction false} MoreFixedPoints(next: seq<nat>, after: seq<nat>, fixed: nat, n: nat)
    requires n <= |next| == |after| && fixed < |next| && next[fixed] != fixed && after[fixed] == fixed
    requires forall p :: 0 <= p < |next| && next[p] == p ==> after[p] == p
    ensures FixedPoints(after, n) >= FixedPoints(next, n) + if fixed < n then 1 else 0
  {
    if n > 0 {
      MoreFixedPoints(next, after, fixed, n - 1);
    }
  }

  /** One swap along a cycle puts at least one more element in its place. */
  lemma SwapFixesOneMore(next: seq<nat>, position: nat)
    requires IsPermutation(next, |next|) && position < |next| && next[position] != position
    ensures IsPermutation(Swap(next, position, next[position]), |next|)
    ensures FixedPoints(next, |next|) < FixedPoints(Swap(next, position, next[position]), |next|)
    ensures next[next[position]] != next[position]
  {
    var destination := next[position];
    assert next[destination] != destination;
    MoreFixedPoints(next, Swap(next, position, destination), destination, |next|);
  }

  /** Element `p` of the slice belongs at `next[p]` of the result. */
  ghost predicate Routed<T>(values: seq<T>, next: seq<nat>, result: seq<T>) {
    && IsPermutation(next, |result|) && |values| == |result|
    && forall p :: 0 <= p < |result| ==> result[next[p]] == values[p]
  }

  lemma SwapKeepsRoute<T>(values: seq<T>, next: seq<nat>, result: seq<T>, position: nat)
    requires Routed(values, next, result) && position < |result| && next[position] != position
    ensures Routed(Swap(values, position, next[position]), Swap(next, position, next[position]), result)
  {
    SwapFixesOneMore(next, position);
  }

  method SwapElements<T>(values: array<T>, i: nat, j: nat)
    requires i < values.Length && j < values.Length
    modifies values
    ensures values[..] == Swap(old(values[..]), i, j)
  {
    values[i], values[j] := values[j], values[i];
  }

  /** Follows the cycle through `position` until its element is in place. */
  method ApplyCycle<T>(values: array<T>, start: seq<nat>, position: nat, ghost result: seq<T>, poller: Poller)
    returns (ok: bool, next: seq<nat>)
    requires Routed(values[..], start, result) && poller.Running() && position < values.Length
    requires forall p :: 0 <= p < position ==> start[p] == p
    modifies values, poller
    ensures Routed(values[..], next, result) && multiset(values[..]) == multiset(old(values[..]))
    ensures forall p :: 0 <= p < position ==> next[p] == p
    ensures ok ==> poller.Running() && next[position] == position
    ensures ok ==> poller.steps - old(poller.steps) <= FixedPoints(next, |next|) - FixedPoints(start, |start|)
    ensures !ok ==> poller.Stopped() && poller.steps <= old(poller.steps) + values.Length - FixedPoints(start, |start|)
    ensures poller.steps >= old(poller.steps) + if ok then 0 else 1
    ensures poller.steps == old(poller.steps) ==> values[..] == old(values[..])
  {
    next := start;
    while next[position] != position
      invariant Routed(values[..], next, result) && poller.Running()
      invariant forall p :: 0 <= p < position ==> next[p] == p
      invariant multiset(values[..]) == multiset(old(values[..]))
      invariant poller.steps == old(poller.steps) ==> values[..] == old(values[..])
      invariant 0 <= poller.steps - old(poller.steps) <= FixedPoints(next, |next|) - FixedPoints(start, |start|)
      decreases values.Length - FixedPoints(next, |next|)
    {
      SwapFixesOneMore(next, position);
      ok := poller.Tick();
      if !ok {
        return;
      }
      var destination := next[position];
      ghost var before := values[..];
      SwapKeepsRoute(before, next, result, position);
      SwapKeepsMultiset(before, position, destination);
      SwapElements(values, position, destination);
      next := Swap(next, position, destination);
    }
    ok := true;
  }

  method ApplyCycles<T>(values: array<T>, inverse: seq<nat>, ghost result: seq<T>, poller: Poller)
    returns (ok: bool)
    requires Routed(values[..], inverse, result) && poller.Running()
    modifies values, poller
    ensures ok ==> poller.Running() && values[..] == result
    ensures !ok ==> poller.Stopped()
    ensures poller.steps >= old(poller.steps) + if ok then 0 else 1
    ensures multiset(values[..]) == multiset(old(values[..]))
    ensures poller.steps <= old(poller.steps) + values.Length
    ensures poller.steps == old(poller.steps) ==> values[..] == old(values[..])
  {
    var next := inverse;
    for position := 0 to values.Length
      invariant Routed(values[..], next, result) && poller.Running()
      invariant forall p :: 0 <= p < position ==> next[p] == p
      invariant multiset(values[..]) == multiset(old(values[..]))
      invariant poller.steps == old(poller.steps) ==> values[..] == old(values[..])
      invariant 0 <= poller.steps - old(poller.steps) <= FixedPoints(next, |next|)
    {
      ok, next := ApplyCycle(values, next, position, result, poller);
      if !ok {
        return;
      }
    }
    ok := true;
  }

  lemma InverseRoutes<T>(v: seq<T>, order: seq<nat>, inverse: seq<nat>)
    requires multiset(order) == multiset(Range(0, |v|)) && IsPermutation(order, |v|) && |inverse| == |v|
    requires forall k :: 0 <= k < |v| ==> inverse[order[k]] == k
    ensures Routed(v, inverse, Permuted(v, order))
  {
    RearrangedRangeIsPermutation(order, |v|);
    forall p: nat | p < |v| ensures inverse[p] < |v| && order[inverse[p]] == p {
      assert p in order;
      var k :| 0 <= k < |v| && order[k] == p;
    }
  }

  // ----- the whole sort

  /** `after` is `before` rearranged by key, equal keys in their original order. */
  ghost predicate StablySorts<T(!new)>(before: seq<T>, cmp: (T, T) -> Ordering, after: seq<T>) {
    exists order: seq<nat> :: && multiset(order) == multiset(Range(0, |before|)) && IsPermutation(order, |before|)
                    && InOrder(TakesLeft(before, cmp), order) && after == Permuted(before, order)
  }

  lemma StableSortIsUnique<T(!new)>(before: seq<T>, cmp: (T, T) -> Ordering, a: seq<T>, b: seq<T>)
    requires TotalPreorder(cmp) && StablySorts(before, cmp, a) && StablySorts(before, cmp, b)
    ensures a == b
  {
    var le := TakesLeft(before, cmp);
    var s: seq<nat> :| multiset(s) == multiset(Range(0, |before|)) && IsPermutation(s, |before|) && InOrder(le, s)
      && a == Permuted(before, s);
    var t: seq<nat> :| multiset(t) == multiset(Range(0, |before|)) && IsPermutation(t, |before|) && InOrder(le, t)
      && b == Permuted(before, t);
    PreorderOrdersIndices(before, cmp);
    StableOrderIsUnique(le, |before|, s, t, |s|);
    assert s == s[..|s|] && t == t[..|t|];
  }

  lemma MergedIndicesSortStably<T(!new)>(before: seq<T>, cmp: (T, T) -> Ordering, order: seq<nat>)
    requires order == SortedIndices(TakesLeft(before, cmp), |before|)
    ensures multiset(order) == multiset(Range(0, |before|)) && IsPermutation(order, |before|)
    ensures TotalPreorder(cmp) ==> StablySorts(before, cmp, Permuted(before, order))
  {
    SortedIndicesAreStable(TakesLeft(before, cmp), |before|);
    if TotalPreorder(cmp) {
      PreorderOrdersIndices(before, cmp);
    }
  }

  lemma ShortSliceIsSorted<T(!new)>(v: seq<T>, cmp: (T, T) -> Ordering)
    requires |v| < 2
    ensures StablySorts(v, cmp, v)
  {
    var order := Range(0, |v|);
    assert Permuted(v, order) == v;
  }

  /** The counted steps before the first element can move. */
  function StepsBeforeMoving(n: nat): nat {
    n + n * CeilLog2(n) + n
  }

  /** Everything up to the permutation: the slice is only read. */
  method Plan<T(!new)>(values: array<T>, cmp: (T, T) -> Ordering, poller: Poller, firstFits: bool, secondFits: bool)
    returns (r: Outcome, order: seq<nat>, inverse: seq<nat>)
    requires values.Length <= USIZE_MAX && poller.Running() && poller.steps == 0
    modifies poller
    ensures !r.Interrupted? ==> poller.Running()
    ensures r.Interrupted? ==> poller.Stopped()
    ensures r.Allocation? ==> !firstFits || !secondFits
    ensures r.Sorted? ==> firstFits && secondFits
    ensures poller.steps <= StepsBeforeMoving(values.Length)
    ensures r.Sorted? ==> poller.steps == StepsBeforeMoving(values.Length)
    ensures r.Sorted? ==> order == SortedIndices(TakesLeft(values[..], cmp), values.Length)
    ensures r.Sorted? ==>
      IsPermutation(order, values.Length) && Routed(values[..], inverse, Permuted(values[..], order))
  {
    order, inverse := [], [];
    if !firstFits {
      return Allocation, order, inverse;
    }
    var ok;
    ok, order := Indices(values.Length, poller);
    if !ok {
      return Interrupted, order, inverse;
    }
    if !secondFits {
      return Allocation, order, inverse;
    }
    ok, order := MergeIndices(values[..], cmp, order, poller);
    if !ok {
      return Interrupted, order, inverse;
    }
    MergedIndicesSortStably(values[..], cmp, order);
    ok, inverse := Invert(order, poller);
    if !ok {
      return Interrupted, order, inverse;
    }
    InverseRoutes(values[..], order, inverse);
    r := Sorted;
  }

  /** The permutation and the last poll. */
  method Rearrange<T>(values: array<T>, order: seq<nat>, inverse: seq<nat>, poller: Poller) returns (r: Outcome)
    requires IsPermutation(order, values.Length) && Routed(values[..], inverse, Permuted(values[..], order))
    requires poller.Running()
    modifies values, poller
    ensures poller.Valid() && poller.steps <= old(poller.steps) + values.Length
    ensures r.Sorted? ==> values[..] == Permuted(old(values[..]), order)
    ensures multiset(values[..]) == multiset(old(values[..])) && !r.Allocation?
    ensures poller.steps <= old(poller.steps) ==> values[..] == old(values[..])
    ensures r.Interrupted? <==> !poller.answer(poller.polls - 1)
    ensures poller.steps - poller.at[poller.polls - 1] < INTERRUPT_CHECK_INTERVAL
  {
    ghost var result := Permuted(values[..], order);
    var active := ApplyCycles(values, inverse, result, poller);
    if !active {
      return Interrupted;
    }
    active := poller.Poll();
    assert values[..] == result;
    r := if active then Sorted else Interrupted;
  }

  /** What every outcome leaves behind. */
  ghost predicate OutcomeOk<T(!new)>(before: seq<T>, cmp: (T, T) -> Ordering, r: Outcome, after: seq<T>, steps: nat) {
    && (r.Sorted? && TotalPreorder(cmp) ==> StablySorts(before, cmp, after))
    && multiset(after) == multiset(before)
    && (r.Allocation? || (r.Interrupted? && steps <= StepsBeforeMoving(|before|)) ==> after == before)
  }

  method SortLong<T(!new)>(values: array<T>, cmp: (T, T) -> Ordering, poller: Poller, firstFits: bool, secondFits: bool)
    returns (r: Outcome)
    requires values.Length <= USIZE_MAX && poller.Running() && poller.steps == 0
    modifies values, poller
    ensures OutcomeOk(old(values[..]), cmp, r, values[..], poller.steps)
    ensures r.Allocation? ==> !firstFits || !secondFits
    ensures r.Sorted? ==> firstFits && secondFits
    ensures poller.Valid() && (r.Interrupted? <==> !poller.answer(poller.polls - 1))
    ensures poller.steps <= StepsBeforeMoving(values.Length) + values.Length
    ensures poller.steps - poller.at[poller.polls - 1] < INTERRUPT_CHECK_INTERVAL
  {
    var order, inverse;
    r, order, inverse := Plan(values, cmp, poller, firstFits, secondFits);
    if !r.Sorted? {
      return;
    }
    MergedIndicesSortStably(values[..], cmp, order);
    r := Rearrange(values, order, inverse, poller);
  }

  method SortInterruptibly<T(!new)>(values: array<T>, cmp: (T, T) -> Ordering, answer: nat -> bool,
                                    firstFits: bool, secondFits: bool)
    returns (r: Outcome, poller: Poller)
    requires values.Length <= USIZE_MAX
    modifies values
    ensures fresh(poller) && poller.answer == answer && poller.Valid()
    ensures OutcomeOk(old(values[..]), cmp, r, values[..], poller.steps)
    ensures r.Allocation? ==> !firstFits || !secondFits
    ensures r.Sorted? && values.Length >= 2 ==> firstFits && secondFits
    ensures r.Interrupted? <==> !answer(poller.polls - 1)
    ensures poller.steps <= values.Length * CeilLog2(values.Length) + 3 * values.Length
    ensures poller.steps - poller.at[poller.polls - 1] < 256
  {
    poller := new Poller(answer);
    var active := poller.Poll();
    if !active {
      return Interrupted, poller;
    }
    if values.Length < 2 {
      ShortSliceIsSorted(values[..], cmp);
      return Sorted, poller;
    }
    r := SortLong(values, cmp, poller, firstFits, secondFits);
  }
}
