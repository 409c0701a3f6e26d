/**
 The interruptible stable sort of directory listings: a bottom-up merge over
 indices, then the permutation applied to the slice in place, cycle by cycle,
 with a cancellation poll after every 256 counted steps.
 */
module StableSort {
  import opened Basics

  const INTERRUPT_CHECK_INTERVAL: nat := 256

  datatype Ordering = Less | Equal | Greater {
    function Reverse(): Ordering {
      match this
      case Less => Greater
      case Equal => Equal
      case Greater => Less
    }

    function Then(other: Ordering): Ordering {
      if Equal? then other else this
    }
  }

  datatype Outcome = Sorted | Interrupted | Allocation

  ghost predicate TotalPreorder<T(!new)>(cmp: (T, T) -> Ordering) {
    && (forall x, y :: cmp(x, y) == cmp(y, x).Reverse())
    && (forall x, y, z :: cmp(x, y) != Greater && cmp(y, z) != Greater ==> cmp(x, z) != Greater)
  }

  // ----- orders on the indices of a slice

  /** Whether the merge takes index `i` of the left run before index `j` of the right one. */
  ghost function TakesLeft<T(!new)>(v: seq<T>, cmp: (T, T) -> Ordering): (nat, nat) -> bool {
    (i: nat, j: nat) => i < |v| && j < |v| && cmp(v[i], v[j]) != Greater
  }

  ghost predicate OrdersBelow(le: (nat, nat) -> bool, n: nat) {
    && (forall i: nat, j: nat :: i < n && j < n ==> le(i, j) || le(j, i))
    && (forall i: nat, j: nat, k: nat :: i < n && j < n && k < n && le(i, j) && le(j, k) ==> le(i, k))
  }

  /** The stable order: by key, and equal keys by original position. */
  ghost predicate Before(le: (nat, nat) -> bool, i: nat, j: nat) {
    le(i, j) && (le(j, i) ==> i < j)
  }

  ghost predicate InOrder(le: (nat, nat) -> bool, s: seq<nat>) {
    forall k, l :: 0 <= k < l < |s| ==> Before(le, s[k], s[l])
  }

  lemma PreorderOrdersIndices<T(!new)>(v: seq<T>, cmp: (T, T) -> Ordering)
    requires TotalPreorder(cmp)
    ensures OrdersBelow(TakesLeft(v, cmp), |v|)
  {
    var le := TakesLeft(v, cmp);
    forall i: nat, j: nat | i < |v| && j < |v| ensures le(i, j) || le(j, i) {
      assert cmp(v[i], v[j]) == cmp(v[j], v[i]).Reverse();
    }
  }

  // ----- permutations

  function Range(a: nat, n: nat): (r: seq<nat>) {
    seq(n, i requires 0 <= i => a + i)
  }

  ghost predicate IsPermutation(s: seq<nat>, n: nat) {
    && |s| == n && (forall k :: 0 <= k < n ==> s[k] < n)
    && (forall k, l :: 0 <= k < l < n ==> s[k] != s[l])
  }

  function Permuted<T>(v: seq<T>, order: seq<nat>): seq<T>
    requires forall k :: 0 <= k < |order| ==> order[k] < |v|
  {
    seq(|order|, k requires 0 <= k < |order| => v[order[k]])
  }

  lemma TwiceInMultiset(s: seq<nat>, k: nat, l: nat)
    requires k < l < |s| && s[k] == s[l]
    ensures multiset(s)[s[k]] >= 2
  {
    assert s == s[..l] + s[l..];
    assert s[k] in s[..l] && s[l] in s[l..];
  }

  lemma {:induction false} RangeCountsOnce(a: nat, n: nat, x: nat)
    ensures multiset(Range(a, n))[x] == if a <= x < a + n then 1 else 0
  {
    if n > 0 {
      RangeCountsOnce(a, n - 1, x);
      assert Range(a, n) == Range(a, n - 1) + [a + n - 1];
    }
  }

  lemma RearrangedRangeIsPermutation(s: seq<nat>, n: nat)
    requires multiset(s) == multiset(Range(0, n))
    ensures IsPermutation(s, n) && forall p: nat :: p < n ==> p in s
  {
    assert |s| == |multiset(s)| == n;
    forall k | 0 <= k < n ensures s[k] < n {
      assert s[k] in multiset(s);
      RangeCountsOnce(0, n, s[k]);
    }
    forall k, l | 0 <= k < l < n ensures s[k] != s[l] {
      if s[k] == s[l] {
        TwiceInMultiset(s, k, l);
        RangeCountsOnce(0, n, s[k]);
      }
    }
    forall p: nat | p < n ensures p in s {
      RangeCountsOnce(0, n, p);
      assert p in multiset(s);
    }
  }

  /** There is only one stable order, so the result is determined by the input. */
  lemma {:induction false} StableOrderIsUnique(le: (nat, nat) -> bool, n: nat, s: seq<nat>, t: seq<nat>, k: nat)
    requires OrdersBelow(le, n) && multiset(s) == multiset(t) && (forall x :: x in s ==> x < n)
    requires InOrder(le, s) && InOrder(le, t) && k <= |s|
    ensures |s| == |t| && s[..k] == t[..k]
  {
    assert |s| == |multiset(s)| == |multiset(t)| == |t|;
    if k > 0 {
      StableOrderIsUnique(le, n, s, t, k - 1);
      RestsAgree(s, t, k - 1);
      var x, y := s[k - 1], t[k - 1];
      assert s[k - 1..][0] == x && t[k - 1..][0] == y;
      assert x in multiset(t[k - 1..]) && y in multiset(s[k - 1..]);
      HeadIsFirst(le, t[k - 1..], x);
      HeadIsFirst(le, s[k - 1..], y);
    }
  }

  lemma HeadIsFirst(le: (nat, nat) -> bool, s: seq<nat>, x: nat)
    requires InOrder(le, s) && x in s
    ensures x == s[0] || Before(le, s[0], x)
  {
    var i :| 0 <= i < |s| && s[i] == x;
  }

  lemma RestsAgree(s: seq<nat>, t: seq<nat>, k: nat)
    requires multiset(s) == multiset(t) && k <= |s| && k <= |t| && s[..k] == t[..k]
    ensures multiset(s[k..]) == multiset(t[k..])
  {
    assert s == s[..k] + s[k..] && t == t[..k] + t[k..];
    assert multiset(s[k..]) == multiset(s) - multiset(s[..k]);
    assert multiset(t[k..]) == multiset(t) - multiset(t[..k]);
  }

  // ----- one merge

  ghost function Merge(le: (nat, nat) -> bool, a: seq<nat>, b: seq<nat>): (r: seq<nat>)
    ensures |r| == |a| + |b|
    decreases |a| + |b|
  {
    if b == [] then a
    else if a == [] then b
    else if le(a[0], b[0]) then [a[0]] + Merge(le, a[1..], b)
    else [b[0]] + Merge(le, a, b[1..])
  }

  lemma {:induction false} MergeKeepsIndices(le: (nat, nat) -> bool, a: seq<nat>, b: seq<nat>)
    ensures multiset(Merge(le, a, b)) == multiset(a) + multiset(b)
    decreases |a| + |b|
  {
    if a != [] && b != [] {
      assert a == [a[0]] + a[1..] && b == [b[0]] + b[1..];
      if le(a[0], b[0]) {
        MergeKeepsIndices(le, a[1..], b);
      } else {
        MergeKeepsIndices(le, a, b[1..]);
      }
    }
  }

  /** Runs whose indices lie on either side of `middle`. */
  ghost predicate Mergeable(le: (nat, nat) -> bool, n: nat, middle: nat, a: seq<nat>, b: seq<nat>) {
    && InOrder(le, a) && InOrder(le, b) && middle <= n
    && (forall k :: 0 <= k < |a| ==> a[k] < middle)
    && (forall k :: 0 <= k < |b| ==> middle <= b[k] < n)
  }

  /** Every index of a left run precedes every index of a right run, so taking
      the left one on ties keeps the merge stable. */
  lemma {:induction false} MergeIsInOrder(le: (nat, nat) -> bool, n: nat, middle: nat, a: seq<nat>, b: seq<nat>)
    requires OrdersBelow(le, n) && Mergeable(le, n, middle, a, b)
    ensures InOrder(le, Merge(le, a, b))
    decreases |a| + |b|
  {
    if a != [] && b != [] {
      if le(a[0], b[0]) {
        MergeIsInOrder(le, n, middle, a[1..], b);
        forall z | z in Merge(le, a[1..], b) ensures Before(le, a[0], z) {
          LeftHeadIsFirst(le, n, middle, a, b, z);
        }
        HeadThenRest(le, a[0], Merge(le, a[1..], b));
      } else {
        MergeIsInOrder(le, n, middle, a, b[1..]);
        forall z | z in Merge(le, a, b[1..]) ensures Before(le, b[0], z) {
          RightHeadIsFirst(le, n, middle, a, b, z);
        }
        HeadThenRest(le, b[0], Merge(le, a, b[1..]));
      }
    }
  }

  lemma HeadThenRest(le: (nat, nat) -> bool, x: nat, rest: seq<nat>)
    requires InOrder(le, rest) && forall z :: z in rest ==> Before(le, x, z)
    ensures InOrder(le, [x] + rest)
  {
  }

  lemma MergedFrom(le: (nat, nat) -> bool, a: seq<nat>, b: seq<nat>, z: nat)
    requires z in Merge(le, a, b)
    ensures z in a || z in b
  {
    MergeKeepsIndices(le, a, b);
    assert z in multiset(Merge(le, a, b));
  }

  lemma LeftHeadIsFirst(le: (nat, nat) -> bool, n: nat, middle: nat, a: seq<nat>, b: seq<nat>, z: nat)
    requires OrdersBelow(le, n) && Mergeable(le, n, middle, a, b)
    requires a != [] && b != [] && le(a[0], b[0]) && z in Merge(le, a[1..], b)
    ensures Before(le, a[0], z)
  {
    MergedFrom(le, a[1..], b, z);
    if z !in a[1..] {
      var k :| 0 <= k < |b| && b[k] == z;
      assert k > 0 ==> Before(le, b[0], b[k]);
    }
  }

  lemma RightHeadIsFirst(le: (nat, nat) -> bool, n: nat, middle: nat, a: seq<nat>, b: seq<nat>, z: nat)
    requires OrdersBelow(le, n) && Mergeable(le, n, middle, a, b)
    requires a != [] && b != [] && !le(a[0], b[0]) && z in Merge(le, a, b[1..])
    ensures Before(le, b[0], z)
  {
    MergedFrom(le, a, b[1..], z);
    if z !in b[1..] {
      var k :| 0 <= k < |a| && a[k] == z;
      assert k > 0 ==> Before(le, a[0], a[k]);
    }
  }

  // ----- one pass over all runs, and all passes

  ghost function Pass(le: (nat, nat) -> bool, s: seq<nat>, width: nat): (r: seq<nat>)
    requires width > 0
    ensures |r| == |s|
    decreases |s|
  {
    if s == [] then []
    else
      var middle, end := Min(width, |s|), Min(2 * width, |s|);
      Merge(le, s[..middle], s[middle..end]) + Pass(le, s[end..], width)
  }

  ghost function Passes(le: (nat, nat) -> bool, s: seq<nat>, width: nat): (r: seq<nat>)
    requires width > 0
    ensures |r| == |s|
    decreases |s| - width
  {
    if width >= |s| then s else Passes(le, Pass(le, s, width), 2 * width)
  }

  /** Every run of this width is in stable order and holds the indices of its own place. */
  ghost predicate RunsInOrder(le: (nat, nat) -> bool, s: seq<nat>, width: nat, base: nat)
    requires width > 0
    decreases |s|
  {
    s == [] ||
      var m := Min(width, |s|);
      IsRun(le, s[..m], base) && RunsInOrder(le, s[m..], width, base + m)
  }

  ghost predicate IsRun(le: (nat, nat) -> bool, s: seq<nat>, base: nat) {
    InOrder(le, s) && forall k :: 0 <= k < |s| ==> base <= s[k] < base + |s|
  }

  lemma {:induction false} PassKeepsIndices(le: (nat, nat) -> bool, s: seq<nat>, width: nat)
    requires width > 0
    ensures multiset(Pass(le, s, width)) == multiset(s)
    decreases |s|
  {
    if s != [] {
      var middle, end := Min(width, |s|), Min(2 * width, |s|);
      MergeKeepsIndices(le, s[..middle], s[middle..end]);
      PassKeepsIndices(le, s[end..], width);
      CountInParts(s, middle, end);
    }
  }

  lemma CountInParts(s: seq<nat>, middle: nat, end: nat)
    requires middle <= end <= |s|
    ensures multiset(s) == multiset(s[..middle]) + multiset(s[middle..end]) + multiset(s[end..])
  {
    assert s == s[..middle] + s[middle..end] + s[end..];
  }

  lemma MergedRunIsRun(le: (nat, nat) -> bool, n: nat, a: seq<nat>, b: seq<nat>, base: nat)
    requires OrdersBelow(le, n) && IsRun(le, a, base) && IsRun(le, b, base + |a|) && base + |a| + |b| <= n
    ensures IsRun(le, Merge(le, a, b), base)
  {
    var r := Merge(le, a, b);
    MergeIsInOrder(le, n, base + |a|, a, b);
    forall k | 0 <= k < |r| ensures base <= r[k] < base + |r| {
      MergedFrom(le, a, b, r[k]);
    }
  }

  lemma SecondRun(le: (nat, nat) -> bool, s: seq<nat>, width: nat, base: nat)
    requires width > 0 && s != [] && RunsInOrder(le, s, width, base)
    ensures var middle, end := Min(width, |s|), Min(2 * width, |s|);
      IsRun(le, s[middle..end], base + middle) && RunsInOrder(le, s[end..], width, base + end)
  {
    var middle, end := Min(width, |s|), Min(2 * width, |s|);
    if middle < |s| {
      assert s[middle..][..end - middle] == s[middle..end] && s[middle..][end - middle..] == s[end..];
    }
  }

  lemma {:induction false} PassDoublesRuns(le: (nat, nat) -> bool, n: nat, s: seq<nat>, width: nat, base: nat)
    requires width > 0 && OrdersBelow(le, n) && base + |s| <= n && RunsInOrder(le, s, width, base)
    ensures RunsInOrder(le, Pass(le, s, width), 2 * width, base)
    decreases |s|
  {
    if s != [] {
      var middle, end := Min(width, |s|), Min(2 * width, |s|);
      var a, b := s[..middle], s[middle..end];
      SecondRun(le, s, width, base);
      MergedRunIsRun(le, n, a, b, base);
      PassDoublesRuns(le, n, s[end..], width, base + end);
      var r := Pass(le, s, width);
      assert r[..end] == Merge(le, a, b) && r[end..] == Pass(le, s[end..], width);
    }
  }

  lemma {:induction false} PassesKeepIndices(le: (nat, nat) -> bool, s: seq<nat>, width: nat)
    requires width > 0
    ensures multiset(Passes(le, s, width)) == multiset(s)
    decreases |s| - width
  {
    if width < |s| {
      PassKeepsIndices(le, s, width);
      PassesKeepIndices(le, Pass(le, s, width), 2 * width);
    }
  }

  lemma {:induction false} PassesSort(le: (nat, nat) -> bool, s: seq<nat>, width: nat)
    requires width > 0 && OrdersBelow(le, |s|) && RunsInOrder(le, s, width, 0)
    ensures InOrder(le, Passes(le, s, width))
    decreases |s| - width
  {
    if width < |s| {
      PassDoublesRuns(le, |s|, s, width, 0);
      PassesSort(le, Pass(le, s, width), 2 * width);
    } else {
      assert s[..|s|] == s;
    }
  }

  lemma {:induction false} SingletonRuns(le: (nat, nat) -> bool, base: nat, n: nat)
    ensures RunsInOrder(le, Range(base, n), 1, base)
    decreases n
  {
    if n > 0 {
      SingletonRuns(le, base + 1, n - 1);
      assert Range(base, n)[1..] == Range(base + 1, n - 1);
    }
  }

  /** The index merge of the whole slice. */
  ghost function SortedIndices(le: (nat, nat) -> bool, n: nat): (r: seq<nat>)
    ensures |r| == n
  {
    Passes(le, Range(0, n), 1)
  }

  /** It is the stable sorting permutation. */
  lemma SortedIndicesAreStable(le: (nat, nat) -> bool, n: nat)
    ensures multiset(SortedIndices(le, n)) == multiset(Range(0, n)) && IsPermutation(SortedIndices(le, n), n)
    ensures OrdersBelow(le, n) ==> InOrder(le, SortedIndices(le, n))
  {
    PassesKeepIndices(le, Range(0, n), 1);
    RearrangedRangeIsPermutation(SortedIndices(le, n), n);
    SingletonRuns(le, 0, n);
    if OrdersBelow(le, n) {
      PassesSort(le, Range(0, n), 1);
    }
  }
}
