/**
 The order of directory listings: directories apart from files, then by the
 chosen key, then by name. `alphanumeric` stands for the natural comparison of
 display names, of which only its being a total preorder is used.
 */
module PathItemOrder {
  import opened StableSort

  datatype PathType = Dir | SymlinkDir | File | SymlinkFile {
    function Rank(): nat {
      if Dir? || SymlinkDir? then 0 else 1
    }
  }

  type Bytes = seq<nat>

  datatype PathItem = PathItem(pathType: PathType, sortName: Bytes, name: Bytes, mtime: nat, size: nat)

  datatype SortKey = ByName | ByMtime | BySize

  function CompareNat(a: nat, b: nat): Ordering {
    if a < b then Less else if a == b then Equal else Greater
  }

  /** Rust's `String` order: byte by byte, a prefix first. */
  function CompareBytes(a: Bytes, b: Bytes): Ordering
    decreases |a|
  {
    if a == [] then (if b == [] then Equal else Less)
    else if b == [] then Greater
    else CompareNat(a[0], b[0]).Then(CompareBytes(a[1..], b[1..]))
  }

  /** `sort_by_name`, `sort_by_mtime` and `sort_by_size`, reversed for "desc". */
  function ComparePathItems(
      alphanumeric: (Bytes, Bytes) -> Ordering, sort: SortKey, descending: bool, x: PathItem, y: PathItem): Ordering
  {
    var byName := CompareNat(x.pathType.Rank(), y.pathType.Rank()).Then(
                    alphanumeric(x.sortName, y.sortName).Then(CompareBytes(x.name, y.name)));
    var ordering :=
      match sort
      case ByName => byName
      case ByMtime => CompareNat(x.pathType.Rank(), y.pathType.Rank()).Then(CompareNat(x.mtime, y.mtime).Then(byName))
      case BySize => CompareNat(x.pathType.Rank(), y.pathType.Rank()).Then(CompareNat(x.size, y.size).Then(byName));
    if descending then ordering.Reverse() else ordering
  }

  // ----- byte strings are totally ordered

  lemma {:induction false} BytesReverse(a: Bytes, b: Bytes)
    ensures CompareBytes(a, b) == CompareBytes(b, a).Reverse()
    decreases |a|
  {
    if a != [] && b != [] {
      BytesReverse(a[1..], b[1..]);
    }
  }

  lemma {:induction false} BytesEqual(a: Bytes, b: Bytes)
    ensures CompareBytes(a, b) == Equal <==> a == b
    decreases |a|
  {
    if a != [] && b != [] {
      BytesEqual(a[1..], b[1..]);
      assert a == [a[0]] + a[1..] && b == [b[0]] + b[1..];
    }
  }

  lemma {:induction false} BytesTransitive(a: Bytes, b: Bytes, c: Bytes)
    requires CompareBytes(a, b) != Greater && CompareBytes(b, c) != Greater
    ensures CompareBytes(a, c) != Greater
    decreases |a|
  {
    if a != [] && b != [] && c != [] && a[0] == b[0] == c[0] {
      BytesTransitive(a[1..], b[1..], c[1..]);
    }
  }

  // ----- the whole comparison

  /** What makes three comparisons of a total preorder fit together. */
  ghost predicate Coherent(xy: Ordering, yx: Ordering, yz: Ordering, zy: Ordering, xz: Ordering, zx: Ordering) {
    && xy == yx.Reverse() && yz == zy.Reverse() && xz == zx.Reverse()
    && (xy != Greater && yz != Greater ==> xz != Greater) && (zy != Greater && yx != Greater ==> zx != Greater)
    && (yx != Greater && xz != Greater ==> yz != Greater) && (zx != Greater && xy != Greater ==> zy != Greater)
    && (xz != Greater && zy != Greater ==> xy != Greater) && (yz != Greater && zx != Greater ==> yx != Greater)
  }

  ghost predicate Fits<T(!new)>(cmp: (T, T) -> Ordering, x: T, y: T, z: T) {
    Coherent(cmp(x, y), cmp(y, x), cmp(y, z), cmp(z, y), cmp(x, z), cmp(z, x))
  }

  lemma BytesFit(x: Bytes, y: Bytes, z: Bytes)
    ensures Fits(CompareBytes, x, y, z)
  {
    BytesReverse(x, y);
    BytesReverse(y, z);
    BytesReverse(x, z);
    forall a, b, c | CompareBytes(a, b) != Greater && CompareBytes(b, c) != Greater
      ensures CompareBytes(a, c) != Greater
    {
      BytesTransitive(a, b, c);
    }
  }

  lemma PreorderFits<T(!new)>(cmp: (T, T) -> Ordering, x: T, y: T, z: T)
    requires TotalPreorder(cmp)
    ensures Fits(cmp, x, y, z)
  {
    assert cmp(x, y) == cmp(y, x).Reverse() && cmp(y, z) == cmp(z, y).Reverse() && cmp(x, z) == cmp(z, x).Reverse();
  }

  lemma ListingOrderFits(
      alphanumeric: (Bytes, Bytes) -> Ordering, sort: SortKey, descending: bool, x: PathItem, y: PathItem, z: PathItem)
    requires TotalPreorder(alphanumeric)
    ensures
      var xy := ComparePathItems(alphanumeric, sort, descending, x, y);
      var yz := ComparePathItems(alphanumeric, sort, descending, y, z);
      && xy == ComparePathItems(alphanumeric, sort, descending, y, x).Reverse()
      && (xy != Greater && yz != Greater ==> ComparePathItems(alphanumeric, sort, descending, x, z) != Greater)
  {
    PreorderFits(alphanumeric, x.sortName, y.sortName, z.sortName);
    BytesFit(x.name, y.name, z.name);
  }

  /** The listing comparison, whatever key and direction, is a total preorder, so
      the sort result is stable and unique. */
  lemma ListingOrderIsTotalPreorder(alphanumeric: (Bytes, Bytes) -> Ordering, sort: SortKey, descending: bool)
    requires TotalPreorder(alphanumeric)
    ensures TotalPreorder((x, y) => ComparePathItems(alphanumeric, sort, descending, x, y))
  {
    forall x, y, z ensures
      && ComparePathItems(alphanumeric, sort, descending, x, y)
         == ComparePathItems(alphanumeric, sort, descending, y, x).Reverse()
      && (ComparePathItems(alphanumeric, sort, descending, x, y) != Greater
          && ComparePathItems(alphanumeric, sort, descending, y, z) != Greater
          ==> ComparePathItems(alphanumeric, sort, descending, x, z) != Greater)
    {
      ListingOrderFits(alphanumeric, sort, descending, x, y, z);
    }
  }

  /** Entries of one directory never tie: only the same name compares equal. */
  lemma OnlySameNameTies(
      alphanumeric: (Bytes, Bytes) -> Ordering, sort: SortKey, descending: bool, x: PathItem, y: PathItem)
    requires ComparePathItems(alphanumeric, sort, descending, x, y) == Equal
    ensures x.name == y.name
  {
    BytesEqual(x.name, y.name);
  }

  // ----- what it compares

  predicate IsFolder(x: PathItem) {
    x.pathType.Dir? || x.pathType.SymlinkDir?
  }

  /** Folders come before files, linked or not. Among their like the size, or the
      time of modification, decides; then the natural order of display names; then
      the bytes of the name. Descending turns all of it round, folders last. */
  lemma ListingOrderIsByField(
      alphanumeric: (Bytes, Bytes) -> Ordering, sort: SortKey, x: PathItem, y: PathItem)
    ensures
      var r := ComparePathItems(alphanumeric, sort, false, x, y);
      var field := if sort.ByMtime? then (x.mtime, y.mtime) else if sort.BySize? then (x.size, y.size) else (0, 0);
      && (IsFolder(x) && !IsFolder(y) ==> r == Less)
      && (!IsFolder(x) && IsFolder(y) ==> r == Greater)
      && (IsFolder(x) == IsFolder(y) ==>
            && (field.0 < field.1 ==> r == Less)
            && (field.0 > field.1 ==> r == Greater)
            && (field.0 == field.1 && alphanumeric(x.sortName, y.sortName) != Equal ==>
                  r == alphanumeric(x.sortName, y.sortName))
            && (field.0 == field.1 && alphanumeric(x.sortName, y.sortName) == Equal ==>
                  (r == Less <==> IsBefore(x.name, y.name)) && (r == Equal <==> x.name == y.name)))
      && ComparePathItems(alphanumeric, sort, true, x, y) ==
           (if r == Less then Greater else if r == Greater then Less else Equal)
  {
    BytesAreLexicographic(x.name, y.name);
    BytesEqual(x.name, y.name);
  }

  /** One is a proper prefix of the other, or has the smaller byte where they first differ. */
  ghost predicate IsBefore(a: Bytes, b: Bytes) {
    a < b || exists i :: 0 <= i < |a| && i < |b| && a[i] < b[i] && a[..i] == b[..i]
  }

  lemma {:induction false} BytesAreLexicographic(a: Bytes, b: Bytes)
    ensures CompareBytes(a, b) == Less <==> IsBefore(a, b)
    decreases |a|
  {
    if a != [] && b != [] && a[0] == b[0] {
      BytesAreLexicographic(a[1..], b[1..]);
      BeforeAfterSameByte(a, b);
    } else if a != [] && b != [] && a[0] < b[0] {
      assert a[..0] == b[..0];
    }
  }

  lemma BeforeAfterSameByte(a: Bytes, b: Bytes)
    requires a != [] && b != [] && a[0] == b[0]
    ensures IsBefore(a, b) <==> IsBefore(a[1..], b[1..])
  {
    assert a == [a[0]] + a[1..] && b == [b[0]] + b[1..];
    if i :| 0 <= i < |a| && i < |b| && a[i] < b[i] && a[..i] == b[..i] {
      assert a[1..][..i - 1] == a[..i][1..] && b[1..][..i - 1] == b[..i][1..];
      assert a[1..][i - 1] < b[1..][i - 1];
    }
    if i :| 0 <= i < |a[1..]| && i < |b[1..]| && a[1..][i] < b[1..][i] && a[1..][..i] == b[1..][..i] {
      assert a[..i + 1] == [a[0]] + a[1..][..i] && b[..i + 1] == [b[0]] + b[1..][..i];
      assert a[i + 1] < b[i + 1];
    }
  }
}
