/**
 Semantic path keys and the conflict relations of the path lease coordinator.

 A lexical path is the sequence of its components, so the component-wise
 `starts_with` of a path is the prefix order on sequences. File identities
 (device and inode) are compared only for equality.
 */
module PathKeys {
  import opened Basics

  type Path = seq<string>

  datatype FileIdentity = FileIdentity(device: nat, inode: nat)

  datatype ResolvedPathKey = ResolvedPathKey(
    resolvedParent: FileIdentity,
    unresolvedTail: seq<string>,
    ancestorDirectories: seq<FileIdentity>,
    targetDirectory: Option<FileIdentity>)

  datatype LeaseKey = LeaseKey(lexical: Path, resolved: ResolvedPathKey)

  predicate StartsWith(path: Path, prefix: Path) {
    prefix <= path
  }

  predicate LexicallyIntersect(left: Path, right: Path) {
    StartsWith(left, right) || StartsWith(right, left)
  }

  predicate AnchoredTailIsPrefix(left: ResolvedPathKey, right: ResolvedPathKey) {
    left.resolvedParent == right.resolvedParent && left.unresolvedTail <= right.unresolvedTail
  }

  predicate TargetContains(left: ResolvedPathKey, right: ResolvedPathKey) {
    left.targetDirectory.Some? && left.targetDirectory.value in right.ancestorDirectories
  }

  predicate ResolvedPathsConflict(left: ResolvedPathKey, right: ResolvedPathKey) {
    || AnchoredTailIsPrefix(left, right)
    || AnchoredTailIsPrefix(right, left)
    || TargetContains(left, right)
    || TargetContains(right, left)
  }

  predicate ResolvedPathStrictlyContains(ancestor: ResolvedPathKey, descendant: ResolvedPathKey) {
    || (|ancestor.unresolvedTail| < |descendant.unresolvedTail| && AnchoredTailIsPrefix(ancestor, descendant))
    || TargetContains(ancestor, descendant)
  }

  predicate PathKeysConflict(left: LeaseKey, right: LeaseKey) {
    || StartsWith(left.lexical, right.lexical)
    || StartsWith(right.lexical, left.lexical)
    || ResolvedPathsConflict(left.resolved, right.resolved)
  }

  predicate PathStrictlyContains(ancestor: LeaseKey, descendant: LeaseKey) {
    || (ancestor.lexical != descendant.lexical && StartsWith(descendant.lexical, ancestor.lexical))
    || ResolvedPathStrictlyContains(ancestor.resolved, descendant.resolved)
  }

  predicate PathsIdentifySameEntry(left: LeaseKey, right: LeaseKey) {
    || left.lexical == right.lexical
    || (left.resolved.resolvedParent == right.resolved.resolvedParent
        && left.resolved.unresolvedTail == right.resolved.unresolvedTail)
  }

  predicate PathsConflict(left: seq<LeaseKey>, right: seq<LeaseKey>) {
    exists i, j :: 0 <= i < |left| && 0 <= j < |right| && PathKeysConflict(left[i], right[j])
  }

  function ConservativePathKey(root: FileIdentity): ResolvedPathKey {
    ResolvedPathKey(root, [], [root], Some(root))
  }

  /** What every successful key resolution guarantees: the recorded ancestry
      starts at the shared root, ends at the resolved parent, and the final
      entry name is part of the tail. */
  predicate WellResolved(root: FileIdentity, key: ResolvedPathKey) {
    && 0 < |key.ancestorDirectories|
    && key.ancestorDirectories[0] == root
    && key.ancestorDirectories[|key.ancestorDirectories| - 1] == key.resolvedParent
    && key.unresolvedTail != []
  }

  lemma PathsConflictIsSymmetric(left: seq<LeaseKey>, right: seq<LeaseKey>)
    ensures PathsConflict(left, right) == PathsConflict(right, left)
  {
    if PathsConflict(left, right) {
      var i, j :| 0 <= i < |left| && 0 <= j < |right| && PathKeysConflict(left[i], right[j]);
      assert PathKeysConflict(right[j], left[i]);
    }
    if PathsConflict(right, left) {
      var i, j :| 0 <= i < |right| && 0 <= j < |left| && PathKeysConflict(right[i], left[j]);
      assert PathKeysConflict(left[j], right[i]);
    }
  }

  /** The symmetric admission relation is exactly: the same entry, or strict
      containment in one of the two directions. */
  lemma ConflictIsSameEntryOrContainment(left: LeaseKey, right: LeaseKey)
    ensures PathKeysConflict(left, right) <==>
      || PathsIdentifySameEntry(left, right)
      || PathStrictlyContains(left, right)
      || PathStrictlyContains(right, left)
  {
    var l, r := left.resolved, right.resolved;
    if AnchoredTailIsPrefix(l, r) && |l.unresolvedTail| == |r.unresolvedTail| {
      assert l.unresolvedTail == r.unresolvedTail;
    }
    if AnchoredTailIsPrefix(r, l) && |l.unresolvedTail| == |r.unresolvedTail| {
      assert l.unresolvedTail == r.unresolvedTail;
    }
    if PathsIdentifySameEntry(left, right) && left.lexical != right.lexical {
      assert AnchoredTailIsPrefix(l, r);
    }
  }

  /** The conservative root key excludes every other request: it conflicts with
      every successfully resolved key and with itself. */
  lemma ConservativeKeyConflictsWithEveryResolvedKey(root: FileIdentity, lexical: Path, other: LeaseKey)
    requires WellResolved(root, other.resolved) || other.resolved == ConservativePathKey(root)
    ensures PathKeysConflict(LeaseKey(lexical, ConservativePathKey(root)), other)
    ensures PathStrictlyContains(LeaseKey(lexical, ConservativePathKey(root)), other)
  {
    assert other.resolved.ancestorDirectories[0] == root;
    assert TargetContains(ConservativePathKey(root), other.resolved);
  }
}
