/**
 Leases over a tree with links: which runs keep to their leases, and a run that
 does not.
 */
module LinkedLeases {
  import opened Basics
  import opened PathKeys
  import opened PathResolution
  import opened PathLeaseProtocol
  import opened PathLeaseTheorems
  import opened LinkedTree

  // ----- a lease on the entry that is changed

  /** The key of the entry itself reaches `p`: by its name, as the entry that ends
      the resolved part of `p`, or by the directory that one of the two names. */
  predicate Guards(t: Tree, slot: Slot, q: Path, p: Path)
    requires Meaning(t, q).Ok? && Meaning(t, p).Ok?
  {
    var kq, kp := Meaning(t, q).value, Meaning(t, p).value;
    || LexicallyIntersect(q, p)
    || (kp.resolvedParent == slot.directory && kp.unresolvedTail != [] && kp.unresolvedTail[0] == slot.name)
    || TargetContains(kq, kp)
    || TargetContains(kp, kq)
  }

  lemma EntryKeyCovers(t: Tree, slot: Slot, q: Path, p: Path)
    requires EndsAt(t, q, slot) && Meaning(t, p).Ok?
    ensures Covered([LeaseKey(q, Meaning(t, q).value)], t, p) <==> Guards(t, slot, q, p)
  {
    KeySplit(t, q);
    KeySplit(t, p);
    var kq, kp := Meaning(t, q).value, Meaning(t, p).value;
    assert kq.unresolvedTail == [slot.name];
    OneNameIsPrefix(slot.name, kp.unresolvedTail);
    var held, one := [LeaseKey(q, kq)], [LeaseKey(p, kp)];
    assert PathsConflict(held, one) <==> PathKeysConflict(held[0], one[0]);
  }

  lemma OneNameIsPrefix(name: string, tail: seq<string>)
    requires tail != []
    ensures [name] <= tail <==> tail[0] == name
    ensures tail <= [name] ==> tail[0] == name
  {
  }

  /** Removing an entry, or putting a file there, under a lease on just that entry
      stays within the lease if and only if every path resolved by way of the
      entry starts with its name or ends at it, or one of the two names a
      directory above the other. */
  lemma BlockingStaysWithinOwnLease(t: Tree, t': Tree, slot: Slot, q: Path)
    requires EndsAt(t, q, slot) && SameExcept(t, t', slot) && Closed(t', slot)
    ensures ChangeWithinLease([LeaseKey(q, Meaning(t, q).value)], t, t') <==>
      forall p :: GoesThrough(t, p, slot) ==> Guards(t, slot, q, p)
  {
    var held := [LeaseKey(q, Meaning(t, q).value)];
    BlockingStaysWithinLease(held, t, t', slot);
    forall p | Meaning(t, p).Ok?
      ensures Covered(held, t, p) <==> Guards(t, slot, q, p)
      ensures EndsAt(t, p, slot) ==> Guards(t, slot, q, p)
    {
      EntryKeyCovers(t, slot, q, p);
      EndIsGuarded(t, slot, q, p);
    }
  }

  lemma EndIsGuarded(t: Tree, slot: Slot, q: Path, p: Path)
    requires EndsAt(t, q, slot) && Meaning(t, p).Ok?
    ensures EndsAt(t, p, slot) ==> Guards(t, slot, q, p)
  {
    KeySplit(t, p);
  }

  // ----- without links a lease on an entry covers every change of it

  predicate PlainEntry(t: Tree, slot: Slot)
    requires slot in t.entries
  {
    match t.entries[slot]
    case Directory(id) => id != t.root && id != slot.directory && id in t.parents && t.parents[id] == slot.directory
    case File => true
    case _ => false
  }

  /** No links, and every directory is the child of the one that holds it. */
  ghost predicate Plain(t: Tree) {
    forall slot :: slot in t.entries ==> PlainEntry(t, slot)
  }

  lemma LastName(t: Tree, p: Path, n: nat)
    requires Plain(t) && Normal(p) && 0 < n <= |p|
    ensures
      var w, v := FromRoot(t, p[..n - 1]), FromRoot(t, p[..n]);
      if w.end.Err? then v == w
      else
        var slot := Slot(w.end.value, p[n - 1]);
        && v.passed == w.passed + [slot]
        && (v.end.Ok? ==> DirectoryAt(t, slot) == Some(v.end.value))
  {
    assert p[..n] == p[..n - 1] + [p[n - 1]];
    FollowOn(t, t.root, p[..n - 1], [p[n - 1]], MAX_LINKS);
    var w := FromRoot(t, p[..n - 1]);
    if w.end.Ok? {
      var turn := Enter(t, w.end.value, p[n - 1], w.links);
      if turn.Go? {
        assert turn.before + [p[n - 1]][1..] == [];
        assert Follow(t, turn.directory, [], turn.links).passed == [];
      }
    }
  }

  predicate PassedAt(t: Tree, p: Path, i: nat, slot: Slot) {
    i < |p| && FromRoot(t, p[..i]).end == Ok(slot.directory) && p[i] == slot.name
  }

  lemma {:induction false} PlainPassed(t: Tree, p: Path, n: nat, slot: Slot) returns (i: nat)
    requires Plain(t) && Normal(p) && n <= |p| && slot in FromRoot(t, p[..n]).passed
    ensures i < n && PassedAt(t, p, i, slot)
  {
    assert n > 0 by { assert FromRoot(t, []).passed == []; }
    LastName(t, p, n);
    if slot in FromRoot(t, p[..n - 1]).passed {
      i := PlainPassed(t, p, n - 1, slot);
    } else {
      i := n - 1;
    }
  }

  lemma {:induction false} PlainAncestor(t: Tree, p: Path, i: nat, n: nat, limit: nat)
    requires Plain(t) && Normal(p) && i <= n <= |p| && FromRoot(t, p[..i]).end.Ok? && FromRoot(t, p[..n]).end.Ok?
    requires Ancestry(FileSystemOf(t), FromRoot(t, p[..n]).end.value, limit).Ok?
    ensures FromRoot(t, p[..i]).end.value in Ancestry(FileSystemOf(t), FromRoot(t, p[..n]).end.value, limit).value
    decreases n
  {
    if i == n {
      AncestryIsChain(FileSystemOf(t), FromRoot(t, p[..n]).end.value, limit);
    } else {
      LastName(t, p, n);
      PlainAncestor(t, p, i, n - 1, limit - 1);
    }
  }

  lemma PlainContains(t: Tree, p: Path, i: nat, n: nat, slot: Slot)
    requires Plain(t) && Normal(p) && i < n <= |p| && PassedAt(t, p, i, slot) && FromRoot(t, p[..n]).end.Ok?
    requires Ancestry(FileSystemOf(t), FromRoot(t, p[..n]).end.value, MAX_DIRECTORY_ANCESTORS).Ok?
    ensures DirectoryAt(t, slot).Some?
    ensures DirectoryAt(t, slot).value in
      Ancestry(FileSystemOf(t), FromRoot(t, p[..n]).end.value, MAX_DIRECTORY_ANCESTORS).value
  {
    FollowOn(t, t.root, p[..i + 1], p[i + 1..n], MAX_LINKS);
    assert p[..n] == p[..i + 1] + p[i + 1..n];
    LastName(t, p, i + 1);
    PlainAncestor(t, p, i + 1, n, MAX_DIRECTORY_ANCESTORS);
  }

  /** The key of an entry covers every path whose resolution passes the entry. */
  lemma PlainPathIsCovered(held: seq<LeaseKey>, t: Tree, slot: Slot, q: Path, p: Path)
    requires Plain(t) && EndsAt(t, q, slot) && LeaseKey(q, Meaning(t, q).value) in held && Passes(t, p, slot)
    ensures Covered(held, t, p)
  {
    KeySplit(t, q);
    KeySplit(t, p);
    var kq, kp := Meaning(t, q).value, Meaning(t, p).value;
    assert ResolvedPathsConflict(kq, kp) by {
      if EndsAt(t, p, slot) {
        assert kq.unresolvedTail == kp.unresolvedTail;
      } else {
        PlainKeysConflict(t, slot, q, p);
      }
    }
    var j :| 0 <= j < |held| && held[j] == LeaseKey(q, kq);
    assert PathKeysConflict(held[j], [LeaseKey(p, kp)][0]);
  }

  lemma PlainKeysConflict(t: Tree, slot: Slot, q: Path, p: Path)
    requires Plain(t) && EndsAt(t, q, slot) && Passes(t, p, slot) && !EndsAt(t, p, slot)
    ensures ResolvedPathsConflict(Meaning(t, q).value, Meaning(t, p).value)
  {
    KeySplit(t, q);
    KeySplit(t, p);
    PassedParents(t, p);
    var kq, kp, n := Meaning(t, q).value, Meaning(t, p).value, Depth(t, p);
    var i := PlainPassed(t, p, if n < |p| - 1 then n + 1 else n, slot);
    if i == n {
      assert kq.unresolvedTail <= kp.unresolvedTail;
    } else {
      PlainContains(t, p, i, n, slot);
    }
  }

  /** Without links, a lease with the key of an entry covers every change of the entry. */
  lemma PlainChangesStayWithinLease(held: seq<LeaseKey>, t: Tree, t': Tree, slot: Slot, q: Path)
    requires Plain(t) && EndsAt(t, q, slot) && LeaseKey(q, Meaning(t, q).value) in held && SameExcept(t, t', slot)
    ensures ChangeWithinLease(held, t, t')
  {
    forall p | Passes(t, p, slot)
      ensures Covered(held, t, p)
    {
      PlainPathIsCovered(held, t, slot, q, p);
    }
    CoveredChange(held, t, t', slot);
  }

  // ----- runs over trees

  ghost predicate IsTreeRun(states: seq<State>, actions: seq<Action>, trees: seq<Tree>) {
    && IsRun(states, actions) && |trees| == |states|
    && forall i :: 0 <= i < |trees| ==> states[i].fs == MeaningsOf(trees[i])
  }

  ghost predicate Changes(s: State, a: Action) {
    a.Mutate? && Enabled(s, a)
  }

  /** The keys of the lease under which the file system is changed. */
  ghost function HeldKeys(s: State, a: Action): seq<LeaseKey>
    requires Changes(s, a)
  {
    s.shared.leases[s.clients[a.w].phase.lease]
  }

  lemma StraysInTree(states: seq<State>, actions: seq<Action>, trees: seq<Tree>, i: nat)
    requires IsTreeRun(states, actions, trees) && i < |actions|
    ensures Enabled(states[i], actions[i])
    ensures Strays(states[i], actions[i]) <==>
      Changes(states[i], actions[i]) && !ChangeWithinLease(HeldKeys(states[i], actions[i]), trees[i], trees[i + 1])
  {
    assert Next(states[i], actions[i], states[i + 1]);
    assert states[i + 1].fs == MeaningsOf(trees[i + 1]);
  }

  /** The change at `slot` is made under a lease that covers every path passing the entry. */
  ghost predicate CoveredStep(s: State, a: Action, t: Tree, t': Tree, slot: Slot) {
    Changes(s, a) ==> SameExcept(t, t', slot) && CoversPassing(HeldKeys(s, a), t, slot)
  }

  /** As long as every change is to one entry, under a lease that covers every
      path passing it, no change strays, so semantic exclusion holds. */
  lemma CoveredRunsNeverStray(
      states: seq<State>, actions: seq<Action>, trees: seq<Tree>, slots: seq<Slot>, n: nat)
    requires IsTreeRun(states, actions, trees) && |slots| == |actions| && n < |states|
    requires forall i :: 0 <= i < n ==> CoveredStep(states[i], actions[i], trees[i], trees[i + 1], slots[i])
    ensures !states[n].strayed
  {
    StrayedMeansSomeChangeStrayed(states, actions, n);
    forall i | 0 <= i < n && Enabled(states[i], actions[i])
      ensures !Strays(states[i], actions[i])
    {
      StraysInTree(states, actions, trees, i);
      assert CoveredStep(states[i], actions[i], trees[i], trees[i + 1], slots[i]);
      if Changes(states[i], actions[i]) {
        CoveredChange(HeldKeys(states[i], actions[i]), trees[i], trees[i + 1], slots[i]);
      }
    }
  }

  /** The change removes the entry at `slot`, or puts a file there. */
  ghost predicate BlockingStep(s: State, a: Action, t: Tree, t': Tree, slot: Slot) {
    Changes(s, a) ==> SameExcept(t, t', slot) && Closed(t', slot)
  }

  ghost predicate LosesUncovered(s: State, a: Action, t: Tree, slot: Slot) {
    Changes(s, a) && exists p :: LostWhenBlocked(t, p, slot) && !Covered(HeldKeys(s, a), t, p)
  }

  /** When all changes remove an entry or put a file in its place, a run strays
      exactly at a change of an entry by way of which, or as which, a path is
      resolved that the lease does not cover. */
  lemma BlockingRunsStrayExactly(
      states: seq<State>, actions: seq<Action>, trees: seq<Tree>, slots: seq<Slot>, n: nat)
    requires IsTreeRun(states, actions, trees) && |slots| == |actions| && n < |states|
    requires forall i :: 0 <= i < n ==> BlockingStep(states[i], actions[i], trees[i], trees[i + 1], slots[i])
    ensures states[n].strayed <==> exists i :: 0 <= i < n && LosesUncovered(states[i], actions[i], trees[i], slots[i])
  {
    StrayedMeansSomeChangeStrayed(states, actions, n);
    forall i | 0 <= i < n
      ensures Enabled(states[i], actions[i])
      ensures Strays(states[i], actions[i]) <==> LosesUncovered(states[i], actions[i], trees[i], slots[i])
    {
      StraysInTree(states, actions, trees, i);
      assert BlockingStep(states[i], actions[i], trees[i], trees[i + 1], slots[i]);
      if Changes(states[i], actions[i]) {
        BlockingStaysWithinLease(HeldKeys(states[i], actions[i]), trees[i], trees[i + 1], slots[i]);
      }
    }
  }
}
