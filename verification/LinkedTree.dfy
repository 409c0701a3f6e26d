/**
 Path keys in a tree with symbolic links, and when changing one entry of it
 changes the meaning only of paths that the lease on that entry covers.

 A link is followed relative to its own directory, never out of the root, and
 at most 40 times per lookup. The parent of a directory does not change.
 */
module LinkedTree {
  import opened Basics
  import opened PathKeys
  import opened PathResolution
  import opened PathLeaseProtocol

  datatype Slot = Slot(directory: FileIdentity, name: string)

  /** `Outside` is an absolute link, or one that leaves the root. */
  datatype Node = Directory(id: FileIdentity) | File | Link(target: seq<string>) | Outside

  datatype Tree = Tree(root: FileIdentity, entries: map<Slot, Node>, parents: map<FileIdentity, FileIdentity>)

  const MAX_LINKS: nat := 40
  const EXDEV: nat := 18
  const ELOOP: nat := 40

  /**
   What one name does to a lookup: it fails, or it goes on from `directory` with
   the names `before` in front of those that are left. `passed` holds the entry
   that was read, if any.
   */
  datatype Turn =
    | Halt(error: Error, passed: seq<Slot>)
    | Go(directory: FileIdentity, before: seq<string>, links: nat, passed: seq<Slot>)

  function Enter(t: Tree, directory: FileIdentity, name: string, links: nat): (turn: Turn)
    ensures turn.Go? ==> turn.links < links || (turn.links == links && turn.before == [])
  {
    if name == "." then Go(directory, [], links, [])
    else if name == ".." then
      if directory == t.root || directory !in t.parents then Halt(Other(EXDEV), [])
      else Go(t.parents[directory], [], links, [])
    else
      var slot := Slot(directory, name);
      if slot !in t.entries then Halt(NotFound, [slot])
      else
        match t.entries[slot]
        case File => Halt(NotADirectory, [slot])
        case Outside => Halt(Other(EXDEV), [slot])
        case Directory(id) => Go(id, [], links, [slot])
        case Link(target) =>
          if links == 0 then Halt(Other(ELOOP), [slot]) else Go(directory, target, links - 1, [slot])
  }

  /** Where a lookup ends, how many links it may still follow, and the entries it passed. */
  datatype Walk = Walk(end: Result<FileIdentity>, links: nat, passed: seq<Slot>)

  /** Opens a directory, following every link. */
  function Follow(t: Tree, directory: FileIdentity, todo: seq<string>, links: nat): Walk
    decreases links, |todo|
  {
    if todo == [] then Walk(Ok(directory), links, [])
    else
      match Enter(t, directory, todo[0], links)
      case Halt(error, passed) => Walk(Err(error), links, passed)
      case Go(next, before, left, passed) =>
        var w := Follow(t, next, before + todo[1..], left);
        w.(passed := passed + w.passed)
  }

  function FromRoot(t: Tree, path: Path): Walk {
    Follow(t, t.root, path, MAX_LINKS)
  }

  function DirectoryAt(t: Tree, slot: Slot): Option<FileIdentity> {
    if slot in t.entries && t.entries[slot].Directory? then Some(t.entries[slot].id) else None
  }

  function FileSystemOf(t: Tree): FileSystem {
    FileSystem(
      t.root,
      (p: Path) => FromRoot(t, p).end,
      (d: FileIdentity) => if d in t.parents then Ok(t.parents[d]) else Err(NotFound),
      (d: FileIdentity, name: string) => Ok(DirectoryAt(t, Slot(d, name))))
  }

  predicate NormalName(name: string) {
    name != "." && name != ".."
  }

  predicate Normal(p: Path) {
    forall i :: 0 <= i < |p| ==> NormalName(p[i])
  }

  function Meaning(t: Tree, p: Path): Result<ResolvedPathKey> {
    if Normal(p) then KeyOf(FileSystemOf(t), p) else Err(InvalidInput)
  }

  ghost function MeaningsOf(t: Tree): Meanings {
    imap p | Meaning(t, p).Ok? :: Meaning(t, p).value
  }

  lemma FollowDirectory(t: Tree, directory: FileIdentity, name: string, links: nat)
    requires NormalName(name) && DirectoryAt(t, Slot(directory, name)).Some?
    ensures Follow(t, directory, [name], links) ==
      Walk(Ok(DirectoryAt(t, Slot(directory, name)).value), links, [Slot(directory, name)])
  {
    assert [] + [name][1..] == [];
  }

  lemma FollowLink(t: Tree, directory: FileIdentity, name: string, target: seq<string>, links: nat)
    requires NormalName(name) && links > 0
    requires Slot(directory, name) in t.entries && t.entries[Slot(directory, name)] == Link(target)
    ensures
      var w := Follow(t, directory, target, links - 1);
      Follow(t, directory, [name], links) == w.(passed := [Slot(directory, name)] + w.passed)
  {
    assert target + [name][1..] == target;
  }

  // ----- lookups go from left to right

  /** A lookup of `a + b` is the lookup of `a`, continued with `b`. */
  lemma {:induction false} FollowOn(t: Tree, directory: FileIdentity, a: seq<string>, b: seq<string>, links: nat)
    ensures
      var w := Follow(t, directory, a, links);
      Follow(t, directory, a + b, links) ==
        if w.end.Err? then w
        else
          var v := Follow(t, w.end.value, b, w.links);
          v.(passed := w.passed + v.passed)
    decreases links, |a|
  {
    if a == [] {
      assert a + b == b;
      var v := Follow(t, directory, b, links);
      assert [] + v.passed == v.passed;
    } else {
      assert (a + b)[0] == a[0] && (a + b)[1..] == a[1..] + b;
      var turn := Enter(t, directory, a[0], links);
      if turn.Go? {
        assert turn.before + (a[1..] + b) == (turn.before + a[1..]) + b;
        FollowOn(t, turn.directory, turn.before + a[1..], b, turn.links);
        var w := Follow(t, turn.directory, turn.before + a[1..], turn.links);
        if w.end.Ok? {
          var v := Follow(t, w.end.value, b, w.links);
          assert turn.passed + (w.passed + v.passed) == (turn.passed + w.passed) + v.passed;
        }
      }
    }
  }

  /** The assumption of the binary search for the deepest prefix holds in every tree. */
  lemma TreeIsLeftToRight(t: Tree, path: Path)
    ensures LeftToRight(FileSystemOf(t), path)
  {
    forall i, j | 0 < i <= j <= |path| && FromRoot(t, path[..i]).end.Err?
      ensures FromRoot(t, path[..j]).end == FromRoot(t, path[..i]).end
    {
      assert path[..j] == path[..i] + path[i..j];
      FollowOn(t, t.root, path[..i], path[i..j], MAX_LINKS);
    }
  }

  // ----- lookups stay below the root

  /** Every directory is the child of the one that holds it. */
  ghost predicate Consistent(t: Tree) {
    forall slot :: slot in t.entries && t.entries[slot].Directory? ==>
      Climbs(FileSystemOf(t), slot.directory, t.entries[slot].id)
  }

  /** The directory is the root or lies below it. */
  ghost predicate IsBelow(t: Tree, directory: FileIdentity) {
    exists chain :: IsAncestry(FileSystemOf(t), directory, chain)
  }

  lemma ChildIsBelow(t: Tree, parent: FileIdentity, child: FileIdentity)
    requires IsBelow(t, parent) && Climbs(FileSystemOf(t), parent, child)
    ensures IsBelow(t, child)
  {
    var chain :| IsAncestry(FileSystemOf(t), parent, chain);
    var longer := chain + [child];
    assert forall i :: 0 < i < |longer| ==> Climbs(FileSystemOf(t), longer[i - 1], longer[i]);
    assert IsAncestry(FileSystemOf(t), child, longer);
  }

  lemma ParentIsBelow(t: Tree, directory: FileIdentity)
    requires IsBelow(t, directory) && directory != t.root && directory in t.parents
    ensures IsBelow(t, t.parents[directory])
  {
    var chain :| IsAncestry(FileSystemOf(t), directory, chain);
    var n := |chain| - 1;
    assert Climbs(FileSystemOf(t), chain[n - 1], chain[n]);
    assert IsAncestry(FileSystemOf(t), t.parents[directory], chain[..n]);
  }

  /** Whatever links and dots a lookup meets, it ends below the root or fails. */
  lemma {:induction false} LookupStaysBelow(t: Tree, directory: FileIdentity, todo: seq<string>, links: nat)
    requires Consistent(t) && IsBelow(t, directory)
    ensures
      var w := Follow(t, directory, todo, links);
      w.end.Ok? ==> IsBelow(t, w.end.value)
    decreases links, |todo|
  {
    if todo != [] {
      var turn := Enter(t, directory, todo[0], links);
      if turn.Go? {
        if todo[0] == ".." {
          ParentIsBelow(t, directory);
        } else if turn.directory != directory {
          ChildIsBelow(t, directory, turn.directory);
        }
        LookupStaysBelow(t, turn.directory, turn.before + todo[1..], turn.links);
      }
    }
  }

  /** A link from the root to its parent is refused, together with every path through it. */
  lemma EscapingLinkIsRefused(t: Tree, name: string, rest: seq<string>, more: Path)
    requires NormalName(name) && Slot(t.root, name) in t.entries && t.entries[Slot(t.root, name)] == Link([".."] + rest)
    ensures FromRoot(t, [name] + more).end == Err(Other(EXDEV))
  {
    var up := [".."] + rest;
    assert Follow(t, t.root, up, MAX_LINKS - 1).end == Err(Other(EXDEV)) by {
      assert up[0] == "..";
    }
    FollowLink(t, t.root, name, up, MAX_LINKS);
    FollowOn(t, t.root, [name], more, MAX_LINKS);
  }

  /** Each name is a link to the next one, the last a directory. */
  ghost predicate IsLinkChain(t: Tree, names: seq<string>) {
    && names != []
    && (forall i :: 0 <= i < |names| ==> NormalName(names[i]))
    && (forall i :: 0 <= i < |names| - 1 ==>
          Slot(t.root, names[i]) in t.entries && t.entries[Slot(t.root, names[i])] == Link([names[i + 1]]))
    && DirectoryAt(t, Slot(t.root, names[|names| - 1])).Some?
  }

  lemma {:induction false} ChainWithLinks(t: Tree, names: seq<string>, links: nat)
    requires IsLinkChain(t, names)
    ensures
      var w := Follow(t, t.root, [names[0]], links);
      if |names| - 1 <= links then w.end.Ok? else w.end == Err(Other(ELOOP))
    decreases |names|
  {
    if |names| == 1 {
      FollowDirectory(t, t.root, names[0], links);
    } else if links > 0 {
      FollowLink(t, t.root, names[0], [names[1]], links);
      assert forall i :: 0 <= i < |names[1..]| ==> names[1..][i] == names[i + 1];
      ChainWithLinks(t, names[1..], links - 1);
    } else {
      assert NormalName(names[0]) && t.entries[Slot(t.root, names[0])] == Link([names[0 + 1]]);
      assert Enter(t, t.root, names[0], 0) == Halt(Other(ELOOP), [Slot(t.root, names[0])]);
    }
  }

  /** A lookup follows forty links and not one more. */
  lemma FortyLinksAreFollowed(t: Tree, names: seq<string>)
    requires IsLinkChain(t, names)
    ensures
      var end := FromRoot(t, [names[0]]).end;
      if |names| <= 41 then end.Ok? else end == Err(Other(ELOOP))
  {
    ChainWithLinks(t, names, MAX_LINKS);
  }

  // ----- prefixes

  /** A lookup passes every entry that the lookup of a prefix passes. */
  lemma PassedByPrefix(t: Tree, path: Path, prefix: Path, slot: Slot)
    requires prefix <= path
    ensures slot in FromRoot(t, prefix).passed ==> slot in FromRoot(t, path).passed
  {
    assert path == prefix + path[|prefix|..];
    FollowOn(t, t.root, prefix, path[|prefix|..], MAX_LINKS);
  }

  lemma StuckAfterFailure(t: Tree, path: Path, prefix: Path)
    requires prefix <= path && FromRoot(t, prefix).end.Err?
    ensures FromRoot(t, path) == FromRoot(t, prefix)
  {
    assert path == prefix + path[|prefix|..];
    FollowOn(t, t.root, prefix, path[|prefix|..], MAX_LINKS);
  }

  // ----- changing one entry

  /** The trees differ at most in what `slot` holds. */
  ghost predicate SameExcept(t: Tree, t': Tree, slot: Slot) {
    && t'.root == t.root && t'.parents == t.parents
    && forall x :: x != slot ==>
         (x in t'.entries <==> x in t.entries) && (x in t.entries ==> t'.entries[x] == t.entries[x])
  }

  lemma {:induction false} FollowFrame(
      t: Tree, t': Tree, slot: Slot, directory: FileIdentity, todo: seq<string>, links: nat)
    requires SameExcept(t, t', slot) && slot !in Follow(t, directory, todo, links).passed
    ensures Follow(t', directory, todo, links) == Follow(t, directory, todo, links)
    decreases links, |todo|
  {
    if todo != [] {
      var turn := Enter(t, directory, todo[0], links);
      assert Enter(t', directory, todo[0], links) == turn;
      if turn.Go? {
        FollowFrame(t, t', slot, turn.directory, turn.before + todo[1..], turn.links);
      }
    }
  }

  /** The error of every lookup that comes to an entry which does not let it on. */
  function Barrier(t: Tree, slot: Slot): Option<Error> {
    if slot !in t.entries then Some(NotFound)
    else
      match t.entries[slot]
      case File => Some(NotADirectory)
      case Outside => Some(Other(EXDEV))
      case _ => None
  }

  lemma {:induction false} FollowStops(
      t: Tree, t': Tree, slot: Slot, directory: FileIdentity, todo: seq<string>, links: nat)
    requires SameExcept(t, t', slot) && slot in Follow(t, directory, todo, links).passed && Barrier(t', slot).Some?
    ensures Follow(t', directory, todo, links).end == Err(Barrier(t', slot).value)
    decreases links, |todo|
  {
    var turn := Enter(t, directory, todo[0], links);
    if slot !in turn.passed {
      assert Enter(t', directory, todo[0], links) == turn;
      FollowStops(t, t', slot, turn.directory, turn.before + todo[1..], turn.links);
    }
  }

  lemma {:induction false} AncestryFrame(t: Tree, t': Tree, directory: FileIdentity, limit: nat)
    requires t'.root == t.root && t'.parents == t.parents
    ensures Ancestry(FileSystemOf(t'), directory, limit) == Ancestry(FileSystemOf(t), directory, limit)
    decreases limit
  {
    if limit > 0 && directory != t.root && directory in t.parents && t.parents[directory] != directory {
      AncestryFrame(t, t', t.parents[directory], limit - 1);
    }
  }

  // ----- the key of one path

  /** How many names of the path its key has resolved. */
  function Depth(t: Tree, p: Path): int
    requires Meaning(t, p).Ok?
  {
    |p| - |Meaning(t, p).value.unresolvedTail|
  }

  predicate IsMissing(t: Tree, path: Path) {
    FromRoot(t, path).end.Err? && Unresolved(FromRoot(t, path).end.error)
  }

  /** The prefix that the key resolves opens as its parent directory, and the next one is missing. */
  lemma KeySplit(t: Tree, p: Path)
    requires Meaning(t, p).Ok?
    ensures 0 <= Depth(t, p) < |p|
    ensures
      var k, n := Meaning(t, p).value, Depth(t, p);
      && k.unresolvedTail == p[n..]
      && FromRoot(t, p[..n]).end == Ok(k.resolvedParent)
      && (n < |p| - 1 ==> IsMissing(t, p[..n + 1]))
      && k.targetDirectory == (if n < |p| - 1 then None else DirectoryAt(t, Slot(k.resolvedParent, p[n])))
      && Ancestry(FileSystemOf(t), k.resolvedParent, MAX_DIRECTORY_ANCESTORS) == Ok(k.ancestorDirectories)
  {
    var parents := p[..|p| - 1];
    LinearPrefixIsDeepest(FileSystemOf(t), parents, Prefix(t.root, 0));
    var prefix := LinearPrefix(FileSystemOf(t), parents, Prefix(t.root, 0)).value;
    assert parents[..prefix.length] == p[..prefix.length];
    if prefix.length < |p| - 1 {
      assert parents[..prefix.length + 1] == p[..prefix.length + 1];
    }
  }

  /** The key of a path whose parent names all open. */
  lemma OpenedKey(t: Tree, p: Path, directory: FileIdentity, chain: seq<FileIdentity>)
    requires p != [] && Normal(p) && FromRoot(t, p[..|p| - 1]).end == Ok(directory)
    requires IsAncestry(FileSystemOf(t), directory, chain) && |chain| <= MAX_DIRECTORY_ANCESTORS
    ensures Meaning(t, p) ==
      Ok(ResolvedPathKey(directory, [p[|p| - 1]], chain, DirectoryAt(t, Slot(directory, p[|p| - 1]))))
  {
    var parents := p[..|p| - 1];
    assert parents[..|parents|] == parents;
    TreeIsLeftToRight(t, parents);
    SearchIsLinear(FileSystemOf(t), parents, Prefix(directory, |parents|));
    ChainIsAncestry(FileSystemOf(t), directory, chain, MAX_DIRECTORY_ANCESTORS);
    assert p[|p| - 1..] == [p[|p| - 1]];
  }

  lemma MeaningsAreWellFormed(t: Tree)
    ensures WellFormedFs(t.root, MeaningsOf(t))
  {
    forall p | Meaning(t, p).Ok?
      ensures WellResolved(t.root, Meaning(t, p).value)
    {
      KeySplit(t, p);
      AncestryIsChain(FileSystemOf(t), Meaning(t, p).value.resolvedParent, MAX_DIRECTORY_ANCESTORS);
    }
  }

  /** If the same prefix opens as before, only the directory under the last name can differ. */
  lemma KeyAgain(t: Tree, t': Tree, slot: Slot, p: Path)
    requires SameExcept(t, t', slot) && Meaning(t, p).Ok? && 0 <= Depth(t, p) < |p|
    requires FromRoot(t', p[..Depth(t, p)]).end == Ok(Meaning(t, p).value.resolvedParent)
    requires Depth(t, p) < |p| - 1 ==> IsMissing(t', p[..Depth(t, p) + 1])
    ensures
      var k := Meaning(t, p).value;
      Meaning(t', p) == Ok(
        if Depth(t, p) < |p| - 1 then k
        else k.(targetDirectory := DirectoryAt(t', Slot(k.resolvedParent, p[Depth(t, p)]))))
  {
    KeySplit(t, p);
    var k, n, parents := Meaning(t, p).value, Depth(t, p), p[..|p| - 1];
    assert parents[..n] == p[..n];
    if n < |p| - 1 {
      assert parents[..n + 1] == p[..n + 1];
    }
    TreeIsLeftToRight(t', parents);
    SearchIsLinear(FileSystemOf(t'), parents, Prefix(k.resolvedParent, n));
    AncestryFrame(t, t', k.resolvedParent, MAX_DIRECTORY_ANCESTORS);
  }

  /** If the prefix no longer opens, the key is another one. */
  lemma KeyLost(t: Tree, t': Tree, p: Path)
    requires Meaning(t, p).Ok? && 0 <= Depth(t, p) < |p| && FromRoot(t', p[..Depth(t, p)]).end.Err?
    ensures Meaning(t', p) != Meaning(t, p)
  {
    if Meaning(t', p) == Meaning(t, p) {
      KeySplit(t', p);
    }
  }

  /** If a prefix of the parent names fails for good, there is no key. */
  lemma KeyRefused(t: Tree, p: Path, m: nat)
    requires m < |p| && FromRoot(t, p[..m]).end.Err? && !Unresolved(FromRoot(t, p[..m]).end.error)
    ensures Meaning(t, p).Err?
  {
    var parents := p[..|p| - 1];
    assert parents[..m] == p[..m];
    TreeIsLeftToRight(t, parents);
    FatalIsLinear(FileSystemOf(t), parents, m);
  }

  // ----- which keys a change at one entry can change

  /** The prefix that the key of `p` resolves is found by way of `slot`. */
  predicate GoesThrough(t: Tree, p: Path, slot: Slot) {
    Meaning(t, p).Ok? && 0 <= Depth(t, p) <= |p| && slot in FromRoot(t, p[..Depth(t, p)]).passed
  }

  /** `slot` is the very entry that `p` names. */
  predicate EndsAt(t: Tree, p: Path, slot: Slot) {
    && Meaning(t, p).Ok? && p != [] && Depth(t, p) == |p| - 1
    && slot == Slot(Meaning(t, p).value.resolvedParent, p[|p| - 1])
  }

  /** Resolving `p` looks at `slot`. */
  predicate Passes(t: Tree, p: Path, slot: Slot) {
    Meaning(t, p).Ok? && p != [] && (slot in FromRoot(t, p[..|p| - 1]).passed || EndsAt(t, p, slot))
  }

  /** What the lookup of all parent names passes is what it passes up to the first missing one. */
  lemma PassedParents(t: Tree, p: Path)
    requires Meaning(t, p).Ok? && 0 <= Depth(t, p) < |p|
    ensures
      var n := Depth(t, p);
      FromRoot(t, p[..|p| - 1]).passed == FromRoot(t, p[..if n < |p| - 1 then n + 1 else n]).passed
  {
    KeySplit(t, p);
    var n := Depth(t, p);
    if n < |p| - 1 {
      StuckAfterFailure(t, p[..|p| - 1], p[..n + 1]);
    }
  }

  lemma MeaningFrame(t: Tree, t': Tree, slot: Slot, p: Path)
    requires SameExcept(t, t', slot) && Meaning(t, p).Ok? && !Passes(t, p, slot)
    ensures Meaning(t', p) == Meaning(t, p)
  {
    KeySplit(t, p);
    PassedParents(t, p);
    var n := Depth(t, p);
    if n < |p| - 1 {
      FollowFrame(t, t', slot, t.root, p[..n + 1], MAX_LINKS);
      PassedByPrefix(t, p[..n + 1], p[..n], slot);
    }
    FollowFrame(t, t', slot, t.root, p[..n], MAX_LINKS);
    KeyAgain(t, t', slot, p);
  }

  /** Removing the entry, or putting a file there, changes a key exactly if the
      key was found by way of the entry or names the directory it held. */
  lemma BlockedMeaning(t: Tree, t': Tree, slot: Slot, p: Path)
    requires SameExcept(t, t', slot) && Meaning(t, p).Ok? && Closed(t', slot)
    ensures Meaning(t', p) != Meaning(t, p) <==> LostWhenBlocked(t, p, slot)
  {
    KeySplit(t, p);
    if GoesThrough(t, p, slot) {
      FollowStops(t, t', slot, t.root, p[..Depth(t, p)], MAX_LINKS);
      KeyLost(t, t', p);
    } else {
      BlockedBehind(t, t', slot, p);
    }
  }

  lemma BlockedBehind(t: Tree, t': Tree, slot: Slot, p: Path)
    requires SameExcept(t, t', slot) && Meaning(t, p).Ok? && Closed(t', slot) && !GoesThrough(t, p, slot)
    ensures Meaning(t', p) != Meaning(t, p) <==> EndsAt(t, p, slot) && DirectoryAt(t, slot).Some?
  {
    KeySplit(t, p);
    var n := Depth(t, p);
    FollowFrame(t, t', slot, t.root, p[..n], MAX_LINKS);
    if n < |p| - 1 {
      MissingAgain(t, t', slot, p[..n + 1]);
    }
    KeyAgain(t, t', slot, p);
  }

  lemma MissingAgain(t: Tree, t': Tree, slot: Slot, path: Path)
    requires SameExcept(t, t', slot) && Closed(t', slot) && IsMissing(t, path)
    ensures IsMissing(t', path)
  {
    if slot in FromRoot(t, path).passed {
      FollowStops(t, t', slot, t.root, path, MAX_LINKS);
    } else {
      FollowFrame(t, t', slot, t.root, path, MAX_LINKS);
    }
  }

  predicate Closed(t: Tree, slot: Slot) {
    slot !in t.entries || t.entries[slot].File?
  }

  predicate LostWhenBlocked(t: Tree, p: Path, slot: Slot) {
    GoesThrough(t, p, slot) || (EndsAt(t, p, slot) && DirectoryAt(t, slot).Some?)
  }

  function Replaced(t: Tree, slot: Slot, node: Node): Tree {
    t.(entries := t.entries[slot := node])
  }

  /** A link that leaves the root refuses every path resolved by way of the entry. */
  lemma RefusedMeaning(t: Tree, slot: Slot, p: Path)
    requires p != [] && slot in FromRoot(t, p[..|p| - 1]).passed
    ensures Meaning(Replaced(t, slot, Outside), p).Err?
  {
    FollowStops(t, Replaced(t, slot, Outside), slot, t.root, p[..|p| - 1], MAX_LINKS);
    KeyRefused(Replaced(t, slot, Outside), p, |p| - 1);
  }

  /** Another directory is another target of the path that names the entry. */
  lemma OtherTarget(t: Tree, slot: Slot, p: Path, id: FileIdentity)
    requires EndsAt(t, p, slot) && slot !in FromRoot(t, p[..|p| - 1]).passed && DirectoryAt(t, slot) != Some(id)
    ensures Meaning(Replaced(t, slot, Directory(id)), p) != Meaning(t, p)
  {
    KeySplit(t, p);
    FollowFrame(t, Replaced(t, slot, Directory(id)), slot, t.root, p[..|p| - 1], MAX_LINKS);
    KeyAgain(t, Replaced(t, slot, Directory(id)), slot, p);
  }

  /** Every path that passes the entry gets another meaning by some change of it. */
  lemma PassingMeaningCanChange(t: Tree, slot: Slot, p: Path) returns (node: Node)
    requires Passes(t, p, slot)
    ensures Meaning(Replaced(t, slot, node), p) != Meaning(t, p)
  {
    if slot in FromRoot(t, p[..|p| - 1]).passed {
      RefusedMeaning(t, slot, p);
      node := Outside;
    } else {
      var id := if DirectoryAt(t, slot) == Some(FileIdentity(0, 0)) then FileIdentity(0, 1) else FileIdentity(0, 0);
      OtherTarget(t, slot, p, id);
      node := Directory(id);
    }
  }

  // ----- when a change stays within a lease

  ghost predicate Covered(held: seq<LeaseKey>, t: Tree, p: Path)
    requires Meaning(t, p).Ok?
  {
    PathsConflict(held, [LeaseKey(p, Meaning(t, p).value)])
  }

  ghost predicate ChangeWithinLease(held: seq<LeaseKey>, t: Tree, t': Tree) {
    MutationWithinLease(held, MeaningsOf(t), MeaningsOf(t'))
  }

  lemma ChangeWithinLeaseByPath(held: seq<LeaseKey>, t: Tree, t': Tree)
    ensures ChangeWithinLease(held, t, t') <==>
      forall p :: Meaning(t, p).Ok? && Meaning(t', p) != Meaning(t, p) ==> Covered(held, t, p)
  {
    if ChangeWithinLease(held, t, t') {
      forall p | Meaning(t, p).Ok? && Meaning(t', p) != Meaning(t, p)
        ensures Covered(held, t, p)
      {
        assert p in MeaningsOf(t);
        assert p !in MeaningsOf(t') || MeaningsOf(t')[p] != MeaningsOf(t)[p];
      }
    }
  }

  /** Removing one entry, or putting a file there, stays within a lease if and only
      if the lease covers every path that is resolved by way of the entry and every
      path that names the directory it held. */
  lemma BlockingStaysWithinLease(held: seq<LeaseKey>, t: Tree, t': Tree, slot: Slot)
    requires SameExcept(t, t', slot) && Closed(t', slot)
    ensures ChangeWithinLease(held, t, t') <==> forall p :: LostWhenBlocked(t, p, slot) ==> Covered(held, t, p)
  {
    ChangeWithinLeaseByPath(held, t, t');
    forall p | Meaning(t, p).Ok?
      ensures Meaning(t', p) != Meaning(t, p) <==> LostWhenBlocked(t, p, slot)
    {
      BlockedMeaning(t, t', slot, p);
    }
  }

  ghost predicate CoversPassing(held: seq<LeaseKey>, t: Tree, slot: Slot) {
    forall p :: Passes(t, p, slot) ==> Covered(held, t, p)
  }

  lemma CoveredChange(held: seq<LeaseKey>, t: Tree, t': Tree, slot: Slot)
    requires SameExcept(t, t', slot) && CoversPassing(held, t, slot)
    ensures ChangeWithinLease(held, t, t')
  {
    ChangeWithinLeaseByPath(held, t, t');
    forall p | Meaning(t, p).Ok? && Meaning(t', p) != Meaning(t, p)
      ensures Passes(t, p, slot)
    {
      if !Passes(t, p, slot) {
        MeaningFrame(t, t', slot, p);
      }
    }
  }

  lemma UncoveredChange(held: seq<LeaseKey>, t: Tree, slot: Slot, p: Path) returns (t': Tree)
    requires Passes(t, p, slot) && !Covered(held, t, p)
    ensures SameExcept(t, t', slot) && !ChangeWithinLease(held, t, t')
  {
    var node := PassingMeaningCanChange(t, slot, p);
    t' := Replaced(t, slot, node);
    ChangeWithinLeaseByPath(held, t, t');
  }

  /** All changes of one entry stay within a lease if and only if the lease covers
      every path whose resolution passes the entry. */
  lemma ChangesStayWithinLease(held: seq<LeaseKey>, t: Tree, slot: Slot)
    ensures (forall t' :: SameExcept(t, t', slot) ==> ChangeWithinLease(held, t, t')) <==> CoversPassing(held, t, slot)
  {
    if CoversPassing(held, t, slot) {
      forall t' | SameExcept(t, t', slot)
        ensures ChangeWithinLease(held, t, t')
      {
        CoveredChange(held, t, t', slot);
      }
    } else {
      var p :| Passes(t, p, slot) && !Covered(held, t, p);
      var t' := UncoveredChange(held, t, slot, p);
    }
  }
}
