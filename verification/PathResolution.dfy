/**
 Resolution of semantic path keys: the deepest openable parent prefix by binary
 search, and the physical ancestry walked back to the shared root.
 */
module PathResolution {
  import opened Basics
  import opened PathKeys

  datatype Error =
    | NotFound | NotADirectory | PermissionDenied | InvalidData | InvalidInput | NoEntryKey
    | Other(code: nat)

  datatype Result<T> = Ok(value: T) | Err(error: Error)

  type Probe = Result<FileIdentity>

  datatype Prefix = Prefix(directory: FileIdentity, length: nat)

  const MAX_DIRECTORY_ANCESTORS: nat := 4096

  /** What an unchanging file system answers: opening a prefix from the root,
      the parent of a directory, and the entry itself. */
  datatype FileSystem = FileSystem(
    root: FileIdentity,
    open: Path -> Probe,
    parent: FileIdentity -> Result<FileIdentity>,
    entry: (FileIdentity, string) -> Result<Option<FileIdentity>>)

  predicate Unresolved(e: Error) {
    e.NotFound? || e.NotADirectory? || e.PermissionDenied?
  }

  // ----- the component-by-component scan

  function LinearPrefix(fs: FileSystem, path: Path, from: Prefix): Result<Prefix>
    requires from.length <= |path|
    decreases |path| - from.length
  {
    if from.length == |path| then Ok(from)
    else
      match fs.open(path[..from.length + 1])
      case Ok(directory) => LinearPrefix(fs, path, Prefix(directory, from.length + 1))
      case Err(e) => if Unresolved(e) then Ok(from) else Err(e)
  }

  /** It is the deepest prefix that opens with all its own prefixes: every one up
      to it opens, the next one, if any, is missing; and it fails exactly when the
      first that does not open fails for another reason. */
  lemma {:induction false} LinearPrefixIsDeepest(fs: FileSystem, path: Path, from: Prefix)
    requires from.length <= |path|
    ensures match LinearPrefix(fs, path, from)
      case Ok(p) =>
        && from.length <= p.length <= |path|
        && (forall i :: from.length < i <= p.length ==> fs.open(path[..i]).Ok?)
        && (if p.length == from.length then p == from else fs.open(path[..p.length]) == Ok(p.directory))
        && (p.length < |path| ==> StopsAt(fs, path, p.length + 1))
      case Err(e) => FailsFirst(fs, path, from.length, e)
    decreases |path| - from.length
  {
    if from.length < |path| {
      var next := fs.open(path[..from.length + 1]);
      if next.Ok? {
        LinearPrefixIsDeepest(fs, path, Prefix(next.value, from.length + 1));
        var r := LinearPrefix(fs, path, from);
        if r.Err? {
          var k :| FailsAt(fs, path, from.length + 1, k, r.error);
          assert FailsAt(fs, path, from.length, k, r.error);
        }
      } else if !Unresolved(next.error) {
        assert FailsAt(fs, path, from.length, from.length + 1, next.error);
      }
    }
  }

  ghost predicate FailsAt(fs: FileSystem, path: Path, from: nat, k: nat, e: Error) {
    && from < k <= |path| && fs.open(path[..k]) == Err(e) && !Unresolved(e)
    && forall i :: from < i < k ==> fs.open(path[..i]).Ok?
  }

  ghost predicate FailsFirst(fs: FileSystem, path: Path, from: nat, e: Error) {
    exists k :: FailsAt(fs, path, from, k, e)
  }

  /** The first prefix that does not open decides: one that is missing, leads through
      something else than a directory, or may not be entered ends the resolved part
      before it; any other error is the answer. */
  lemma {:induction false} FirstFailureDecides(fs: FileSystem, path: Path, n: nat, from: Prefix)
    requires from.length <= n < |path| && fs.open(path[..n + 1]).Err?
    requires forall i :: from.length < i <= n ==> fs.open(path[..i]).Ok?
    ensures
      var e := fs.open(path[..n + 1]).error;
      LinearPrefix(fs, path, from) ==
        if e == NotFound || e == NotADirectory || e == PermissionDenied
        then Ok(if n == from.length then from else Prefix(fs.open(path[..n]).value, n))
        else Err(e)
    decreases n - from.length
  {
    if from.length < n {
      FirstFailureDecides(fs, path, n, Prefix(fs.open(path[..from.length + 1]).value, from.length + 1));
    }
  }

  /** The loop of `open_nearest_existing_parent`. */
  method NearestExistingParent(fs: FileSystem, parent: Path) returns (r: Result<FileIdentity>)
    ensures match LinearPrefix(fs, parent, Prefix(fs.root, 0))
      case Ok(p) => r == Ok(p.directory)
      case Err(e) => r == Err(e)
  {
    var current, k := fs.root, 0;
    while k < |parent|
      invariant 0 <= k <= |parent|
      invariant LinearPrefix(fs, parent, Prefix(fs.root, 0)) == LinearPrefix(fs, parent, Prefix(current, k))
    {
      var next := fs.open(parent[..k + 1]);
      if next.Ok? {
        current := next.value;
      } else if Unresolved(next.error) {
        break;
      } else {
        return Err(next.error);
      }
      k := k + 1;
    }
    r := Ok(current);
  }

  // ----- the binary search

  /** Left-to-right resolution: the first prefix that does not open decides for all longer ones. */
  ghost predicate LeftToRight(fs: FileSystem, path: Path) {
    forall i, j :: 0 < i <= j <= |path| && fs.open(path[..i]).Err? ==> fs.open(path[..j]) == fs.open(path[..i])
  }

  /** `length` components open as `directory`; the empty prefix is the root. */
  ghost predicate Opens(fs: FileSystem, path: Path, p: Prefix) {
    p.length <= |path| && if p.length == 0 then p.directory == fs.root else fs.open(path[..p.length]) == Ok(p.directory)
  }

  ghost predicate StopsAt(fs: FileSystem, path: Path, length: nat) {
    0 < length <= |path| && fs.open(path[..length]).Err? && Unresolved(fs.open(path[..length]).error)
  }

  method DeepestParentPrefix(fs: FileSystem, path: Path) returns (r: Result<Prefix>, probes: nat)
    ensures r.Ok? ==> Opens(fs, path, r.value) && (r.value.length == |path| || StopsAt(fs, path, r.value.length + 1))
    ensures r.Err? ==> !Unresolved(r.error) && exists k :: 0 < k <= |path| && fs.open(path[..k]) == Err(r.error)
    ensures LeftToRight(fs, path) ==> r == LinearPrefix(fs, path, Prefix(fs.root, 0))
    ensures probes <= 1 + CeilLog2(|path|)
  {
    probes := 0;
    if path == [] {
      return Ok(Prefix(fs.root, 0)), probes;
    }
    assert path[..|path|] == path;
    var full := fs.open(path);
    probes := 1;
    if full.Ok? {
      SearchIsLinear(fs, path, Prefix(full.value, |path|));
      return Ok(Prefix(full.value, |path|)), probes;
    }
    if !Unresolved(full.error) {
      FatalIsLinear(fs, path, |path|);
      return Err(full.error), probes;
    }
    var resolved, unresolved := 0, |path|;
    var directory := fs.root;
    CeilLog2IsLeast(|path|);
    while resolved + 1 < unresolved
      invariant Opens(fs, path, Prefix(directory, resolved)) && resolved < unresolved && StopsAt(fs, path, unresolved)
      invariant 1 <= probes <= 1 + CeilLog2(|path|) && unresolved - resolved <= Power2(1 + CeilLog2(|path|) - probes)
      decreases unresolved - resolved
    {
      assert probes <= CeilLog2(|path|);
      assert Power2(1 + CeilLog2(|path|) - probes) == 2 * Power2(CeilLog2(|path|) - probes);
      var candidate := resolved + (unresolved - resolved) / 2;
      var next := fs.open(path[..candidate]);
      probes := probes + 1;
      if next.Ok? {
        resolved, directory := candidate, next.value;
      } else if Unresolved(next.error) {
        unresolved := candidate;
      } else {
        FatalIsLinear(fs, path, candidate);
        return Err(next.error), probes;
      }
    }
    SearchIsLinear(fs, path, Prefix(directory, resolved));
    r := Ok(Prefix(directory, resolved));
  }

  /** Under left-to-right resolution every shorter prefix of an opened one opens. */
  lemma {:induction false} LinearReaches(fs: FileSystem, path: Path, p: Prefix, from: Prefix)
    requires LeftToRight(fs, path) && Opens(fs, path, p) && Opens(fs, path, from) && from.length <= p.length
    ensures LinearPrefix(fs, path, from) == LinearPrefix(fs, path, p)
    decreases p.length - from.length
  {
    if from.length < p.length {
      var next := fs.open(path[..from.length + 1]);
      assert next.Ok? by {
        assert fs.open(path[..p.length]).Ok?;
      }
      LinearReaches(fs, path, p, Prefix(next.value, from.length + 1));
    }
  }

  lemma SearchIsLinear(fs: FileSystem, path: Path, p: Prefix)
    requires Opens(fs, path, p) && (p.length == |path| || StopsAt(fs, path, p.length + 1))
    ensures LeftToRight(fs, path) ==> LinearPrefix(fs, path, Prefix(fs.root, 0)) == Ok(p)
  {
    if LeftToRight(fs, path) {
      LinearReaches(fs, path, p, Prefix(fs.root, 0));
    }
  }

  lemma {:induction false} LinearFails(fs: FileSystem, path: Path, k: nat, from: Prefix)
    requires LeftToRight(fs, path) && from.length < k <= |path|
    requires fs.open(path[..k]).Err? && !Unresolved(fs.open(path[..k]).error)
    ensures LinearPrefix(fs, path, from) == Err(fs.open(path[..k]).error)
    decreases k - from.length
  {
    var next := fs.open(path[..from.length + 1]);
    if next.Ok? {
      assert from.length + 1 < k;
      LinearFails(fs, path, k, Prefix(next.value, from.length + 1));
    } else {
      assert fs.open(path[..k]) == next;
    }
  }

  lemma FatalIsLinear(fs: FileSystem, path: Path, k: nat)
    requires 0 < k <= |path| && fs.open(path[..k]).Err? && !Unresolved(fs.open(path[..k]).error)
    ensures LeftToRight(fs, path) ==> LinearPrefix(fs, path, Prefix(fs.root, 0)) == Err(fs.open(path[..k]).error)
  {
    if LeftToRight(fs, path) {
      LinearFails(fs, path, k, Prefix(fs.root, 0));
    }
  }

  // ----- the ancestry walk

  /** Parents from the root down to `directory`, at most `limit` directories. */
  function Ancestry(fs: FileSystem, directory: FileIdentity, limit: nat): Result<seq<FileIdentity>>
    decreases limit
  {
    if limit == 0 then Err(InvalidData)
    else if directory == fs.root then Ok([directory])
    else
      match fs.parent(directory)
      case Err(e) => Err(e)
      case Ok(parent) =>
        if parent == directory then Err(PermissionDenied) else Appended(Ancestry(fs, parent, limit - 1), [directory])
  }

  function Appended<T>(r: Result<seq<T>>, tail: seq<T>): Result<seq<T>> {
    match r
    case Ok(s) => Ok(s + tail)
    case Err(e) => Err(e)
  }

  /** A chain of parents from the root, met once at its head, down to `directory`. */
  ghost predicate IsAncestry(fs: FileSystem, directory: FileIdentity, chain: seq<FileIdentity>) {
    && chain != [] && chain[0] == fs.root && chain[|chain| - 1] == directory
    && forall i :: 0 < i < |chain| ==> Climbs(fs, chain[i - 1], chain[i])
  }

  predicate Climbs(fs: FileSystem, parent: FileIdentity, directory: FileIdentity) {
    directory != fs.root && directory != parent && fs.parent(directory) == Ok(parent)
  }

  /** The ancestry is the chain of parents, and is found exactly if there is one within the limit. */
  lemma {:induction false} AncestryIsChain(fs: FileSystem, directory: FileIdentity, limit: nat)
    ensures Ancestry(fs, directory, limit).Ok? ==>
      IsAncestry(fs, directory, Ancestry(fs, directory, limit).value) && |Ancestry(fs, directory, limit).value| <= limit
    decreases limit
  {
    if limit > 0 && directory != fs.root && fs.parent(directory).Ok? && fs.parent(directory).value != directory {
      var parent := fs.parent(directory).value;
      AncestryIsChain(fs, parent, limit - 1);
      if Ancestry(fs, parent, limit - 1).Ok? {
        var chain := Ancestry(fs, parent, limit - 1).value;
        assert Climbs(fs, chain[|chain| - 1], directory);
        assert forall i :: 0 < i < |chain| + 1 ==> Climbs(fs, (chain + [directory])[i - 1], (chain + [directory])[i]);
      }
    }
  }

  lemma {:induction false} ChainIsAncestry(
      fs: FileSystem, directory: FileIdentity, chain: seq<FileIdentity>, limit: nat)
    requires IsAncestry(fs, directory, chain) && |chain| <= limit
    ensures Ancestry(fs, directory, limit) == Ok(chain)
    decreases |chain|
  {
    if |chain| > 1 {
      var n := |chain| - 1;
      assert Climbs(fs, chain[n - 1], chain[n]);
      assert forall i :: 0 < i < n ==> Climbs(fs, chain[i - 1], chain[i]);
      ChainIsAncestry(fs, chain[n - 1], chain[..n], limit - 1);
      assert chain[..n] + [directory] == chain;
    } else {
      assert chain == [directory];
    }
  }

  /** A climb that does not come to the root: each one is the parent of the one before. */
  ghost predicate ClimbsFrom(fs: FileSystem, directory: FileIdentity, up: seq<FileIdentity>) {
    && up != [] && up[0] == directory
    && (forall i :: 0 <= i < |up| ==> up[i] != fs.root)
    && (forall i :: 0 <= i < |up| - 1 ==> fs.parent(up[i]) == Ok(up[i + 1]) && up[i + 1] != up[i])
  }

  /** Why there is no ancestry: the climb is too long, or it comes to a directory whose
      parent cannot be told, or to one that is its own parent without being the root. */
  lemma {:induction false} ClimbFails(fs: FileSystem, directory: FileIdentity, up: seq<FileIdentity>, limit: nat)
    requires ClimbsFrom(fs, directory, up)
    ensures
      var parent := fs.parent(up[|up| - 1]);
      && (limit <= |up| - 1 ==> Ancestry(fs, directory, limit) == Err(InvalidData))
      && (limit >= |up| && parent.Err? ==> Ancestry(fs, directory, limit) == Err(parent.error))
      && (limit >= |up| && parent == Ok(up[|up| - 1]) ==> Ancestry(fs, directory, limit) == Err(PermissionDenied))
    decreases |up|
  {
    if |up| > 1 && limit > 0 {
      assert fs.parent(up[0]) == Ok(up[0 + 1]);
      assert forall i :: 0 <= i < |up[1..]| ==> up[1..][i] == up[i + 1];
      ClimbFails(fs, up[1], up[1..], limit - 1);
    }
  }

  function Reversed<T>(s: seq<T>): (r: seq<T>)
    ensures |r| == |s| && forall i :: 0 <= i < |s| ==> r[i] == s[|s| - 1 - i]
  {
    seq(|s|, i requires 0 <= i < |s| => s[|s| - 1 - i])
  }

  /** `directory_ancestry_from_root`. */
  method DirectoryAncestry(fs: FileSystem, directory: FileIdentity) returns (r: Result<seq<FileIdentity>>)
    ensures r == Ancestry(fs, directory, MAX_DIRECTORY_ANCESTORS)
    ensures r.Ok? ==> IsAncestry(fs, directory, r.value) && |r.value| <= 4096
    ensures r.Err? ==> forall chain :: IsAncestry(fs, directory, chain) ==> |chain| > 4096
  {
    AncestryIsChain(fs, directory, MAX_DIRECTORY_ANCESTORS);
    forall chain | IsAncestry(fs, directory, chain) && |chain| <= MAX_DIRECTORY_ANCESTORS
      ensures Ancestry(fs, directory, MAX_DIRECTORY_ANCESTORS).Ok?
    {
      ChainIsAncestry(fs, directory, chain, MAX_DIRECTORY_ANCESTORS);
    }
    r := WalkUp(fs, directory, MAX_DIRECTORY_ANCESTORS);
  }

  method WalkUp(fs: FileSystem, directory: FileIdentity, limit: nat) returns (r: Result<seq<FileIdentity>>)
    ensures r == Ancestry(fs, directory, limit)
  {
    var current := directory;
    var reversed: seq<FileIdentity> := [];
    assert Appended(Ancestry(fs, current, limit), Reversed(reversed)) == Ancestry(fs, directory, limit) by {
      if Ancestry(fs, directory, limit).Ok? {
        assert Ancestry(fs, directory, limit).value + [] == Ancestry(fs, directory, limit).value;
      }
    }
    for round := 0 to limit
      invariant |reversed| == round
      invariant Appended(Ancestry(fs, current, limit - round), Reversed(reversed)) == Ancestry(fs, directory, limit)
    {
      assert Reversed(reversed + [current]) == [current] + Reversed(reversed);
      if current == fs.root {
        return Ok(Reversed(reversed + [current]));
      }
      var parent := fs.parent(current);
      if parent.Err? {
        return Err(parent.error);
      }
      if parent.value == current {
        return Err(PermissionDenied);
      }
      ClimbOne(fs, current, parent.value, limit - round, Reversed(reversed));
      reversed := reversed + [current];
      current := parent.value;
    }
    r := Err(InvalidData);
  }

  lemma ClimbOne(fs: FileSystem, current: FileIdentity, parent: FileIdentity, limit: nat, below: seq<FileIdentity>)
    requires limit > 0 && Climbs(fs, parent, current)
    ensures Appended(Ancestry(fs, current, limit), below) ==
      Appended(Ancestry(fs, parent, limit - 1), [current] + below)
  {
    if Ancestry(fs, parent, limit - 1).Ok? {
      var chain := Ancestry(fs, parent, limit - 1).value;
      assert chain + [current] + below == chain + ([current] + below);
    }
  }

  // ----- the semantic key

  /** What is found under the last name: only a real directory counts, a link is not followed. */
  function TargetOf(fs: FileSystem, path: Path, prefix: Prefix): Result<Option<FileIdentity>>
    requires path != []
  {
    if prefix.length == |path| - 1 then fs.entry(prefix.directory, path[|path| - 1]) else Ok(None)
  }

  function KeyFrom(fs: FileSystem, path: Path, prefix: Prefix): Result<ResolvedPathKey>
    requires path != [] && prefix.length < |path|
  {
    match Ancestry(fs, prefix.directory, MAX_DIRECTORY_ANCESTORS)
    case Err(e) => Err(e)
    case Ok(chain) =>
      match TargetOf(fs, path, prefix)
      case Err(e) => Err(e)
      case Ok(target) => Ok(ResolvedPathKey(prefix.directory, path[prefix.length..], chain, target))
  }

  /** The key of a path: directory and ancestry of its deepest openable parent
      prefix, all the names after it, and the directory it names, if any. */
  function KeyOf(fs: FileSystem, path: Path): Result<ResolvedPathKey> {
    if path == [] then Err(NoEntryKey)
    else
      match LinearPrefix(fs, path[..|path| - 1], Prefix(fs.root, 0))
      case Err(e) => Err(e)
      case Ok(prefix) =>
        LinearPrefixIsDeepest(fs, path[..|path| - 1], Prefix(fs.root, 0));
        KeyFrom(fs, path, prefix)
  }

  /** So a key splits the path before the first parent name that is missing or may not be entered. */
  lemma RefusedParentSplitsKey(fs: FileSystem, path: Path, n: nat)
    requires n + 1 < |path| && fs.open(path[..n + 1]).Err?
    requires forall i :: 0 < i <= n ==> fs.open(path[..i]).Ok?
    ensures
      var e := fs.open(path[..n + 1]).error;
      if e == NotFound || e == NotADirectory || e == PermissionDenied
      then
        KeyOf(fs, path).Ok? ==>
          && KeyOf(fs, path).value.unresolvedTail == path[n..] && KeyOf(fs, path).value.targetDirectory == None
          && KeyOf(fs, path).value.resolvedParent == if n == 0 then fs.root else fs.open(path[..n]).value
      else KeyOf(fs, path) == Err(e)
  {
    var parents := path[..|path| - 1];
    assert parents[..n + 1] == path[..n + 1] && parents[..n] == path[..n];
    forall i | 0 < i <= n ensures fs.open(parents[..i]).Ok? {
      assert parents[..i] == path[..i];
    }
    FirstFailureDecides(fs, parents, n, Prefix(fs.root, 0));
  }

  lemma KeyIsWellResolved(fs: FileSystem, path: Path, prefix: Prefix)
    requires path != [] && prefix.length < |path| && KeyFrom(fs, path, prefix).Ok?
    ensures WellResolved(fs.root, KeyFrom(fs, path, prefix).value)
  {
    AncestryIsChain(fs, prefix.directory, MAX_DIRECTORY_ANCESTORS);
  }

  /** `resolved_path_key_blocking`: under left-to-right resolution the key of the
      path; in any case one anchored at the root, split at a prefix that opens. */
  method ResolvePathKey(fs: FileSystem, path: Path) returns (r: Result<ResolvedPathKey>)
    ensures path == [] ==> r.Err?
    ensures path != [] && LeftToRight(fs, path[..|path| - 1]) ==> r == KeyOf(fs, path)
    ensures r.Ok? ==> WellResolved(fs.root, r.value) && exists prefix: Prefix ::
      prefix.length < |path| && Opens(fs, path[..|path| - 1], prefix) && r == KeyFrom(fs, path, prefix)
  {
    if path == [] {
      return Err(NoEntryKey);
    }
    var last := |path| - 1;
    var prefix, probes := DeepestParentPrefix(fs, path[..last]);
    if prefix.Err? {
      return Err(prefix.error);
    }
    var ancestry := DirectoryAncestry(fs, prefix.value.directory);
    if ancestry.Err? {
      return Err(ancestry.error);
    }
    var target: Option<FileIdentity> := None;
    if prefix.value.length == last {
      var found := fs.entry(prefix.value.directory, path[last]);
      if found.Err? {
        return Err(found.error);
      }
      target := found.value;
    }
    var chain := ancestry.value;
    r := Ok(ResolvedPathKey(chain[|chain| - 1], path[prefix.value.length..], chain, target));
    assert r == KeyFrom(fs, path, prefix.value);
    KeyIsWellResolved(fs, path, prefix.value);
  }
}
