/**
 Admission against durable state: the paged scan of persisted upload and purge
 paths, with the sources of a request resolved once and cached.
 */
module StatePathScan {
  import opened Basics
  import opened PathKeys

  datatype Relation = SymmetricConflict | StrictDescendant

  /** A persisted path, by its stored spelling. */
  datatype StatePath = StatePath(stored: nat, allowsExactReplacement: bool)

  datatype Candidate = Candidate(key: LeaseKey, allowsExactReplacement: bool)

  /** What resolution answers at one moment: `None` is a failure. */
  datatype Resolver = Resolver(lexical: nat -> Option<Path>, key: Path -> Option<ResolvedPathKey>)

  /** Whether one source is blocked by one durable path. */
  predicate Blocks(relation: Relation, source: LeaseKey, c: Candidate) {
    match relation
    case SymmetricConflict => PathKeysConflict(source, c.key)
    case StrictDescendant =>
      if PathsIdentifySameEntry(source, c.key) then !c.allowsExactReplacement else PathStrictlyContains(source, c.key)
  }

  /** The two relations written out on names, parents, tails and directories. A
      lexical prefix alone blocks, whatever the keys are. */
  lemma BlocksByNamesOrEntries(source: LeaseKey, candidate: LeaseKey, exact: bool)
    ensures
      var s, c := source.resolved, candidate.resolved;
      var sameParent := s.resolvedParent == c.resolvedParent;
      var above := s.targetDirectory.Some? && s.targetDirectory.value in c.ancestorDirectories;
      var below := c.targetDirectory.Some? && c.targetDirectory.value in s.ancestorDirectories;
      && (Blocks(SymmetricConflict, source, Candidate(candidate, exact)) <==>
            || source.lexical <= candidate.lexical || candidate.lexical <= source.lexical
            || (sameParent && (s.unresolvedTail <= c.unresolvedTail || c.unresolvedTail <= s.unresolvedTail))
            || above || below)
      && (Blocks(StrictDescendant, source, Candidate(candidate, exact)) <==>
            if source.lexical == candidate.lexical || (sameParent && s.unresolvedTail == c.unresolvedTail) then !exact
            else source.lexical <= candidate.lexical || (sameParent && s.unresolvedTail <= c.unresolvedTail) || above)
  {
    var s, c := source.resolved, candidate.resolved;
    if s.unresolvedTail <= c.unresolvedTail && |s.unresolvedTail| == |c.unresolvedTail| {
      assert s.unresolvedTail == c.unresolvedTail;
    }
  }

  // ----- the flat definition

  predicate Resolves(w: Resolver, path: Path) {
    w.key(path).Some?
  }

  predicate StateResolves(w: Resolver, p: StatePath) {
    w.lexical(p.stored).Some? && w.key(w.lexical(p.stored).value).Some?
  }

  function KeyOf(w: Resolver, path: Path): LeaseKey
    requires Resolves(w, path)
  {
    LeaseKey(path, w.key(path).value)
  }

  function CandidateOf(w: Resolver, p: StatePath): Candidate
    requires StateResolves(w, p)
  {
    Candidate(KeyOf(w, w.lexical(p.stored).value), p.allowsExactReplacement)
  }

  /** One durable path stands in the way: it cannot be resolved, or it blocks a source. */
  ghost predicate PathBlocks(relation: Relation, sources: seq<LeaseKey>, w: Resolver, p: StatePath) {
    !StateResolves(w, p) || exists s :: s in sources && Blocks(relation, s, CandidateOf(w, p))
  }

  /** All durable paths at once, without pages or cache. */
  ghost predicate FlatScan(relation: Relation, sources: seq<Path>, w: Resolver, paths: seq<StatePath>) {
    && paths != []
    && ((exists s :: s in sources && !Resolves(w, s))
        || ((forall s :: s in sources ==> Resolves(w, s))
            && exists p :: p in paths && PathBlocks(relation, Keys(w, sources), w, p)))
  }

  ghost function Keys(w: Resolver, sources: seq<Path>): (keys: seq<LeaseKey>)
    requires forall s :: s in sources ==> Resolves(w, s)
    ensures |keys| == |sources| && forall i :: 0 <= i < |sources| ==> keys[i] == KeyOf(w, sources[i])
  {
    seq(|sources|, i requires 0 <= i < |sources| => KeyOf(w, sources[i]))
  }

  // ----- the paged scan, page by page

  /** The cached source keys before a page, and whether the page blocks. */
  datatype PageResult = PageResult(cache: Option<seq<LeaseKey>>, blocked: bool)

  ghost function ScanPage(
      relation: Relation, sources: seq<Path>, cache: Option<seq<LeaseKey>>, w: Resolver, page: seq<StatePath>)
    : PageResult
  {
    if page == [] then PageResult(cache, false)
    else if (exists p :: p in page && !StateResolves(w, p))
      || (cache.None? && exists s :: s in sources && !Resolves(w, s)) then
      PageResult(cache, true)
    else
      var keys := if cache.Some? then cache.value else Keys(w, sources);
      PageResult(Some(keys), exists p :: p in page && PathBlocks(relation, keys, w, p))
  }

  class StatePathScanner {
    const relation: Relation
    const sources: seq<Path>
    var resolvedSources: Option<seq<LeaseKey>>

    constructor (relation: Relation, sources: seq<Path>)
      ensures this.relation == relation && this.sources == sources && resolvedSources.None?
    {
      this.relation, this.sources, this.resolvedSources := relation, sources, None;
    }

    /** `page_conflicts`. A directional scan is only made for a single source. */
    method PageConflicts(page: seq<StatePath>, w: Resolver) returns (blocked: bool)
      requires relation.StrictDescendant? ==> |sources| == 1
      requires resolvedSources.Some? ==> |resolvedSources.value| == |sources|
      modifies this`resolvedSources
      ensures ScanPage(relation, sources, old(resolvedSources), w, page) == PageResult(resolvedSources, blocked)
      ensures resolvedSources.Some? ==> |resolvedSources.value| == |sources|
    {
      if page == [] {
        return false;
      }
      var lexicals, failed := LexicalPaths(page, w);
      if failed {
        return true;
      }
      var keys: seq<LeaseKey> := [];
      if resolvedSources.None? {
        keys, failed := ResolveAll(sources, w);
        if failed {
          return true;
        }
      }
      var candidates: seq<LeaseKey>;
      candidates, failed := ResolveAll(lexicals, w);
      if failed {
        assert exists p :: p in page && !StateResolves(w, p) by {
          var i :| 0 <= i < |lexicals| && !Resolves(w, lexicals[i]);
          assert page[i] in page && !StateResolves(w, page[i]);
        }
        return true;
      }
      assert forall i :: 0 <= i < |page| ==> Resolves(w, lexicals[i]) && StateResolves(w, page[i]);
      if resolvedSources.None? {
        assert keys == Keys(w, sources);
        resolvedSources := Some(keys);
      }
      keys := resolvedSources.value;
      blocked := AnyBlocks(page, candidates, keys, w);
    }

    method AnyBlocks(page: seq<StatePath>, candidates: seq<LeaseKey>, keys: seq<LeaseKey>, w: Resolver)
      returns (blocked: bool)
      requires |candidates| == |page| && (relation.StrictDescendant? ==> |keys| == 1)
      requires forall i :: 0 <= i < |page| ==> StateResolves(w, page[i]) && candidates[i] == CandidateOf(w, page[i]).key
      ensures blocked <==> exists p :: p in page && PathBlocks(relation, keys, w, p)
    {
      blocked := false;
      var i := 0;
      while i < |page|
        invariant 0 <= i <= |page|
        invariant !blocked && forall k :: 0 <= k < i ==> !PathBlocks(relation, keys, w, page[k])
      {
        var j := 0;
        while j < |keys|
          invariant 0 <= j <= |keys|
          invariant !blocked && forall k :: 0 <= k < j ==> !Blocks(relation, keys[k], CandidateOf(w, page[i]))
        {
          if Blocks(relation, keys[j], Candidate(candidates[i], page[i].allowsExactReplacement)) {
            assert keys[j] in keys && PathBlocks(relation, keys, w, page[i]);
            return true;
          }
          j := j + 1;
        }
        i := i + 1;
      }
    }
  }

  method LexicalPaths(page: seq<StatePath>, w: Resolver) returns (lexicals: seq<Path>, failed: bool)
    ensures failed ==> exists p :: p in page && !StateResolves(w, p)
    ensures !failed ==> |lexicals| == |page|
    ensures !failed ==> forall i :: 0 <= i < |page| ==> w.lexical(page[i].stored) == Some(lexicals[i])
  {
    lexicals, failed := [], false;
    for i := 0 to |page|
      invariant |lexicals| == i && forall k :: 0 <= k < i ==> w.lexical(page[k].stored) == Some(lexicals[k])
    {
      var lexical := w.lexical(page[i].stored);
      if lexical.None? {
        assert page[i] in page && !StateResolves(w, page[i]);
        return [], true;
      }
      lexicals := lexicals + [lexical.value];
    }
  }

  /** One blocking batch: all keys or none. */
  method ResolveAll(paths: seq<Path>, w: Resolver) returns (keys: seq<LeaseKey>, failed: bool)
    ensures failed <==> exists i :: 0 <= i < |paths| && !Resolves(w, paths[i])
    ensures !failed ==> |keys| == |paths| && forall i :: 0 <= i < |paths| ==>
      Resolves(w, paths[i]) && keys[i] == KeyOf(w, paths[i])
  {
    keys, failed := [], false;
    for i := 0 to |paths|
      invariant |keys| == i && forall k :: 0 <= k < i ==> Resolves(w, paths[k]) && keys[k] == KeyOf(w, paths[k])
    {
      if w.key(paths[i]).None? {
        return [], true;
      }
      keys := keys + [KeyOf(w, paths[i])];
    }
  }

  // ----- the paging loop

  datatype Answer = Admit | Reject | StoreError

  /** What the store and the resolver answer for one page. */
  datatype PageReply = PageReply(page: Option<seq<StatePath>>, resolver: Resolver)

  ghost function ScanPages(
      relation: Relation, sources: seq<Path>, cache: Option<seq<LeaseKey>>, replies: seq<PageReply>): Answer
    decreases |replies|
  {
    if replies == [] then Admit
    else if replies[0].page.None? then StoreError
    else
      var first := ScanPage(relation, sources, cache, replies[0].resolver, replies[0].page.value);
      if first.blocked then Reject else ScanPages(relation, sources, first.cache, replies[1..])
  }

  /** `has_persisted_path_conflict` and `has_persisted_path_descendant`. */
  method HasPersistedObstacle(relation: Relation, sources: seq<Path>, replies: seq<PageReply>) returns (answer: Answer)
    requires replies != [] && (relation.StrictDescendant? ==> |sources| == 1)
    ensures answer == ScanPages(relation, sources, None, replies)
  {
    var scanner := new StatePathScanner(relation, sources);
    var after := 0;
    while after < |replies|
      invariant 0 <= after <= |replies| && fresh(scanner) && scanner.relation == relation && scanner.sources == sources
      invariant scanner.resolvedSources.Some? ==> |scanner.resolvedSources.value| == |sources|
      invariant ScanPages(relation, sources, None, replies) ==
        ScanPages(relation, sources, scanner.resolvedSources, replies[after..])
    {
      ghost var rest := replies[after..];
      assert rest[0] == replies[after] && rest[1..] == replies[after + 1..];
      if replies[after].page.None? {
        return StoreError;
      }
      var blocked := scanner.PageConflicts(replies[after].page.value, replies[after].resolver);
      if blocked {
        return Reject;
      }
      after := after + 1;
    }
    answer := Admit;
  }

  // ----- pages do not matter

  ghost function Pages(w: Resolver, pages: seq<seq<StatePath>>): seq<PageReply> {
    seq(|pages|, i requires 0 <= i < |pages| => PageReply(Some(pages[i]), w))
  }

  function Flatten(pages: seq<seq<StatePath>>): seq<StatePath> {
    if pages == [] then [] else pages[0] + Flatten(pages[1..])
  }

  lemma CachedPage(relation: Relation, sources: seq<Path>, keys: seq<LeaseKey>, w: Resolver, page: seq<StatePath>)
    ensures ScanPage(relation, sources, Some(keys), w, page).blocked <==>
      exists p :: p in page && PathBlocks(relation, keys, w, p)
    ensures !ScanPage(relation, sources, Some(keys), w, page).blocked ==>
      ScanPage(relation, sources, Some(keys), w, page).cache == Some(keys)
  {
    if p :| p in page && !StateResolves(w, p) {
      assert PathBlocks(relation, keys, w, p);
    }
  }

  lemma {:induction false} CachedScanIsFlat(
      relation: Relation, sources: seq<Path>, w: Resolver, pages: seq<seq<StatePath>>)
    requires forall s :: s in sources ==> Resolves(w, s)
    ensures var answer := ScanPages(relation, sources, Some(Keys(w, sources)), Pages(w, pages));
      && answer != StoreError
      && (answer == Reject <==> exists p :: p in Flatten(pages) && PathBlocks(relation, Keys(w, sources), w, p))
  {
    if pages != [] {
      var replies, keys := Pages(w, pages), Keys(w, sources);
      assert replies[1..] == Pages(w, pages[1..]);
      CachedScanIsFlat(relation, sources, w, pages[1..]);
      CachedPage(relation, sources, keys, w, pages[0]);
      assert forall p :: p in Flatten(pages) <==> p in pages[0] || p in Flatten(pages[1..]);
    }
  }

  /** However the durable paths are split into pages, the scan rejects exactly
      when the flat one does. */
  lemma {:induction false} PagedScanIsFlat(
      relation: Relation, sources: seq<Path>, w: Resolver, pages: seq<seq<StatePath>>)
    ensures var answer := ScanPages(relation, sources, None, Pages(w, pages));
      answer != StoreError && (answer == Reject <==> FlatScan(relation, sources, w, Flatten(pages)))
  {
    if pages != [] {
      var replies := Pages(w, pages);
      assert replies[1..] == Pages(w, pages[1..]);
      if pages[0] == [] {
        assert Flatten(pages) == Flatten(pages[1..]);
        PagedScanIsFlat(relation, sources, w, pages[1..]);
      } else {
        FirstPage(relation, sources, w, pages);
      }
    }
  }

  lemma FirstPage(relation: Relation, sources: seq<Path>, w: Resolver, pages: seq<seq<StatePath>>)
    requires pages != [] && pages[0] != []
    ensures var answer := ScanPages(relation, sources, None, Pages(w, pages));
      answer != StoreError && (answer == Reject <==> FlatScan(relation, sources, w, Flatten(pages)))
  {
    var replies := Pages(w, pages);
    assert replies[0] == PageReply(Some(pages[0]), w) && replies[1..] == Pages(w, pages[1..]);
    assert Flatten(pages)[0] == pages[0][0];
    if forall s :: s in sources ==> Resolves(w, s) {
      var keys := Keys(w, sources);
      CachedScanIsFlat(relation, sources, w, pages);
      assert ScanPage(relation, sources, None, w, pages[0]).blocked ==
        ScanPage(relation, sources, Some(keys), w, pages[0]).blocked;
    } else {
      assert ScanPage(relation, sources, None, w, pages[0]).blocked;
    }
  }

  // ----- failing closed

  /** For the symmetric relation, stopping at a failed resolution is what giving
      the failed path the conservative root key would have decided. */
  lemma FailureMeansConflict(root: FileIdentity, source: LeaseKey, candidate: LeaseKey, exact: bool)
    requires source.resolved == ConservativePathKey(root) || candidate.resolved == ConservativePathKey(root)
    requires source.resolved == ConservativePathKey(root) || WellResolved(root, source.resolved)
    requires candidate.resolved == ConservativePathKey(root) || WellResolved(root, candidate.resolved)
    ensures Blocks(SymmetricConflict, source, Candidate(candidate, exact))
  {
    if source.resolved == ConservativePathKey(root) {
      ConservativeKeyConflictsWithEveryResolvedKey(root, source.lexical, candidate);
    } else {
      ConservativeKeyConflictsWithEveryResolvedKey(root, candidate.lexical, source);
    }
  }

  /** For the directional relation the root key on either side would block only
      in these cases, so stopping is stricter. */
  lemma FailureUnderTheDirectionalRelation(root: FileIdentity, source: LeaseKey, candidate: LeaseKey, exact: bool)
    requires source.resolved == ConservativePathKey(root) || candidate.resolved == ConservativePathKey(root)
    requires source.resolved == ConservativePathKey(root) || WellResolved(root, source.resolved)
    requires candidate.resolved == ConservativePathKey(root) || WellResolved(root, candidate.resolved)
    ensures Blocks(StrictDescendant, source, Candidate(candidate, exact)) <==>
      if source.resolved == ConservativePathKey(root) then
        !exact || (source.lexical != candidate.lexical && candidate.resolved != source.resolved)
      else if source.lexical == candidate.lexical then !exact
      else StartsWith(candidate.lexical, source.lexical) || source.resolved.targetDirectory == Some(root)
  {
    var key := ConservativePathKey(root);
    if source.resolved == key {
      ConservativeKeyConflictsWithEveryResolvedKey(root, source.lexical, candidate);
    } else {
      assert source.resolved.unresolvedTail != key.unresolvedTail;
      assert TargetContains(source.resolved, key) <==> source.resolved.targetDirectory == Some(root);
    }
  }

  /** What a resolver that fails on some paths would give with the root key in place of a failure. */
  function Substituted(root: FileIdentity, w: Resolver, path: Path): LeaseKey {
    LeaseKey(path, if Resolves(w, path) then w.key(path).value else ConservativePathKey(root))
  }

  /** One source, one durable path: the scan stops and rejects, the root key would not block. */
  ghost predicate StoppingIsStricter(root: FileIdentity, source: Path, p: StatePath, w: Resolver) {
    && w.lexical(p.stored).Some?
    && ScanPages(StrictDescendant, [source], None, [PageReply(Some([p]), w)]) == Reject
    && !Blocks(StrictDescendant, Substituted(root, w, source),
               Candidate(Substituted(root, w, w.lexical(p.stored).value), p.allowsExactReplacement))
  }

  /** One failing input: an unrelated path that does not resolve. */
  lemma FailedCandidateStopsNeedlessly(root: FileIdentity) returns (source: Path, p: StatePath, w: Resolver)
    ensures Resolves(w, source) && WellResolved(root, w.key(source).value) && StoppingIsStricter(root, source, p, w)
  {
    var key := ResolvedPathKey(root, ["a"], [root], None);
    source, p := ["a"], StatePath(0, true);
    w := Resolver(_ => Some(["b"]), path => if path == ["a"] then Some(key) else None);
    assert "a"[0] != "b"[0];
    assert ["a"][0] != ["b"][0];
    FailureUnderTheDirectionalRelation(root, LeaseKey(["a"], key), LeaseKey(["b"], ConservativePathKey(root)), true);
    OnePage(source, p, w);
  }

  /** Another: the replaced path itself, when neither side resolves. */
  lemma FailedSourceStopsNeedlessly(root: FileIdentity) returns (source: Path, p: StatePath, w: Resolver)
    ensures !Resolves(w, source) && StoppingIsStricter(root, source, p, w)
  {
    source, p := ["a"], StatePath(0, true);
    w := Resolver(_ => Some(["a"]), _ => None);
    var key := LeaseKey(["a"], ConservativePathKey(root));
    FailureUnderTheDirectionalRelation(root, key, key, true);
    OnePage(source, p, w);
  }

  lemma OnePage(source: Path, p: StatePath, w: Resolver)
    requires !Resolves(w, source) || !StateResolves(w, p)
    ensures ScanPages(StrictDescendant, [source], None, [PageReply(Some([p]), w)]) == Reject
  {
    assert source in [source] && p in [p];
  }
}
