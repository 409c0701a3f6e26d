/**
 A run in which a change leaves its lease: `a` is a link to `b`, which is a link
 to a directory. A lease on `b` neither names the links that lead to `b` nor the
 directory behind it, so it does not cover `a/x`, whose resolution passes `b`.
 */
module LinkChain {
  import opened Basics
  import opened PathKeys
  import opened PathCoordinator
  import opened PathResolution
  import opened PathLeaseProtocol
  import opened PathLeaseSchedules
  import opened PathLeaseMoves
  import opened LinkedTree

  /** Three directories: the root, and `d` and `e` in it. */
  datatype World = World(root: FileIdentity, d: FileIdentity, e: FileIdentity)

  predicate Distinct(o: World) {
    o.root != o.d && o.root != o.e && o.d != o.e
  }

  function ChainTree(o: World, end: string): Tree {
    Tree(o.root,
         map[Slot(o.root, "a") := Link(["b"]), Slot(o.root, "b") := Link([end]),
             Slot(o.root, "d") := Directory(o.d), Slot(o.root, "e") := Directory(o.e)],
         map[o.d := o.root, o.e := o.root])
  }

  function Below(o: World, directory: FileIdentity): ResolvedPathKey {
    ResolvedPathKey(directory, ["x"], [o.root, directory], None)
  }

  lemma Names()
    ensures "a" != "b" && "a" != "d" && "a" != "e" && "b" != "d" && "b" != "e" && "d" != "e"
    ensures NormalName("a") && NormalName("b") && NormalName("d") && NormalName("e") && NormalName("x")
  {
    assert "a"[0] == 'a' && "b"[0] == 'b' && "d"[0] == 'd' && "e"[0] == 'e' && "x"[0] == 'x';
    assert "."[0] == '.' && ".."[0] == '.';
  }

  predicate EndsIn(o: World, end: string, directory: FileIdentity) {
    Distinct(o) && ((end == "d" && directory == o.d) || (end == "e" && directory == o.e))
  }

  lemma ChainEntries(o: World, end: string, directory: FileIdentity)
    requires EndsIn(o, end, directory)
    ensures
      var t := ChainTree(o, end);
      && t.entries[Slot(o.root, "a")] == Link(["b"]) && t.entries[Slot(o.root, "b")] == Link([end])
      && DirectoryAt(t, Slot(o.root, end)) == Some(directory) && DirectoryAt(t, Slot(o.root, "e")) == Some(o.e)
      && DirectoryAt(t, Slot(directory, "x")) == None && DirectoryAt(t, Slot(o.e, "x")) == None
      && NormalName(end)
  {
    Names();
  }

  lemma ChainWalks(o: World, end: string, directory: FileIdentity)
    requires EndsIn(o, end, directory)
    ensures
      var t := ChainTree(o, end);
      && FromRoot(t, ["a"]).end == Ok(directory) && Slot(o.root, "b") in FromRoot(t, ["a"]).passed
      && FromRoot(t, ["e"]).end == Ok(o.e)
  {
    Names();
    ChainEntries(o, end, directory);
    var t := ChainTree(o, end);
    FollowDirectory(t, o.root, "e", MAX_LINKS);
    FollowDirectory(t, o.root, end, MAX_LINKS - 2);
    FollowLink(t, o.root, "b", [end], MAX_LINKS - 1);
    FollowLink(t, o.root, "a", ["b"], MAX_LINKS);
  }

  lemma KeyBelow(t: Tree, o: World, name: string, directory: FileIdentity)
    requires t.root == o.root && directory != o.root && directory in t.parents && t.parents[directory] == o.root
    requires FromRoot(t, [name]).end == Ok(directory) && DirectoryAt(t, Slot(directory, "x")) == None
    requires NormalName(name)
    ensures Meaning(t, [name, "x"]) == Ok(Below(o, directory))
  {
    Names();
    assert [name, "x"][..1] == [name];
    assert Climbs(FileSystemOf(t), o.root, directory);
    OpenedKey(t, [name, "x"], directory, [o.root, directory]);
  }

  /** The key of `a/x` is that of the directory at the end of the chain. */
  lemma ChainKeys(o: World, end: string, directory: FileIdentity)
    requires EndsIn(o, end, directory)
    ensures
      var t := ChainTree(o, end);
      && Meaning(t, ["a", "x"]) == Ok(Below(o, directory))
      && Meaning(t, ["e", "x"]) == Ok(Below(o, o.e))
  {
    Names();
    ChainEntries(o, end, directory);
    ChainWalks(o, end, directory);
    KeyBelow(ChainTree(o, end), o, "a", directory);
    KeyBelow(ChainTree(o, end), o, "e", o.e);
  }

  lemma LinkKey(o: World, end: string, directory: FileIdentity)
    requires EndsIn(o, end, directory)
    ensures Meaning(ChainTree(o, end), ["b"]) == Ok(ResolvedPathKey(o.root, ["b"], [o.root], None))
  {
    Names();
    ChainEntries(o, end, directory);
    assert ["b"][..0] == [];
    OpenedKey(ChainTree(o, end), ["b"], o.root, [o.root]);
  }

  // ----- the run

  ghost function T0(o: World, fs: Meanings): State {
    State(o.root, Initial(), map[], None, fs, {}, false)
  }

  function Holder(lease: nat, seen: nat, key: LeaseKey): Client {
    Client([key.lexical], Holding(lease), seen, 0, Some(CachedKeys(0, [key])))
  }

  function A(o: World): LeaseKey {
    LeaseKey(["a", "x"], Below(o, o.d))
  }

  function E(o: World): LeaseKey {
    LeaseKey(["e", "x"], Below(o, o.e))
  }

  function B(o: World): LeaseKey {
    LeaseKey(["b"], ResolvedPathKey(o.root, ["b"], [o.root], None))
  }

  ghost function T1(o: World, fs: Meanings): State {
    With(T0(o, fs), 1, Holder(1, 0, A(o)), Shared(map[1 := [A(o)]], map[], 2, 2, 0, 1))
  }

  ghost function T2(o: World, fs: Meanings): State {
    With(T1(o, fs), 2, Holder(2, 1, E(o)), Shared(map[1 := [A(o)], 2 := [E(o)]], map[], 3, 3, 0, 2))
  }

  ghost function T3(o: World, fs: Meanings): State {
    With(T2(o, fs), 3, Holder(3, 2, B(o)), Shared(map[1 := [A(o)], 2 := [E(o)], 3 := [B(o)]], map[], 4, 4, 0, 3))
  }

  ghost function T4(o: World, fs: Meanings, fs': Meanings): State {
    T3(o, fs).(fs := fs', mutated := {3}, strayed := true)
  }

  lemma NoConflicts(o: World)
    requires Distinct(o)
    ensures !PathsConflict([A(o)], [E(o)]) && !PathsConflict([A(o)], [B(o)]) && !PathsConflict([E(o)], [B(o)])
  {
    Names();
    assert A(o).lexical[0] == "a" && E(o).lexical[0] == "e" && B(o).lexical[0] == "b";
    assert !PathKeysConflict(A(o), E(o)) && !PathKeysConflict(A(o), B(o)) && !PathKeysConflict(E(o), B(o));
  }

  ghost predicate Resolves(o: World, fs: Meanings) {
    && ["a", "x"] in fs && ["e", "x"] in fs && ["b"] in fs
    && A(o) == LeaseKey(["a", "x"], fs[["a", "x"]])
    && E(o) == LeaseKey(["e", "x"], fs[["e", "x"]])
    && B(o) == LeaseKey(["b"], fs[["b"]])
  }

  lemma Stage1(o: World, fs: Meanings)
    requires Distinct(o) && Resolves(o, fs)
    ensures Reaches(T0(o, fs), T1(o, fs))
  {
    ArriveAndHold(T0(o, fs), ["a", "x"]);
  }

  lemma Stage2(o: World, fs: Meanings)
    requires Distinct(o) && Resolves(o, fs)
    ensures Reaches(T1(o, fs), T2(o, fs))
  {
    NoConflicts(o);
    ArriveAndHold(T1(o, fs), ["e", "x"]);
  }

  lemma Stage3(o: World, fs: Meanings)
    requires Distinct(o) && Resolves(o, fs)
    ensures Reaches(T2(o, fs), T3(o, fs))
  {
    NoConflicts(o);
    ArriveAndHold(T2(o, fs), ["b"]);
  }

  lemma Stage4(o: World, fs: Meanings, fs': Meanings)
    requires WellFormedFs(o.root, fs') && !MutationWithinLease([B(o)], fs, fs')
    ensures Reaches(T3(o, fs), T4(o, fs, fs'))
  {
    var s := T3(o, fs);
    assert s.clients[3].phase == Holding(3) && s.shared.leases[3] == [B(o)] && {} + {3} == {3};
    ChangeMeanings(s, 3, fs');
  }

  lemma AllStages(o: World, fs: Meanings, fs': Meanings) returns (states: seq<State>, actions: seq<Action>)
    requires Distinct(o) && Resolves(o, fs) && WellFormedFs(o.root, fs) && WellFormedFs(o.root, fs')
    requires !MutationWithinLease([B(o)], fs, fs')
    ensures IsRun(states, actions) && states[|actions|] == T4(o, fs, fs')
  {
    Stage1(o, fs);
    Stage2(o, fs);
    Stage3(o, fs);
    Stage4(o, fs, fs');
    Three(T0(o, fs), T1(o, fs), T2(o, fs), T3(o, fs));
    Then(T0(o, fs), T3(o, fs), T4(o, fs, fs'));
    actions :| RunsTo(T0(o, fs), actions, T4(o, fs, fs'));
    states := ScheduleIsRun(T0(o, fs), actions, T4(o, fs, fs'));
  }

  lemma RedirectIsOneChange(o: World)
    ensures SameExcept(ChainTree(o, "d"), ChainTree(o, "e"), Slot(o.root, "b"))
  {
    Names();
  }

  lemma AIsUncovered(o: World)
    requires Distinct(o)
    ensures Meaning(ChainTree(o, "d"), ["a", "x"]) == Ok(A(o).resolved)
    ensures !Covered([B(o)], ChainTree(o, "d"), ["a", "x"])
  {
    ChainKeys(o, "d", o.d);
    NoConflicts(o);
    PathsConflictIsSymmetric([A(o)], [B(o)]);
  }

  /** Pointing `b` at another directory gives `a/x` another key, which the lease on `b` does not cover. */
  lemma RedirectStrays(o: World)
    requires Distinct(o)
    ensures !MutationWithinLease([B(o)], MeaningsOf(ChainTree(o, "d")), MeaningsOf(ChainTree(o, "e")))
  {
    ChainKeys(o, "d", o.d);
    ChainKeys(o, "e", o.e);
    ChangeWithinLeaseByPath([B(o)], ChainTree(o, "d"), ChainTree(o, "e"));
    AIsUncovered(o);
  }

  lemma LinkIsPassed(o: World)
    requires Distinct(o)
    ensures EndsAt(ChainTree(o, "d"), ["b"], Slot(o.root, "b"))
    ensures GoesThrough(ChainTree(o, "d"), ["a", "x"], Slot(o.root, "b"))
  {
    ChainKeys(o, "d", o.d);
    LinkKey(o, "d", o.d);
    ChainWalks(o, "d", o.d);
    assert ["a", "x"][..1] == ["a"];
  }

  /** Removing `b` strays as well: `a/x` is resolved by way of it. */
  lemma RemovalStrays(o: World, t: Tree)
    requires Distinct(o) && SameExcept(ChainTree(o, "d"), t, Slot(o.root, "b")) && Closed(t, Slot(o.root, "b"))
    ensures !ChangeWithinLease([B(o)], ChainTree(o, "d"), t)
  {
    LinkIsPassed(o);
    BlockingStaysWithinLease([B(o)], ChainTree(o, "d"), t, Slot(o.root, "b"));
    AIsUncovered(o);
  }

  lemma FirstMeanings(o: World)
    requires Distinct(o)
    ensures Resolves(o, MeaningsOf(ChainTree(o, "d")))
  {
    ChainKeys(o, "d", o.d);
    LinkKey(o, "d", o.d);
  }

  lemma LastMeanings(o: World)
    requires Distinct(o)
    ensures
      var fs := MeaningsOf(ChainTree(o, "e"));
      && ["a", "x"] in fs && ["e", "x"] in fs
      && fs[["a", "x"]] == Below(o, o.e) && fs[["e", "x"]] == Below(o, o.e)
  {
    ChainKeys(o, "e", o.e);
  }

  /** Semantic exclusion fails once a change has strayed: the holders of `a/x` and
      `e/x` have changed nothing, and their paths now mean the same entry. */
  lemma LinkChainBreaksExclusion(o: World) returns (states: seq<State>, actions: seq<Action>)
    requires Distinct(o)
    ensures IsRun(states, actions)
    ensures
      var s := states[|actions|];
      && s.strayed && s.mutated == {3}
      && s.shared.leases == map[1 := [A(o)], 2 := [E(o)], 3 := [B(o)]]
      && ["a", "x"] in s.fs && ["e", "x"] in s.fs && s.fs[["a", "x"]] == s.fs[["e", "x"]] != A(o).resolved
  {
    var fs, fs' := MeaningsOf(ChainTree(o, "d")), MeaningsOf(ChainTree(o, "e"));
    FirstMeanings(o);
    LastMeanings(o);
    RedirectStrays(o);
    MeaningsAreWellFormed(ChainTree(o, "d"));
    MeaningsAreWellFormed(ChainTree(o, "e"));
    states, actions := AllStages(o, fs, fs');
  }
}
