/**
 A run in which the request numbered 6 waits although it conflicts with no held
 lease and with no earlier waiter, and every queued request is parked with no
 notification outstanding.

 Request 5 blocks 6 with a resolved key, then falls back to `Resolving`
 without a notification, finds its epoch stale, and parks behind request 4.
 Requests 1, 2 and 3 are the lease holders of the scenario.
 */
module PathLeaseUnneededWait {
  import opened Basics
  import opened PathKeys
  import opened PathCoordinator
  import opened PathLeaseProtocol
  import opened PathLeaseSchedules
  import opened PathLeaseMoves

  function Key(root: FileIdentity, tail: seq<string>): ResolvedPathKey {
    ResolvedPathKey(root, tail, [root], None)
  }

  function Named(root: FileIdentity, name: string, tail: seq<string>): LeaseKey {
    LeaseKey([name], Key(root, tail))
  }

  ghost function FirstFs(root: FileIdentity): Meanings {
    imap[["h"] := Key(root, ["1"]), ["r"] := Key(root, ["3", "r"]), ["s"] := Key(root, ["9"]),
         ["f"] := Key(root, ["1", "f"]), ["e"] := Key(root, ["3"]), ["w"] := Key(root, ["3", "w"])]
  }

  ghost function SecondFs(root: FileIdentity): Meanings {
    FirstFs(root)[["e"] := Key(root, ["1", "f", "e"])]
  }

  function H(root: FileIdentity): LeaseKey {
    Named(root, "h", ["1"])
  }

  function R(root: FileIdentity): LeaseKey {
    Named(root, "r", ["3", "r"])
  }

  function S(root: FileIdentity): LeaseKey {
    Named(root, "s", ["9"])
  }

  function F(root: FileIdentity): LeaseKey {
    Named(root, "f", ["1", "f"])
  }

  function E1(root: FileIdentity): LeaseKey {
    Named(root, "e", ["3"])
  }

  function E2(root: FileIdentity): LeaseKey {
    Named(root, "e", ["1", "f", "e"])
  }

  function W(root: FileIdentity): LeaseKey {
    Named(root, "w", ["3", "w"])
  }

  // ----- the stages of the run, each by what it changes

  function C(name: string, phase: Phase, seen: nat, epoch: nat, cachedIn: nat, key: LeaseKey): Client {
    Client([[name]], phase, seen, epoch, Some(CachedKeys(cachedIn, [key])))
  }

  ghost function S0(root: FileIdentity): State {
    State(root, Initial(), map[], None, FirstFs(root), {}, false)
  }

  ghost function S1(root: FileIdentity): State {
    With(S0(root), 1, C("h", Holding(1), 0, 0, 0, H(root)), Shared(map[1 := [H(root)]], map[], 2, 2, 0, 1))
  }

  ghost function S2(root: FileIdentity): State {
    With(S1(root), 2, C("r", Holding(2), 1, 0, 0, R(root)),
      Shared(map[1 := [H(root)], 2 := [R(root)]], map[], 3, 3, 0, 2))
  }

  function ThreeLeases(root: FileIdentity): map<nat, seq<LeaseKey>> {
    map[1 := [H(root)], 2 := [R(root)], 3 := [S(root)]]
  }

  ghost function S3(root: FileIdentity): State {
    With(S2(root), 3, C("s", Holding(3), 2, 0, 0, S(root)), Shared(ThreeLeases(root), map[], 4, 4, 0, 3))
  }

  ghost function S4(root: FileIdentity): State {
    With(S3(root), 4, C("f", Parked, 3, 0, 0, F(root)),
      Shared(ThreeLeases(root), map[4 := Resolved([F(root)])], 4, 5, 0, 4))
  }

  function TwoWaiters(root: FileIdentity): map<nat, WaiterState> {
    map[4 := Resolved([F(root)]), 5 := Resolved([E1(root)])]
  }

  ghost function S5(root: FileIdentity): State {
    With(S4(root), 5, C("e", Parked, 4, 0, 0, E1(root)), Shared(ThreeLeases(root), TwoWaiters(root), 4, 6, 0, 5))
  }

  ghost function Redirected(root: FileIdentity): State {
    S5(root).(fs := SecondFs(root), mutated := {2})
  }

  ghost function S6(root: FileIdentity): State {
    With(Redirected(root), 2, C("r", Finished, 1, 0, 0, R(root)),
         Shared(map[1 := [H(root)], 3 := [S(root)]], TwoWaiters(root), 4, 6, 1, 6))
  }

  ghost function S7(root: FileIdentity): State {
    With(S6(root), 5, C("e", EpochRead, 6, 1, 0, E1(root)), S6(root).shared)
  }

  ghost function S8(root: FileIdentity): State {
    With(S7(root), 3, C("s", Finished, 2, 0, 0, S(root)), Shared(map[1 := [H(root)]], TwoWaiters(root), 4, 6, 2, 7))
  }

  ghost function S9(root: FileIdentity): State {
    With(S8(root), 4, C("f", Parked, 7, 2, 2, F(root)), Notify(S8(root).shared))
  }

  ghost function S10(root: FileIdentity): State {
    With(S9(root), 6, C("w", Parked, 8, 2, 2, W(root)),
         Shared(map[1 := [H(root)]], TwoWaiters(root)[6 := Resolved([W(root)])], 4, 7, 2, 9))
  }

  ghost function S11(root: FileIdentity): State {
    With(S10(root), 4, C("f", Parked, 9, 2, 2, F(root)), S10(root).shared)
  }

  ghost function S12(root: FileIdentity): State {
    With(S11(root), 6, C("w", Parked, 9, 2, 2, W(root)), S10(root).shared)
  }

  ghost function S13(root: FileIdentity): State {
    With(S12(root), 5, C("e", LoopTop, 6, 1, 1, E2(root)),
         MarkResolving(S10(root).shared, 5, [["e"]]))
  }

  ghost function S14(root: FileIdentity): State {
    With(S13(root), 5, C("e", Parked, 9, 2, 1, E2(root)), S13(root).shared)
  }

  // ----- which keys conflict

  lemma Apart(root: FileIdentity, m: string, t: seq<string>, n: string, u: seq<string>)
    requires m != n && t != [] && u != [] && t[0] != u[0]
    ensures !PathsConflict([Named(root, m, t)], [Named(root, n, u)])
  {
    var a, b := Named(root, m, t), Named(root, n, u);
    assert a.lexical[0] != b.lexical[0];
    assert !(t <= u) && !(u <= t);
    assert !PathKeysConflict(a, b);
  }

  lemma Overlap(root: FileIdentity, m: string, t: seq<string>, n: string, u: seq<string>)
    requires t <= u
    ensures PathsConflict([Named(root, m, t)], [Named(root, n, u)])
    ensures PathsConflict([Named(root, n, u)], [Named(root, m, t)])
  {
    var a, b := Named(root, m, t), Named(root, n, u);
    assert AnchoredTailIsPrefix(a.resolved, b.resolved);
    assert PathKeysConflict([a][0], [b][0]) && PathKeysConflict([b][0], [a][0]);
  }

  lemma Distinct()
    ensures "1" != "3" && "1" != "9" && "3" != "9"
  {
    assert "1"[0] == '1' && "3"[0] == '3' && "9"[0] == '9';
  }

  lemma HolderFacts(root: FileIdentity)
    ensures !PathsConflict([H(root)], [R(root)]) && !PathsConflict([H(root)], [S(root)])
    ensures !PathsConflict([R(root)], [S(root)])
  {
    Distinct();
    Apart(root, "h", ["1"], "r", ["3", "r"]);
    Apart(root, "h", ["1"], "s", ["9"]);
    Apart(root, "r", ["3", "r"], "s", ["9"]);
  }

  lemma QueueFacts(root: FileIdentity)
    ensures PathsConflict([H(root)], [F(root)]) && PathsConflict([R(root)], [E1(root)])
    ensures !PathsConflict([F(root)], [E1(root)]) && PathsConflict([E1(root)], [W(root)])
    ensures !PathsConflict([H(root)], [W(root)]) && !PathsConflict([F(root)], [W(root)])
    ensures PathsConflict([F(root)], [E2(root)])
  {
    Distinct();
    Overlap(root, "h", ["1"], "f", ["1", "f"]);
    Overlap(root, "e", ["3"], "r", ["3", "r"]);
    Apart(root, "f", ["1", "f"], "e", ["3"]);
    Overlap(root, "e", ["3"], "w", ["3", "w"]);
    Apart(root, "h", ["1"], "w", ["3", "w"]);
    Apart(root, "f", ["1", "f"], "w", ["3", "w"]);
    Overlap(root, "f", ["1", "f"], "e", ["1", "f", "e"]);
  }

  // ----- the run

  lemma Stage1(root: FileIdentity)
    ensures Reaches(S0(root), S1(root))
  {
    ArriveAndHold(S0(root), ["h"]);
  }

  lemma Stage2(root: FileIdentity)
    ensures Reaches(S1(root), S2(root))
  {
    HolderFacts(root);
    ArriveAndHold(S1(root), ["r"]);
  }

  lemma Stage3(root: FileIdentity)
    ensures Reaches(S2(root), S3(root))
  {
    HolderFacts(root);
    ArriveAndHold(S2(root), ["s"]);
  }

  lemma Stage4(root: FileIdentity)
    ensures Reaches(S3(root), S4(root))
  {
    QueueFacts(root);
    assert PathsConflict(ThreeLeases(root)[1], [F(root)]);
    ArriveAndPark(S3(root), ["f"]);
  }

  lemma Stage5(root: FileIdentity)
    ensures Reaches(S4(root), S5(root))
  {
    QueueFacts(root);
    assert PathsConflict(ThreeLeases(root)[2], [E1(root)]);
    assert Lexicals([F(root)]) == [["f"]];
    ArriveAndPark(S4(root), ["e"]);
  }

  /** Request 2 redirects the path of request 5, which its own lease covers. */
  lemma Redirect(root: FileIdentity)
    ensures Reaches(S5(root), Redirected(root))
  {
    RedirectIsCovered(root);
    var s := S5(root);
    assert s.clients[2].phase == Holding(2) && s.shared.leases[2] == [R(root)] && {} + {2} == {2};
    ChangeMeanings(s, 2, SecondFs(root));
  }

  lemma RedirectIsCovered(root: FileIdentity)
    ensures MutationWithinLease([R(root)], FirstFs(root), SecondFs(root)) && WellFormedFs(root, SecondFs(root))
  {
    QueueFacts(root);
    assert E1(root) == LeaseKey(["e"], FirstFs(root)[["e"]]);
  }

  lemma Stage6(root: FileIdentity)
    ensures Reaches(S5(root), S6(root))
  {
    Redirect(root);
    EndLease(Redirected(root), 2);
    assert ThreeLeases(root) - {2} == map[1 := [H(root)], 3 := [S(root)]];
    Then(S5(root), Redirected(root), S6(root));
  }

  /** Request 5 wakes and reads epoch 1. */
  lemma Stage7(root: FileIdentity)
    ensures Reaches(S6(root), S7(root))
  {
    WakeAndObserve(S6(root), 5);
  }

  lemma Stage8(root: FileIdentity)
    ensures Reaches(S7(root), S8(root))
  {
    EndLease(S7(root), 3);
    assert S7(root).shared.leases - {3} == map[1 := [H(root)]];
  }

  /** Request 4 resolves again in epoch 2 and is blocked by request 1 as before. */
  lemma Stage9(root: FileIdentity)
    ensures Reaches(S8(root), S9(root))
  {
    var s := S8(root);
    WakeAndObserve(s, 4);
    var t := Observed(s, 4);
    assert t.clients[4] == C("f", EpochRead, 7, 2, 0, F(root));
    Rekey(t, 4, ["f"]);
    var u, c := Rekeyed(t, 4, ["f"]), C("f", Attempting, 7, 2, 2, F(root));
    assert u.clients == s.clients[4 := c];
    assert u.shared == MarkResolving(s.shared, 4, [["f"]]);
    Stage9Blocked(root);
    TryOnce(s, 4, u.shared, c, u);
    Three(s, t, u, S9(root));
  }

  lemma Stage9Blocked(root: FileIdentity)
    ensures TryAcquire(MarkResolving(S8(root).shared, 4, [["f"]]), [F(root)], 2, 4) == (S9(root).shared, Blocked)
  {
    var shared := MarkResolving(S8(root).shared, 4, [["f"]]);
    QueueFacts(root);
    assert PathsConflict(shared.leases[1], [F(root)]);
    BlockedAttempt(shared, [F(root)], 4);
    assert shared.waiters[4 := Resolved([F(root)])] == TwoWaiters(root);
  }

  lemma Stage10(root: FileIdentity)
    ensures Reaches(S9(root), S10(root))
  {
    QueueFacts(root);
    assert WaiterConflicts(S9(root).shared.waiters[5], [W(root)]);
    assert S9(root).shared.waiters == TwoWaiters(root);
    NobodyHasW(root);
    ArriveAndPark(S9(root), ["w"]);
  }

  lemma NobodyHasW(root: FileIdentity)
    ensures NobodyIntersects(TwoWaiters(root), ["w"])
  {
    assert Lexicals([F(root)]) == [["f"]] && Lexicals([E1(root)]) == [["e"]];
    assert ["w"][0] != ["f"][0] && ["w"][0] != ["e"][0];
  }

  lemma Stage11(root: FileIdentity)
    ensures Reaches(S10(root), S11(root))
  {
    QueueFacts(root);
    assert PathsConflict(S10(root).shared.leases[1], [F(root)]);
    RetryAndPark(S10(root), 4);
  }

  lemma Stage12(root: FileIdentity)
    ensures Reaches(S11(root), S12(root))
  {
    QueueFacts(root);
    assert WaiterConflicts(S11(root).shared.waiters[5], [W(root)]);
    RetryAndPark(S11(root), 6);
  }

  /** Request 5 goes back to `Resolving` without a notification and finds its epoch stale. */
  lemma Stage13(root: FileIdentity)
    ensures Reaches(S12(root), S13(root))
  {
    QueueFacts(root);
    var s := S12(root);
    Rekey(s, 5, ["e"]);
    var t, c := Rekeyed(s, 5, ["e"]), C("e", Attempting, 6, 1, 1, E2(root));
    assert t == With(s, 5, c, S13(root).shared);
    TryOnce(s, 5, S13(root).shared, c, t);
    Then(s, t, S13(root));
  }

  /** It parks behind request 4, which its new key conflicts with. */
  lemma Stage14(root: FileIdentity)
    ensures Reaches(S13(root), S14(root))
  {
    var s := S13(root);
    Observe(s, 5);
    var t := Observed(s, 5);
    assert t.clients[5] == C("e", EpochRead, 9, 2, 1, E2(root));
    BehindRequest4(root);
    One(t, CheckCache(5), S14(root));
    Then(s, t, S14(root));
  }

  lemma BehindRequest4(root: FileIdentity)
    ensures !EligibleToResolve(S13(root).shared, 5, [["e"]], Some([E2(root)]))
  {
    QueueFacts(root);
    var shared := S13(root).shared;
    assert 4 in shared.waiters && WaiterConflicts(shared.waiters[4], [E2(root)]);
  }

  lemma FirstHalf(root: FileIdentity)
    ensures Reaches(S0(root), S7(root))
  {
    Stage1(root); Stage2(root); Stage3(root); Stage4(root); Stage5(root); Stage6(root); Stage7(root);
    Three(S0(root), S1(root), S2(root), S3(root));
    Three(S0(root), S3(root), S4(root), S5(root));
    Three(S0(root), S5(root), S6(root), S7(root));
  }

  lemma SecondHalf(root: FileIdentity)
    ensures Reaches(S7(root), S14(root))
  {
    Stage8(root); Stage9(root); Stage10(root); Stage11(root); Stage12(root); Stage13(root); Stage14(root);
    Three(S7(root), S8(root), S9(root), S10(root));
    Three(S7(root), S10(root), S11(root), S12(root));
    Three(S7(root), S12(root), S13(root), S14(root));
  }

  lemma FinalStateIsReachable(root: FileIdentity)
    ensures IsInitial(S0(root)) && Reaches(S0(root), S14(root))
  {
    assert WellFormedFs(root, FirstFs(root));
    FirstHalf(root);
    SecondHalf(root);
    Then(S0(root), S7(root), S14(root));
  }

  /** The stronger wake-up property fails: here request 6 has seen every change,
      nobody is running and nothing is in flight, yet no held lease and no
      earlier waiter conflicts with it. */
  lemma RequestWaitsForNothingItConflictsWith(root: FileIdentity) returns (states: seq<State>, actions: seq<Action>)
    ensures IsRun(states, actions)
    ensures var s := states[|actions|];
      && UpToDate(s, 6) && !NotificationInFlight(s)
      && (forall w :: w in s.shared.waiters ==> UpToDate(s, w))
      && !LeaseExcludes(s, s.clients[6]) && !EarlierExcludes(s, 6, s.clients[6])
  {
    FinalStateIsReachable(root);
    actions :| RunsTo(S0(root), actions, S14(root));
    states := ScheduleIsRun(S0(root), actions, S14(root));
    FinalClients(root);
    FinalConflicts(root);
  }

  lemma FinalClients(root: FileIdentity)
    ensures
      var s := S14(root);
      && UpToDate(s, 6) && !NotificationInFlight(s) && s.clients[6].cached == Some(CachedKeys(2, [W(root)]))
      && (forall w :: w in s.shared.waiters ==> UpToDate(s, w))
  {
    var s := S14(root);
    assert s.clients[4] == C("f", Parked, 9, 2, 2, F(root));
    assert s.clients[5] == C("e", Parked, 9, 2, 1, E2(root));
    assert s.clients[6] == C("w", Parked, 9, 2, 2, W(root));
  }

  lemma FinalConflicts(root: FileIdentity)
    ensures
      var shared := S14(root).shared;
      !HeldLeaseConflicts(shared.leases, [W(root)]) && !EarlierWaiterConflicts(shared.waiters, 6, [W(root)])
  {
    QueueFacts(root);
    var shared := S14(root).shared;
    assert !WaiterConflicts(shared.waiters[4], [W(root)]);
    assert !WaiterConflicts(shared.waiters[5], [W(root)]) by {
      assert Lexicals([W(root)]) == [["w"]];
      assert ["w"][0] != ["e"][0];
    }
  }
}
