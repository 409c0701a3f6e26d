/**
 Schedules of the path lease protocol: with no lease held the head of the
 queue can always finish.
 */
module PathLeaseSchedules {
  import opened Basics
  import opened PathCoordinator
  import opened PathLeaseProtocol

  ghost predicate RunsTo(s: State, actions: seq<Action>, t: State)
    decreases |actions|
  {
    if actions == [] then s == t
    else Enabled(s, actions[0]) && RunsTo(Apply(s, actions[0]), actions[1..], t)
  }

  lemma {:induction false} RunsToThen(s: State, first: seq<Action>, t: State, second: seq<Action>, u: State)
    requires RunsTo(s, first, t) && RunsTo(t, second, u)
    ensures RunsTo(s, first + second, u)
    decreases |first|
  {
    if first == [] {
      assert first + second == second;
    } else {
      RunsToThen(Apply(s, first[0]), first[1..], t, second, u);
      assert (first + second)[1..] == first[1..] + second;
    }
  }

  lemma RunsToAfter(s: State, a: Action, s': State, rest: seq<Action>, t: State)
    requires Next(s, a, s') && RunsTo(s', rest, t)
    ensures RunsTo(s, [a] + rest, t)
  {
    assert ([a] + rest)[1..] == rest;
  }

  /** Every schedule from an initial state is a run in the sense of `IsRun`. */
  lemma {:induction false} ScheduleIsRun(s: State, actions: seq<Action>, t: State) returns (states: seq<State>)
    requires IsInitial(s) && RunsTo(s, actions, t)
    ensures IsRun(states, actions) && states[|actions|] == t
  {
    states := States(s, actions, t);
  }

  lemma {:induction false} States(s: State, actions: seq<Action>, t: State) returns (states: seq<State>)
    requires RunsTo(s, actions, t)
    ensures |states| == |actions| + 1 && states[0] == s && states[|actions|] == t
    ensures forall i :: 0 <= i < |actions| ==> Next(states[i], actions[i], states[i + 1])
    decreases |actions|
  {
    if actions == [] {
      states := [s];
    } else {
      var rest := States(Apply(s, actions[0]), actions[1..], t);
      states := [s] + rest;
      forall i | 0 <= i < |actions|
        ensures Next(states[i], actions[i], states[i + 1])
      {
        if i > 0 {
          assert actions[i] == actions[1..][i - 1];
          assert states[i] == rest[i - 1] && states[i + 1] == rest[i];
        }
      }
    }
  }

  // ----- the head of the queue

  /** `w` heads the queue and nobody holds a lease. */
  ghost predicate HeadWithoutLeases(s: State, w: nat) {
    && w in s.shared.waiters && w in s.clients && Registered(s.clients[w].phase)
    && (forall e :: e in s.shared.waiters ==> w <= e)
    && s.shared.leases == map[]
  }

  /** What is done next: deliver an outstanding notification if the head needs
      it, otherwise let the head take its own next step. */
  ghost function NextAction(s: State, w: nat): Action
    requires w in s.clients && Registered(s.clients[w].phase)
    requires CanMove(s, w)
  {
    var c := s.clients[w];
    if s.leaseLock.Some? then NotifyRelease(s.leaseLock.value)
    else match c.phase
      case LoopTop => SeeVersion(w)
      case VersionSeen => ReadEpoch(w)
      case EpochRead => CheckCache(w)
      case ResolvingKeys(keys) => if |keys| < |c.paths| then ResolveNext(w, false) else FinishResolving(w)
      case Attempting => Attempt(w)
      case Parked =>
        if c.seen != s.shared.changes then Wake(w)
        else var v :| v in s.clients && s.clients[v].phase.Withdrawn?; NotifyCancel(v)
  }

  ghost function Rank(s: State, w: nat): int
    requires w in s.clients
  {
    var c := s.clients[w];
    var n := |c.paths|;
    var stale := if c.expectedEpoch == s.shared.leaseEpoch then 0 else 2 * n + 20;
    (if s.leaseLock.Some? then 5 * n + 100 else 0) +
    match c.phase
    case Attempting => stale
    case ResolvingKeys(keys) => stale + 1 + n - |keys|
    case EpochRead => stale + n + 2
    case VersionSeen => n + 3
    case LoopTop => n + 4
    case Parked => if c.seen != s.shared.changes then 4 * n + 40 else 4 * n + 41
    case _ => 0
  }

  ghost predicate CanMove(s: State, w: nat)
    requires w in s.clients
  {
    s.clients[w].phase.Parked? && s.leaseLock.None? ==>
      s.clients[w].seen != s.shared.changes || exists v :: v in s.clients && s.clients[v].phase.Withdrawn?
  }

  lemma HeadIsNotStuck(s: State, w: nat)
    requires Inv(s) && HeadWithoutLeases(s, w)
    ensures CanMove(s, w)
  {
    assert !EarlierExcludes(s, w, s.clients[w]) && !EarlierIsResolving(s, w) && !LeaseExcludes(s, s.clients[w]);
  }

  /** The head is never blocked: it either acquires or learns that its epoch is stale. */
  lemma HeadAttempts(s: State, w: nat)
    requires QueueInv(s) && HeadWithoutLeases(s, w) && Enabled(s, Attempt(w))
    ensures var t := Apply(s, Attempt(w));
      if s.clients[w].expectedEpoch == s.shared.leaseEpoch then t.clients[w].phase.Holding?
      else t.clients[w].phase.LoopTop? && t.shared == s.shared
  {
    var waiters := s.shared.waiters[w := Resolved(s.clients[w].cached.value.keys)];
    assert forall e :: e in waiters ==> w <= e;
  }

  lemma HeadChecksCache(s: State, w: nat)
    requires HeadWithoutLeases(s, w) && Enabled(s, CheckCache(w))
    ensures !Apply(s, CheckCache(w)).clients[w].phase.Parked?
  {
  }

  lemma HeadStepEnabled(s: State, w: nat)
    requires QueueInv(s) && HeadWithoutLeases(s, w) && CanMove(s, w)
    ensures Enabled(s, NextAction(s, w))
  {
    assert ClientOk(s, w, s.clients[w]);
    if s.leaseLock.Some? {
      assert ClientOk(s, s.leaseLock.value, s.clients[s.leaseLock.value]);
    }
  }

  lemma HeadStaysHead(s: State, w: nat, a: Action)
    requires QueueInv(s) && HeadWithoutLeases(s, w) && Enabled(s, a)
    requires a.NotifyRelease? || a.NotifyCancel? || (!a.TakeId? && a.w == w && !a.Cancel?)
    ensures var t := Apply(s, a);
      w in t.clients && (t.clients[w].phase.Holding? || HeadWithoutLeases(t, w))
  {
    assert ClientOk(s, w, s.clients[w]);
    if a.Attempt? {
      HeadAttempts(s, w);
    } else {
      assert Apply(s, a).shared.leases == map[];
    }
  }

  lemma NotificationLowersRank(s: State, w: nat, a: Action)
    requires QueueInv(s) && w in s.clients && Registered(s.clients[w].phase) && Enabled(s, a)
    requires || a.NotifyRelease?
             || (a.NotifyCancel? && s.leaseLock.None? && s.clients[w].phase.Parked?
               && s.clients[w].seen == s.shared.changes)
    ensures w in Apply(s, a).clients && 0 <= Rank(Apply(s, a), w) < Rank(s, w)
  {
    assert ClientOk(s, w, s.clients[w]) && ClientOk(s, a.w, s.clients[a.w]);
    assert Apply(s, a).clients[w] == s.clients[w];
  }

  lemma OwnStepLowersRank(s: State, w: nat, a: Action)
    requires QueueInv(s) && HeadWithoutLeases(s, w) && CanMove(s, w) && Enabled(s, a) && s.leaseLock.None?
    requires a == NextAction(s, w) && !a.NotifyCancel?
    ensures var t := Apply(s, a);
      w in t.clients && (t.clients[w].phase.Holding? || 0 <= Rank(t, w) < Rank(s, w))
  {
    assert ClientOk(s, w, s.clients[w]);
    if s.clients[w].phase.Attempting? {
      HeadAttempts(s, w);
    } else {
      HeadStepLowersRank(s, w, a);
    }
  }

  lemma HeadStepLowersRank(s: State, w: nat, a: Action)
    requires HeadWithoutLeases(s, w) && ClientOk(s, w, s.clients[w]) && CanMove(s, w) && Enabled(s, a)
    requires s.leaseLock.None?
    requires a == NextAction(s, w) && !a.NotifyCancel? && !a.Attempt?
    ensures 0 <= Rank(Apply(s, a), w) < Rank(s, w)
  {
    if a.CheckCache? {
      HeadChecksCache(s, w);
    }
  }

  /** A step of `w` itself, or the delivery of a notification. */
  predicate Drives(a: Action, w: nat) {
    !a.TakeId? && (a.w == w || a.NotifyCancel? || a.NotifyRelease?)
  }

  lemma HeadStep(s: State, w: nat, a: Action)
    requires QueueInv(s) && HeadWithoutLeases(s, w) && CanMove(s, w)
    requires a == NextAction(s, w)
    ensures Enabled(s, a) && Drives(a, w)
    ensures var t := Apply(s, a);
      && w in t.clients
      && (t.clients[w].phase.Holding? || (HeadWithoutLeases(t, w) && 0 <= Rank(t, w) < Rank(s, w)))
  {
    HeadStepEnabled(s, w);
    HeadStaysHead(s, w, a);
    if a.NotifyRelease? || a.NotifyCancel? {
      NotificationLowersRank(s, w, a);
    } else {
      OwnStepLowersRank(s, w, a);
    }
  }

  lemma HeadMoves(s: State, w: nat) returns (a: Action, t: State)
    requires Inv(s) && HeadWithoutLeases(s, w)
    ensures Next(s, a, t) && Inv(t) && Drives(a, w) && w in t.clients
    ensures t.clients[w].phase.Holding? || (HeadWithoutLeases(t, w) && 0 <= Rank(t, w) < Rank(s, w))
  {
    HeadIsNotStuck(s, w);
    a := NextAction(s, w);
    HeadStep(s, w, a);
    StepKeepsInv(s, a);
    t := Apply(s, a);
  }

  /** Whenever no lease is held, the lowest-numbered request can reach its
      grant by its own steps and outstanding notifications alone. */
  lemma {:induction false} HeadOfQueueCanAcquire(s: State, w: nat) returns (actions: seq<Action>, t: State)
    requires Inv(s) && HeadWithoutLeases(s, w)
    ensures RunsTo(s, actions, t)
    ensures w in t.clients && t.clients[w].phase.Holding?
    ensures forall i :: 0 <= i < |actions| ==> Drives(actions[i], w)
    decreases Rank(s, w)
  {
    var a, s' := HeadMoves(s, w);
    var rest := [];
    t := s';
    if !s'.clients[w].phase.Holding? {
      rest, t := HeadOfQueueCanAcquire(s', w);
    }
    actions := [a] + rest;
    RunsToAfter(s, a, s', rest, t);
  }
}
