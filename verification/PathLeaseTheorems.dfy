/**
 What every run of the path lease protocol guarantees.
 */
module PathLeaseTheorems {
  import opened Basics
  import opened PathKeys
  import opened PathCoordinator
  import opened PathLeaseProtocol

  // ----- safety

  /** No two distinct held leases ever record a conflicting pair of keys. */
  lemma MutualExclusion(states: seq<State>, actions: seq<Action>, n: nat)
    requires IsRun(states, actions) && n < |states|
    ensures var leases := states[n].shared.leases;
      forall l, m, i, j ::
        l in leases && m in leases && l != m && 0 <= i < |leases[l]| && 0 <= j < |leases[m]| ==>
          !PathKeysConflict(leases[l][i], leases[m][j])
  {
    RunKeepsInv(states, actions, n);
    var leases := states[n].shared.leases;
    forall l, m, i, j | l in leases && m in leases && l != m && 0 <= i < |leases[l]| && 0 <= j < |leases[m]|
      ensures !PathKeysConflict(leases[l][i], leases[m][j])
    {
      assert !PathsConflict(leases[l], leases[m]);
    }
  }

  /** The condition is one on the changes made: it holds exactly as long as every
      holder changed only meanings that its own lease covers. */
  lemma {:induction false} StrayedMeansSomeChangeStrayed(states: seq<State>, actions: seq<Action>, n: nat)
    requires IsRun(states, actions) && n < |states|
    ensures states[n].strayed <==>
      exists m :: 0 <= m < n && Enabled(states[m], actions[m]) && Strays(states[m], actions[m])
  {
    if n > 0 {
      StrayedMeansSomeChangeStrayed(states, actions, n - 1);
      assert Next(states[n - 1], actions[n - 1], states[n]);
      assert states[n].strayed <==> states[n - 1].strayed || Strays(states[n - 1], actions[n - 1]);
    }
  }

  /** As long as every change stayed within its lease, exclusion holds for what
      the paths mean now, not only for what the requests recorded: two holders
      that have not yet changed the file system themselves stand on entries
      whose current keys do not conflict. */
  lemma SemanticExclusion(states: seq<State>, actions: seq<Action>, n: nat, l: nat, m: nat, i: nat, j: nat)
    requires IsRun(states, actions) && n < |states| && !states[n].strayed
    requires var s := states[n];
      && l in s.shared.leases && m in s.shared.leases && l != m
      && l !in s.mutated && m !in s.mutated
      && i < |s.shared.leases[l]| && j < |s.shared.leases[m]|
      && s.shared.leases[l][i].resolved != ConservativePathKey(s.root)
      && s.shared.leases[m][j].resolved != ConservativePathKey(s.root)
    ensures var s := states[n];
      var p, q := s.shared.leases[l][i].lexical, s.shared.leases[m][j].lexical;
      && p in s.fs && q in s.fs
      && !PathKeysConflict(LeaseKey(p, s.fs[p]), LeaseKey(q, s.fs[q]))
  {
    RunKeepsInv(states, actions, n);
    MutualExclusion(states, actions, n);
    var s := states[n];
    assert KeyIsCurrent(s, s.shared.leases[l][i]) && KeyIsCurrent(s, s.shared.leases[m][j]);
  }

  /** A request whose path could not be resolved holds the whole tree: while it
      holds its lease no other lease covers any path. */
  lemma ConservativeLeaseIsAlone(states: seq<State>, actions: seq<Action>, n: nat, l: nat, i: nat, m: nat)
    requires IsRun(states, actions) && n < |states|
    requires var s := states[n];
      && l in s.shared.leases && m in s.shared.leases && l != m
      && i < |s.shared.leases[l]| && s.shared.leases[l][i].resolved == ConservativePathKey(s.root)
    ensures states[n].shared.leases[m] == []
  {
    RunKeepsInv(states, actions, n);
    var s := states[n];
    var mine, other := s.shared.leases[l], s.shared.leases[m];
    assert WellFormedKeys(s.root, other);
    if other != [] {
      ConservativeKeyConflictsWithEveryResolvedKey(s.root, mine[i].lexical, other[0]);
    }
  }

  ghost predicate Grants(s: State, a: Action) {
    Enabled(s, a) && a.Attempt? && Apply(s, a).clients[a.w].phase.Holding?
  }

  /** Some path on one side is a component prefix of one on the other. */
  ghost predicate Overlap(theirs: seq<Path>, mine: seq<Path>) {
    exists i, j :: 0 <= i < |theirs| && 0 <= j < |mine| && (theirs[i] <= mine[j] || mine[j] <= theirs[i])
  }

  lemma OverlapIsIntersection(theirs: seq<Path>, mine: seq<Path>)
    ensures AnyIntersect(theirs, mine) <==> Overlap(theirs, mine)
  {
    if AnyIntersect(theirs, mine) {
      var i, j :| 0 <= i < |theirs| && 0 <= j < |mine| && LexicallyIntersect(theirs[i], mine[j]);
      assert theirs[i] <= mine[j] || mine[j] <= theirs[i];
    }
    if Overlap(theirs, mine) {
      var i, j :| 0 <= i < |theirs| && 0 <= j < |mine| && (theirs[i] <= mine[j] || mine[j] <= theirs[i]);
      assert LexicallyIntersect(theirs[i], mine[j]);
    }
  }

  /** A resolved path is recorded with its meaning at that moment, a failed one with
      the key that stands for the whole tree. */
  lemma ResolutionRecords(states: seq<State>, actions: seq<Action>, n: nat)
    requires IsRun(states, actions) && n < |actions| && actions[n].ResolveNext?
    ensures
      var s, w := states[n], actions[n].w;
      && w in s.clients && s.clients[w].phase.ResolvingKeys? && |s.clients[w].phase.partial| < |s.clients[w].paths|
      && var keys, p := s.clients[w].phase.partial, s.clients[w].paths[|s.clients[w].phase.partial|];
      var key :=
        if actions[n].failed || p !in s.fs then ResolvedPathKey(s.root, [], [s.root], Some(s.root)) else s.fs[p];
      states[n + 1] == s.(clients := s.clients[w := s.clients[w].(phase := ResolvingKeys(keys + [LeaseKey(p, key)]))])
  {
    assert Next(states[n], actions[n], states[n + 1]);
  }

  // ----- who may resolve

  /** A request without keys starts to resolve if and only if no earlier queued
      request has a path that is a prefix of one of its own, or the reverse;
      otherwise it parks, and nothing else changes. */
  lemma FreshRequestResolves(states: seq<State>, actions: seq<Action>, n: nat, w: nat)
    requires IsRun(states, actions) && n < |actions| && actions[n] == CheckCache(w)
    requires w in states[n].clients && states[n].clients[w].cached.None?
    ensures
      var s, t := states[n], states[n + 1];
      var free := forall e :: e in s.shared.waiters && e < w ==>
        e in s.clients && !Overlap(s.clients[e].paths, s.clients[w].paths);
      && (free <==> t.clients[w].phase.ResolvingKeys?)
      && (free ==> t.clients[w].phase == ResolvingKeys([])
                   && t.shared == s.shared.(waiters := s.shared.waiters[w := Resolving(s.clients[w].paths)]))
      && (!free ==> t.clients[w].phase.Parked? && t.shared == s.shared)
  {
    RunKeepsInv(states, actions, n);
    var s := states[n];
    assert Next(s, actions[n], states[n + 1]) && ClientOk(s, w, s.clients[w]);
    forall e | e in s.shared.waiters
      ensures e in s.clients
      ensures WaiterLexicallyConflicts(s.shared.waiters[e], s.clients[w].paths) <==>
        Overlap(s.clients[e].paths, s.clients[w].paths)
    {
      QueuedPaths(s, e);
      OverlapIsIntersection(s.clients[e].paths, s.clients[w].paths);
    }
  }

  lemma QueuedPaths(s: State, e: nat)
    requires QueueInv(s) && e in s.shared.waiters
    ensures e in s.clients && LexicalPaths(s.shared.waiters[e]) == s.clients[e].paths
  {
    assert WaiterOk(s, e) && ClientOk(s, e, s.clients[e]);
  }

  /** The queue entry stands in the way of a request with these keys and paths. */
  ghost predicate InTheWay(waiter: WaiterState, keys: seq<LeaseKey>, paths: seq<Path>) {
    match waiter
    case Resolving(theirs) => Overlap(theirs, paths)
    case Resolved(theirs) =>
      exists i, j :: 0 <= i < |theirs| && 0 <= j < |keys| && PathKeysConflict(theirs[i], keys[j])
  }

  /** A request with keys goes on with them while the epoch is theirs. Otherwise it
      resolves again if and only if no earlier queue entry is in their way. */
  lemma OutdatedRequestResolves(states: seq<State>, actions: seq<Action>, n: nat, w: nat)
    requires IsRun(states, actions) && n < |actions| && actions[n] == CheckCache(w)
    requires w in states[n].clients && states[n].clients[w].cached.Some?
    ensures
      var s, t, c := states[n], states[n + 1], states[n].clients[w];
      var free := forall e :: e in s.shared.waiters && e < w ==>
        !InTheWay(s.shared.waiters[e], c.cached.value.keys, c.paths);
      if c.cached.value.epoch == c.expectedEpoch then t.clients[w].phase.Attempting? && t.shared == s.shared
      else if free then
        && t.clients[w].phase == ResolvingKeys([])
        && t.shared == s.shared.(waiters := s.shared.waiters[w := Resolving(c.paths)])
      else t.clients[w].phase.Parked? && t.shared == s.shared
  {
    RunKeepsInv(states, actions, n);
    var s, c := states[n], states[n].clients[w];
    assert Next(s, actions[n], states[n + 1]) && ClientOk(s, w, c);
    assert Lexicals(c.cached.value.keys) == c.paths;
    forall e | e in s.shared.waiters
      ensures WaiterConflicts(s.shared.waiters[e], c.cached.value.keys) <==>
        InTheWay(s.shared.waiters[e], c.cached.value.keys, c.paths)
    {
      WayIsConflict(s.shared.waiters[e], c.cached.value.keys, c.paths);
    }
  }

  lemma WayIsConflict(waiter: WaiterState, keys: seq<LeaseKey>, paths: seq<Path>)
    requires Lexicals(keys) == paths
    ensures WaiterConflicts(waiter, keys) <==> InTheWay(waiter, keys, paths)
  {
    if waiter.Resolving? {
      OverlapIsIntersection(waiter.lexicalPaths, paths);
    }
  }

  // ----- the order of grants

  /** A grant never overtakes a lower-numbered request that is still queued and
      whose paths lexically intersect the granted ones. */
  lemma GrantsRespectQueueOrder(states: seq<State>, actions: seq<Action>, n: nat, e: nat)
    requires IsRun(states, actions) && n < |actions| && Grants(states[n], actions[n])
    requires e in states[n].shared.waiters && e < actions[n].w
    ensures e in states[n].clients
    ensures !Overlap(states[n].clients[e].paths, states[n].clients[actions[n].w].paths)
  {
    RunKeepsInv(states, actions, n);
    var s, w := states[n], actions[n].w;
    assert WaiterOk(s, e) && ClientOk(s, e, s.clients[e]) && ClientOk(s, w, s.clients[w]);
    var keys := s.clients[w].cached.value.keys;
    var waiters := s.shared.waiters[w := Resolved(keys)];
    assert waiters[e] == s.shared.waiters[e];
    assert !WaiterConflicts(s.shared.waiters[e], keys);
    OverlapIsIntersection(s.clients[e].paths, s.clients[w].paths);
    if AnyIntersect(s.clients[e].paths, s.clients[w].paths) {
      IntersectingPathsConflict(s.shared.waiters[e], s.clients[e].paths, keys, s.clients[w].paths);
    }
  }

  lemma IntersectingPathsConflict(earlier: WaiterState, theirs: seq<Path>, keys: seq<LeaseKey>, mine: seq<Path>)
    requires AnyIntersect(theirs, mine) && KeysMatchPaths(keys, mine)
    requires match earlier case Resolving(paths) => paths == theirs case Resolved(ks) => KeysMatchPaths(ks, theirs)
    ensures WaiterConflicts(earlier, keys)
  {
    var i, j :| 0 <= i < |theirs| && 0 <= j < |mine| && LexicallyIntersect(theirs[i], mine[j]);
    match earlier {
      case Resolving(paths) => assert LexicallyIntersect(paths[i], Lexicals(keys)[j]);
      case Resolved(ks) => assert PathKeysConflict(ks[i], keys[j]);
    }
  }

  lemma {:induction false} EpochCountsReleases(states: seq<State>, actions: seq<Action>, k: nat, n: nat)
    requires IsRun(states, actions) && k <= n < |states|
    ensures states[k].shared.leaseEpoch <= states[n].shared.leaseEpoch
    ensures states[k].shared.leaseEpoch == states[n].shared.leaseEpoch ==>
      forall r :: k <= r < n ==> !actions[r].Release?
    decreases n - k
  {
    if k < n {
      EpochCountsReleases(states, actions, k, n - 1);
    }
  }

  /** `key` was produced by one of w's resolution steps strictly between k and n. */
  ghost predicate ResolvedBetween(states: seq<State>, actions: seq<Action>, k: nat, n: nat, w: nat, key: LeaseKey)
    requires n <= |actions| && |states| == |actions| + 1
  {
    exists m :: k < m < n && actions[m].ResolveNext? && actions[m].w == w
      && key == ResolveKey(states[m], key.lexical, actions[m].failed)
  }

  /** At step k the request w read epoch e, and all `keys` were resolved after that. */
  ghost predicate OriginAt(
      states: seq<State>, actions: seq<Action>, n: nat, w: nat, e: nat, keys: seq<LeaseKey>, k: nat)
    requires n <= |actions| && |states| == |actions| + 1
  {
    && k < n && actions[k] == ReadEpoch(w) && states[k].shared.leaseEpoch == e
    && forall i :: 0 <= i < |keys| ==> ResolvedBetween(states, actions, k, n, w, keys[i])
  }

  ghost predicate HasOrigin(states: seq<State>, actions: seq<Action>, n: nat, w: nat, e: nat, keys: seq<LeaseKey>)
    requires n <= |actions| && |states| == |actions| + 1
  {
    exists k: nat :: OriginAt(states, actions, n, w, e, keys, k)
  }

  lemma OriginPersists(states: seq<State>, actions: seq<Action>, n: nat, w: nat, e: nat, keys: seq<LeaseKey>)
    requires n < |actions| && |states| == |actions| + 1 && HasOrigin(states, actions, n, w, e, keys)
    ensures HasOrigin(states, actions, n + 1, w, e, keys)
  {
    var k: nat :| OriginAt(states, actions, n, w, e, keys, k);
    forall i | 0 <= i < |keys| ensures ResolvedBetween(states, actions, k, n + 1, w, keys[i]) {
      assert ResolvedBetween(states, actions, k, n, w, keys[i]);
    }
    assert OriginAt(states, actions, n + 1, w, e, keys, k);
  }

  ghost predicate ClientHasOrigin(states: seq<State>, actions: seq<Action>, n: nat, w: nat)
    requires n <= |actions| && |states| == |actions| + 1 && w in states[n].clients
  {
    var c := states[n].clients[w];
    && (c.phase.EpochRead? ==> HasOrigin(states, actions, n, w, c.expectedEpoch, []))
    && (c.phase.ResolvingKeys? ==> HasOrigin(states, actions, n, w, c.expectedEpoch, c.phase.partial))
    && (c.cached.Some? ==> HasOrigin(states, actions, n, w, c.cached.value.epoch, c.cached.value.keys))
  }

  lemma StepKeepsOrigin(states: seq<State>, actions: seq<Action>, n: nat, w: nat)
    requires IsRun(states, actions) && n < |actions|
    requires w in states[n].clients && w in states[n + 1].clients
    requires ClientHasOrigin(states, actions, n, w)
    ensures ClientHasOrigin(states, actions, n + 1, w)
  {
    var s, a := states[n], actions[n];
    var c, d := s.clients[w], states[n + 1].clients[w];
    if c.phase.EpochRead? { OriginPersists(states, actions, n, w, c.expectedEpoch, []); }
    if c.phase.ResolvingKeys? { OriginPersists(states, actions, n, w, c.expectedEpoch, c.phase.partial); }
    if c.cached.Some? { OriginPersists(states, actions, n, w, c.cached.value.epoch, c.cached.value.keys); }
    if a == ReadEpoch(w) {
      assert OriginAt(states, actions, n + 1, w, d.expectedEpoch, [], n);
    } else if a.ResolveNext? && a.w == w {
      assert d == c.(phase := ResolvingKeys(c.phase.partial + [ResolveKey(s, c.paths[|c.phase.partial|], a.failed)]));
      ResolutionExtendsOrigin(states, actions, n, w, c.expectedEpoch, c.phase.partial, c.paths[|c.phase.partial|]);
    }
  }

  lemma ResolutionExtendsOrigin(
      states: seq<State>, actions: seq<Action>, n: nat, w: nat, e: nat, keys: seq<LeaseKey>, p: Path)
    requires n < |actions| && |states| == |actions| + 1 && actions[n].ResolveNext? && actions[n].w == w
    requires HasOrigin(states, actions, n + 1, w, e, keys)
    ensures HasOrigin(states, actions, n + 1, w, e, keys + [ResolveKey(states[n], p, actions[n].failed)])
  {
    var k: nat :| OriginAt(states, actions, n + 1, w, e, keys, k);
    var key := ResolveKey(states[n], p, actions[n].failed);
    assert k < n && ResolvedBetween(states, actions, k, n + 1, w, key);
    assert OriginAt(states, actions, n + 1, w, e, keys + [key], k);
  }

  lemma NewClientHasNoKeys(s: State, a: Action, w: nat)
    requires Enabled(s, a) && w !in s.clients && w in Apply(s, a).clients
    ensures Apply(s, a).clients[w].phase.Registering? && Apply(s, a).clients[w].cached.None?
  {
  }

  lemma {:induction false} RunHasOrigins(states: seq<State>, actions: seq<Action>, n: nat, w: nat)
    requires IsRun(states, actions) && n <= |actions| && w in states[n].clients
    ensures ClientHasOrigin(states, actions, n, w)
  {
    if n > 0 {
      if w in states[n - 1].clients {
        RunHasOrigins(states, actions, n - 1, w);
        StepKeepsOrigin(states, actions, n - 1, w);
      } else {
        NewClientHasNoKeys(states[n - 1], actions[n - 1], w);
      }
    }
  }

  /** Freshness: a grant at step n goes back to one epoch read at some step k.
      Every granted key was resolved after k, and no lease was released from k
      up to the grant. */
  lemma GrantedKeysAreFresh(states: seq<State>, actions: seq<Action>, n: nat) returns (k: nat)
    requires IsRun(states, actions) && n < |actions| && Grants(states[n], actions[n])
    ensures k < n && actions[k] == ReadEpoch(actions[n].w)
    ensures var w := actions[n].w;
      var lease := states[n + 1].shared.leases[states[n + 1].clients[w].phase.lease];
      && KeysMatchPaths(lease, states[n].clients[w].paths)
      && forall i :: 0 <= i < |lease| ==> ResolvedBetween(states, actions, k, n, w, lease[i])
    ensures forall r :: k <= r <= n ==> !actions[r].Release?
  {
    var s, w := states[n], actions[n].w;
    RunKeepsInv(states, actions, n);
    RunHasOrigins(states, actions, n, w);
    var c := s.clients[w];
    assert ClientOk(s, w, c);
    k :| OriginAt(states, actions, n, w, c.cached.value.epoch, c.cached.value.keys, k);
    EpochCountsReleases(states, actions, k, n);
  }

  /** As long as every change stayed within its lease, the keys a grant records
      are what its paths mean at that moment. */
  lemma GrantedKeysAreCurrent(states: seq<State>, actions: seq<Action>, n: nat)
    requires IsRun(states, actions) && n < |actions| && Grants(states[n], actions[n]) && !states[n].strayed
    ensures
      var w := actions[n].w;
      var lease := states[n + 1].shared.leases[states[n + 1].clients[w].phase.lease];
      forall i :: 0 <= i < |lease| ==> KeyIsCurrent(states[n + 1], lease[i])
  {
    RunKeepsInv(states, actions, n);
    var s, w := states[n], actions[n].w;
    assert Next(s, actions[n], states[n + 1]);
    forall i | 0 <= i < |s.clients[w].cached.value.keys|
      ensures KeyIsCurrent(s, s.clients[w].cached.value.keys[i])
    {
      AttemptedKeysAreCurrent(s, w, i);
    }
  }

  // ----- liveness of the queue

  /** A request can take no step of its own exactly if it is finished, has parked and
      seen every change, or is about to attempt while a lease is being dropped. It
      can be cancelled exactly while it resolves or is parked. */
  lemma StuckExactly(states: seq<State>, actions: seq<Action>, n: nat, w: nat)
    requires IsRun(states, actions) && n < |states| && w in states[n].clients
    ensures
      var s, c := states[n], states[n].clients[w];
      && ((forall a: Action :: !a.TakeId? && a.w == w && !a.Cancel? ==> !Enabled(s, a)) <==>
            || c.phase.Finished?
            || (c.phase.Parked? && c.seen == s.shared.changes)
            || (c.phase.Attempting? && s.leaseLock.Some?))
      && (Enabled(s, Cancel(w)) <==> c.phase.Parked? || c.phase.ResolvingKeys?)
  {
    RunKeepsInv(states, actions, n);
    var s, c := states[n], states[n].clients[w];
    assert ClientOk(s, w, c);
    var next := OwnStep(s, w, c);
    if next.Some? {
      OwnStepIsEnabled(s, w);
    } else {
      forall a: Action | !a.TakeId? && a.w == w && !a.Cancel? ensures !Enabled(s, a) {
        NoOwnStep(s, w, a);
      }
    }
  }

  lemma OwnStepIsEnabled(s: State, w: nat)
    requires w in s.clients && ClientOk(s, w, s.clients[w]) && WellFormedFs(s.root, s.fs)
    requires OwnStep(s, w, s.clients[w]).Some?
    ensures
      var a := OwnStep(s, w, s.clients[w]).value;
      !a.TakeId? && a.w == w && !a.Cancel? && Enabled(s, a)
  {
  }

  lemma NoOwnStep(s: State, w: nat, a: Action)
    requires w in s.clients && OwnStep(s, w, s.clients[w]).None? && !a.TakeId? && a.w == w && !a.Cancel?
    ensures !Enabled(s, a)
  {
  }

  ghost function OwnStep(s: State, w: nat, c: Client): Option<Action> {
    match c.phase
    case Registering => Some(Insert(w))
    case LoopTop => Some(SeeVersion(w))
    case VersionSeen => Some(ReadEpoch(w))
    case EpochRead => Some(CheckCache(w))
    case ResolvingKeys(keys) => Some(if |keys| < |c.paths| then ResolveNext(w, false) else FinishResolving(w))
    case Attempting => if s.leaseLock.None? then Some(Attempt(w)) else None
    case Parked => if c.seen != s.shared.changes then Some(Wake(w)) else None
    case Withdrawn => Some(NotifyCancel(w))
    case Holding(_) => Some(Mutate(w, s.fs))
    case Releasing => Some(NotifyRelease(w))
    case Finished => None
  }

  ghost predicate Parks(s: State, a: Action, w: nat) {
    && Enabled(s, a) && !a.TakeId? && a.w == w
    && !s.clients[w].phase.Parked? && Apply(s, a).clients[w].phase.Parked?
  }

  /** From step i to n nothing was notified, and request w stayed as it is. */
  ghost predicate Quiet(states: seq<State>, i: nat, n: nat, w: nat)
    requires i <= n < |states|
  {
    w in states[n].clients && forall m :: i <= m <= n ==> QuietState(states[m], w, states[n])
  }

  ghost predicate QuietState(s: State, w: nat, last: State)
    requires w in last.clients
  {
    && w in s.clients && s.clients[w] == last.clients[w]
    && s.shared.changes == last.shared.changes && !NotificationInFlight(s)
  }

  lemma StepBeforeParked(s: State, a: Action, w: nat)
    requires QueueInv(s) && Enabled(s, a) && UpToDate(Apply(s, a), w) && !NotificationInFlight(Apply(s, a))
    requires !Parks(s, a, w)
    ensures w in s.clients && QuietState(s, w, Apply(s, a)) && UpToDate(s, w)
  {
    var t := Apply(s, a);
    assert w in s.clients && s.clients[w] == t.clients[w];
    assert ClientOk(s, w, s.clients[w]);
    assert s.shared.changes <= t.shared.changes;
    QuietStepWasQuiet(s, a);
  }

  /** A parked request that has seen every change has been left alone since it parked. */
  lemma {:induction false} ParkedSince(states: seq<State>, actions: seq<Action>, n: nat, w: nat) returns (k: nat)
    requires IsRun(states, actions) && n < |states| && UpToDate(states[n], w) && !NotificationInFlight(states[n])
    ensures k < n && Parks(states[k], actions[k], w) && Quiet(states, k + 1, n, w)
  {
    assert n > 0;
    if Parks(states[n - 1], actions[n - 1], w) {
      k := n - 1;
      assert QuietState(states[n], w, states[n]);
    } else {
      QuietOneBefore(states, actions, n, w);
      k := ParkedSince(states, actions, n - 1, w);
      QuietLonger(states, k + 1, n, w);
    }
  }

  lemma QuietOneBefore(states: seq<State>, actions: seq<Action>, n: nat, w: nat)
    requires IsRun(states, actions) && 0 < n < |states| && UpToDate(states[n], w) && !NotificationInFlight(states[n])
    requires !Parks(states[n - 1], actions[n - 1], w)
    ensures QuietState(states[n - 1], w, states[n]) && UpToDate(states[n - 1], w)
  {
    assert Next(states[n - 1], actions[n - 1], states[n - 1 + 1]);
    RunKeepsInv(states, actions, n - 1);
    StepBeforeParked(states[n - 1], actions[n - 1], w);
  }

  lemma QuietLonger(states: seq<State>, i: nat, n: nat, w: nat)
    requires i < n < |states| && Quiet(states, i, n - 1, w)
    requires w in states[n].clients && QuietState(states[n - 1], w, states[n]) && !NotificationInFlight(states[n])
    ensures Quiet(states, i, n, w)
  {
    forall m | i <= m <= n ensures QuietState(states[m], w, states[n]) {
      assert m < n ==> QuietState(states[m], w, states[n - 1]);
    }
  }

  /** Request e went back to resolving, which nobody is told, between steps i and n. */
  ghost predicate FellBack(states: seq<State>, actions: seq<Action>, i: nat, n: nat, e: nat)
    requires i <= n <= |actions| && |states| == |actions| + 1
  {
    exists m :: i <= m < n && FallsBack(states[m], actions[m], e)
  }

  ghost predicate FallsBack(s: State, a: Action, e: nat) {
    a == CheckCache(e) && e in s.clients && StartsResolving(s, e)
  }

  lemma FellBackByStep(states: seq<State>, actions: seq<Action>, i: nat, n: nat, e: nat)
    requires i < n <= |actions| && |states| == |actions| + 1
    ensures FellBack(states, actions, i, n, e) <==>
      FellBack(states, actions, i, n - 1, e) || FallsBack(states[n - 1], actions[n - 1], e)
  {
  }

  lemma QuietStepChangesQueue(s: State, a: Action, e: nat)
    requires QueueInv(s) && Enabled(s, a) && Apply(s, a).shared.changes == s.shared.changes
    requires !NotificationInFlight(Apply(s, a))
    ensures Apply(s, a).shared.leases == s.shared.leases
    ensures e in s.shared.waiters ==> e in Apply(s, a).shared.waiters
    ensures e in Apply(s, a).shared.waiters ==>
      var waiter := Apply(s, a).shared.waiters[e];
      if e in s.shared.waiters && !FallsBack(s, a, e) then waiter == s.shared.waiters[e]
      else waiter.Resolving?
  {
    QuietStepKeepsLeases(s, a);
    if e in s.shared.waiters {
      QuietQueueChange(s, a, e);
    } else if a.TakeId? || a.w != e {
      OtherWaiterStays(s, a, e);
    } else {
      assert ClientOk(s, e, s.clients[e]);
      assert a.Insert? || e !in Apply(s, a).shared.waiters;
    }
  }

  lemma QuietBefore(states: seq<State>, i: nat, n: nat, w: nat)
    requires i < n < |states| && Quiet(states, i, n, w)
    ensures Quiet(states, i, n - 1, w)
    ensures states[n].shared.changes == states[n - 1].shared.changes && !NotificationInFlight(states[n])
  {
    assert QuietState(states[n - 1], w, states[n]) && QuietState(states[n], w, states[n]);
    forall m | i <= m <= n - 1 ensures QuietState(states[m], w, states[n - 1]) {
      assert QuietState(states[m], w, states[n]);
    }
  }

  ghost predicate WaiterStays(s: Shared, t: Shared, e: nat, fellBack: bool) {
    && t.leases == s.leases
    && (e in s.waiters ==> e in t.waiters)
    && (e in t.waiters ==>
          if e in s.waiters && !fellBack then t.waiters[e] == s.waiters[e] else t.waiters[e].Resolving?)
  }

  lemma WaiterStaysOn(s: Shared, t: Shared, u: Shared, e: nat, before: bool, now: bool)
    requires WaiterStays(s, t, e, before) && WaiterStays(t, u, e, now)
    ensures WaiterStays(s, u, e, before || now)
  {
  }

  /** Over a quiet stretch leases stay, and a waiter stays unless it is new or fell back. */
  lemma {:induction false} QuietStretch(states: seq<State>, actions: seq<Action>, i: nat, n: nat, w: nat, e: nat)
    requires IsRun(states, actions) && i <= n < |states| && Quiet(states, i, n, w)
    ensures WaiterStays(states[i].shared, states[n].shared, e, FellBack(states, actions, i, n, e))
    decreases n - i
  {
    if i < n {
      QuietBefore(states, i, n, w);
      QuietStretch(states, actions, i, n - 1, w, e);
      QuietOneStep(states, actions, n, e);
      FellBackByStep(states, actions, i, n, e);
      WaiterStaysOn(states[i].shared, states[n - 1].shared, states[n].shared, e,
                    FellBack(states, actions, i, n - 1, e), FallsBack(states[n - 1], actions[n - 1], e));
    }
  }

  lemma QuietOneStep(states: seq<State>, actions: seq<Action>, n: nat, e: nat)
    requires IsRun(states, actions) && 0 < n < |states|
    requires states[n].shared.changes == states[n - 1].shared.changes && !NotificationInFlight(states[n])
    ensures WaiterStays(states[n - 1].shared, states[n].shared, e, FallsBack(states[n - 1], actions[n - 1], e))
  {
    assert Next(states[n - 1], actions[n - 1], states[n - 1 + 1]);
    RunKeepsInv(states, actions, n - 1);
    QuietStepChangesQueue(states[n - 1], actions[n - 1], e);
  }

  /** An earlier waiter excludes by its paths alone, or as it did when w parked and without falling back since. */
  ghost predicate StillExcludes(states: seq<State>, actions: seq<Action>, i: nat, n: nat, w: nat, e: nat)
    requires i <= n <= |actions| && |states| == |actions| + 1 && w in states[n].clients
  {
    var s, c := states[n], states[n].clients[w];
    && e < w && e in s.shared.waiters && e in s.clients
    && (|| Excludes(Resolving(s.clients[e].paths), c)
        || (e in states[i].shared.waiters && Excludes(states[i].shared.waiters[e], c)
          && !FellBack(states, actions, i, n, e)))
  }

  ghost predicate SomeoneStillExcludes(states: seq<State>, actions: seq<Action>, i: nat, n: nat, w: nat)
    requires i <= n <= |actions| && |states| == |actions| + 1 && w in states[n].clients
  {
    exists e :: StillExcludes(states, actions, i, n, w, e)
  }

  lemma LexicalExclusion(s: State, w: nat, e: nat)
    requires QueueInv(s) && w in s.clients && e in s.shared.waiters && e in s.clients
    requires Excludes(Resolving(s.clients[e].paths), s.clients[w])
    ensures Excludes(s.shared.waiters[e], s.clients[w])
  {
    var c := s.clients[w];
    assert WaiterOk(s, e) && ClientOk(s, e, s.clients[e]) && ClientOk(s, w, c);
    if s.shared.waiters[e].Resolved? {
      var keys := s.shared.waiters[e].keys;
      assert Lexicals(keys) == s.clients[e].paths;
      if c.cached.Some? {
        assert Lexicals(c.cached.value.keys) == c.paths;
        IntersectingPathsConflict(s.shared.waiters[e], s.clients[e].paths, c.cached.value.keys, c.paths);
      }
    }
  }

  /** Why a parked request that has seen every change waits: a lease or an earlier
      waiter excluded it when it parked. The lease still does. An earlier waiter
      still does exactly unless it has gone back to resolving paths that do not
      intersect; any other earlier waiter excludes it exactly by its paths. */
  lemma ParkedRequestHasReason(states: seq<State>, actions: seq<Action>, n: nat, w: nat) returns (k: nat)
    requires IsRun(states, actions) && n < |states| && UpToDate(states[n], w) && !NotificationInFlight(states[n])
    ensures k < n && Parks(states[k], actions[k], w) && Quiet(states, k + 1, n, w)
    ensures var c := states[n].clients[w];
      && (LeaseExcludes(states[k + 1], c) || EarlierExcludes(states[k + 1], w, c))
      && (LeaseExcludes(states[n], c) <==> LeaseExcludes(states[k + 1], c))
      && (EarlierExcludes(states[n], w, c) <==> SomeoneStillExcludes(states, actions, k + 1, n, w))
  {
    k := ParkedSince(states, actions, n, w);
    var c := states[n].clients[w];
    assert Next(states[k], actions[k], states[k + 1]);
    assert QuietState(states[k + 1], w, states[n]);
    NewlyParkedIsExcluded(states[k], actions[k]);
    QuietStretch(states, actions, k + 1, n, w, w);
    forall e | e in states[n].shared.waiters && e < w
      ensures Excludes(states[n].shared.waiters[e], c) <==> StillExcludes(states, actions, k + 1, n, w, e)
    {
      WaiterStillExcludes(states, actions, k + 1, n, w, e);
    }
  }

  lemma WaiterStillExcludes(states: seq<State>, actions: seq<Action>, i: nat, n: nat, w: nat, e: nat)
    requires IsRun(states, actions) && i <= n < |states| && Quiet(states, i, n, w) && e in states[n].shared.waiters
    requires e < w
    ensures Excludes(states[n].shared.waiters[e], states[n].clients[w]) <==> StillExcludes(states, actions, i, n, w, e)
  {
    RunKeepsInv(states, actions, n);
    QuietStretch(states, actions, i, n, w, e);
    assert WaiterOk(states[n], e);
    if Excludes(Resolving(states[n].clients[e].paths), states[n].clients[w]) {
      LexicalExclusion(states[n], w, e);
    }
  }

  /** No lost wake-up and no deadlock: when everyone queued is parked and up to
      date and no notification is outstanding, some lease is held. */
  lemma NoDeadlock(states: seq<State>, actions: seq<Action>, n: nat)
    requires IsRun(states, actions) && n < |states|
    requires !NotificationInFlight(states[n])
    requires states[n].shared.waiters != map[]
    requires forall w :: w in states[n].shared.waiters ==> UpToDate(states[n], w)
    ensures states[n].shared.leases != map[]
  {
    RunKeepsInv(states, actions, n);
    var s := states[n];
    var w :| w in s.shared.waiters;
    var lowest := LowestWaiter(s.shared.waiters, w);
    assert UpToDate(s, lowest);
    assert !EarlierExcludes(s, lowest, s.clients[lowest]);
    assert !EarlierIsResolving(s, lowest);
    assert LeaseExcludes(s, s.clients[lowest]);
    var l :| l in s.shared.leases && PathsConflict(s.shared.leases[l], s.clients[lowest].cached.value.keys);
  }

  lemma {:induction false} LowestWaiter(waiters: map<nat, WaiterState>, w: nat) returns (lowest: nat)
    requires w in waiters
    ensures lowest in waiters && forall e :: e in waiters ==> lowest <= e
    decreases w
  {
    if e :| e in waiters && e < w {
      lowest := LowestWaiter(waiters, e);
    } else {
      lowest := w;
    }
  }
}
