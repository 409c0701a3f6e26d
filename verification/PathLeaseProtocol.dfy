/**
 The path lease protocol as a step system.

 Any number of requests run `acquire_inner` concurrently. A step is one
 critical section, one atomic load or one await point of one request, so every
 interleaving of the source is a run of this system. Semantic keys are
 resolved outside the locks, one path at a time, against a file system that
 lease holders keep changing.
 */
module PathLeaseProtocol {
  import opened Basics
  import opened PathKeys
  import opened PathCoordinator

  /** The key of every path that resolves. */
  type Meanings = imap<Path, ResolvedPathKey>

  datatype CachedKeys = CachedKeys(epoch: nat, keys: seq<LeaseKey>)

  datatype Phase =
    | Registering                        // owns a waiter id, not yet in the queue
    | LoopTop
    | VersionSeen
    | EpochRead
    | ResolvingKeys(partial: seq<LeaseKey>)
    | Attempting
    | Parked                             // awaits a change of the watch channel
    | Withdrawn                          // cancelled and dequeued, notification outstanding
    | Holding(lease: nat)
    | Releasing                          // lease removed under the lock, notification outstanding
    | Finished

  datatype Client = Client(
    paths: seq<Path>,
    phase: Phase,
    seen: nat,
    expectedEpoch: nat,
    cached: Option<CachedKeys>)

  datatype State = State(
    root: FileIdentity,
    shared: Shared,
    clients: map<nat, Client>,
    leaseLock: Option<nat>,              // the request inside `PathLease::drop`
    fs: Meanings,                        // current meaning of each resolvable path
    mutated: set<nat>,                   // leases whose holder has changed the file system
    strayed: bool)                       // a holder has changed a meaning that no key of its lease covers

  datatype Action =
    | TakeId(newPaths: seq<Path>)
    | Insert(w: nat)
    | SeeVersion(w: nat)
    | ReadEpoch(w: nat)
    | CheckCache(w: nat)
    | ResolveNext(w: nat, failed: bool)
    | FinishResolving(w: nat)
    | Attempt(w: nat)
    | Wake(w: nat)
    | Cancel(w: nat)
    | NotifyCancel(w: nat)
    | Release(w: nat)
    | NotifyRelease(w: nat)
    | Mutate(w: nat, fs': Meanings)

  // ----- the step relation

  ghost predicate WellFormedFs(root: FileIdentity, fs: Meanings) {
    forall p :: p in fs ==> WellResolved(root, fs[p])
  }

  ghost predicate IsInitial(s: State) {
    && s.shared == Initial()
    && s.clients == map[]
    && s.leaseLock == None
    && s.mutated == {} && !s.strayed
    && WellFormedFs(s.root, s.fs)
  }

  /** Every path whose meaning changes had one that conflicts with a key of the lease. */
  ghost predicate MutationWithinLease(held: seq<LeaseKey>, fs: Meanings, fs': Meanings) {
    forall p :: p in fs && (p !in fs' || fs'[p] != fs[p]) ==> PathsConflict(held, [LeaseKey(p, fs[p])])
  }

  predicate Registered(p: Phase) {
    || p.LoopTop? || p.VersionSeen? || p.EpochRead? || p.ResolvingKeys? || p.Attempting? || p.Parked?
  }

  predicate CacheIsFresh(c: Client) {
    c.cached.Some? && c.cached.value.epoch == c.expectedEpoch
  }

  function PreviousKeys(c: Client): Option<seq<LeaseKey>> {
    match c.cached
    case None => None
    case Some(k) => Some(k.keys)
  }

  ghost function ResolveKey(s: State, p: Path, failed: bool): LeaseKey {
    LeaseKey(p, if failed || p !in s.fs then ConservativePathKey(s.root) else s.fs[p])
  }

  ghost predicate Enabled(s: State, a: Action) {
    if a.TakeId? then true
    else if a.w !in s.clients then false
    else
      var c := s.clients[a.w];
      match a
      case Insert(_) => c.phase.Registering?
      case SeeVersion(_) => c.phase.LoopTop?
      case ReadEpoch(_) => c.phase.VersionSeen?
      case CheckCache(_) => c.phase.EpochRead?
      case ResolveNext(_, _) => c.phase.ResolvingKeys? && |c.phase.partial| < |c.paths|
      case FinishResolving(_) => c.phase.ResolvingKeys? && |c.phase.partial| == |c.paths|
      case Attempt(_) => c.phase.Attempting? && c.cached.Some? && s.leaseLock == None
      case Wake(_) => c.phase.Parked? && c.seen != s.shared.changes
      case Cancel(_) => c.phase.ResolvingKeys? || c.phase.Parked?
      case NotifyCancel(_) => c.phase.Withdrawn?
      case Release(_) => c.phase.Holding? && s.leaseLock == None
      case NotifyRelease(_) => c.phase.Releasing?
      case Mutate(_, fs') => c.phase.Holding? && c.phase.lease in s.shared.leases && WellFormedFs(s.root, fs')
      case TakeId(_) => true
  }

  ghost function With(s: State, w: nat, c: Client, shared: Shared): State {
    s.(clients := s.clients[w := c], shared := shared)
  }

  // What a step does is given separately for the shared state, the request that
  // takes it, and the rest.

  ghost function SharedAfter(s: State, a: Action): Shared
    requires Enabled(s, a)
  {
    match a
    case TakeId(_) => s.shared.(nextWaiterId := s.shared.nextWaiterId + 1)
    case Insert(w) => s.shared.(waiters := s.shared.waiters[w := Resolving(s.clients[w].paths)])
    case CheckCache(w) => if StartsResolving(s, w) then MarkResolving(s.shared, w, s.clients[w].paths) else s.shared
    case Attempt(w) => Attempted(s, w).0
    case Cancel(w) => RemoveWaiter(s.shared, w)
    case Release(w) => RemoveLease(s.shared, s.clients[w].phase.lease)
    case NotifyCancel(_) => Notify(s.shared)
    case NotifyRelease(_) => Notify(s.shared)
    case _ => s.shared
  }

  ghost predicate StartsResolving(s: State, w: nat)
    requires w in s.clients
  {
    var c := s.clients[w];
    !CacheIsFresh(c) && EligibleToResolve(s.shared, w, c.paths, PreviousKeys(c))
  }

  ghost function Attempted(s: State, w: nat): (Shared, AcquireAttempt)
    requires w in s.clients && s.clients[w].cached.Some?
  {
    TryAcquire(s.shared, s.clients[w].cached.value.keys, s.clients[w].expectedEpoch, w)
  }

  function PhaseAfter(outcome: AcquireAttempt): Phase {
    match outcome
    case Acquired(l) => Holding(l)
    case Stale => LoopTop
    case Blocked => Parked
  }

  ghost function ClientAfter(s: State, a: Action): Client
    requires Enabled(s, a) && !a.TakeId?
  {
    var c := s.clients[a.w];
    match a
    case Insert(_) => c.(phase := LoopTop)
    case SeeVersion(_) => c.(phase := VersionSeen, seen := s.shared.changes)
    case ReadEpoch(_) => c.(phase := EpochRead, expectedEpoch := s.shared.leaseEpoch)
    case CheckCache(w) =>
      c.(phase := if CacheIsFresh(c) then Attempting else if StartsResolving(s, w) then ResolvingKeys([]) else Parked)
    case ResolveNext(_, failed) =>
      var keys := c.phase.partial;
      c.(phase := ResolvingKeys(keys + [ResolveKey(s, c.paths[|keys|], failed)]))
    case FinishResolving(_) => c.(phase := Attempting, cached := Some(CachedKeys(c.expectedEpoch, c.phase.partial)))
    case Attempt(w) =>
      c.(phase := PhaseAfter(Attempted(s, w).1))
    case Wake(_) => c.(phase := LoopTop)
    case Cancel(_) => c.(phase := Withdrawn)
    case NotifyCancel(_) => c.(phase := Finished)
    case Release(_) => c.(phase := Releasing)
    case NotifyRelease(_) => c.(phase := Finished)
    case Mutate(_, _) => c
  }

  ghost function ClientsAfter(s: State, a: Action): map<nat, Client>
    requires Enabled(s, a)
  {
    if a.TakeId? then s.clients[s.shared.nextWaiterId := Client(a.newPaths, Registering, 0, 0, None)]
    else s.clients[a.w := ClientAfter(s, a)]
  }

  ghost function Apply(s: State, a: Action): State
    requires Enabled(s, a)
  {
    State(
      s.root,
      SharedAfter(s, a),
      ClientsAfter(s, a),
      if a.Release? then Some(a.w) else if a.NotifyRelease? then None else s.leaseLock,
      if a.Mutate? then a.fs' else s.fs,
      if a.Mutate? then s.mutated + {s.clients[a.w].phase.lease} else s.mutated,
      s.strayed || Strays(s, a))
  }

  /** The step changes a meaning that the lease of its request does not cover. */
  ghost predicate Strays(s: State, a: Action)
    requires Enabled(s, a)
  {
    a.Mutate? && !MutationWithinLease(s.shared.leases[s.clients[a.w].phase.lease], s.fs, a.fs')
  }

  ghost predicate Next(s: State, a: Action, t: State) {
    Enabled(s, a) && t == Apply(s, a)
  }

  ghost predicate IsRun(states: seq<State>, actions: seq<Action>) {
    && |states| == |actions| + 1
    && IsInitial(states[0])
    && forall i :: 0 <= i < |actions| ==> Next(states[i], actions[i], states[i + 1])
  }

  // ----- invariants

  predicate KeysMatchPaths(keys: seq<LeaseKey>, paths: seq<Path>) {
    |keys| == |paths| && forall i :: 0 <= i < |keys| ==> keys[i].lexical == paths[i]
  }

  /** The client's own view is consistent with what the queue records for it. */
  ghost predicate ClientOk(s: State, w: nat, c: Client) {
    && w < s.shared.nextWaiterId
    && c.seen <= s.shared.changes
    && c.expectedEpoch <= s.shared.leaseEpoch
    && (Registered(c.phase) <==> w in s.shared.waiters)
    && (c.cached.Some? ==>
          c.cached.value.epoch <= s.shared.leaseEpoch && KeysMatchPaths(c.cached.value.keys, c.paths))
    && (c.phase.Attempting? ==> CacheIsFresh(c))
    && (c.phase.ResolvingKeys? ==>
          |c.phase.partial| <= |c.paths| && KeysMatchPaths(c.phase.partial, c.paths[..|c.phase.partial|]))
    && (c.phase.Holding? ==> c.phase.lease in s.shared.leases)
    && (c.phase.Releasing? <==> s.leaseLock == Some(w))
  }

  ghost predicate WaiterOk(s: State, w: nat) {
    && w in s.clients
    && w in s.shared.waiters
    && match s.shared.waiters[w]
       case Resolving(paths) => paths == s.clients[w].paths
       case Resolved(keys) =>
         && s.clients[w].cached.Some?
         && s.clients[w].cached.value.keys == keys
         && !s.clients[w].phase.ResolvingKeys?
  }

  ghost predicate QueueInv(s: State) {
    && (forall w :: w in s.clients ==> ClientOk(s, w, s.clients[w]))
    && (forall w :: w in s.shared.waiters ==> w in s.clients && WaiterOk(s, w))
    && (s.leaseLock.Some? ==> s.leaseLock.value in s.clients)
  }

  ghost predicate LeaseInv(s: State) {
    && (forall l :: l in s.shared.leases ==> l < s.shared.nextId)
    && (forall v, w :: v in s.clients && w in s.clients && v != w && s.clients[v].phase.Holding? ==>
          s.clients[w].phase != s.clients[v].phase)
  }

  ghost predicate Exclusive(s: State) {
    forall l, m :: l in s.shared.leases && m in s.shared.leases && l != m ==>
      !PathsConflict(s.shared.leases[l], s.shared.leases[m])
  }

  predicate Excludes(waiter: WaiterState, c: Client) {
    match c.cached
    case None => WaiterLexicallyConflicts(waiter, c.paths)
    case Some(k) => WaiterConflicts(waiter, k.keys)
  }

  ghost predicate NotificationInFlight(s: State) {
    s.leaseLock.Some? || exists w :: w in s.clients && s.clients[w].phase.Withdrawn?
  }

  ghost predicate LeaseExcludes(s: State, c: Client) {
    c.cached.Some? && HeldLeaseConflicts(s.shared.leases, c.cached.value.keys)
  }

  ghost predicate EarlierExcludes(s: State, w: nat, c: Client) {
    exists e :: e in s.shared.waiters && e < w && Excludes(s.shared.waiters[e], c)
  }

  ghost predicate EarlierIsResolving(s: State, w: nat) {
    exists e :: e in s.shared.waiters && e < w && s.shared.waiters[e].Resolving?
  }

  ghost predicate UpToDate(s: State, w: nat) {
    w in s.clients && s.clients[w].phase.Parked? && s.clients[w].seen == s.shared.changes
  }

  /** A parked request that has seen the latest version still has a reason to wait. */
  ghost predicate ParkedInv(s: State) {
    !NotificationInFlight(s) ==>
      forall w :: UpToDate(s, w) ==>
        LeaseExcludes(s, s.clients[w]) || EarlierExcludes(s, w, s.clients[w]) || EarlierIsResolving(s, w)
  }

  ghost predicate KeyIsCurrent(s: State, k: LeaseKey) {
    k.resolved == ConservativePathKey(s.root) || (k.lexical in s.fs && s.fs[k.lexical] == k.resolved)
  }

  /** Either the key still describes the file system, or a held lease that may
      have changed it stands in the way of a grant. */
  ghost predicate KeysAreCovered(s: State, keys: seq<LeaseKey>) {
    forall i :: 0 <= i < |keys| ==> KeyIsCurrent(s, keys[i]) || HeldLeaseConflicts(s.shared.leases, [keys[i]])
  }

  ghost predicate ClientKeysCovered(s: State, c: Client) {
    && (c.phase.ResolvingKeys? && c.expectedEpoch == s.shared.leaseEpoch ==> KeysAreCovered(s, c.phase.partial))
    && (c.cached.Some? && c.cached.value.epoch == s.shared.leaseEpoch ==> KeysAreCovered(s, c.cached.value.keys))
  }

  /** As long as every change of the file system stayed within its lease. */
  ghost predicate FreshInv(s: State) {
    && (forall w :: w in s.clients ==> ClientKeysCovered(s, s.clients[w]))
    && (forall l, i :: l in s.shared.leases && l !in s.mutated && 0 <= i < |s.shared.leases[l]| ==>
          KeyIsCurrent(s, s.shared.leases[l][i]))
  }

  /** Keys come from a successful resolution or are the conservative root key. */
  predicate WellFormedKeys(root: FileIdentity, keys: seq<LeaseKey>) {
    forall i :: 0 <= i < |keys| ==>
      WellResolved(root, keys[i].resolved) || keys[i].resolved == ConservativePathKey(root)
  }

  predicate WellFormedClient(root: FileIdentity, c: Client) {
    && (c.phase.ResolvingKeys? ==> WellFormedKeys(root, c.phase.partial))
    && (c.cached.Some? ==> WellFormedKeys(root, c.cached.value.keys))
  }

  ghost predicate FormInv(s: State) {
    && WellFormedFs(s.root, s.fs)
    && (forall w :: w in s.clients ==> WellFormedClient(s.root, s.clients[w]))
    && (forall l :: l in s.shared.leases ==> WellFormedKeys(s.root, s.shared.leases[l]))
  }

  ghost predicate Inv(s: State) {
    QueueInv(s) && LeaseInv(s) && Exclusive(s) && ParkedInv(s) && FormInv(s) && (!s.strayed ==> FreshInv(s))
  }

  // ----- every step keeps the invariants

  lemma StepKeepsOtherClient(s: State, a: Action, w: nat)
    requires QueueInv(s) && LeaseInv(s) && Enabled(s, a)
    requires w in s.clients && (a.TakeId? || a.w != w)
    ensures w in Apply(s, a).clients && Apply(s, a).clients[w] == s.clients[w]
    ensures ClientOk(Apply(s, a), w, s.clients[w])
  {
    var t := Apply(s, a);
    var c := s.clients[w];
    assert ClientOk(s, w, c);
    assert t.clients[w] == c;
    assert w in t.shared.waiters <==> w in s.shared.waiters;
    assert s.shared.changes <= t.shared.changes && s.shared.leaseEpoch <= t.shared.leaseEpoch;
    if !a.TakeId? {
      assert ClientOk(s, a.w, s.clients[a.w]);
      assert (t.leaseLock == Some(w)) == (s.leaseLock == Some(w));
    }
  }

  lemma ResolutionKeepsOwnClient(s: State, a: Action)
    requires QueueInv(s) && Enabled(s, a) && (a.ResolveNext? || a.FinishResolving?)
    ensures ClientOk(Apply(s, a), a.w, Apply(s, a).clients[a.w])
  {
    var c := s.clients[a.w];
    assert ClientOk(s, a.w, c);
    var keys := c.phase.partial;
    if a.ResolveNext? {
      var key := ResolveKey(s, c.paths[|keys|], a.failed);
      assert c.paths[..|keys| + 1] == c.paths[..|keys|] + [c.paths[|keys|]];
      assert KeysMatchPaths(keys + [key], c.paths[..|keys| + 1]);
    } else {
      assert c.paths[..|keys|] == c.paths;
    }
  }

  lemma AttemptKeepsOwnClient(s: State, a: Action)
    requires QueueInv(s) && Enabled(s, a) && a.Attempt?
    ensures ClientOk(Apply(s, a), a.w, Apply(s, a).clients[a.w])
  {
    var c := s.clients[a.w];
    assert ClientOk(s, a.w, c);
  }

  lemma StepKeepsOwnClient(s: State, a: Action)
    requires QueueInv(s) && Enabled(s, a) && !a.TakeId?
    ensures ClientOk(Apply(s, a), a.w, Apply(s, a).clients[a.w])
  {
    if a.ResolveNext? || a.FinishResolving? {
      ResolutionKeepsOwnClient(s, a);
    } else if a.Attempt? {
      AttemptKeepsOwnClient(s, a);
    } else {
      OtherStepKeepsOwnClient(s, a);
    }
  }

  lemma OtherStepKeepsOwnClient(s: State, a: Action)
    requires Enabled(s, a) && !a.TakeId? && !a.ResolveNext? && !a.FinishResolving? && !a.Attempt?
    requires ClientOk(s, a.w, s.clients[a.w])
    ensures ClientOk(Apply(s, a), a.w, Apply(s, a).clients[a.w])
  {
  }

  lemma StepKeepsClient(s: State, a: Action, w: nat)
    requires QueueInv(s) && LeaseInv(s) && Enabled(s, a)
    requires w in Apply(s, a).clients
    ensures ClientOk(Apply(s, a), w, Apply(s, a).clients[w])
  {
    if !a.TakeId? && a.w == w {
      StepKeepsOwnClient(s, a);
    } else if w in s.clients && !(a.TakeId? && w == s.shared.nextWaiterId) {
      StepKeepsOtherClient(s, a, w);
    }
  }

  /** A step leaves the queue entries of the other requests alone. */
  lemma OtherWaiterStays(s: State, a: Action, e: nat)
    requires Enabled(s, a) && (a.TakeId? || a.w != e)
    ensures
      var t := Apply(s, a);
      && (e in t.shared.waiters <==> e in s.shared.waiters)
      && (e in s.shared.waiters ==> t.shared.waiters[e] == s.shared.waiters[e])
  {
  }

  lemma OwnWaiterOk(s: State, a: Action)
    requires Enabled(s, a) && !a.TakeId? && ClientOk(s, a.w, s.clients[a.w])
    requires a.w in s.shared.waiters ==> WaiterOk(s, a.w)
    ensures a.w in Apply(s, a).shared.waiters ==> WaiterOk(Apply(s, a), a.w)
  {
  }

  lemma StepKeepsWaiter(s: State, a: Action, w: nat)
    requires QueueInv(s) && Enabled(s, a)
    requires w in Apply(s, a).shared.waiters
    ensures WaiterOk(Apply(s, a), w)
  {
    if a.TakeId? || a.w != w {
      OtherWaiterStays(s, a, w);
      assert WaiterOk(s, w) && ClientOk(s, w, s.clients[w]);
      assert Apply(s, a).clients[w] == s.clients[w];
    } else {
      assert ClientOk(s, w, s.clients[w]) && (w in s.shared.waiters ==> WaiterOk(s, w));
      OwnWaiterOk(s, a);
    }
  }

  lemma StepKeepsQueue(s: State, a: Action)
    requires QueueInv(s) && LeaseInv(s) && Enabled(s, a)
    ensures QueueInv(Apply(s, a))
  {
    var t := Apply(s, a);
    forall w | w in t.clients ensures ClientOk(t, w, t.clients[w]) {
      StepKeepsClient(s, a, w);
    }
    forall w | w in t.shared.waiters ensures w in t.clients && WaiterOk(t, w) {
      StepKeepsWaiter(s, a, w);
    }
    assert t.leaseLock.Some? ==> t.leaseLock.value in t.clients;
  }

  lemma HolderAfter(s: State, a: Action, v: nat)
    requires Enabled(s, a) && v in Apply(s, a).clients && Apply(s, a).clients[v].phase.Holding?
    ensures
      var phase := Apply(s, a).clients[v].phase;
      || (v in s.clients && s.clients[v].phase == phase)
      || (a == Attempt(v) && phase.lease == s.shared.nextId)
  {
  }

  lemma StepKeepsLeases(s: State, a: Action)
    requires QueueInv(s) && LeaseInv(s) && Enabled(s, a)
    ensures LeaseInv(Apply(s, a))
  {
    var t := Apply(s, a);
    forall v, w | v in t.clients && w in t.clients && v != w
                    && t.clients[v].phase.Holding? && t.clients[w].phase.Holding?
      ensures t.clients[v].phase != t.clients[w].phase
    {
      HolderAfter(s, a, v);
      HolderAfter(s, a, w);
      assert v in s.clients ==> ClientOk(s, v, s.clients[v]);
      assert w in s.clients ==> ClientOk(s, w, s.clients[w]);
    }
    assert forall l :: l in t.shared.leases ==> l in s.shared.leases || l == s.shared.nextId;
  }

  lemma StepKeepsExclusion(s: State, a: Action)
    requires QueueInv(s) && LeaseInv(s) && Exclusive(s) && Enabled(s, a)
    ensures Exclusive(Apply(s, a))
  {
    if a.Attempt? {
      var keys := s.clients[a.w].cached.value.keys;
      forall l | l in s.shared.leases
        ensures PathsConflict(s.shared.leases[l], keys) == PathsConflict(keys, s.shared.leases[l])
      {
        PathsConflictIsSymmetric(s.shared.leases[l], keys);
      }
    }
  }

  lemma QuietOwnWaiter(s: State, a: Action)
    requires Enabled(s, a) && !a.TakeId? && ClientOk(s, a.w, s.clients[a.w]) && a.w in s.shared.waiters
    requires WaiterOk(s, a.w)
    requires Apply(s, a).shared.changes == s.shared.changes && !NotificationInFlight(Apply(s, a))
    ensures
      var t := Apply(s, a);
      && a.w in t.shared.waiters
      && (if a.CheckCache? && StartsResolving(s, a.w) then t.shared.waiters[a.w].Resolving?
          else t.shared.waiters[a.w] == s.shared.waiters[a.w])
  {
    assert !a.Cancel? by {
      assert Apply(s, a).clients[a.w] == ClientAfter(s, a);
    }
  }

  /** Without a notification a queue entry can only fall back to `Resolving`. */
  lemma QuietQueueChange(s: State, a: Action, e: nat)
    requires QueueInv(s) && Enabled(s, a) && e in s.shared.waiters
    requires Apply(s, a).shared.changes == s.shared.changes && !NotificationInFlight(Apply(s, a))
    ensures
      var t := Apply(s, a);
      && e in t.shared.waiters
      && (if a == CheckCache(e) && StartsResolving(s, e) then t.shared.waiters[e].Resolving?
          else t.shared.waiters[e] == s.shared.waiters[e])
  {
    if a.TakeId? || a.w != e {
      OtherWaiterStays(s, a, e);
    } else {
      assert WaiterOk(s, e) && ClientOk(s, e, s.clients[e]);
      QuietOwnWaiter(s, a);
    }
  }

  lemma QuietStepKeepsLeases(s: State, a: Action)
    requires Enabled(s, a) && Apply(s, a).shared.changes == s.shared.changes && Apply(s, a).leaseLock == None
    ensures Apply(s, a).shared.leases == s.shared.leases
  {
  }

  lemma StillExcluded(s: State, a: Action, w: nat)
    requires QueueInv(s) && ParkedInv(s) && Enabled(s, a)
    requires UpToDate(s, w) && !NotificationInFlight(s)
    requires Apply(s, a).shared.changes == s.shared.changes
    requires !NotificationInFlight(Apply(s, a))
    ensures var t := Apply(s, a);
      LeaseExcludes(t, s.clients[w]) || EarlierExcludes(t, w, s.clients[w]) || EarlierIsResolving(t, w)
  {
    var t, c := Apply(s, a), s.clients[w];
    if LeaseExcludes(s, c) {
      QuietStepKeepsLeases(s, a);
    } else {
      var e :| e in s.shared.waiters && e < w && (Excludes(s.shared.waiters[e], c) || s.shared.waiters[e].Resolving?);
      QuietQueueChange(s, a, e);
    }
  }

  lemma QuietStepWasQuiet(s: State, a: Action)
    requires Enabled(s, a)
    requires Apply(s, a).shared.changes == s.shared.changes
    requires !NotificationInFlight(Apply(s, a))
    requires QueueInv(s)
    ensures !NotificationInFlight(s)
  {
    var t := Apply(s, a);
    assert !a.NotifyCancel? && !a.NotifyRelease?;
    forall v | v in s.clients ensures !s.clients[v].phase.Withdrawn? {
      assert ClientOk(s, v, s.clients[v]);
      assert v in t.clients;
      var phase := t.clients[v].phase;
      assert s.clients[v].phase.Withdrawn? ==> phase.Withdrawn?;
    }
  }

  lemma NewlyParkedIsExcluded(s: State, a: Action)
    requires Enabled(s, a) && !a.TakeId?
    requires !s.clients[a.w].phase.Parked? && Apply(s, a).clients[a.w].phase.Parked?
    ensures var t := Apply(s, a);
      LeaseExcludes(t, t.clients[a.w]) || EarlierExcludes(t, a.w, t.clients[a.w])
  {
    var t, c := Apply(s, a), s.clients[a.w];
    if a.CheckCache? {
      match c.cached {
        case None =>
          var e :| e in s.shared.waiters && e < a.w && WaiterLexicallyConflicts(s.shared.waiters[e], c.paths);
          assert Excludes(t.shared.waiters[e], t.clients[a.w]);
        case Some(k) =>
          var e :| e in s.shared.waiters && e < a.w && WaiterConflicts(s.shared.waiters[e], k.keys);
          assert Excludes(t.shared.waiters[e], t.clients[a.w]);
      }
    } else {
      var keys := c.cached.value.keys;
      if !HeldLeaseConflicts(s.shared.leases, keys) {
        var e :| e in t.shared.waiters && e < a.w && WaiterConflicts(t.shared.waiters[e], keys);
        assert Excludes(t.shared.waiters[e], t.clients[a.w]);
      }
    }
  }

  lemma StepKeepsParked(s: State, a: Action)
    requires QueueInv(s) && LeaseInv(s) && ParkedInv(s) && Enabled(s, a)
    ensures ParkedInv(Apply(s, a))
  {
    var t := Apply(s, a);
    if !NotificationInFlight(t) {
      forall w | UpToDate(t, w)
        ensures LeaseExcludes(t, t.clients[w]) || EarlierExcludes(t, w, t.clients[w]) || EarlierIsResolving(t, w)
      {
        if !a.TakeId? && a.w == w {
          NewlyParkedIsExcluded(s, a);
        } else if w in s.clients && t.clients[w] == s.clients[w] {
          assert ClientOk(s, w, s.clients[w]);
          assert s.shared.changes <= t.shared.changes;
          QuietStepWasQuiet(s, a);
          StillExcluded(s, a, w);
        }
      }
    }
  }

  lemma ConflictWithOneKey(held: seq<LeaseKey>, keys: seq<LeaseKey>, i: nat)
    requires i < |keys| && PathsConflict(held, [keys[i]])
    ensures PathsConflict(held, keys)
  {
    var h, j :| 0 <= h < |held| && 0 <= j < 1 && PathKeysConflict(held[h], [keys[i]][j]);
    assert PathKeysConflict(held[h], keys[i]);
  }

  /** Steps that neither end a lease nor grant one keep every key covered,
      because a holder can only invalidate keys its own lease conflicts with. */
  lemma CoverageSurvives(s: State, a: Action, keys: seq<LeaseKey>)
    requires Enabled(s, a) && !Strays(s, a) && !a.Release? && KeysAreCovered(s, keys) && LeaseInv(s)
    ensures KeysAreCovered(Apply(s, a), keys)
  {
    var t := Apply(s, a);
    forall i | 0 <= i < |keys|
      ensures KeyIsCurrent(t, keys[i]) || HeldLeaseConflicts(t.shared.leases, [keys[i]])
    {
      var k := keys[i];
      if KeyIsCurrent(s, k) {
        if a.Mutate? && !KeyIsCurrent(t, k) {
          assert k == LeaseKey(k.lexical, s.fs[k.lexical]);
          assert PathsConflict(t.shared.leases[s.clients[a.w].phase.lease], [k]);
        }
      } else {
        var l :| l in s.shared.leases && PathsConflict(s.shared.leases[l], [k]);
        assert l in t.shared.leases && t.shared.leases[l] == s.shared.leases[l];
      }
    }
  }

  lemma StepKeepsPartialKeys(s: State, a: Action, w: nat)
    requires QueueInv(s) && LeaseInv(s) && FreshInv(s) && Enabled(s, a) && !Strays(s, a)
    requires w in s.clients && w in Apply(s, a).clients && !a.Release?
    requires var c := Apply(s, a).clients[w];
      c.phase.ResolvingKeys? && c.expectedEpoch == Apply(s, a).shared.leaseEpoch
    ensures KeysAreCovered(Apply(s, a), Apply(s, a).clients[w].phase.partial)
  {
    var t, c := Apply(s, a), s.clients[w];
    assert ClientKeysCovered(s, c);
    assert t.shared.leaseEpoch == s.shared.leaseEpoch;
    var keys := t.clients[w].phase.partial;
    if c.phase.ResolvingKeys? {
      CoverageSurvives(s, a, c.phase.partial);
      if a.ResolveNext? && a.w == w {
        assert KeyIsCurrent(t, keys[|keys| - 1]);
      } else {
        assert keys == c.phase.partial;
      }
    } else {
      assert keys == [];
    }
  }

  lemma StepKeepsCachedKeys(s: State, a: Action, w: nat)
    requires QueueInv(s) && LeaseInv(s) && FreshInv(s) && Enabled(s, a) && !Strays(s, a)
    requires w in s.clients && w in Apply(s, a).clients && !a.Release?
    requires var c := Apply(s, a).clients[w];
      c.cached.Some? && c.cached.value.epoch == Apply(s, a).shared.leaseEpoch
    ensures KeysAreCovered(Apply(s, a), Apply(s, a).clients[w].cached.value.keys)
  {
    var t, c := Apply(s, a), s.clients[w];
    assert ClientOk(s, w, c) && ClientKeysCovered(s, c);
    if a == FinishResolving(w) {
      CoverageSurvives(s, a, c.phase.partial);
    } else if c.cached.Some? {
      assert t.shared.leaseEpoch == s.shared.leaseEpoch;
      CoverageSurvives(s, a, c.cached.value.keys);
    }
  }

  lemma StepKeepsClientKeys(s: State, a: Action, w: nat)
    requires QueueInv(s) && LeaseInv(s) && FreshInv(s) && Enabled(s, a) && !Strays(s, a)
    requires w in Apply(s, a).clients
    ensures ClientKeysCovered(Apply(s, a), Apply(s, a).clients[w])
  {
    var t := Apply(s, a);
    var c := t.clients[w];
    if w in s.clients {
      assert ClientOk(s, w, s.clients[w]);
      if !a.Release? {
        if c.phase.ResolvingKeys? && c.expectedEpoch == t.shared.leaseEpoch {
          StepKeepsPartialKeys(s, a, w);
        }
        if c.cached.Some? && c.cached.value.epoch == t.shared.leaseEpoch {
          StepKeepsCachedKeys(s, a, w);
        }
      }
    }
  }

  /** At the instant of a grant every recorded key is the current meaning of its path. */
  lemma AttemptedKeysAreCurrent(s: State, w: nat, i: nat)
    requires QueueInv(s) && FreshInv(s) && Enabled(s, Attempt(w))
    requires Apply(s, Attempt(w)).clients[w].phase.Holding?
    requires i < |s.clients[w].cached.value.keys|
    ensures KeyIsCurrent(s, s.clients[w].cached.value.keys[i])
  {
    var c := s.clients[w];
    assert ClientOk(s, w, c) && ClientKeysCovered(s, c);
    var keys := c.cached.value.keys;
    if HeldLeaseConflicts(s.shared.leases, [keys[i]]) {
      var l :| l in s.shared.leases && PathsConflict(s.shared.leases[l], [keys[i]]);
      ConflictWithOneKey(s.shared.leases[l], keys, i);
    }
  }

  lemma StepKeepsLeaseKey(s: State, a: Action, l: nat, i: nat)
    requires QueueInv(s) && LeaseInv(s) && Exclusive(s) && FreshInv(s) && Enabled(s, a) && !Strays(s, a)
    requires l in Apply(s, a).shared.leases && l !in Apply(s, a).mutated && i < |Apply(s, a).shared.leases[l]|
    ensures KeyIsCurrent(Apply(s, a), Apply(s, a).shared.leases[l][i])
  {
    var t := Apply(s, a);
    if l !in s.shared.leases || t.shared.leases[l] != s.shared.leases[l] {
      assert a.Attempt? && t.clients[a.w].phase.Holding?;
      AttemptedKeysAreCurrent(s, a.w, i);
    } else {
      var k := s.shared.leases[l][i];
      assert KeyIsCurrent(s, k);
      if a.Mutate? && !KeyIsCurrent(t, k) {
        var m := s.clients[a.w].phase.lease;
        assert k == LeaseKey(k.lexical, s.fs[k.lexical]);
        ConflictWithOneKey(s.shared.leases[m], s.shared.leases[l], i);
        assert false;
      }
    }
  }

  lemma StepKeepsFresh(s: State, a: Action)
    requires QueueInv(s) && LeaseInv(s) && Exclusive(s) && FreshInv(s) && Enabled(s, a) && !Strays(s, a)
    ensures FreshInv(Apply(s, a))
  {
    var t := Apply(s, a);
    forall w | w in t.clients ensures ClientKeysCovered(t, t.clients[w]) {
      StepKeepsClientKeys(s, a, w);
    }
    forall l, i | l in t.shared.leases && l !in t.mutated && 0 <= i < |t.shared.leases[l]|
      ensures KeyIsCurrent(t, t.shared.leases[l][i])
    {
      StepKeepsLeaseKey(s, a, l, i);
    }
  }

  lemma StepKeepsClientForm(s: State, a: Action)
    requires FormInv(s) && Enabled(s, a) && !a.TakeId?
    ensures WellFormedClient(s.root, Apply(s, a).clients[a.w])
  {
    assert WellFormedClient(s.root, s.clients[a.w]);
  }

  lemma StepKeepsForm(s: State, a: Action)
    requires FormInv(s) && Enabled(s, a)
    ensures FormInv(Apply(s, a))
  {
    var t := Apply(s, a);
    if !a.TakeId? {
      StepKeepsClientForm(s, a);
      assert WellFormedClient(s.root, s.clients[a.w]);
    }
    assert forall w :: w in t.clients && w in s.clients && (a.TakeId? || w != a.w) ==>
      t.clients[w] == s.clients[w] || WellFormedClient(s.root, t.clients[w]);
  }

  lemma StepKeepsInv(s: State, a: Action)
    requires Inv(s) && Enabled(s, a)
    ensures Inv(Apply(s, a))
  {
    StepKeepsQueue(s, a);
    StepKeepsLeases(s, a);
    StepKeepsExclusion(s, a);
    StepKeepsParked(s, a);
    StepKeepsForm(s, a);
    if !Apply(s, a).strayed {
      StepKeepsFresh(s, a);
    }
  }

  lemma {:induction false} RunKeepsInv(states: seq<State>, actions: seq<Action>, n: nat)
    requires IsRun(states, actions) && n < |states|
    ensures Inv(states[n])
  {
    if n > 0 {
      RunKeepsInv(states, actions, n - 1);
      assert Next(states[n - 1], actions[n - 1], states[n - 1 + 1]);
      StepKeepsInv(states[n - 1], actions[n - 1]);
    }
  }
}
