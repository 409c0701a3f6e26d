/**
 Recurring stretches of steps of one request for a single path, from which
 longer runs are put together.
 */
module PathLeaseMoves {
  import opened Basics
  import opened PathKeys
  import opened PathCoordinator
  import opened PathLeaseProtocol
  import opened PathLeaseSchedules

  ghost predicate Reaches(s: State, t: State) {
    exists actions :: RunsTo(s, actions, t)
  }

  lemma Then(s: State, t: State, u: State)
    requires Reaches(s, t) && Reaches(t, u)
    ensures Reaches(s, u)
  {
    var first :| RunsTo(s, first, t);
    var second :| RunsTo(t, second, u);
    RunsToThen(s, first, t, second, u);
  }

  lemma One(s: State, a: Action, t: State)
    requires Next(s, a, t)
    ensures Reaches(s, t)
  {
    assert RunsTo(t, [a][1..], t);
    assert RunsTo(s, [a], t);
  }

  lemma Two(s: State, a: Action, t: State, b: Action, u: State)
    requires Next(s, a, t) && Next(t, b, u)
    ensures Reaches(s, u)
  {
    One(s, a, t);
    One(t, b, u);
    Then(s, t, u);
  }

  lemma Three(s: State, t: State, u: State, v: State)
    requires Reaches(s, t) && Reaches(t, u) && Reaches(u, v)
    ensures Reaches(s, v)
  {
    Then(s, t, u);
    Then(s, u, v);
  }

  // ----- single stretches

  function Queued(shared: Shared, p: Path): Shared {
    var w := shared.nextWaiterId;
    shared.(nextWaiterId := w + 1, waiters := shared.waiters[w := Resolving([p])])
  }

  ghost function Enlisted(s: State, p: Path): State {
    With(s, s.shared.nextWaiterId, Client([p], LoopTop, 0, 0, None), Queued(s.shared, p))
  }

  ghost function Observed(s: State, w: nat): State
    requires w in s.clients
  {
    With(s, w, s.clients[w].(phase := EpochRead, seen := s.shared.changes, expectedEpoch := s.shared.leaseEpoch),
      s.shared)
  }

  ghost function Rekeyed(s: State, w: nat, p: Path): State
    requires w in s.clients && p in s.fs
  {
    var c := s.clients[w];
    With(s, w, c.(phase := Attempting, cached := Some(CachedKeys(c.expectedEpoch, [LeaseKey(p, s.fs[p])]))),
         s.shared.(waiters := s.shared.waiters[w := Resolving([p])]))
  }

  lemma Enlist(s: State, p: Path)
    requires s.shared.nextWaiterId !in s.clients
    ensures Reaches(s, Enlisted(s, p))
  {
    var w, t := s.shared.nextWaiterId, Apply(s, TakeId([p]));
    assert Apply(t, Insert(w)) == Enlisted(s, p);
    Two(s, TakeId([p]), t, Insert(w), Enlisted(s, p));
  }

  lemma Observe(s: State, w: nat)
    requires w in s.clients && s.clients[w].phase.LoopTop?
    ensures Reaches(s, Observed(s, w))
  {
    var t := Apply(s, SeeVersion(w));
    assert Apply(t, ReadEpoch(w)) == Observed(s, w);
    Two(s, SeeVersion(w), t, ReadEpoch(w), Observed(s, w));
  }

  lemma WakeAndObserve(s: State, w: nat)
    requires w in s.clients && s.clients[w].phase.Parked? && s.clients[w].seen != s.shared.changes
    ensures Reaches(s, Observed(s, w))
  {
    var t := Apply(s, Wake(w));
    One(s, Wake(w), t);
    Observe(t, w);
    assert Observed(t, w) == Observed(s, w);
    Then(s, t, Observed(s, w));
  }

  lemma Rekey(s: State, w: nat, p: Path)
    requires w in s.clients && w in s.shared.waiters && s.clients[w].phase.EpochRead? && s.clients[w].paths == [p]
    requires p in s.fs
    requires StartsResolving(s, w)
    ensures Reaches(s, Rekeyed(s, w, p))
  {
    var key := LeaseKey(p, s.fs[p]);
    var t := Apply(s, CheckCache(w));
    assert t.clients[w].phase == ResolvingKeys([]);
    One(s, CheckCache(w), t);
    var u := Apply(t, ResolveNext(w, false));
    assert [] + [key] == [key];
    assert u.clients[w].phase == ResolvingKeys([key]);
    assert Apply(u, FinishResolving(w)) == Rekeyed(s, w, p);
    Two(t, ResolveNext(w, false), u, FinishResolving(w), Rekeyed(s, w, p));
    Then(s, t, Rekeyed(s, w, p));
  }

  // ----- a new request, up to its first attempt

  predicate NobodyIntersects(waiters: map<nat, WaiterState>, p: Path) {
    forall e :: e in waiters ==> !WaiterLexicallyConflicts(waiters[e], [p])
  }

  /** The request is new, and no queued one intersects its path lexically. */
  ghost predicate CanArrive(s: State, p: Path) {
    && s.shared.nextWaiterId !in s.clients && s.shared.nextWaiterId !in s.shared.waiters
    && p in s.fs && s.leaseLock == None && NobodyIntersects(s.shared.waiters, p)
  }

  ghost function ArrivedClient(s: State, p: Path, phase: Phase): Client
    requires p in s.fs
  {
    Client([p], phase, s.shared.changes, s.shared.leaseEpoch,
      Some(CachedKeys(s.shared.leaseEpoch, [LeaseKey(p, s.fs[p])])))
  }

  lemma Arrive(s: State, p: Path)
    requires CanArrive(s, p)
    ensures Reaches(s, With(s, s.shared.nextWaiterId, ArrivedClient(s, p, Attempting), Queued(s.shared, p)))
  {
    var w := s.shared.nextWaiterId;
    var t := Enlisted(s, p);
    var u := Observed(t, w);
    Enlist(s, p);
    Observe(t, w);
    assert !EarlierWaiterIntersects(u.shared.waiters, w, [p]);
    Rekey(u, w, p);
    Three(s, t, u, Rekeyed(u, w, p));
    ArrivedState(s, p);
  }

  lemma ArrivedState(s: State, p: Path)
    requires p in s.fs
    ensures
      var w := s.shared.nextWaiterId;
      Rekeyed(Observed(Enlisted(s, p), w), w, p) == With(s, w, ArrivedClient(s, p, Attempting), Queued(s.shared, p))
  {
    var w := s.shared.nextWaiterId;
    var t := Rekeyed(Observed(Enlisted(s, p), w), w, p);
    assert t.clients == s.clients[w := ArrivedClient(s, p, Attempting)];
    assert t.shared.waiters == s.shared.waiters[w := Resolving([p])];
  }

  lemma TryOnce(s: State, w: nat, shared: Shared, c: Client, t: State)
    requires t == With(s, w, c, shared) && c.phase.Attempting? && c.cached.Some? && s.leaseLock == None
    ensures
      var r := TryAcquire(shared, c.cached.value.keys, c.expectedEpoch, w);
      Reaches(t, With(s, w, c.(phase := PhaseAfter(r.1)), r.0))
  {
    var r := TryAcquire(shared, c.cached.value.keys, c.expectedEpoch, w);
    var c' := c.(phase := PhaseAfter(r.1));
    assert t.clients[w := c'] == s.clients[w := c'];
    One(t, Attempt(w), With(s, w, c', r.0));
  }

  function Leased(shared: Shared, key: LeaseKey): Shared {
    shared.(leases := shared.leases[shared.nextId := [key]], nextId := shared.nextId + 1,
            nextWaiterId := shared.nextWaiterId + 1, changes := shared.changes + 1)
  }

  /** With an empty queue and no conflicting lease a new request gets its lease. */
  lemma ArriveAndHold(s: State, p: Path)
    requires CanArrive(s, p) && s.shared.waiters == map[]
    requires !HeldLeaseConflicts(s.shared.leases, [LeaseKey(p, s.fs[p])])
    ensures Reaches(s, With(s, s.shared.nextWaiterId, ArrivedClient(s, p, Holding(s.shared.nextId)),
                            Leased(s.shared, LeaseKey(p, s.fs[p]))))
  {
    var w, key, c := s.shared.nextWaiterId, LeaseKey(p, s.fs[p]), ArrivedClient(s, p, Attempting);
    var queued := Queued(s.shared, p);
    Arrive(s, p);
    assert queued.waiters[w := Resolved([key])] - {w} == map[];
    assert TryAcquire(queued, [key], c.expectedEpoch, w) == (Leased(s.shared, key), Acquired(s.shared.nextId));
    TryOnce(s, w, queued, c, With(s, w, c, queued));
    Then(s, With(s, w, c, queued), With(s, w, ArrivedClient(s, p, Holding(s.shared.nextId)), Leased(s.shared, key)));
  }

  lemma BlockedAttempt(shared: Shared, keys: seq<LeaseKey>, w: nat)
    requires w in shared.waiters
    requires HeldLeaseConflicts(shared.leases, keys) || EarlierWaiterConflicts(shared.waiters, w, keys)
    ensures TryAcquire(shared, keys, shared.leaseEpoch, w) ==
      (shared.(waiters := shared.waiters[w := Resolved(keys)],
               changes := if shared.waiters[w].Resolving? then shared.changes + 1 else shared.changes), Blocked)
  {
    var waiters := shared.waiters[w := Resolved(keys)];
    if e :| e in shared.waiters && e < w && WaiterConflicts(shared.waiters[e], keys) {
      assert e in waiters && waiters[e] == shared.waiters[e];
    }
  }

  function Waiting(shared: Shared, key: LeaseKey): Shared {
    var w := shared.nextWaiterId;
    shared.(waiters := shared.waiters[w := Resolved([key])], nextWaiterId := w + 1, changes := shared.changes + 1)
  }

  /** Blocked by a lease or by an earlier request, a new request parks. */
  lemma ArriveAndPark(s: State, p: Path)
    requires CanArrive(s, p)
    requires
      var key := LeaseKey(p, s.fs[p]);
      HeldLeaseConflicts(s.shared.leases, [key])
        || EarlierWaiterConflicts(s.shared.waiters, s.shared.nextWaiterId, [key])
    ensures Reaches(s, With(s, s.shared.nextWaiterId, ArrivedClient(s, p, Parked),
      Waiting(s.shared, LeaseKey(p, s.fs[p]))))
  {
    var w, key, c := s.shared.nextWaiterId, LeaseKey(p, s.fs[p]), ArrivedClient(s, p, Attempting);
    var queued := Queued(s.shared, p);
    Arrive(s, p);
    BlockedArrival(s.shared, p, key);
    TryOnce(s, w, queued, c, With(s, w, c, queued));
    Then(s, With(s, w, c, queued), With(s, w, ArrivedClient(s, p, Parked), Waiting(s.shared, key)));
  }

  lemma BlockedArrival(shared: Shared, p: Path, key: LeaseKey)
    requires shared.nextWaiterId !in shared.waiters
    requires HeldLeaseConflicts(shared.leases, [key])
      || EarlierWaiterConflicts(shared.waiters, shared.nextWaiterId, [key])
    ensures TryAcquire(Queued(shared, p), [key], shared.leaseEpoch, shared.nextWaiterId) ==
      (Waiting(shared, key), Blocked)
  {
    var w, queued := shared.nextWaiterId, Queued(shared, p);
    if e :| e in shared.waiters && e < w && WaiterConflicts(shared.waiters[e], [key]) {
      assert queued.waiters[e] == shared.waiters[e];
    }
    BlockedAttempt(queued, [key], w);
    assert queued.waiters[w := Resolved([key])] == shared.waiters[w := Resolved([key])];
  }

  // ----- waking up and leaving

  /** A parked request wakes, finds its keys current, and is blocked again: nobody is notified. */
  lemma RetryAndPark(s: State, w: nat)
    requires w in s.clients && w in s.shared.waiters && s.clients[w].phase.Parked?
    requires s.clients[w].seen != s.shared.changes
    requires s.clients[w].cached.Some? && s.clients[w].cached.value.epoch == s.shared.leaseEpoch && s.leaseLock == None
    requires s.shared.waiters[w] == Resolved(s.clients[w].cached.value.keys)
    requires
      var keys := s.clients[w].cached.value.keys;
      HeldLeaseConflicts(s.shared.leases, keys) || EarlierWaiterConflicts(s.shared.waiters, w, keys)
    ensures Reaches(s, With(s, w, s.clients[w].(seen := s.shared.changes, expectedEpoch := s.shared.leaseEpoch),
      s.shared))
  {
    var t := Observed(s, w);
    WakeAndObserve(s, w);
    var c := t.clients[w].(phase := Attempting);
    var u := With(s, w, c, s.shared);
    assert u.clients == t.clients[w := c];
    One(t, CheckCache(w), u);
    BlockedAttempt(s.shared, c.cached.value.keys, w);
    assert s.shared.waiters[w := s.shared.waiters[w]] == s.shared.waiters;
    TryOnce(s, w, s.shared, c, u);
    Three(s, t, u, With(s, w, s.clients[w].(seen := s.shared.changes, expectedEpoch := s.shared.leaseEpoch), s.shared));
  }

  /** A holder changes the file system. */
  lemma ChangeMeanings(s: State, w: nat, fs': Meanings)
    requires w in s.clients && s.clients[w].phase.Holding? && s.clients[w].phase.lease in s.shared.leases
    requires WellFormedFs(s.root, fs')
    ensures
      var l := s.clients[w].phase.lease;
      Reaches(s, s.(fs := fs', mutated := s.mutated + {l},
                    strayed := s.strayed || !MutationWithinLease(s.shared.leases[l], s.fs, fs')))
  {
    assert s.clients[w := s.clients[w]] == s.clients;
    One(s, Mutate(w, fs'), Apply(s, Mutate(w, fs')));
  }

  /** A holder drops its lease and notifies. */
  lemma EndLease(s: State, w: nat)
    requires w in s.clients && s.clients[w].phase.Holding? && s.leaseLock == None
    ensures Reaches(s, With(s, w, s.clients[w].(phase := Finished),
      Notify(RemoveLease(s.shared, s.clients[w].phase.lease))))
  {
    var t := Apply(s, Release(w));
    var u := Apply(t, NotifyRelease(w));
    Two(s, Release(w), t, NotifyRelease(w), u);
    assert u.clients == s.clients[w := s.clients[w].(phase := Finished)];
  }
}
