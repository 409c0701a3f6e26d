/**
 The state guarded by the coordinator's two mutexes and two atomics, the
 critical sections that change it, and the class that carries them out.

 Each critical section is a function on the `Shared` value; the methods of
 `Coordinator` are proved to realise those functions, and the lease protocol
 interleaves the same functions between concurrent requests.
 */
module PathCoordinator {
  import opened Basics
  import opened PathKeys

  datatype WaiterState = Resolving(lexicalPaths: seq<Path>) | Resolved(keys: seq<LeaseKey>)

  datatype AcquireAttempt = Acquired(lease: nat) | Blocked | Stale

  datatype Shared = Shared(
    leases: map<nat, seq<LeaseKey>>,
    waiters: map<nat, WaiterState>,
    nextId: nat,
    nextWaiterId: nat,
    leaseEpoch: nat,
    changes: nat)

  function LexicalPaths(waiter: WaiterState): (paths: seq<Path>)
    ensures |paths| == if waiter.Resolving? then |waiter.lexicalPaths| else |waiter.keys|
  {
    match waiter
    case Resolving(paths) => paths
    case Resolved(keys) => Lexicals(keys)
  }

  function Lexicals(keys: seq<LeaseKey>): seq<Path> {
    seq(|keys|, i requires 0 <= i < |keys| => keys[i].lexical)
  }

  predicate AnyIntersect(left: seq<Path>, right: seq<Path>) {
    exists i, j :: 0 <= i < |left| && 0 <= j < |right| && LexicallyIntersect(left[i], right[j])
  }

  /** A resolving waiter excludes only lexically intersecting requests; a
      resolved waiter excludes every semantic conflict. */
  predicate WaiterConflicts(waiter: WaiterState, requested: seq<LeaseKey>) {
    match waiter
    case Resolving(paths) => AnyIntersect(paths, Lexicals(requested))
    case Resolved(keys) => PathsConflict(keys, requested)
  }

  predicate WaiterLexicallyConflicts(waiter: WaiterState, requested: seq<Path>) {
    AnyIntersect(LexicalPaths(waiter), requested)
  }

  predicate HeldLeaseConflicts(leases: map<nat, seq<LeaseKey>>, requested: seq<LeaseKey>) {
    exists id :: id in leases && PathsConflict(leases[id], requested)
  }

  predicate EarlierWaiterConflicts(waiters: map<nat, WaiterState>, waiter: nat, requested: seq<LeaseKey>) {
    exists id :: id in waiters && id < waiter && WaiterConflicts(waiters[id], requested)
  }

  predicate EarlierWaiterIntersects(waiters: map<nat, WaiterState>, waiter: nat, requested: seq<Path>) {
    exists id :: id in waiters && id < waiter && WaiterLexicallyConflicts(waiters[id], requested)
  }

  function Initial(): Shared {
    Shared(map[], map[], 1, 1, 0, 0)
  }

  function Notify(s: Shared): Shared {
    s.(changes := s.changes + 1)
  }

  /** `mark_resolving_if_eligible`: the queue check that precedes a resolution. */
  predicate EligibleToResolve(s: Shared, waiter: nat, lexical: seq<Path>, previous: Option<seq<LeaseKey>>) {
    match previous
    case None => !EarlierWaiterIntersects(s.waiters, waiter, lexical)
    case Some(keys) => !EarlierWaiterConflicts(s.waiters, waiter, keys)
  }

  function MarkResolving(s: Shared, waiter: nat, lexical: seq<Path>): Shared {
    if waiter in s.waiters then s.(waiters := s.waiters[waiter := Resolving(lexical)]) else s
  }

  function TryAcquire(s: Shared, requested: seq<LeaseKey>, expectedEpoch: nat, waiter: nat)
    : (r: (Shared, AcquireAttempt))
  {
    if s.leaseEpoch != expectedEpoch || waiter !in s.waiters then
      (s, Stale)
    else
      var becameResolved := s.waiters[waiter].Resolving?;
      var waiters := s.waiters[waiter := Resolved(requested)];
      if HeldLeaseConflicts(s.leases, requested) || EarlierWaiterConflicts(waiters, waiter, requested) then
        (Shared(s.leases, waiters, s.nextId, s.nextWaiterId, s.leaseEpoch,
                if becameResolved then s.changes + 1 else s.changes), Blocked)
      else
        (Shared(s.leases[s.nextId := requested], waiters - {waiter}, s.nextId + 1, s.nextWaiterId,
                s.leaseEpoch, s.changes + 1), Acquired(s.nextId))
  }

  /** `WaiterRegistration::drop`, before its notification. */
  function RemoveWaiter(s: Shared, waiter: nat): Shared {
    s.(waiters := s.waiters - {waiter})
  }

  /** `PathLease::drop`, before its notification. */
  function RemoveLease(s: Shared, lease: nat): Shared {
    s.(leases := s.leases - {lease}, leaseEpoch := s.leaseEpoch + 1)
  }

  class Coordinator {
    var leases: map<nat, seq<LeaseKey>>
    var waiters: map<nat, WaiterState>
    var nextId: nat
    var nextWaiterId: nat
    var leaseEpoch: nat
    var changes: nat

    ghost function View(): Shared
      reads this
    {
      Shared(leases, waiters, nextId, nextWaiterId, leaseEpoch, changes)
    }

    constructor ()
      ensures View() == Initial()
    {
      leases, waiters := map[], map[];
      nextId, nextWaiterId, leaseEpoch, changes := 1, 1, 0, 0;
    }

    /** `WaiterRegistration::new`: two steps, so another request may run in between. */
    method Register(lexical: seq<Path>) returns (id: nat)
      modifies this
      ensures id == old(nextWaiterId)
      ensures View() == old(View()).(nextWaiterId := id + 1, waiters := old(waiters)[id := Resolving(lexical)])
    {
      id := nextWaiterId;
      nextWaiterId := nextWaiterId + 1;
      waiters := waiters[id := Resolving(lexical)];
    }

    method MarkResolvingIfEligible(id: nat, lexical: seq<Path>, previous: Option<seq<LeaseKey>>)
      returns (eligible: bool)
      modifies this
      ensures eligible == EligibleToResolve(old(View()), id, lexical, previous)
      ensures View() == if eligible then MarkResolving(old(View()), id, lexical) else old(View())
    {
      var blocked := match previous
        case None => EarlierWaiterIntersects(waiters, id, lexical)
        case Some(keys) => EarlierWaiterConflicts(waiters, id, keys);
      if blocked {
        return false;
      }
      if id in waiters {
        waiters := waiters[id := Resolving(lexical)];
      }
      return true;
    }

    method TryAcquireLease(requested: seq<LeaseKey>, expectedEpoch: nat, id: nat)
      returns (attempt: AcquireAttempt)
      modifies this
      ensures (View(), attempt) == TryAcquire(old(View()), requested, expectedEpoch, id)
    {
      if leaseEpoch != expectedEpoch {
        return Stale;
      }
      if id !in waiters {
        return Stale;
      }
      var becameResolved := waiters[id].Resolving?;
      waiters := waiters[id := Resolved(requested)];
      if HeldLeaseConflicts(leases, requested) || EarlierWaiterConflicts(waiters, id, requested) {
        if becameResolved {
          changes := changes + 1;
        }
        return Blocked;
      }
      var lease := nextId;
      nextId := nextId + 1;
      waiters := waiters - {id};
      leases := leases[lease := requested];
      changes := changes + 1;
      return Acquired(lease);
    }

    method DropRegistration(id: nat)
      modifies this
      ensures View() ==
        if id in old(waiters) then Notify(RemoveWaiter(old(View()), id)) else old(View())
    {
      if id in waiters {
        waiters := waiters - {id};
        changes := changes + 1;
      }
    }

    method DropLease(id: nat)
      modifies this
      ensures View() ==
        if id in old(leases) then Notify(RemoveLease(old(View()), id)) else old(View())
    {
      if id in leases {
        leases := leases - {id};
        leaseEpoch := leaseEpoch + 1;
        changes := changes + 1;
      }
    }
  }
}
