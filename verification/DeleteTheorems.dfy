/**
 What the durable DELETE protocol guarantees in every reachable state: no
 object is lost, destruction is authorised, and the reconciler stays within
 the intents it may act on.
 */
module DeleteTheorems {
  import opened DeleteProtocol
  import opened DeleteInvariants

  // ----- every trash name keeps its row

  /** A row leaves the store only once its trash name is gone. */
  lemma RowRemovalIsSafe(s: State, a: Action, job: nat)
    requires VolumeInv(s) && Enabled(s, a) && ActorOk(s, a) && job in s.rows && job !in Apply(s, a).rows
    ensures TrashGone(s, job)
  {
    assert s.history[|s.history| - 1] == s.volume;
  }

  lemma MoverKeepsRow(s: State, a: Action, job: nat, obj: nat)
    requires Enabled(s, a) && ActorOk(s, a) && MovesJob(s, a, job, obj)
    ensures job in Apply(s, a).rows
  {
  }

  lemma KeepsVersionCovered(s: State, a: Action, k: nat, job: nat)
    requires Inv(s) && Enabled(s, a) && !s.syncFailed
    requires k < |Apply(s, a).history| && Trash(job) in Apply(s, a).history[k].names
    ensures job in Apply(s, a).rows
  {
    ActorIsOk(s, a);
    var obj := Apply(s, a).history[k].names[Trash(job)];
    TrashOrigin(s, a, k, job);
    if MovesJob(s, a, job, obj) {
      MoverKeepsRow(s, a, job, obj);
    } else {
      var i :| 0 <= i < |s.history| && Holds(s.history[i], Trash(job), obj);
      assert Covered(s, s.history[i]);
      if job !in Apply(s, a).rows {
        RowRemovalIsSafe(s, a, job);
      }
    }
  }

  lemma CrashKeepsRows(s: State, a: Action)
    requires Inv(s) && Enabled(s, a) && a.Crash?
    ensures Covered(Apply(s, a), Apply(s, a).volume) <==> Covered(s, s.history[a.keep])
    ensures !s.syncFailed ==> Covered(s, s.history[a.keep])
  {
  }

  lemma StepKeepsRows(s: State, a: Action, job: nat)
    requires Inv(s) && Covered(s, s.volume) && Enabled(s, a) && !a.Crash? && Trash(job) in Apply(s, a).volume.names
    ensures job in Apply(s, a).rows
  {
    ActorIsOk(s, a);
    if obj :| MovesJob(s, a, job, obj) {
      MoverKeepsRow(s, a, job, obj);
    } else {
      if Trash(job) !in s.volume.names {
        TrashNameIsOld(s, a, job);
      }
      if job !in Apply(s, a).rows {
        RowRemovalIsSafe(s, a, job);
      }
    }
  }

  lemma KeepsVolumeCovered(s: State, a: Action, job: nat)
    requires Inv(s) && Enabled(s, a) && !Apply(s, a).reverted && Trash(job) in Apply(s, a).volume.names
    ensures job in Apply(s, a).rows
  {
    if a.Crash? {
      CrashKeepsRows(s, a);
      assert a.keep + 1 == |s.history| && s.history[a.keep] == s.volume;
    } else {
      StepKeepsRows(s, a, job);
    }
  }

  // ----- a removed trash name is still pending until somebody syncs

  lemma RemovalGoesOn(s: State, a: Action, job: nat)
    requires Enabled(s, a) && !a.Crash? && MidRemoval(s, job)
    requires !(a.SyncQuarantine? || a.SyncUnlink? || a.SyncIsolated?)
    ensures MidRemoval(Apply(s, a), job)
  {
    var t := Apply(s, a);
    if pid :| pid in s.reconcilers && s.reconcilers[pid].job == job && s.reconcilers[pid].phase.Moved? {
      ReconcilerGoesOn(s, a, pid);
      assert t.reconcilers[pid].job == job;
    } else {
      var tid :| tid in s.tasks && s.tasks[tid].job == job && Midway(s.tasks[tid].phase);
      TaskGoesOn(s, a, tid);
      assert t.tasks[tid].job == job;
    }
  }

  lemma ReconcilerGoesOn(s: State, a: Action, pid: nat)
    requires Enabled(s, a) && !a.Crash? && !a.SyncQuarantine? && ReconcilerIn(s, pid, ReconcilePhase.Moved)
    ensures pid in Apply(s, a).reconcilers && Apply(s, a).reconcilers[pid] == s.reconcilers[pid]
  {
  }

  lemma BusyWorkerWaits(s: State, a: Action, tid: nat)
    requires Enabled(s, a) && tid in s.tasks && Midway(s.tasks[tid].phase)
    ensures StepsTask(a) || a.Claim? ==> a.SyncUnlink? || a.SyncIsolated?
  {
  }

  lemma TaskGoesOn(s: State, a: Action, tid: nat)
    requires Enabled(s, a) && !a.Crash? && !a.SyncUnlink? && !a.SyncIsolated?
    requires tid in s.tasks && Midway(s.tasks[tid].phase)
    ensures tid in Apply(s, a).tasks && Apply(s, a).tasks[tid] == s.tasks[tid]
  {
    BusyWorkerWaits(s, a, tid);
  }

  lemma RemovalBegins(s: State, a: Action, job: nat)
    requires Enabled(s, a) && !a.Crash? && Trash(job) in s.volume.names && Trash(job) !in Apply(s, a).volume.names
    ensures MidRemoval(Apply(s, a), job)
  {
    var t := Apply(s, a);
    if LeavesTrashAlone(s, a, job) {
      TrashNameStays(s, a, job);
    } else if a.QuarantineTrash? {
      assert t.reconcilers[a.pid].job == job && t.reconcilers[a.pid].phase.Moved?;
    } else {
      RemoverIsMidway(s, a, job);
    }
  }

  lemma RemoverIsMidway(s: State, a: Action, job: nat)
    requires Enabled(s, a) && (a.Isolate? || a.Unlink?) && s.tasks[a.tid].job == job
    requires Trash(job) in s.volume.names && Trash(job) !in Apply(s, a).volume.names
    ensures a.tid in Apply(s, a).tasks && Apply(s, a).tasks[a.tid].job == job && Midway(Apply(s, a).tasks[a.tid].phase)
  {
  }

  lemma NothingWasSynced(s: State, a: Action)
    requires Enabled(s, a) && |Apply(s, a).history| > 1 && !Apply(s, a).syncFailed
    ensures !s.syncFailed && !a.Crash? && !(a.SyncQuarantine? || a.SyncUnlink? || a.SyncIsolated?)
  {
  }

  lemma KeepsPending(s: State, a: Action, k: nat, job: nat)
    requires Inv(s) && Enabled(s, a) && !Apply(s, a).syncFailed && k < |Apply(s, a).history|
    requires Trash(job) in Apply(s, a).history[k].names && Trash(job) !in Apply(s, a).volume.names
    ensures MidRemoval(Apply(s, a), job)
  {
    VersionsEvolve(s, a, k);
    NothingWasSynced(s, a);
    if Trash(job) in s.volume.names {
      RemovalBegins(s, a, job);
    } else {
      PendingBefore(s, Apply(s, a).history[k], job);
      RemovalGoesOn(s, a, job);
    }
  }

  lemma PendingBefore(s: State, v: Volume, job: nat)
    requires CoverInv(s) && !s.syncFailed && v in s.history && Trash(job) in v.names && Trash(job) !in s.volume.names
    ensures MidRemoval(s, job)
  {
    var i :| 0 <= i < |s.history| && s.history[i] == v;
    assert PendingOk(s, s.history[i]);
  }

  lemma KeepsCover(s: State, a: Action)
    requires Inv(s) && Enabled(s, a)
    ensures CoverInv(Apply(s, a))
  {
    var t := Apply(s, a);
    if !t.syncFailed {
      forall k | 0 <= k < |t.history| ensures PendingOk(t, t.history[k]) && Covered(t, t.history[k]) {
        forall j | Trash(j) in t.history[k].names ensures j in t.rows {
          KeepsVersionCovered(s, a, k, j);
        }
        forall j | Trash(j) in t.history[k].names && Trash(j) !in t.volume.names ensures MidRemoval(t, j) {
          KeepsPending(s, a, k, j);
        }
      }
    }
    if !t.reverted {
      forall j | Trash(j) in t.volume.names ensures j in t.rows {
        KeepsVolumeCovered(s, a, j);
      }
    }
  }

  // ----- every run

  /** Every step, crash included, keeps the invariant. */
  lemma StepKeepsInv(s: State, a: Action)
    requires Inv(s) && Enabled(s, a)
    ensures Inv(Apply(s, a))
  {
    KeepsVolume(s, a);
    KeepsAuthority(s, a);
    KeepsProcesses(s, a);
    KeepsCover(s, a);
  }

  lemma {:induction false} RunKeepsInv(states: seq<State>, actions: seq<Action>, i: nat)
    requires IsRun(states, actions) && i <= |actions|
    ensures Inv(states[i])
  {
    if i > 0 {
      RunKeepsInv(states, actions, i - 1);
      StepKeepsInv(states[i - 1], actions[i - 1]);
    }
  }

  ghost predicate Reachable(s: State) {
    exists states, actions :: IsRun(states, actions) && states[|actions|] == s
  }

  lemma ReachableStateIsOk(s: State)
    requires Reachable(s)
    ensures Inv(s)
  {
    var states, actions :| IsRun(states, actions) && states[|actions|] == s;
    RunKeepsInv(states, actions, |actions|);
  }

  // ----- where an object can be

  datatype Place = AtTarget(path: nat) | InTrash(job: nat) | InQuarantine(id: nat) | Destroyed

  /** In trash means under a live purge row that names this very object; destroyed
      means that no name is left and that a Ready row had authorised it. */
  ghost predicate IsAt(s: State, obj: nat, place: Place) {
    match place
    case AtTarget(path) => Holds(s.volume, Target(path), obj)
    case InTrash(job) => Holds(s.volume, Trash(job), obj) && job in s.rows && s.rows[job].source == obj
    case InQuarantine(id) => Holds(s.volume, Quarantine(id), obj)
    case Destroyed => !Present(s.volume, obj) && exists j, r :: (j, obj, r) in s.authorised
  }

  /** No object is in two places, and none is lost as long as every trash name has its row. */
  lemma ObjectHasExactlyOnePlace(s: State, obj: nat) returns (place: Place)
    requires Reachable(s) && obj in s.objects && Covered(s, s.volume)
    ensures IsAt(s, obj, place)
    ensures forall other :: IsAt(s, obj, other) ==> other == place
  {
    ReachableStateIsOk(s);
    assert VolumeOk(s, s.history[|s.history| - 1]);
    if Present(s.volume, obj) {
      var n :| n in s.volume.names && s.volume.names[n] == obj;
      match n {
        case Target(path) => place := AtTarget(path);
        case Trash(job) =>
          assert RowOk(s, job, s.rows[job]);
          place := InTrash(job);
        case Quarantine(id) => place := InQuarantine(id);
      }
      forall other | IsAt(s, obj, other) ensures other == place {
        AtMostOnePlace(s, obj, n, other);
      }
    } else {
      place := Destroyed;
    }
  }

  /** That is exactly when none is lost. */
  lemma NoObjectIsLostIffTrashIsCovered(s: State)
    requires Reachable(s)
    ensures (forall obj :: obj in s.objects ==> exists place :: IsAt(s, obj, place)) <==> Covered(s, s.volume)
  {
    ReachableStateIsOk(s);
    assert VolumeOk(s, s.history[|s.history| - 1]);
    if Covered(s, s.volume) {
      forall obj | obj in s.objects ensures exists place :: IsAt(s, obj, place) {
        var place := ObjectHasExactlyOnePlace(s, obj);
      }
    } else {
      var job :| Trash(job) in s.volume.names && job !in s.rows;
      forall place ensures !IsAt(s, s.volume.names[Trash(job)], place) {
        if IsAt(s, s.volume.names[Trash(job)], place) {
          AtMostOnePlace(s, s.volume.names[Trash(job)], Trash(job), place);
        }
      }
    }
  }

  /** And trash is covered whatever crashes happened, unless both the sync of a
      removal failed and a crash dropped an unsynced change. */
  lemma TrashIsCovered(s: State)
    requires Reachable(s) && !(s.syncFailed && s.reverted)
    ensures Covered(s, s.volume)
  {
    ReachableStateIsOk(s);
    assert s.history[|s.history| - 1] == s.volume;
  }

  lemma AtMostOnePlace(s: State, obj: nat, n: Name, other: Place)
    requires VolumeOk(s, s.volume) && Holds(s.volume, n, obj) && IsAt(s, obj, other)
    ensures match n
      case Target(path) => other == AtTarget(path)
      case Trash(job) => other == InTrash(job)
      case Quarantine(id) => other == InQuarantine(id)
  {
  }

  /** A trash name loses its row exactly in a crash that falls back to a version
      whose row is gone, which takes an unsynced change and a failed removal sync. */
  lemma RowIsLostOnlyByRevertingCrash(s: State, a: Action)
    requires Inv(s) && Covered(s, s.volume) && Enabled(s, a)
    ensures !Covered(Apply(s, a), Apply(s, a).volume) <==> a.Crash? && !Covered(s, s.history[a.keep])
    ensures a.Crash? && !Covered(s, s.history[a.keep]) ==> a.keep + 1 < |s.history| && s.syncFailed
  {
    if a.Crash? {
      CrashKeepsRows(s, a);
      assert s.history[|s.history| - 1] == s.volume;
    } else {
      forall job | Trash(job) in Apply(s, a).volume.names ensures job in Apply(s, a).rows {
        StepKeepsRows(s, a, job);
      }
    }
  }

  // ----- what the reconciler may do

  /** Once a reconciler owns its path lease no DELETE of that path is alive, and
      from the verified row on nor is the DELETE that recorded the intent. */
  lemma ReconcilerExcludesLiveDelete(s: State, pid: nat, q: nat)
    requires Reachable(s) && pid in s.reconcilers && q in s.deletes && !s.reconcilers[pid].phase.Waiting?
    ensures s.deletes[q].target != s.reconcilers[pid].target
    ensures s.reconcilers[pid].job in s.rows ==> s.deletes[q].job != s.reconcilers[pid].job
  {
    ReachableStateIsOk(s);
    assert ReconcilerOk(s, pid, s.reconcilers[pid]);
    assert DeleteOk(s, q, s.deletes[q]);
  }

  /** A Prepared row is never worked on: no task holds it, so nothing of it is unlinked or isolated. */
  lemma PreparedRowIsNoAuthority(s: State, job: nat, tid: nat)
    requires Reachable(s) && RowIs(s, job, Prepared) && tid in s.tasks
    ensures s.tasks[tid].job != job
  {
    ReachableStateIsOk(s);
    assert RowOk(s, job, s.rows[job]) && TaskOk(s, s.tasks[tid]);
  }

  ghost predicate TargetDiffers(v: Volume, w: Volume, path: nat) {
    || (Target(path) in v.names) != (Target(path) in w.names)
    || (Target(path) in v.names && v.names[Target(path)] != w.names[Target(path)])
  }

  /** The target is still the object, at the revision, that the request observed. */
  ghost predicate IsObserved(v: Volume, d: Delete) {
    && Target(d.target) in v.names && v.names[Target(d.target)] == d.obj
    && (if d.obj in v.revision then v.revision[d.obj] else 0) == d.revision
  }

  lemma TargetChanger(s: State, a: Action, path: nat)
    requires Enabled(s, a) && ActorOk(s, a) && !a.Crash? && TargetDiffers(s.volume, Apply(s, a).volume, path)
    ensures || (a.Publish? && a.path == path)
            || ((a.Move? || a.RenameError?) && s.deletes[a.pid].target == path && OwnsLease(s, a.pid, path)
                && IsObserved(s.volume, s.deletes[a.pid]))
  {
    assert VolumeAfter(s.volume, OnDisk(s, a)) == Apply(s, a).volume;
    if a.QuarantineTrash? && OnDisk(s, a).Change? {
      RenamedTarget(s.volume, Trash(s.reconcilers[a.pid].job), Quarantine(a.id), path);
    } else if a.Isolate? && OnDisk(s, a).Change? {
      RenamedTarget(s.volume, Trash(s.tasks[a.tid].job), Quarantine(a.id), path);
    } else if (a.Move? || a.RenameError?) && OnDisk(s, a).Change? {
      RenamedTarget(s.volume, Target(s.deletes[a.pid].target), Trash(s.deletes[a.pid].job), path);
    }
  }

  lemma RenamedTarget(v: Volume, from: Name, to: Name, path: nat)
    requires from in v.names && !to.Target?
    ensures TargetDiffers(v, Renaming(v, from, to), path) ==> from == Target(path)
  {
  }

  /** A target name changes only by being published, or by the DELETE that holds
      its lease moving exactly the object and revision it had observed: neither
      the reconciler nor the worker ever touches one. */
  lemma TargetIsChangedOnlyByItsDelete(s: State, a: Action, path: nat)
    requires Reachable(s) && Enabled(s, a) && !a.Crash? && TargetDiffers(s.volume, Apply(s, a).volume, path)
    ensures !StepsReconciler(a) && !StepsTask(a)
    ensures a.Publish? || (StepsDelete(a) && OwnsLease(s, a.pid, path))
    ensures !a.Publish? ==>
      var d := s.deletes[a.pid];
      d.target == path && s.volume.names[Target(path)] == d.obj && Revision(s.volume, d.obj) == d.revision
  {
    ReachableStateIsOk(s);
    ActorIsOk(s, a);
    TargetChanger(s, a, path);
  }

  // ----- what must have happened before an object is destroyed

  ghost predicate IsMove(states: seq<State>, actions: seq<Action>, m: int, d: Delete, revision: nat)
    requires |states| == |actions| + 1
  {
    && 0 <= m < |actions| && actions[m].Move?
    && Holds(states[m].volume, Target(d.target), d.obj) && Revision(states[m].volume, d.obj) == d.revision
    && Trash(d.job) !in states[m].volume.names && Target(d.target) !in states[m + 1].volume.names
    && Holds(states[m + 1].volume, Trash(d.job), d.obj) && Revision(states[m + 1].volume, d.obj) == revision
  }

  lemma {:induction false} RevisionComesFromTheRename(states: seq<State>, actions: seq<Action>, i: nat, pid: nat)
    returns (m: nat)
    requires IsRun(states, actions) && i <= |actions| && pid in states[i].deletes
    requires states[i].deletes[pid].phase.Renamed? || states[i].deletes[pid].phase.Synced?
    ensures m < i && IsMove(states, actions, m, states[i].deletes[pid], states[i].deletes[pid].phase.trashRevision)
  {
    assert i > 0;
    var s, a := states[i - 1], actions[i - 1];
    if a.Move? && a.pid == pid {
      m := i - 1;
    } else {
      PhaseIsOld(s, a, pid);
      m := RevisionComesFromTheRename(states, actions, i - 1, pid);
    }
  }

  lemma PhaseIsOld(s: State, a: Action, pid: nat)
    requires Enabled(s, a) && pid in Apply(s, a).deletes && !(a.Move? && a.pid == pid)
    requires Apply(s, a).deletes[pid].phase.Renamed? || Apply(s, a).deletes[pid].phase.Synced?
    ensures var d := Apply(s, a).deletes[pid];
      && pid in s.deletes && (s.deletes[pid].phase.Renamed? || s.deletes[pid].phase.Synced?)
      && s.deletes[pid].phase.trashRevision == d.phase.trashRevision
      && s.deletes[pid] == d.(phase := s.deletes[pid].phase)
  {
  }

  /** Ready was recorded for this object: its DELETE had moved it into trash, seen
      this revision afterwards, and made the move durable. */
  ghost predicate IsReadyRecord(states: seq<State>, actions: seq<Action>, m: int, job: nat, obj: nat, revision: nat)
    requires |states| == |actions| + 1
  {
    && 0 <= m < |actions| && actions[m].MarkReady? && actions[m].pid in states[m].deletes
    && var d := states[m].deletes[actions[m].pid];
    && d.job == job && d.obj == obj && d.phase == Synced(revision)
    && (forall k :: 0 <= k < |states[m].history| ==> Holds(states[m].history[k], Trash(job), obj))
    && exists n :: n < m && IsMove(states, actions, n, d, revision)
  }

  lemma {:induction false} AuthorityComesFromReady(
    states: seq<State>, actions: seq<Action>, i: nat, job: nat, obj: nat, revision: nat)
    returns (m: nat)
    requires IsRun(states, actions) && i <= |actions| && (job, obj, revision) in states[i].authorised
    ensures m < i && IsReadyRecord(states, actions, m, job, obj, revision)
  {
    assert i > 0;
    if (job, obj, revision) in states[i - 1].authorised {
      m := AuthorityComesFromReady(states, actions, i - 1, job, obj, revision);
    } else {
      m := i - 1;
      var pid := actions[m].pid;
      RunKeepsInv(states, actions, m);
      assert DeleteOk(states[m], pid, states[m].deletes[pid]);
      var n := RevisionComesFromTheRename(states, actions, m, pid);
    }
  }

  /** The worker unlinked this very object, at the revision of the row. */
  ghost predicate IsUnlink(states: seq<State>, actions: seq<Action>, m: int, job: nat, obj: nat, revision: nat)
    requires |states| == |actions| + 1
  {
    && 0 <= m < |actions| && actions[m].Unlink?
    && Holds(states[m].volume, Trash(job), obj) && Revision(states[m].volume, obj) == revision
  }

  lemma UnlinkDestroys(s: State, a: Action, obj: nat)
    requires Inv(s) && Enabled(s, a) && obj in Apply(s, a).destroyed && obj !in s.destroyed
    ensures a.Unlink? && var task := s.tasks[a.tid];
      && (task.job, obj, task.trashRevision) in s.authorised
      && Holds(s.volume, Trash(task.job), obj) && Revision(s.volume, obj) == task.trashRevision
  {
    DestroyerUnlinks(s, a, obj);
    assert TaskOk(s, s.tasks[a.tid]);
  }

  lemma DestroyerUnlinks(s: State, a: Action, obj: nat)
    requires Enabled(s, a) && obj in Apply(s, a).destroyed && obj !in s.destroyed
    ensures a.Unlink? && MayUnlink(s.volume, s.tasks[a.tid]) && obj == s.tasks[a.tid].source
  {
  }

  lemma DestroyedNow(states: seq<State>, actions: seq<Action>, u: nat, obj: nat)
    returns (m: nat, job: nat, revision: nat)
    requires IsRun(states, actions) && u < |actions| && obj in states[u + 1].destroyed && obj !in states[u].destroyed
    ensures m < u && IsReadyRecord(states, actions, m, job, obj, revision)
    ensures IsUnlink(states, actions, u, job, obj, revision)
  {
    RunKeepsInv(states, actions, u);
    UnlinkDestroys(states[u], actions[u], obj);
    var task := states[u].tasks[actions[u].tid];
    job, revision := task.job, task.trashRevision;
    m := AuthorityComesFromReady(states, actions, u, job, obj, revision);
  }

  /** An object is destroyed only by an unlink at the recorded revision, after
      Ready was recorded, after its own DELETE moved it. */
  lemma {:induction false} DestroyedOnlyAfterReady(states: seq<State>, actions: seq<Action>, i: nat, obj: nat)
    returns (m: nat, u: nat, job: nat, revision: nat)
    requires IsRun(states, actions) && i <= |actions| && obj in states[i].destroyed
    ensures m < u < i
    ensures IsReadyRecord(states, actions, m, job, obj, revision)
    ensures IsUnlink(states, actions, u, job, obj, revision)
  {
    assert i > 0;
    if obj in states[i - 1].destroyed {
      m, u, job, revision := DestroyedOnlyAfterReady(states, actions, i - 1, obj);
    } else {
      u := i - 1;
      m, job, revision := DestroyedNow(states, actions, u, obj);
    }
  }
}
