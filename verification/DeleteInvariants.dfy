/**
 The invariants of the durable DELETE protocol and the proof that every step
 and every crash keeps them.
 */
module DeleteInvariants {
  import opened Basics
  import opened DeleteProtocol

  ghost predicate Present(v: Volume, obj: nat) {
    exists n :: n in v.names && v.names[n] == obj
  }

  /** Names denote distinct known objects; an object without a name was unlinked by the worker. */
  ghost predicate VolumeOk(s: State, v: Volume) {
    && (forall m, n :: m in v.names && n in v.names && m != n ==> v.names[m] != v.names[n])
    && (forall n :: n in v.names ==> v.names[n] in s.objects)
    && (forall j :: Trash(j) in v.names ==> j in s.jobs)
    && (forall o :: o in s.objects && !Present(v, o) ==> o in s.destroyed)
  }

  ghost predicate VolumeInv(s: State) {
    && |s.history| > 0
    && s.history[|s.history| - 1] == s.volume
    && forall k :: 0 <= k < |s.history| ==> VolumeOk(s, s.history[k])
  }

  /** No version a crash could leave behind has this trash name. */
  ghost predicate NeverTrashed(s: State, job: nat) {
    forall k :: 0 <= k < |s.history| ==> Trash(job) !in s.history[k].names
  }

  ghost predicate TrashGone(s: State, job: nat) {
    Trash(job) !in s.volume.names && (!s.syncFailed ==> NeverTrashed(s, job))
  }

  ghost predicate IsAuthorised(s: State, job: nat) {
    exists obj, r :: (job, obj, r) in s.authorised
  }

  ghost predicate RowOk(s: State, job: nat, row: Row) {
    && job in s.jobs
    && (row.state.Prepared? <==> !IsAuthorised(s, job))
    && (row.state.Ready? || row.state.Claimed? ==> (job, row.source, row.state.trashRevision) in s.authorised)
    && forall k :: 0 <= k < |s.history| && Trash(job) in s.history[k].names ==>
         s.history[k].names[Trash(job)] == row.source
  }

  ghost predicate DeleteOk(s: State, pid: nat, d: Delete) {
    && d.job in s.jobs
    && d.target in s.leases && s.leases[d.target] == pid
    && (d.job in s.rows ==> s.rows[d.job].target == d.target && s.rows[d.job].source == d.obj)
    && (d.phase.Leased? ==> d.job !in s.rows && !IsAuthorised(s, d.job) && NeverTrashed(s, d.job))
    && (d.phase.Intent? || d.phase.Rejected? ==> NeverTrashed(s, d.job))
    && (d.phase.Intent? || d.phase.Rejected? || d.phase.Renamed? || d.phase.Synced? ==>
          d.job in s.rows && s.rows[d.job] == Row(d.target, d.obj, Prepared))
    && (d.phase.Renamed? ==> Holds(s.volume, Trash(d.job), d.obj))
    && (d.phase.Synced? ==> forall k :: 0 <= k < |s.history| ==> Holds(s.history[k], Trash(d.job), d.obj))
  }

  ghost predicate ReconcilerOk(s: State, pid: nat, r: Reconciler) {
    && pid !in s.deletes
    && (!r.phase.Waiting? ==> r.target in s.leases && s.leases[r.target] == pid)
    && r.job in s.jobs && (r.job in s.rows ==> s.rows[r.job].target == r.target)
    && (forall q :: q in s.deletes && s.deletes[q].phase.Leased? ==> s.deletes[q].job != r.job)
    && (r.phase.Verified? || r.phase.Moved? || r.phase.Settled? ==> RowIs(s, r.job, Prepared))
    && (r.phase.Moved? ==> Trash(r.job) !in s.volume.names)
    && (r.phase.Settled? ==> TrashGone(s, r.job))
  }

  ghost predicate TaskOk(s: State, t: Task) {
    && (t.job, t.source, t.trashRevision) in s.authorised
    && (t.phase.Opened? ==> t.phase.obj == t.source)
    && (Midway(t.phase) ==> Trash(t.job) !in s.volume.names)
    && (t.phase.Finishing? ==> TrashGone(s, t.job))
  }

  ghost predicate ProcessInv(s: State) {
    && (forall pid :: pid in s.deletes ==> DeleteOk(s, pid, s.deletes[pid]))
    && (forall pid, q :: pid in s.deletes && q in s.deletes && pid != q ==> s.deletes[pid].job != s.deletes[q].job)
    && (forall pid :: pid in s.reconcilers ==> ReconcilerOk(s, pid, s.reconcilers[pid]))
    && (forall t :: t in s.tasks ==> TaskOk(s, s.tasks[t]))
    && (forall t, u :: t in s.tasks && u in s.tasks && t != u && Midway(s.tasks[t].phase) ==> !Midway(s.tasks[u].phase))
  }

  ghost predicate AuthorityInv(s: State) {
    && (forall j :: j in s.rows ==> RowOk(s, j, s.rows[j]))
    && (forall e :: e in s.authorised ==> e.0 in s.jobs)
    && (forall o :: o in s.destroyed ==> exists j, r :: (j, o, r) in s.authorised)
  }

  /** Somebody is between removing this trash name and syncing the removal. */
  ghost predicate MidRemoval(s: State, job: nat) {
    || (exists pid :: pid in s.reconcilers && s.reconcilers[pid].job == job && s.reconcilers[pid].phase.Moved?)
    || (exists t :: t in s.tasks && s.tasks[t].job == job && Midway(s.tasks[t].phase))
  }

  ghost predicate PendingOk(s: State, v: Volume) {
    forall j :: Trash(j) in v.names && Trash(j) !in s.volume.names ==> MidRemoval(s, j)
  }

  ghost predicate Covered(s: State, v: Volume) {
    forall j :: Trash(j) in v.names ==> j in s.rows
  }

  ghost predicate CoverInv(s: State) {
    && (!s.syncFailed ==> forall k :: 0 <= k < |s.history| ==> PendingOk(s, s.history[k]) && Covered(s, s.history[k]))
    && (!s.reverted ==> Covered(s, s.volume))
  }

  ghost predicate Inv(s: State) {
    VolumeInv(s) && AuthorityInv(s) && ProcessInv(s) && CoverInv(s)
  }

  // ----- how the directory versions evolve

  /** A step leaves only old versions and the new current one behind. */
  lemma VersionsEvolve(s: State, a: Action, k: nat)
    requires VolumeInv(s) && Enabled(s, a) && k < |Apply(s, a).history|
    ensures |Apply(s, a).history| > 0 && Apply(s, a).history[|Apply(s, a).history| - 1] == Apply(s, a).volume
    ensures Apply(s, a).history[k] == Apply(s, a).volume || Apply(s, a).history[k] in s.history
  {
  }

  ghost predicate MovesJob(s: State, a: Action, job: nat, obj: nat) {
    && (a.Move? || (a.RenameError? && a.happened))
    && DeleteIn(s, a.pid, Intent) && MayMove(s.volume, s.deletes[a.pid])
    && s.deletes[a.pid].job == job && s.deletes[a.pid].obj == obj
  }

  /** A trash name is either old, with the object it always had, or made by its own DELETE. */
  lemma TrashOrigin(s: State, a: Action, k: nat, job: nat)
    requires VolumeInv(s) && Enabled(s, a) && k < |Apply(s, a).history|
    requires Trash(job) in Apply(s, a).history[k].names
    ensures var obj := Apply(s, a).history[k].names[Trash(job)];
      MovesJob(s, a, job, obj) || exists i :: 0 <= i < |s.history| && Holds(s.history[i], Trash(job), obj)
  {
    var v := Apply(s, a).history[k];
    VersionsEvolve(s, a, k);
    if v in s.history {
      var i :| 0 <= i < |s.history| && s.history[i] == v;
      assert Holds(s.history[i], Trash(job), v.names[Trash(job)]);
    } else if !MovesJob(s, a, job, v.names[Trash(job)]) {
      assert Holds(s.history[|s.history| - 1], Trash(job), v.names[Trash(job)]);
    }
  }

  lemma NeverTrashedStays(s: State, a: Action, job: nat)
    requires VolumeInv(s) && Enabled(s, a) && NeverTrashed(s, job)
    requires forall obj :: !MovesJob(s, a, job, obj)
    ensures NeverTrashed(Apply(s, a), job)
  {
    forall k | 0 <= k < |Apply(s, a).history| ensures Trash(job) !in Apply(s, a).history[k].names {
      if Trash(job) in Apply(s, a).history[k].names {
        TrashOrigin(s, a, k, job);
      }
    }
  }

  // ----- the directory itself

  lemma RenamingIsOk(s: State, v: Volume, from: Name, to: Name)
    requires VolumeOk(s, v) && from in v.names && to !in v.names && (to.Trash? ==> to.job in s.jobs)
    ensures VolumeOk(s, Renaming(v, from, to))
  {
    var w := Renaming(v, from, to);
    forall o | o in s.objects && !Present(w, o) ensures o in s.destroyed {
      assert forall n :: n in v.names ==> Holds(w, if n == from then to else n, v.names[n]);
    }
  }

  lemma RemovingIsOk(s: State, t: State, v: Volume, name: Name)
    requires VolumeOk(s, v) && name in v.names
    requires t.objects == s.objects && t.jobs == s.jobs && s.destroyed + {v.names[name]} <= t.destroyed
    ensures VolumeOk(t, v.(names := v.names - {name}))
  {
    var w := v.(names := v.names - {name});
    forall o | o in t.objects && !Present(w, o) ensures o in t.destroyed {
      if Present(v, o) {
        var n :| n in v.names && v.names[n] == o;
        assert n == name || Holds(w, n, o);
      }
    }
  }

  lemma PublishIsOk(s: State, a: Action)
    requires VolumeInv(s) && Enabled(s, a) && a.Publish?
    ensures VolumeOk(Apply(s, a), Apply(s, a).volume)
  {
    var t := Apply(s, a);
    assert VolumeOk(s, s.volume);
    assert Holds(t.volume, Target(a.path), a.obj);
    forall o | o in t.objects && !Present(t.volume, o) ensures o in t.destroyed {
      assert forall n :: n in s.volume.names ==> Holds(t.volume, n, s.volume.names[n]);
    }
  }

  lemma TouchIsOk(s: State, v: Volume, w: Volume)
    requires VolumeOk(s, v) && w.names == v.names
    ensures VolumeOk(s, w)
  {
    assert forall o :: Present(v, o) ==> Present(w, o);
  }

  lemma OldVersionStaysOk(s: State, t: State, v: Volume)
    requires VolumeOk(s, v) && t.objects == s.objects && s.jobs <= t.jobs && s.destroyed <= t.destroyed
    ensures VolumeOk(t, v)
  {
  }

  lemma ChangedVersionIsOk(s: State, a: Action)
    requires VolumeInv(s) && ProcessInv(s) && Enabled(s, a) && OnDisk(s, a).Change?
    ensures VolumeOk(Apply(s, a), Apply(s, a).volume)
  {
    var t := Apply(s, a);
    assert VolumeOk(s, s.volume) && s.history[|s.history| - 1] == s.volume;
    if a.Touch? {
      TouchIsOk(s, s.volume, t.volume);
    } else if a.QuarantineTrash? {
      RenamingIsOk(s, s.volume, Trash(s.reconcilers[a.pid].job), Quarantine(a.id));
    } else if a.Isolate? {
      RenamingIsOk(s, s.volume, Trash(s.tasks[a.tid].job), Quarantine(a.id));
    } else if a.Unlink? {
      RemovingIsOk(s, t, s.volume, Trash(s.tasks[a.tid].job));
    } else {
      var d := s.deletes[a.pid];
      assert DeleteOk(s, a.pid, d);
      RenamingIsOk(s, s.volume, Target(d.target), Trash(d.job));
    }
  }

  lemma KeepsVolume(s: State, a: Action)
    requires VolumeInv(s) && ProcessInv(s) && Enabled(s, a)
    ensures VolumeInv(Apply(s, a))
  {
    var t := Apply(s, a);
    VersionsEvolve(s, a, 0);
    if a.Publish? {
      PublishIsOk(s, a);
    } else if OnDisk(s, a).Change? {
      ChangedVersionIsOk(s, a);
    } else {
      assert t.volume in s.history;
      OldVersionStaysOk(s, t, t.volume);
    }
    forall k | 0 <= k < |t.history| ensures VolumeOk(t, t.history[k]) {
      VersionsEvolve(s, a, k);
      if t.history[k] != t.volume {
        OldVersionStaysOk(s, t, t.history[k]);
      }
    }
  }

  // ----- rows and authority

  lemma AuthorityOnlyGrows(s: State, a: Action, job: nat)
    requires Enabled(s, a)
    ensures s.authorised <= Apply(s, a).authorised
    ensures IsAuthorised(s, job) ==> IsAuthorised(Apply(s, a), job)
    ensures IsAuthorised(Apply(s, a), job) ==>
      IsAuthorised(s, job) || (a.MarkReady? && s.deletes[a.pid].job == job && RowIs(s, job, Prepared))
  {
  }

  /** Rows are made only by their own DELETE and never change what they name. */
  lemma RowOrigin(s: State, a: Action, job: nat)
    requires Enabled(s, a) && job in Apply(s, a).rows
    ensures var row := Apply(s, a).rows[job];
      || (job in s.rows && s.rows[job].source == row.source && s.rows[job].target == row.target)
      || (a.Prepare? && s.deletes[a.pid].job == job
          && row == Row(s.deletes[a.pid].target, s.deletes[a.pid].obj, Prepared))
  {
  }

  lemma RowKeepsTrashObject(s: State, a: Action, job: nat, k: nat)
    requires VolumeInv(s) && Enabled(s, a) && job in Apply(s, a).rows && (job in s.rows ==> RowOk(s, job, s.rows[job]))
    requires StepsDelete(a) ==> DeleteOk(s, a.pid, s.deletes[a.pid])
    requires k < |Apply(s, a).history| && Trash(job) in Apply(s, a).history[k].names
    ensures Apply(s, a).history[k].names[Trash(job)] == Apply(s, a).rows[job].source
  {
    TrashOrigin(s, a, k, job);
    RowOrigin(s, a, job);
  }

  lemma RowStateIsOk(s: State, a: Action, job: nat)
    requires Enabled(s, a) && job in Apply(s, a).rows && (job in s.rows ==> RowOk(s, job, s.rows[job]))
    requires StepsDelete(a) ==> DeleteOk(s, a.pid, s.deletes[a.pid])
    ensures var t, row := Apply(s, a), Apply(s, a).rows[job];
      && job in t.jobs && (row.state.Prepared? <==> !IsAuthorised(t, job))
      && (row.state.Ready? || row.state.Claimed? ==> (job, row.source, row.state.trashRevision) in t.authorised)
  {
    AuthorityOnlyGrows(s, a, job);
  }

  lemma KeepsRow(s: State, a: Action, job: nat)
    requires VolumeInv(s) && AuthorityInv(s) && ProcessInv(s) && Enabled(s, a) && job in Apply(s, a).rows
    ensures RowOk(Apply(s, a), job, Apply(s, a).rows[job])
  {
    var t := Apply(s, a);
    assert StepsDelete(a) ==> DeleteOk(s, a.pid, s.deletes[a.pid]);
    RowStateIsOk(s, a, job);
    forall k | 0 <= k < |t.history| && Trash(job) in t.history[k].names
      ensures t.history[k].names[Trash(job)] == t.rows[job].source
    {
      RowKeepsTrashObject(s, a, job, k);
    }
  }

  lemma KeepsAuthority(s: State, a: Action)
    requires Inv(s) && Enabled(s, a)
    ensures AuthorityInv(Apply(s, a))
  {
    var t := Apply(s, a);
    forall j | j in t.rows ensures RowOk(t, j, t.rows[j]) {
      KeepsRow(s, a, j);
    }
    forall e | e in t.authorised ensures e.0 in t.jobs {
      if a.MarkReady? {
        assert DeleteOk(s, a.pid, s.deletes[a.pid]);
      }
    }
    forall o | o in t.destroyed ensures exists j, r :: (j, o, r) in t.authorised {
      if o in s.destroyed {
        var j, r :| (j, o, r) in s.authorised;
        assert (j, o, r) in t.authorised;
      } else {
        var task := s.tasks[a.tid];
        assert TaskOk(s, task);
        assert (task.job, o, task.trashRevision) in t.authorised;
      }
    }
  }

  // ----- processes

  ghost predicate OwnsLease(s: State, pid: nat, target: nat) {
    target in s.leases && s.leases[target] == pid
  }

  /** What the invariant says about the process that takes the step. */
  ghost predicate ActorOk(s: State, a: Action)
    requires Enabled(s, a)
  {
    && (StepsDelete(a) || a.EndDelete? ==> DeleteOk(s, a.pid, s.deletes[a.pid]))
    && (StepsReconciler(a) ==> ReconcilerOk(s, a.pid, s.reconcilers[a.pid]))
    && (StepsTask(a) ==> TaskOk(s, s.tasks[a.tid]))
  }

  lemma ActorIsKnown(s: State, a: Action)
    requires Enabled(s, a)
    ensures StepsDelete(a) || a.EndDelete? ==> a.pid in s.deletes
    ensures StepsReconciler(a) ==> a.pid in s.reconcilers
    ensures StepsTask(a) ==> a.tid in s.tasks
  {
  }

  lemma ActorIsOk(s: State, a: Action)
    requires ProcessInv(s) && Enabled(s, a)
    ensures ActorOk(s, a)
  {
    ActorIsKnown(s, a);
  }

  /** A lease is taken only when free and given up only by its owner. */
  lemma LeaseStays(s: State, a: Action, pid: nat, target: nat)
    requires Enabled(s, a) && ActorOk(s, a) && !a.Crash? && OwnsLease(s, pid, target)
    requires (a.EndDelete? || StepsReconciler(a)) && a.pid == pid ==>
      StepsReconciler(a) && ReconcilePhaseAfter(s, a).Some?
    ensures OwnsLease(Apply(s, a), pid, target)
  {
  }

  ghost predicate HasPreparedRow(s: State, pid: nat) {
    pid in s.deletes && s.deletes[pid].job in s.rows
    && s.rows[s.deletes[pid].job] == Row(s.deletes[pid].target, s.deletes[pid].obj, Prepared)
  }

  ghost predicate SameJobSamePid(s: State, pid: nat) {
    pid in s.deletes && forall q :: q in s.deletes && q != pid ==> s.deletes[q].job != s.deletes[pid].job
  }

  /** While its DELETE holds the lease nobody else touches a Prepared row. */
  lemma PreparedRowUndisturbed(s: State, a: Action, pid: nat)
    requires Enabled(s, a) && ActorOk(s, a) && !a.Crash? && HasPreparedRow(s, pid) && SameJobSamePid(s, pid)
    requires OwnsLease(s, pid, s.deletes[pid].target)
    requires !(StepsDelete(a) && a.pid == pid)
    ensures var job := s.deletes[pid].job;
      job in Apply(s, a).rows && Apply(s, a).rows[job] == s.rows[job]
  {
  }

  ghost predicate LeavesTrashAlone(s: State, a: Action, job: nat)
    requires Enabled(s, a)
  {
    && (a.QuarantineTrash? ==> s.reconcilers[a.pid].job != job)
    && (a.Isolate? || a.Unlink? ==> s.tasks[a.tid].job != job)
  }

  lemma OthersLeaveTrashAlone(s: State, a: Action, pid: nat)
    requires Enabled(s, a) && ActorOk(s, a) && HasPreparedRow(s, pid)
    requires OwnsLease(s, pid, s.deletes[pid].target) && !IsAuthorised(s, s.deletes[pid].job)
    ensures LeavesTrashAlone(s, a, s.deletes[pid].job)
  {
  }

  lemma TrashNameStays(s: State, a: Action, job: nat)
    requires Enabled(s, a) && !a.Crash? && LeavesTrashAlone(s, a, job) && Trash(job) in s.volume.names
    ensures Holds(VolumeAfter(s.volume, OnDisk(s, a)), Trash(job), s.volume.names[Trash(job)])
  {
    if OnDisk(s, a).Change? {
      if a.QuarantineTrash? {
        RenamingKeeps(s.volume, Trash(s.reconcilers[a.pid].job), Quarantine(a.id), Trash(job));
      } else if a.Isolate? {
        RenamingKeeps(s.volume, Trash(s.tasks[a.tid].job), Quarantine(a.id), Trash(job));
      } else if a.Move? || a.RenameError? {
        RenamingKeeps(s.volume, Target(s.deletes[a.pid].target), Trash(s.deletes[a.pid].job), Trash(job));
      }
    }
  }

  /** Nor the trash name it is about to commit. */
  lemma PreparedTrashUndisturbed(s: State, a: Action, pid: nat)
    requires Enabled(s, a) && ActorOk(s, a) && !a.Crash? && HasPreparedRow(s, pid)
    requires OwnsLease(s, pid, s.deletes[pid].target) && !IsAuthorised(s, s.deletes[pid].job)
    requires Holds(s.volume, Trash(s.deletes[pid].job), s.deletes[pid].obj)
    ensures Holds(Apply(s, a).volume, Trash(s.deletes[pid].job), s.deletes[pid].obj)
  {
    OthersLeaveTrashAlone(s, a, pid);
    TrashNameStays(s, a, s.deletes[pid].job);
  }

  lemma RenamingKeeps(v: Volume, from: Name, to: Name, name: Name)
    requires from in v.names && name in v.names && name != from && name != to
    ensures Holds(Renaming(v, from, to), name, v.names[name])
  {
  }

  lemma SyncedTrashStays(s: State, a: Action, pid: nat)
    requires VolumeInv(s) && Enabled(s, a) && ActorOk(s, a) && !a.Crash? && HasPreparedRow(s, pid)
    requires DeleteOk(s, pid, s.deletes[pid]) && s.deletes[pid].phase.Synced? && !IsAuthorised(s, s.deletes[pid].job)
    ensures forall k :: 0 <= k < |Apply(s, a).history| ==>
      Holds(Apply(s, a).history[k], Trash(s.deletes[pid].job), s.deletes[pid].obj)
  {
    var t, d := Apply(s, a), s.deletes[pid];
    assert Holds(s.history[|s.history| - 1], Trash(d.job), d.obj);
    PreparedTrashUndisturbed(s, a, pid);
    forall k | 0 <= k < |t.history| ensures Holds(t.history[k], Trash(d.job), d.obj) {
      VersionsEvolve(s, a, k);
    }
  }

  lemma KeepsWaitingDelete(s: State, a: Action, pid: nat)
    requires VolumeInv(s) && Enabled(s, a) && ActorOk(s, a) && !a.Crash? && pid in s.deletes && SameJobSamePid(s, pid)
    requires DeleteOk(s, pid, s.deletes[pid]) && (s.deletes[pid].phase.Leased? || s.deletes[pid].phase.Over?)
    requires !(StepsDelete(a) && a.pid == pid) && !(a.EndDelete? && a.pid == pid)
    requires !(StepsReconciler(a) && a.pid == pid)
    ensures DeleteOk(Apply(s, a), pid, s.deletes[pid])
  {
    var d := s.deletes[pid];
    LeaseStays(s, a, pid, d.target);
    if d.job in Apply(s, a).rows {
      RowOrigin(s, a, d.job);
    }
    if d.phase.Leased? {
      AuthorityOnlyGrows(s, a, d.job);
      NeverTrashedStays(s, a, d.job);
    }
  }

  lemma KeepsActiveDelete(s: State, a: Action, pid: nat)
    requires VolumeInv(s) && Enabled(s, a) && ActorOk(s, a) && !a.Crash? && HasPreparedRow(s, pid)
    requires SameJobSamePid(s, pid)
    requires DeleteOk(s, pid, s.deletes[pid]) && !IsAuthorised(s, s.deletes[pid].job)
    requires !s.deletes[pid].phase.Leased? && !s.deletes[pid].phase.Over?
    requires !(StepsDelete(a) && a.pid == pid) && !(a.EndDelete? && a.pid == pid)
    requires !(StepsReconciler(a) && a.pid == pid)
    ensures DeleteOk(Apply(s, a), pid, s.deletes[pid])
  {
    var d := s.deletes[pid];
    LeaseStays(s, a, pid, d.target);
    PreparedRowUndisturbed(s, a, pid);
    match d.phase {
      case Renamed(_) => PreparedTrashUndisturbed(s, a, pid);
      case Synced(_) => SyncedTrashStays(s, a, pid);
      case _ => NeverTrashedStays(s, a, d.job);
    }
  }

  lemma KeepsOwnDelete(s: State, a: Action)
    requires VolumeInv(s) && Enabled(s, a) && ActorOk(s, a) && StepsDelete(a)
    ensures DeleteOk(Apply(s, a), a.pid, Apply(s, a).deletes[a.pid])
  {
    var t, d := Apply(s, a), s.deletes[a.pid];
    LeaseStays(s, a, a.pid, d.target);
    if a.Prepare? || (a.Move? && !MayMove(s.volume, d)) || (a.RenameError? && !a.happened) {
      NeverTrashedStays(s, a, d.job);
    }
    if a.RenameError? && a.happened {
      assert Holds(t.volume, Trash(d.job), d.obj);
    }
    if a.SyncMove? && a.ok {
      assert t.history == [s.volume];
    }
  }

  lemma KeepsOtherDelete(s: State, a: Action, pid: nat)
    requires Inv(s) && Enabled(s, a) && !a.Crash? && pid in s.deletes
    requires !(StepsDelete(a) && a.pid == pid) && !(a.EndDelete? && a.pid == pid)
    ensures DeleteOk(Apply(s, a), pid, s.deletes[pid])
  {
    var d := s.deletes[pid];
    ActorIsOk(s, a);
    assert DeleteOk(s, pid, d) && SameJobSamePid(s, pid);
    assert StepsReconciler(a) ==> a.pid != pid;
    if d.phase.Leased? || d.phase.Over? {
      KeepsWaitingDelete(s, a, pid);
    } else {
      assert RowOk(s, d.job, s.rows[d.job]);
      KeepsActiveDelete(s, a, pid);
    }
  }

  lemma BeginDeleteIsOk(s: State, a: Action)
    requires VolumeInv(s) && AuthorityInv(s) && Enabled(s, a) && a.BeginDelete?
    ensures DeleteOk(Apply(s, a), a.pid, a.delete)
  {
    var t, job := Apply(s, a), a.delete.job;
    assert job in s.rows ==> RowOk(s, job, s.rows[job]);
    assert !IsAuthorised(t, job);
    forall k | 0 <= k < |t.history| ensures Trash(job) !in t.history[k].names {
      assert VolumeOk(s, s.history[k]);
    }
  }

  lemma KeepsDelete(s: State, a: Action, pid: nat)
    requires Inv(s) && Enabled(s, a) && pid in Apply(s, a).deletes
    ensures DeleteOk(Apply(s, a), pid, Apply(s, a).deletes[pid])
  {
    if StepsDelete(a) && a.pid == pid {
      ActorIsOk(s, a);
      KeepsOwnDelete(s, a);
    } else if a.BeginDelete? && a.pid == pid {
      BeginDeleteIsOk(s, a);
    } else {
      KeepsOtherDelete(s, a, pid);
    }
  }

  lemma DeleteOrigin(s: State, a: Action, pid: nat)
    requires Enabled(s, a) && pid in Apply(s, a).deletes
    ensures var job := Apply(s, a).deletes[pid].job;
      if a.BeginDelete? && a.pid == pid then job == a.delete.job && job !in s.jobs
      else pid in s.deletes && s.deletes[pid].job == job
  {
  }

  lemma KeepsJobsDistinct(s: State, a: Action, pid: nat, q: nat)
    requires ProcessInv(s) && Enabled(s, a) && pid in Apply(s, a).deletes && q in Apply(s, a).deletes && pid != q
    ensures Apply(s, a).deletes[pid].job != Apply(s, a).deletes[q].job
  {
    DeleteOrigin(s, a, pid);
    DeleteOrigin(s, a, q);
    assert pid in s.deletes ==> DeleteOk(s, pid, s.deletes[pid]);
    assert q in s.deletes ==> DeleteOk(s, q, s.deletes[q]);
  }

  // ----- the reconciler

  /** The part of a row a reconciler relies on is stable: nobody else may end
      a Prepared row of a path whose lease it owns. */
  lemma PreparedRowOwned(s: State, a: Action, pid: nat)
    requires Enabled(s, a) && ActorOk(s, a) && !a.Crash? && pid in s.reconcilers
    requires var r := s.reconcilers[pid];
      RowIs(s, r.job, Prepared) && s.rows[r.job].target == r.target && OwnsLease(s, pid, r.target) && pid !in s.deletes
    requires !(StepsReconciler(a) && a.pid == pid)
    ensures RowIs(Apply(s, a), s.reconcilers[pid].job, Prepared)
  {
  }

  lemma TrashGoneStays(s: State, a: Action, job: nat)
    requires VolumeInv(s) && Enabled(s, a) && !a.Crash? && TrashGone(s, job) && forall obj :: !MovesJob(s, a, job, obj)
    ensures TrashGone(Apply(s, a), job)
  {
    if !s.syncFailed {
      NeverTrashedStays(s, a, job);
    }
    TrashNameIsOld(s, a, job);
  }

  lemma TrashNameIsOld(s: State, a: Action, job: nat)
    requires Enabled(s, a) && !a.Crash? && Trash(job) !in s.volume.names && forall obj :: !MovesJob(s, a, job, obj)
    ensures Trash(job) !in Apply(s, a).volume.names
  {
    if Trash(job) in Apply(s, a).volume.names {
      assert MovesJob(s, a, job, Apply(s, a).volume.names[Trash(job)]);
    }
  }

  /** A trash name that is missing now was removed durably, unless somebody is about to sync that. */
  lemma MissingTrashIsGone(s: State, job: nat)
    requires VolumeInv(s) && CoverInv(s) && Trash(job) !in s.volume.names && !MidRemoval(s, job)
    ensures TrashGone(s, job)
  {
    if !s.syncFailed {
      forall k | 0 <= k < |s.history| ensures Trash(job) !in s.history[k].names {
        assert PendingOk(s, s.history[k]);
      }
    }
  }

  lemma NoOneElseRemoves(s: State, a: Action)
    requires ProcessInv(s) && AuthorityInv(s) && Enabled(s, a) && a.QuarantineTrash?
    ensures !MidRemoval(s, s.reconcilers[a.pid].job)
  {
    var r := s.reconcilers[a.pid];
    assert ReconcilerOk(s, a.pid, r);
    forall q | q in s.reconcilers && s.reconcilers[q].job == r.job ensures !s.reconcilers[q].phase.Moved? {
      assert ReconcilerOk(s, q, s.reconcilers[q]);
    }
    assert RowOk(s, r.job, s.rows[r.job]);
    forall u | u in s.tasks ensures s.tasks[u].job != r.job {
      assert TaskOk(s, s.tasks[u]);
    }
  }

  lemma WorkerIsAlone(s: State, job: nat)
    requires ProcessInv(s) && AuthorityInv(s) && WorkerIdle(s) && IsAuthorised(s, job)
    ensures !MidRemoval(s, job)
  {
    forall q | q in s.reconcilers && s.reconcilers[q].job == job ensures !s.reconcilers[q].phase.Moved? {
      assert ReconcilerOk(s, q, s.reconcilers[q]);
      assert job in s.rows ==> RowOk(s, job, s.rows[job]);
    }
  }

  /** No DELETE may create a trash name somebody else has settled. */
  lemma ReconciledJobStaysPut(s: State, a: Action, pid: nat, obj: nat)
    requires Enabled(s, a) && ActorOk(s, a) && pid in s.reconcilers && ReconcilerOk(s, pid, s.reconcilers[pid])
    requires !s.reconcilers[pid].phase.Waiting?
    ensures !MovesJob(s, a, s.reconcilers[pid].job, obj)
  {
  }

  lemma AuthorisedJobStaysPut(s: State, a: Action, job: nat, obj: nat)
    requires AuthorityInv(s) && Enabled(s, a) && ActorOk(s, a) && IsAuthorised(s, job)
    ensures !MovesJob(s, a, job, obj)
  {
    assert job in s.rows ==> RowOk(s, job, s.rows[job]);
  }

  lemma KeepsReconcilerForm(s: State, a: Action, pid: nat)
    requires Enabled(s, a) && ActorOk(s, a) && !a.Crash? && pid in s.reconcilers
    requires ReconcilerOk(s, pid, s.reconcilers[pid])
    ensures
      var t, r := Apply(s, a), s.reconcilers[pid];
      && pid !in t.deletes && r.job in t.jobs && (r.job in t.rows ==> t.rows[r.job].target == r.target)
      && (forall q :: q in t.deletes && t.deletes[q].phase.Leased? ==> t.deletes[q].job != r.job)
  {
    var t, r := Apply(s, a), s.reconcilers[pid];
    if r.job in t.rows {
      RowOrigin(s, a, r.job);
    }
  }

  lemma KeepsOtherReconciler(s: State, a: Action, pid: nat)
    requires VolumeInv(s) && Enabled(s, a) && ActorOk(s, a) && !a.Crash?
    requires pid in s.reconcilers && ReconcilerOk(s, pid, s.reconcilers[pid]) && !(StepsReconciler(a) && a.pid == pid)
    ensures ReconcilerOk(Apply(s, a), pid, s.reconcilers[pid])
  {
    var r := s.reconcilers[pid];
    KeepsReconcilerForm(s, a, pid);
    if !r.phase.Waiting? {
      LeaseStays(s, a, pid, r.target);
      forall obj ensures !MovesJob(s, a, r.job, obj) {
        ReconciledJobStaysPut(s, a, pid, obj);
      }
    }
    if r.phase.Verified? || r.phase.Moved? || r.phase.Settled? {
      PreparedRowOwned(s, a, pid);
    }
    if r.phase.Moved? {
      TrashNameIsOld(s, a, r.job);
    }
    if r.phase.Settled? {
      TrashGoneStays(s, a, r.job);
    }
  }

  lemma KeepsOwnReconciler(s: State, a: Action)
    requires Inv(s) && Enabled(s, a) && StepsReconciler(a) && a.pid in Apply(s, a).reconcilers
    ensures ReconcilerOk(Apply(s, a), a.pid, Apply(s, a).reconcilers[a.pid])
  {
    var r := s.reconcilers[a.pid];
    assert ReconcilerOk(s, a.pid, r);
    if a.QuarantineTrash? && Trash(r.job) !in s.volume.names {
      NoOneElseRemoves(s, a);
      MissingTrashIsGone(s, r.job);
    }
  }

  lemma BeginReconcileIsOk(s: State, a: Action)
    requires Inv(s) && Enabled(s, a) && a.BeginReconcile?
    ensures ReconcilerOk(Apply(s, a), a.pid, Apply(s, a).reconcilers[a.pid])
  {
    assert RowOk(s, a.job, s.rows[a.job]);
    forall q | q in s.deletes && s.deletes[q].phase.Leased? ensures s.deletes[q].job != a.job {
      assert DeleteOk(s, q, s.deletes[q]);
    }
  }

  lemma KeepsReconciler(s: State, a: Action, pid: nat)
    requires Inv(s) && Enabled(s, a) && pid in Apply(s, a).reconcilers
    ensures ReconcilerOk(Apply(s, a), pid, Apply(s, a).reconcilers[pid])
  {
    if StepsReconciler(a) && a.pid == pid {
      KeepsOwnReconciler(s, a);
    } else if a.BeginReconcile? && a.pid == pid {
      BeginReconcileIsOk(s, a);
    } else {
      ActorIsOk(s, a);
      KeepsOtherReconciler(s, a, pid);
    }
  }

  // ----- the worker

  lemma KeepsOtherTask(s: State, a: Action, tid: nat)
    requires VolumeInv(s) && AuthorityInv(s) && Enabled(s, a) && ActorOk(s, a) && !a.Crash?
    requires tid in s.tasks && TaskOk(s, s.tasks[tid])
    ensures TaskOk(Apply(s, a), s.tasks[tid])
  {
    var task := s.tasks[tid];
    AuthorityOnlyGrows(s, a, task.job);
    forall obj ensures !MovesJob(s, a, task.job, obj) {
      AuthorisedJobStaysPut(s, a, task.job, obj);
    }
    if Midway(task.phase) {
      TrashNameIsOld(s, a, task.job);
    }
    if task.phase.Finishing? {
      TrashGoneStays(s, a, task.job);
    }
  }

  lemma SteppedTaskIsOk(s: State, a: Action)
    requires Enabled(s, a) && StepsTask(a) && a.tid in Apply(s, a).tasks && TaskOk(s, s.tasks[a.tid])
    requires (a.Open? || a.Isolate?) && Trash(s.tasks[a.tid].job) !in s.volume.names ==>
      TrashGone(s, s.tasks[a.tid].job)
    ensures TaskOk(Apply(s, a), Apply(s, a).tasks[a.tid])
  {
    if a.Unlink? || a.Isolate? {
      RemovingTaskIsOk(s, a);
    } else {
      OtherTaskStepIsOk(s, a);
    }
  }

  lemma RemovingTaskIsOk(s: State, a: Action)
    requires Enabled(s, a) && (a.Unlink? || a.Isolate?) && TaskOk(s, s.tasks[a.tid])
    requires a.Isolate? && Trash(s.tasks[a.tid].job) !in s.volume.names ==> TrashGone(s, s.tasks[a.tid].job)
    ensures TaskOk(Apply(s, a), Apply(s, a).tasks[a.tid])
  {
  }

  lemma OtherTaskStepIsOk(s: State, a: Action)
    requires Enabled(s, a) && StepsTask(a) && !a.Unlink? && !a.Isolate? && a.tid in Apply(s, a).tasks
    requires TaskOk(s, s.tasks[a.tid])
    requires a.Open? && Trash(s.tasks[a.tid].job) !in s.volume.names ==> TrashGone(s, s.tasks[a.tid].job)
    ensures TaskOk(Apply(s, a), Apply(s, a).tasks[a.tid])
  {
  }

  lemma MissingTrashOfTask(s: State, a: Action)
    requires Inv(s) && Enabled(s, a) && (a.Open? || a.Isolate?) && Trash(s.tasks[a.tid].job) !in s.volume.names
    ensures TrashGone(s, s.tasks[a.tid].job)
  {
    var task := s.tasks[a.tid];
    assert TaskOk(s, task);
    assert (task.job, task.source, task.trashRevision) in s.authorised;
    WorkerIsAlone(s, task.job);
    MissingTrashIsGone(s, task.job);
  }

  lemma KeepsOwnTask(s: State, a: Action)
    requires Inv(s) && Enabled(s, a) && StepsTask(a) && a.tid in Apply(s, a).tasks
    ensures TaskOk(Apply(s, a), Apply(s, a).tasks[a.tid])
  {
    ActorIsOk(s, a);
    if (a.Open? || a.Isolate?) && Trash(s.tasks[a.tid].job) !in s.volume.names {
      MissingTrashOfTask(s, a);
    }
    SteppedTaskIsOk(s, a);
  }

  lemma ClaimIsOk(s: State, a: Action)
    requires Enabled(s, a) && a.Claim? && RowOk(s, a.job, s.rows[a.job])
    ensures TaskOk(Apply(s, a), Apply(s, a).tasks[a.tid])
  {
  }

  lemma TaskIsIdle(s: State, a: Action, tid: nat)
    requires Enabled(s, a) && tid in TasksAfter(s, a) && !((StepsTask(a) || a.Claim?) && a.tid == tid)
    ensures !a.Crash? && tid in s.tasks && TasksAfter(s, a)[tid] == s.tasks[tid]
  {
  }

  lemma KeepsTask(s: State, a: Action, tid: nat)
    requires Inv(s) && Enabled(s, a) && tid in Apply(s, a).tasks
    ensures TaskOk(Apply(s, a), Apply(s, a).tasks[tid])
  {
    if StepsTask(a) && a.tid == tid {
      KeepsOwnTask(s, a);
    } else if a.Claim? && a.tid == tid {
      ClaimIsOk(s, a);
    } else {
      TaskIsIdle(s, a, tid);
      ActorIsOk(s, a);
      KeepsOtherTask(s, a, tid);
    }
  }

  /** A removal is under way either since before, or as the only one. */
  lemma RemovalOrigin(s: State, a: Action, tid: nat)
    requires Enabled(s, a) && tid in TasksAfter(s, a) && Midway(TasksAfter(s, a)[tid].phase)
    ensures || (tid in s.tasks && Midway(s.tasks[tid].phase))
            || (WorkerIdle(s) && StepsTask(a) && a.tid == tid)
  {
  }

  lemma KeepsProcesses(s: State, a: Action)
    requires Inv(s) && Enabled(s, a)
    ensures ProcessInv(Apply(s, a))
  {
    var t := Apply(s, a);
    forall pid | pid in t.deletes ensures DeleteOk(t, pid, t.deletes[pid]) {
      KeepsDelete(s, a, pid);
    }
    forall pid, q | pid in t.deletes && q in t.deletes && pid != q ensures t.deletes[pid].job != t.deletes[q].job {
      KeepsJobsDistinct(s, a, pid, q);
    }
    forall pid | pid in t.reconcilers ensures ReconcilerOk(t, pid, t.reconcilers[pid]) {
      KeepsReconciler(s, a, pid);
    }
    forall tid | tid in t.tasks ensures TaskOk(t, t.tasks[tid]) {
      KeepsTask(s, a, tid);
    }
    forall u, w | u in t.tasks && w in t.tasks && u != w && Midway(t.tasks[u].phase)
      ensures !Midway(t.tasks[w].phase)
    {
      KeepsOneRemoval(s, a, u, w);
    }
  }

  lemma KeepsOneRemoval(s: State, a: Action, u: nat, w: nat)
    requires ProcessInv(s) && Enabled(s, a)
    requires u in Apply(s, a).tasks && w in Apply(s, a).tasks && u != w && Midway(Apply(s, a).tasks[u].phase)
    ensures !Midway(Apply(s, a).tasks[w].phase)
  {
    RemovalOrigin(s, a, u);
    if Midway(Apply(s, a).tasks[w].phase) {
      RemovalOrigin(s, a, w);
    }
  }
}
