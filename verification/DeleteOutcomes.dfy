/**
 What the branching steps of the DELETE protocol do, told by what the directory
 and the rows hold before and after.
 */
module DeleteOutcomes {
  import opened Basics
  import opened DeleteProtocol

  /** Every other name denotes what it did. */
  ghost predicate OnlyTheseNames(v: Volume, w: Volume, a: Name, b: Name) {
    forall n :: n != a && n != b ==> (n in w.names <==> n in v.names) && (n in v.names ==> w.names[n] == v.names[n])
  }

  /** The object has moved from one name to the other, which changed its revision and nothing else. */
  ghost predicate MovedTo(v: Volume, w: Volume, from: Name, to: Name, obj: nat) {
    && from !in w.names && to in w.names && w.names[to] == obj && OnlyTheseNames(v, w, from, to)
    && Revision(w, obj) == Revision(v, obj) + 1
    && forall o :: o != obj ==> Revision(w, o) == Revision(v, o)
  }

  lemma RenamingMoves(v: Volume, from: Name, to: Name)
    requires from in v.names && from != to
    ensures MovedTo(v, Renaming(v, from, to), from, to, v.names[from])
  {
  }

  /** The checked rename moves exactly the object and revision that the request
      observed, into a trash name that is free, and is refused otherwise. */
  lemma MoveOutcome(s: State, pid: nat)
    requires Enabled(s, Move(pid))
    ensures
      var d, t := s.deletes[pid], Apply(s, Move(pid));
      if && Target(d.target) in s.volume.names && s.volume.names[Target(d.target)] == d.obj
         && Revision(s.volume, d.obj) == d.revision && Trash(d.job) !in s.volume.names
      then
        && MovedTo(s.volume, t.volume, Target(d.target), Trash(d.job), d.obj)
        && t.history == s.history + [t.volume]
        && t.deletes[pid] == d.(phase := Renamed(d.revision + 1))
      else
        t.volume == s.volume && t.history == s.history && t.deletes[pid] == d.(phase := Rejected)
  {
    var d := s.deletes[pid];
    if Target(d.target) in s.volume.names {
      RenamingMoves(s.volume, Target(d.target), Trash(d.job));
    }
  }

  /** A rename that reports an error is taken for not done exactly when it was not. */
  lemma RenameErrorOutcome(s: State, pid: nat, happened: bool)
    requires Enabled(s, RenameError(pid, happened))
    ensures
      var d, t := s.deletes[pid], Apply(s, RenameError(pid, happened));
      && t.deletes[pid] == d.(phase := if happened then Over else Rejected)
      && (if happened then MovedTo(s.volume, t.volume, Target(d.target), Trash(d.job), d.obj)
          else t.volume == s.volume && t.history == s.history)
  {
    var d := s.deletes[pid];
    RenamingMoves(s.volume, Target(d.target), Trash(d.job));
  }

  /** A loaded job is opened exactly on the object and the revision of its row. */
  lemma OpenOutcome(s: State, tid: nat)
    requires Enabled(s, Open(tid))
    ensures
      var task, t := s.tasks[tid], Apply(s, Open(tid));
      var trash := Trash(task.job);
      && t.volume == s.volume && t.history == s.history && t.destroyed == s.destroyed && t.rows == s.rows
      && t.tasks[tid] == task.(phase :=
           if trash !in s.volume.names then Finishing
           else if s.volume.names[trash] == task.source && Revision(s.volume, task.source) == task.trashRevision
           then Opened(task.source)
           else Mismatched)
  {
  }

  /** An opened job unlinks the trash name exactly if that still denotes the opened
      object, it is the one of the row, and its revision is the one of the row. */
  lemma UnlinkOutcome(s: State, tid: nat)
    requires Enabled(s, Unlink(tid))
    ensures
      var task, t := s.tasks[tid], Apply(s, Unlink(tid));
      var trash := Trash(task.job);
      if trash !in s.volume.names then
        && t.volume == s.volume && t.history == [s.volume] && t.destroyed == s.destroyed
        && t.tasks[tid] == task.(phase := Finishing)
      else if && s.volume.names[trash] == task.phase.obj == task.source
              && Revision(s.volume, task.source) == task.trashRevision
      then
        && trash !in t.volume.names && OnlyTheseNames(s.volume, t.volume, trash, trash)
        && t.volume.revision == s.volume.revision && t.history == s.history + [t.volume]
        && t.destroyed == s.destroyed + {task.source} && t.tasks[tid] == task.(phase := Unlinked)
      else
        && t.volume == s.volume && t.history == s.history && t.destroyed == s.destroyed
        && t.tasks[tid] == task.(phase := Mismatched)
  {
  }

  /** A mismatched or unclaimed trash entry is moved aside, never destroyed. */
  lemma QuarantineOutcome(s: State, a: Action)
    requires Enabled(s, a) && (a.Isolate? || a.QuarantineTrash?)
    ensures
      var t := Apply(s, a);
      var trash := Trash(if a.Isolate? then s.tasks[a.tid].job else s.reconcilers[a.pid].job);
      && t.destroyed == s.destroyed && t.rows == s.rows
      && (if trash in s.volume.names
          then MovedTo(s.volume, t.volume, trash, Quarantine(a.id), s.volume.names[trash])
          else t.volume == s.volume)
      && (a.Isolate? ==>
            t.tasks[a.tid] == s.tasks[a.tid].(phase := if trash in s.volume.names then Isolated else Finishing))
      && (a.QuarantineTrash? ==> t.reconcilers[a.pid] == s.reconcilers[a.pid].(phase :=
            if trash in s.volume.names then ReconcilePhase.Moved else Settled))
  {
    var trash := Trash(if a.Isolate? then s.tasks[a.tid].job else s.reconcilers[a.pid].job);
    if trash in s.volume.names {
      RenamingMoves(s.volume, trash, Quarantine(a.id));
    }
  }

  /** A row leaves the store exactly when a DELETE withdraws the intent of a rename
      that was not done, a reconciler has settled it, or the worker completes its claim. */
  lemma RowLeavesExactly(s: State, a: Action, job: nat)
    requires Enabled(s, a) && job in s.rows
    ensures job !in Apply(s, a).rows <==>
      || (a.RemoveIntent? && a.done && s.deletes[a.pid].job == job && s.deletes[a.pid].phase.Rejected?)
      || (a.RemoveReconciled? && s.reconcilers[a.pid].job == job && s.reconcilers[a.pid].phase.Settled?)
      || (a.Complete? && s.tasks[a.tid].job == job && s.tasks[a.tid].phase.Finishing? && s.rows[job].state.Claimed?)
  {
  }

  /** A row becomes ready for the worker exactly when its DELETE has synced the
      move, with the revision after it, or when a claim is given back. */
  lemma RowBecomesReadyExactly(s: State, a: Action, job: nat, revision: nat)
    requires Enabled(s, a) && job in s.rows && !s.rows[job].state.Ready?
    ensures job in Apply(s, a).rows && Apply(s, a).rows[job].state == Ready(revision) <==>
      || (a.MarkReady? && s.deletes[a.pid].job == job && s.rows[job].state.Prepared?
          && s.deletes[a.pid].phase == Synced(revision))
      || (s.rows[job].state == Claimed(revision) && (a.Crash? || (a.Defer? && s.tasks[a.tid].job == job)))
  {
  }

  /** A row is made exactly by the first store call of its DELETE, for the object it observed. */
  lemma RowAppearsExactly(s: State, a: Action, job: nat)
    requires Enabled(s, a) && job !in s.rows
    ensures job in Apply(s, a).rows <==> a.Prepare? && s.deletes[a.pid].job == job
    ensures job in Apply(s, a).rows ==>
      Apply(s, a).rows[job] == Row(s.deletes[a.pid].target, s.deletes[a.pid].obj, Prepared)
  {
  }

  /** A DELETE goes on after its first store call exactly if it heard the reply; the
      row is there in either case. */
  lemma PrepareOutcome(s: State, pid: nat, reply: bool)
    requires Enabled(s, Prepare(pid, reply))
    ensures
      var d, t := s.deletes[pid], Apply(s, Prepare(pid, reply));
      && d.job in t.rows && t.volume == s.volume && t.leases == s.leases
      && t.deletes[pid] == d.(phase := if reply then Intent else Over)
  {
  }

  /** A successful sync leaves the present version as the only one that a crash can
      leave behind; a failed one changes nothing on disk. */
  lemma SyncOutcome(s: State, a: Action)
    requires Enabled(s, a) && (a.SyncMove? || a.SyncQuarantine? || a.SyncUnlink? || a.SyncIsolated?)
    ensures
      var t := Apply(s, a);
      && t.volume == s.volume && t.history == (if a.ok then [s.volume] else s.history) && t.rows == s.rows
      && (a.SyncMove? ==>
            t.deletes[a.pid].phase == if a.ok then Synced(s.deletes[a.pid].phase.trashRevision) else Over)
      && (a.SyncQuarantine? ==> (a.pid in t.reconcilers <==> a.ok) && (a.ok ==> t.reconcilers[a.pid].phase.Settled?))
      && (a.SyncUnlink? ==> t.tasks[a.tid].phase == if a.ok then Finishing else Loaded)
      && (a.SyncIsolated? ==> t.tasks[a.tid].phase == if a.ok then Finishing else Retained)
  {
  }

  /** A reconciler goes on exactly if its row is still Prepared once it has the lease. */
  lemma VerifyOutcome(s: State, pid: nat)
    requires Enabled(s, VerifyRow(pid))
    ensures
      var r, t := s.reconcilers[pid], Apply(s, VerifyRow(pid));
      var prepared := r.job in s.rows && s.rows[r.job].state.Prepared?;
      && t.rows == s.rows && t.volume == s.volume
      && (pid in t.reconcilers <==> prepared) && (prepared ==> t.reconcilers[pid] == r.(phase := Verified))
  {
  }

  /** A job kept in memory is worked on again exactly if its row is still Claimed. */
  lemma ReloadOutcome(s: State, tid: nat)
    requires Enabled(s, Reload(tid))
    ensures
      var task, t := s.tasks[tid], Apply(s, Reload(tid));
      var claimed := task.job in s.rows && s.rows[task.job].state.Claimed?;
      && t.rows == s.rows && t.volume == s.volume
      && (tid in t.tasks <==> claimed) && (claimed ==> t.tasks[tid] == task.(phase := Loaded))
  {
  }

  /** The worker forgets a job exactly if the end of its claim was confirmed. */
  lemma ForgetOutcome(s: State, a: Action)
    requires Enabled(s, a) && (a.Complete? || a.Defer?)
    ensures
      var t := Apply(s, a);
      && t.volume == s.volume && t.history == s.history
      && (a.tid in t.tasks <==> !a.reply) && (!a.reply ==> t.tasks[a.tid] == s.tasks[a.tid].(phase := Retained))
  {
  }

  /** A claim takes the object and the revision of the row, and marks the row. */
  lemma ClaimOutcome(s: State, tid: nat, job: nat)
    requires Enabled(s, Claim(tid, job))
    ensures
      var row, t := s.rows[job], Apply(s, Claim(tid, job));
      && row.state.Ready?
      && t.tasks == s.tasks[tid := Task(job, row.source, row.state.trashRevision, Loaded)]
      && t.rows == s.rows[job := row.(state := Claimed(row.state.trashRevision))]
  {
  }

  /** A path is leased exactly from the start of its DELETE, or from when its
      reconciler gets it, until that process ends or the server crashes. */
  lemma LeaseIsHeldExactly(s: State, a: Action, path: nat)
    requires Enabled(s, a)
    ensures path in Apply(s, a).leases <==>
      || (a.BeginDelete? && a.delete.target == path)
      || (a.AcquireLease? && s.reconcilers[a.pid].target == path)
      || (path in s.leases && !a.Crash?
          && !(a.EndDelete? && s.deletes[a.pid].target == path)
          && !(StepsReconciler(a) && s.reconcilers[a.pid].target == path && !s.reconcilers[a.pid].phase.Waiting?
               && a.pid !in Apply(s, a).reconcilers))
  {
  }

  /** A crash leaves one of the versions since the last sync and the rows, claimed
      ones ready again; everything in memory is gone. */
  lemma CrashOutcome(s: State, keep: nat)
    requires Enabled(s, Crash(keep))
    ensures
      var t := Apply(s, Crash(keep));
      && t.volume == s.history[keep] && t.history == [t.volume]
      && t.leases == map[] && t.deletes == map[] && t.reconcilers == map[] && t.tasks == map[]
      && t.destroyed == s.destroyed && t.authorised == s.authorised && t.jobs == s.jobs && t.objects == s.objects
      && t.rows.Keys == s.rows.Keys
      && forall j :: j in s.rows ==>
           && t.rows[j].target == s.rows[j].target && t.rows[j].source == s.rows[j].source
           && t.rows[j].state == match s.rows[j].state
                case Claimed(revision) => Ready(revision)
                case state => state
  {
  }
}
