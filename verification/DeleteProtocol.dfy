/**
 The durable DELETE protocol of one parent directory, under crashes at any step.

 A directory is a map from names to objects. `history` holds every version of
 it since the last successful sync: a crash leaves any one of them behind,
 keeps the purge rows, turns claimed rows back to ready, and loses every
 lease, process and in-memory task.
 */
module DeleteProtocol {
  import opened Basics

  datatype Name = Target(path: nat) | Trash(job: nat) | Quarantine(id: nat)

  /** One version of the directory: what each name denotes, and the metadata
      revision of each obj (a rename changes it). */
  datatype Volume = Volume(names: map<Name, nat>, revision: map<nat, nat>)

  datatype RowState = Prepared | Ready(trashRevision: nat) | Claimed(trashRevision: nat)

  datatype Row = Row(target: nat, source: nat, state: RowState)

  datatype DeletePhase =
    | Leased                             // holds the path lease, no durable intent yet
    | Intent                             // Prepared row recorded
    | Renamed(trashRevision: nat)        // checked rename done, parent not yet synced
    | Synced(trashRevision: nat)
    | Rejected                           // proved that nothing was renamed
    | Over                               // about to release the lease

  datatype Delete = Delete(job: nat, target: nat, obj: nat, revision: nat, phase: DeletePhase)

  datatype ReconcilePhase = Waiting | Owning | Verified | Moved | Settled

  datatype Reconciler = Reconciler(job: nat, target: nat, phase: ReconcilePhase)

  datatype TaskPhase =
    | Retained                           // local copy of a claim, row must be reloaded
    | Loaded
    | Opened(obj: nat)                // pinned, identity and revision matched the row
    | Mismatched
    | Unlinked
    | Isolated                           // moved to quarantine, not yet synced
    | Finishing

  /** A job the worker holds: its own copy of the claimed row, and its progress. */
  datatype Task = Task(job: nat, source: nat, trashRevision: nat, phase: TaskPhase)

  datatype State = State(
    volume: Volume,
    history: seq<Volume>,
    objects: set<nat>,
    jobs: set<nat>,                      // job ids ever used
    rows: map<nat, Row>,
    leases: map<nat, nat>,               // path -> process
    deletes: map<nat, Delete>,
    reconcilers: map<nat, Reconciler>,
    tasks: map<nat, Task>,
    destroyed: set<nat>,                 // objects ever unlinked by the worker
    authorised: set<(nat, nat, nat)>,    // (job, obj, revision) ever recorded as Ready
    syncFailed: bool,                    // a quarantine or purge sync has failed
    reverted: bool)                      // a crash has dropped an unsynced change

  datatype Action =
    | Publish(path: nat, obj: nat)
    | Touch(obj: nat)
    | BeginDelete(pid: nat, delete: Delete)
    | Prepare(pid: nat, reply: bool)
    | Move(pid: nat)
    | RenameError(pid: nat, happened: bool)
    | SyncMove(pid: nat, ok: bool)
    | MarkReady(pid: nat)
    | RemoveIntent(pid: nat, done: bool)
    | AbortDelete(pid: nat)
    | EndDelete(pid: nat)
    | BeginReconcile(pid: nat, job: nat)
    | AcquireLease(pid: nat)
    | VerifyRow(pid: nat)
    | QuarantineTrash(pid: nat, id: nat)
    | SyncQuarantine(pid: nat, ok: bool)
    | RemoveReconciled(pid: nat)
    | AbortReconcile(pid: nat)
    | Claim(tid: nat, job: nat)
    | Reload(tid: nat)
    | Open(tid: nat)
    | Unlink(tid: nat)
    | SyncUnlink(tid: nat, ok: bool)
    | Isolate(tid: nat, id: nat)
    | SyncIsolated(tid: nat, ok: bool)
    | Complete(tid: nat, reply: bool)
    | Defer(tid: nat, reply: bool)
    | Retain(tid: nat)
    | Crash(keep: nat)

  // ----- directory operations

  function Revision(v: Volume, obj: nat): nat {
    if obj in v.revision then v.revision[obj] else 0
  }

  predicate Holds(v: Volume, name: Name, obj: nat) {
    name in v.names && v.names[name] == obj
  }

  function Renaming(v: Volume, from: Name, to: Name): Volume
    requires from in v.names
  {
    var obj := v.names[from];
    Volume((v.names - {from})[to := obj], v.revision[obj := Revision(v, obj) + 1])
  }

  function Removing(v: Volume, name: Name): Volume {
    v.(names := v.names - {name})
  }

  // ----- the checked rename

  datatype MoveOutcome = Relocated | TargetChanged | NotMoved | Uncertain

  /** `move_to_trash_with_expected_identity_outcome` up to the rename: identity
      and full revision must match what the request observed. */
  predicate MayMove(v: Volume, d: Delete) {
    Holds(v, Target(d.target), d.obj) && Revision(v, d.obj) == d.revision && Trash(d.job) !in v.names
  }

  /** `classify_failed_checked_trash_rename`: only the exact source still in
      place, with a non-matching trash name, proves that nothing moved. */
  function ClassifyFailedRename(v: Volume, d: Delete): MoveOutcome {
    if Holds(v, Target(d.target), d.obj) && !Holds(v, Trash(d.job), d.obj) then NotMoved else Uncertain
  }

  // ----- the step relation

  ghost predicate Initial(s: State) {
    && s.volume == Volume(map[], map[]) && s.history == [s.volume]
    && s.objects == {} && s.jobs == {} && s.rows == map[] && s.leases == map[]
    && s.deletes == map[] && s.reconcilers == map[] && s.tasks == map[]
    && s.destroyed == {} && s.authorised == {} && !s.syncFailed && !s.reverted
  }

  predicate DeleteIn(s: State, pid: nat, phase: DeletePhase) {
    pid in s.deletes && s.deletes[pid].phase == phase
  }

  predicate ReconcilerIn(s: State, pid: nat, phase: ReconcilePhase) {
    pid in s.reconcilers && s.reconcilers[pid].phase == phase
  }

  predicate Midway(phase: TaskPhase) {
    phase.Unlinked? || phase.Isolated?
  }

  /** The single worker finishes a removal and its sync before it turns to another job. */
  predicate WorkerIdle(s: State) {
    forall t :: t in s.tasks ==> !Midway(s.tasks[t].phase)
  }

  predicate TaskIn(s: State, tid: nat, phase: TaskPhase) {
    tid in s.tasks && s.tasks[tid].phase == phase
  }

  predicate RowIs(s: State, job: nat, state: RowState) {
    job in s.rows && s.rows[job].state == state
  }

  predicate RowClaimed(s: State, job: nat) {
    job in s.rows && s.rows[job].state.Claimed?
  }

  predicate QuarantineIsFree(s: State, id: nat) {
    forall k :: 0 <= k < |s.history| ==> Quarantine(id) !in s.history[k].names
  }

  ghost predicate Enabled(s: State, a: Action) {
    match a
    case Publish(path, obj) =>
      obj !in s.objects && Target(path) !in s.volume.names && path !in s.leases
    case Touch(obj) => obj in s.objects
    case BeginDelete(pid, d) =>
      && pid !in s.deletes && pid !in s.reconcilers
      && d.job !in s.jobs && d.target !in s.leases && d.phase == Leased
    case Prepare(pid, _) => DeleteIn(s, pid, Leased)
    case Move(pid) => DeleteIn(s, pid, Intent)
    case RenameError(pid, happened) => DeleteIn(s, pid, Intent) && MayMove(s.volume, s.deletes[pid])
    case SyncMove(pid, _) => pid in s.deletes && s.deletes[pid].phase.Renamed?
    case MarkReady(pid) => pid in s.deletes && s.deletes[pid].phase.Synced?
    case RemoveIntent(pid, _) => DeleteIn(s, pid, Rejected)
    case AbortDelete(pid) => pid in s.deletes && !s.deletes[pid].phase.Over?
    case EndDelete(pid) => DeleteIn(s, pid, Over)
    case BeginReconcile(pid, job) =>
      pid !in s.deletes && pid !in s.reconcilers && RowIs(s, job, Prepared)
    case AcquireLease(pid) => ReconcilerIn(s, pid, Waiting) && s.reconcilers[pid].target !in s.leases
    case VerifyRow(pid) => ReconcilerIn(s, pid, Owning)
    case QuarantineTrash(pid, id) => ReconcilerIn(s, pid, Verified) && QuarantineIsFree(s, id)
    case SyncQuarantine(pid, _) => ReconcilerIn(s, pid, Moved)
    case RemoveReconciled(pid) => ReconcilerIn(s, pid, Settled)
    case AbortReconcile(pid) => pid in s.reconcilers && !s.reconcilers[pid].phase.Moved?
    case Claim(tid, job) => tid !in s.tasks && job in s.rows && s.rows[job].state.Ready? && WorkerIdle(s)
    case Reload(tid) => TaskIn(s, tid, Retained) && WorkerIdle(s)
    case Open(tid) => TaskIn(s, tid, Loaded) && WorkerIdle(s)
    case Unlink(tid) => tid in s.tasks && s.tasks[tid].phase.Opened? && WorkerIdle(s)
    case SyncUnlink(tid, _) => TaskIn(s, tid, Unlinked)
    case Isolate(tid, id) => TaskIn(s, tid, Mismatched) && QuarantineIsFree(s, id) && WorkerIdle(s)
    case SyncIsolated(tid, _) => TaskIn(s, tid, Isolated)
    case Complete(tid, _) => TaskIn(s, tid, Finishing) && WorkerIdle(s)
    case Defer(tid, _) =>
      tid in s.tasks && (s.tasks[tid].phase.Loaded? || s.tasks[tid].phase.Opened?) && WorkerIdle(s)
    case Retain(tid) => tid in s.tasks && WorkerIdle(s)
    case Crash(keep) => keep < |s.history|
  }

  /** The worker may touch an object only if it still has the identity and the
      revision of the claimed row. */
  predicate Matches(v: Volume, task: Task, obj: nat) {
    task.source == obj && Revision(v, obj) == task.trashRevision
  }

  // What a step does is given separately for the directory, the purge rows and
  // the in-memory processes.

  datatype DiskEffect =
    | Untouched
    | Change(next: Volume)               // visible at once, durable only after a sync
    | Sync
    | Replace(next: Volume)              // changed and durable

  ghost function OnDisk(s: State, a: Action): DiskEffect
    requires Enabled(s, a)
  {
    match a
    case Publish(path, obj) => Replace(s.volume.(names := s.volume.names[Target(path) := obj]))
    case Touch(obj) => Change(s.volume.(revision := s.volume.revision[obj := Revision(s.volume, obj) + 1]))
    case Move(pid) =>
      if MayMove(s.volume, s.deletes[pid]) then Change(MovedToTrash(s.volume, s.deletes[pid])) else Untouched
    case RenameError(pid, happened) =>
      if happened then Change(MovedToTrash(s.volume, s.deletes[pid])) else Untouched
    case QuarantineTrash(pid, id) =>
      var trash := Trash(s.reconcilers[pid].job);
      if trash in s.volume.names then Change(Renaming(s.volume, trash, Quarantine(id))) else Untouched
    case Isolate(tid, id) =>
      var trash := Trash(s.tasks[tid].job);
      if trash in s.volume.names then Change(Renaming(s.volume, trash, Quarantine(id))) else Untouched
    case Unlink(tid) =>
      var trash := Trash(s.tasks[tid].job);
      if trash !in s.volume.names then Sync
      else if MayUnlink(s.volume, s.tasks[tid]) then Change(s.volume.(names := s.volume.names - {trash}))
      else Untouched
    case SyncMove(_, ok) => if ok then Sync else Untouched
    case SyncQuarantine(_, ok) => if ok then Sync else Untouched
    case SyncUnlink(_, ok) => if ok then Sync else Untouched
    case SyncIsolated(_, ok) => if ok then Sync else Untouched
    case Crash(keep) => Replace(s.history[keep])
    case _ => Untouched
  }

  function MovedToTrash(v: Volume, d: Delete): Volume
    requires MayMove(v, d)
  {
    Renaming(v, Target(d.target), Trash(d.job))
  }

  predicate MayUnlink(v: Volume, task: Task) {
    task.phase.Opened? && Holds(v, Trash(task.job), task.phase.obj) && Matches(v, task, task.phase.obj)
  }

  function VolumeAfter(v: Volume, e: DiskEffect): Volume {
    match e
    case Change(next) => next
    case Replace(next) => next
    case _ => v
  }

  function HistoryAfter(v: Volume, history: seq<Volume>, e: DiskEffect): seq<Volume> {
    match e
    case Untouched => history
    case Change(next) => history + [next]
    case Sync => [v]
    case Replace(next) => [next]
  }

  function ResetClaims(rows: map<nat, Row>): map<nat, Row> {
    map j | j in rows ::
      if rows[j].state.Claimed? then rows[j].(state := Ready(rows[j].state.trashRevision)) else rows[j]
  }

  ghost function RowsAfter(s: State, a: Action): map<nat, Row>
    requires Enabled(s, a)
  {
    match a
    case Prepare(pid, _) =>
      var d := s.deletes[pid];
      s.rows[d.job := Row(d.target, d.obj, Prepared)]
    case MarkReady(pid) =>
      var d := s.deletes[pid];
      if RowIs(s, d.job, Prepared) then s.rows[d.job := s.rows[d.job].(state := Ready(d.phase.trashRevision))]
      else s.rows
    case RemoveIntent(pid, done) => if done then s.rows - {s.deletes[pid].job} else s.rows
    case RemoveReconciled(pid) => s.rows - {s.reconcilers[pid].job}
    case Claim(_, job) => s.rows[job := s.rows[job].(state := Claimed(s.rows[job].state.trashRevision))]
    case Complete(tid, _) =>
      if RowClaimed(s, s.tasks[tid].job) then s.rows - {s.tasks[tid].job} else s.rows
    case Defer(tid, _) =>
      var job := s.tasks[tid].job;
      if RowClaimed(s, job) then s.rows[job := s.rows[job].(state := Ready(s.rows[job].state.trashRevision))]
      else s.rows
    case Crash(_) => ResetClaims(s.rows)
    case _ => s.rows
  }

  ghost function DeletePhaseAfter(s: State, a: Action): DeletePhase
    requires Enabled(s, a)
  {
    match a
    case Prepare(_, reply) => if reply then Intent else Over
    case Move(pid) =>
      var d := s.deletes[pid];
      if MayMove(s.volume, d) then Renamed(Revision(MovedToTrash(s.volume, d), d.obj)) else Rejected
    case RenameError(pid, _) =>
      if ClassifyFailedRename(VolumeAfter(s.volume, OnDisk(s, a)), s.deletes[pid]).NotMoved? then Rejected else Over
    case SyncMove(pid, ok) => if ok then Synced(s.deletes[pid].phase.trashRevision) else Over
    case _ => Over
  }

  predicate StepsDelete(a: Action) {
    || a.Prepare? || a.Move? || a.RenameError? || a.SyncMove? || a.MarkReady? || a.RemoveIntent? || a.AbortDelete?
  }

  ghost function DeletesAfter(s: State, a: Action): map<nat, Delete>
    requires Enabled(s, a)
  {
    if a.BeginDelete? then s.deletes[a.pid := a.delete]
    else if a.EndDelete? then s.deletes - {a.pid}
    else if a.Crash? then map[]
    else if StepsDelete(a) then s.deletes[a.pid := s.deletes[a.pid].(phase := DeletePhaseAfter(s, a))]
    else s.deletes
  }

  /** The reconciler's next phase, or `None` when it ends. */
  ghost function ReconcilePhaseAfter(s: State, a: Action): Option<ReconcilePhase>
    requires Enabled(s, a)
  {
    match a
    case AcquireLease(_) => Some(Owning)
    case VerifyRow(pid) => if RowIs(s, s.reconcilers[pid].job, Prepared) then Some(Verified) else None
    case QuarantineTrash(pid, _) =>
      if Trash(s.reconcilers[pid].job) in s.volume.names then Some(ReconcilePhase.Moved) else Some(Settled)
    case SyncQuarantine(_, ok) => if ok then Some(Settled) else None
    case _ => None
  }

  predicate StepsReconciler(a: Action) {
    || a.AcquireLease? || a.VerifyRow? || a.QuarantineTrash? || a.SyncQuarantine?
    || a.RemoveReconciled? || a.AbortReconcile?
  }

  ghost function ReconcilersAfter(s: State, a: Action): map<nat, Reconciler>
    requires Enabled(s, a)
  {
    if a.BeginReconcile? then s.reconcilers[a.pid := Reconciler(a.job, s.rows[a.job].target, Waiting)]
    else if a.Crash? then map[]
    else if StepsReconciler(a) then
      match ReconcilePhaseAfter(s, a)
      case Some(phase) => s.reconcilers[a.pid := s.reconcilers[a.pid].(phase := phase)]
      case None => s.reconcilers - {a.pid}
    else s.reconcilers
  }

  ghost function LeasesAfter(s: State, a: Action): map<nat, nat>
    requires Enabled(s, a)
  {
    if a.BeginDelete? then s.leases[a.delete.target := a.pid]
    else if a.EndDelete? then s.leases - {s.deletes[a.pid].target}
    else if a.AcquireLease? then s.leases[s.reconcilers[a.pid].target := a.pid]
    else if a.Crash? then map[]
    else if StepsReconciler(a) && ReconcilePhaseAfter(s, a).None? && !s.reconcilers[a.pid].phase.Waiting? then
      s.leases - {s.reconcilers[a.pid].target}
    else s.leases
  }

  /** Where the worker stands with a job next, or `None` when it forgets the job. */
  ghost function TaskPhaseAfter(s: State, a: Action): Option<TaskPhase>
    requires Enabled(s, a)
  {
    match a
    case Reload(tid) => if RowClaimed(s, s.tasks[tid].job) then Some(Loaded) else None
    case Open(tid) =>
      var trash := Trash(s.tasks[tid].job);
      if trash !in s.volume.names then Some(Finishing)
      else
        var obj := s.volume.names[trash];
        Some(if Matches(s.volume, s.tasks[tid], obj) then Opened(obj) else Mismatched)
    case Unlink(tid) =>
      if Trash(s.tasks[tid].job) !in s.volume.names then Some(Finishing)
      else if MayUnlink(s.volume, s.tasks[tid]) then Some(Unlinked)
      else Some(Mismatched)
    case SyncUnlink(_, ok) => Some(if ok then Finishing else Loaded)
    case Isolate(tid, _) => Some(if Trash(s.tasks[tid].job) in s.volume.names then Isolated else Finishing)
    case SyncIsolated(_, ok) => Some(if ok then Finishing else Retained)
    case Complete(_, reply) => if reply then None else Some(Retained)
    case Defer(_, reply) => if reply then None else Some(Retained)
    case _ => Some(Retained)
  }

  predicate StepsTask(a: Action) {
    || a.Reload? || a.Open? || a.Unlink? || a.SyncUnlink? || a.Isolate?
    || a.SyncIsolated? || a.Complete? || a.Defer? || a.Retain?
  }

  ghost function TasksAfter(s: State, a: Action): map<nat, Task>
    requires Enabled(s, a)
  {
    if a.Claim? then
      var row := s.rows[a.job];
      s.tasks[a.tid := Task(a.job, row.source, row.state.trashRevision, Loaded)]
    else if a.Crash? then map[]
    else if StepsTask(a) then
      match TaskPhaseAfter(s, a)
      case Some(phase) => s.tasks[a.tid := s.tasks[a.tid].(phase := phase)]
      case None => s.tasks - {a.tid}
    else s.tasks
  }

  ghost function Apply(s: State, a: Action): State
    requires Enabled(s, a)
  {
    var disk := OnDisk(s, a);
    State(
      VolumeAfter(s.volume, disk),
      HistoryAfter(s.volume, s.history, disk),
      if a.Publish? then s.objects + {a.obj} else s.objects,
      if a.BeginDelete? then s.jobs + {a.delete.job} else s.jobs,
      RowsAfter(s, a),
      LeasesAfter(s, a),
      DeletesAfter(s, a),
      ReconcilersAfter(s, a),
      TasksAfter(s, a),
      if a.Unlink? && disk.Change? then s.destroyed + {s.tasks[a.tid].source} else s.destroyed,
      if a.MarkReady? && RowIs(s, s.deletes[a.pid].job, Prepared)
        then s.authorised + {(s.deletes[a.pid].job, s.deletes[a.pid].obj, s.deletes[a.pid].phase.trashRevision)}
        else s.authorised,
      s.syncFailed || ((a.SyncQuarantine? || a.SyncUnlink? || a.SyncIsolated?) && !a.ok),
      s.reverted || (a.Crash? && a.keep + 1 < |s.history|))
  }

  ghost predicate Next(s: State, a: Action, t: State) {
    Enabled(s, a) && t == Apply(s, a)
  }

  ghost predicate IsRun(states: seq<State>, actions: seq<Action>) {
    && |states| == |actions| + 1
    && Initial(states[0])
    && forall i :: 0 <= i < |actions| ==> Next(states[i], actions[i], states[i + 1])
  }
}
