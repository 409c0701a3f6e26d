/**
 The one way a trash entry loses its row: the sync after a removal fails, the
 job is deferred and claimed again, the name is found missing and the job is
 completed without a sync, and a crash brings the name back.
 */
module DeleteOrphan {
  import opened DeleteProtocol
  import opened DeleteInvariants
  import opened DeleteTheorems

  /** Whatever a step is, a sequence of them can be prolonged. */
  lemma Prolong<S, A>(step: (S, A, S) -> bool, states: seq<S>, actions: seq<A>, a: A, next: S)
    requires |states| == |actions| + 1 && step(states[|actions|], a, next)
    requires forall i :: 0 <= i < |actions| ==> step(states[i], actions[i], states[i + 1])
    ensures forall i :: 0 <= i < |actions + [a]| ==>
      step((states + [next])[i], (actions + [a])[i], (states + [next])[i + 1])
  {
    var s, l := states + [next], actions + [a];
    forall i | 0 <= i < |l| ensures step(s[i], l[i], s[i + 1]) {
      if i < |actions| {
        assert s[i] == states[i] && l[i] == actions[i] && s[i + 1] == states[i + 1];
      } else {
        assert s[i] == states[|actions|] && l[i] == a && s[i + 1] == next;
      }
    }
  }

  lemma ReachesOneFurther(s: State, a: Action)
    requires Reachable(s) && Enabled(s, a)
    ensures Reachable(Apply(s, a))
  {
    var states, actions :| IsRun(states, actions) && states[|actions|] == s;
    Prolong(Next, states, actions, a, Apply(s, a));
    var t, longer := states + [Apply(s, a)], actions + [a];
    assert IsRun(t, longer) && t[|longer|] == Apply(s, a);
  }

  /** A worker about to unlink an opened job. */
  ghost predicate AboutToUnlink(s: State, tid: nat) {
    && tid in s.tasks && s.tasks[tid].phase.Opened? && WorkerIdle(s)
    && MayUnlink(s.volume, s.tasks[tid]) && RowClaimed(s, s.tasks[tid].job)
    && |s.history| > 0 && s.history[|s.history| - 1] == s.volume
  }

  lemma UnlinkFails(s: State, tid: nat) returns (t: State)
    requires Reachable(s) && AboutToUnlink(s, tid)
    ensures Reachable(t) && t.history == s.history + [t.volume] && t.rows == s.rows && t.syncFailed
    ensures t.volume == Removing(s.volume, Trash(s.tasks[tid].job))
    ensures t.tasks == s.tasks[tid := s.tasks[tid].(phase := Loaded)]
  {
    var mid := Apply(s, Unlink(tid));
    ReachesOneFurther(s, Unlink(tid));
    ReachesOneFurther(mid, SyncUnlink(tid, false));
    t := Apply(mid, SyncUnlink(tid, false));
  }

  lemma MissingNameIsFinished(s: State, tid: nat) returns (t: State)
    requires Reachable(s) && TaskIn(s, tid, Loaded) && WorkerIdle(s) && Trash(s.tasks[tid].job) !in s.volume.names
    ensures Reachable(t) && t.tasks == s.tasks[tid := s.tasks[tid].(phase := Finishing)] && t.rows == s.rows
    ensures t.history == s.history && t.volume == s.volume && t.syncFailed == s.syncFailed
  {
    ReachesOneFurther(s, Open(tid));
    t := Apply(s, Open(tid));
  }

  lemma MissingNameCompletes(s: State, tid: nat) returns (t: State)
    requires Reachable(s) && TaskIn(s, tid, Loaded) && WorkerIdle(s)
    requires Trash(s.tasks[tid].job) !in s.volume.names && RowClaimed(s, s.tasks[tid].job)
    ensures Reachable(t) && t.history == s.history && t.volume == s.volume && s.tasks[tid].job !in t.rows
    ensures t.syncFailed == s.syncFailed
  {
    var mid := MissingNameIsFinished(s, tid);
    assert TaskIn(mid, tid, Finishing) && WorkerIdle(mid);
    ReachesOneFurther(mid, Complete(tid, true));
    t := Apply(mid, Complete(tid, true));
  }

  /** The failed slice defers its job, and the job is claimed again later. */
  lemma DeferredAndClaimed(s: State, tid: nat) returns (t: State)
    requires Reachable(s) && TaskIn(s, tid, Loaded) && WorkerIdle(s) && RowClaimed(s, s.tasks[tid].job)
    ensures Reachable(t) && t.history == s.history && t.volume == s.volume && t.syncFailed == s.syncFailed
    ensures TaskIn(t, tid, Loaded) && t.tasks[tid].job == s.tasks[tid].job && WorkerIdle(t)
    ensures RowClaimed(t, s.tasks[tid].job)
  {
    var job := s.tasks[tid].job;
    var mid := Apply(s, Defer(tid, true));
    ReachesOneFurther(s, Defer(tid, true));
    assert mid.tasks == s.tasks - {tid} && WorkerIdle(mid);
    ReachesOneFurther(mid, Claim(tid, job));
    t := Apply(mid, Claim(tid, job));
  }

  /** From every reachable state in which the worker is about to unlink a job,
      failed sync, completion and crash leave its object under a trash name
      that no row covers. */
  lemma AnyOpenedJobCanBeOrphaned(s: State, tid: nat) returns (t: State)
    requires Reachable(s) && AboutToUnlink(s, tid)
    ensures Reachable(t) && t.syncFailed && t.reverted
    ensures Holds(t.volume, Trash(s.tasks[tid].job), s.tasks[tid].source) && s.tasks[tid].job !in t.rows
    ensures forall place :: !IsAt(t, s.tasks[tid].source, place)
  {
    var job, obj := s.tasks[tid].job, s.tasks[tid].source;
    var failed := UnlinkFails(s, tid);
    var again := DeferredAndClaimed(failed, tid);
    var done := MissingNameCompletes(again, tid);
    assert done.history[|s.history| - 1] == s.volume;
    t := CrashBack(done, |s.history| - 1);
    OrphanIsNowhere(t, job, obj);
  }

  lemma CrashBack(s: State, keep: nat) returns (t: State)
    requires Reachable(s) && keep + 1 < |s.history|
    ensures Reachable(t) && t.volume == s.history[keep] && t.reverted && t.syncFailed == s.syncFailed
    ensures t.rows.Keys == s.rows.Keys
  {
    ReachesOneFurther(s, Crash(keep));
    t := Apply(s, Crash(keep));
  }

  lemma OrphanIsNowhere(s: State, job: nat, obj: nat)
    requires Reachable(s) && Holds(s.volume, Trash(job), obj) && job !in s.rows
    ensures forall place :: !IsAt(s, obj, place)
  {
    ReachableStateIsOk(s);
    assert VolumeOk(s, s.history[|s.history| - 1]);
    forall place ensures !IsAt(s, obj, place) {
      if IsAt(s, obj, place) {
        AtMostOnePlace(s, obj, Trash(job), place);
      }
    }
  }

  // ----- a run that gets there

  const TARGET: Volume := Volume(map[Target(0) := 0], map[])
  const TRASHED: Volume := Volume(map[Trash(0) := 0], map[0 := 1])

  function Request(phase: DeletePhase): Delete {
    Delete(0, 0, 0, 0, phase)
  }

  function Deleting(v: Volume, history: seq<Volume>, rows: map<nat, Row>, phase: DeletePhase): State {
    State(v, history, {0}, {0}, rows, map[0 := 0], map[0 := Request(phase)], map[], map[], {}, {}, false, false)
  }

  function Published(): State {
    State(TARGET, [TARGET], {0}, {}, map[], map[], map[], map[], map[], {}, {}, false, false)
  }

  function Recorded(rows: map<nat, Row>, tasks: map<nat, Task>): State {
    State(TRASHED, [TRASHED], {0}, {0}, rows, map[0 := 0], map[0 := Request(Over)], map[], tasks, {}, {(0, 0, 1)},
      false, false)
  }

  function RowIn(state: RowState): map<nat, Row> {
    map[0 := Row(0, 0, state)]
  }

  lemma TargetIsPublished()
    ensures Reachable(Published())
  {
    var empty := Volume(map[], map[]);
    var s := State(empty, [empty], {}, {}, map[], map[], map[], map[], map[], {}, {}, false, false);
    assert IsRun([s], []) && [s][0] == s;
    var a := Publish(0, 0);
    ReachesOneFurther(s, a);
    assert Apply(s, a).volume.names == map[Target(0) := 0];
    assert Apply(s, a) == Published();
  }

  lemma DeleteHasBegun()
    ensures Reachable(Deleting(TARGET, [TARGET], map[], Leased))
  {
    TargetIsPublished();
    var begin := BeginDelete(0, Request(Leased));
    ReachesOneFurther(Published(), begin);
    assert Apply(Published(), begin) == Deleting(TARGET, [TARGET], map[], Leased);
  }

  lemma IntentIsRecorded()
    ensures Reachable(Deleting(TARGET, [TARGET], RowIn(Prepared), Intent))
  {
    DeleteHasBegun();
    var s := Deleting(TARGET, [TARGET], map[], Leased);
    ReachesOneFurther(s, Prepare(0, true));
    assert Apply(s, Prepare(0, true)).deletes == map[0 := Request(Intent)];
    assert Apply(s, Prepare(0, true)).rows == RowIn(Prepared);
  }

  lemma MoveEffect()
    ensures MovedToTrash(TARGET, Request(Intent)) == TRASHED
  {
    assert MovedToTrash(TARGET, Request(Intent)).names == map[Trash(0) := 0];
  }

  lemma TargetIsMoved()
    ensures Reachable(Deleting(TRASHED, [TARGET, TRASHED], RowIn(Prepared), Renamed(1)))
  {
    IntentIsRecorded();
    MoveEffect();
    var s := Deleting(TARGET, [TARGET], RowIn(Prepared), Intent);
    ReachesOneFurther(s, Move(0));
    assert [TARGET] + [TRASHED] == [TARGET, TRASHED];
    assert Apply(s, Move(0)).deletes == map[0 := Request(Renamed(1))];
  }

  lemma MoveIsSynced()
    ensures Reachable(Deleting(TRASHED, [TRASHED], RowIn(Prepared), Synced(1)))
  {
    TargetIsMoved();
    var s := Deleting(TRASHED, [TARGET, TRASHED], RowIn(Prepared), Renamed(1));
    ReachesOneFurther(s, SyncMove(0, true));
    assert Apply(s, SyncMove(0, true)).deletes == map[0 := Request(Synced(1))];
  }

  lemma ReadyIsRecorded()
    ensures Reachable(Recorded(RowIn(Ready(1)), map[]))
  {
    MoveIsSynced();
    var s := Deleting(TRASHED, [TRASHED], RowIn(Prepared), Synced(1));
    ReachesOneFurther(s, MarkReady(0));
    assert Apply(s, MarkReady(0)).rows == RowIn(Ready(1));
    assert Apply(s, MarkReady(0)).deletes == map[0 := Request(Over)];
    assert Apply(s, MarkReady(0)).authorised == {(0, 0, 1)};
  }

  lemma JobIsClaimed()
    ensures Reachable(Recorded(RowIn(Claimed(1)), map[0 := Task(0, 0, 1, Loaded)]))
  {
    ReadyIsRecorded();
    var s := Recorded(RowIn(Ready(1)), map[]);
    ReachesOneFurther(s, Claim(0, 0));
    assert Apply(s, Claim(0, 0)).rows == RowIn(Claimed(1));
    assert Apply(s, Claim(0, 0)).tasks == map[0 := Task(0, 0, 1, Loaded)];
  }

  lemma JobIsOpened() returns (s: State)
    ensures Reachable(s) && AboutToUnlink(s, 0) && s.tasks[0].source == 0
  {
    JobIsClaimed();
    var claimed := Recorded(RowIn(Claimed(1)), map[0 := Task(0, 0, 1, Loaded)]);
    ReachesOneFurther(claimed, Open(0));
    s := Apply(claimed, Open(0));
    assert s.tasks == map[0 := Task(0, 0, 1, Opened(0))];
  }

  /** So the guarantee of one place per object does need its condition. */
  lemma SomeRunLosesARow() returns (s: State)
    ensures Reachable(s) && 0 in s.objects && forall place :: !IsAt(s, 0, place)
  {
    var before := JobIsOpened();
    s := AnyOpenedJobCanBeOrphaned(before, 0);
    ReachableStateIsOk(s);
    assert VolumeOk(s, s.history[|s.history| - 1]);
  }
}
