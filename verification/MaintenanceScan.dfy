/**
 The resumable maintenance scan: a depth-first walk with one cursor per open
 directory, cut into batches by entry budgets, deadlines and a full purge
 queue. The tree is a fixed value; what changes from one moment to the next
 (live uploads, state bindings, the queue) is a world per check.
 */
module MaintenanceScan {
  import opened Basics
  import opened PathKeys

  datatype InternalName = StageDirectory | Readiness | DeleteTrash | Quarantine

  datatype NameClass = NotUtf8 | Utf8(internal: Option<InternalName>, stageName: bool)

  /** `Escaping` is a link out of the shared root: read, counted, never visited. */
  datatype Node = Leaf | Symlink | Escaping | Folder(children: seq<Entry>)

  datatype Entry = Entry(path: Path, kind: NameClass, modified: Option<nat>, changed: Option<nat>, node: Node)

  datatype Directory = Directory(children: seq<Entry>, isStage: bool, cursor: nat)

  /** A live upload holds its own key, a running cleanup the marker of the key. */
  datatype ActiveKey = Live(key: nat) | Marker(key: nat)

  datatype Rules = Rules(
    trashTtl: nat, protectedUploads: set<nat>, skipUploads: bool, protectedTrash: set<nat>, skipTrash: bool)

  datatype World = World(
    keys: map<Path, nat>,                // entry keys; missing when the entry has vanished
    active: set<ActiveKey>,
    bound: set<Path>,                    // bound in the state store, or not known to be free
    capturable: set<Path>,
    queueAccepts: bool)

  datatype Batch = Batch(now: nat, uploadTtl: nat, maxEntries: nat, expired: nat -> bool, world: nat -> World)

  datatype Decision = Skip | Descend | Remove(key: nat) | Schedule(key: nat) | Postpone(key: nat)

  /** An entry acted on, with the moment of its last check. */
  datatype Act = Act(entry: Entry, inStage: bool, key: nat, tick: nat)

  datatype Report = Report(removed: seq<Act>, scheduled: seq<Act>)

  // ----- what may be done to an entry

  function Age(e: Entry, now: nat, isTrash: bool): nat {
    var newest :=
      if isTrash && e.changed.Some? then
        Some(if e.modified.Some? then Max(e.modified.value, e.changed.value) else e.changed.value)
      else e.modified;
    if newest.Some? && newest.value <= now then now - newest.value else 0
  }

  predicate IsStageEntry(e: Entry, inStage: bool) {
    inStage && e.kind.Utf8? && e.kind.stageName
  }

  predicate Is(e: Entry, name: InternalName) {
    e.kind.Utf8? && e.kind.internal == Some(name)
  }

  /** Folders the walk enters: user folders and the upload staging folder. */
  predicate Descends(e: Entry, inStage: bool) {
    && e.node.Folder?
    && (e.kind.NotUtf8? || Is(e, StageDirectory) || (e.kind.internal.None? && !IsStageEntry(e, inStage)))
  }

  /** Only an old regular file the server made for an upload, which nothing protects or uses. */
  predicate MayRemove(e: Entry, inStage: bool, key: nat, rules: Rules, batch: Batch, w: World) {
    && e.node.Leaf? && e.kind.Utf8?
    && (Is(e, Readiness) || (e.kind.internal.None? && IsStageEntry(e, inStage)))
    && Age(e, batch.now, false) >= batch.uploadTtl
    && !(rules.skipUploads && IsStageEntry(e, inStage))
    && e.path in w.keys && w.keys[e.path] == key && key !in rules.protectedUploads
    && Live(key) !in w.active && Marker(key) !in w.active && e.path !in w.bound
  }

  predicate MayPurge(e: Entry, key: nat, rules: Rules) {
    && (e.node.Leaf? || e.node.Folder?) && Is(e, DeleteTrash)
    && !rules.skipTrash && key !in rules.protectedTrash
  }

  predicate MaySchedule(e: Entry, key: nat, rules: Rules, batch: Batch, w: World) {
    && MayPurge(e, key, rules) && Age(e, batch.now, true) >= rules.trashTtl
    && e.path in w.keys && w.keys[e.path] == key && e.path !in w.bound && e.path in w.capturable
  }

  /** What is to be done with an entry: at most one of these applies. */
  function Decide(e: Entry, inStage: bool, rules: Rules, batch: Batch, w: World): (d: Decision)
    ensures d.Remove? ==> MayRemove(e, inStage, d.key, rules, batch, w)
    ensures d.Schedule? || d.Postpone? ==> MaySchedule(e, d.key, rules, batch, w)
  {
    var key := if e.path in w.keys then w.keys[e.path] else 0;
    if Descends(e, inStage) then Descend
    else if MayRemove(e, inStage, key, rules, batch, w) then Remove(key)
    else if MaySchedule(e, key, rules, batch, w) then (if w.queueAccepts then Schedule(key) else Postpone(key))
    else Skip
  }

  /** Every time stamp of the entry lies at least this long before now, and it has one. */
  predicate StampsAreOld(e: Entry, ttl: nat, now: nat) {
    && (e.modified.Some? || e.changed.Some?)
    && (e.modified.Some? ==> e.modified.value + ttl <= now)
    && (e.changed.Some? ==> e.changed.value + ttl <= now)
  }

  /** Trash is handed to the purge queue, or kept for the next batch when that is
      full, exactly if it is a file or a directory with the trash name, cleanup is
      on, its key is known and not protected, nothing in the store is bound to it, it
      can be captured, and all its time stamps are old. */
  lemma TrashIsPurgedExactly(e: Entry, inStage: bool, rules: Rules, batch: Batch, w: World)
    ensures
      var d := Decide(e, inStage, rules, batch, w);
      && (d.Schedule? || d.Postpone? <==>
            && (e.node.Leaf? || e.node.Folder?) && e.kind.Utf8? && e.kind.internal == Some(DeleteTrash)
            && !rules.skipTrash && e.path in w.keys && w.keys[e.path] !in rules.protectedTrash
            && e.path !in w.bound && e.path in w.capturable
            && (rules.trashTtl == 0 || StampsAreOld(e, rules.trashTtl, batch.now)))
      && (d.Schedule? ==> w.queueAccepts && d.key == w.keys[e.path])
      && (d.Postpone? ==> !w.queueAccepts && d.key == w.keys[e.path])
  {
  }

  /** A file is removed exactly if it is a readiness marker or a staged upload, was
      last modified long enough ago, its key is known, and neither the rules, a live
      upload, a running cleanup nor the store protects it. */
  lemma UploadIsRemovedExactly(e: Entry, inStage: bool, rules: Rules, batch: Batch, w: World)
    ensures
      var d := Decide(e, inStage, rules, batch, w);
      var staged := inStage && e.kind.Utf8? && e.kind.stageName;
      && (d.Remove? <==>
            && e.node.Leaf? && e.kind.Utf8?
            && (e.kind.internal == Some(Readiness) || (e.kind.internal == None && staged))
            && (batch.uploadTtl == 0 || (e.modified.Some? && e.modified.value + batch.uploadTtl <= batch.now))
            && !(rules.skipUploads && staged) && e.path in w.keys && w.keys[e.path] !in rules.protectedUploads
            && Live(w.keys[e.path]) !in w.active && Marker(w.keys[e.path]) !in w.active && e.path !in w.bound)
      && (d.Remove? ==> d.key == w.keys[e.path])
  {
  }

  /** The walk enters exactly the user's folders, by whatever name, and the staging folder. */
  lemma FolderIsEnteredExactly(e: Entry, inStage: bool, rules: Rules, batch: Batch, w: World)
    ensures Decide(e, inStage, rules, batch, w).Descend? <==>
      && e.node.Folder?
      && (e.kind.NotUtf8? || e.kind.internal == Some(StageDirectory)
          || (e.kind.internal == None && !(inStage && e.kind.stageName)))
  {
  }

  /** The visitor callback on an entry that resolved inside the root. */
  method Judge(e: Entry, inStage: bool, rules: Rules, batch: Batch, w: World) returns (d: Decision)
    requires !e.node.Escaping?
    ensures d == Decide(e, inStage, rules, batch, w)
    ensures forall key :: MayRemove(e, inStage, key, rules, batch, w) ==> d == Remove(key)
    ensures forall key :: MaySchedule(e, key, rules, batch, w) ==> d == Schedule(key) || d == Postpone(key)
  {
    if e.node.Symlink? {
      return Skip;
    }
    var isDir := e.node.Folder?;
    if e.kind.NotUtf8? {
      return if isDir then Descend else Skip;
    }
    var isStage := inStage && e.kind.stageName;
    if e.kind.internal.None? && !isStage {
      return if isDir then Descend else Skip;
    }
    if e.kind.internal == Some(Quarantine) {
      return Skip;
    }
    if e.kind.internal == Some(StageDirectory) {
      return if isDir then Descend else Skip;
    }
    var isTrash := e.kind.internal == Some(DeleteTrash);
    if isDir && !isTrash {
      return Skip;
    }
    if Age(e, batch.now, isTrash) < (if isTrash then rules.trashTtl else batch.uploadTtl) {
      return Skip;
    }
    if isTrash {
      if rules.skipTrash || e.path !in w.keys || w.keys[e.path] in rules.protectedTrash {
        return Skip;
      }
      if e.path in w.bound || e.path !in w.capturable {
        return Skip;
      }
      return if w.queueAccepts then Schedule(w.keys[e.path]) else Postpone(w.keys[e.path]);
    }
    if (rules.skipUploads && isStage) || e.path !in w.keys || w.keys[e.path] in rules.protectedUploads {
      return Skip;
    }
    var key := w.keys[e.path];
    if Live(key) in w.active || Marker(key) in w.active || e.path in w.bound {
      return Skip;
    }
    assert e.kind.internal.Some? ==> e.kind.internal.value.Readiness?;
    return Remove(key);
  }

  // ----- the plain traversal

  /** Every entry below these, each once, a folder's contents right after it. */
  ghost function Listing(entries: seq<Entry>, inStage: bool): seq<Path>
    decreases entries
  {
    if entries == [] then []
    else [entries[0].path] + Below(entries[0], inStage) + Listing(entries[1..], inStage)
  }

  ghost function Below(e: Entry, inStage: bool): seq<Path>
    decreases e
  {
    if Descends(e, inStage) then Listing(e.node.children, Is(e, StageDirectory)) else []
  }

  // ----- what is left of it

  ghost predicate WellFormed(directories: seq<Directory>) {
    forall k :: 0 <= k < |directories| ==> directories[k].cursor <= |directories[k].children|
  }

  ghost function Remaining(directories: seq<Directory>): seq<Path>
    requires WellFormed(directories)
  {
    if directories == [] then []
    else
      var top := directories[|directories| - 1];
      Listing(top.children[top.cursor..], top.isStage) + Remaining(directories[..|directories| - 1])
  }

  ghost predicate StaysExpired(batch: Batch) {
    forall i: nat, j: nat :: i <= j && batch.expired(i) ==> batch.expired(j)
  }

  /** An entry examined by a batch, and when. */
  datatype Seen = Seen(entry: Entry, inStage: bool, tick: nat)

  ghost function DecisionOn(seen: Seen, rules: Rules, batch: Batch): Decision {
    if seen.entry.node.Escaping? then Skip
    else Decide(seen.entry, seen.inStage, rules, batch, batch.world(seen.tick))
  }

  function Record(report: Report, d: Decision, e: Entry, inStage: bool, tick: nat): Report {
    if d.Remove? then report.(removed := report.removed + [Act(e, inStage, d.key, tick)])
    else if d.Schedule? then report.(scheduled := report.scheduled + [Act(e, inStage, d.key, tick)])
    else report
  }

  /** The report of a batch that examined these entries. */
  ghost function RecordAll(before: Report, seen: seq<Seen>, rules: Rules, batch: Batch): Report {
    if seen == [] then before
    else
      var last := seen[|seen| - 1];
      Record(RecordAll(before, seen[..|seen| - 1], rules, batch), DecisionOn(last, rules, batch), last.entry,
        last.inStage, last.tick)
  }

  /** The entry, if any, that stopped the batch because the purge queue was full. */
  ghost function PostponedBy(seen: seq<Seen>, rules: Rules, batch: Batch): Option<Act> {
    if seen != [] && DecisionOn(seen[|seen| - 1], rules, batch).Postpone? then
      var last := seen[|seen| - 1];
      Some(Act(last.entry, last.inStage, DecisionOn(last, rules, batch).key, last.tick))
    else None
  }

  lemma RecordOneMore(before: Report, seen: seq<Seen>, one: Seen, rules: Rules, batch: Batch)
    ensures RecordAll(before, seen + [one], rules, batch)
      == Record(RecordAll(before, seen, rules, batch), DecisionOn(one, rules, batch), one.entry, one.inStage, one.tick)
  {
    assert (seen + [one])[..|seen|] == seen;
  }

  ghost predicate ReportOk(report: Report, rules: Rules, batch: Batch) {
    && (forall a :: a in report.removed ==> MayRemove(a.entry, a.inStage, a.key, rules, batch, batch.world(a.tick)))
    && (forall a :: a in report.scheduled ==>
      MayPurge(a.entry, a.key, rules) && a.entry.path !in batch.world(a.tick).bound)
  }

  /** Whatever was examined, only what may be removed or scheduled is reported. */
  lemma {:induction false} ReportIsSafe(before: Report, seen: seq<Seen>, rules: Rules, batch: Batch)
    requires ReportOk(before, rules, batch)
    ensures ReportOk(RecordAll(before, seen, rules, batch), rules, batch)
  {
    if seen != [] {
      ReportIsSafe(before, seen[..|seen| - 1], rules, batch);
    }
  }

  /** And every decision to remove or to schedule is carried out. */
  lemma {:induction false} ReportIsComplete(
      before: Report, seen: seq<Seen>, rules: Rules, batch: Batch, i: nat, key: nat)
    requires i < |seen|
    ensures
      var act := Act(seen[i].entry, seen[i].inStage, key, seen[i].tick);
      && (DecisionOn(seen[i], rules, batch) == Remove(key) ==> act in RecordAll(before, seen, rules, batch).removed)
      && (DecisionOn(seen[i], rules, batch) == Schedule(key) ==> act in RecordAll(before, seen, rules, batch).scheduled)
  {
    if i < |seen| - 1 {
      ReportIsComplete(before, seen[..|seen| - 1], rules, batch, i, key);
    }
  }

  /** What a batch adds to the report is an entry it examined, and old enough for what is done to it. */
  lemma {:induction false} ReportIsAged(before: Report, seen: seq<Seen>, rules: Rules, batch: Batch, a: Act)
    requires rules.trashTtl > 0 && batch.uploadTtl > 0
    ensures a in RecordAll(before, seen, rules, batch).scheduled && a !in before.scheduled ==>
      Seen(a.entry, a.inStage, a.tick) in seen && StampsAreOld(a.entry, rules.trashTtl, batch.now)
    ensures a in RecordAll(before, seen, rules, batch).removed && a !in before.removed ==>
      && Seen(a.entry, a.inStage, a.tick) in seen
      && a.entry.modified.Some? && a.entry.modified.value + batch.uploadTtl <= batch.now
  {
    if seen != [] {
      var last := seen[|seen| - 1];
      ReportIsAged(before, seen[..|seen| - 1], rules, batch, a);
      TrashIsPurgedExactly(last.entry, last.inStage, rules, batch, batch.world(last.tick));
      UploadIsRemovedExactly(last.entry, last.inStage, rules, batch, batch.world(last.tick));
    }
  }

  /** Nothing quarantined, protected, state-bound or in use is ever removed or scheduled. */
  lemma ReportSparesTheRest(report: Report, rules: Rules, batch: Batch, a: Act)
    requires ReportOk(report, rules, batch) && (a in report.removed || a in report.scheduled)
    ensures !Is(a.entry, Quarantine) && !a.entry.node.Symlink? && a.entry.path !in batch.world(a.tick).bound
    ensures a in report.removed ==> a.key !in rules.protectedUploads && Live(a.key) !in batch.world(a.tick).active
    ensures a in report.scheduled ==> a.key !in rules.protectedTrash
  {
  }

  datatype Progress = Complete | Paused(cursor: nat)

  /** What is left of a directory at a cursor, with the folder to enter first, if any. */
  ghost function Rest(top: Directory, cursor: nat, descend: Option<Entry>): seq<Path>
    requires cursor <= |top.children|
  {
    if descend.Some? then Below(descend.value, top.isStage) + Listing(top.children[cursor..], top.isStage)
    else Listing(top.children[cursor..], top.isStage)
  }

  /** Where a chunk ended. */
  function End(top: Directory, progress: Progress): nat {
    if progress.Paused? then progress.cursor else |top.children|
  }

  class Scan {
    const rules: Rules
    var directories: seq<Directory>
    var pending: Option<Act>
    var examined: nat
    var ticks: nat
    ghost const full: seq<Path>
    ghost var log: seq<Path>             // every entry examined so far, over all batches
    ghost var base: seq<Path>            // the log when this batch began
    ghost var trace: seq<Seen>           // the entries of this batch

    ghost predicate Valid()
      reads this
    {
      && WellFormed(directories)
      && log + Remaining(directories) == full
      && (pending.Some? ==> MayPurge(pending.value.entry, pending.value.key, rules))
    }

    ghost predicate InBatch()
      reads this
    {
      |trace| == examined && log == base + Paths(trace)
    }

    /** Bounds the number of batches still needed. */
    ghost function Work(): nat
      requires Valid()
      reads this
    {
      2 * (|full| - |log|) + |directories| + if pending.Some? then 1 else 0
    }

    constructor (root: seq<Entry>, rules: Rules)
      ensures Valid() && log == [] && full == Listing(root, false) && this.rules == rules
      ensures directories == [Directory(root, false, 0)] && pending.None?
    {
      this.rules := rules;
      directories, pending, examined, ticks, log, base, trace := [Directory(root, false, 0)], None, 0, 0, [], [], [];
      full := Listing(root, false);
      new;
      OneDirectory(root);
    }

    /** One entry within budget: counted, and handed to the visitor unless it leads out of the root. */
    method Visit(
        top: Directory, cursor: nat, tick: nat, batch: Batch,
        before: Report, ghost start: Report, ghost outer: seq<Path>)
      returns (d: Decision, report: Report)
      requires cursor < |top.children| && InBatch() && before == RecordAll(start, trace, rules, batch)
      requires log + Rest(top, cursor, None) + outer == full
      modifies this`examined, this`log, this`trace
      ensures InBatch() && examined == old(examined) + 1
      ensures trace == old(trace) + [Seen(top.children[cursor], top.isStage, tick)]
      ensures d == DecisionOn(Seen(top.children[cursor], top.isStage, tick), rules, batch)
      ensures report == RecordAll(start, trace, rules, batch)
      ensures d.Descend? <==> Descends(top.children[cursor], top.isStage)
      ensures log + Rest(top, cursor + 1, if d.Descend? then Some(top.children[cursor]) else None) + outer == full
    {
      var e := top.children[cursor];
      ExamineNext(log, top, cursor, outer);
      ghost var one := Seen(e, top.isStage, tick);
      RecordOneMore(start, trace, one, rules, batch);
      LogOneMore(base, trace, one);
      examined := examined + 1;
      log, trace := log + [e.path], trace + [one];
      d, report := Skip, before;
      if !e.node.Escaping? {
        d := Judge(e, top.isStage, rules, batch, batch.world(tick));
        report := Record(before, d, e, top.isStage, tick);
      }
    }

    /** `visit_dir_blocking_chunk` on the innermost directory with the scan's two callbacks. */
    method VisitChunk(top: Directory, batch: Batch, before: Report, ghost start: Report, ghost outer: seq<Path>)
      returns (progress: Progress, descend: Option<Entry>, postponed: Option<Act>, report: Report)
      requires top.cursor <= |top.children| && StaysExpired(batch) && InBatch()
      requires before == RecordAll(start, trace, rules, batch) && PostponedBy(trace, rules, batch).None?
      requires log + Rest(top, top.cursor, None) + outer == full
      modifies this`examined, this`ticks, this`log, this`trace
      ensures top.cursor <= End(top, progress) <= |top.children|
      ensures log + Rest(top, End(top, progress), descend) + outer == full
      ensures report == RecordAll(start, trace, rules, batch)
      ensures InBatch() && examined >= old(examined) && ticks >= old(ticks)
      ensures descend.Some? ==> progress.Paused? && Descends(descend.value, top.isStage)
      ensures postponed.Some? ==> progress.Paused? && MayPurge(postponed.value.entry, postponed.value.key, rules)
      ensures postponed == PostponedBy(trace, rules, batch)
      ensures descend.None? || postponed.None?
      ensures examined <= Max(old(examined), batch.maxEntries)
      ensures (descend.Some? || postponed.Some?) ==> examined > old(examined)
      ensures progress.Paused? && descend.None? && postponed.None? ==>
        examined >= batch.maxEntries || batch.expired(ticks)
      ensures progress.Paused? && old(examined) < batch.maxEntries && !batch.expired(old(ticks)) ==>
        examined > old(examined)
    {
      descend, postponed, report := None, None, before;
      var cursor := top.cursor;
      while cursor < |top.children|
        invariant top.cursor <= cursor <= |top.children|
        invariant log + Rest(top, cursor, None) + outer == full
        invariant report == RecordAll(start, trace, rules, batch)
        invariant InBatch() && ticks >= old(ticks)
        invariant old(examined) <= examined <= Max(old(examined), batch.maxEntries)
        invariant examined == old(examined) ==> ticks == old(ticks)
        invariant PostponedBy(trace, rules, batch).None?
      {
        var e := top.children[cursor];
        var tick := ticks;
        ticks := ticks + 1;
        if examined >= batch.maxEntries || batch.expired(tick) {
          progress := Paused(cursor);
          return;
        }
        var d;
        d, report := Visit(top, cursor, tick, batch, report, start, outer);
        cursor := cursor + 1;
        if d.Descend? {
          return Paused(cursor), Some(e), None, report;
        }
        if d.Postpone? {
          return Paused(cursor), None, Some(Act(e, top.isStage, d.key, tick)), report;
        }
      }
      progress := Complete;
    }

    /** A deferred purge from the last batch: checked once more, then handed over or dropped. */
    method TakePending(batch: Batch) returns (report: Report)
      requires Valid()
      modifies this`pending
      ensures Valid() && pending.None? && ReportOk(report, rules, batch)
      ensures report == PendingReport(old(pending), batch)
      ensures report.removed == [] && |report.scheduled| <= 1
      ensures report.scheduled != [] <==>
        && old(pending).Some? && old(pending).value.entry.path !in batch.world(0).bound && batch.world(0).queueAccepts
      ensures report.scheduled != [] ==> report.scheduled[0] == old(pending).value.(tick := 0)
      ensures Work() == old(Work()) - if old(pending).Some? then 1 else 0
    {
      report := Report([], []);
      if pending.Some? {
        var act := pending.value;
        pending := None;
        if act.entry.path !in batch.world(0).bound && batch.world(0).queueAccepts {
          report := Report([], [act.(tick := 0)]);
        }
      }
    }

    /** One pass of the batch loop. */
    method Advance(batch: Batch, before: Report, ghost start: Report) returns (report: Report)
      requires Valid() && directories != [] && pending.None? && StaysExpired(batch) && InBatch()
      requires before == RecordAll(start, trace, rules, batch) && PostponedBy(trace, rules, batch).None?
      modifies this`directories, this`pending, this`examined, this`ticks, this`log, this`trace
      ensures Valid() && report == RecordAll(start, trace, rules, batch)
      ensures InBatch() && examined >= old(examined) && ticks >= old(ticks)
      ensures examined <= Max(old(examined), batch.maxEntries)
      ensures pending == PostponedBy(trace, rules, batch)
      ensures Work() <= old(Work())
      ensures Work() == old(Work()) ==> examined >= batch.maxEntries || batch.expired(ticks)
      ensures old(examined) < batch.maxEntries && !batch.expired(old(ticks)) ==> Work() < old(Work())
    {
      var inner := |directories| - 1;
      var top, outer := directories[inner], directories[..inner];
      var progress, descend, postponed;
      progress, descend, postponed, report := VisitChunk(top, batch, before, start, Remaining(outer));
      ChunkEnds(log, outer, top, progress, descend, full);
      directories := if progress.Paused? then outer + [top.(cursor := progress.cursor)] else outer;
      if descend.Some? {
        directories := directories + [Opened(descend.value)];
      }
      pending := postponed;
    }

    /** `collect_stale_internal_files_batch`. */
    method RunBatch(batch: Batch) returns (report: Report, complete: bool)
      requires Valid() && StaysExpired(batch)
      modifies this
      ensures Valid() && ReportOk(report, rules, batch)
      ensures report == RecordAll(PendingReport(old(pending), batch), trace, rules, batch)
      ensures log == old(log) + Paths(trace) && |trace| == examined <= batch.maxEntries
      ensures pending == PostponedBy(trace, rules, batch)
      ensures complete <==> directories == [] && pending.None?
      ensures complete ==> log == full
      ensures Work() <= old(Work())
      ensures batch.maxEntries > 0 && !batch.expired(0) && !batch.expired(1) ==> complete || Work() < old(Work())
    {
      report := TakePending(batch);
      ghost var start := report;
      examined, ticks, base, trace := 0, 1, log, [];
      var go := !batch.expired(0);
      while directories != [] && pending.None? && examined < batch.maxEntries && go
        invariant Valid() && report == RecordAll(start, trace, rules, batch)
        invariant InBatch() && base == old(log) && examined <= batch.maxEntries
        invariant pending == PostponedBy(trace, rules, batch)
        invariant Work() <= old(Work())
        invariant ticks >= 1 && (go <==> !batch.expired(ticks - 1)) && (ticks == 1 ==> pending.None? && examined == 0)
        invariant ticks == 1 || Work() < old(Work()) || batch.expired(1)
        decreases Work(), go
      {
        report := Advance(batch, report, start);
        go := !batch.expired(ticks);
        ticks := ticks + 1;
      }
      ReportIsSafe(start, trace, rules, batch);
      complete := directories == [] && pending.None?;
    }
  }

  ghost function Paths(trace: seq<Seen>): seq<Path> {
    seq(|trace|, i requires 0 <= i < |trace| => trace[i].entry.path)
  }

  lemma LogOneMore(base: seq<Path>, trace: seq<Seen>, one: Seen)
    ensures base + Paths(trace + [one]) == base + Paths(trace) + [one.entry.path]
  {
    assert Paths(trace + [one]) == Paths(trace) + [one.entry.path];
  }

  function PendingReport(pending: Option<Act>, batch: Batch): Report {
    if pending.Some? && pending.value.entry.path !in batch.world(0).bound && batch.world(0).queueAccepts
    then Report([], [pending.value.(tick := 0)])
    else Report([], [])
  }

  function Opened(e: Entry): Directory
    requires e.node.Folder?
  {
    Directory(e.node.children, Is(e, StageDirectory), 0)
  }

  lemma PushRemains(directories: seq<Directory>, d: Directory)
    requires WellFormed(directories) && d.cursor <= |d.children|
    ensures WellFormed(directories + [d])
    ensures Remaining(directories + [d]) == Rest(d, d.cursor, None) + Remaining(directories)
  {
    assert (directories + [d])[..|directories|] == directories;
  }

  /** The stack after a chunk covers exactly what the chunk left. */
  lemma ChunkEnds(
      log: seq<Path>, outer: seq<Directory>, top: Directory, progress: Progress,
      descend: Option<Entry>, full: seq<Path>)
    requires WellFormed(outer) && End(top, progress) <= |top.children|
    requires descend.Some? ==> progress.Paused? && Descends(descend.value, top.isStage)
    requires log + Rest(top, End(top, progress), descend) + Remaining(outer) == full
    ensures var paused := if progress.Paused? then outer + [top.(cursor := progress.cursor)] else outer;
      var after := if descend.Some? then paused + [Opened(descend.value)] else paused;
      WellFormed(after) && log + Remaining(after) == full
  {
    if progress.Paused? {
      var paused := outer + [top.(cursor := progress.cursor)];
      PushRemains(outer, top.(cursor := progress.cursor));
      if descend.Some? {
        PushRemains(paused, Opened(descend.value));
        assert descend.value.node.children[0..] == descend.value.node.children;
        Regroup(log, Below(descend.value, top.isStage), Rest(top, progress.cursor, None), Remaining(outer));
      } else {
        Regroup(log, [], Rest(top, progress.cursor, None), Remaining(outer));
      }
    } else {
      assert top.children[|top.children|..] == [];
      Regroup(log, [], [], Remaining(outer));
    }
  }

  lemma Regroup(log: seq<Path>, a: seq<Path>, b: seq<Path>, c: seq<Path>)
    ensures log + (a + b) + c == log + (a + (b + c)) && [] + b == b && [] + (b + c) == b + c
    ensures log + b + c == log + (b + c)
  {
  }

  lemma NextRest(top: Directory, cursor: nat)
    requires cursor < |top.children|
    ensures
      var e := top.children[cursor];
      Rest(top, cursor, None) == [e.path] + Rest(top, cursor + 1, if Descends(e, top.isStage) then Some(e) else None)
  {
    var left := top.children[cursor..];
    var e := top.children[cursor];
    assert left[0] == e && left[1..] == top.children[cursor + 1..];
    assert Listing(left, top.isStage) == [e.path] + (Below(e, top.isStage) + Listing(left[1..], top.isStage));
    if !Descends(e, top.isStage) {
      assert [] + Listing(left[1..], top.isStage) == Listing(left[1..], top.isStage);
    }
  }

  lemma Shift(log: seq<Path>, path: Path, next: seq<Path>, outer: seq<Path>)
    ensures log + ([path] + next) + outer == (log + [path]) + next + outer
  {
    assert log + ([path] + next) == (log + [path]) + next;
  }

  lemma ExamineNext(log: seq<Path>, top: Directory, cursor: nat, outer: seq<Path>)
    requires cursor < |top.children|
    ensures
      var e := top.children[cursor];
      log + Rest(top, cursor, None) + outer
      == (log + [e.path]) + Rest(top, cursor + 1, if Descends(e, top.isStage) then Some(e) else None) + outer
  {
    var e := top.children[cursor];
    NextRest(top, cursor);
    Shift(log, e.path, Rest(top, cursor + 1, if Descends(e, top.isStage) then Some(e) else None), outer);
  }

  lemma OneDirectory(root: seq<Entry>)
    ensures Remaining([Directory(root, false, 0)]) == Listing(root, false)
  {
    var ds := [Directory(root, false, 0)];
    assert ds[..0] == [] && root[0..] == root;
    assert Remaining(ds[..0]) == [];
  }

  /** A batch that gets to look at one entry at all. */
  ghost predicate Productive(batch: Batch) {
    StaysExpired(batch) && batch.maxEntries > 0 && !batch.expired(0) && !batch.expired(1)
  }

  ghost function ProductiveBatches(batches: seq<Batch>): nat {
    if batches == [] then 0
    else ProductiveBatches(batches[..|batches| - 1]) + if Productive(batches[|batches| - 1]) then 1 else 0
  }

  lemma OneMoreBatch(batches: seq<Batch>, used: nat)
    requires used < |batches|
    ensures ProductiveBatches(batches[..used + 1]) ==
      ProductiveBatches(batches[..used]) + if Productive(batches[used]) then 1 else 0
  {
    assert batches[..used + 1][..used] == batches[..used];
  }

  /** Whatever the budgets, the entries examined are a prefix of the plain
      depth-first listing, and all of it once the scan is complete; it is
      complete after at most twice its length plus two productive batches. */
  method ScanTree(root: seq<Entry>, rules: Rules, batches: seq<Batch>) returns (scan: Scan, complete: bool, used: nat)
    requires forall b :: b in batches ==> StaysExpired(b)
    ensures fresh(scan) && scan.Valid() && scan.full == Listing(root, false)
    ensures scan.log <= Listing(root, false)
    ensures complete ==> scan.log == Listing(root, false)
    ensures ProductiveBatches(batches) > 2 * |Listing(root, false)| + 1 ==> complete
    ensures used <= |batches| && (used < |batches| ==> complete)
  {
    scan := new Scan(root, rules);
    complete, used := false, 0;
    while !complete && used < |batches|
      invariant fresh(scan) && scan.Valid() && scan.full == Listing(root, false) && used <= |batches|
      invariant complete ==> scan.log == scan.full
      invariant !complete ==> scan.Work() + ProductiveBatches(batches[..used]) <= 2 * |Listing(root, false)| + 1
    {
      assert StaysExpired(batches[used]);
      OneMoreBatch(batches, used);
      var report;
      report, complete := scan.RunBatch(batches[used]);
      used := used + 1;
    }
    assert batches[..|batches|] == batches;
  }
}
