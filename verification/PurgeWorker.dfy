/**
 The durable purge worker: two bounded in-memory queues over the claimed rows
 of the state store, with store replies that may be lost after they took effect.
 */
module PurgeWorker {
  import opened Basics

  const ACTIVE_CAPACITY: nat := 64
  const RETRY_BASE_MS: nat := 100
  const RETRY_MAX_MS: nat := 30_000
  const U32_MAX: nat := 0xFFFF_FFFF

  // ----- the retry delay

  /** Saturating exponent, checked shift and saturating product, as the code has them. */
  function RetryDelay(failures: nat): nat {
    var exponent := Min(SaturatingSub(failures, 1), 16);
    Min(RETRY_BASE_MS * Power2(exponent), RETRY_MAX_MS)
  }

  lemma {:induction false} PowersGrow(a: nat, b: nat)
    requires a <= b
    ensures Power2(a) <= Power2(b)
  {
    if a < b {
      PowersGrow(a, b - 1);
    }
  }

  /** Capping the exponent at 16 changes nothing: the delay doubles up to the maximum. */
  lemma RetryDelayDoubles(failures: nat)
    requires failures >= 1
    ensures RetryDelay(failures) == Min(RETRY_BASE_MS * Power2(failures - 1), RETRY_MAX_MS)
    ensures RETRY_BASE_MS <= RetryDelay(failures) <= RetryDelay(failures + 1) <= RETRY_MAX_MS
  {
    assert Power2(9) == 512;
    if failures - 1 >= 9 {
      PowersGrow(9, failures - 1);
      PowersGrow(9, Min(failures - 1, 16));
      PowersGrow(9, Min(failures, 16));
    } else {
      PowersGrow(failures - 1, failures);
    }
    PowersGrow(0, failures - 1);
  }

  // ----- queues

  datatype Task = Durable(job: nat) | Orphan(entry: nat)

  datatype Retry = Retry(due: nat, job: nat, failures: nat)

  datatype RowState = Ready | Claimed

  /** A store call that took effect and said so, that failed, or whose reply was lost. */
  datatype Reply = Done | Failed | Lost {
    predicate TookEffect() { !Failed? }
  }

  /** What the file system and the store do with a job being opened. */
  datatype Opening =
    | Opens
    | Missing(reply: Reply)
    | Mismatch(quarantined: bool, reply: Reply)
    | Unreadable(reply: Reply)
    | Unresolvable

  datatype Slice =
    | Finished(reply: Reply)
    | MoreToDo
    | SliceMismatch(quarantined: bool, reply: Reply)
    | SliceError(reply: Reply)

  datatype ClaimReply = Got(job: nat) | NoneDue | ClaimFailed | ClaimLost(job: nat)

  datatype Signal = Wake | OrphanFound(entry: nat)

  /** Where a job in hand goes next. */
  datatype Fate = ToPending | ToRetries | Dropped

  ghost function PendingJobs(pending: seq<Task>): multiset<nat> {
    if pending == [] then multiset{}
    else PendingJobs(pending[..|pending| - 1]) + JobOf(pending[|pending| - 1])
  }

  ghost function JobOf(task: Task): multiset<nat> {
    if task.Durable? then multiset{task.job} else multiset{}
  }

  ghost function JobsOf(retries: seq<Retry>): seq<nat> {
    seq(|retries|, i requires 0 <= i < |retries| => retries[i].job)
  }

  ghost function RetryJobs(retries: seq<Retry>): multiset<nat> {
    multiset(JobsOf(retries))
  }

  lemma PushPending(pending: seq<Task>, task: Task)
    ensures PendingJobs(pending + [task]) == PendingJobs(pending) + JobOf(task)
  {
    assert (pending + [task])[..|pending|] == pending;
  }

  lemma {:induction false} PopPending(pending: seq<Task>)
    requires pending != []
    ensures PendingJobs(pending) == JobOf(pending[0]) + PendingJobs(pending[1..])
  {
    var n := |pending| - 1;
    if n > 0 {
      var rest := pending[1..];
      PopPending(pending[..n]);
      assert pending[..n][1..] == rest[..n - 1] && rest[n - 1] == pending[n] && pending[..n][0] == pending[0];
      assert PendingJobs(rest) == PendingJobs(rest[..n - 1]) + JobOf(pending[n]);
    } else {
      assert pending[..0] == [] && pending[1..] == [];
    }
  }

  lemma InsertionAddsJob(before: seq<Retry>, retry: Retry, k: nat)
    requires k <= |before|
    ensures RetryJobs(before[..k] + [retry] + before[k..]) == RetryJobs(before) + multiset{retry.job}
  {
    var jobs := JobsOf(before);
    assert JobsOf(before[..k] + [retry] + before[k..]) == jobs[..k] + [retry.job] + jobs[k..];
    assert jobs == jobs[..k] + jobs[k..];
  }

  lemma PopRetryJob(retries: seq<Retry>)
    requires retries != []
    ensures RetryJobs(retries) == RetryJobs(retries[1..]) + multiset{retries[0].job}
  {
    assert JobsOf(retries) == [retries[0].job] + JobsOf(retries[1..]);
  }

  ghost predicate SortedByDue(retries: seq<Retry>) {
    forall i, j :: 0 <= i < j < |retries| ==> retries[i].due <= retries[j].due
  }

  function LocalRetry(job: nat, now: nat, failures: nat): Retry {
    Retry(now + RetryDelay(Max(failures, 1)), job, Max(failures, 1))
  }

  /** The n-th local retry comes due after the doubled delay; a count of none is taken for one. */
  lemma LocalRetryBacksOff(job: nat, now: nat, failures: nat)
    ensures failures >= 1 ==>
      LocalRetry(job, now, failures) == Retry(now + Min(100 * Power2(failures - 1), 30_000), job, failures)
    ensures LocalRetry(job, now, 0) == Retry(now + 100, job, 1)
  {
    if failures >= 1 {
      RetryDelayDoubles(failures);
    }
    assert Power2(0) == 1;
  }

  /** Stable insertion: behind every retry due no later, before every later one. */
  ghost predicate InsertedAt(before: seq<Retry>, retry: Retry, k: nat, after: seq<Retry>)
    requires k <= |before|
  {
    && after == before[..k] + [retry] + before[k..]
    && (forall i :: 0 <= i < k ==> before[i].due <= retry.due)
    && (forall i :: k <= i < |before| ==> before[i].due > retry.due)
  }

  ghost predicate Inserted(before: seq<Retry>, retry: Retry, after: seq<Retry>) {
    exists k: nat :: k <= |before| && InsertedAt(before, retry, k, after)
  }

  /** The first retry due later, or the end. */
  method RetryPosition(retries: seq<Retry>, due: nat) returns (position: nat)
    requires SortedByDue(retries)
    ensures position <= |retries|
    ensures forall i :: 0 <= i < position ==> retries[i].due <= due
    ensures forall i :: position <= i < |retries| ==> retries[i].due > due
  {
    position := 0;
    while position < |retries| && retries[position].due <= due
      invariant position <= |retries|
      invariant forall i :: 0 <= i < position ==> retries[i].due <= due
    {
      position := position + 1;
    }
  }

  lemma InsertionKeepsOrder(before: seq<Retry>, retry: Retry, k: nat, after: seq<Retry>)
    requires SortedByDue(before) && k <= |before| && InsertedAt(before, retry, k, after)
    ensures SortedByDue(after)
  {
    forall i, j | 0 <= i < j < |after| ensures after[i].due <= after[j].due {
      assert after[i] == if i < k then before[i] else if i == k then retry else before[i - 1];
      assert after[j] == if j < k then before[j] else if j == k then retry else before[j - 1];
    }
  }

  // ----- the worker

  lemma Regroup(p: multiset<nat>, job: nat, r: multiset<nat>)
    ensures (p + multiset{job}) + r + multiset{} == p + r + multiset{job}
  {
  }

  /** How many copies of a job are held in memory: those kept after their row left
      Claimed, and one more for a claimed row whose claim was answered. */
  ghost predicate JobOk(held: nat, row: Option<RowState>, seen: bool, stranded: bool, stale: nat) {
    && held == stale + (if row == Some(Claimed) && !stranded then 1 else 0)
    && (stranded ==> row == Some(Claimed))
    && (held > 0 || row.Some? ==> seen)
  }

  ghost function RowOf(rows: map<nat, RowState>, j: nat): Option<RowState> {
    if j in rows then Some(rows[j]) else None
  }

  ghost predicate RowsOk(held: multiset<nat>, rows: map<nat, RowState>, seen: set<nat>, stranded: set<nat>,
                         stale: multiset<nat>) {
    forall j {:trigger RowOf(rows, j)} :: JobOk(held[j], RowOf(rows, j), j in seen, j in stranded, stale[j])
  }

  /** A store call took effect and the row of the job in hand is no longer Claimed. */
  ghost predicate Ended(job: nat, before: map<nat, RowState>, after: map<nat, RowState>) {
    IsClaimed(before, job) && !IsClaimed(after, job)
  }

  /** A copy becomes stale when its own claim ends without a reply, and is gone when it is dropped later. */
  ghost function StaleAfter(stale: multiset<nat>, job: nat, endsOwnClaim: bool, dropped: bool): multiset<nat> {
    if endsOwnClaim == dropped then stale
    else if dropped then stale - multiset{job}
    else stale + multiset{job}
  }

  function OrphanOf(signal: Signal): seq<Task> {
    if signal.OrphanFound? then [Orphan(signal.entry)] else []
  }

  function Orphans(signals: seq<Signal>): seq<Task> {
    if signals == [] then [] else Orphans(signals[..|signals| - 1]) + OrphanOf(signals[|signals| - 1])
  }

  lemma DrainOne(before: seq<Task>, signals: seq<Signal>, n: nat)
    requires n < |signals|
    ensures before + Orphans(signals[..n + 1]) ==
      if signals[n].OrphanFound? then before + Orphans(signals[..n]) + [Orphan(signals[n].entry)]
      else before + Orphans(signals[..n])
  {
    assert signals[..n + 1][..n] == signals[..n];
  }

  /** A wake-up leaves nothing, an orphan itself. */
  lemma OneSignal(signal: Signal)
    ensures Orphans([signal]) == if signal.OrphanFound? then [Orphan(signal.entry)] else []
  {
    assert [signal][..0] == [];
  }

  /** The orphans are those of the signals, in order. */
  lemma {:induction false} OrphansInOrder(a: seq<Signal>, b: seq<Signal>)
    ensures Orphans(a + b) == Orphans(a) + Orphans(b)
    decreases |b|
  {
    if b == [] {
      assert a + b == a && Orphans(a) + [] == Orphans(a);
    } else {
      var n := |b| - 1;
      OrphansInOrder(a, b[..n]);
      assert (a + b)[..|a + b| - 1] == a + b[..n] && (a + b)[|a + b| - 1] == b[n];
      assert Orphans(a + b) == Orphans(a + b[..n]) + OrphanOf(b[n]);
    }
  }

  // ----- what each answer does to a row, and to the job in hand

  predicate IsClaimed(rows: map<nat, RowState>, job: nat) {
    job in rows && rows[job].Claimed?
  }

  /** `complete_purge_job`: deletes the row if it is Claimed. */
  function CompletedRows(rows: map<nat, RowState>, job: nat, reply: Reply): map<nat, RowState> {
    if reply.TookEffect() && IsClaimed(rows, job) then rows - {job} else rows
  }

  /** `retry_purge_job`: a Claimed row becomes Ready again. */
  function DeferredRows(rows: map<nat, RowState>, job: nat, reply: Reply): map<nat, RowState> {
    if reply.TookEffect() && IsClaimed(rows, job) then rows[job := Ready] else rows
  }

  function OpenRows(rows: map<nat, RowState>, job: nat, opening: Opening): map<nat, RowState> {
    match opening
    case Missing(reply) => CompletedRows(rows, job, reply)
    case Mismatch(quarantined, reply) => if quarantined then CompletedRows(rows, job, reply) else rows
    case Unreadable(reply) => DeferredRows(rows, job, reply)
    case _ => rows
  }

  function OpenFate(rows: map<nat, RowState>, job: nat, opening: Opening): Fate {
    match opening
    case Opens => ToPending
    case Unresolvable => ToRetries
    case Missing(reply) => if reply.Done? then Dropped else ToRetries
    case Mismatch(quarantined, reply) =>
      if quarantined && reply.Done? && IsClaimed(rows, job) then Dropped else ToRetries
    case Unreadable(reply) => if reply.Done? && IsClaimed(rows, job) then Dropped else ToRetries
  }

  function SliceRows(rows: map<nat, RowState>, job: nat, slice: Slice): map<nat, RowState> {
    match slice
    case MoreToDo => rows
    case Finished(reply) => CompletedRows(rows, job, reply)
    case SliceMismatch(quarantined, reply) => if quarantined then CompletedRows(rows, job, reply) else rows
    case SliceError(reply) => DeferredRows(rows, job, reply)
  }

  function SliceFate(rows: map<nat, RowState>, job: nat, slice: Slice): Fate {
    match slice
    case MoreToDo => ToPending
    case Finished(reply) => if reply.Done? then Dropped else ToRetries
    case SliceMismatch(quarantined, reply) =>
      if quarantined && reply.Done? && IsClaimed(rows, job) then Dropped else ToRetries
    case SliceError(reply) => if reply.Done? && IsClaimed(rows, job) then Dropped else ToRetries
  }

  // ----- the same, by what becomes of the row and of the job

  /** The purge finished, and the store heard of it, or the entry is safe in quarantine. */
  predicate SliceEnds(slice: Slice) {
    || (slice.Finished? && !slice.reply.Failed?)
    || (slice.SliceMismatch? && slice.quarantined && !slice.reply.Failed?)
  }

  predicate SliceGivesBack(slice: Slice) {
    slice.SliceError? && !slice.reply.Failed?
  }

  /** There is no entry to purge, or it is safe in quarantine. */
  predicate OpeningEnds(opening: Opening) {
    || (opening.Missing? && !opening.reply.Failed?)
    || (opening.Mismatch? && opening.quarantined && !opening.reply.Failed?)
  }

  predicate OpeningGivesBack(opening: Opening) {
    opening.Unreadable? && !opening.reply.Failed?
  }

  /** Only the row of `job` changes, and only if it is Claimed: it leaves the store
      when its claim ended, and is Ready again when the claim was given back. */
  ghost predicate RowsFollow(before: map<nat, RowState>, after: map<nat, RowState>, job: Option<nat>, ended: bool,
                             givenBack: bool) {
    forall j: nat {:trigger RowOf(after, j)} :: RowOf(after, j) ==
      if job != Some(j) || RowOf(before, j) != Some(Claimed) then RowOf(before, j)
      else if ended then None
      else if givenBack then Some(Ready)
      else Some(Claimed)
  }

  lemma SliceRowsFollow(rows: map<nat, RowState>, job: nat, slice: Slice)
    ensures RowsFollow(rows, SliceRows(rows, job, slice), Some(job), SliceEnds(slice), SliceGivesBack(slice))
  {
  }

  lemma OpenRowsFollow(rows: map<nat, RowState>, job: nat, opening: Opening)
    ensures RowsFollow(rows, OpenRows(rows, job, opening), Some(job), OpeningEnds(opening), OpeningGivesBack(opening))
  {
  }

  /** A job is forgotten exactly when a store call confirmed that its claim has
      ended, queued again exactly when there is more to do, and otherwise retried. */
  lemma SliceFateIsConfirmed(rows: map<nat, RowState>, job: nat, slice: Slice)
    ensures SliceFate(rows, job, slice).ToPending? <==> slice.MoreToDo?
    ensures SliceFate(rows, job, slice).Dropped? <==>
      || slice == Finished(Done)
      || ((slice == SliceMismatch(true, Done) || slice == SliceError(Done)) && RowOf(rows, job) == Some(Claimed))
  {
  }

  lemma OpenFateIsConfirmed(rows: map<nat, RowState>, job: nat, opening: Opening)
    ensures OpenFate(rows, job, opening).ToPending? <==> opening.Opens?
    ensures OpenFate(rows, job, opening).Dropped? <==>
      || opening == Missing(Done)
      || ((opening == Mismatch(true, Done) || opening == Unreadable(Done)) && RowOf(rows, job) == Some(Claimed))
  {
  }

  /** The store hands out Ready rows only. */
  predicate HandsOutReady(reply: ClaimReply, rows: map<nat, RowState>) {
    reply.Got? || reply.ClaimLost? ==> reply.job in rows && rows[reply.job].Ready?
  }

  predicate IsDue(pending: seq<Task>, retries: seq<Retry>, now: nat) {
    |pending| < ACTIVE_CAPACITY && retries != [] && retries[0].due <= now
  }

  /** The queues after the job in hand went where its fate says. */
  ghost predicate Settled(fate: Fate, retry: Retry, before: (seq<Task>, seq<Retry>), after: (seq<Task>, seq<Retry>)) {
    match fate
    case ToPending => after == (before.0 + [Durable(retry.job)], before.1)
    case ToRetries => after.0 == before.0 && Inserted(before.1, retry, after.1)
    case Dropped => after == before
  }

  /** What comes of a due retry: its row is read again, and only a Claimed one is opened. */
  ghost predicate Retried(retry: Retry, now: nat, reloaded: bool, opening: Opening,
                          before: (seq<Task>, seq<Retry>), after: (seq<Task>, seq<Retry>),
                          rows: map<nat, RowState>, rows': map<nat, RowState>) {
    var opens := reloaded && IsClaimed(rows, retry.job);
    var fate := if opens then OpenFate(rows, retry.job, opening) else if reloaded then Dropped else ToRetries;
    && rows' == (if opens then OpenRows(rows, retry.job, opening) else rows)
    && Settled(fate, LocalRetry(retry.job, now, Min(retry.failures + 1, U32_MAX)), before, after)
  }

  /** Once more failed, and due after the doubled delay. */
  function BackedOff(retry: Retry, now: nat): Retry {
    var failures := Min(retry.failures + 1, 0xFFFF_FFFF);
    Retry(now + Min(100 * Power2(failures - 1), 30_000), retry.job, failures)
  }

  lemma RetriedFollows(retry: Retry, now: nat, reloaded: bool, opening: Opening,
                       before: (seq<Task>, seq<Retry>), after: (seq<Task>, seq<Retry>),
                       rows: map<nat, RowState>, rows': map<nat, RowState>)
    requires Retried(retry, now, reloaded, opening, before, after, rows, rows')
    ensures RowsFollow(rows, rows', if reloaded then Some(retry.job) else None,
                       OpeningEnds(opening), OpeningGivesBack(opening))
    ensures !reloaded ==> after.0 == before.0 && Inserted(before.1, BackedOff(retry, now), after.1)
  {
    OpenRowsFollow(rows, retry.job, opening);
    LocalRetryBacksOff(retry.job, now, Min(retry.failures + 1, U32_MAX));
  }

  /** What one slice of work on a task taken from the queue leads to. */
  ghost predicate Processed(
      task: Task, slice: Slice, now: nat, before: (seq<Task>, seq<Retry>), after: (seq<Task>, seq<Retry>),
      rows: map<nat, RowState>, rows': map<nat, RowState>)
  {
    match task
    case Orphan(_) => after == (if slice.MoreToDo? then before.0 + [task] else before.0, before.1) && rows' == rows
    case Durable(job) =>
      && rows' == SliceRows(rows, job, slice)
      && Settled(SliceFate(rows, job, slice), LocalRetry(job, now, 1), before, after)
  }

  function FrontJob(pending: seq<Task>): Option<nat> {
    if pending != [] && pending[0].Durable? then Some(pending[0].job) else None
  }

  lemma ProcessedRowsFollow(pending: seq<Task>, slice: Slice, now: nat, retries: seq<Retry>,
                            after: (seq<Task>, seq<Retry>), rows: map<nat, RowState>, rows': map<nat, RowState>)
    requires if pending == [] then rows' == rows
             else Processed(pending[0], slice, now, (pending[1..], retries), after, rows, rows')
    ensures RowsFollow(rows, rows', FrontJob(pending), SliceEnds(slice), SliceGivesBack(slice))
  {
    if FrontJob(pending).Some? {
      SliceRowsFollow(rows, FrontJob(pending).value, slice);
    }
  }

  /** An answered claim of this row whose entry was missing or quarantined. */
  ghost predicate ClaimEnds(claims: seq<(ClaimReply, Opening)>, job: nat) {
    exists c :: c in claims && c.0 == Got(job) && OpeningEnds(c.1)
  }

  /** No row appears, and only ended claims make rows leave. */
  ghost predicate ClaimsEnd(claims: seq<(ClaimReply, Opening)>, before: map<nat, RowState>, after: map<nat, RowState>) {
    && (forall j :: j in after ==> j in before)
    && (forall j :: j in before && j !in after ==> ClaimEnds(claims, j))
  }

  /** What a round may do to the rows: one leaves the store only if the retry, a
      claim or the slice of work was for this job and ended its claim. */
  ghost predicate RoundRows(before: map<nat, RowState>, after: map<nat, RowState>,
                            retried: Option<nat>, opening: Opening,
                            claims: seq<(ClaimReply, Opening)>, worked: Option<nat>, slice: Slice) {
    && (forall j :: j in after ==> j in before)
    && (forall j :: j in before && j !in after ==>
          || (retried == Some(j) && OpeningEnds(opening))
          || ClaimEnds(claims, j)
          || (worked == Some(j) && SliceEnds(slice)))
    && (SliceGivesBack(slice) && worked.Some? && worked.value in after ==> after[worked.value].Ready?)
  }

  lemma StepsMakeRound(first: map<nat, RowState>, second: map<nat, RowState>, third: map<nat, RowState>,
                       last: map<nat, RowState>, retried: Option<nat>, opening: Opening,
                       claims: seq<(ClaimReply, Opening)>, worked: Option<nat>, slice: Slice)
    requires RowsFollow(first, second, retried, OpeningEnds(opening), OpeningGivesBack(opening))
    requires ClaimsEnd(claims, second, third)
    requires RowsFollow(third, last, worked, SliceEnds(slice), SliceGivesBack(slice))
    ensures RoundRows(first, last, retried, opening, claims, worked, slice)
  {
    RowsOnlyLeave(first, second, retried, OpeningEnds(opening), OpeningGivesBack(opening));
    RowsOnlyLeave(third, last, worked, SliceEnds(slice), SliceGivesBack(slice));
  }

  function FirstDue(pending: seq<Task>, retries: seq<Retry>, now: nat): Option<nat> {
    if IsDue(pending, retries, now) then Some(retries[0].job) else None
  }

  class Worker {
    var pending: seq<Task>
    var retries: seq<Retry>
    var rows: map<nat, RowState>         // the Ready and Claimed rows of the store
    ghost var seen: set<nat>             // job ids ever made Ready; they are never reused
    ghost var stranded: set<nat>         // Claimed, but the reply to the claim was lost
    ghost var stale: multiset<nat>       // copies kept after their row left Claimed unheard

    ghost function Held(): multiset<nat>
      reads this
    {
      PendingJobs(pending) + RetryJobs(retries)
    }

    /** The invariant while a job has been taken out of a queue. */
    ghost predicate ValidWith(hand: multiset<nat>)
      reads this
    {
      && |pending| + |retries| + |hand| <= ACTIVE_CAPACITY
      && SortedByDue(retries)
      && RowsOk(Held() + hand, rows, seen, stranded, stale)
    }

    /** Between steps: the queues are bounded and ordered, every claimed row whose
        claim was answered is queued, and besides it only stale copies are. */
    ghost predicate Valid()
      reads this
    {
      ValidWith(multiset{})
    }

    constructor ()
      ensures Valid() && rows == map[] && pending == [] && retries == []
      ensures seen == {} && stranded == {} && stale == multiset{}
    {
      pending, retries, rows, seen, stranded, stale := [], [], map[], {}, {}, multiset{};
    }

    // ----- the store

    /** A DELETE recorded Ready for a new job. */
    method AddReady(job: nat)
      requires Valid() && job !in seen
      modifies this`rows, this`seen
      ensures Valid() && rows == old(rows)[job := Ready] && seen == old(seen) + {job}
    {
      NewJobIsOk(Held() + multiset{}, job, rows, seen, stranded, stale);
      rows := rows[job := Ready];
      seen := seen + {job};
    }

    // ----- queues

    method PushWork(job: nat)
      requires ValidWith(multiset{job})
      modifies this`pending
      ensures Valid() && pending == old(pending) + [Durable(job)]
    {
      PushPending(pending, Durable(job));
      Regroup(PendingJobs(pending), job, RetryJobs(retries));
      pending := pending + [Durable(job)];
    }

    /** `schedule_claimed_purge_retry`: behind every retry that is due no later. */
    method ScheduleRetry(job: nat, now: nat, failures: nat)
      requires ValidWith(multiset{job})
      modifies this`retries
      ensures Valid() && Held() == old(Held()) + multiset{job}
      ensures Inserted(old(retries), LocalRetry(job, now, failures), retries)
    {
      var retry := LocalRetry(job, now, failures);
      var position := RetryPosition(retries, retry.due);
      InsertionAddsJob(retries, retry, position);
      retries := retries[..position] + [retry] + retries[position..];
      assert InsertedAt(old(retries), retry, position, retries);
      InsertionKeepsOrder(old(retries), retry, position, retries);
      assert Held() == old(Held()) + multiset{job};
      assert Held() + multiset{} == old(Held()) + multiset{job};
    }

    // ----- the steps of the worker loop

    /** `open_purge_work` for a job in hand. */
    method Open(job: nat, opening: Opening) returns (fate: Fate)
      requires ValidWith(multiset{job})
      modifies this`rows, this`stranded, this`stale
      ensures if fate.Dropped? then Valid() else ValidWith(multiset{job})
      ensures fate == OpenFate(old(rows), job, opening) && rows == OpenRows(old(rows), job, opening)
      ensures stranded <= old(stranded)
    {
      match opening {
        case Opens => fate := ToPending;
        case Unresolvable => fate := ToRetries;
        case Missing(reply) => fate := Complete(job, reply, false);
        case Mismatch(quarantined, reply) =>
          if quarantined {
            fate := Complete(job, reply, true);
          } else {
            fate := ToRetries;
          }
        case Unreadable(reply) => fate := Defer(job, reply);
      }
    }

    /** Completes the row of a job in hand; quarantine also insists that the row was there. */
    method Complete(job: nat, reply: Reply, mustExist: bool) returns (fate: Fate)
      requires ValidWith(multiset{job})
      modifies this`rows, this`stranded, this`stale
      ensures if fate.Dropped? then Valid() else ValidWith(multiset{job})
      ensures fate == (if reply.Done? && (mustExist ==> IsClaimed(old(rows), job)) then Dropped else ToRetries)
      ensures rows == CompletedRows(old(rows), job, reply)
      ensures LedgerFollows(job, old(rows), old(stranded), old(stale), fate)
    {
      fate := if reply.Done? && (IsClaimed(rows, job) || !mustExist) then Dropped else ToRetries;
      StoreCallsOnlyEnd(rows, job, reply);
      if reply.TookEffect() && IsClaimed(rows, job) {
        rows := rows - {job};
      }
      assert rows == CompletedRows(old(rows), job, reply);
      Release(job, old(rows), fate);
    }

    /** `defer_purge_job` for a job in hand. */
    method Defer(job: nat, reply: Reply) returns (fate: Fate)
      requires ValidWith(multiset{job})
      modifies this`rows, this`stranded, this`stale
      ensures if fate.Dropped? then Valid() else ValidWith(multiset{job})
      ensures fate == (if reply.Done? && IsClaimed(old(rows), job) then Dropped else ToRetries)
      ensures rows == DeferredRows(old(rows), job, reply)
      ensures LedgerFollows(job, old(rows), old(stranded), old(stale), fate)
    {
      fate := if reply.Done? && IsClaimed(rows, job) then Dropped else ToRetries;
      StoreCallsOnlyEnd(rows, job, reply);
      if reply.TookEffect() && IsClaimed(rows, job) {
        rows := rows[job := Ready];
      }
      assert rows == DeferredRows(old(rows), job, reply);
      Release(job, old(rows), fate);
    }

    /** How the ledger follows what happened to the row of the job in hand. */
    ghost predicate LedgerFollows(job: nat, before: map<nat, RowState>, strandedBefore: set<nat>,
                                  staleBefore: multiset<nat>, fate: Fate)
      reads this
    {
      && stranded == (if Ended(job, before, rows) then strandedBefore - {job} else strandedBefore)
      && stale == StaleAfter(staleBefore, job, Ended(job, before, rows) && job !in strandedBefore, fate.Dropped?)
    }

    ghost method Release(job: nat, before: map<nat, RowState>, fate: Fate)
      requires RowsOk(Held() + multiset{job}, before, seen, stranded, stale)
      requires |pending| + |retries| + 1 <= ACTIVE_CAPACITY && SortedByDue(retries)
      requires OnlyRowEnds(job, before, rows) && (fate.Dropped? ==> !IsClaimed(rows, job))
      modifies this`stranded, this`stale
      ensures if fate.Dropped? then Valid() else ValidWith(multiset{job})
      ensures LedgerFollows(job, before, old(stranded), old(stale), fate)
    {
      ReleaseOk(Held(), job, before, rows, seen, stranded, stale, fate.Dropped?);
      stale := StaleAfter(stale, job, Ended(job, before, rows) && job !in stranded, fate.Dropped?);
      stranded := if Ended(job, before, rows) then stranded - {job} else stranded;
    }

    /** Puts a job in hand where it belongs. */
    method Settle(job: nat, fate: Fate, now: nat, failures: nat)
      requires if fate.Dropped? then Valid() else ValidWith(multiset{job})
      modifies this`pending, this`retries
      ensures Valid()
      ensures Settled(fate, LocalRetry(job, now, failures), old((pending, retries)), (pending, retries))
      ensures Held() == old(Held()) + if fate.Dropped? then multiset{} else multiset{job}
      ensures |pending| + |retries| == |old(pending)| + |old(retries)| + if fate.Dropped? then 0 else 1
    {
      match fate {
        case ToPending =>
          PushPending(pending, Durable(job));
          PushWork(job);
        case ToRetries =>
          ScheduleRetry(job, now, failures);
        case Dropped =>
      }
    }

    method PushOrphan(task: Task)
      requires Valid() && task.Orphan? && |pending| + |retries| < ACTIVE_CAPACITY
      modifies this`pending
      ensures Valid() && pending == old(pending) + [task] && PendingJobs(pending) == old(PendingJobs(pending))
    {
      PushPending(pending, task);
      pending := pending + [task];
      assert Held() == old(Held());
    }

    /** Channel signals are taken while there is room. */
    method DrainSignals(signals: seq<Signal>) returns (taken: nat)
      requires Valid()
      modifies this`pending
      ensures Valid() && taken <= |signals| && pending == old(pending) + Orphans(signals[..taken])
      ensures taken < |signals| ==> |pending| + |retries| == 64
    {
      taken := 0;
      while |pending| + |retries| < ACTIVE_CAPACITY && taken < |signals|
        invariant Valid() && taken <= |signals| && pending == old(pending) + Orphans(signals[..taken])
      {
        DrainOne(old(pending), signals, taken);
        if signals[taken].OrphanFound? {
          PushOrphan(Orphan(signals[taken].entry));
        }
        taken := taken + 1;
      }
    }

    method PopRetry() returns (retry: Retry)
      requires Valid() && retries != []
      modifies this`retries
      ensures retry == old(retries)[0] && retries == old(retries)[1..] && ValidWith(multiset{retry.job})
    {
      retry := retries[0];
      PopRetryJob(retries);
      TakenInHand(PendingJobs(pending), RetryJobs(retries[1..]), retry.job);
      retries := retries[1..];
    }

    method PopTask() returns (task: Task)
      requires Valid() && pending != []
      modifies this`pending
      ensures task == old(pending)[0] && pending == old(pending)[1..]
      ensures if task.Durable? then ValidWith(multiset{task.job}) else Valid()
      ensures task.Orphan? ==> |pending| + |retries| < ACTIVE_CAPACITY
    {
      task := pending[0];
      PopPending(pending);
      pending := pending[1..];
      assert Held() + JobOf(task) == old(Held()) + multiset{};
    }

    /** The earliest retry, once due: its row is read again before anything else. */
    method RetryDue(now: nat, reloaded: bool, opening: Opening)
      requires Valid()
      modifies this`pending, this`retries, this`rows, this`stranded, this`stale
      ensures Valid() && stranded <= old(stranded)
      ensures if IsDue(old(pending), old(retries), now)
        then Retried(old(retries)[0], now, reloaded, opening, (old(pending), old(retries)[1..]),
          (pending, retries), old(rows), rows)
        else (pending, retries, rows) == old((pending, retries, rows))
      ensures old(retries) == [] || old(retries)[0].due > now || |old(pending)| >= 64 ==>
        pending == old(pending) && retries == old(retries)
      ensures old(retries) != [] && old(retries)[0].due <= now && |old(pending)| < 64 && !reloaded ==>
        pending == old(pending) && Inserted(old(retries)[1..], BackedOff(old(retries)[0], now), retries)
      ensures RowsFollow(old(rows), rows,
                         if reloaded then FirstDue(old(pending), old(retries), now) else None,
                         OpeningEnds(opening), OpeningGivesBack(opening))
    {
      if |pending| < ACTIVE_CAPACITY && retries != [] && retries[0].due <= now {
        RetryFirst(now, reloaded, opening);
        RetriedFollows(old(retries)[0], now, reloaded, opening, (old(pending), old(retries)[1..]), (pending, retries),
                       old(rows), rows);
      }
    }

    method RetryFirst(now: nat, reloaded: bool, opening: Opening)
      requires Valid() && retries != []
      modifies this`pending, this`retries, this`rows, this`stranded, this`stale
      ensures Valid() && stranded <= old(stranded)
      ensures Retried(old(retries)[0], now, reloaded, opening, (old(pending), old(retries)[1..]),
        (pending, retries), old(rows), rows)
    {
      var retry := PopRetry();
      RetryJob(retry, now, reloaded, opening);
    }

    method RetryJob(retry: Retry, now: nat, reloaded: bool, opening: Opening)
      requires ValidWith(multiset{retry.job})
      modifies this`pending, this`retries, this`rows, this`stranded, this`stale
      ensures Valid() && stranded <= old(stranded)
      ensures Retried(retry, now, reloaded, opening, old((pending, retries)), (pending, retries), old(rows), rows)
    {
      var fate := ToRetries;
      if reloaded {
        fate := Reopen(retry.job, opening);
      }
      Settle(retry.job, fate, now, Min(retry.failures + 1, U32_MAX));
    }

    /** `retry_claimed_purge_work`: a row that is no longer Claimed ends the retry. */
    method Reopen(job: nat, opening: Opening) returns (fate: Fate)
      requires ValidWith(multiset{job})
      modifies this`rows, this`stranded, this`stale
      ensures if fate.Dropped? then Valid() else ValidWith(multiset{job})
      ensures fate == (if IsClaimed(old(rows), job) then OpenFate(old(rows), job, opening) else Dropped)
      ensures rows == (if IsClaimed(old(rows), job) then OpenRows(old(rows), job, opening) else old(rows))
      ensures stranded <= old(stranded)
    {
      if IsClaimed(rows, job) {
        fate := Open(job, opening);
      } else {
        fate := Dropped;
        Release(job, rows, fate);
      }
    }

    /** `claim_due_purge_job`: a due Ready row becomes Claimed; the reply may be lost. */
    method ClaimRow(job: nat, lost: bool)
      requires Valid() && |pending| + |retries| < ACTIVE_CAPACITY && RowOf(rows, job) == Some(Ready)
      modifies this`rows, this`stranded
      ensures if lost then Valid() else ValidWith(multiset{job})
      ensures rows == old(rows)[job := Claimed] && stranded == old(stranded) + if lost then {job} else {}
    {
      ClaimIsOk(Held(), job, rows, seen, stranded, stale, lost);
      rows := rows[job := Claimed];
      if lost {
        stranded := stranded + {job};
      }
    }

    /** One claim: the row becomes Claimed, and the job is opened or retained. */
    method ClaimOne(reply: ClaimReply, now: nat, opening: Opening) returns (more: bool)
      requires Valid() && |pending| + |retries| < ACTIVE_CAPACITY
      requires reply.Got? || reply.ClaimLost? ==> RowOf(rows, reply.job) == Some(Ready)
      modifies this`pending, this`retries, this`rows, this`stranded, this`stale
      ensures Valid() && more == reply.Got? && |pending| + |retries| <= |old(pending)| + |old(retries)| + 1
      ensures if reply.ClaimLost? then stranded == old(stranded) + {reply.job} else stranded <= old(stranded)
      ensures match reply
        case Got(job) =>
          var claimed := old(rows)[job := Claimed];
          && rows == OpenRows(claimed, job, opening)
          && Settled(OpenFate(claimed, job, opening), LocalRetry(job, now, 1), old((pending, retries)),
            (pending, retries))
          && Held() == old(Held()) + if OpenFate(claimed, job, opening).Dropped? then multiset{} else multiset{job}
        case ClaimLost(job) => rows == old(rows)[job := Claimed] && pending == old(pending) && retries == old(retries)
        case _ => rows == old(rows) && pending == old(pending) && retries == old(retries)
      ensures reply.Got? ==>
        RowsFollow(old(rows)[reply.job := Claimed], rows, Some(reply.job), OpeningEnds(opening),
                   OpeningGivesBack(opening))
    {
      more := reply.Got?;
      if reply.Got? {
        OpenRowsFollow(rows[reply.job := Claimed], reply.job, opening);
      }
      if reply.ClaimLost? {
        ClaimRow(reply.job, true);
      }
      if reply.Got? {
        ClaimRow(reply.job, false);
        var fate := Open(reply.job, opening);
        Settle(reply.job, fate, now, 1);
      }
    }

    /** `process_purge_work` for a job in hand. */
    method Work(job: nat, slice: Slice) returns (fate: Fate)
      requires ValidWith(multiset{job})
      modifies this`rows, this`stranded, this`stale
      ensures if fate.Dropped? then Valid() else ValidWith(multiset{job})
      ensures fate == SliceFate(old(rows), job, slice) && rows == SliceRows(old(rows), job, slice)
      ensures stranded <= old(stranded)
    {
      match slice {
        case MoreToDo => fate := ToPending;
        case Finished(reply) => fate := Complete(job, reply, false);
        case SliceMismatch(quarantined, reply) =>
          if quarantined {
            fate := Complete(job, reply, true);
          } else {
            fate := ToRetries;
          }
        case SliceError(reply) => fate := Defer(job, reply);
      }
    }

    /** One slice of work on the oldest task. */
    method ProcessOne(slice: Slice, now: nat)
      requires Valid()
      modifies this`pending, this`retries, this`rows, this`stranded, this`stale
      ensures Valid() && stranded <= old(stranded)
      ensures if old(pending) == [] then (pending, retries, rows) == old((pending, retries, rows))
        else Processed(old(pending)[0], slice, now, (old(pending)[1..], old(retries)), (pending, retries),
          old(rows), rows)
      ensures RowsFollow(old(rows), rows, FrontJob(old(pending)), SliceEnds(slice), SliceGivesBack(slice))
    {
      if pending != [] {
        ProcessFront(slice, now);
      }
      ProcessedRowsFollow(old(pending), slice, now, old(retries), (pending, retries), old(rows), rows);
    }

    /** A job in hand is worked on and put where it belongs. */
    method WorkOn(job: nat, slice: Slice, now: nat)
      requires ValidWith(multiset{job})
      modifies this`pending, this`retries, this`rows, this`stranded, this`stale
      ensures Valid() && stranded <= old(stranded) && rows == SliceRows(old(rows), job, slice)
      ensures Settled(SliceFate(old(rows), job, slice), LocalRetry(job, now, 1), old((pending, retries)),
        (pending, retries))
    {
      var fate := Work(job, slice);
      Settle(job, fate, now, 1);
    }

    method ProcessFront(slice: Slice, now: nat)
      requires Valid() && pending != []
      modifies this`pending, this`retries, this`rows, this`stranded, this`stale
      ensures Valid() && stranded <= old(stranded)
      ensures Processed(old(pending)[0], slice, now, (old(pending)[1..], old(retries)), (pending, retries),
        old(rows), rows)
    {
      var task := PopTask();
      if task.Durable? {
        WorkOn(task.job, slice, now);
      } else if slice.MoreToDo? {
        PushOrphan(task);
      }
    }

    /** Claims are made while there is room and the store has due rows. */
    method ClaimJobs(claims: seq<(ClaimReply, Opening)>, now: nat) returns (used: nat)
      requires Valid()
      modifies this`pending, this`retries, this`rows, this`stranded, this`stale
      ensures Valid() && used <= |claims|
      ensures used < |claims| ==>
        || |pending| + |retries| == ACTIVE_CAPACITY
        || (used > 0 && !claims[used - 1].0.Got?)
        || !HandsOutReady(claims[used].0, rows)
      ensures (forall c :: c in claims ==> !c.0.ClaimLost?) ==> stranded <= old(stranded)
      ensures ClaimsEnd(claims, old(rows), rows)
    {
      var more := true;
      used := 0;
      while |pending| + |retries| < ACTIVE_CAPACITY && more && used < |claims|
        invariant Valid() && used <= |claims|
        invariant !more ==> used > 0 && !claims[used - 1].0.Got?
        invariant (forall c :: c in claims ==> !c.0.ClaimLost?) ==> stranded <= old(stranded)
        invariant ClaimsEnd(claims, old(rows), rows)
        decreases |claims| - used
      {
        ghost var before := rows;
        assert claims[used] in claims;
        if !HandsOutReady(claims[used].0, rows) {
          break;
        }
        more := ClaimOne(claims[used].0, now, claims[used].1);
        ClaimRowsFollow(before, rows, claims, used);
        used := used + 1;
      }
    }

    /** One round of `run_purge_worker`, with the answers it gets from outside. */
    method Round(signals: seq<Signal>, now: nat, reloaded: bool, opening: Opening,
                 claims: seq<(ClaimReply, Opening)>, slice: Slice)
      returns (ghost retried: Option<nat>, ghost worked: Option<nat>)
      requires Valid()
      modifies this`pending, this`retries, this`rows, this`stranded, this`stale
      ensures Valid()
      ensures (forall c :: c in claims ==> !c.0.ClaimLost?) ==> stranded <= old(stranded)
      ensures retried.Some? ==> reloaded && old(retries) != [] && retried.value == old(retries)[0].job
      ensures RoundRows(old(rows), rows, retried, opening, claims, worked, slice)
    {
      var taken := DrainSignals(signals);
      retried := if reloaded then FirstDue(pending, retries, now) else None;
      RetryDue(now, reloaded, opening);
      ghost var second := rows;
      var used := ClaimJobs(claims, now);
      worked := FrontJob(pending);
      ghost var third := rows;
      ProcessOne(slice, now);
      StepsMakeRound(old(rows), second, third, rows, retried, opening, claims, worked, slice);
    }
  }

  lemma RowsOnlyLeave(before: map<nat, RowState>, after: map<nat, RowState>, job: Option<nat>, ended: bool,
                      givenBack: bool)
    requires RowsFollow(before, after, job, ended, givenBack)
    ensures forall j :: j in after ==> j in before
    ensures forall j :: j in before && j !in after ==> job == Some(j) && ended
    ensures !ended && givenBack && job.Some? && job.value in after ==> after[job.value].Ready?
  {
    forall j | j in after ensures j in before {
      assert RowOf(after, j) != None;
    }
    forall j | j in before && j !in after ensures job == Some(j) && ended {
      assert RowOf(after, j) == None;
    }
    if job.Some? {
      assert RowOf(after, job.value) != Some(Claimed) || !givenBack || ended;
    }
  }

  lemma ClaimRowsFollow(before: map<nat, RowState>, after: map<nat, RowState>, claims: seq<(ClaimReply, Opening)>,
                        used: nat)
    requires used < |claims|
    requires match claims[used].0
      case Got(job) =>
        && job in before
        && RowsFollow(before[job := Claimed], after, Some(job), OpeningEnds(claims[used].1),
                      OpeningGivesBack(claims[used].1))
      case ClaimLost(job) => job in before && after == before[job := Claimed]
      case _ => after == before
    ensures ClaimsEnd(claims, before, after)
  {
    assert claims[used] in claims;
    forall j | j in before && j !in after ensures ClaimEnds(claims, j) {
      assert RowOf(after, j) == None;
    }
    forall j | j in after ensures j in before {
      assert RowOf(after, j) != None;
    }
  }

  lemma TakenInHand(pending: multiset<nat>, retries: multiset<nat>, job: nat)
    ensures pending + retries + multiset{job} == pending + (retries + multiset{job}) + multiset{}
  {
  }

  lemma NewJobIsOk(held: multiset<nat>, job: nat, rows: map<nat, RowState>, seen: set<nat>, stranded: set<nat>,
                   stale: multiset<nat>)
    requires RowsOk(held, rows, seen, stranded, stale) && job !in seen
    ensures RowsOk(held, rows[job := Ready], seen + {job}, stranded, stale)
  {
    forall j ensures JobOk(held[j], RowOf(rows[job := Ready], j), j in seen + {job}, j in stranded, stale[j]) {
      assert JobOk(held[j], RowOf(rows, j), j in seen, j in stranded, stale[j]);
    }
  }

  /** A claimed row is held once more if the claim was answered, and is stranded if not. */
  lemma ClaimIsOk(held: multiset<nat>, job: nat, rows: map<nat, RowState>, seen: set<nat>, stranded: set<nat>,
                  stale: multiset<nat>, lost: bool)
    requires RowsOk(held + multiset{}, rows, seen, stranded, stale) && RowOf(rows, job) == Some(Ready)
    ensures if lost then RowsOk(held + multiset{}, rows[job := Claimed], seen, stranded + {job}, stale)
            else RowsOk(held + multiset{job}, rows[job := Claimed], seen, stranded, stale)
  {
    var total := held + if lost then multiset{} else multiset{job};
    var strandedNow := if lost then stranded + {job} else stranded;
    forall j ensures JobOk(total[j], RowOf(rows[job := Claimed], j), j in seen, j in strandedNow, stale[j]) {
      assert JobOk((held + multiset{})[j], RowOf(rows, j), j in seen, j in stranded, stale[j]);
    }
  }

  /** A claimed row is in exactly one queue if and only if its claim was answered
      and no stale copy of it is kept, or it was not and exactly one is. */
  lemma ClaimedRowIsQueuedOnce(w: Worker, job: nat)
    requires w.Valid() && IsClaimed(w.rows, job)
    ensures w.Held()[job] == w.stale[job] + if job in w.stranded then 0 else 1
    ensures w.Held()[job] == 1 <==> w.stale[job] == if job in w.stranded then 1 else 0
  {
    assert JobOk((w.Held() + multiset{})[job], RowOf(w.rows, job), job in w.seen, job in w.stranded, w.stale[job]);
  }

  /** With every claim answered and every end of a claim heard so far, nothing else is held. */
  lemma OnlyClaimedRowsAreHeld(w: Worker, job: nat)
    requires w.Valid() && w.stranded == {} && w.stale == multiset{}
    ensures w.Held()[job] == if IsClaimed(w.rows, job) then 1 else 0
  {
    assert JobOk((w.Held() + multiset{})[job], RowOf(w.rows, job), job in w.seen, job in w.stranded, w.stale[job]);
  }

  /** A claim without an answer: the row is in no queue at all. */
  method LostClaimReplyStrandsARow() returns (w: Worker)
    ensures fresh(w) && w.Valid() && 0 in w.rows && w.rows[0].Claimed? && w.Held()[0] == 0
  {
    w := new Worker();
    w.AddReady(0);
    var more := w.ClaimOne(ClaimLost(0), 0, Opens);
  }

  /** A claimed job cannot be read; its deferral takes effect, but the reply is lost. */
  method DeferUnheard(w: Worker, job: nat)
    requires w.Valid() && |w.pending| + |w.retries| < ACTIVE_CAPACITY && RowOf(w.rows, job) == Some(Ready)
    modifies w
    ensures w.Valid() && RowOf(w.rows, job) == Some(Ready) && w.Held() == old(w.Held()) + multiset{job}
    ensures |w.pending| + |w.retries| <= |old(w.pending)| + |old(w.retries)| + 1
  {
    assert OpenFate(w.rows[job := Claimed], job, Unreadable(Lost)) == ToRetries;
    var more := w.ClaimOne(Got(job), 1, Unreadable(Lost));
  }

  /** A deferral without an answer: the store hands the row out again before the
      stale copy comes due, and the row is in both queues. */
  method LostDeferReplyQueuesTwice() returns (w: Worker)
    ensures fresh(w) && w.Valid() && 0 in w.rows && w.rows[0].Claimed? && w.Held()[0] == 2
  {
    w := new Worker();
    w.AddReady(0);
    DeferUnheard(w, 0);
    var more := w.ClaimOne(Got(0), 100, Opens);
  }

  /** At most the row of the job in hand changes, and only by leaving Claimed. */
  ghost predicate OnlyRowEnds(job: nat, before: map<nat, RowState>, after: map<nat, RowState>) {
    && (forall j :: j != job ==> RowOf(after, j) == RowOf(before, j))
    && (RowOf(after, job) == RowOf(before, job) || (IsClaimed(before, job) && !IsClaimed(after, job)))
  }

  lemma StoreCallsOnlyEnd(rows: map<nat, RowState>, job: nat, reply: Reply)
    ensures OnlyRowEnds(job, rows, CompletedRows(rows, job, reply))
    ensures OnlyRowEnds(job, rows, DeferredRows(rows, job, reply))
  {
  }

  lemma ReleaseOk(held: multiset<nat>, job: nat, before: map<nat, RowState>, after: map<nat, RowState>, seen: set<nat>,
                  stranded: set<nat>, stale: multiset<nat>, dropped: bool)
    requires RowsOk(held + multiset{job}, before, seen, stranded, stale)
    requires OnlyRowEnds(job, before, after) && (dropped ==> !IsClaimed(after, job))
    ensures RowsOk(held + if dropped then multiset{} else multiset{job}, after, seen,
                   if Ended(job, before, after) then stranded - {job} else stranded,
                   StaleAfter(stale, job, Ended(job, before, after) && job !in stranded, dropped))
  {
    var total := held + if dropped then multiset{} else multiset{job};
    var strandedNow := if Ended(job, before, after) then stranded - {job} else stranded;
    var staleNow := StaleAfter(stale, job, Ended(job, before, after) && job !in stranded, dropped);
    forall j ensures JobOk(total[j], RowOf(after, j), j in seen, j in strandedNow, staleNow[j]) {
      assert JobOk((held + multiset{job})[j], RowOf(before, j), j in seen, j in stranded, stale[j]);
    }
  }
}
