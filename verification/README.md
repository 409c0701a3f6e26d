# Dufs: verified models of its coordination, accounting and recovery code

Dufs is a file server written in Rust. The parts of it that are hard to get
right are not its routes but what happens between them: requests that wait for
each other's paths, space that is promised before it is written, a DELETE that
must survive a crash at any point, listings and scans that may be interrupted
at any step. This project models those parts in Dafny and proves what they
promise, for every input, every interleaving and every crash.

Code that changes things in place is modelled by classes and loops proved
against specification functions. Concurrent protocols are step systems: a
state, a set of atomic steps, and theorems over every run.

| files | component |
|---|---|
| `PathKeys`, `PathCoordinator`, `PathLeaseProtocol`, `PathLeaseTheorems`, `PathLeaseSchedules` | path leases |
| `PathLeaseMoves`, `PathLeaseUnneededWait` | a run of the leases put together from stretches of steps |
| `PathResolution`, `StatePathScan` | semantic path keys; admission against durable state |
| `LinkedTree`, `LinkedLeases`, `LinkChain` | path keys in a tree with symbolic links, and what a lease covers there |
| `DiskSpace`, `DiskSpaceProtocol` | disk-space reservations |
| `DeleteProtocol`, `DeleteInvariants`, `DeleteTheorems`, `DeleteOutcomes`, `DeleteOrphan`, `PurgeWorker` | durable DELETE and the purge worker |
| `StableSort`, `InterruptibleSort`, `PathItemOrder`, `BoundedListing` | directory listings |
| `MaintenanceScan` | the resumable maintenance scan |
| `StoreClock` | the clock of the state store |
| `ByteRange`, `Utf8Text`, `LogLine`, `UriCodec`, `PathPolicy` | range downloads, bounded log lines, the two path parsers |
| `Basics` | optional values, machine words, powers of two |

`dafny verify dfyconfig.toml` checks the whole project.

## How the components are modelled

**Path leases.** A request registers as a waiter, resolves semantic keys
outside the lock, one path at a time, and takes all its leases in one critical
section, gated by an epoch, by held leases and by earlier waiters. Every
critical section is a function on the shared state; the methods of
`Coordinator` are proved to compute it, and the step system interleaves the
same functions between any number of requests, with cancellation, release in
two steps, notifications in flight, and a file system that lease holders keep
changing, to anything. A change *strays* if it gives a path another meaning
that no key of the changer's lease covers.

**Links.** A tree of directories, files and links; a lookup follows links from
left to right, below the root, at most 40 of them, and records the entries it
passes. The key of a path is computed by the specification of the key
resolution on that tree. So it can be said which keys a change of one entry
changes, and hence which changes stray.

**Disk space.** A probe of the free space runs without the lock, and written
bytes are given back in batches without telling the probers. The step system
has both, so a grant may rest on an outdated probe; the invariant says by how
much an unrevoked probe can be wrong.

**Durable DELETE.** One directory, the purge rows, the live DELETEs, the
reconcilers and the worker. A crash may come at any step and leaves behind any
version of the directory since the last sync, keeps the rows, turns claimed
rows back into ready ones and forgets every lease, process and task. Store and
sync calls may fail, or take effect without an answer.

**Purge worker.** The two queues of the worker, with every store reply
possibly lost after it took effect.

**Listings.** The sort is an index merge and a permutation applied in place;
both are proved against the one stable order of the input. Growth of the
listing is proved in the saturating arithmetic of the code.

**Scan, clock, ranges, log lines, paths.** The imperative form is proved
against the simple one: the batched scan against the depth-first listing, the
one-anchor clock against the maximum over all readings, streamed chunks
against the bytes of the range, the incremental log line against truncation of
the concatenation, the binary prefix search against the component loop.

## Where a promise needs a condition

- *Exclusion holds for what the paths mean now* needs that no change strayed
  (`SemanticExclusion`, `GrantedKeysAreCurrent`), and a lease on an entry does
  not ensure that: with links `a` to `b` to a directory, the key of `b` does not
  conflict with that of `a/x`, whose resolution passes `b`. In
  `LinkChainBreaksExclusion` two holders that changed nothing end up on the same
  entry. All changes of one entry stay within a lease exactly if the lease covers
  every path whose resolution passes the entry (`ChangesStayWithinLease`). A
  removal, or a file put in its place, does exactly if the lease covers every
  path that is resolved by way of the entry or names the directory it held
  (`BlockingStaysWithinLease`, `BlockingStaysWithinOwnLease`,
  `BlockingRunsStrayExactly`). Without links the key of the entry is always
  enough (`PlainChangesStayWithinLease`).
- *A parked request always waits for something it conflicts with* is false:
  an earlier request that starts to resolve again stops conflicting without a
  notification. `RequestWaitsForNothingItConflictsWith` is such a run.
  `ParkedRequestHasReason` says what excluded the request when it parked, and
  that the reason is gone exactly if it was an earlier request that fell back so
  and has no intersecting path. `NoDeadlock` and `HeadOfQueueCanAcquire` show
  that this never blocks the queue.
- *Every trash entry has a live row* needs that no failed sync of a removal is
  followed by a crash that undoes the removal (`TrashIsCovered`,
  `RowIsLostOnlyByRevertingCrash`, `NoObjectIsLostIffTrashIsCovered`).
  `AnyOpenedJobCanBeOrphaned` leads there from every state in which the worker
  is about to unlink. The server leaves such an entry to its maintenance scan.
- *A claimed row is in exactly one queue* holds exactly if its claim was
  answered and no stale copy of it is kept, or it was not and one is: a copy is
  stale while it outlives the claim it stands for, because the end of that claim
  was not heard (`ClaimedRowIsQueuedOnce`, and a witness for each).
- *Stopping at a failed resolution is what the conservative root key would have
  decided*, as a comment in `path_coordinator.rs` says, holds for the symmetric
  relation (`FailureMeansConflict`). For the directional one
  `FailureUnderTheDirectionalRelation` says exactly when the root key, on either
  side, would have blocked; `FailedCandidateStopsNeedlessly` and
  `FailedSourceStopsNeedlessly` are inputs where it would not.
- *The allocation budget refuses only sizes that do not fit a word* is false
  within one allocation unit of the largest word
  (`AllocationBudgetIsExact`, `PaddingOverflowRefusesAFittingSize`), and true for
  every unit that divides 2^64 (`DividingUnitRefusesNothingThatFits`).
- *The listing stays within its byte budget* needs a budget below the largest
  word (`TotalIsExact`, `LargestBudgetIsNoBound`).
- *The incremental log line is the truncated concatenation* exactly unless the
  overflowing piece refills bytes freed by cutting a character
  (`LineIsTruncatedConcatenation`, `RefillHappens`).
- *The ends of a range mean what section 14.1.2 of RFC 9110 says* exactly unless
  a leading plus sign, or a last position or suffix length beyond 64 bits, makes
  the difference (`ParserFollowsTheStandard`; `PlusSignIsAccepted` and
  `LongLastPositionIsRefused` are the two kinds of input).

## Model

| member | source | states |
|---|---|---|
| `PathKeys.PathsConflictIsSymmetric` | src/server/path_coordinator.rs:576-588 | the conflict relation between two requests is symmetric |
| `PathKeys.ConflictIsSameEntryOrContainment` | src/server/path_coordinator.rs:584-661 | two keys conflict exactly when they name the same entry or one strictly contains the other |
| `PathKeys.ConservativeKeyConflictsWithEveryResolvedKey` | src/server/rooted_fs.rs:523-530 | the root key conflicts with, and strictly contains, every key whose ancestry starts at the root |
| `PathCoordinator.Coordinator.Register` | src/server/path_coordinator.rs:488-500 | registration takes the next waiter id and enqueues the request as resolving |
| `PathCoordinator.Coordinator.MarkResolvingIfEligible` | src/server/path_coordinator.rs:502-525 | a waiter resolves only when no earlier waiter excludes it, by its last keys or else lexically |
| `PathCoordinator.Coordinator.TryAcquireLease` | src/server/path_coordinator.rs:297-353 | the critical section computes the acquisition step that the protocol theorems are about |
| `PathCoordinator.Coordinator.DropRegistration` | src/server/path_coordinator.rs:532-550 | cancellation dequeues and notifies, once |
| `PathCoordinator.Coordinator.DropLease` | src/server/path_coordinator.rs:552-566 | release removes the lease, advances the epoch and notifies, once |
| `PathLeaseProtocol.StepKeepsInv` | src/server/path_coordinator.rs:127-216 | every step of every request keeps the whole invariant |
| `PathLeaseProtocol.RunKeepsInv` | src/server/path_coordinator.rs:127-216 | the invariant holds in every state of every run |
| `PathLeaseTheorems.MutualExclusion` | src/server/path_coordinator.rs:297-353 | in every reachable state no two leases record conflicting keys |
| `PathLeaseTheorems.StrayedMeansSomeChangeStrayed` | src/server/path_coordinator.rs:144-215 | a run has strayed exactly if some holder changed a meaning its own lease does not cover |
| `PathLeaseTheorems.SemanticExclusion` | src/server/path_coordinator.rs:144-215 | as long as no change strayed, exclusion holds for what the paths mean now, although keys were resolved unlocked and earlier |
| `PathLeaseTheorems.ConservativeLeaseIsAlone` | src/server/path_coordinator.rs:280-295 | a lease on an unresolvable path excludes every other lease that covers a path |
| `PathLeaseTheorems.GrantsRespectQueueOrder` | src/server/path_coordinator.rs:304-333 | no grant while a lower-numbered waiter is registered one of whose paths is a prefix of a granted one, or the reverse |
| `PathLeaseTheorems.EpochCountsReleases` | src/server/path_coordinator.rs:552-566 | an unchanged epoch means that no lease was released in between |
| `PathLeaseTheorems.GrantedKeysAreFresh` | src/server/path_coordinator.rs:148-210 | every granted key was resolved after one epoch read, and no release falls between that read and the grant |
| `PathLeaseTheorems.GrantedKeysAreCurrent` | src/server/path_coordinator.rs:297-333 | as long as no change strayed, the keys a grant records are what its paths mean at that moment |
| `PathLeaseTheorems.ResolutionRecords` | src/server/path_coordinator.rs:280-295 | a resolved path is recorded with its meaning at that moment, a failed one with the key of the whole tree |
| `PathLeaseTheorems.FreshRequestResolves` | src/server/path_coordinator.rs:502-525 | a request without keys resolves if and only if no earlier waiter has a path that is a prefix of one of its own, or the reverse; else it parks |
| `PathLeaseTheorems.OutdatedRequestResolves` | src/server/path_coordinator.rs:144-215 | a request with keys uses them while the epoch is theirs; otherwise it resolves if and only if no earlier waiter overlaps or conflicts with them, and else parks |
| `PathLeaseTheorems.ParkedRequestHasReason` | src/server/path_coordinator.rs:144-215 | a parked request that saw every change was excluded when it parked; the lease still excludes it; an earlier waiter does exactly if it intersects lexically, or excluded it then and has not gone back to resolving |
| `PathLeaseTheorems.NoDeadlock` | src/server/path_coordinator.rs:144-215 | if all waiters are parked and up to date and nothing is in flight, some lease is held |
| `PathLeaseTheorems.StuckExactly` | src/server/path_coordinator.rs:144-215 | exactly when a request can take no step of its own, and when it can be cancelled |
| `PathLeaseSchedules.HeadOfQueueCanAcquire` | src/server/path_coordinator.rs:144-215 | with no lease held the lowest-numbered waiter reaches its grant by its own steps and outstanding notifications |
| `PathLeaseUnneededWait.RequestWaitsForNothingItConflictsWith` | src/server/path_coordinator.rs:502-525 | a run in which a parked, up-to-date request conflicts with nobody |
| `PathResolution.NearestExistingParent` | src/server/rooted_fs.rs:1515-1553 | the component loop returns the deepest openable prefix, or the fatal error |
| `PathResolution.LinearPrefixIsDeepest` | src/server/rooted_fs.rs:1515-1553 | the component loop stops at the deepest prefix that opens with all its prefixes, and fails exactly with the first fatal error |
| `PathResolution.FirstFailureDecides` | src/server/rooted_fs.rs:820-853 | the first prefix that does not open ends the resolved part if it is missing, no directory or not permitted, and any other error is the answer |
| `PathResolution.RefusedParentSplitsKey` | src/server/rooted_fs.rs:758-811 | a key splits the path before the first parent name that is missing, no directory or not permitted |
| `PathResolution.DeepestParentPrefix` | src/server/rooted_fs.rs:820-853 | the binary search equals the component loop under left-to-right resolution, with at most 1 + ceil(log2 n) probes; without that assumption its prefix opens and the next one does not |
| `PathResolution.DirectoryAncestry` | src/server/rooted_fs.rs:904-949 | the walk returns the parent chain from the root, and fails only if there is none of at most 4096 directories |
| `PathResolution.AncestryIsChain` | src/server/rooted_fs.rs:904-949 | what the walk finds is a chain of parents from the root |
| `PathResolution.ChainIsAncestry` | src/server/rooted_fs.rs:904-949 | every chain of parents within the limit is what the walk finds |
| `PathResolution.ClimbFails` | src/server/rooted_fs.rs:904-949 | the three reasons for which there is no ancestry, and the error of each |
| `PathResolution.ResolvePathKey` | src/server/rooted_fs.rs:758-811 | the key of the specification under left-to-right resolution; in any case anchored at the root, split at a prefix that opens, with the directory that the entry lookup finds under the last name |
| `LinkedTree.FollowOn` | src/server/rooted_fs.rs:814-853 | in a tree with links the lookup of a path is that of its prefix, continued |
| `LinkedTree.TreeIsLeftToRight` | src/server/rooted_fs.rs:814-853 | lookups in a tree with links are left-to-right, which is what the binary search assumes |
| `LinkedTree.LookupStaysBelow` | src/server/rooted_fs.rs:311-311 | whatever links and dots it meets, a lookup ends below the root or fails |
| `LinkedTree.EscapingLinkIsRefused` | src/server/rooted_fs.rs:311-311 | a link from the root to its parent is refused, with every path through it |
| `LinkedTree.FortyLinksAreFollowed` | src/server/rooted_fs.rs:311-311 | a lookup follows forty links and not one more |
| `LinkedTree.MeaningFrame` | src/server/rooted_fs.rs:758-811 | a key stays when an entry changes that its resolution does not pass |
| `LinkedTree.BlockedMeaning` | src/server/rooted_fs.rs:758-811 | removing an entry, or putting a file there, changes a key exactly if it was found by way of the entry or names the directory there |
| `LinkedTree.PassingMeaningCanChange` | src/server/rooted_fs.rs:758-811 | every path whose resolution passes an entry gets another key by some change of it |
| `LinkedTree.BlockingStaysWithinLease` | src/server/path_coordinator.rs:576-661 | a removal, or a file put in place, stays within a lease if and only if the lease covers every path it changes |
| `LinkedTree.ChangesStayWithinLease` | src/server/path_coordinator.rs:576-661 | all changes of one entry stay within a lease if and only if the lease covers every path whose resolution passes the entry |
| `LinkedLeases.BlockingStaysWithinOwnLease` | src/server/path_coordinator.rs:576-661 | under a lease on just that entry: if and only if every path resolved by way of it starts with its name or ends at it, or one of the two names a directory above the other |
| `LinkedLeases.PlainChangesStayWithinLease` | src/server/path_coordinator.rs:576-661 | without links every change of one entry stays within a lease that has its key |
| `LinkedLeases.CoveredRunsNeverStray` | src/server/path_coordinator.rs:144-215 | a run whose changes are all covered by their leases never strays |
| `LinkedLeases.BlockingRunsStrayExactly` | src/server/path_coordinator.rs:144-215 | a run of removals and files put in place strays exactly at a change that costs an uncovered path its key |
| `LinkChain.RemovalStrays` | src/server/rooted_fs.rs:785-804 | removing the middle link of a chain strays from a lease on that link |
| `LinkChain.LinkChainBreaksExclusion` | src/server/rooted_fs.rs:785-804 | a run in which two holders that changed nothing come to mean the same entry |
| `StatePathScan.StatePathScanner.PageConflicts` | src/server/path_coordinator.rs:383-484 | a page blocks exactly when something on it fails to resolve or blocks a cached source; empty pages resolve nothing |
| `StatePathScan.HasPersistedObstacle` | src/server.rs:573-634 | the paging loop computes the page-by-page scan, store errors included |
| `StatePathScan.PagedScanIsFlat` | src/server.rs:573-634 | for every split into pages the answer is that of the flat scan |
| `StatePathScan.BlocksByNamesOrEntries` | src/server/path_coordinator.rs:470-484 | both relations written out on names, parents, tails and directories; a lexical prefix alone blocks |
| `StatePathScan.FailureMeansConflict` | src/server/path_coordinator.rs:421-426 | under the symmetric relation a failed path with the root key conflicts with the other side |
| `StatePathScan.FailureUnderTheDirectionalRelation` | src/server/path_coordinator.rs:421-482 | exactly when a failed source or candidate with the root key would block under the directional relation |
| `StatePathScan.FailedCandidateStopsNeedlessly` | src/server/path_coordinator.rs:421-426 | a failed candidate that stops the scan and would not have blocked |
| `StatePathScan.FailedSourceStopsNeedlessly` | src/server/path_coordinator.rs:421-426 | a failed source that stops the scan and would not have blocked |
| `DiskSpace.BudgetCheckIsExact` | src/server/disk_space.rs:343-353 | the checked additions decide the unbounded inequality |
| `DiskSpace.RoundUpIsLeastMultiple` | src/server/disk_space.rs:332-341 | rounding gives the least multiple of the unit, when its padding does not overflow |
| `DiskSpace.AllocationBudgetIsExact` | src/server/disk_space.rs:331-341 | the budget is the sum of the two rounded sizes, granted exactly when that sum and both paddings fit 64 bits |
| `DiskSpace.PaddingOverflowRefusesAFittingSize` | src/server/disk_space.rs:332-341 | a size that fits a word and is refused |
| `DiskSpace.DividingUnitRefusesNothingThatFits` | src/server/disk_space.rs:331-341 | with a unit that divides 2^64 the budget is granted exactly when it fits |
| `DiskSpace.ConsumeIsBatched` | src/server/disk_space.rs:239-250 | consumed bytes are withheld below one mebibyte and given back all at once from there on |
| `DiskSpace.DiskSpaceTracker.ReserveLocked` | src/server/disk_space.rs:87-114 | a grant adds to the bucket and advances the revision, a refusal changes nothing |
| `DiskSpace.DiskSpaceTracker.ReleaseBytes` | src/server/disk_space.rs:169-189 | a release subtracts and removes an empty bucket |
| `DiskSpace.DiskSpaceReservation.ConsumeBytes` | src/server/disk_space.rs:239-250 | consumed bytes become pending and are given back in batches |
| `DiskSpace.DiskSpaceReservation.FlushPendingRelease` | src/server/disk_space.rs:281-285 | pending bytes are given back |
| `DiskSpace.DiskSpaceReservation.DropReservation` | src/server/disk_space.rs:287-297 | the rest is given back at the end |
| `DiskSpaceProtocol.GrantProtects` | src/server/disk_space.rs:116-152 | a grant against an unlocked probe leaves the minimum and every unwritten reserved byte free |
| `DiskSpaceProtocol.RunKeepsInv` | src/server/disk_space.rs:14-20 | accounting, probes and protection hold in every state of every run |
| `DiskSpaceProtocol.AccountingIsConserved` | src/server/disk_space.rs:94-114 | every bucket is the sum of remaining and pending bytes of the live reservations, and no empty bucket is kept |
| `DiskSpaceProtocol.FreeSpaceStaysProtected` | src/server/disk_space.rs:14-20 | from the first grant on, free space covers the minimum and all unwritten reserved bytes |
| `DiskSpaceProtocol.ConfirmedCheckIsTrue` | src/server/disk_space.rs:191-226 | a confirmed recheck means that the space is there now |
| `DiskSpaceProtocol.ReleaseNeverUnderflows` | src/server/disk_space.rs:169-189 | the bucket always covers what a reservation may still give back |
| `DiskSpaceProtocol.WithheldBytesAreBounded` | src/server/disk_space.rs:239-250 | in every run a live reservation withholds less than one mebibyte |
| `DiskSpaceProtocol.CommitDecides` | src/server/disk_space.rs:87-152 | on a current probe a request is granted, and a check confirmed, if and only if the probed space covers minimum, tracked bytes and request; else it is refused and nothing changes |
| `DiskSpaceProtocol.RequestGivesUpAtTheEighth` | src/server/disk_space.rs:126-152 | a request starts over after an outdated probe and gives up exactly at the eighth |
| `DeleteTheorems.StepKeepsInv` | src/server/delete.rs:93-235 | every step and every crash keeps the DELETE invariant |
| `DeleteTheorems.RunKeepsInv` | src/server/delete.rs:93-235 | the invariant holds in every state of every run |
| `DeleteTheorems.ObjectHasExactlyOnePlace` | src/server/rooted_fs.rs:1974-2142 | every object is in exactly one of target, trash with a live row naming it, quarantine, or destroyed with authority |
| `DeleteTheorems.NoObjectIsLostIffTrashIsCovered` | src/server/rooted_fs.rs:1974-2142 | every object has a place exactly when every trash name has its row |
| `DeleteTheorems.TrashIsCovered` | src/server/delete.rs:93-235 | every trash name has its row after any run, unless a removal sync failed and a crash dropped an unsynced change |
| `DeleteTheorems.RowIsLostOnlyByRevertingCrash` | src/server/purge.rs:340-398 | a trash name loses its row exactly in a crash that falls back to a version whose row is gone; that takes an unsynced change and a failed removal sync |
| `DeleteTheorems.ReconcilerExcludesLiveDelete` | src/server/purge.rs:514-563 | a reconciler that owns its lease excludes the live DELETE of its path and of its intent |
| `DeleteTheorems.PreparedRowIsNoAuthority` | src/server/purge.rs:340-398 | no worker task ever holds a Prepared row |
| `DeleteTheorems.TargetIsChangedOnlyByItsDelete` | src/server/rooted_fs.rs:1974-2142 | only publishing, or the DELETE that holds the lease, changes a target name; the latter only while it denotes the observed object at the observed revision |
| `DeleteTheorems.RevisionComesFromTheRename` | src/server/delete.rs:132-141 | the revision a DELETE carries is the one the object had right after its own rename |
| `DeleteTheorems.AuthorityComesFromReady` | src/server/delete.rs:202-209 | every authority to destroy was recorded as Ready, after the rename and when every possible version had it |
| `DeleteTheorems.DestroyedOnlyAfterReady` | src/server/purge.rs:400-441 | an object is destroyed only by an unlink at the recorded revision, after Ready, after its rename |
| `DeleteOutcomes.MoveOutcome` | src/server/rooted_fs.rs:2005-2072 | the checked rename moves exactly the observed object at the observed revision into a free trash name; otherwise nothing changes and the DELETE is rejected |
| `DeleteOutcomes.RenameErrorOutcome` | src/server/rooted_fs.rs:2065-2078 | a rename that reports an error is taken for not done exactly when it was not |
| `DeleteOutcomes.PrepareOutcome` | src/server/delete.rs:93-125 | the row is recorded, and the DELETE goes on exactly if it heard the reply |
| `DeleteOutcomes.SyncOutcome` | src/server/delete.rs:132-209 | a successful sync leaves one version for a crash, a failed one changes nothing on disk; where each process goes on |
| `DeleteOutcomes.OpenOutcome` | src/server/purge.rs:340-398 | a job is opened exactly on the object and revision of its row |
| `DeleteOutcomes.UnlinkOutcome` | src/server/purge.rs:400-441 | a trash name is unlinked exactly if it still denotes the opened object of the row at its revision |
| `DeleteOutcomes.QuarantineOutcome` | src/server/purge.rs:443-471 | a mismatched or unclaimed trash entry is moved aside, never destroyed |
| `DeleteOutcomes.VerifyOutcome` | src/server/purge.rs:514-563 | a reconciler goes on exactly if its row is still Prepared |
| `DeleteOutcomes.ReloadOutcome` | src/server/purge.rs:328-338 | a kept job is worked on again exactly if its row is still Claimed |
| `DeleteOutcomes.ForgetOutcome` | src/server/purge.rs:400-493 | the worker forgets a job exactly if the end of its claim was confirmed |
| `DeleteOutcomes.ClaimOutcome` | src/server/state_store/purge.rs:171-185 | a claim takes object and revision of the row and marks it |
| `DeleteOutcomes.RowAppearsExactly` | src/server/delete.rs:93-125 | a row is made exactly by the first store call of its DELETE, for the observed object |
| `DeleteOutcomes.RowBecomesReadyExactly` | src/server/delete.rs:202-209 | a row becomes Ready exactly after its synced move, with the revision after it, or when a claim is given back |
| `DeleteOutcomes.RowLeavesExactly` | src/server/state_store/purge.rs:212-218 | exactly which steps remove a row |
| `DeleteOutcomes.LeaseIsHeldExactly` | src/server/purge.rs:514-563 | exactly from when to when a path is leased |
| `DeleteOutcomes.CrashOutcome` | src/server/state_store/database.rs:1512-1519 | what a crash leaves: one version since the last sync, and the rows with claims given back |
| `DeleteOrphan.AnyOpenedJobCanBeOrphaned` | src/server/purge.rs:378-385 | from every state about to unlink, a failed sync, a retry that finds the name missing, and a crash leave a trash name without a row |
| `DeleteOrphan.SomeRunLosesARow` | src/server/purge.rs:378-385 | such a state is reached from the empty directory |
| `PurgeWorker.RetryDelayDoubles` | src/server/purge.rs:636-642 | the delay is min(100 * 2^(f-1), 30000) ms for every f of at least one |
| `PurgeWorker.RetryPosition` | src/server/purge.rs:605-608 | the first retry due later, or the end |
| `PurgeWorker.LocalRetryBacksOff` | src/server/purge.rs:586-642 | a local retry comes due after the doubled delay |
| `PurgeWorker.Worker.ScheduleRetry` | src/server/purge.rs:586-610 | stable insertion by due time, the job counted once more |
| `PurgeWorker.Worker.Open` | src/server/purge.rs:340-398 | what each outcome of opening does to the row and to the job, within the invariant |
| `PurgeWorker.Worker.Complete` | src/server/purge.rs:443-471 | a job is dropped only when its completion was confirmed |
| `PurgeWorker.Worker.Defer` | src/server/purge.rs:473-493 | a job is dropped only when its deferral was confirmed |
| `PurgeWorker.Worker.DrainSignals` | src/server/purge.rs:197-206 | signals are taken in order while there is room |
| `PurgeWorker.Worker.RetryDue` | src/server/purge.rs:208-225 | only the earliest retry, only once due; an unread row backs off once more; a Claimed row leaves the store only if its entry was missing or quarantined, and is Ready again if it was unreadable |
| `PurgeWorker.Worker.Reopen` | src/server/purge.rs:328-338 | a row that is no longer Claimed ends its retry |
| `PurgeWorker.Worker.ClaimOne` | src/server/purge.rs:227-244 | the new queues and rows after a claim, also when its reply is lost; an answered one follows the outcome of opening |
| `PurgeWorker.Worker.ClaimJobs` | src/server/purge.rs:227-244 | claims go on while there is room and due rows |
| `PurgeWorker.Worker.Work` | src/server/purge.rs:400-441 | what each outcome of a slice does to the row and to the job |
| `PurgeWorker.Worker.ProcessOne` | src/server/purge.rs:246-278 | one slice of work on the oldest task: its row leaves the store only if the purge finished or the entry was quarantined, is Ready again after an error, and no other row changes |
| `PurgeWorker.Worker.Round` | src/server/purge.rs:186-300 | a whole round keeps at most 64 jobs, sorted retries, and every claimed row queued; a row leaves the store only through the retry, a claim or the slice that ended it |
| `PurgeWorker.SliceRowsFollow` | src/server/purge.rs:400-441 | after a slice a Claimed row leaves the store exactly if the purge finished or the entry was quarantined, and is Ready exactly after an error, given that the call took effect |
| `PurgeWorker.OpenRowsFollow` | src/server/purge.rs:340-398 | the same for opening: missing or quarantined ends the row, unreadable makes it Ready |
| `PurgeWorker.SliceFateIsConfirmed` | src/server/purge.rs:400-441 | a job is forgotten exactly on a confirmed end, and queued again exactly if there is more to do |
| `PurgeWorker.OpenFateIsConfirmed` | src/server/purge.rs:340-398 | a job is forgotten exactly on a confirmed end, and queued exactly if it opened |
| `PurgeWorker.OrphansInOrder` | src/server/purge.rs:197-206 | the orphans queued are those of the signals, in order |
| `PurgeWorker.ClaimedRowIsQueuedOnce` | src/server/purge.rs:186-300 | how often a claimed row is queued, and that it is once exactly if it is answered with no stale copy, or unanswered with one |
| `PurgeWorker.OnlyClaimedRowsAreHeld` | src/server/purge.rs:186-300 | with everything answered and heard, the queues hold exactly the claimed rows, once each |
| `PurgeWorker.LostClaimReplyStrandsARow` | src/server/purge.rs:231-238 | a claimed row in no queue |
| `PurgeWorker.LostDeferReplyQueuesTwice` | src/server/purge.rs:473-493 | a claimed row in both queues |
| `StableSort.StableOrderIsUnique` | src/server/listing.rs:1086-1196 | an input has only one stable order |
| `StableSort.MergeIsInOrder` | src/server/listing.rs:1137-1156 | taking the left run on ties merges two stable runs into one |
| `StableSort.PassDoublesRuns` | src/server/listing.rs:1128-1161 | a pass turns stable runs into stable runs of twice the width |
| `StableSort.SortedIndicesAreStable` | src/server/listing.rs:1127-1161 | the merge yields a permutation, and the stable order if the comparison is a total preorder |
| `Basics.CeilLog2IsLeast` | src/server/listing.rs:1127-1161 | the number of passes is the least exponent of two that reaches the length |
| `InterruptibleSort.Poller.Tick` | src/server/listing.rs:1114-1120 | a poll exactly after every 256 counted steps |
| `InterruptibleSort.MergeRun` | src/server/listing.rs:1133-1156 | the merge loop computes the merge of the two runs |
| `InterruptibleSort.MergePass` | src/server/listing.rs:1128-1158 | the pass loop computes one pass, in saturating arithmetic |
| `InterruptibleSort.MergeIndices` | src/server/listing.rs:1127-1161 | the width loop computes the sorted indices in n * ceil(log2 n) steps |
| `InterruptibleSort.Invert` | src/server/listing.rs:1163-1177 | the inverse permutation |
| `InterruptibleSort.SwapFixesOneMore` | src/server/listing.rs:1178-1191 | each swap along a cycle puts at least one more element in its place |
| `InterruptibleSort.ApplyCycle` | src/server/listing.rs:1179-1190 | one cycle is followed to its end, the multiset kept |
| `InterruptibleSort.ApplyCycles` | src/server/listing.rs:1178-1191 | the slice ends as the permuted input, within as many steps as it has elements |
| `InterruptibleSort.StableSortIsUnique` | src/server/listing.rs:1086-1196 | two stable sorts of the same input are equal |
| `InterruptibleSort.Plan` | src/server/listing.rs:1105-1177 | everything up to the permutation only reads the slice |
| `InterruptibleSort.SortInterruptibly` | src/server/listing.rs:1086-1196 | success is the stable sort, every failure keeps the elements and leaves the slice alone before the cycle phase, and the bounds on steps and polls |
| `PathItemOrder.ListingOrderIsTotalPreorder` | src/server/listing.rs:1067-1079 | the comparison is a total preorder for every key and direction |
| `PathItemOrder.OnlySameNameTies` | src/server/listing.rs:1450-1482 | only entries of the same name compare equal |
| `PathItemOrder.ListingOrderIsByField` | src/server/listing.rs:1067-1079 | folders first, then size or time, then the natural order, then the bytes of the name; descending is the reverse of all that |
| `BoundedListing.CapacityLimitIsExact` | src/server/listing.rs:1413-1420 | the saturating limit admits a capacity exactly when old buffer, new buffer and the rest fit |
| `BoundedListing.TotalIsExact` | src/server/listing.rs:1364-1368 | below the largest word the saturating total decides the true one |
| `BoundedListing.BoundedVec.TryReserveSlot` | src/server/listing.rs:1405-1437 | a successful growth keeps both buffers and the rest within the budget, leaves a free slot, and doubles or takes all the room; a refusal means they would not fit |
| `BoundedListing.Accumulator.Push` | src/server/listing.rs:916-979 | after every push the whole listing is within the budget; a refused item had no room, or no memory |
| `BoundedListing.LargestBudgetIsNoBound` | src/server/listing.rs:960-974 | at the largest budget an oversized item is accepted |
| `BoundedListing.SortFits` | src/server/listing.rs:1370-1394 | for every budget the sort check decides whether listing and scratch fit together; at the largest one it always passes |
| `MaintenanceScan.Judge` | src/server/maintenance.rs:796-946 | exactly when an entry is entered, removed, scheduled or postponed |
| `MaintenanceScan.TrashIsPurgedExactly` | src/server/maintenance.rs:796-1016 | exactly when trash is scheduled or postponed, with every time stamp it has old enough, modification and change alike |
| `MaintenanceScan.UploadIsRemovedExactly` | src/server/maintenance.rs:796-1016 | exactly when an upload file is removed, by its modification time alone |
| `MaintenanceScan.FolderIsEnteredExactly` | src/server/maintenance.rs:796-850 | exactly which folders the walk enters |
| `MaintenanceScan.ReportIsSafe` | src/server/maintenance.rs:796-946 | whatever a batch examined, its report holds only what may be removed or scheduled |
| `MaintenanceScan.ReportIsComplete` | src/server/maintenance.rs:796-946 | every decision to remove or to schedule an examined entry is in the report |
| `MaintenanceScan.ReportIsAged` | src/server/maintenance.rs:796-1016 | whatever a batch adds to the report it examined, and was old enough for what is done to it |
| `MaintenanceScan.ReportSparesTheRest` | src/server/maintenance.rs:820-944 | nothing quarantined, protected, state-bound or in use is removed or scheduled |
| `MaintenanceScan.Scan.Visit` | src/server/rooted_fs.rs:651-705 | an entry within budget is counted, logged, judged and reported |
| `MaintenanceScan.Scan.VisitChunk` | src/server/rooted_fs.rs:621-708 | a chunk examines entries in order, pauses before an entry out of budget and after an entry it enters or postpones |
| `MaintenanceScan.Scan.TakePending` | src/server/maintenance.rs:750-768 | a postponed purge is scheduled exactly if nothing is bound to it now and the queue accepts it, and else dropped |
| `MaintenanceScan.Scan.Advance` | src/server/maintenance.rs:770-988 | one pass keeps what was examined plus what is left equal to the full listing |
| `MaintenanceScan.Scan.RunBatch` | src/server/maintenance.rs:724-991 | so does a batch of any budget; its report is exactly the decisions on the entries it examined; a completed scan has examined the full listing; productive batches make progress |
| `MaintenanceScan.ScanTree` | src/server/maintenance.rs:724-991 | for every sequence of batches the examined entries are a prefix of the depth-first listing, all of it when complete, and complete once more than twice its length plus one batches were productive |
| `StoreClock.ObservationKeepsLead` | src/server/state_store.rs:1089-1112 | one anchor stands for all readings, although each rounds its elapsed time on its own |
| `StoreClock.ProjectionCountsMillis` | src/server/state_store.rs:1092-1112 | a reading goes forward by the whole milliseconds since |
| `StoreClock.Clock.Observe` | src/server/state_store.rs:1092-1112 | the answer is the maximum over all readings of reading plus elapsed milliseconds; exactly when it fails, and then nothing changes |
| `ByteRange.ParseRange` | src/utils.rs:81-120 | a satisfiable range lies within the file |
| `ByteRange.RangeForms` | src/utils.rs:81-120 | what the three printed forms of a range give, for numbers of every size |
| `ByteRange.ParsePrint` | src/utils.rs:97-114 | exactly the numbers of 64 bits survive being printed and parsed |
| `ByteRange.ParserFollowsTheStandard` | src/utils.rs:81-120 | the ends of a range mean what the standard says, exactly unless a plus sign or more than 64 bits makes the difference |
| `ByteRange.FieldWithoutOneRange` | src/utils.rs:81-96 | another unit is ignored; bytes in any letter case with several ranges or none, or no unit, is refused |
| `ByteRange.FieldWithOneRange` | src/utils.rs:81-120 | one range in bytes, with blanks around it, is what its two ends say |
| `ByteRange.PlusSignIsAccepted` | src/utils.rs:97-114 | a range with a plus sign that the standard does not have |
| `ByteRange.LongLastPositionIsRefused` | src/utils.rs:97-114 | a range whose last position exceeds 64 bits, refused against the standard |
| `ByteRange.StreamBody` | src/server/download.rs:216-269 | for every pattern of short reads the chunks are the bytes from the start; complete exactly when all of them are |
| `ByteRange.SelectRange` | src/server/download.rs:148-170 | only a single field can be satisfiable |
| `ByteRange.SendFile` | src/server/download.rs:112-214 | the status for every list of Range fields; status, Content-Range, Content-Length and body agree, and a broken body is a strict prefix |
| `Utf8Text.BoundarySplits` | src/logger.rs:55-66 | cutting text at a character boundary leaves text on both sides |
| `Utf8Text.Utf8IsExact` | src/logger.rs:45-70 | text is exactly the encodings of scalar values |
| `Utf8Text.BoundaryIsExact` | src/logger.rs:55-66 | boundaries are exactly where text can be cut into two texts |
| `LogLine.TruncateLogEntry` | src/logger.rs:396-408 | text of at most 16384 bytes, cut at the last boundary before the suffix |
| `LogLine.TruncationIsLatest` | src/logger.rs:396-408 | what is kept of a long entry: up to its last boundary within 16370 bytes, at most three fewer, and the mark |
| `LogLine.BoundedLogLine.PushStr` | src/logger.rs:45-70 | the line stays text of at most 16384 bytes and follows its specification |
| `LogLine.OverflowIsTruncation` | src/logger.rs:54-69 | the overflowing push agrees with truncation exactly when nothing is refilled |
| `LogLine.LineIsTruncatedConcatenation` | src/logger.rs:45-70 | over all pieces: the concatenation, or its truncation exactly unless freed bytes are refilled |
| `LogLine.RefillHappens` | src/logger.rs:54-69 | a line where they differ |
| `UriCodec.SplitJoin` | src/utils.rs:12-17 | splitting undoes joining |
| `UriCodec.JoinSplit` | src/utils.rs:12-17 | joining undoes splitting |
| `UriCodec.EncodedByte` | src/utils.rs:6-17 | exactly which bytes are left as they are, and how the others are written |
| `UriCodec.HexDigits` | src/utils.rs:19-23 | both letter cases of a hexadecimal digit decode alike |
| `UriCodec.DecodedByte` | src/utils.rs:19-23 | a percent sign without two hexadecimal digits stands for itself |
| `UriCodec.UriRoundTrip` | src/utils.rs:12-23 | decoding undoes encoding for all text |
| `UriCodec.EncodingIsInjective` | src/utils.rs:12-17 | different texts have different encodings |
| `PathPolicy.ParseRouteLoop` | src/server/path_policy.rs:73-103 | the component loop computes the route of the specification |
| `PathPolicy.RouteBySpelling` | src/server/path_policy.rs:73-103 | what every spelling is routed to, and every reason to refuse it |
| `PathPolicy.NormalPartsByPart` | src/server/path_policy.rs:79-88 | empty parts and dots are skipped, names kept in order, anything else refuses the path |
| `PathPolicy.RouteStaysBelowRoot` | src/server/path_policy.rs:73-152 | an accepted route consists of real names, so its path is the root and these names below it |
| `PathPolicy.ParseBrowserTarget` | src/server/path_policy.rs:109-134 | exactly the paths in normal form outside the reserved names, resolved component by component |
| `PathPolicy.CanonicalSpellingIsAccepted` | src/server/path_policy.rs:73-103 | the canonical spelling of any list of names is routed to those names |
| `PathPolicy.BrowserTargetIsRouted` | src/server/path_policy.rs:73-152 | every browser target, once encoded, is routed to the same rooted path |
| `PathPolicy.ReservedRouteHasOneSpelling` | src/server/path_policy.rs:91-103 | every accepted route has its canonical spelling, and a reserved one has no other |

## Left out

- HTTP plumbing, headers, conditional requests, problem rendering, access logs, the login page and embedded assets: tables and library calls.
- Raw system calls: only their outcomes (renamed, missing, failed, unknown) appear.
- SQLite schema, SQL text and the store actor: store calls are atomic row transitions that may fail or lose their reply.
- Hashing, cursors, identifiers, password and token checks: opaque values.
- Upload transfer and commit, snapshots of listings, and the recursive purge of a directory tree: a purge destroys the pinned object in one step.
- Writers outside the server: a path changes its meaning only through a lease holder (any change at all), a target name only through the modelled steps, and the scanned tree and the file system of a key resolution stand still.
- Changes of more than one entry at once in the tree with links: a directory moved to another parent, and permissions on the way; the lease protocol itself admits any change.
- Publishing in the DELETE protocol is always durable and covers all earlier changes: a publish that is not synced, or fails, is not a step of the model.
- Machine-word wrap-around of epochs, revisions and waiter ids: unbounded naturals.
- In the DELETE protocol the reconciler leases only the target, not also the trash path; an object is one directory entry, and several directories are not modelled.
- Purging of trash without a row by the maintenance scan is not a step of the DELETE protocol; what the scan may schedule is part of `MaintenanceScan`.
- The choice of the due row in the store and the times at which rows become due again: the worker may be handed any Ready row.
- Removal of an empty upload staging directory at the end of a scan, and I/O errors inside the scanned tree, which make the scan skip the rest of a directory.
- The natural order of display names: a parameter of which only the total preorder is used.
- CLI and configuration checks, signal handling, accept backoff and the browser client.
