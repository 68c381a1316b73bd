# Verified core of a backup repository

A Dafny model of the parts of a deduplicating backup program on which the safety of stored
data rests, with proofs of what they promise.  The repository is a set of pack files that hold
blobs, index files that say which blob is in which pack, trees and snapshots that refer to
blobs, and lock files.

| Files | What they model |
|---|---|
| `Repository`, `Sorting` | handles, index entries, sums over the index; sorting by a comparison |
| `PruneSelection`, `SelectionLaws`, `PruneDecision`, `PrunePlanning` | planning a prune: counting copies, picking one of each, classifying packs, choosing what to repack |
| `PlanLaws`, `PruneTolerance`, `PruneExamples` | what a plan does with each pack, said without the functions of the plan; when planning honours the tolerated amount of unused bytes; two repositories with the plans they get |
| `Repack` | the concurrent workers that repack, as a step system |
| `IndexFiles`, `IndexRewrite` | packs and index files on a disk whose every state is recorded; rewriting the index |
| `PruneExecute`, `PruneSafety` | carrying out a plan on that disk; planning and executing together |
| `LockProtocol`, `Lock`, `LockMonitor`, `LockedWork`, `SharedLocks` | locking as a step system over a store of lock files; the methods of a lock, each access of which is one step of that system; the pair of goroutines that keep a lock alive; many processes with all of this together; locks that do not exclude each other |
| `Filter`, `FilterList` | patterns with the recursive wildcard, lists with negation, pruning of directories |
| `Trees`, `TreeWalk`, `Checker`, `CheckedPrune` | trees, streaming them, finding used blobs, checking a repository; a check followed by a prune |
| `SnapshotDiff`, `DiffReach` | comparing two snapshots without descending into what they share; that what it collects is what snapshots use |
| `FileSaver` | saving a file with concurrent callbacks and a counter |
| `PackStream` | reading some blobs of a pack with few requests |
| `BlobCache`, `SingleFlight` | the cache bounded in bytes; computing a missing blob once |
| `ExtendedAttributes` | the FILE_FULL_EA_INFORMATION codec, section 2.4.15 of [MS-FSCC] |
| `FuseRead` | reading a file of a mounted snapshot |

Concurrent code is a step system: a state, the steps that are possible in it, and lemmas about
all runs.  Sequential code that changes things is a method with loops, or a class; a
specification function says what it computes, and the lemmas are about that function.

## Findings

These are places where the code does not do what one might expect of it.  Each has a member that
shows the case, and one that says when the code does what is expected.

* A used blob whose copies are in a pack to be repacked and in an indexed pack that is missing
  is not kept, because a copy in a missing pack counts as a copy elsewhere
  (`internal/repository/prune.go:126-133`).  Planning the repository of
  `PruneExamples.CopyInMissingPackLosesBlob` returns such a plan; `PrunePlanning.SurvivesIff` says
  which blobs survive.
* The unused bytes that remain are computed by subtracting also the bytes of copies that were
  not picked.  The unsigned difference can wrap around, and the tolerated amount of unused
  bytes then does not count as reached (`internal/repository/prune.go:418-421` and `478-495`).
  Planning the repository of `PruneExamples.ToleranceMissedByWrapAround` repacks a pack although
  the tolerance is reached without that.  `PruneTolerance.PlanHonoursToleranceIff` says exactly
  when the plan is the one that was meant; without copies left over it always is
  (`PruneTolerance.NoCopiesNothingOverlooked`).
* When index files that list the same pack disagree about its blobs, rewriting the index believes
  the file that happens to be processed first
  (`internal/repository/index/master_index.go:415-444`), and a blob can be lost:
  `IndexRewrite.DisagreementLosesBlob` gives an index before and after.
  `IndexRewrite.FoundInEveryOrderIff` is the exact condition on the index: a blob outlasts every
  order exactly if some packs vouch for it together, that is, every index file that lists one
  of them says of one of them that the blob is in it.
* The documentation says that the recursive wildcard matches an arbitrary number of directories
  (`internal/filter/filter.go:100-102`).  With two of them a match can be missed, because each
  further one counts as a component when the first one is expanded
  (`internal/filter/filter.go:156`).  `Filter.TwoWildcardsMiss` is a case.
  `Filter.CompleteIffOneWildcard` is the condition on the pattern: whatever its other components
  are, as long as some path fits them, it is matched as it is meant exactly if it has at most one
  recursive wildcard.  `Filter.MatchFindsExactly` says what is matched otherwise.
* A periodic refresh that is in flight when the lock monitor fires can make both goroutines wait
  for each other forever, and the process works on with a stale lock
  (`internal/repository/lock.go:173-179` and `226-234`).  `LockMonitor.SlowRefreshGetsStuck` is
  such a run with a refresh of 150 seconds; `LockMonitor.CanGetStuck` has one for every bound on
  refreshes and polls, however small.  `LockMonitor.StuckForever` and `LockMonitor.StuckGoesStale`
  say what follows, `LockMonitor.FreshWhenQuiet` and `LockMonitor.FreshUnlessStuck` what holds
  otherwise.
* When a name is a directory in one snapshot and something else in the other, the blobs below the
  directory are not counted as removed or added (`cmd/restic/cmd_diff.go:299-305`).
  `SnapshotDiff.SwitchHidesBlobs` is a case, `SnapshotDiff.RemovedIsDifferenceIff` the exact
  condition.
* When the computation of a blob fails, all callers that waited for it compute it at the same
  time (`internal/bloblru/cache.go:127-136`).  `SingleFlight.FailureStartsAll` is such a run for
  any number of callers, `SingleFlight.EachCallComputes` counts the computations, and
  `SingleFlight.ComputedAtMostOnce` says when there is one only.

## Assumptions

* Ids of files and blobs are abstract; the id of a new file is one that was never used.  The id
  of a chunk is not the null id.
* Listing, creating and removing a file are atomic.  Clocks of all processes agree.
* In `LockProtocol` and `Lock` nothing bounds how long a refresh takes.  Results that would fail
  when a periodic refresh replaces a lock that is stale by then say so: the process must not be in
  `late`.  In `LockedWork` obtaining a lock and each refresh take at most `d` and polls are at
  most `p` apart, with d + p below one and a half refresh intervals, and that excludes late ones.
* Blobs that repacking saved are in an index file once the uploads are flushed.
* The end-to-end theorem on prune (`PruneSafety.Prune`) needs of each plan that planning may
  return that the used blobs are found in the beginning, and that packs that stay vouch for
  those that are not repacked (`Recoverable`); `PruneSafety.RecoverableIff` shows that this is
  exact.  It follows if no used blob is indexed in a missing pack, listed packs hold the used
  blobs the index says they hold, since planning does not read packs, and index files that list
  the same pack agree on them (`PruneSafety.OrderlyIsRecoverable`).  A check without findings
  shows all of this but the contents of packs (`CheckedPrune.CheckAndPrune`).
* Trees are named by their content, so that none is below itself.

## Model

| member | source | states |
|---|---|---|
| PruneSelection.CountCopies | internal/repository/prune.go:155-171 | the counter of each used blob is the number of its index entries, or 255 if there are more |
| PruneSelection.PackSizes | internal/repository/pack/pack.go:392-407 | the size of every indexed pack is its header, with or without the lengths of its blobs |
| PruneSelection.ClassifyEntries | internal/repository/prune.go:205-250 | after the second pass every pack and the statistics count a blob as used if it is listed once and as duplicate if more often |
| PruneSelection.SelectCopies | internal/repository/prune.go:261-306 | after the third pass every counter is 1, and packs and statistics are those of the selection function; no subtraction goes below zero |
| PruneSelection.SelectStep | internal/repository/prune.go:263-302 | one entry of the third pass keeps counters, packs and statistics in step with the selection |
| PruneSelection.PackInfoFromIndex | internal/repository/prune.go:151-317 | fails exactly if a used blob is not indexed; otherwise exactly one entry of each used blob is counted as used, every counter is 1 and the panic is unreachable |
| PruneSelection.OneCopySelected | internal/repository/prune.go:255-314 | for every order and any number of copies each used blob has exactly one entry counted as used, and no other blob has one |
| PruneSelection.PickedSoFar | internal/repository/prune.go:263-302 | at every point of the pass at most one copy is picked, and while none is, fewer copies were seen than the saturated counter says |
| PruneSelection.CountStep | internal/repository/prune.go:265-299 | one entry changes the counter as the code does: to 1 when a copy is picked, otherwise down by one with 0 in place of 1 |
| PruneSelection.DuplicatePackIsKept | internal/repository/prune.go:275-278 | every blob of a pack of duplicates only, as an interrupted prune leaves it, is picked by the time the pass is past its entry there |
| PruneSelection.StatsConserved | internal/repository/prune.go:221-244 | used, duplicate and unused bytes add up to the lengths of all entries, and so do the numbers |
| PruneSelection.PackSizeIndependentOfMarks | internal/repository/prune.go:198-249 | used and unused size of a pack add up to its size by the index, whichever copies are picked |
| SelectionLaws.OneEntryEach | internal/repository/prune.go:255-314 | entry by entry: each used blob has exactly one marked entry, and no other blob has one |
| SelectionLaws.MarkedIff | internal/repository/prune.go:263-302 | an entry is marked exactly if its blob is used and listed once, or used, listed more often and not marked before, and its pack has a marked entry or only duplicates, or it is the last one up to 255 |
| SelectionLaws.PackInfoIs | internal/repository/prune.go:198-249 | numbers and bytes of marked and other entries of a pack, with a header of 36 bytes and 37 or 41 per entry, its type, invalid exactly if mixed, and whether a blob is not compressed |
| SelectionLaws.StatsAre | internal/repository/prune.go:205-306 | the statistics: marked entries count as used, other entries of used blobs as duplicate, entries of other blobs as unused, in numbers and in bytes |
| PruneDecision.BeforeIsWeakOrder | internal/repository/prune.go:450-464 | the comparison of repack candidates is a strict weak order on packs whose used size is positive |
| PruneDecision.ZeroUsedSizeBreaksOrder | internal/repository/prune.go:463 | with a used size of zero it would not be transitive |
| PruneDecision.ProductsFit | internal/repository/prune.go:447-448 | products of sizes below 2^32 are exact in 64 bits |
| PruneDecision.RepackSizeLimited | internal/repository/prune.go:480-500 | nothing is repacked or fewer bytes than the limit |
| PruneDecision.WhyCandidatesAreKept | internal/repository/prune.go:481-499 | a candidate is kept only if the repack size would be reached, or, for a data pack that need not be compressed, if it is large enough and the tolerance is reached |
| PruneDecision.ChosenIffTaken | internal/repository/prune.go:480-500 | a candidate is repacked exactly if it is taken when its turn comes |
| PruneDecision.ChoicesCounted | internal/repository/prune.go:486-498 | every candidate is either repacked or kept |
| PruneDecision.ClassifyPacks | internal/repository/prune.go:337-404 | fails exactly if a needed pack has the wrong size, and names one; otherwise the sets, the candidates and each counter of used, unused, partly used, unreferenced and kept packs are those of the listed packs |
| PruneDecision.ForgetMissing | internal/repository/prune.go:413-421 | missing packs without used blobs are forgotten and their blobs count as removed, the others are needed |
| PruneDecision.ChooseRepack | internal/repository/prune.go:450-500 | the candidates are sorted and each is repacked or kept as the limits say |
| PruneDecision.DecidePackAction | internal/repository/prune.go:319-516 | the errors occur exactly when a needed pack has the wrong size or is missing, and name such packs; otherwise the plan and every one of its counters are as they should be |
| PruneDecision.PlanPartitions | internal/repository/prune.go:338-421 | the packs to remove first, to remove, to repack and to forget are disjoint |
| PruneDecision.PlanConserves | internal/repository/prune.go:357-399 | used, unused and partly used packs, and kept, repacked and removed packs, each add up to the packs that are indexed and listed; fewer bytes are repacked than the limit, if any; removed bytes and blobs are at most unused and duplicate ones |
| PruneDecision.RemovalBounded | internal/repository/prune.go:381-418 | the unused bytes and blobs of any packs are at most the unused and duplicate ones of all |
| PlanLaws.FateOfPack | internal/repository/prune.go:376-443 | a pack is removed exactly if it has no used blob; a needed one is a candidate for repacking unless it is whole or data packs are exempt; a whole one exactly if it is below the target size and at least ten such packs are listed; version, type, flags and target size are written out |
| PlanLaws.RepackedIff | internal/repository/prune.go:478-500 | a candidate is repacked exactly if the bytes of those repacked before leave room, and it is not a data pack, has to be compressed, is below the target size, or too many unused bytes are left by their unsigned difference |
| PlanLaws.OrderOfCandidates | internal/repository/prune.go:450-464 | packs with trees or mixed types come first, then those below the target size, then by unused per used bytes |
| PlanLaws.PackCounts | internal/repository/prune.go:357-364 | the counters are the numbers of listed packs without used, without unused, and with both kinds of blobs, and of those not indexed |
| PrunePlanning.FilterKeepBlobs | internal/repository/prune.go:126-142 | the blobs to keep are the used ones all of whose copies are in packs that go or are repacked |
| PrunePlanning.PlanPrune | internal/repository/prune.go:94-149 | the order and the exact causes of its errors; a plan picks one copy of each blob, is the one decided on for the sorted candidates under the limits, and keeps the right blobs |
| PrunePlanning.SurvivesIff | internal/repository/prune.go:126-142 | a used blob survives exactly if a copy stays where it is or none of its copies is in a missing pack |
| PrunePlanning.NothingMissingNothingLost | internal/repository/prune.go:94-149 | if no used blob is indexed in a missing pack, every used blob survives |
| PrunePlanning.KeepBlobsAreInRepackedPacks | internal/repository/prune.go:126-142 | each blob to keep is in a repacked pack and in no pack that stays |
| PruneTolerance.ChoosesAsMeantIff | internal/repository/prune.go:480-500 | the loop chooses the same packs as with exact differences exactly if no large candidate comes up that need not be repacked while the exact difference is below the tolerance and the wrapped one is not |
| PruneTolerance.PlanHonoursToleranceIff | internal/repository/prune.go:478-500 | for every plan: it repacks what was meant exactly if no candidate is overlooked in this way |
| PruneTolerance.NoCopiesNothingOverlooked | internal/repository/prune.go:478-500 | if no copies are left besides the picked ones, it repacks what was meant, for all options |
| PruneExamples.LostPlanDecided | internal/repository/prune.go:319-516 | of a repository with a missing pack: which plan is decided on, in whatever order the candidates are |
| PruneExamples.CopyInMissingPackLosesBlob | internal/repository/prune.go:94-149 | planning that repository succeeds, repacks the pack with the only remaining copy of a used blob, and keeps no blob of it |
| PruneExamples.WrapPlanDecided | internal/repository/prune.go:319-516 | of a repository with copies: ten unused bytes are left, twenty are tolerated, and a pack that is large enough is repacked although with exact differences none would be |
| PruneExamples.ToleranceMissedByWrapAround | internal/repository/prune.go:94-149 | planning that repository returns this plan |
| Repack.RepackSavesExactlyOnce | internal/repository/repack.go:50-135 | in every interleaving that ends without error the saved blobs are those to keep that the packs hold, each once, and the others are left in the set |
| Repack.PartialRepackSaves | internal/repository/repack.go:78-113 | a run that stops anywhere has saved only blobs to keep, none twice |
| Repack.StepInv | internal/repository/repack.go:57-113 | every step keeps that a blob taken out of the set is saved or being saved by one worker, and any other is still to come |
| Repack.StepsEnd | internal/repository/repack.go:57-113 | every step leaves less to do, so every run ends |
| Repack.NeverStuck | internal/repository/repack.go:122-124 | with a worker there is always a step until all is done |
| PruneExecute.DeletePacks | internal/repository/prune.go:626-641 | deletes the given packs, reports those that cannot be deleted, leaves all others, and keeps every state safe |
| PruneExecute.RunRepack | internal/repository/repack.go:50-135 | under every schedule, ends in error or has saved what is to be saved |
| PruneExecute.UploadPack | internal/repository/repack.go:98-102 | a new pack and its index file make its blobs found, disagree with no other index file, and keep every state safe |
| IndexRewrite.RewriteIndex | internal/repository/index/master_index.go:324-490 | every state on the way is safe for blobs that packs vouch for; in the end the index says of each pack that is not excluded exactly what the first file listing it said, and mentions no excluded pack |
| IndexRewrite.SaveRewritten | internal/repository/index/master_index.go:396-480 | once all new index files are saved, those that are not obsolete say exactly what is to be said in the end |
| IndexRewrite.CopyIndex | internal/repository/index/master_index.go:420-431 | copying the packs not seen yet into the new index keeps what stays and what is collected equal to what the first listing of each pack said |
| IndexRewrite.RewrittenSecured | internal/repository/index/master_index.go:324-490 | with the obsolete files gone every used blob that packs vouch for is still found, and no excluded pack is mentioned |
| IndexRewrite.KeptInEveryOrderIff | internal/repository/index/master_index.go:413-446 | an entry outlasts the rewriting for every order in which the files are loaded exactly if all files that list its pack have it |
| IndexRewrite.FoundOnlyIfKept | internal/repository/index/master_index.go:413-446 | for a given order a blob is found afterwards exactly if the first file to list some pack that is not excluded and holds it has its entry |
| IndexRewrite.FoundInEveryOrderIff | internal/repository/index/master_index.go:413-446 | a blob outlasts the rewriting for every order in which the files are loaded exactly if some packs that are not excluded and hold it vouch for it: every index file that lists one of them has its entry for one of them |
| IndexRewrite.LosingOrder | internal/repository/index/master_index.go:413-446 | for a blob that no packs vouch for, an order in which it is lost |
| IndexRewrite.VouchedWithoutAgreement | internal/repository/index/master_index.go:413-446 | a blob that packs vouch for though no entry of it is agreed on |
| IndexRewrite.DisagreementLosesBlob | internal/repository/index/master_index.go:415-444 | two index files that disagree, and the index that rewriting them leaves in one order: a blob is found before and not after |
| PruneExecute.PrunePlan.Execute | internal/repository/prune.go:528-622 | every state of the disk, however far the run gets, has every used blob; the internal error is unreachable; in the end blobs are found without the packs that went, which are gone unless they could not be deleted |
| PruneExecute.PrunePlan.DoRepack | internal/repository/prune.go:555-580 | all blobs to keep are saved and found outside the packs that go |
| PruneSafety.PlannedIsReadyIff | internal/repository/prune.go:94-149 | a plan meets what its execution needs exactly if it leaves the used blobs recoverable |
| PruneSafety.RecoverableIff | internal/repository/prune.go:528-622 | a plan leaves the used blobs recoverable exactly if those that are not repacked are found after rewriting the index without the packs that go, in every order |
| PruneSafety.OrderlyIsRecoverable | internal/repository/prune.go:94-149 | if no used blob is indexed in a missing pack or one that lacks it and index files agree on the used blobs, every plan leaves them recoverable |
| PruneSafety.Prune | internal/repository/prune.go:94-622 | planning and executing together, if every plan that may be returned leaves the used blobs recoverable: in every state of the disk each used blob is listed by an index file in a pack that is there and holds it; in the end the packs not needed are gone unless they could not be deleted; why planning may fail |
| LockProtocol.MutualExclusion | internal/restic/lock.go:112-316 | in every interleaving of any number of processes that lock, refresh and unlock, at any speed, two holders at the same time are both not exclusive, if nobody removes locks of others |
| LockProtocol.ContinuousHoldersExclude | internal/restic/lock.go:112-214 | also with stale locks being removed, two holders that always had a file in the store are both not exclusive |
| LockProtocol.NoConflictWhileFresh | internal/restic/lock.go:112-316 | two holders whose locks are not stale are both not exclusive, unless one of them once replaced a stale lock by a periodic refresh |
| SharedLocks.AnyNumberShares | internal/restic/lock.go:167-214 | for any number of processes a run in which all hold locks that are not exclusive at the same time, and one in which a single process holds an exclusive one |
| LockProtocol.FreshLockNeverLost | internal/restic/lock.go:243-252 | a process whose lock is not stale was never without a file, whatever is removed as stale, with the same exception |
| LockProtocol.RemovableIff | internal/restic/lock.go:243-252 | others can remove a file exactly while it is in the store and older than 30 minutes |
| LockProtocol.StaleRefreshIsContinuous | internal/restic/lock.go:319-366 | after a successful stale refresh that ends before the new file is stale, the process always had a file, has the new one and not the old one, and nobody conflicts with it |
| LockProtocol.NothingLeftBehind | internal/restic/lock.go:140-144 | after a failed check, a failed stale refresh or an unlock no file is left but those that could not be removed |
| LockProtocol.ProcStepInv | internal/restic/lock.go:112-366 | every step of a process keeps that of two conflicting processes with a file one is still going to load the other's |
| LockProtocol.PassiveStepInv | internal/restic/lock.go:423-444 | so does removing stale locks, and time |
| Lock.Lock.CheckForOtherLocks | internal/restic/lock.go:167-214 | passes if all listed files were loaded and neither they nor this lock are exclusive, or there are none; fails with a listed file where one of both is exclusive, or after three tries in each of which a listed file could not be loaded; while others act in between |
| Lock.Lock.LoadAll | internal/restic/lock.go:177-199 | loads each listed file not checked before until one conflicts or cannot be loaded; what was loaded is harmless and stays checked |
| Lock.Lock.LoadOne | internal/restic/lock.go:184-199 | one file is loaded, and it is a conflict exactly if this lock or that one is exclusive |
| Lock.NewLock | internal/restic/lock.go:112-148 | a process that obtains a lock which is not stale yet, or always had a file, holds it at the same time as another process that always had one only if neither is exclusive; without a lock no file is left but those that could not be removed |
| Lock.Lock.Refresh | internal/restic/lock.go:295-316 | the lock stays held, whatever its age; on success the new file has the current time and the old one is gone; the refresh counts as late only if the old lock got stale before |
| Lock.Lock.RefreshStaleLock | internal/restic/lock.go:319-366 | on success, if the new lock is not stale yet, the process always had a file in the store, has the new one and no conflicting holder; on failure the lock is given up |
| Lock.Lock.Unlock | internal/restic/lock.go:227-236 | the process is done, its lock file is gone if it could be removed, and no other file of it is left |
| LockMonitor.FreshWhenQuiet | internal/repository/lock.go:122-265 | if a refresh and a poll take less than one and a half intervals and no periodic refresh is in flight when the monitor fires, a working process has a lock that is not stale |
| LockMonitor.FreshUnlessStuck | internal/repository/lock.go:122-265 | without that, and with room for two refreshes, the lock is not stale or the goroutines are stuck |
| LockMonitor.StepInv | internal/repository/lock.go:143-245 | every step keeps what each goroutine knows of the last refresh within bounds of the file's time |
| LockMonitor.StuckOnlyThen | internal/repository/lock.go:174-234 | only a periodic refresh that succeeds while the request is pending, or is not told yet when the monitor fires, gets both stuck |
| LockMonitor.RefreshesNeedTicks | internal/repository/lock.go:125-166 | in every run each periodic refresh needs a tick of its own, and ticks are five minutes apart |
| LockMonitor.RefreshesBegin | internal/repository/lock.go:164-224 | a stale refresh begins only 1350 seconds after the last refresh that the monitor knows of, with the backend frozen; a periodic one only within 1350 seconds of the last that the refresher knows of; each succeeds only once its file was created |
| LockMonitor.RefreshMayTake | internal/repository/lock.go:133-181 | a refresh, and telling the monitor, may take any time up to the bound |
| LockMonitor.StuckForever | internal/repository/lock.go:177-234 | once stuck, only cancelling from outside ends it |
| LockMonitor.StuckGoesStale | internal/repository/lock.go:177-234 | a stuck process goes on working with a lock of any age |
| LockMonitor.CanGetStuck | internal/repository/lock.go:177-234 | for all bounds on refreshes and polls, however small, a run of the ticker, the refresher and the monitor gets there |
| LockMonitor.SlowRefreshGetsStuck | internal/repository/lock.go:177-234 | with refreshes of 150 seconds a run in which three refreshes fail and the fourth is in flight when the monitor fires |
| LockedWork.WorkersDoNotConflict | internal/repository/lock.go:57-265 | any number of processes with their goroutines, and others that remove stale locks: if refresh and poll take less than one and a half intervals and no periodic refresh is in flight when a monitor fires, two processes that work at the same time are both not exclusive |
| LockedWork.WorksWithFreshLock | internal/repository/lock.go:122-265 | a process that works holds its lock, whose file is in the store and not stale |
| LockedWork.EventKeeps | internal/repository/lock.go:122-265 | every step keeps the goroutines of each process in step with its lock files and no working process late |
| LockedWork.GoroutinesGoOn | internal/repository/lock.go:122-265 | whatever refresher and monitor may do next is possible for the lock file as well |
| LockedWork.StaleRefreshGoesOn | internal/restic/lock.go:319-366 | so is each next step of a stale refresh |
| Filter.HasDoubleWildcard | internal/filter/filter.go:140-148 | finds the first recursive wildcard, if any |
| Filter.MatchWindow | internal/filter/filter.go:178-220 | without recursive wildcard, matches exactly if the components fit somewhere, or at the root for an absolute pattern |
| Filter.ExpandInPlace | internal/filter/filter.go:156-163 | in each round the buffer holds the pattern with its first recursive wildcard expanded |
| Filter.Match | internal/filter/filter.go:150-221 | terminates, and matches exactly if an expansion within the limits fits; an error has a malformed component as its cause |
| Filter.MatchFirst | internal/filter/filter.go:151-175 | expanding wildcard by wildcard tries the same expansions as expanding all at once |
| Filter.MatchSound | internal/filter/filter.go:150-221 | what is matched fits the meaning of the pattern, for any number of recursive wildcards |
| Filter.MatchExact | internal/filter/filter.go:150-221 | with at most one recursive wildcard a path is matched exactly if it fits the meaning |
| Filter.MatchFindsExactly | internal/filter/filter.go:156 | the expansions tried are those with which the pattern, each further wildcard counted as one component, fits into the path at every stage |
| Filter.MatchFindsLongExpansions | internal/filter/filter.go:156 | what fits with all wildcards but the first expanded to something is matched |
| Filter.ManyWildcardsMiss | internal/filter/filter.go:156 | whatever the pattern, with two or more recursive wildcards each path that its other components fit exactly is meant and missed |
| Filter.CompleteIffOneWildcard | internal/filter/filter.go:150-221 | a pattern whose other components fit some path is matched against all paths as it is meant exactly if it has at most one recursive wildcard |
| Filter.TwoWildcardsMiss | internal/filter/filter.go:156 | a/`**`/b/`**`/c does not match a/x/b/c |
| Filter.ExactIsExpansion | internal/filter/filter.go:100-102 | the meaning of a pattern, defined on its own, is that some expansion fits exactly |
| FilterList.ChildMatch | internal/filter/filter.go:118-138 | something below a path may match exactly if the path fits the beginning of the pattern, up to its first recursive wildcard |
| FilterList.ChildMatchSound | internal/filter/filter.go:118-138 | if a path below matches, its directory says that it may |
| FilterList.ChildMayMatchIff | internal/filter/filter.go:118-138 | something below a path may match unless an absolute pattern differs from the path in a component before its first recursive wildcard |
| FilterList.MatchMonotone | internal/filter/filter.go:187-218 | what matches a path matches everything below it |
| FilterList.List | internal/filter/filter.go:283-329 | the result is that of going through all patterns, although it stops early without negations |
| FilterList.LastMatchDecides | internal/filter/filter.go:280-326 | a path is matched exactly if some pattern matches and no later negated one does |
| FilterList.LastChildMatchDecides | internal/filter/filter.go:283-326 | something below a path may match exactly if some pattern says so and no later negated one matches the path |
| FilterList.PruningIsComplete | internal/filter/filter.go:283-329 | if a path is matched, each directory above it says that something below may match, negations included |
| FilterList.WalkReachesEveryMatch | internal/filter/filter.go:275-329 | so no directory on the way to a match is skipped |
| SnapshotDiff.AddBlobs | cmd/restic/cmd_diff.go:119-141 | adds the blob at each position of the content list of a file, or the tree of a directory, or nothing |
| SnapshotDiff.CollectDir | cmd/restic/cmd_diff.go:199-218 | adds exactly the blobs below a tree, and fails exactly if that tree does not load |
| SnapshotDiff.NodesByName | cmd/restic/cmd_diff.go:220-232 | the names are those of the nodes, and each leads to the last node of that name |
| SnapshotDiff.DiffTree | cmd/restic/cmd_diff.go:243-343 | what is added to the three sets, for any two trees |
| SnapshotDiff.RunDiff | cmd/restic/cmd_diff.go:414-437 | the blobs counted as removed and as added |
| SnapshotDiff.NothingElseMissing | cmd/restic/cmd_diff.go:243-343 | what is collected for a tree and what is skipped make up all blobs below it |
| SnapshotDiff.SharedIsSymmetric | cmd/restic/cmd_diff.go:299-305 | what is common does not depend on the direction of the comparison |
| SnapshotDiff.RemovedIsDifferenceIff | cmd/restic/cmd_diff.go:435-437 | the counted blobs are the set difference exactly if skipped blobs are seen elsewhere |
| SnapshotDiff.SharingAwareDiffIsDifference | cmd/restic/cmd_diff.go:243-437 | with all trees loading, unique names and no name that turns from directory into something else, the counted blobs are the set difference, both ways |
| SnapshotDiff.SwitchHidesBlobs | cmd/restic/cmd_diff.go:299-305 | two trees for which they are not |
| SnapshotDiff.UpdateBlobs | cmd/restic/cmd_diff.go:153-170 | counts blobs by type and adds their sizes, in any order |
| DiffReach.WholeIsUsed | cmd/restic/cmd_diff.go:199-218 | a tree with the blobs collected below it is what a snapshot with this tree uses: the trees reachable from it and the contents of their files |
| TreeWalk.StreamTrees | internal/restic/tree_stream.go:48-197 | every tree reachable from the roots without passing a marked one is delivered exactly once, and marked |
| TreeWalk.TreeStream.TakeNext | internal/restic/tree_stream.go:69-81 | takes the tree added last, marks it, and chooses it exactly if it was not marked |
| TreeWalk.TreeStream.Receive | internal/restic/tree_stream.go:102-142 | the loaded tree is passed on, and its subtrees except null ids are added to what is to be done, last one first |
| TreeWalk.TreeStream.Run | internal/restic/tree_stream.go:68-149 | ends in any order of events, with nothing left to do |
| TreeWalk.StreamIsComplete | internal/restic/tree_stream.go:48-150 | everything reachable is delivered or was marked |
| TreeWalk.FindUsedBlobs | internal/restic/find.go:25-60 | succeeds exactly if all reachable trees load; then the set has grown by exactly the reachable trees and the blobs at all positions of the content lists of their files |
| Checker.CheckTree | internal/checker/checker.go:375-440 | lists the faults of a tree and nothing else |
| Checker.CheckContent | internal/checker/checker.go:380-398 | lists a missing content list, and each position of it with a null id or a blob not in the index |
| Checker.Structure | internal/checker/checker.go:332-373 | reports exactly the reachable trees that do not load or have faults; without findings the collected references are the used blobs |
| Checker.UnusedBlobs | internal/checker/checker.go:443-463 | lists exactly the indexed blobs that are not referenced |
| Checker.CheckPacks | internal/checker/checker.go:204-260 | lists exactly the missing packs, those of the wrong size and the orphaned ones |
| Checker.SoundMeansIndexed | internal/checker/checker.go:329-331 | without findings all trees load and every used blob is in the index |
| Checker.CleanPacksFit | internal/repository/prune.go:347-354 | if no pack is missing or of the wrong size, planning has no pack to complain about or to forget |
| Checker.CheckAndPlan | internal/checker/checker.go:201-440 | after a check without findings, but for orphaned packs, planning a prune succeeds and forgets no pack |
| CheckedPrune.DuplicatePacks | internal/checker/checker.go:114-173 | hints exactly at the packs that more than one index file lists |
| CheckedPrune.CheckAndPrune | internal/repository/prune.go:94-622 | a check, and a prune if it finds nothing but orphaned packs: from the first state of the disk to the last every blob that the snapshots need can be found; planning fails only for its options |
| FileSaver.FinishesAtMostOnce | internal/archiver/file_saver.go:127-160 | in every interleaving a file is reported at most once and nothing panics |
| FileSaver.NotBeforeReadingEnds | internal/archiver/file_saver.go:84-87 | a saved file is reported after its reading, an error without the reading being reported |
| FileSaver.SavedFileIsComplete | internal/archiver/file_saver.go:181-246 | the content has the ids of all chunks in order, the size is the sum of their lengths, and the statistics cover the new blobs |
| FileSaver.FinishesWhenAllRan | internal/archiver/file_saver.go:84-87 | once the loop has returned and all callbacks have run, the file has been reported exactly once |
| FileSaver.SavesAnyFile | internal/archiver/file_saver.go:123-246 | for all chunks and results of their callbacks a run that reads chunk by chunk and reports the saved file |
| FileSaver.FailsOnlyInTheLoop | internal/archiver/file_saver.go:146-160 | a file fails only if the loop gives up |
| FileSaver.StepKeeps | internal/archiver/file_saver.go:123-246 | every step of the loop and the callbacks keeps the counter equal to what is still to come |
| FileSaver.FileJob.CompleteBlob | internal/archiver/file_saver.go:127-144 | changes the shared variables as the step system says |
| FileSaver.FileJob.CompleteError | internal/archiver/file_saver.go:145-160 | likewise for errors |
| PackStream.Stream.StreamPack | internal/repository/repository.go:922-966 | whatever happens the callback gets a beginning of the deliveries in the order of the offsets, on success all of them; each is what the range of the blob gives after opening, decompressing exactly if compressed, and comparing the hash, or what the search for a copy gave; the causes of the errors |
| PackStream.Stream.StreamPart | internal/repository/repository.go:968-1030 | the blobs of a part are delivered one by one until the end or an error, and reading inside the part never fails |
| PackStream.PackBlobIterator.Next | internal/repository/repository.go:1102-1163 | the next blob is decoded from exactly its own range of the pack, and only with the right hash |
| PackStream.PartsAreCompact | internal/repository/repository.go:930-963 | the parts are the sorted blobs in order; a part of several blobs spans less than two packs, with no gap of more than 1 MiB |
| PackStream.SplitsOnlyWhereNeeded | internal/repository/repository.go:942-951 | no part could have been longer |
| PackStream.CallsAreInOrder | internal/repository/repository.go:1005-1027 | there is one delivery for each blob, in the order of the offsets |
| PackStream.CallsAreProper | internal/repository/repository.go:1005-1027 | no delivery has contents that neither the range of the blob nor the search for a copy gave |
| PackStream.StreamingIsPerBlob | internal/repository/repository.go:918-1163 | if requests do not fail, each blob whose own range opens, decompresses where needed and has the right hash is delivered from it, and any other as a copy |
| BlobCache.Cache.constructor | internal/bloblru/cache.go:27-45 | a new cache has all of its budget |
| BlobCache.Cache.Budget | internal/bloblru/cache.go:13-38 | what is free, the capacities of the buffers, and 96 bytes for each item, are the budget |
| BlobCache.Cache.Add | internal/bloblru/cache.go:49-78 | keeps the budget; evicts the oldest blobs, no more than needed, and returns the largest of their buffers |
| BlobCache.Cache.MakeRoom | internal/bloblru/cache.go:67-73 | the eviction loop ends with enough room |
| BlobCache.Cache.EntryLimit | internal/bloblru/cache.go:34-38 | the list's own limit of entries is never reached |
| BlobCache.Cache.Get | internal/bloblru/cache.go:80-88 | finds a blob exactly if it is there; it becomes the most recently used one and the others keep their order |
| BlobCache.EvictionsSuffice | internal/bloblru/cache.go:65-73 | evicting one item less would not have been enough |
| BlobCache.LargestIsLargest | internal/bloblru/cache.go:69-72 | the returned buffer is one of the evicted ones and at least as large as each of them |
| SingleFlight.ComputedAtMostOnce | internal/bloblru/cache.go:90-139 | in every interleaving a blob is computed at most once if that succeeds, it fits and it is not evicted |
| SingleFlight.OwnersKept | internal/bloblru/cache.go:98-116 | every entry in progress belongs to one call, and whoever waits, waits for the one of its own blob |
| SingleFlight.NoDeadlock | internal/bloblru/cache.go:106-116 | a call that cannot go on waits for one that can |
| SingleFlight.FailureStartsAll | internal/bloblru/cache.go:118-136 | for any number of calls a run in which all of them wait, the computation fails, and all compute at the same time |
| SingleFlight.EachCallComputes | internal/bloblru/cache.go:118-136 | in every interleaving, while no computation of a blob puts it into the cache, each call that is past its second look has computed it once |
| SingleFlight.WaitersCompute | internal/bloblru/cache.go:103-136 | any set of calls that waited for one that is done and left nothing in the cache can get to compute at the same time |
| ExtendedAttributes.RoundTrip | internal/fs/ea_windows.go:94-171 | decoding what was encoded gives the list back |
| ExtendedAttributes.EntryRoundTrip | internal/fs/ea_windows.go:65-153 | an entry takes its size rounded up to four bytes, is read back, and the next one begins right after it |
| ExtendedAttributes.DecodedFits | internal/fs/ea_windows.go:65-171 | whatever a buffer decodes to can be encoded and decoded again |
| ExtendedAttributes.ParseEa | internal/fs/ea_windows.go:65-90 | reading an entry leaves a shorter rest, so decoding ends |
| ExtendedAttributes.ParsedByBytes | internal/fs/ea_windows.go:65-90 | parsing fails exactly if the buffer is too short for the header or for what bytes 0 to 3 and 5 to 7 say; otherwise name, value, flags and rest are the bytes where the header says |
| ExtendedAttributes.EntryIsLaidOut | internal/fs/ea_windows.go:107-153 | each byte of an entry |
| ExtendedAttributes.DecodingIff | internal/fs/ea_windows.go:94-105 | decoding gives these attributes exactly if they can be read from the buffer one after the other |
| ExtendedAttributes.DecodeExtendedAttributes | internal/fs/ea_windows.go:94-105 | the loop decodes entry by entry; it succeeds exactly if the buffer can be read that way, byte by byte, and fails with the first invalid entry |
| ExtendedAttributes.WriteEa | internal/fs/ea_windows.go:107-153 | appends an entry laid out byte by byte: offset of the next one, flags, lengths, name, zero byte, value and padding; or nothing if a name or value is too long |
| ExtendedAttributes.EncodeExtendedAttributes | internal/fs/ea_windows.go:157-171 | fails with the first attribute that does not fit, and only then; otherwise the entries follow each other in this layout |
| FuseRead.Open | internal/fuse/file.go:69-96 | fails exactly if a blob is unknown; the sizes are cumulative and the size of the file is theirs |
| FuseRead.OpenFile.Search | internal/fuse/file.go:123-126 | finds the first entry greater than the offset |
| FuseRead.OpenFile.StartContent | internal/fuse/file.go:123-127 | the offset is in the blob found, or at or past the end of the file |
| FuseRead.OpenFile.Read | internal/fuse/file.go:110-161 | the data are the content from the offset on, cut off at the end of the file; fails exactly if a blob that the request touches does not load |
| FuseRead.ContentSplit | internal/fuse/file.go:69-96 | each blob begins in the content where the sizes before it say |

## Left out

- Command-line parsing, output, progress, JSON: not part of the behaviour proved here.
- Backends, transport, retries, caches on disk, encryption, compression, chunking, hashing: they appear as atomic operations, as functions that are parameters, or not at all.
- The packer manager and the uploader: saved blobs are taken to be in an index file after the flush; in which packs they end up is arbitrary.
- UnsafeRecovery and DryRun in Execute: the first gives up the index on purpose, the second does nothing.
- The statistic of uncompressed bytes: it does not influence any decision.
- PruneDecision.ChooseAll: sums of sizes are unbounded; only the subtraction that can go below zero is taken modulo 2^64.
- PrunePlanning.PlanPrune: the traversal of the snapshots is a parameter there; Checker.CheckAndPlan puts both together.
- IndexRewrite.RewriteIndex: index files are read back as they were written; that a file has the old format or is full is arbitrary.
- LockProtocol.FreshLockNeverLost: a lock is stale by its time only; the check whether the process on the same machine still runs is left out, as are empty lock files of interrupted uploads.
- Lock.Lock.CheckForOtherLocks: lock files are loaded one after the other, in any order; an error in listing them is left out.
- LockMonitor.FreshWhenQuiet: messages are handed over as soon as both sides are ready, and polls are not delayed.
- FilterList.List: paths and patterns are lists of components; splitting and cleaning them is left out, and matching one component is a parameter.
- SnapshotDiff.DiffTree: the printed changes, the counters of files and directories, and metadata are left out; printing a directory is collecting it.
- TreeWalk.FindUsedBlobs: the consumer runs on the finished stream, which it cannot influence; cancelling is left out.
- Checker.Structure: errors in loading snapshots are left out, the roots are given.
- FileSaver.SavedFileIsComplete: that callbacks run at all is up to the blob saver.
- PackStream.Stream.StreamPack: offsets are unbounded, and cancelling after a request is left out.
- SingleFlight.ComputedAtMostOnce: which blobs an addition evicts is arbitrary; the budget is the subject of BlobCache.
- Extended attributes are read and written by system calls that are left out.
- Goroutines (repack workers, lock refresher and monitor, file saver callbacks, callers of the cache) are steps on a state that is a value: in-place updates of shared variables appear there as new states.
- CheckedPrune.CheckAndPrune: that packs hold what the index says is an assumption, as reading pack data is left out.
- LockedWork.WorkersDoNotConflict: that no periodic refresh is in flight when a monitor fires is an assumption; no bound on refreshes can replace it (LockMonitor.CanGetStuck).
- Index loading, hints on old formats and mixed packs, and reading pack data in a check.
