# Verified model of the folder-sync core

A sync job reads one source tree and brings one or more destinations into line
with it. This project models the part of that work that can lose data, and
proves what it promises: which actions a plan holds, in which order they are
carried out, what a filter keeps out of reach, how a file is published, how
runs are started and ended, and how their outcome is reported.

The model follows the program's own structure.

| file | models |
|---|---|
| `Paths.dfy`, `Sorting.dfy` | relative paths, ancestors, depth, the three sort orders |
| `Filters.dfy`, `Resolve.dfy` | patterns, rules and chains; the chains of one job |
| `Scans.dfy` | trees and the pruned, fault-tolerant walk over them |
| `Differ.dfy`, `Planner.dfy`, `PlanMeaning.dfy`, `Partition.dfy` | what a plan is, the loops that build it, what it comes to on the trees, and splitting it back into stages |
| `Effects.dfy` | what one action can do to a tree, and what no history of a plan can do |
| `Executor.dfy`, `Gating.dfy`, `Aborts.dfy` | the executor as a state machine: stages, worker pools, cancel, abort, the delete gate |
| `LateRuns.dfy`, `Safety.dfy`, `LateSuccess.dfy`, `CopyLost.dfy` | runs whose operations land after they were reported; what holds all the same, and what exactly can be undone |
| `Reports.dfy`, `CountLost.dfy` | the execution result, filled in by the stages' loops, and a run whose count is off |
| `Termination.dfy` | that runs go on until they return, and do |
| `Shortfalls.dfy` | inputs at which the code does less than one might expect |
| `Scope.dfy` | planning from pruned listings, dropped rules |
| `Mirroring.dfy`, `MirrorRuns.dfy`, `Idempotence.dfy`, `Schedules.dfy` | what whole runs achieve |
| `Copier.dfy`, `CopyRuns.dfy`, `TempNames.dfy`, `Retry.dfy`, `Progress.dfy` | one file's publication under overlapping attempts and crashes; attempts, backoff and byte accounts; the tracker |
| `Outcomes.dfy`, `Runner.dfy` | run status; the runner's critical sections and their interleavings |
| `Mounts.dfy`, `JsonKeys.dfy`, `KeyMeaning.dfy`, `Limiter.dfy` | mount reference counts, the JSON key walk, the hook failure limiter |

Each sequential loop of the source is a method proved against a specification predicate or
function; the theorems are about that specification. Concurrent parts are state
machines whose labels are the source's atomic steps, and their theorems hold for
every sequence of labels that can happen, of any length.

## How the world is modelled

- A tree maps relative paths to directories, files (bytes and a time) and
  links. Removing fails on a directory with anything in it, renaming fails over
  a directory, and a parent has to be a directory. An operation at or beneath a
  link fails.
- The glob matcher, case folding, number parsing and the clock are parameters,
  so every theorem holds for all of them.
- An operation may succeed, fail before, in the middle of or after its effect,
  or find the source file gone.
- An operation that was reported as timed out keeps running. In the runs of
  `LateRuns` whatever was left behind may land at any later step, any number of
  times; the runs of `Executor` are those in which nothing does.
- For `Copier`, a crash ends every attempt, may undo renames, and keeps the data
  of a file only if it had been flushed. The time of a file, which is set after
  the flush, is taken to be kept whenever the later rename is: metadata survives
  in the order it was written. A random temporary suffix is taken not
  to repeat; `TempNames.TempNamesDiffer` and `TempNames.TempNameIsTargetExactly` say
  what that buys.
- Times are nanoseconds as unbounded integers; differences saturate and wrap at
  64 bits as durations do. Byte totals do not overflow.

## Where the code and its comments part

The model follows the code.

- Of source paths that fold to one name the first is still copied, although the
  comment says that none is (internal/engine/differ.go:151-163;
  `Shortfalls.FirstOfTheGroupIsCopied`).
- Two times 2^63 nanoseconds or more apart count as equal when the source is the
  older one, because negating the least duration wraps
  (internal/engine/differ.go:462-485; `Differ.SameFileExactly`).
- The trailing pass overwrites the count of files deleted while clearing
  (internal/engine/executor.go:474); `Reports.ResultTellsTheLog` says exactly
  which of the two the count is, and `CountLost.OneOfTwoIsCounted` is a run that
  deletes two files and reports one.
- A directory with anything in it is not cleared out of the way of a source
  file, and the mirror then fails (`MirrorRuns.FullDirFailsMirror`,
  `Shortfalls.AFullDirFails`).
- A clearing that timed out is not waited for, so it can land after a copy to the
  same path was reported as done and remove the file
  (`CopyLost.ReportedAndGone`); that, and a clearing of a directory made since, is
  all that can be undone (`LateSuccess.UndoneExactly`).
- A queue mark outlives a run that could not be created
  (`Runner.OrphanedExactlyByFailedCreate`, `Runner.AnOrphan`).
- Joining the wait group before publishing a run is said to keep a shutdown from
  missing it (internal/runner/runner.go:270-273); a start that has reserved its
  job and not joined yet is missed all the same, and only such a start is
  (`Runner.LateStartExactly`, `Runner.ALateStart`).
- Acquiring a target whose mount no longer responds detaches it even while
  others hold it (`Mounts.AcquireMayDetachInUse`).
- Every exit of a copy is said to take back what was reported. A chunk is counted
  before it is reported (internal/engine/copier.go:199-203), so an attempt given
  up on between the two has that chunk taken back first and reported after: the
  running total drops below zero (`Retry.DipsExactly`,
  `Retry.CountedBeforeReported`), and the tracker, which clamps, keeps the
  difference for good (`Progress.ClampCostsExactly`, `Progress.PhantomBytes`).
  What such an attempt goes on to report is never taken back
  (`Retry.NetExactly`).

## Model

| member | source | states |
|---|---|---|
| Paths.Ancestors | internal/engine/differ.go:404-413 | returns every proper ancestor of a path and nothing else, each an ancestor of the next |
| Paths.AncestorDepth | internal/engine/differ.go:522-534 | an ancestor is strictly shallower, so sorting by depth puts parents before or after all their descendants |
| Sorting.StrictUnique | internal/engine/differ.go:511-534 | two strictly sorted sequences with the same elements are equal: the order of a stage does not depend on how its elements were gathered |
| Sorting.SortSet | internal/engine/differ.go:511-518 | the sorted keys of a map are one and the same sequence whatever order the map is iterated in |
| Sorting.Sort | internal/engine/differ.go:522-534 | sorts actions with distinct paths: a strictly ordered permutation |
| Filters.Match | internal/filter/pattern.go:88-115 | decides whether a pattern selects a path, by whole path or by any component when it is not anchored, and only directories for a directory pattern |
| Filters.MatchesAncestor | internal/filter/pattern.go:122-132 | holds exactly when the pattern selects some directory above the path |
| Filters.Matches | internal/filter/chain.go:215-228 | a rule matches when one of its patterns selects the path or something above it |
| Filters.Decide | internal/filter/chain.go:138-165 | admits exactly what no exclude and, if there are includes, some include matches; names the first rule that decided, and none exactly when no rule did |
| Filters.PrunesDir | internal/filter/chain.go:173-186 | prunes exactly when some exclude matches the directory |
| Filters.RuleMatchesBeneath | internal/filter/chain.go:166-228 | a rule that matches a directory matches everything beneath it, of either kind |
| Filters.PrunedIsOutOfScope | internal/filter/chain.go:166-186 | a directory pruned by the job-wide chain is out of scope, with everything beneath it, for every chain that holds those excludes |
| Filters.RuleMatchesExactly | internal/filter/chain.go:215-228 | a rule matches a path if and only if one of its patterns selects the path itself or some directory above it |
| Filters.SelectsMeans | internal/filter/pattern.go:88-115 | an anchored pattern speaks of the whole path, another of its end from any component on, and one for directories never selects a file |
| Filters.SelectsFolded | internal/filter/pattern.go:88-115 | without case, paths that fold alike are selected alike |
| Filters.AdmitsMeans | internal/filter/chain.go:138-165 | what no include matches is out when there are any, what an exclude matches is out, and all else is in |
| Resolve.NewChain | internal/filter/chain.go:76-87 | splits the rules by direction, each side in order |
| Resolve.ResolveChains | internal/runner/filters.go:21-146 | fails exactly when a broken rule says so; otherwise a destination's chain excludes by exactly the compiled rules stored for the job or for that destination, in their order, and all chains are degraded once any rule was dropped |
| Resolve.DestinationChainMeans | internal/runner/filters.go:118-143 | a rule is in a destination's chain if and only if some stored rule of its direction compiles to it and is job-wide or that destination's own; the chain is degraded if and only if some rule was dropped |
| Resolve.PruneChainMeans | internal/runner/filters.go:118-143 | the chain that prunes the source walk holds exactly the job-wide rules |
| Resolve.FacingJoins | internal/filter/chain.go:76-87 | earlier rules come first on each side of a chain |
| Resolve.CompiledJoins | internal/runner/filters.go:118-143 | and in the order they are stored |
| Resolve.DestinationExtendsPrune | internal/runner/filters.go:118-143 | every destination's chain holds all the excludes that prune the shared source walk |
| Scans.Visit | internal/engine/scanner.go:182-256 | recording one path adds exactly that path's entry, error or prune mark, and says whether to descend |
| Scans.Scan | internal/engine/scanner.go:118-277 | reading directories in any order gives the listing that is defined path by path: everything reachable through readable, unpruned directories, an error for everything that could not be read, and a note of every file that vanished |
| Scans.ScanIsOk | internal/engine/scanner.go:118-277 | above every path a scan lists it lists a directory, even with faults and pruning |
| Scans.ScanAccounts | internal/engine/scanner.go:182-256 | everything the walk comes across is an entry, pruned, vanished or an error, and only one of these but for a listed directory that could not be read; entries have the kind, size and time of what is there |
| Differ.SameFileExactly | internal/engine/differ.go:462-485 | for every tolerance, two files are the same if and only if sizes agree and times are within the tolerance, or an hour off by it when that is ignored, or the source is 2^63 ns older |
| Differ.ActionMeaning | internal/engine/differ.go:353-371 | every action of a plan is called for by its own path, in the stage it stands in |
| Planner.FoldedGroups | internal/engine/differ.go:502-509 | buckets hold exactly the paths of each folded name, in order |
| Planner.Collisions | internal/engine/differ.go:144-168 | skips exactly the paths with an earlier namesake, and reports one conflict per group of two or more |
| Planner.Consider | internal/engine/differ.go:173-292 | one source path calls for exactly the clearing, mkdir, copy or conflict that the specification gives it |
| Planner.ConsiderExtra | internal/engine/differ.go:296-324 | one destination path calls for a delete, an rmdir or a conflict exactly when it is extraneous, and of which kind |
| Planner.RequiredDirs | internal/engine/differ.go:377-401 | a mkdir, once, for each directory on the way to a planned copy, unless it is listed as a directory already or is to be made anyway |
| Planner.Diff | internal/engine/differ.go:139-372 | builds the one plan that the two scans call for: contents and order of all five stages, counters, conflicts and withheld counts |
| Planner.StagesAreUnique | internal/engine/differ.go:343-371 | two scans call for exactly one sequence of actions, whatever order their maps are iterated in |
| Planner.RemovalsAddUp | internal/engine/differ.go:326-335 | planned and withheld removals together are exactly the extraneous entries, so what the guard withholds is what the unguarded diff would plan |
| Planner.NothingIsSilent | internal/engine/differ.go:176-292 | every source path in scope is acted on, already in place, or named in a conflict |
| PlanMeaning.UpdateCopiesExactly | internal/engine/differ.go:259-292 | in update mode a file in scope that differs is copied if and only if the source's time exceeds the destination's by more than the tolerance, and is otherwise a conflict |
| PlanMeaning.MirrorCopiesExactly | internal/engine/differ.go:259-292 | in mirror mode it is copied if and only if it is not the same file |
| PlanMeaning.CopyActionMeans | internal/engine/differ.go:456-460 | a copy carries the size and time of the source file, and is an overwrite if and only if the destination has a file there |
| PlanMeaning.ConflictsMean | internal/engine/differ.go:176-292 | which conflict update mode reports, by what stands on the two sides |
| PlanMeaning.CopiesHaveParents | internal/engine/differ.go:337-343 | every directory above a planned copy is listed already or planned, whatever the filter leaves out |
| PlanMeaning.MkdirMeans | internal/engine/differ.go:210-258 | exactly which directories are made, by what stands on the two sides and which copies need them |
| PlanMeaning.UnblockMeans | internal/engine/differ.go:195-258 | exactly which paths a mirror clears |
| PlanMeaning.RemovalsNeedTheWholeSource | internal/engine/differ.go:418-450 | if the walk met anything it could not read or look at, nothing is removed at the end; and what is removed is not in the source, had vanished, or is or lies beneath a pruned directory |
| PlanMeaning.WithheldExactly | internal/engine/differ.go:418-450 | where there is something to remove, nothing is if and only if a rule was dropped, the source was not read in full, or it is empty |
| PlanMeaning.RemovalMeans | internal/engine/differ.go:296-324 | what is removed is listed at the destination and not at the source, in scope and of its kind, and folds like no source name where case does not matter |
| PlanMeaning.CopiesFoldApart | internal/engine/differ.go:151-163 | where case does not matter no two copies land on one name, and the first of a group is the one copied |
| PlanMeaning.SizesAdd | internal/engine/differ.go:343-371 | the totals of a plan add up action by action |
| Partition.Split | internal/engine/executor.go:534-552 | the loop gives each of the five stages exactly its actions in plan order |
| Partition.SplittingUndoesPlanning | internal/engine/executor.go:534-552 | splitting a plan gives back exactly the stages it was concatenated from |
| Effects.EffectKeepsTree | internal/engine/executor.go:196-531 | no action, however it ends, leaves an entry without its parent directory |
| Effects.OnlyItsOwnPath | internal/engine/executor.go:196-531 | an action changes what stands at no path but its own, and a copy never replaces a directory |
| Effects.ExcludedSurvives | internal/engine/differ.go:296-324 | an excluded destination entry that the plan does not clear is unchanged after every history of the plan's actions: partial, failed, repeated, late |
| Effects.SameKindIsNotCleared | internal/engine/differ.go:195-258 | an entry absent from the source, or of the same kind there, is never cleared |
| Effects.ClearedCanBeLost | internal/engine/differ.go:195-258 | the exception is real: whatever the plan clears, unless it is a directory with something in it, some history loses |
| Effects.UpdateNeverDestroys | internal/engine/differ.go:195-281 | in update mode, on a destination without links, after every history, every path is still there with its kind, and a file differs only where the source was newer by more than the tolerance |
| Effects.UpdateActions | internal/engine/differ.go:195-324 | an update plan only makes directories and copies files |
| Safety.ExcludedIsSafe | internal/engine/executor.go:89-158 | at every step of every run, whatever fails, is cancelled or lands late, an excluded entry of no other kind at the source is as it was |
| Safety.UpdateIsSafe | internal/engine/executor.go:89-158 | at every step of every run in update mode, whatever lands late, on a destination without links, nothing that was there is gone or of another kind |
| Scope.ExtraneousExactly | internal/engine/differ.go:296-324 | the removals that pruned listings add to full ones are exactly the admitted files standing where the source has a pruned directory |
| Scope.UnblockExactly | internal/engine/differ.go:195-258 | the clearings they lose are exactly the pruned directories standing where the source has a file |
| Scope.PrunedPlanIsFullPlan | internal/engine/scanner.go:210-224 | with complete scans and no path a directory on one side only, pruned and full listings give the same clearings, mkdirs and copies in the same order, and the same removals unless the guard withholds them |
| Scope.ChainsPruneSoundly | internal/runner/filters.go:118-143 | the chains a job resolves to prune only what is out of scope, on both sides |
| Scope.DroppedRuleStopsRemovals | internal/runner/filters.go:79-146 | once any rule was dropped, no destination's plan has a trailing removal, and the withheld counts are all that was extraneous |
| Executor.OperationIsEffect | internal/engine/executor.go:196-531 | whatever an operation answers, its effect is one its action can have |
| Gating.StagesAreShaped | internal/engine/differ.go:353-371 | each stage of a plan holds actions of its kind only |
| Gating.RunIsSound | internal/engine/executor.go:89-158 | every state of every run keeps the order of stages: what is logged by when, and nothing irreversible before its time |
| Gating.RemovalsAreGated | internal/engine/executor.go:89-158 | if any trailing removal was tried, every clearing, mkdir and copy had been tried, and under skip_deletes each had succeeded or its source had vanished |
| Gating.NoRemovalAfterHalt | internal/engine/executor.go:260-376 | under either policy, a cancel or abort before the trailing passes means no trailing removal is ever tried |
| Gating.CopiesAccountedFor | internal/engine/executor.go:220-376 | for every schedule, without a cancel or abort, copied + skipped + failed copies equals the planned copies |
| Aborts.AbortsExactly | internal/engine/executor.go:326-337 | at every moment of every run it is aborting if and only if it has logged a copy that found the share gone or, under the abort policy, any failed copy or trailing delete; and the share counts as unreachable if and only if a copy found it gone |
| Aborts.RemovalsWithheldExactly | internal/engine/executor.go:121-135 | a run that returns uncancelled has skipped its removals if and only if the policy says so, there were any, and something before them had failed |
| Aborts.VanishedExactly | internal/engine/copier.go:240-247 | only a copy can find its source gone, and does exactly when the world says so or the path is not in the source |
| Gating.RunIsChurn | internal/engine/executor.go:89-158 | a run changes the tree only through the actions of its plan |
| LateRuns.RunIsLateRun | internal/engine/bounded.go:59-64 | every run of the executor is a late run in which nothing lands |
| LateRuns.LateRunIsChurn | internal/engine/executor.go:89-158 | a run changes the tree only through the actions of its plan, however late they land |
| LateRuns.LateRemovalsAreGated | internal/engine/executor.go:89-158 | the gate before the trailing removals holds whatever lands late |
| LateRuns.LateNoRemovalAfterHalt | internal/engine/executor.go:260-376 | no trailing removal is tried after a cancel or abort before the trailing passes, whatever lands late |
| Reports.ExecResult.ClearBlockers | internal/engine/executor.go:511-531 | the loop counts every path cleared, by kind, and records every failure, up to the cancellation and no further |
| Reports.ExecResult.MakeDirs | internal/engine/executor.go:196-216 | the loop counts every directory made and records every failure, up to the cancellation and no further |
| Reports.ExecResult.RemoveDirs | internal/engine/executor.go:483-501 | the loop counts every directory removed and records no failure |
| Reports.ResultTellsTheLog | internal/engine/executor.go:46-67 | at every step of every run the counters are exactly the numbers of logged successes and vanished sources, the failures exactly the logged ones but for trailing directories, and the deleted files those of the trailing pass once it has run and of clearing otherwise, cancelled runs included |
| Reports.ResultCountsRecords | internal/engine/executor.go:46-67 | each counter is the number of places in the log that stand for it |
| CountLost.OneOfTwoIsCounted | internal/engine/executor.go:474-478 | a plan and a run of it without any failure in which two files are deleted and one is counted |
| MirrorRuns.MirrorIsImage | internal/engine/executor.go:89-158 | with no filter, complete scans, a silent guard and no full directory in a file's place, every fault-free run of every schedule meets no failure, and when it returns the destination has exactly the source's paths, kinds and files |
| Termination.RunCanGoOn | internal/engine/executor.go:89-501 | with at least one worker, every state of every run short of its return has a step to take, cancelled or not, and one the world answers honestly |
| Termination.RunIsShort | internal/engine/executor.go:89-501 | no run, whatever fails, takes more steps than a bound that only its plan determines |
| Termination.MirrorArrives | internal/engine/executor.go:89-158 | so a fault-free mirror run comes to rest, within the bound, exactly by returning, and then the destination is the image of the source |
| MirrorRuns.FullDirFailsMirror | internal/engine/executor.go:511-531 | and only then: where a full directory does stand at a source file's path, every such run that gets past clearing has failed |
| Shortfalls.AFullDirFails | internal/engine/executor.go:511-531 | one such pair of trees, their scans and their plan |
| Shortfalls.FirstOfTheGroupIsCopied | internal/engine/differ.go:151-163 | every plan for the source files "A" and "a" and an empty destination that ignores case copies "A", which it reports as skipped, and leaves "a" alone |
| Idempotence.SecondPlanIsEmpty | internal/engine/differ.go:247-282 | in either mode and under any filter, when every action succeeded, even with times rounded by up to the tolerance, rescanning and planning again gives no action |
| Idempotence.RunAchieves | internal/engine/executor.go:89-158 | at every step of every run in which nothing lands late each success still holds, and nothing changed that the plan does not account for |
| LateSuccess.SuccessesHold | internal/engine/executor.go:511-520 | at every step of every run, however late its operations land, each reported success holds unless a clearing of its path was left behind |
| LateSuccess.UndoneExactly | internal/engine/executor.go:511-520 | the next thing to land can undo a success if and only if that is a copy, or an empty directory made, whose path has a clearing left behind |
| LateSuccess.CleanSuccessesHold | internal/engine/executor.go:511-520 | as long as no failure is recorded every success holds and nothing that lands can undo it |
| LateSuccess.CleanSecondPlanIsEmpty | internal/engine/differ.go:247-282 | a second plan after full success is empty, whatever lands late |
| CopyLost.ReportedAndGone | internal/engine/executor.go:511-520 | a plan and a run of it that reports a copy as done and then loses the file to a late clearing |
| Schedules.PlansAreAntichains | internal/engine/differ.go:259-292 | planned copies have distinct paths and none lies beneath another |
| Schedules.ScheduleDoesNotMatter | internal/engine/executor.go:220-376 | two undisturbed copy stages from one tree end every copy the same way and leave the same paths, kinds and contents, whatever the worker schedules |
| Schedules.RunLands | internal/engine/executor.go:220-376 | at every moment of the copy stage of every run, whatever fails and however late it lands, every path is as the stage found it or as its copy, reported done, left it, unless an effect that nobody reported as a success changed it |
| Schedules.StrayIsPending | internal/engine/executor.go:220-376 | and whatever changed it is an operation at that path, or a mkdir beneath it, that was left behind |
| Schedules.TreeIsWhatSucceeded | internal/engine/executor.go:220-376 | through failures, late effects, cancels and aborts, at any moment, two runs that agree on whether a path's copy has succeeded agree on its kind and content, unless such an effect changed it in one of them |
| CopyRuns.PublicationIsAtomic | internal/engine/copier.go:181-303 | over every interleaving of attempts, timeouts, late effects and crashes, the destination name holds its first content or all that one attempt read up to the end, with the time that attempt was asked to set |
| CopyRuns.RenamePublishes | internal/engine/copier.go:292-302 | right after a rename that succeeded, the destination name holds all that the attempt read, flushed, with the time it was asked to set |
| CopyRuns.PublishedStays | internal/engine/copier.go:292-302 | and goes on holding it until another rename, a late one or a crash |
| CopyRuns.LateRenamePublishes | internal/engine/copier.go:292-302 | a rename that lands after it was reported as timed out publishes all that one attempt read to the end |
| CopyRuns.TimedOutCanArrive | internal/engine/bounded.go:59-64 | a flush, stamp or rename that is reported as timed out may still take effect |
| CopyRuns.PastIsHistory | internal/engine/copier.go:240-303 | the record of what the name has held is exactly what it has held, step by step |
| CopyRuns.CommittedWasPublished | internal/engine/copier.go:240-303 | an attempt that reported success had all that it read at the destination name at some moment |
| CopyRuns.NoDebris | internal/engine/copier.go:240-262 | without crashes and failed removals, every temporary file belongs to an attempt that is still under way or about to clean up |
| TempNames.TempNamesFit | internal/engine/copier.go:339-369 | a temporary name never exceeds the longest file name, and cuts the target's only when it has to |
| TempNames.TempNamesDiffer | internal/engine/copier.go:346-369 | different suffixes give different names for one target |
| TempNames.TempNameIsTargetExactly | internal/engine/copier.go:346-369 | a temporary name is the target's own only for one exactly described family of names |
| Retry.AttemptsFor | internal/engine/copier.go:61-67 | at least one attempt, at most three, at most one more than there are delays, and no fewer than those bounds allow |
| Retry.RetryableExactly | internal/engine/copier.go:411-430 | which errors are not worth another attempt, and which mean the transport |
| Retry.CopyBuffered | internal/engine/copier.go:308-337 | every byte written is reported once, and success means the end was reached with all that was read written |
| Retry.CopyOnce | internal/engine/copier.go:181-236 | what an attempt returns as written is what it reported and, if it was abandoned, the chunk it had counted and not yet reported |
| Retry.Copy | internal/engine/copier.go:115-172 | its own reports add up to the bytes copied, and to nothing on failure, short of the chunks abandoned attempts had in flight, and drop below zero if and only if there are any; waits are a prefix of the backoff list; it succeeds, names an error that is not retried, or reports a cancellation each if and only if the round it stopped at says so, and gives up only when attempts or the share are exhausted |
| Retry.NetExactly | internal/engine/copier.go:193-236 | however the late reports of abandoned attempts interleave, the net is off by what they report beyond the chunks in flight, and right if and only if they report nothing else |
| Retry.DipsExactly | internal/engine/copier.go:193-236 | the running total stays at or above zero in every interleaving with the late reports if and only if no attempt was abandoned with a chunk in flight |
| Retry.CountedBeforeReported | internal/engine/copier.go:199-203 | the smallest case, five bytes taken back and then reported: the net is right and the running total was below zero |
| Progress.Tracker.StartFile | internal/engine/progress.go:135-139 | the counters stay those of the events so far, with this one added |
| Progress.Tracker.AddFileBytes | internal/engine/progress.go:143-157 | the same, with both counters clamped at zero |
| Progress.Tracker.FinishFile | internal/engine/progress.go:160-170 | the same, with the file out of flight and counted once |
| Progress.FilesAreCounted | internal/engine/progress.go:135-170 | the file counts are those of the files that ended well and badly, and the files in flight those started and not finished since |
| Progress.ClampsNeverFire | internal/engine/progress.go:143-157 | if each file's own reports never drop below zero then in every interleaving neither clamp fires: the counters are the plain sums |
| Progress.ClampCostsExactly | internal/engine/progress.go:143-157 | for all reports in any order the total shown is the plain sum and its deepest dip below zero on top; nothing is off if and only if it never dipped |
| Progress.PhantomBytes | internal/engine/progress.go:143-157 | a chunk taken back before it was reported stays in the total |
| Progress.TrackerEndsWithBytesCopied | internal/engine/executor.go:270-323 | with every file's reports in order the tracker ends with the bytes of the successful copies, however the workers' reports interleave |
| Progress.BytesAreConserved | internal/engine/executor.go:270-323 | from end to end: when each file's reports are those its copy leaves and no attempt was abandoned, no clamp fires in any interleaving and the total ends as the bytes copied |
| Outcomes.CleanDestination | internal/runner/runner.go:1180-1226 | a destination is a clean success exactly when nothing failed, was cancelled, aborted, withheld or skipped |
| Outcomes.DestinationExactly | internal/runner/runner.go:1180-1226 | when a destination counts as cancelled, failed, successful and degraded, each by what its result and plan say |
| Outcomes.ClassifyRun | internal/runner/runner.go:1229-1287 | the loop gives the verdict that the next four rows pin down |
| Outcomes.GreenExactly | internal/runner/runner.go:1229-1287 | a run is green if and only if it has outcomes and all of them are clean successes, none unavailable under the abort policy |
| Outcomes.CancelledExactly | internal/runner/runner.go:1229-1287 | cancelled if and only if nothing forces an abort, some destination was cancelled and none succeeded or failed |
| Outcomes.FailedExactly | internal/runner/runner.go:1229-1287 | failed if and only if an unavailable destination forces an abort, or nothing succeeded and the run does not count as cancelled |
| Outcomes.PartialExactly | internal/runner/runner.go:1229-1287 | partial if and only if nothing forces an abort, something succeeded, and something did not or was degraded |
| Outcomes.GreenIsComplete | internal/runner/runner.go:1010-1058 | at every destination of a green run nothing was withheld, aborted or failed, every mkdir, clearing and delete was carried out, and copied + skipped is the planned copies |
| Runner.Runner.Reserve | internal/runner/runner.go:225-245 | reserves a job exactly when the runner is not closing and the job has neither a run nor a reservation; like every method it keeps the runner at the end of a history, so all that follows holds of it |
| Runner.Runner.Unreserve | internal/runner/runner.go:247-253 | gives the reservation back and leaves the queue mark |
| Runner.Runner.Join | internal/runner/runner.go:270-273 | the start is waited for from here on |
| Runner.Runner.Publish | internal/runner/runner.go:275-278 | the reservation becomes the run, the only one of its job |
| Runner.Runner.QueueNext | internal/runner/runner.go:173-184 | accepts exactly when the job is running or starting and nothing is queued for it |
| Runner.Runner.Finish | internal/runner/runner.go:1358-1373 | ends the run and dispatches exactly a queued follow-up of a runner that is not closing |
| Runner.Runner.Leave | internal/runner/runner.go:280-288 | a finished run is waited for until its goroutine is over |
| Runner.Runner.Shutdown | internal/runner/runner.go:378-388 | closes the runner, drops what is queued and cancels exactly the active runs |
| Runner.OneRunPerJob | internal/runner/runner.go:210-291 | in every interleaving a job has at most one active run, `byJob` names exactly that run, and an empty reservation is exactly one start in progress |
| Runner.FollowUpsAreConserved | internal/runner/runner.go:173-184 | accepted follow-ups equal those dispatched, dropped by shutdown and still pending |
| Runner.NothingStartsWhileClosing | internal/runner/runner.go:225-245 | once closing, no start reserves and no finish dispatches |
| Runner.OrphanedExactlyByFailedCreate | internal/runner/runner.go:247-253 | in every history a queue mark is left with nothing to follow if and only if the start it waited for failed to create its run, and neither a shutdown nor a new start of the job has come since |
| Runner.AnOrphan | internal/runner/runner.go:247-253 | a history from the start that leaves such a mark |
| Runner.NothingActiveAtReturn | internal/runner/runner.go:390-401 | when a shutdown's wait returns, no run is active and no start has joined the wait |
| Runner.LateStartExactly | internal/runner/runner.go:244-278 | after that a run can still become active if and only if some start had reserved its job and not joined the wait |
| Runner.ALateStart | internal/runner/runner.go:244-278 | a history from the start in which a run comes up after the wait has returned |
| Mounts.Manager.Acquire | internal/mountmgr/manager.go:104-128 | takes a reference exactly when the mount is up; the count is then the number of holders, this one among them; what a failure leaves, and that no other entry changes |
| Mounts.Manager.Release | internal/mountmgr/manager.go:131-142 | gives exactly one reference back and starts the idle clock on the last |
| Mounts.Manager.Unmount | internal/mountmgr/manager.go:388-397 | refuses exactly while somebody holds the mount, and then changes nothing |
| Mounts.Manager.ReapOnce | internal/mountmgr/manager.go:458-490 | one pass treats every entry once, in any order; whatever it takes down nobody holds and was last released a grace period ago |
| Mounts.NeverDetachedInUse | internal/mountmgr/manager.go:104-142 | over every history the count is the number of unreleased handles, a mounted entry nobody holds is on the idle clock, and a step detaches what somebody holds if and only if it acquires a target found stale or mounted as another share meanwhile |
| Mounts.ReaperWaits | internal/mountmgr/manager.go:458-490 | the reaper detaches only what was last released at least a grace period ago |
| Mounts.ReaperActsExactly | internal/mountmgr/manager.go:458-490 | the reaper detaches an entry it can look at if and only if it is mounted, nobody holds it and it was last released a grace period ago |
| Mounts.ReleaseNeverClamps | internal/mountmgr/manager.go:131-142 | every release finds a reference to give back |
| Mounts.AcquireMayDetachInUse | internal/mountmgr/manager.go:146-185 | a history in which an acquisition detaches a mount somebody holds |
| JsonKeys.Step | internal/filter/jsonkey.go:107-154 | what one segment leads to from one node, fanning objects out in sorted order |
| JsonKeys.CollectPatterns | internal/filter/jsonkey.go:164-193 | the patterns a list of nodes holds, or an error on the first node that is neither text nor list of text unless the key has a wildcard |
| JsonKeys.PatternsAtOneKey | internal/filter/jsonkey.go:80-162 | the layer-by-layer loop computes the recursive meaning of the key |
| JsonKeys.PatternsAtKey | internal/filter/jsonkey.go:37-64 | the first-occurrence union of what the keys select; an error exactly when there is no key or one of them is an error |
| JsonKeys.WalkMeansReach | internal/filter/jsonkey.go:80-162 | walking by layers equals following the path recursively, in the same order and with the same errors, for every document |
| JsonKeys.StrictIsSingle | internal/filter/jsonkey.go:80-162 | a key without a wildcard leads to exactly one node or is an error |
| JsonKeys.WildcardFailsOnlyOnEmpty | internal/filter/jsonkey.go:80-193 | a wildcard key is an error if and only if it has an empty segment |
| JsonKeys.FirstsAreFirst | internal/filter/jsonkey.go:45-64 | dropping repeats keeps every value once, in order of first appearance |
| KeyMeaning.ReachMeans | internal/filter/jsonkey.go:80-162 | the nodes a key reaches are exactly those its path leads to, field by field and item by item |
| KeyMeaning.WildcardInOrder | internal/filter/jsonkey.go:107-120 | a wildcard over an object yields its fields in the order of their names, each once |
| KeyMeaning.SelectedMeans | internal/filter/jsonkey.go:80-193 | a key selects exactly the text of the nodes its path leads to |
| KeyMeaning.SelectedFailsExactly | internal/filter/jsonkey.go:80-193 | a key is an error if and only if it has an empty segment, or without a wildcard leads to nothing that is all text |
| KeyMeaning.SelectedAllMeans | internal/filter/jsonkey.go:37-64 | all keys together select exactly the text some key leads to, and are an error if and only if one of them is |
| Limiter.HookLimiter.Prune | internal/api/hooks.go:74-88 | keeps exactly one address's failures inside the window, and every other address as it is |
| Limiter.HookLimiter.Blocked | internal/api/hooks.go:45-51 | never blocks on fewer than twenty recorded failures inside the window, and decides exactly by the full record for an address never evicted while live |
| Limiter.HookLimiter.Record | internal/api/hooks.go:61-70 | adds one failure to the record, leaves at most 4096 addresses, and forgets early only live addresses no newer than any kept |
| Limiter.HookLimiter.Sweep | internal/api/hooks.go:102-126 | what goes was expired or is among the oldest, and nothing live goes unless the ceiling is reached |
| Limiter.BlockedMeaning | internal/api/hooks.go:45-88 | what is remembered never counts more than the full record of the window, and exactly as much unless the address was evicted early |
| Limiter.AfterOfSuffix | internal/api/hooks.go:74-88 | forgetting expired failures changes no later count |
| Limiter.Evict | internal/api/hooks.go:116-126 | evicts exactly as many as are over the ceiling, none newer than any kept |
| Limiter.Expire | internal/api/hooks.go:102-110 | forgets exactly the addresses whose last failure has expired |

## Left out

- HTTP handlers, WebSocket hub, user interface, sessions and tokens: plumbing around the core.
- The database: creating and finishing a run are steps that may fail.
- Glob matching, cron, encryption and signatures: parameters or not modelled.
- Compiling patterns and reading rule files or lists: a rule arrives compiled or broken, with its error policy.
- Rule counters and explanations beyond the rule that decided: no effect on what is admitted.
- Link resolution: operations at or beneath a link fail in the model. The program may write through a link at the destination, one it did not list or, in update mode, one it did: a link where the source has a directory is only reported as a conflict, and what lies beneath is still planned. Effects.UpdateNeverDestroys and Safety.UpdateIsSafe are therefore meant for destinations without links.
- Case-insensitive aliasing: the plan's case folding is modelled and proved, but trees are case-sensitive.
- Scan limits, truncation and running totals: they do not change the listing of a scan that completes.
- Temporary files inside the executor's tree: `Copier` models them for one name, `Executor` sees a copy as one step.
- The executor's concurrent stages as objects: worker pools and the tree are a state machine on values, because their steps interleave; only the record filled in by the sequential loops is an object that is updated in place.
- Confirming that a share is gone: any copy may be reported as having found it gone.
- Throughput and remaining time: floating-point estimates.
- Overflow of byte totals: sums are unbounded.
- Forgetting a target and shutting the mount manager down: they detach whatever the count says.
- Texts of messages, events and notifications.
- Idempotence.SecondPlanIsEmpty: rescans the destination completely and uses the same listing of the source.
