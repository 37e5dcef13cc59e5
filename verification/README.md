# Verified model of the storage certification harness

The harness runs certification tests as jobs, grades them, and folds partial results into one report
that must survive crashes, resumes and retries. This project models its core in Dafny and proves what
it relies on, for every input, every run and every interleaving:

- **Scheduling** (`Scheduler`, `Grouping`, `ScheduledRun`). `schedule` as program counters over a counting
  semaphore, a reader/writer lock whose waiting writer blocks new readers, and a family of group mutexes.
  Safety, deadlock freedom and termination hold for the jobs `groupByTool` builds, and fail without what it
  guarantees. Composed with what the jobs execute, the executions of jobs that must not overlap stay apart.
- **The run** (`Progress`, `Setups`, `RunDriver`, `RunOutcome`, `Stranding`). Partition, shared setups, jobs
  stepped in any order, teardown and final status, against arbitrary setup failures, cancellations and test
  results. The history of a run is a list of events; what it leaves behind, down to the outcome of every
  execution, is proved from that list, and which executions can be left queued from the inputs alone.
- **Reports** (`Keyed`, `Appending`, `Levels`, `Reports`, `ReportLaws`, `MergeMeaning`). Lists folded
  through hash maps as canonical representations of finite maps; merging as a right-biased union, and
  exactly when its grouping does not matter; what a report says about itself, through any merges; blocking
  incidents; the certified level.
- **Recovery** (`Checkpoint`, `Interleaving`, `Resume`). A checkpoint saved after every snapshot equals one
  merge, recorded incidents included exactly when they have ids; resuming composes with merging over whole
  campaigns.
- **Grading** (`Grading`). Bar selection, one verdict per item by its measurement and bar, and what a rerun
  replaces.
- **The SSH helper pod** (`Cluster`, `Rollback`, `HelperPod`). Setup and rollback against a cluster in
  which anyone may create, replace, re-annotate or delete the pod between two calls and replies get lost.
- **Parsers and arguments** (`DrainLog`, `Percentiles`, `Arguments`, `Templates`). The append-mode drain
  log, two percentile rules, and the command line as a map from flags to values.

`Text`, `Sorting`, `Filtering` and `Core` hold what these share: Go's string order and joined keys,
sorting, filtering, and the domain types. Loops and objects of the program are methods and classes here,
each proved equal to a specification function about which the laws are proved. Records and reports are
values. What the environment decides is chosen arbitrarily (`:= *`) or passed as a parameter.

`dafny verify dfyconfig.toml` checks everything.

## Where the program and its comments or expectations differ

- The comment on `rollbackSSHPod` says it deletes at most once. The code retries a delete until a reply is
  conclusive, three attempts per poll (`DeletePodUid`, `SentTwiceWhenUnanswered`); none follows an
  acknowledged one, and nothing at all a refused one (`RollbackPod`).
- A run id with surrounding blanks is compared untrimmed with a trimmed annotation, so its rollback
  treats its own pod as foreign (`UntrimmedRunIdRemovesNothing`). Run ids come only from a timestamp format
  (cmd/harness/main.go:355), so no real run has such an id.
- A failed setup drops requirements by id, not by scope. Executions of one id in other scopes then stay
  queued although nothing was cancelled (`StrandableExactly`, `OneIdTwoToolsStrands`); the report is partial
  and says so. The shipped catalog cannot produce this: it rejects duplicate ids
  (internal/catalog/catalog.go:69-76), and variants copy the tool of their requirement
  (internal/orchestrator/orchestrator.go:880-887), so one id means one tool (`OneToolPerIdSuffices`).
- Merging is not associative on whole reports: a storage selection repeated in one report, or the part a
  merge inserts when neither report names one, can come out differently (`MergeIsAssociative`,
  `RepeatedStorageDiffers`, `InsertedPartDiffers`).
- Snapshots list storage selections sorted by label, but a checkpoint keeps them in the order they were first
  saved, so its list can differ from that of one merge in order, never in what is selected (`CheckpointIsOneMergeExactly`,
  `EarlierKeyStaysInFront`).
- An incident recorded without an id is numbered in the orchestrator's log but reaches the checkpoint as it
  was, so both are kept (`BothKeysSurvive`). Nothing yet records one: apart from the wiring
  (cmd/harness/main.go:445, internal/orchestrator/orchestrator.go:128-142) no tool calls `RecordIncident`.
- `mergeIncidents` keeps the first incident of a key, so a blocking incident behind an earlier one with
  its id is lost (`HiddenBlockerIsLost`).
- A requirement without SLAs and checks reports failures under a placeholder item no rerun replaces
  (`RerunReplacesExactly`).
- An aborted execution can still become complete; a complete one never changes.
- `Save` replaces the kept report by a snapshot it cannot merge with and remembers the error.
- `setArgument` and `argument` disagree about a flag dangling at the end or followed by another flag, which
  `setArgument` takes for its value and overwrites (`GetAfterSet`, `SetOverwritesExactly`), and
  `removeArgument` drops (`RemoveDisturbsExactly`).

## Model

| member | source | states |
|---|---|---|
| `Scheduler.AlwaysSafe` | internal/orchestrator/orchestrator.go:589-633 | in every reachable state of `schedule`, for any jobs, concurrency and interleaving: a job that is not parallel-safe is alone inside `run`, two jobs inside `run` share no exclusivity group, and the jobs inside are at most one or at most `concurrency` |
| `Scheduler.SlotsAdmitExactly` | internal/orchestrator/orchestrator.go:589-621 | the semaphore turns a parallel-safe job away exactly when at least one slot is taken and as many as the concurrency says |
| `Scheduler.ConcurrencyIsReached` | internal/orchestrator/orchestrator.go:589-633 | that many jobs are admitted: for any number of parallel-safe jobs without groups up to the concurrency, some run has all of them inside `run` |
| `Scheduler.LocksAdmitExactly` | internal/orchestrator/orchestrator.go:594-629 | in every reachable state a lock is denied only for its reason: a group exactly while another job holds it, the exclusive side exactly while another exclusive job waits or runs, and exclusive work exactly while a reader is left |
| `Scheduler.WaitingWriterBlocks` | internal/orchestrator/orchestrator.go:594-622 | a parallel-safe job reaching the shared side is parked exactly while an exclusive job waits or runs |
| `Scheduler.InvKept` | internal/orchestrator/orchestrator.go:589-633 | one lock operation keeps the whole lock invariant: semaphore, reader and writer sets match the program counters, each locked group has exactly one holder, and no job has entered `run` twice |
| `Scheduler.RunsAreBounded` | internal/orchestrator/orchestrator.go:608-633 | every run is finite: the steps taken plus the steps left never exceed what the initial state allows |
| `Scheduler.GroupsProgress` | internal/orchestrator/orchestrator.go:623-627 | a goroutine waiting for the greatest wanted group either gets it or waits for one that can go on, because groups are taken in ascending order |
| `Scheduler.StuckOnlyWhenFinished` | internal/orchestrator/orchestrator.go:608-633 | deadlock freedom, both directions: with sorted, repeat-free groups a reachable state has no next step exactly when every job has finished |
| `Scheduler.EachJobRunsOnce` | internal/orchestrator/orchestrator.go:606-633 | a run that cannot go on has entered `run` exactly once for every job |
| `Scheduler.RepeatedGroupDeadlocks` | internal/orchestrator/orchestrator.go:549-587 | why `groupByTool` must not repeat a group: a job listing one twice deadlocks on itself |
| `Scheduler.UnsortedGroupsDeadlock` | internal/orchestrator/orchestrator.go:549-587 | why `groupByTool` must sort: two jobs taking two groups in opposite orders have a run that deadlocks |
| `Grouping.GroupByTool` | internal/orchestrator/orchestrator.go:549-587 | one job per tool in first-appearance order, its requirements in order, its scheduling from the first one's integration unless the plan overrides it, its groups sorted without repeats |
| `Grouping.GroupingLosesNothing` | internal/orchestrator/orchestrator.go:549-587 | the requirements of all jobs together are the given ones, each as often as given |
| `Grouping.OneJobPerTool` | internal/orchestrator/orchestrator.go:549-587 | two requirements share a job exactly when they name the same tool |
| `Grouping.JobsAsConfigured` | internal/orchestrator/orchestrator.go:549-587 | a job has exactly its tool's requirements; whether it may overlap and its groups are what the plan's override says, else what the tool its first requirement resolves to declares |
| `Grouping.JobsInOrder` | internal/orchestrator/orchestrator.go:549-556 | of two jobs the earlier one's tool has a requirement before any of the later one's |
| `Grouping.GroupedJobsAreScheduled` | internal/orchestrator/orchestrator.go:549-633 | scheduling the jobs of any selection is safe in every state, with at most one or at most `concurrency` jobs inside `run`, is stuck exactly when finished, and has then run each job once |
| `ScheduledRun.ExecutionsStayApart` | internal/orchestrator/orchestrator.go:259-269 | `runJobs` under `schedule`, at every moment of every run: each execution event belongs to a requirement of its author's job, and between two of one job lies none of a job it must not run beside |
| `ScheduledRun.StuckOnlyWhenFinished` | internal/orchestrator/orchestrator.go:608-633 | with sorted, repeat-free groups such a run cannot go on exactly when every goroutine has finished |
| `ScheduledRun.FinishedRunsAreWorked` | internal/orchestrator/orchestrator.go:259-269 | and has then settled every execution of every job and touched no other, each completion with the outcome of its own results: it is one of the interleavings of `RunDriver.RunJobs` |
| `ScheduledRun.RunsAreBounded` | internal/orchestrator/orchestrator.go:608-633 | every such run is finite, lock operations and execution steps together |
| `Setups.ActiveSetups` | internal/orchestrator/orchestrator.go:501-533 | the run-scope providers, then the wanted groups that have a provider, both sorted by key, each with its scope |
| `Setups.SetupsExactly` | internal/orchestrator/orchestrator.go:501-533 | first every run-scope provider by key, with all requirements, then by key exactly the provided groups some requirement's tool names, each with the requirements it is named for; none without requirements |
| `Setups.ScopeMembers` | internal/orchestrator/orchestrator.go:501-533 | a setup's scope holds only given requirements, and misses one only if the requirement's tool does not name that group |
| `Setups.InGroupMembers` | internal/orchestrator/orchestrator.go:509-521 | a group's scope holds exactly the requirements whose resolved tool lists the group |
| `Setups.WithoutTRs` | internal/orchestrator/orchestrator.go:535-547 | drops exactly the requirements whose id appears in the list to remove, keeping order |
| `Progress.Tracker.Start` | internal/orchestrator/progress.go:54-80 | exactly a queued execution becomes running, in the tracker and in its record, and nothing else changes; the call is appended to the history |
| `Progress.Tracker.Complete` | internal/orchestrator/progress.go:82-127 | an execution not yet complete becomes complete with this outcome, in the tracker and in its record, where nothing else changes; for a complete one nothing changes at all |
| `Progress.Tracker.Abort` | internal/orchestrator/progress.go:132-163 | a queued or running execution becomes aborted with this outcome and a reason, in the tracker and in its record; for a complete or aborted one nothing changes |
| `Progress.HistoryDecides` | internal/orchestrator/progress.go:54-163 | the final phase of an execution depends only on which kinds of calls were made for it, in whatever order: one completion decides, then one abort, then one start |
| `Progress.FirstCompletionDecides` | internal/orchestrator/progress.go:82-127 | after any history from a queued execution that completes it, the record has the outcome of its first completion, whatever came before or after, and the reason of an abort only if one came before |
| `Progress.FirstAbortDecides` | internal/orchestrator/progress.go:132-163 | and if nothing completes it, that of its first abort, with the reason the run ended |
| `Progress.CompletedIsFinal` | internal/orchestrator/progress.go:54-163 | completed is never left: phase, outcome and execution record stay through any later calls |
| `Progress.AlwaysAgree` | internal/orchestrator/orchestrator.go:189-212 | through any calls the execution records carry the state the tracker has |
| `Progress.Tracker.CountDone` | internal/orchestrator/progress.go:165-173 | the count of completed executions reaches the total exactly when all are complete |
| `Progress.SummarizeTR` | internal/orchestrator/progress.go:225-257 | errors win over failures, failures over passes; nothing graded is an error, only skips a skip; verdicts of other executions do not count |
| `RunDriver.Partition` | internal/orchestrator/orchestrator.go:214-226 | every unrunnable or under-parameterized requirement is completed at once as skip or error, the rest are scorable in order, and no other execution is touched |
| `RunDriver.TrySetups` | internal/orchestrator/orchestrator.go:232-249 | every setup is tried once in order; a failure settles exactly the executions in its scope as errors, aborting only if cancelled, and drops all requirements with their ids |
| `RunDriver.TearDownAll` | internal/orchestrator/orchestrator.go:251-257 | the setups that succeeded are torn down once each, in reverse |
| `RunDriver.Worklist` | internal/orchestrator/orchestrator.go:897-948 | a job executes its ordinary requirements first, then its variants, each in order |
| `RunDriver.SplitLosesNothing` | internal/orchestrator/orchestrator.go:897-948 | the split into ordinary and variant executions keeps every requirement, as often as given, with no variant before an ordinary one |
| `RunDriver.WorkerStep` | internal/orchestrator/orchestrator.go:905-947 | one step of a job's goroutine starts its next execution or settles the started one: aborted as an error if cancelled, else completed with the overall outcome of its results; a variant whose directory cannot be made is settled as an error without a start |
| `RunDriver.RunJobs` | internal/orchestrator/orchestrator.go:259-269 | whatever the interleaving of the goroutines, every execution of every job is settled and no other touched; aborts are errors, each completion has the outcome of that execution's own results, and only a variant, as an error, is settled without a start |
| `RunOutcome.PhaseAtEnd` | internal/orchestrator/orchestrator.go:214-269 | when the jobs are over an execution is complete, aborted or untouched, never running, and untouched exactly when no phase of the run reaches it |
| `RunOutcome.RecordExplained` | internal/orchestrator/orchestrator.go:189-269 | the record any history of a run leaves of a selected execution: whose it is, and where its outcome and reason come from |
| `Stranding.OneExplanation` | internal/orchestrator/orchestrator.go:214-269 | where every execution has its own label, only one of the explanations of a completed record is possible: rejected, in a failed setup's scope, or executed by a job |
| `RunOutcome.ReachesJob` | internal/orchestrator/orchestrator.go:214-259 | a requirement reaches a job exactly when it is not rejected (no tool, a manual or unknown one, or a missing parameter) and no setup that failed has a requirement with its id in its scope |
| `RunOutcome.StartedOnlyAfterItsSetups` | internal/orchestrator/orchestrator.go:232-269 | no test starts unless every setup whose scope contains it succeeded |
| `RunOutcome.TornDownExactly` | internal/orchestrator/orchestrator.go:248-257 | over the whole run each setup is torn down once if it succeeded and never otherwise, in reverse order, after everything else |
| `RunOutcome.StrandedExactly` | internal/orchestrator/orchestrator.go:232-259 | an execution no phase reaches is one dropped by id with a failed setup whose scope does not contain it, and conversely |
| `RunOutcome.NobodyStranded` | internal/orchestrator/orchestrator.go:501-547 | if scorable requirements of one id lie in the same provided group scopes, no run strands an execution |
| `Stranding.StrandableExactly` | internal/orchestrator/orchestrator.go:214-269 | decided from the inputs: some log without a cancellation leaves an execution queued exactly when its label's requirements are all scorable and each shares its id with a scorable requirement of a provided group in which none of them lies |
| `Stranding.NobodyStrandableExactly` | internal/orchestrator/orchestrator.go:501-547 | where every execution has its own label, no log leaves any of them queued exactly when scorable requirements of one id lie in the same provided group scopes |
| `Stranding.SomeLog` | internal/orchestrator/orchestrator.go:214-269 | whatever set of group setups is to fail, some log of the selection without a cancellation has exactly those fail |
| `Stranding.OneIdTwoToolsStrands` | internal/orchestrator/orchestrator.go:535-547 | an instance: of two executions of one id under different tools, the failed setup of one tool can leave the other execution queued |
| `RunOutcome.CloseExecutions` | internal/orchestrator/orchestrator.go:301-315 | executions still running are closed as aborted with a reason, all others unchanged, and the flag says whether all are complete or aborted |
| `RunOutcome.Run` | internal/orchestrator/orchestrator.go:214-338 | every run: executions end queued exactly when stranded, never running, aborted only if cancelled, all terminal if ids share their scopes. Each record names its execution and is explained: a rejected one is complete as a skip or an error by its reason, an aborted one an error, a complete one rejected, an error in a failed setup's scope, or graded from its own results. The status is complete exactly when nothing was cancelled and every execution completed, otherwise partial with the one blocking incident and reason the cause demands |
| `Keyed.DedupeSlice` | internal/report/report.go:337-392 | the overwrite-in-place loop followed by the sort returns the canonical list of the map its input denotes |
| `Keyed.DedupeThroughMap` | internal/report/report.go:299-318 | filling a map, listing it in any iteration order and sorting returns the same canonical list |
| `Keyed.DedupeLists` | internal/report/report.go:337-392 | the deduplicated list is strictly sorted, has each key once, and holds the last record given for it |
| `Keyed.ListingUnique` | internal/report/report.go:299-318 | a map has one such list, so Go's iteration order cannot show |
| `Keyed.DedupeCanonical` | internal/report/report.go:299-392 | two lists deduplicate to the same list exactly when they denote the same map |
| `Appending.KeepFirstLoop` | internal/report/report.go:320-335 | the incident loop keeps the first record of each key, in order |
| `Appending.KeepFirstAssociative` | internal/report/report.go:320-335 | merging incident lists is associative |
| `Appending.UpsertAssociative` | internal/report/report.go:267-297 | merging parts by id (first place, last content) is associative on id-keyed lists |
| `Appending.UpsertsAssociateExactly` | internal/report/report.go:267-297 | for any three lists, replacing or appending by key groups alike exactly when every key the middle list repeats, and the last list holds too, has the same last record in both |
| `Appending.UpsertAgainExactly` | internal/report/storage.go:5-22 | merging an earlier state of a list before the list itself leaves every key the same record, and the same list exactly when the earlier state added its new keys in the list's order |
| `Appending.EarlierKeyStaysInFront` | internal/report/storage.go:5-22 | an input where it does not: an earlier state holding only the second of two new selections keeps it in front of the first |
| `Reports.MergeParts` | internal/report/report.go:267-297 | parts without id are dropped; each id keeps its first place and its last content; a report without parts contributes one for itself |
| `Reports.MergeStorage` | internal/report/storage.go:5-22 | a later selection replaces the first one with its requirement, variant and scenario, or is appended |
| `Reports.MergeReports` | internal/report/report.go:225-265 | the imperative merge computes the merge the laws below are about, or fails exactly for two different KB commits; run id comes from the base, status and reason from the later report, and summary, levels, health and certifiability say what the merged lists, incidents and status demand |
| `Reports.Summarize` | internal/report/report.go:34-47 | the counts are the numbers of verdicts with each outcome; the rollups list every level but 0 some verdict has, ascending, failed by a failure and passed by a pass without one; the level is the certified one |
| `Reports.ReportRef.RefreshLifecycle` | internal/report/report.go:81-113 | status, parts, health and certifiability as the early-returning code leaves them, as one function of the report |
| `Reports.ReportRef.Finalize` | internal/report/report.go:117-135 | a terminal status goes into the report and its last part, and the derived flags are refreshed, in closed form |
| `ReportLaws.FinalizedEnds` | internal/report/report.go:117-135 | status, reason and end time are written to the report and its last part, which is made for the run if there is none; every other part, list and count stays |
| `ReportLaws.MergedListsAreUnions` | internal/report/report.go:225-265 | the merged verdicts, measurements and executions are the right-biased union of the two reports' maps, in report order |
| `ReportLaws.MergedHoldsLast` | internal/report/report.go:225-265 | the merged lists hold exactly the records that nothing listed after them, in the base and then the later report, replaces |
| `MergeMeaning.VerdictsIdentified` | internal/report/report.go:337-348 | where no field holds a NUL byte, two verdicts are one item exactly when TR, variant, item and scenario agree |
| `MergeMeaning.IncidentsIdentified` | internal/report/report.go:320-335 | incidents with ids are one exactly when the ids agree, those without when type, TR and message do |
| `MergeMeaning.VerdictsInOrder` | internal/report/report.go:349-360 | merged verdicts ascend by TR, variant, scenario and item, in byte order |
| `MergeMeaning.MergedIncidentsMeaning` | internal/report/report.go:320-335 | merged incidents are exactly the first of each key |
| `MergeMeaning.MergedSelection` | internal/report/storage.go:5-22 | an execution's storage selection is the last the later report lists for it, else the base's first |
| `MergeMeaning.MergedPartsMeaning` | internal/report/report.go:267-297 | of each part id some report names, or stands for by its run id, the last part is listed; where none is, one for the base's run |
| `ReportLaws.MergeableEitherWay` | internal/report/report.go:225-265 | merging three reports succeeds in one grouping exactly when in the other |
| `ReportLaws.ResultsAssociate` | internal/report/report.go:225-265 | and then gives the same status, flags, lists, incidents, levels and summary |
| `ReportLaws.StorageAssociatesExactly` | internal/report/storage.go:5-22 | the storage selections of the two groupings agree exactly when no selection the middle report repeats is set to something else by the last one |
| `ReportLaws.RepeatedStorageDiffers` | internal/report/storage.go:5-22 | an input where they differ: one execution selected twice in the middle report and anew in the last keeps the last selection in one grouping and the middle one in the other |
| `ReportLaws.PartsAssociateExactly` | internal/report/report.go:267-297 | the run parts of the two groupings agree exactly when a part an inner merge inserts for a report without named parts is overwritten at once by the last report, is the one the outer merge would insert too, or is listed already with that content |
| `ReportLaws.InsertedPartDiffers` | internal/report/report.go:267-297 | an input where they differ: two reports whose parts have no id and a last one naming another part list the inserted part in one grouping only |
| `ReportLaws.MergeIsAssociative` | internal/report/report.go:225-265 | the two groupings give the same whole report exactly when the storage condition and the parts condition hold |
| `ReportLaws.CertifiableMeaning` | internal/report/report.go:81-113 | after a refresh a report whose summary counts its verdicts is certifiable exactly when its status is complete (or unset), no incident blocks and no verdict fails or errs |
| `ReportLaws.MergedCertifiableExactly` | internal/report/report.go:225-265 | whatever two reports say about themselves, their merge is certifiable exactly when the later one's status is complete or unset, no merged incident blocks and no merged verdict fails or errs, and its certified level is the one the merged verdicts earn |
| `ReportLaws.StepsStayHonest` | internal/report/report.go:81-265 | summary, rollups, certified level, health and certifiability keep saying what a report's own lists and status demand through any sequence of merges, finalizations and refreshes |
| `ReportLaws.BlockerIsPermanent` | internal/report/report.go:81-335 | once the first incident of some key blocks, no sequence of merges as base, finalizations and refreshes is ever certifiable |
| `ReportLaws.DistinctBlockerIsPermanent` | internal/report/report.go:320-335 | with distinct incident keys any blocking incident is permanent |
| `ReportLaws.BlockedForeverExactly` | internal/report/report.go:320-335 | exactly when no later report can free the merge of blockers: some key's first incident blocks |
| `ReportLaws.HiddenBlockerIsLost` | internal/report/report.go:320-335 | without distinct keys a blocker behind an earlier incident with its id is lost by the next merge |
| `Levels.RollupLevels` | internal/report/report.go:145-200 | the accumulate-and-walk loops return the rollups and the certified level |
| `Levels.CertifiedMeetsSpec` | internal/report/report.go:145-200 | the certified level is the greatest level with a pass and no failure that lies below every failing tested level, or 0 |
| `Levels.RollupsMeetSpec` | internal/report/report.go:145-200 | the rollups list each level but 0 that some verdict has, once and ascending, as failed exactly when one fails or errs, else as passed exactly when one passes, else as skipped |
| `Levels.OrderIrrelevant` | internal/report/report.go:145-200 | verdict order changes neither the certified level nor the rollups |
| `Levels.FailureNeverRaises` | internal/report/report.go:145-200 | adding a fail or error verdict never raises the certified level |
| `Levels.PassNeverLowers` | internal/report/report.go:145-200 | adding a pass never lowers it |
| `Levels.NegativeLevelLowers` | internal/report/report.go:145-200 | the positive-level assumption is needed: a pass at a negative level lowers it |
| `Checkpoint.ReportCheckpoint.Save` | cmd/harness/checkpoint.go:28-50 | the kept report becomes the merge, or the snapshot itself when there is nothing to merge with or merging fails (which is remembered); a permanent blocker survives |
| `Checkpoint.ReportCheckpoint.RecordIncident` | cmd/harness/checkpoint.go:52-68 | an incident with a known id changes nothing, any other is appended and saved |
| `Checkpoint.ReportCheckpoint.Finalize` | cmd/harness/checkpoint.go:70-84 | the kept report is finalized in place, its last part included, and stays honest about itself |
| `Checkpoint.SavesStayHonest` | cmd/harness/checkpoint.go:28-50 | whatever snapshots are saved, the kept report's derived fields say what its own lists and status demand, as the snapshots' do |
| `Checkpoint.CheckpointEqualsOneMerge` | cmd/harness/checkpoint.go:28-50 | saving every snapshot of a growing run gives exactly the results of one merge of its last snapshot |
| `Checkpoint.CheckpointIsOneMergeExactly` | cmd/harness/checkpoint.go:28-50 | saving every snapshot of a run part finds the same storage selections as one merge of its last snapshot, and gives exactly that report when the snapshots first saved new selections in the order the last one lists them |
| `Checkpoint.CheckpointWithoutRunId` | cmd/harness/checkpoint.go:28-50 | a checkpoint without a run id starts over from the first snapshot, and is then one merge of it with the last |
| `Checkpoint.RecordedMeaning` | cmd/harness/checkpoint.go:52-68 | recording an incident adds it unless its key is known and changes the meaning of no result list |
| `Interleaving.InterleavedEqualsOneMerge` | internal/orchestrator/orchestrator.go:116-142 | snapshots and recorded incidents in any order, as the orchestrator makes them, leave the results of one merge of the last snapshot if every recorded incident has an id |
| `Interleaving.InterleavedExactly` | internal/orchestrator/orchestrator.go:116-142 | the incident keys are those of one merge exactly when each incident, as it was recorded, has a key of the checkpoint's start or of the last snapshot |
| `Interleaving.IdsDecide` | internal/orchestrator/orchestrator.go:128-142 | where nothing listed is keyed like an incident without an id, the results are those of one merge exactly when every recorded incident has one |
| `Interleaving.BothKeysSurvive` | internal/orchestrator/orchestrator.go:128-142 | an input where they are not: an incident without an id ends up listed as recorded and again under the number the orchestrator gave its own copy |
| `Resume.ResumeExecutions` | internal/orchestrator/orchestrator.go:393-442 | the two scans and the filter return, in order, exactly the selected executions left to run: with a record, those not completed, or badly if failures are retried; without one, as in a report that records no executions, those no verdict is about, or with a failing one if failures are retried |
| `Resume.ResumeAfterMerge` | internal/orchestrator/orchestrator.go:393-442 | resuming against the merge of a report and a part that ran some of what it left gives exactly what the part did not settle. A record settles by being complete, and well if failures are retried; verdicts alone settle exactly where the prior report has no record either and, if failures are retried, none that fails is left unreplaced |
| `Resume.CompletedResultsKept` | internal/report/report.go:299-348 | records and verdicts of skipped executions come through the merge unchanged |
| `Resume.CampaignFinishes` | internal/orchestrator/orchestrator.go:393-442 | a campaign settling at least one execution per part, by records or by verdicts alone, leaves nothing to run after as many parts as executions were left |
| `Grading.SelectBars` | internal/grader/evaluators.go:133-143 | the bars for the metric and percentile whose conditions the parameters meet, in order |
| `Grading.DisjointExactly` | internal/grader/evaluators.go:133-166 | whatever numbers print as, pairwise clashing conditions are exactly what makes every selection have at most one bar |
| `Grading.DisjointNeverConflicts` | internal/grader/evaluators.go:133-166 | two different numbers or two different texts under a shared key exclude each other for every parameter map |
| `Grading.NumberAndItsTextOverlap` | internal/grader/evaluators.go:160-166 | the equality is asymmetric: a text bar accepts the number that prints so, a number bar never accepts a text |
| `Grading.GradeSlas` | internal/grader/evaluators.go:20-86 | one verdict per descriptor in order, each as the branch it falls in prescribes; with disjoint bars none is a data error |
| `Grading.GradeMeaning` | internal/grader/evaluators.go:20-86 | a descriptor passes (fails) exactly when its tool measures it, one bar governs it and has a value, and the first metric reported for it is comparable and meets (misses) it; it is skipped exactly when not measured or not graded, and an error exactly when bars conflict or no comparable metric was reported |
| `Grading.OperatorsMeanTheirOrder` | internal/grader/evaluators.go:240-255 | of <, == and > exactly one passes for a reading and a bar value, <= and >= are the unions they name, and nothing passes an unknown operator |
| `Grading.BetterStillPasses` | internal/grader/units.go:59-70 | a reading at least as good under the bar's operator, in any unit of the same dimension, keeps a pass |
| `Grading.GradeChecks` | internal/grader/evaluators.go:88-118 | one verdict per check in order; deferred and manual checks are skips, missing or unknown results errors |
| `Grading.Graded` | internal/grader/grader.go:23-46 | one verdict per SLA and check, in order and stamped with the execution, each with the outcome its measurement and bar, or its reported result, deserve |
| `Grading.ItemVerdicts` | internal/orchestrator/orchestrator.go:839-855 | error verdicts carry the same items in the same order as graded ones, or the one placeholder item if there are none |
| `Grading.RerunLeavesNothingStale` | internal/report/report.go:337-348 | merging a graded rerun over earlier attempts at the same items leaves only the rerun's verdicts for that execution |
| `Grading.RerunReplacesExactly` | internal/orchestrator/orchestrator.go:839-855 | among any other verdicts, merging a graded rerun leaves only its verdicts about the execution, all of a failed attempt replaced, exactly when the requirement has an SLA or a check |
| `Cluster.Server.DeleteUid` | internal/tools/virtbench/setup.go:397-419 | the environment's conditional delete: it takes effect only on the instance with that UID, and its reply may be lost |
| `Rollback.DeletePodUid` | internal/tools/virtbench/setup.go:387-431 | up to three attempts on the trimmed UID, a tenth of a second apart, ended by the first conclusive reply; it gives up earlier only at its deadline, and sends nothing for a blank UID |
| `Rollback.RollbackPod` | internal/tools/virtbench/setup.go:171-223 | against any interference: deletes take effect only on instances read before as the run's own (and with the created UID if known), none is sent after an acknowledged one and nothing at all is done after a refused one, every earlier read of the own pod is answered by a delete of that UID at once, and it succeeds exactly on a settled run of absent reads, a foreign pod seen, or a failed precondition, failing only at its deadline |
| `Rollback.SucceedsExactly` | internal/tools/virtbench/setup.go:171-223 | what success means without the settle interval's name: after absent reads only, the first and the last of them a second apart (so at least two), or on a foreign pod, or on a refused delete |
| `Rollback.SentAgainOnlyUnanswered` | internal/tools/virtbench/setup.go:171-223 | a second delete is sent only while no reply so far was conclusive, neither an acknowledgement nor a refusal |
| `Rollback.SentTwiceWhenUnanswered` | internal/tools/virtbench/setup.go:171-223 | its promises do not rule a second one out: for any pod of the run they hold of a history with two deletes, the reply to the first lost, that ends in success |
| `Rollback.UntrimmedRunIdRemovesNothing` | internal/tools/virtbench/setup.go:190-199 | a run id with surrounding blanks never matches the trimmed annotation, so its rollback removes nothing |
| `HelperPod.Bootstrap` | internal/tools/virtbench/setup.go:79-147 | the setup loop creates exactly on an absent read and deletes by name exactly a stopped or avoided pod that is not going away, at once and never otherwise, never deletes conditionally, remembers the UID of its last acknowledged create, looks again after five seconds unless it acted, and succeeds only on reading a running pod that is neither terminating nor on an avoided node |
| `HelperPod.Setup` | internal/tools/virtbench/setup.go:58-74 | rollback runs exactly after a failure with an attempted create (given a run id); once a create returned a UID, all it can remove is the instance that create made; the loop looks for five minutes at most, the rollback for two |
| `DrainLog.ParseDrain` | internal/tools/virtbench/parse.go:424-513 | the line loop and the final checks compute the grade of the folded log |
| `DrainLog.DistributionMeaning` | internal/tools/virtbench/parse.go:441-471 | a node's count before or after the drain is that of its last row in the last distribution printed under that header, if it has one |
| `DrainLog.ValuesMeaning` | internal/tools/virtbench/parse.go:452-464 | target and times are those of the last lines that give them |
| `DrainLog.ParseMeaning` | internal/tools/virtbench/parse.go:424-513 | the grade of a log by its last target, its last node time or else total time, and the target's last rows: which failure in which case, else those numbers, their rate, and a failure exactly when one remains |
| `DrainLog.AppendModeIsSafe` | internal/tools/virtbench/parse.go:424-513 | a run with a Nodes line, a parsable node time and both distributions grades alike after any earlier text |
| `DrainLog.AppendModeExactly` | internal/tools/virtbench/parse.go:424-513 | exactly which runs are immune to every earlier text; each other run is spoiled by some earlier one |
| `DrainLog.EvacuatedPlusRemaining` | internal/tools/virtbench/parse.go:483-504 | evacuated plus remaining is the total, and a pass means none remains |
| `Percentiles.ClampIsNoOp` | internal/tools/virtbench/parse.go:410-414 | for a fraction in (0, 1] the clamp of the rank never acts |
| `Percentiles.PercentileExactly` | internal/tools/virtbench/parse.go:410-414 | the percentile is a sample, and is exactly the number with at least the fraction of samples up to it and less than the fraction below it |
| `Percentiles.ClonePercentiles` | internal/tools/virtbench/parse.go:371-398 | one metric per label with a number in (0, 100], in label order, each that percentile of the present durations; nothing without samples |
| `Percentiles.RowOrderIrrelevant` | internal/tools/virtbench/parse.go:371-398 | permuting the rows changes no metric |
| `Percentiles.SafeExactly` | internal/tools/kubeburner/parse.go:197-207 | the percentiles whose index accesses are in bounds for every non-empty list are exactly 50 to 100 |
| `Percentiles.BetweenExtremes` | internal/tools/kubeburner/parse.go:197-207 | every in-bounds result lies between the truncated minimum and maximum |
| `Percentiles.PercentilesAscend` | internal/tools/kubeburner/parse.go:197-207 | a higher percentile is never a smaller number |
| `Percentiles.KubeBurnerExactly` | internal/tools/kubeburner/parse.go:197-207 | the sample at the rank when the rank is whole, else the mean of the two around it, truncated |
| `Percentiles.SnapshotReadyMetrics` | internal/tools/kubeburner/parse.go:182-194 | for every non-empty list the emitted values are in bounds, those of the ascending list, p50 <= p95 <= p99 <= max, and max is the truncated largest latency |
| `Percentiles.LatenciesPermuted` | internal/tools/kubeburner/parse.go:182-194 | permuted rows give the same four values, whatever sorting algorithm ran |
| `Arguments.Argument` | internal/tools/virtbench/manifest.go:333-346 | the value of the first occurrence, spaced or joined; empty when what follows is missing or looks like a flag |
| `Arguments.ArgumentMeans` | internal/tools/virtbench/manifest.go:333-346 | by the first argument that is the flag or starts with it and an equals sign, and only by it |
| `Arguments.SetArgument` | internal/tools/virtbench/manifest.go:348-360 | writes in place at the first occurrence that can take a value, and otherwise appends leaving the given list as it was |
| `Arguments.SetMeans` | internal/tools/virtbench/manifest.go:348-360 | the first such argument's joined text or the argument behind it is written and nothing else, and with none, or one at the end, flag and value are appended |
| `Arguments.GetAfterSet` | internal/tools/virtbench/manifest.go:333-360 | setting reads back exactly when the first occurrence is joined, or the value does not look like a flag and the flag does not dangle at the end |
| `Arguments.SetOverwritesExactly` | internal/tools/virtbench/manifest.go:348-360 | setting a flag leaves all occurrences of another one as they were exactly when the other does not directly follow the first occurrence of the flag, in the place of its value |
| `Arguments.SetKeepsOthers` | internal/tools/virtbench/manifest.go:348-360 | and then the other flag reads as before |
| `Arguments.SetCanDestroyAFlag` | internal/tools/virtbench/manifest.go:348-360 | otherwise, if that was the other flag's first occurrence, it reads as its next one, and as missing if there is none |
| `Arguments.RemoveArgument` | internal/tools/virtbench/manifest.go:362-372 | the loop that drops joined occurrences, and spaced ones with what follows |
| `Arguments.RemoveMeans` | internal/tools/virtbench/manifest.go:362-372 | exactly the arguments that are neither the flag, nor what follows it, nor a joined form are left, in order |
| `Arguments.RemoveLeavesAbsent` | internal/tools/virtbench/manifest.go:362-372 | a removed flag is gone, whatever the list looks like |
| `Arguments.RemoveDisturbsExactly` | internal/tools/virtbench/manifest.go:362-372 | a removal leaves every occurrence of another flag, with its value, exactly when it takes none of them for the value of the removed flag and lets none that had no value take one from behind |
| `Arguments.RemoveKeepsOthers` | internal/tools/virtbench/manifest.go:362-372 | and then the other flag reads as before |
| `Templates.ResolveTemplateValues` | internal/tools/virtbench/manifest.go:70-91 | every input gets its flag's text, checked by type, or its default; one bad flag fails the whole |
| `Templates.ResolvedByPrecedence` | internal/tools/virtbench/manifest.go:93-105 | on clean inputs a value comes from the command line, else the plan, else the default |
| `Templates.FillArguments` | internal/tools/virtbench/manifest.go:93-117 | on clean inputs every explicit flag reads back the value used for rendering, numerically for counts, or is absent because it is empty; the given arguments stay in front and other flags keep their values |
| `Templates.PlanIsGot` | internal/tools/virtbench/manifest.go:405-414 | reading a flag from the plan's arguments gives exactly the plan's parameter for it |
| `Templates.CommandsAreProper` | internal/tools/virtbench/manifest.go:42-67 | the template inputs of every command have distinct keys and flags, and defaults a flag can carry |
| `Templates.AtoiOfSprint` | internal/tools/virtbench/manifest.go:76-113 | parsing a printed integer gives it back |
| `Text.JoinInjective` | internal/orchestrator/orchestrator.go:444-446 | a NUL-joined key determines its fields when none holds a NUL byte |

## Left out

- Report fields that merging copies or concatenates: environment, attestations, warnings, timestamps,
  stages, artifacts and provenance other than the KB commit.
- Checkpoint.CheckpointEqualsOneMerge: that snapshots grow into the last one (`GrowsInto`) is a hypothesis,
  here and in `Interleaving`. The run model has no verdicts and no snapshots, so it is not shown to satisfy it.
- Grading.Graded: a verdict's level is that of its own requirement; the program looks it up by id, which
  differs only where requirements of one id have different levels.
- Grading.GradeSlas: a verdict's reason names its case; the numbers and names the program prints into it, and
  its expected and actual texts, are left out.
- Measurement selection (`report.SelectMeasurements`), Markdown, JUnit and JSON rendering.
- Checkpoint file writes and atomic replacement; each checkpoint call is one step, so the window in which
  `RecordIncident` has unlocked and not yet called `Save` is not modelled.
- Progress.Tracker.Start: a transition and the callback that updates the execution record are one step,
  and so are `Complete` and `Abort`; logging is left out.
- RunDriver.RunJobs: jobs interleave in any order, a superset of the orders `schedule` allows; `ScheduledRun`
  adds the lock protocol and shows every scheduled run to be one of them.
- Stranding.CanStrand: `RunOutcome.IsLog` takes every phase by its contract, so not every log is some run's.
- Rollback.SentTwiceWhenUnanswered: shows a history the contract admits; what the environment decides is
  arbitrary in the methods, so no execution of them is exhibited.
- Interleaving.InterleavedEqualsOneMerge: storage selections and run parts are not compared there.
- The stage pipeline of a job (`runJobWithTimeout`): its verdicts are arbitrary in the run model.
- Tool lookup is a parameter from tool label and id to integration, and registered setup providers are
  sets of keys; the registry itself is not part of this model.
- `ResolveExecutions`, catalog and plan loading: the selected executions are given.
- Setup and teardown bodies of providers other than the SSH helper pod, and stamping its annotations.
- Rollback.RollbackPod: when the deadline and a tick are ready at the same moment the model takes the
  deadline, where Go picks either; only termination depends on it.
- Cluster.Server.DeleteUid: UIDs are assumed unique and without surrounding blanks, as Kubernetes assigns
  them; a delete that waits for graceful termination is a pod that stays visible.
- Numbers are exact reals; float rounding, NaN and infinities are not modelled. Integer parsing is
  unbounded where Go stops at 64 bits (Templates, DrainLog).
- DrainLog.ParseDrain: a line is its class; the regular expressions and prefix stripping that assign the
  class are not modelled.
- Percentiles.ClonePercentiles: a label is given with the number it parses to; JSON decoding is left out.
- Grading.DisjointExactly: how a number prints is a parameter, and the bars' own numbers are assumed to
  print as given. Custom evaluators are left out, and the unit table is a parameter.
- Templates.FillArguments: only the flag-filling part of `prepareManifest`; rendering and validating the
  template, and the command's own position in the list, are left out.
- Text.Trim: strips ASCII blanks only.
