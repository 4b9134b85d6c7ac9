# Vihara maintenance controller: verified model

Vihara is a Kubernetes controller for node maintenance.  A *Maintenance* describes stages to carry out
on selected nodes within a time window; for each node the controller creates a *MaintenanceJob*, whose
stages drain nodes, uncordon them or run a pod as a Kubernetes Job.  This project models the controller
(`pkg/controller/maintenance`) in Dafny 4.11 and proves what it guarantees over whole runs: two writers
share one status object, names are chosen from a stale cache, writes are refused or answered late, and
cached objects are edited before their write is accepted.

`dafny verify dfyconfig.toml` checks the whole project.

## How it is organised

- `Types`: the records of the API group, and the accessors of a MaintenanceJob.
- `StageSystem`: one MaintenanceJob as a step system (versioned server, lagging and dirty cache, runner
  passes split into loop iterations, Job reporter, added handler, clock) and what every run keeps.
  `StageRunner` is the runner as an imperative loop over shared objects, proved to make exactly those
  steps.  `JobReporter` is the second writer and the Job it reports on.
- `StageRuns`: runs that exist, up to any stage the runner can reach; `StageSilence`: the code as
  written, whose reporter never writes; `StageCrash`: exactly which jobs can crash the runner;
  `StageOverlap`: exactly which jobs run their stages one at a time.
- `StageTimeouts`: what ends a drain or uncordon stage, and what one pass does to the stage it comes to.
- `DrainStages`, `PodStages`, `PodResults`, `StageProgress`, `JobPoller`: order, exclusivity, delays,
  results, progress and polling, with the exact class of jobs or states for which they hold.
- `EnvMerge`, `JobGeneration`: environment merging and the generated job.
- `NodeTaints`: drain and uncordon on a list of nodes with failing patches.
- `JobNames`, `JobCreation`: candidate names, the probe loop, and job creation against a stale cache.
- `DependencyGate`: dependency gate and node filter, loops against a rule; `DependencyRuns`: what the gate
  makes of the statuses that jobs reach.
- `Lifecycle`, `MaintenanceRuns`, `MaintenanceController`: admission, snapshot, polling and finish as a
  step system, the runs that show what can go wrong in it, and the handlers as imperative code that makes
  those steps.

A run is any sequence of steps from the freshly created object; a step that is not possible at that
point changes nothing, so quantifying over all step sequences is quantifying over all interleavings.
An API write has three outcomes: acknowledged, applied although the caller sees an error, not applied.
Clock readings, API outcomes, drain results, label selectors, toleration matching, env resolution, JSON
and SHA-256 are parameters about which nothing is assumed except that the clock does not go back and
starts after Go's zero time.

## Where the code differs from what it seems to intend

The model follows the code.  Each of these is stated as a lemma, with the failing run or input and, where
it is a property of a class of jobs or states, the exact condition.

- The Job reporter compares the old finish time with itself (`job.go:99`) and so never writes
  (`ComputeReport`). In runs its write may be delivered or dropped at will, so what is proved of all
  runs holds of the code as written and of a reporter that writes. Exact conditions differ, because
  a failing run may need a report: they are stated for both readings, for runs without reports
  (`Silent`) and for a reporter that writes. As written, no job ever gets past a pod stage
  (`StopsAtPod`).
- Starting a drain or uncordon stage does not end the pass, so the next stage starts in the same
  pass (`OverlapRun`); stages run one at a time exactly in the classes of `ManagedInTurnIff`,
  `SilentInTurnIff` and `InTurnIff`. A stage with no action is skipped (`ShutStaysUntouched`).
- `uncordonNodes` reads the drain spec of its stage, and the runner calls it only for stages without
  one, so a stage with an uncordon spec only is a nil dereference unless it times out first
  (`SilentCrashFreeIff`, and `CrashFreeIff` for a reporter that writes), and it never succeeds
  (`UncordonNeverSucceeds`). The results about the uncordon loop in `NodeTaints` therefore concern a
  loop that the runner cannot enter.
- With a reporter that writes, a Job reported as succeeded and failed at once makes the runner
  record both results, if it is the last of several stages (`PodResultsIff`), and a Job reported as
  succeeded and still active keeps its MaintenanceJob in the poll queue (`PodLetGoIffTerminal`).
- The poller judges the cached object that the pass has just edited: after a refused finishing write
  it drops a job that is still live on the server (`DrainDroppedIff`, `PodDroppedIff`,
  `RefusedFinishDropsWork`), and no handler queues it again.
- A pass that is cut off while it records a success leaves the finish time of an earlier stage as
  the success time for good (`CutOffSuccessTime`).
- A MaintenanceJob with no stages crashes its handler (`StagelessJobCrashes`).
- `mergeEnv` is not an override when the template repeats a name (`OverlayIsOverride`), and
  `mergeEnvFrom` confuses sources whose name and prefix run together alike (`SourceKeysEqualIff`).
- A dependency looks at the last stage of a job only, so a job whose failure came earlier meets neither
  "succeeded" nor "failed" for good (`EarlyFailureMeetsNothing`, with the run in `FailureRun` and the exact
  condition in `DrainJobMeets` and `PodJobMeets`); as written, neither does any job with a pod stage
  (`SilentPodMeetsNothing`).
- `uncordonNodes` returns at the first node without the taint, so a retry does not finish its work
  (`UncordonCleansIff`, `UncordonRetryStops`).
- A deleted MaintenanceJob that the cache has seen frees a name, after which one machine can get a
  second job (`DeletionSafeIff`); node names with dots let two Maintenances claim one job name
  (`SharedNameIff`).
- A refused scheduling write leaves its snapshot in the cached object, from which the next pass
  creates jobs (`UnacceptedSnapshotCreatesJobs`); jobs are sure to be made from a snapshot the
  server holds exactly once it holds one (`SnapshotHeldIff`).
- A pass under way when another goroutine finishes its Maintenance goes on creating jobs
  (`JobAfterFinish`, `NoJobAfterFinishIff`).
- A failed finish write is followed by a nil dereference (`CrashIff`, `CrashOnlyAfterWindow`).

## Model

| member | source | states |
|---|---|---|
| `StageSystem.FinishedStageIsFrozen` | pkg/controller/maintenance/maintenencejob.go:114-258 | In every run, with runner, Job reporter and added handler interleaved in any way, any cache lag, dirty cache, refused writes and lost answers: a stage record finished at one server version is identical at every later version; it is finished exactly when it succeeded or failed; a running one has a start time. |
| `StageSystem.RunKeepsInv` | pkg/controller/maintenance/maintenencejob.go:98-261 | The invariant behind all run results: every copy anyone holds, however dirty, extends the server version it was read at without changing a finished record. |
| `StageSystem.DecideOk` | pkg/controller/maintenance/maintenencejob.go:114-258 | Whatever one loop iteration writes is a good extension of the version its pass works on and touches no later stage; the iteration crashes exactly if it meets a running stage with an uncordon spec only whose timeout is not over. |
| `StageSystem.StatusMatchesSpec` | pkg/controller/maintenance/maintenencejob.go:31-43 | In every run the status has at most as many records as the spec has stages, with equal names position by position, on the server and in the cache; so the lookup of the stage spec by status index is in range. |
| `StageSystem.DrainedJobNeverCrashes` | pkg/apis/vihara/v1alpha1/types_maintenancejob.go:85-98 | With at least one stage and no stage that has an uncordon spec only, no run of any job indexes out of range or dereferences nil in the runner, the added handler or the accessors. |
| `StageSystem.StagelessJobCrashes` | pkg/apis/vihara/v1alpha1/types_maintenancejob.go:85-89 | With no stage the handler of the new object crashes at once. |
| `StageCrash.SilentCrashFreeIff` | pkg/controller/maintenance/maintenencejob.go:190-195 | The code as written, for every job: no run without report writes crashes if and only if there is a stage, and every stage with an uncordon spec only times out at once, or comes behind a pod or a drain or uncordon stage that cannot succeed. |
| `StageCrash.CrashFreeIff` | pkg/controller/maintenance/maintenencejob.go:190-195 | With a reporter that writes, for jobs whose pod stages have names of their own: no run crashes if and only if there is a stage, and every stage with an uncordon spec only times out at once or comes behind a drain or uncordon stage that cannot succeed. |
| `StageCrash.CrashRun` | pkg/controller/maintenance/maintenencejob.go:263-264 | The failing run, from creation on, for every job outside those conditions: the runner calls uncordonNodes, which reads the missing drain spec. It contains no report if no pod comes before that stage. |
| `StageCrash.ManagedCrashFreeIff` | pkg/controller/maintenance/maintenencejob.go:190-195 | For jobs of drain and uncordon stages with timeouts that are not negative: no run crashes if and only if every stage has a drain spec. |
| `StageCrash.UncordonNeverSucceeds` | pkg/controller/maintenance/maintenencejob.go:190-217 | In no run, of the code as written for every job, and with a reporter that writes for jobs whose pod stages have names of their own, does a stage with an uncordon spec only succeed. |
| `StageCrash.UncordonJobNeverSucceeds` | pkg/controller/maintenance/maintenencejob.go:135-154 | So no run of a drain and uncordon job with such a stage records a success. |
| `StageSilence.StopsAtPod` | pkg/controller/maintenance/job.go:94-111 | The code as written never gets past a pod: in every run without report writes neither a pod stage nor any later stage is ever started or finished on the server, and no success is recorded. |
| `StageSilence.ShutStaysUntouched` | pkg/controller/maintenance/maintenencejob.go:239-257 | In those runs a stage without an action, a pod stage and whatever comes after a pod is never worked on. |
| `StageRuns.ReachesStage` | pkg/controller/maintenance/maintenencejob.go:98-261 | Every stage that only passable stages precede is reached by some run, whatever the delays: without any report if no pod is among them, else with a reporter that writes; the witness for the failing runs. |
| `StageRuns.Advances` | pkg/controller/maintenance/maintenencejob.go:114-258 | From a calm state with k stages behind, some run puts one more behind: a drain, or a pod if the reporter writes. |
| `StageSystem.HistoryGrows` | pkg/controller/maintenance/maintenencejob.go:39-60 | Server versions are only ever appended, so statements about history entries are statements about every moment of a run. |
| `StageSystem.CompletedKeeps` | pkg/controller/maintenance/maintenencejob.go:39-43 | Completing a status keeps all existing records and adds one empty record of the right name for each missing stage. |
| `StageRunner.Runner.ScheduleMaintenanceJob` | pkg/controller/maintenance/maintenencejob.go:98-261 | The imperative pass, editing the cached object in place and switching to the server's answer after an accepted write, does exactly what the steps of a run do (fast form refines the step system). |
| `StageRunner.Runner.RunStages` | pkg/controller/maintenance/maintenencejob.go:114-258 | The loop over the stages the cached object had when the pass began, with its early returns, equals the sequence of single iterations. |
| `StageRunner.Runner.RunStage` | pkg/controller/maintenance/maintenencejob.go:114-258 | One loop iteration has the effect the step system assigns to it: branch, in-place edit, write, and object to go on with. |
| `StageRunner.Runner.RunRunning` | pkg/controller/maintenance/maintenencejob.go:159-218 | A running stage: left alone if it is a pod, else timed out, or a crash if it has no drain spec, or marked as temporarily failing, or done; the pass ends in every case. |
| `StageRunner.Runner.RunIdle` | pkg/controller/maintenance/maintenencejob.go:220-257 | An idle stage: held back by its delay, started and passed on, launched as a Job, or skipped when it has no action. |
| `StageRunner.Runner.UpdateStatus` | pkg/controller/maintenance/maintenencejob.go:126-130 | The write is applied only at the current version; the caller may see an error although it was applied. |
| `StageRunner.CompleteStages` | pkg/controller/maintenance/maintenencejob.go:39-43 | The append loop of the added handler computes the completed status. |
| `StageRunner.RunPassIsRun` | pkg/controller/maintenance/maintenencejob.go:98-261 | An uninterrupted pass is a run, so all run results hold of it. |
| `StageTimeouts.FailsOnlyByTimeout` | pkg/controller/maintenance/maintenencejob.go:169-187 | In every run, of the code as written for every job, and with a reporter that writes if pod stages have names of their own: a drain or uncordon stage has failed only with reason Timeout and a finish time more than its timeout after its start; while the timeout is not over it has not failed. |
| `StageTimeouts.ManagedTimesInOrder` | pkg/controller/maintenance/maintenencejob.go:176-247 | In those runs such a stage has a start time exactly if it is running, succeeded or failed, and start and finish are clock readings in this order, none in the future. |
| `StageTimeouts.LatePassFails` | pkg/controller/maintenance/maintenencejob.go:169-187 | A pass that meets a running drain or uncordon stage past its timeout leaves it failed and not running on the server, with reason and message of a timeout and the time of the write, whatever the drain would have said, and changes nothing else. |
| `StageTimeouts.DrainedPassSucceeds` | pkg/controller/maintenance/maintenencejob.go:189-217 | Before the timeout is over, a drain that is carried out leaves exactly that stage succeeded, with the time of the write. |
| `StageTimeouts.FailedDrainIsRetried` | pkg/controller/maintenance/maintenencejob.go:197-205 | Before the timeout is over, a drain that fails leaves the stage running and records the error as a temporary failure. |
| `StageTimeouts.UncordonPassCrashes` | pkg/controller/maintenance/maintenencejob.go:189-195 | Before its timeout is over, a running stage with an uncordon spec only is a crash, and nothing is written. |
| `StageTimeouts.DuePassStarts` | pkg/controller/maintenance/maintenencejob.go:239-247 | An idle drain or uncordon stage whose delay is over is started by the pass that comes to it, at the clock reading of its write. |
| `StageTimeouts.DuePassLaunches` | pkg/controller/maintenance/maintenencejob.go:248-256 | An idle pod stage whose delay is over gets its Job, with name, labels and owner by which reports find back, unless a Job of that name exists. |
| `StageTimeouts.EarlyPassWaits` | pkg/controller/maintenance/maintenencejob.go:222-237 | While the delay of the stage a pass comes to is not over, the pass writes nothing and creates nothing. |
| `StageTimeouts.FailureIsRecorded` | pkg/controller/maintenance/maintenencejob.go:117-133 | The pass that comes to a failed stage records the job as failed at the finish time of that stage. |
| `DrainStages.CompletesInOrder` | pkg/controller/maintenance/maintenencejob.go:114-247 | For jobs of drain and uncordon stages only, whose starts may overlap: every status the server ever holds is succeeded stages, at most one failed stage, running stages, idle stages, in that order, under any write failures and action errors. |
| `DrainStages.DrainResults` | pkg/controller/maintenance/maintenencejob.go:104-154 | For those jobs, in every run: a recorded success means all spec stages succeeded, a recorded failure that some stage failed, never both; a success is dated by the finish of a stage, a failure by the finish of a failed one. |
| `DrainStages.DecideGood` | pkg/controller/maintenance/maintenencejob.go:114-247 | Every status one iteration of such a job writes is in order and carries a right result. |
| `PodStages.OneStageAtATime` | pkg/controller/maintenance/maintenencejob.go:114-258 | For jobs with distinct stage names and drain or uncordon at most as last stage, in every run: done stages, then at most one started stage that is not done, then stages never started. |
| `PodStages.StartsAfterDelay` | pkg/controller/maintenance/maintenencejob.go:220-256 | For those jobs, in every run: a stage has started only if all earlier ones succeeded, and no sooner than its delay after the previous finish time, or after the creation of the job for the first stage. |
| `PodStages.LaunchInTurn` | pkg/controller/maintenance/maintenencejob.go:248-256 | A Job is created only for the stage whose turn it is, also in the view the reporter will later use. |
| `StageOverlap.OverlapRun` | pkg/controller/maintenance/maintenencejob.go:222-247 | The overlap, from creation on: after the first drain or uncordon stage that is not the last one, the next stage starts in the same pass, before the first has finished and without its delay after it. No report is needed if both are drain or uncordon stages and no pod comes before. |
| `StageOverlap.ManagedInTurnIff` | pkg/controller/maintenance/maintenencejob.go:222-247 | Drain and uncordon jobs run one stage at a time, each after its delay, in all runs if and only if they have one stage; the failing run has no reports. |
| `StageOverlap.SilentInTurnIff` | pkg/controller/maintenance/maintenencejob.go:222-247 | The code as written: jobs whose stages all have an action run one stage at a time, each after its delay, in all runs without report writes if and only if the first two stages are not both drain or uncordon stages. |
| `StageOverlap.InTurnIff` | pkg/controller/maintenance/maintenencejob.go:222-247 | With a reporter that writes: jobs whose stages all have an action, and whose pod stages have names of their own, do so in all runs if and only if only the last stage may be a drain or uncordon stage. |
| `PodResults.PodJobResults` | pkg/controller/maintenance/maintenencejob.go:104-154 | For those jobs, in every run in which no report claims both success and failure of the last of several stages: recorded success means all stages succeeded, recorded failure that some stage failed, never both; each is dated by the finish of such a stage. Reports on other stages may claim anything. |
| `PodResults.PassRecordsBoth` | pkg/controller/maintenance/maintenencejob.go:114-154 | Once the last of several stages is both succeeded and failed, one pass with every write accepted records success and failure together. |
| `PodResults.SilentPodResults` | pkg/controller/maintenance/maintenencejob.go:104-154 | As the code is written, the results of those jobs are right in every run. |
| `PodResults.DishonestRun` | pkg/controller/maintenance/maintenencejob.go:98-261 | With a reporter that writes: a whole run, from creation on, that ends with both results on the server, for every such job that ends with a pod after other stages, whatever its delays. |
| `PodResults.PodResultsIff` | pkg/controller/maintenance/maintenencejob.go:104-154 | With a reporter that writes: results are right in all runs if and only if the job has one stage or ends with a drain or uncordon stage. |
| `StageProgress.ResultWithinBound` | pkg/controller/maintenance/maintenencejob.go:114-247 | A job of n drain stages has a result after at most 2n+1 passes that are not delayed, refused or temporarily failing, from every reachable state. |
| `StageProgress.PassLowersMeasure` | pkg/controller/maintenance/maintenencejob.go:114-247 | Each such pass strictly lowers 2*idle + running + (result unset). |
| `StageProgress.SuccessTimeIsLastFinish` | pkg/controller/maintenance/maintenencejob.go:135-154 | A pass over an all-succeeded job with all writes accepted leaves the success time equal to the finish time of the last stage. |
| `StageProgress.CutOffSuccessTime` | pkg/controller/maintenance/maintenencejob.go:104-154 | A pass cut off after k of these writes leaves the finish time of stage k-1 as success time, and later passes do not correct it. |
| `JobPoller.StillLive` | pkg/controller/maintenance/maintenencejob.go:376-397 | The scan lets a job go exactly if a failed stage comes before any running one, or all spec stages succeeded and none is running. |
| `JobPoller.DrainLetGoIffTerminal` | pkg/controller/maintenance/maintenencejob.go:376-397 | On the statuses drain and uncordon jobs reach, polling stops exactly at the terminal ones: some stage failed, or all succeeded. |
| `JobPoller.PodLetGoIffTerminal` | pkg/controller/maintenance/maintenencejob.go:376-397 | On the statuses pod jobs reach, polling stops exactly at the terminal ones in which no successful stage was reported as still active. |
| `JobPoller.CleanLetGoIsTerminal` | pkg/controller/maintenance/maintenencejob.go:370-397 | In every reachable state a job the poller lets go of is terminal on the server, if the cached stages are those of the version the object was read at. |
| `JobPoller.DrainDroppedIff` | pkg/controller/maintenance/maintenencejob.go:370-397 | While the server does not show a drain and uncordon job as terminal, the poller drops it if and only if the cached object carries an unwritten finish that is a failure or that of the last stage. |
| `JobPoller.PodDroppedIff` | pkg/controller/maintenance/maintenencejob.go:370-397 | The same for pod jobs: only an unwritten finish of the last stage, with no successful stage reported as active, drops live work. |
| `JobPoller.RefusedFinishDropsWork` | pkg/controller/maintenance/maintenencejob.go:207-217 | The failing run, for every job that ends with a drain and whose stages can all succeed, without any report if no pod is among them: the write of the last finish is refused, the scan reads the edited cached object and lets go, and the server still shows the stage as running. |
| `JobPoller.Poller.Process` | pkg/controller/maintenance/controller.go:244-258 | After a poll step the job is queued exactly if the scan does not let go; if it is not queued, it is terminal on the server or the cached object carries an unwritten finish; other queued names are untouched. |
| `JobReporter.RoutingRoundTrip` | pkg/controller/maintenance/job.go:28-63 | The Job generated for stage i, if no other stage has its name, is routed back to stage i of the same MaintenanceJob and leaves every other record alone, whatever labels the MaintenanceJob has. |
| `JobReporter.RouteIff` | pkg/controller/maintenance/job.go:28-44 | A Job is routed exactly if its first controller is a MaintenanceJob and it carries the stage label, and then to that MaintenanceJob in its own namespace and the labelled stage. |
| `JobReporter.ReportStagesAt` | pkg/controller/maintenance/job.go:61-107 | A report on a stage name that occurs once replaces the record of that stage, unless it is finished, and nothing else. |
| `JobReporter.ReportStagesPointwise` | pkg/controller/maintenance/job.go:61-107 | For any names a report only replaces unfinished records of its own stage name. |
| `JobReporter.StageFromBatch` | pkg/controller/maintenance/job.go:72-92 | A derived record has succeeded, failed or is running exactly at a count of 1, has a finish time exactly if it succeeded or failed, starts at the creation of the Job, and carries reason and message of the last condition. |
| `JobReporter.ComputeReport` | pkg/controller/maintenance/job.go:60-111 | The loop computes that replacement, and as written it never decides to write it. |
| `EnvMerge.MergeEnv` | pkg/controller/maintenance/maintenencejob.go:502-531 | The index map, the deletions from it and the sorting of its remains compute the overlay of b on a. |
| `EnvMerge.MergeEnvFrom` | pkg/controller/maintenance/maintenencejob.go:533-575 | The same over the concatenated source key, where entries without a source have no key. |
| `EnvMerge.SortedRemains` | pkg/controller/maintenance/maintenencejob.go:519-528 | The remaining indices, met in any map order and then sorted, are the kept indices of b in ascending order. |
| `EnvMerge.AscendingUnique` | pkg/controller/maintenance/maintenencejob.go:519-528 | An ascending list is determined by its elements, so map iteration order cannot show in the result. |
| `EnvMerge.OverlayLookup` | pkg/controller/maintenance/maintenencejob.go:502-531 | Every last-wins lookup in the merged list, for any two lists: the value of b, unless a repeats the key, else the value of a. |
| `EnvMerge.OverlayIsOverride` | pkg/controller/maintenance/maintenencejob.go:502-531 | The merge is map override (b over a) if and only if every key that a repeats and b has resolves equally in both; in particular for distinct names in a. |
| `EnvMerge.RepeatedNameDefeatsOverride` | pkg/controller/maintenance/maintenencejob.go:509-517 | A concrete input on which the override fails. |
| `EnvMerge.OverlayDistinct` | pkg/controller/maintenance/maintenencejob.go:502-531 | With distinct keys in a, each key appears once in the result. |
| `EnvMerge.OverlayKeepsPositions` | pkg/controller/maintenance/maintenencejob.go:509-517 | The positions of a are kept: each entry there has its old key and is the old one or what b resolves that key to. |
| `EnvMerge.AppendedInOrder` | pkg/controller/maintenance/maintenencejob.go:519-528 | What the result has beyond a keeps the order of b. |
| `EnvMerge.OverlayIdempotent` | pkg/controller/maintenance/maintenencejob.go:502-531 | Merging the same list again changes nothing, for any input. |
| `EnvMerge.SourceKeysEqualIff` | pkg/controller/maintenance/maintenencejob.go:537-553 | Source keys agree exactly if the kinds agree and the run-together name and prefix agree. |
| `EnvMerge.SourceKeysCollide` | pkg/controller/maintenance/maintenencejob.go:537-553 | Two different sources with one key, of which one silently replaces the other. |
| `EnvMerge.EnvKeysEqualIff` | pkg/controller/maintenance/maintenencejob.go:505-508 | Variables share a key exactly if they have the same name. |
| `EnvMerge.MergedValue` | pkg/controller/maintenance/maintenencejob.go:502-531 | Stated by variable names alone: after the merge each name has its last value in b, if there is one and a does not give the name twice, else its last value in a. |
| `EnvMerge.SameSourceIff` | pkg/controller/maintenance/maintenencejob.go:533-553 | An entry has a key exactly if it has a source, and two entries share a key exactly if both are config maps or both secrets and their names and prefixes run together alike. |
| `EnvMerge.MergedSourceAt` | pkg/controller/maintenance/maintenencejob.go:545-562 | Stated by kinds, names and prefixes alone: each source of a keeps its place, and exactly the first of its kind and run-together name gives way to the last such source of b, if there is one. |
| `EnvMerge.MergedSources` | pkg/controller/maintenance/maintenencejob.go:533-575 | The last source of b of each kind and run-together name is in the result, and what the result has beyond a is such sources that a lacks. |
| `JobGeneration.GenerateStages` | pkg/controller/maintenance/maintenencejob.go:441-480 | The loop over the stages of the snapshot computes the generated stages. |
| `JobGeneration.MergeContainers` | pkg/controller/maintenance/maintenencejob.go:464-476 | The in-place loop gives every container the overlay of its own and the node specific environment. |
| `JobGeneration.GeneratedStagesMatch` | pkg/controller/maintenance/maintenencejob.go:441-480 | A generated job keeps the snapshot's stage count, order, names, delays and actions, with zero timeouts defaulted. |
| `JobGeneration.GeneratedPodPlaced` | pkg/controller/maintenance/maintenencejob.go:449-476 | A generated pod is never restarted, keeps its containers, and gets the job's node and the snapshot's tolerations unless it chose its own placement. |
| `JobGeneration.GeneratedEnvOverrides` | pkg/controller/maintenance/maintenencejob.go:464-476 | In every init and main container each variable has its node specific value, if there is one, else the template's own; only a name the template gives twice keeps the template's value. |
| `JobGeneration.GeneratedEnvFrom` | pkg/controller/maintenance/maintenencejob.go:464-476 | Every init and main container has the node specific sources, of those alike in kind and run-together name the last; its own stay in place, except that the first of such a name gives way to the node specific one. |
| `NodeTaints.NodeApi.DrainNodes` | pkg/controller/maintenance/maintenencejob.go:301-331 | The drain loop over a node list with a failing patch at any node computes the drain outcome. |
| `NodeTaints.NodeApi.UncordonNodes` | pkg/controller/maintenance/maintenencejob.go:269-292 | The uncordon loop on a node list, with its early return at an untainted node, computes the uncordon outcome. The runner crashes on the line before this loop. |
| `NodeTaints.StripTaints` | pkg/controller/maintenance/maintenencejob.go:270-280 | The filter loop drops exactly the taints with the unschedulable key, in order. |
| `NodeTaints.DrainAddsAtMostOne` | pkg/controller/maintenance/maintenencejob.go:301-331 | Over any number of drain calls, each failing anywhere: every node gains at most one drain taint, only if it had none, and no other taint changes. |
| `NodeTaints.DrainIdempotent` | pkg/controller/maintenance/maintenencejob.go:301-331 | After a successful drain every further call succeeds and changes nothing. |
| `NodeTaints.DrainSucceedsOnAll` | pkg/controller/maintenance/maintenencejob.go:301-331 | After a successful drain call every listed node has a taint with the unschedulable key, no value, effect NoSchedule and a time added. |
| `NodeTaints.DrainAppendsIff` | pkg/controller/maintenance/maintenencejob.go:307-328 | A drain call with no failing patch appends exactly that taint, dated by its clock, to a node if and only if no taint of the node had all four. |
| `NodeTaints.DrainFailsIff` | pkg/controller/maintenance/maintenencejob.go:318-329 | A drain call fails if and only if the patch of a node that needs one fails. |
| `NodeTaints.StripConcat` | pkg/controller/maintenance/maintenencejob.go:270-279 | The filter works taint by taint: what it keeps of two lists put together is what it keeps of each, in order. |
| `NodeTaints.UncordonCleansIff` | pkg/controller/maintenance/maintenencejob.go:269-292 | An uncordon call without failing patches reports success, and cleans all nodes if and only if no untainted node is listed before a tainted one. |
| `NodeTaints.UncordonRetryStops` | pkg/controller/maintenance/maintenencejob.go:282-284 | A retry after a partial failure reports success at the first clean node and leaves the rest tainted. |
| `NodeTaints.DrainUncordonRestoresIff` | pkg/controller/maintenance/maintenencejob.go:269-329 | Draining, with any retries, and then uncordoning the same fully drained list restores every node's taints if and only if none had the unschedulable key before. |
| `JobNames.HexRoundTrip` | pkg/controller/maintenance/maintenance.go:592-593 | Reading a hexadecimal suffix back gives the counter. |
| `JobNames.CandidateInjective` | pkg/controller/maintenance/maintenance.go:587-593 | The candidate names of one base are pairwise distinct. |
| `JobNames.TakenBound` | pkg/controller/maintenance/maintenance.go:587-606 | By pigeonhole a cache of n entries holds at most the first n candidates. |
| `JobNames.ProbeName` | pkg/controller/maintenance/maintenance.go:587-606 | The probe loop ends within one probe more than the cache has entries; it skips exactly if a job of the same machine lies in the leading run of taken candidates, and otherwise stops at the least absent candidate. |
| `JobNames.NamesNeverShared` | pkg/controller/maintenance/maintenencejob.go:484-486 | With dot-free node names, jobs of different Maintenances never share a name, for any suffixes. |
| `JobNames.DottedNodesShareNames` | pkg/controller/maintenance/maintenencejob.go:484-486 | With dots they can. |
| `JobNames.SharedNameIff` | pkg/controller/maintenance/maintenencejob.go:484-486 | Two Maintenances can claim one job name, for some non-empty node names and suffixes, if and only if their names are equal or one, followed by a dot, begins the other. |
| `JobNames.LaggingProbe` | pkg/controller/maintenance/maintenance.go:587-606 | If the server has a job of the machine in its leading run of names, a lagging cache shows it or leads the probe to a name the server refuses. |
| `JobCreation.OneJobPerMachine` | pkg/controller/maintenance/maintenance.go:586-624 | In every run without deletions, or whose deletions are of jobs the cache has not seen, with overlapping passes that probe a lagging cache: the server never holds two jobs created for the same Maintenance, node and machine. |
| `JobCreation.DeletionSafeIff` | pkg/controller/maintenance/maintenance.go:587-606 | A deletion keeps that guarantee for all continuations if and only if the cache has not seen the job, or its name does not split into two non-empty parts at a dot. |
| `JobCreation.HarmfulDeletion` | pkg/controller/maintenance/maintenance.go:587-606 | Every other deletion has a continuation, without further deletions, that gives one machine two jobs. |
| `JobCreation.CreatedJobMatchesOrigin` | pkg/controller/maintenance/maintenance.go:586-624 | The bookkeeping behind it is right: a job created for a Maintenance and node is owned by the one and carries the other. |
| `JobCreation.ProbeLoopIsLooks` | pkg/controller/maintenance/maintenance.go:587-606 | The uninterrupted probe loop is a run of single probes: it ends ready to create the free candidate, or ends the attempt where it meets its machine; so the result covers it. |
| `JobCreation.DeletionAllowsDuplicate` | pkg/controller/maintenance/maintenance.go:587-606 | The plainest run: jobs for two machines of one node name, the first is deleted, and the second machine gets the freed name as well. |
| `JobCreation.PrefixTestLosesNothing` | pkg/controller/maintenance/maintenance.go:430-445 | In every run, with any deletions, each cached job that the owner test accepts has the name prefix. |
| `JobCreation.GenerateIsGenerated` | pkg/controller/maintenance/maintenencejob.go:482-499 | A generated job has the base name, the namespace, the labels and the controller reference of its Maintenance, node and machine as given, and an empty status. |
| `DependencyGate.ComputeJobs` | pkg/controller/maintenance/maintenance.go:415-583 | The nested loops with their early returns equal the declarative rule, for any order in which the cache lists its keys. |
| `DependencyGate.CheckDependencies` | pkg/controller/maintenance/maintenance.go:417-517 | The gate opens exactly if every dependency permits, and then the unavailable nodes are exactly those with an unmet owned job of some dependency. |
| `DependencyGate.CheckJobs` | pkg/controller/maintenance/maintenance.go:433-516 | The scan of the cached jobs of one dependency, through the owner loop and the accessors, agrees with the rule stated on the records: open exactly if all related jobs permit, and then the unavailable nodes grow by those of jobs that do not meet the condition. |
| `DependencyGate.CheckCondition` | pkg/controller/maintenance/maintenance.go:479-495 | The accessor calls decide what the rule says of the records: one record per stage, the last one finished, and succeeded, or failed where failure is asked for. |
| `DependencyGate.HeldIff` | pkg/controller/maintenance/maintenance.go:417-495 | Exactly when a pass is held, stated on the cache: a dependency is missing, or unfinished where it has to be finished as a whole, or one of its jobs has an unknown condition or does not meet it where all have to. |
| `DependencyGate.IsOwned` | pkg/controller/maintenance/maintenance.go:452-468 | The owner loop finds out whether the job carries the controller reference with that name and identity, all five fields. |
| `DependencyGate.GeneratedOwner` | pkg/controller/maintenance/maintenance.go:452-468 | The job generated for a Maintenance passes that test for it and for no other, nor for a namesake with another identity. |
| `DependencyGate.ResolveEnv` | pkg/controller/maintenance/maintenance.go:559-575 | Env resolution succeeds exactly if every entry resolves, and keeps their order. |
| `DependencyGate.GenerateJobs` | pkg/controller/maintenance/maintenance.go:534-583 | The node loop yields the jobs of the allowed nodes in list order, or fails if the env of one of them does not resolve. |
| `DependencyGate.JobIffAllowed` | pkg/controller/maintenance/maintenance.go:534-583 | Stated on the cache and the node: a listed node gets a job if and only if it is selected, listed if there is a list, tolerated, has a machine ID, and no dependency has an owned job on it that does not meet the condition. |
| `DependencyGate.EnvFailureIff` | pkg/controller/maintenance/maintenance.go:559-575 | All or nothing: the pass fails exactly if the env of some allowed node does not resolve. |
| `DependencyGate.DependencyOrderIrrelevant` | pkg/controller/maintenance/maintenance.go:417-517 | The outcome depends only on which dependencies there are, not on their order or repetition. |
| `DependencyGate.PrefixTestIrrelevant` | pkg/controller/maintenance/maintenance.go:430-473 | Against the cache of any creation run, prefix test and owner test together select the same jobs as the owner test alone. |
| `DependencyRuns.DrainJobMeets` | pkg/controller/maintenance/maintenance.go:479-507 | In every run of a drain and uncordon job, at every server version: success is met exactly if all stages have succeeded, failure exactly if the last one has failed, never both, and neither while the last stage is open. |
| `DependencyRuns.PodJobMeets` | pkg/controller/maintenance/maintenance.go:479-507 | In every run of a pod job, whatever is reported: success is met exactly if all stages have succeeded, failure exactly if the last one has failed; not both, if no report on the last of several stages claims both. |
| `DependencyRuns.SilentPodMeetsNothing` | pkg/controller/maintenance/maintenance.go:479-507 | As the code is written, a job with a pod stage meets no condition in any run. |
| `DependencyRuns.EarlyFailureMeetsNothing` | pkg/controller/maintenance/maintenance.go:488-495 | Once a stage before the last has failed, the job meets no condition at any later version, not even that of failure. |
| `DependencyRuns.FailureRun` | pkg/controller/maintenance/maintenencejob.go:169-187 | Such failures happen: every drain or uncordon stage that passable stages precede fails in some run from creation on, without any report if no pod precedes it. |
| `Lifecycle.RunKeepsInv` | pkg/controller/maintenance/maintenance.go:271-413 | The invariant of all lifecycle runs: dirty cached copies differ from their version only in a snapshot or finish time that the version lacks. |
| `Lifecycle.DecisionsAreFinal` | pkg/controller/maintenance/maintenance.go:52-118 | In every run: the admitted window is non-empty and never changes; a snapshot matches its hash, is taken after the window began and never changes; the finish time lies after the window and never changes; none of these times is in the future. |
| `Lifecycle.JobsCreatedInWindow` | pkg/controller/maintenance/maintenance.go:353-364 | In every run with a non-decreasing clock each job is created by a pass whose clock reading lies in the admitted window, before any finish time. |
| `Lifecycle.NoJobAfterFinish` | pkg/controller/maintenance/maintenance.go:286-305 | Once the server shows a Maintenance finished and no pass is under way, no continuation creates a job, although scheduling never tests for it. |
| `Lifecycle.OnlyRunningPassCreates` | pkg/controller/maintenance/maintenance.go:286-305 | Once the server shows a Maintenance finished, it stays finished and every further job comes from the one pass that was under way at that moment. |
| `Lifecycle.NoJobAfterFinishIff` | pkg/controller/maintenance/maintenance.go:586-624 | A finished Maintenance gets no further job if and only if no pass is under way, or every job it has still to create is already there: the server has one of its machine in the leading run of its names. |
| `Lifecycle.FinishedNeverBegins` | pkg/apis/vihara/v1alpha1/types_maintenance.go:353-363 | For a finished Maintenance every cached copy, however old, is expired or not started. |
| `Lifecycle.PassUsesSnapshot` | pkg/controller/maintenance/maintenance.go:368-413 | Once the server holds a snapshot, also a pass that began before goes by exactly that snapshot. |
| `Lifecycle.LaterJobsUseSnapshot` | pkg/controller/maintenance/maintenance.go:368-413 | Every job created after the scheduling write was accepted is made from the accepted snapshot. |
| `Lifecycle.SnapshotDecidesJobs` | pkg/controller/maintenance/maintenance.go:535-582 | Two continuations that differ in any way, such as in later edits of the spec, create equal job specs for the same node. |
| `MaintenanceRuns.UnacceptedSnapshotCreatesJobs` | pkg/controller/maintenance/maintenance.go:368-391 | A run from creation, for every Maintenance that is polled and has something to create: the scheduling write is refused, the next pass makes a job from the snapshot in the cached object, and no version on the server has a snapshot. |
| `MaintenanceRuns.SnapshotHeldIff` | pkg/controller/maintenance/maintenance.go:368-413 | In every reachable state: all later jobs are made from a snapshot the server holds, in all continuations, if and only if the server holds one already or no continuation creates a job at all. |
| `MaintenanceRuns.CrashIff` | pkg/controller/maintenance/maintenance.go:290-322 | Without spec edits some run crashes the handlers (a poll after the window whose finish write fails) if and only if the Maintenance is meant for this controller, has a node selector, stages and valid env entries, its window is not empty, and the window is not over when it is created. |
| `MaintenanceRuns.EditedCrash` | pkg/controller/maintenance/maintenance.go:130-205 | With spec edits every Maintenance has a crashing run. |
| `MaintenanceRuns.CrashOnlyAfterWindow` | pkg/controller/maintenance/maintenance.go:290-322 | In every run, with any edits, no crash comes before the Maintenance is admitted and its window is over. |
| `MaintenanceRuns.DeletionMarkStops` | pkg/controller/maintenance/maintenance.go:281-345 | Once the cache shows that a Maintenance is marked for deletion and no pass is under way, no continuation creates a job for it, starts a pass, queues it or crashes. |
| `MaintenanceRuns.JobAfterFinish` | pkg/controller/maintenance/maintenance.go:586-624 | A run from creation, for every Maintenance that is polled and has something to create: a handler finishes it while a pass is under way, and the pass creates a job after that. |
| `MaintenanceController.Controller.OnAdded` | pkg/controller/maintenance/maintenance.go:43-124 | The added handler writes the admission the lifecycle step says, or nothing; it does not touch the cached object. |
| `Lifecycle.WindowIsOfAdmittedSpec` | pkg/controller/maintenance/maintenance.go:65-103 | In every run the admitted window, at every version that shows it, comes from the spec of an earlier version not admitted yet and meant for this controller: it starts one delay after the schedule's own start, else after the creation, and ends at the schedule's own end, else one duration later; a delay or duration below 1 stands for the default. Later edits of the schedule do not move it. |
| `MaintenanceController.Controller.EnqueueForScheduling` | pkg/controller/maintenance/maintenance.go:271-331 | Finish or queue again, with the jump into the queueing code after a failed finish write. |
| `MaintenanceController.Controller.OnUpdated` | pkg/controller/maintenance/maintenance.go:130-205 | The update handler makes the handler's queueing step: it checks the object it was given, of whatever version, and then queues or finishes what the cache holds. |
| `MaintenanceController.Controller.Process` | pkg/controller/maintenance/controller.go:230-242 | A poll is a run: the steps of a whole pass, then the polling goroutine's queueing step. |
| `Lifecycle.FinishKeepsInv` | pkg/controller/maintenance/maintenance.go:290-305 | The in-place edit and the write that finish a Maintenance keep the lifecycle invariant, also when the write is refused and the cached object stays dirty. |
| `MaintenanceController.Controller.TakeSnapshot` | pkg/controller/maintenance/maintenance.go:337-413 | Scheduling up to the decoded snapshot, including the dirty cached object after a refused write. |
| `MaintenanceController.Controller.ScheduleSnapshot` | pkg/controller/maintenance/maintenance.go:415-624 | From the snapshot on: the pending jobs are exactly those of the rule, and requests are made as the probe decides. |
| `MaintenanceController.Controller.CreateJobs` | pkg/controller/maintenance/maintenance.go:586-624 | For each generated job: no request exactly if a job of its machine is in the leading run of taken names, else one for the least free name; the loop does what the create steps of a run do. |
| `MaintenanceController.Controller.ScheduleMaintenance` | pkg/controller/maintenance/maintenance.go:337-627 | A whole scheduling pass is a run of lifecycle steps, which begins with exactly the jobs the rule generates from the decoded snapshot and handles each of them once. |
| `MaintenanceController.PassIsRun` | pkg/controller/maintenance/maintenance.go:337-627 | A pass that creates jobs and returns is a lifecycle run with those creations and no other effect. |

## Left out

- Timestamps are kept exact: the truncation to whole seconds by the API encoding is not modelled.
- The clientset, informers, work queue, reconciler and timeout queue libraries, JSON, SHA-256, label selectors and toleration matching appear only through what callers rely on.
- Env resolution (`CreatePodEnvVarFromNodeSpecificEnv` and its sibling) is reduced to a value or an error: field copying only.
- The lookup of nodes by selector terms: the node list of drain and uncordon is a parameter, and of a drain the runner sees only success or an error message.
- Concurrent taint edits by others between listing and patching a node, and the strategic merge patch itself.
- The deletion handlers of Maintenance: settled branch by branch. In runs a user may edit the spec and mark the object deleted at any time. Validation of single env entries is a parameter.
- Edits of a MaintenanceJob spec, and MaintenanceJob deletion other than its effect on names and duplicates in JobCreation; in Lifecycle jobs are not deleted.
- What happens after a crash is a run that goes on: a restarted controller is one whose cache has caught up.
- Several controllers at once and leader change; torn reads of an object while another goroutine edits it.
- JobCreation.OneJobPerMachine: the probe counter is unbounded there, so a cache of 2^64 names is not covered; `ProbeName` keeps the 64-bit bound.
- MaintenanceController.Controller.CreateJobs: speaks of requests and effects only for a cache of fewer than 2^64 - 2 entries, since the probe loop falls through at its bound; so do ScheduleSnapshot and ScheduleMaintenance.
- DependencyGate.ComputeJobs: requires that the owned jobs of a dependency with a known condition do not have an empty spec and an empty status, on which the accessors it calls index out of range.
- MaintenanceController.Controller.ScheduleMaintenance: the job cache is fixed during one call; a cache that changes while the pass runs is covered by JobCreation.
- StageProgress.ResultWithinBound: speaks of drain stages and of passes that are not delayed, refused or failing; that a result is recorded in the end is not claimed, since polling may stop before it is.
- Deadlines of Kubernetes Jobs, the splitting of cache keys into namespace and name, and the operator reference stored with an admission or snapshot.
- Logging, events, metrics, tracing, command line, configuration, leader election, Helm chart, CRD manifests.
