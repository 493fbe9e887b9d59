# PBS operator: protocol model

This project models the parts of the PBS operator whose correctness is a matter of protocol: three reconcilers that
re-derive everything on each call from what the API server answers and from a durable status record, and the
agent subcommands that act on the other side of a command line. It states what they keep over whole runs, when Jobs
complete, fail, vanish or are reaped, when reads are stale, and when status patches are lost.

How it is laid out:

- `*Spec` modules say what one reconcile does as a function of the state it found and the answers it got.
- `*Controller` modules, and the agent modules, are the methods as they are written: objects whose fields are updated,
  loops, early returns. Each is proved to compute its specification function.
- `*Outcomes` modules, and `RestorePlans`, `BackupHookPods`, `BackupJobs`, `RoundTrip`, `TextForms`, `AppliedDocs`,
  `FlagForms` and `PodContents`, say what comes out without those functions: from the Jobs, records, objects, Kinds and
  answers themselves, mostly in both directions. Tables of Kinds, keys and fields are written out there once more, so that
  they are checked against each other.
- The remaining modules prove properties over runs: sequences of states linked by reconciles and by whatever the
  environment may do in between. Every hypothesis on the environment is a named predicate.

Some hypotheses could look like conveniences. For these a lemma shows that they are needed, by a run that fails without
them or by an exact condition:

| hypothesis | needed because |
|---|---|
| the Job listing works (`RestorePhases.Lawful`) | `RestoreListing.LostListingRegresses` |
| the status read is no older than the record (`RestoreReaping.ReadsSince`, and the freshness in `Lawful`) | `RestoreStaleness.OldCopyForgets`, `RestoreReaping.ForgetsNothingExactly` |
| the status is written after the hooks and not read from before that (`BackupHooks.WritesStatus`, `ReadsRecent`) | `BackupStaleness.SameCopyRunsHooksAgain`, `BackupStaleness.LostWriteRunsHooksAgain` |
| a finished backup is not read from before its end (`BackupMetrics.ReadsEnd`) | `BackupMetrics.StaleCopyCountsAgain` |
| no backup of a schedule is deleted (`ScheduleRuns.Moves`) | `ScheduleRuns.FreedNameIsTakenAgain` |
| no unlabelled ConfigMap holds the staging name (`BackupQuiescence.StagingLabelled`) | `BackupQuiescence.UnlabelledNeverSettles` |
| Kind lists survive the command line (`Agreement.ListsCarry`) | `Agreement.SidesAgreeExactly`, `Agreement.SpaceDisagrees` |
| targets do not nest (`VolumeAgent.Separate`) | `VolumeAgent.OuterAfterInnerLoses` |

The others, such as `RestoreTermination.Interval`, `ScheduleRuns.Ideal` or `BackupCoverage.Stable`, only describe the
setting a statement is about; nothing is claimed about what happens outside it.

| files | what they cover |
|---|---|
| `RestoreSpec`, `RestoreController`, `RestoreGates` | one PBSRestore reconcile |
| `RestoreOutcomes`, `RestorePlans` | what a restore reconcile and its plan come to, told from the answers alone |
| `RestoreSnapshot`, `RestoreOrdering`, `RestoreReaping`, `RestorePhases`, `RestoreListing`, `RestoreStaleness`, `RestoreTermination`, `RestoreQuiescence`, `RestoreNames` | restore runs |
| `BackupSpec`, `BackupController` | one PBSBackup reconcile |
| `BackupOutcomes`, `BackupHookPods`, `BackupJobs` | what a backup reconcile comes to, told from the answers alone |
| `BackupHooks`, `BackupStaleness`, `BackupCoverage`, `BackupMetrics`, `BackupQuiescence` | backup runs |
| `ScheduleSpec`, `ScheduleController`, `ScheduleOutcomes`, `ScheduleRuns` | the PBSSchedule reconciler, what a reconcile comes to, and runs |
| `Serializer`, `Manifests`, `RoundTrip`, `TextForms` | api.yaml: written from a namespace, read back as documents, and what is kept on the way |
| `CommandLines`, `FlagForms`, `PodContents`, `Agreement` | pods and their arguments, and the agent's reading of them |
| `ApplyAgent`, `AppliedDocs`, `VolumeAgent`, `VolumeOutcomes` | the agent's apply-manifests and restore-volume subcommands |
| `Names`, `Groups`, `Sorting`, `Strings`, `Decimals`, `Int64`, `Conditions`, `Credentials`, `Reads`, `Wrappers` | shared pieces |

`dafny verify dfyconfig.toml` covers the whole project.

Where the code and its comments disagree, the model follows the code:

- `RunApplyManifests` is documented to pass kubectl's exit codes through; it exits with 1 on any apply or wait failure.
- `liveJobs` is documented to list Jobs in pipeline order; it sorts them by name.
- `jobPhaseByName` is documented to file hash-truncated fetch and pre names under StagingAPI. A truncated name of any
  part goes there or to RestoringVolumes, depending on the restore's own name and length, and a truncated workload name
  is never told back: `RestoreNames.PhaseExactly`, `RestoreNames.ToldBackExactly`.
- The backup's `hold` is documented to leave New for Scheduled; it sets Scheduled from any phase but Running.

## Model

| member | source | states |
|---|---|---|
| RestoreOrdering.RestoreOrdered | internal/controller/pbsrestore_controller.go:192-250 | over every run with stale reads, failing calls and arbitrary Job changes: a Job that appears was created only after everything its work depends on had completed at some earlier moment (pre apply after the fetch and its ConfigMap, volumes after the pre apply, the workload apply after every volume Job of the plan then read) |
| RestoreOrdering.AlwaysTruthful | internal/controller/pbsrestore_controller.go:590-615 | the carrying invariant: at every moment of a run a "complete" entry of status.jobs witnesses a completion that happened |
| RestoreOrdering.ReadTruthful | internal/controller/pbsrestore_controller.go:543-550 | whatever old copy of the status a reconcile read, its "complete" entries are true |
| RestoreOrdering.DoneMeansCompleted | internal/controller/pbsrestore_controller.go:493-528 | a step that counts as done, live or absent but recorded, did complete |
| RestoreOrdering.CompletedMeansAllCompleted | internal/controller/pbsrestore_controller.go:240-250 | a restore is marked Completed only when every Job of the plan then read has completed |
| RestoreSnapshot.SnapshotSorted | internal/controller/pbsrestore_controller.go:613-613 | a snapshot of status.jobs is sorted by name and names no Job twice |
| RestoreSnapshot.SortsToSnapshot | internal/controller/pbsrestore_controller.go:590-615 | whatever order the Jobs were listed in, appending and sorting gives the one snapshot |
| RestoreSnapshot.SnapshotMembers | internal/controller/pbsrestore_controller.go:598-612 | the snapshot holds exactly the refreshed entries of listed Jobs and the recorded entries of vanished ones |
| RestoreSnapshot.SnapshotRemembers | internal/controller/pbsrestore_controller.go:608-612 | no recorded name is forgotten, and vanished Jobs keep their last recorded state |
| RestoreReaping.AlwaysOrderly | internal/controller/pbsrestore_controller.go:590-629 | over every run, status.jobs is sorted, duplicate-free, and files each Job under the phase its name tells |
| RestoreReaping.MemoryGrows | internal/controller/pbsrestore_controller.go:590-615 | a name recorded at some moment stays recorded, as long as no later reconcile reads a status copy older than that moment; its view of the Jobs may be as stale as it likes |
| RestoreReaping.ForgetsNothingExactly | internal/controller/pbsrestore_controller.go:590-615 | one reconcile on any copy forgets no recorded name if and only if it leaves status.jobs alone or the copy and the listing together still know every name |
| RestoreReaping.RecordedNeverRecreated | internal/controller/pbsrestore_controller.go:504-515 | a recorded name is never created again by reconciles that read no copy older than the record |
| RestoreStaleness.OldCopyForgets | internal/controller/pbsrestore_controller.go:504-515 | in a run without a failing call, one reconcile on a copy from before the record fetches again, goes back from RestoringVolumes to StagingAPI and forgets a completed Job |
| RestoreReaping.ReapingInvisible | internal/controller/pbsrestore_controller.go:493-550 | with any complete, recorded Jobs gone, the next reconcile creates the same Job, writes the same status and events and requeues alike |
| RestoreReaping.ReapsAreInvisible | internal/controller/pbsrestore_controller.go:493-615 | simulation: every run with reaps is matched, action by action, by the run without them, ending in the same status and log and in Jobs that differ only by the reaped ones |
| RestoreReaping.SameHistory | internal/controller/pbsrestore_controller.go:493-615 | from one start, dropping the reaps of a run changes neither the status nor a single write or event |
| RestorePhases.PhaseNeverRegresses | internal/controller/pbsrestore_controller.go:557-583 | with fresh reads, a working listing, finished Jobs that stay finished and a fixed plan, the phase never goes back and a terminal status is final, though any patch may be lost |
| RestorePhases.AlwaysInv | internal/controller/pbsrestore_controller.go:196-250 | the inductive core: a phase past StagingAPI has fetch and pre recorded complete, ApplyingWorkloads every volume Job too |
| RestorePhases.UndoneIsPast | internal/controller/pbsrestore_controller.go:493-528 | the first step that is not done lies past every recorded one, unless a call fails |
| RestorePhases.AdvanceRecords | internal/controller/pbsrestore_controller.go:570-577 | an advancing reconcile records complete every step its new phase has behind it |
| RestoreListing.LostListingRegresses | internal/controller/pbsrestore_controller.go:592-596 | the working listing is needed: under any plan with a volume to restore, a run in which only the listing fails goes from RestoringVolumes back to StagingAPI |
| RestoreTermination.CompletesExactly | internal/controller/pbsrestore_controller.go:192-250 | when nothing goes wrong, reconcile m + 1 creates the m-th pipeline Job, and the (4 + k)-th reconcile, no earlier one, completes a restore with k planned nodes, reaped Jobs included |
| RestoreTermination.StandsAfter | internal/controller/pbsrestore_controller.go:468-477 | after m reconciles exactly the first m steps are done and nothing is known of the others |
| RestoreQuiescence.SecondReconcileDoesNothing | internal/controller/pbsrestore_controller.go:720-736 | after a reconcile without API error, a second one on the unchanged cluster, at any later time, changes nothing and logs nothing |
| RestoreQuiescence.SnapshotSettles | internal/controller/pbsrestore_controller.go:590-615 | taking the snapshot twice is taking it once |
| RestoreQuiescence.SameAgain | internal/controller/pbsrestore_controller.go:493-583 | the second reconcile decides what the first decided and has nothing to create or adopt |
| RestoreGates.GatesSettle | internal/controller/pbsrestore_controller.go:271-439 | namespace, credentials copy and RBAC objects, once put in place, answer the same gate again and are not written again |
| RestoreGates.WholeReconcileQuiet | internal/controller/pbsrestore_controller.go:131-250 | quiescence of gates and pipeline together |
| RestoreGates.Provisioner.EnsureTargetNamespace | internal/controller/pbsrestore_controller.go:271-289 | creates a missing namespace, holds on a terminating one, and is `WithNamespace` on the target |
| RestoreGates.Provisioner.EnsureRepoSecret | internal/controller/pbsrestore_controller.go:297-347 | writes the copy only when its contract values or its label differ; AlreadyExists after a missed read writes nothing |
| RestoreGates.Provisioner.EnsureJobRBAC | internal/controller/pbsrestore_controller.go:370-437 | creates what is missing of the three objects, in order, up to the first error |
| RestoreGates.Provisioner.PassGates | internal/controller/pbsrestore_controller.go:146-181 | the gates in order, with what each writes |
| RestoreGates.OpensExactly | internal/controller/pbsrestore_controller.go:146-181 | the gates open if and only if the repo is ready, the namespace stays, the credentials can be copied and the RBAC objects provided; otherwise which answer is given |
| RestoreGates.GatesProvide | internal/controller/pbsrestore_controller.go:271-439 | past the gates the namespace, a copy of the contract keys, the service account and both bindings are there |
| RestoreNames.UntruncatedTellsPhase | internal/controller/pbsrestore_controller.go:619-629 | an untruncated pipeline Job name tells its launching phase back |
| RestoreNames.PipelineParts | internal/controller/pbsrestore_controller.go:193-243 | the four name parts the pipeline uses, and that their phases are the ones it announces |
| RestoreNames.PhaseExactly | internal/controller/pbsrestore_controller.go:619-629 | the phase every pipeline Job is filed under, for every restore name, part and length |
| RestoreNames.ToldBackExactly | internal/controller/pbsrestore_controller.go:619-629 | the launching phase is told back if and only if the name is untruncated, or it is a volume's and the restore name has up to 50 characters or is misleading, or it is the fetch or pre name and the restore name is not misleading (misleading: more than 54 characters, beginning "vol-") |
| RestoreNames.UntruncatedAreDistinct | internal/controller/pbsrestore_controller.go:193-243 | untruncated names keep the whole pipeline's Jobs apart, as the termination theorem asks |
| RestoreController.Reconciler.Reconcile | internal/controller/pbsrestore_controller.go:131-250 | the reconcile as written computes the pipeline walk: same state, log and requeue |
| RestoreController.Reconciler.RunPipeline | internal/controller/pbsrestore_controller.go:192-227 | fetch, ConfigMap, adoption and pre apply compute the walk |
| RestoreController.Reconciler.EnsureJob | internal/controller/pbsrestore_controller.go:493-528 | done, running, created, failed, deleted or API error, with the effect of each |
| RestoreController.Reconciler.EnsureVolumeJobs | internal/controller/pbsrestore_controller.go:445-478 | groups the claims, stops at the first volume step that is not done, in node order |
| RestoreController.Reconciler.LiveJobsNow | internal/controller/pbsrestore_controller.go:590-615 | whatever the listing order, the appended and sorted list is the snapshot |
| RestoreController.Reconciler.RequeueOrHold | internal/controller/pbsrestore_controller.go:557-583 | a hold, a failure, an error or an advance with refreshed Jobs, as recorded |
| RestoreController.Reconciler.RecordRestore | internal/controller/pbsrestore_controller.go:720-736 | patches only a changed status, reports a transition only when the patch went through |
| RestoreController.Reconciler.AdoptConfigMap | internal/controller/pbsrestore_controller.go:634-647 | adopts once, in the restore's own namespace, best-effort |
| RestoreController.Reconciler.HoldRestore | internal/controller/pbsrestore_controller.go:652-665 | holds keep status.jobs and turn New into StagingAPI |
| RestoreController.Reconciler.CompleteRestore | internal/controller/pbsrestore_controller.go:676-695 | completes once, with one event |
| RestoreController.Reconciler.FailRestore | internal/controller/pbsrestore_controller.go:698-715 | fails terminally, with refreshed Jobs |
| RestoreOutcomes.FailedJobFails | internal/controller/pbsrestore_controller.go:498-500 | told from Jobs, record and answers alone: with the gates open and every earlier Job of the plan over, a failed Job fails the restore for good: Failed, not ready with that Job named, the end stamped once, one event, no Job created, no requeue |
| RestoreOutcomes.DeletedJobWaits | internal/controller/pbsrestore_controller.go:504-515 | a Job that vanished before it was recorded complete is waited for, a minute at a time, and not created again |
| RestoreOutcomes.BusyJobGoesOn | internal/controller/pbsrestore_controller.go:560-583 | a Job still at work is waited for in its phase, with the start stamped once and every listed Job's state recorded |
| RestoreOutcomes.UnheardJobIsCreated | internal/controller/pbsrestore_controller.go:516-524 | a Job never seen and never recorded is created, labelled and fresh, unless a lagging read missed it |
| RestoreOutcomes.UnansweredErrs | internal/controller/pbsrestore_controller.go:523-527 | a Job that can be neither read nor created is an error, and nothing is recorded |
| RestoreOutcomes.PastAllJobs | internal/controller/pbsrestore_controller.go:200-250 | past the Jobs: unread ConfigMap or nodes are errors, a missing ConfigMap or an unplaceable claim is waited for, a payload that does not parse fails the restore, a whole plan completes it |
| RestoreOutcomes.AtTheGates | internal/controller/pbsrestore_controller.go:137-163 | an ended restore is left alone, a broken spec fails it with the first missing field, a shut gate is waited for with its own reason |
| RestoreOutcomes.EndsExactly | internal/controller/pbsrestore_controller.go:131-250 | if and only if: the cluster facts on which a reconcile sets Failed, sets Completed, answers an error, or asks for no requeue |
| RestoreOutcomes.NeverGivenUp | internal/controller/pbsrestore_controller.go:557-583 | a restore that is not over is always asked about again, in a minute or by the queue, whatever happens to the patch |
| RestoreOutcomes.CreatesExactly | internal/controller/pbsrestore_controller.go:493-528 | a Job appears if and only if it is the first of the plan that is not over and was never heard of; at most one does |
| RestoreOutcomes.AdoptsExactly | internal/controller/pbsrestore_controller.go:634-647 | when the ConfigMap is adopted, if and only if |
| RestorePlans.FirstPinDecides | internal/backup/restore_plan.go:211-227 | a claim goes to the node of the first workload that mounts it, or makes it from a claim template, and names a node |
| RestorePlans.UnpinnedExactly | internal/backup/restore_plan.go:211-264 | it has no node of its own if and only if no consuming workload names one |
| RestorePlans.PlanExactly | internal/controller/pbsrestore_controller.go:217-240 | the plan of every text and node list: rejected, node-free without claims, unplaceable with the first stray claim, or every wanted claim with its node |
| BackupHooks.HooksAtMostOnce | internal/controller/pbsbackup_controller.go:291-303 | with the status written after the hooks, and read from old copies but none from before that write, no two reconciles of a run execute hooks |
| BackupHooks.HooksSettle | internal/controller/pbsbackup_controller.go:291-378 | a reconcile that reaches the hooks puts them behind if and only if it meets no API error |
| BackupHooks.HooksPrecedeJobs | internal/controller/pbsbackup_controller.go:291-345 | in every log all hook executions precede the first Job creation |
| BackupHooks.HookProblemMeansNoJobs | internal/controller/pbsbackup_controller.go:296-302 | a hook problem fails the backup for good: no Job was created before it and none ever is |
| BackupHooks.NothingVanishes | internal/controller/pbsbackup_controller.go:309-329 | the key step: with no Job on record, no launch can hold on a deleted Job |
| BackupHooks.BehindStays | internal/controller/pbsbackup_controller.go:565-603 | once Jobs run or the backup is over, for the server and for the copy read, no reconcile goes back before the hooks |
| BackupHookPods.HooksRunExactly | internal/controller/pbsbackup_controller.go:395-430 | told from pods, claims and answers alone: the hooks executed are exactly those of the pods mounting a selected claim, each once and in name order, up to the first that is troubled; none once Jobs are on record |
| BackupHookPods.HookTroubleFails | internal/controller/pbsbackup_controller.go:291-303 | if such a pod has a bad annotation, or a hook that cannot be executed or fails, no Job is created and the backup ends Failed, telling of the first such pod by name |
| BackupHookPods.HookStopsExactly | internal/controller/pbsbackup_controller.go:411-427 | it is stopped for a hook if and only if there is such a pod |
| BackupOutcomes.SelectsExactly | internal/controller/pbsbackup_controller.go:697-731 | the claims selected are the named ones as they are now, or all that were listed; the first name that cannot be had decides what happens |
| BackupOutcomes.PlacesExactly | internal/controller/pbsbackup_controller.go:736-757 | every claim is placed where its volume resolves to, if and only if all are bound to volumes that can be read and resolved; the first that is not decides |
| BackupOutcomes.CopiesArePut | internal/controller/pbsbackup_controller.go:448-546 | however a reconcile ends, past its gate the credentials copy is current and holds contract keys only, and the staging ConfigMap holds the serialized text |
| BackupOutcomes.PreparesExactly | internal/controller/pbsbackup_controller.go:195-289 | a reconcile gets to the hooks if and only if every answer lets it, then with the claims selected and the pods listed |
| BackupOutcomes.AtTheGates | internal/controller/pbsbackup_controller.go:195-224 | an ended backup is left alone; a repo that is not ready or a missing secret is waited for a minute; the rest are errors |
| BackupOutcomes.AtTheSelection | internal/controller/pbsbackup_controller.go:226-234 | a claim that is not there or a bad selector is waited for; unreadable claims are errors |
| BackupOutcomes.AtThePlacement | internal/controller/pbsbackup_controller.go:236-289 | nothing to back up waits five minutes, a missing node or a claim without a place one minute, with the claim named; unreadable answers are errors |
| BackupOutcomes.OldCopyOverwritesNothing | internal/controller/pbsbackup_controller.go:677-692 | on any copy of the status, old or current, what a reconcile leaves as the copy has it stays as the server has it |
| BackupJobs.LaunchesExactly | internal/controller/pbsbackup_controller.go:313-347 | launch by launch: each takes the live Job or makes its own, up to the first that vanished or cannot be had |
| BackupJobs.JobsAppearExactly | internal/controller/pbsbackup_controller.go:313-347 | a Job appears if and only if its launch makes it and none before is stuck, built as the launch asks |
| BackupJobs.StuckLaunch | internal/controller/pbsbackup_controller.go:317-330 | a recorded Job that is gone is waited for and not created again; one that cannot be had is an error |
| BackupJobs.FailedJobFails | internal/controller/pbsbackup_controller.go:350-372 | a failed Job fails the backup for good whatever the others do, the first in node order told of, every state recorded, one error counted |
| BackupJobs.WorkingJobsGoOn | internal/controller/pbsbackup_controller.go:375-377 | Jobs still at work: Running with every state recorded, the start stamped once, asked again in a minute |
| BackupJobs.SilentJobFails | internal/controller/pbsbackup_controller.go:609-622 | a finished Job without a readable report fails the backup, the first one deciding; unreadable logs are an error |
| BackupJobs.FinishedJobsComplete | internal/controller/pbsbackup_controller.go:609-650 | finished Jobs that all report complete it: refs, int64 total, the only ref, gauges, one event |
| BackupJobs.MessageExactly | internal/controller/pbsbackup_controller.go:761-790 | what a Job reports is the first thing any container of its pods says, its last run standing in |
| BackupJobs.NeverGivenUp | internal/controller/pbsbackup_controller.go:565-603 | a backup that is not over is always asked about again |
| BackupStaleness.SameCopyRunsHooksAgain | internal/controller/pbsbackup_controller.go:291-303 | a reconcile that reads the copy the hooks were first run on, after a lost write or from a lagging cache, executes the same hooks again |
| BackupStaleness.LostWriteRunsHooksAgain | internal/controller/pbsbackup_controller.go:291-378 | after an API error between the hooks and the status write, the next reconcile on the current status executes the hooks again |
| BackupCoverage.CompletedCovers | internal/controller/pbsbackup_controller.go:305-378 | with stable selection and placement, a completing reconcile finds each node's Job completed, pinned to the node, with that node's claims on its command |
| BackupCoverage.EveryClaimBackedUp | internal/controller/pbsbackup_controller.go:225-378 | every claim the completing reconcile selects was backed up by the completed Job of the node its volume lies on |
| BackupCoverage.LaunchesCover | internal/controller/pbsbackup_controller.go:263-345 | one launch per node in node order; together they command every selected claim occurrence exactly once |
| BackupCoverage.UntruncatedAreDistinct | internal/controller/pbsbackup_controller.go:827-831 | untruncated Job names keep the launches of different nodes apart |
| BackupCoverage.FailureDominates | internal/controller/pbsbackup_controller.go:350-378 | one Failed Job fails the backup whatever the others do, nothing else gives that reason, and it runs on exactly while some Job is active |
| BackupCoverage.CompletionReports | internal/controller/pbsbackup_controller.go:609-650 | each state is "ok:" with the Job's ref, bytes is the wrapped sum, and the ref is that of an only Job |
| BackupCoverage.CompletedStatus | internal/controller/pbsbackup_controller.go:629-641 | the recorded total is the true sum if and only if that fits int64; snapshotRef is set if and only if there is one Job |
| BackupCoverage.AgentBacksUp | internal/controller/pbsbackup_controller.go:331-341 | what the agent parses off a launched Job's command is that node's claim list |
| BackupMetrics.ErrorsAreFailures | internal/controller/pbsbackup_controller.go:143-149 | over any interleaving of many backups, on old copies but none from before a backup's end, errors_total is the number of backups that reached Failed |
| BackupMetrics.LastSuccessIsLatest | internal/controller/pbsbackup_controller.go:131-141 | over the same runs, last_success is the completion time of the latest Completed transition, untouched by failures |
| BackupMetrics.StaleCopyCountsAgain | internal/controller/pbsbackup_controller.go:654-672 | a Failed backup that fails again on a copy from before its end is counted again |
| BackupQuiescence.QuietInNamespace | internal/controller/pbsbackup_controller.go:188-379 | after a reconcile without API error the next one, serializing the namespace anew, changes nothing and logs nothing, unless an unlabelled ConfigMap holds the staging name |
| BackupQuiescence.SecondReconcileDoesNothing | internal/controller/pbsbackup_controller.go:677-692 | the same for an unchanged serialized text |
| BackupQuiescence.OwnWritesInvisible | internal/backup/serialize.go:29-36 | nothing this controller writes, copies, Jobs, pods, the backup's status or its events, shows in the serialized namespace |
| BackupQuiescence.UnlabelledNeverSettles | internal/controller/pbsbackup_controller.go:512-526 | an unlabelled ConfigMap of the staging name is serialized into its own payload and rewritten by every reconcile that gets as far |
| BackupController.Reconciler.Reconcile | internal/controller/pbsbackup_controller.go:188-379 | the reconcile as written computes the specification: same state, log and requeue |
| BackupController.Reconciler.PrepareBackup | internal/controller/pbsbackup_controller.go:196-289 | gates, credentials, selection, staging and placement, with what each writes |
| BackupController.Reconciler.LaunchBackup | internal/controller/pbsbackup_controller.go:291-378 | hooks before the first Job, one Job per node, then the outcome |
| BackupController.Reconciler.RunPreHooks | internal/controller/pbsbackup_controller.go:395-430 | hooks of the pods mounting selected claims, in name order, up to the first problem |
| BackupController.Reconciler.LaunchJobs | internal/controller/pbsbackup_controller.go:305-348 | takes live Jobs, refuses to recreate recorded ones, creates the rest, re-reads after a lost create race |
| BackupController.Reconciler.Settle | internal/controller/pbsbackup_controller.go:350-378 | the first Failed Job in node order, else running, else the results |
| BackupController.Reconciler.CollectResults | internal/controller/pbsbackup_controller.go:609-626 | every Job's report in node order until one is missing |
| BackupController.Reconciler.JobResultOf | internal/controller/pbsbackup_controller.go:761-789 | the first nonempty termination message of the Job's pods, decoded |
| BackupController.Reconciler.SelectPVCs | internal/controller/pbsbackup_controller.go:697-731 | named claims, else the selector's, else all; the first missing one stops |
| BackupController.Reconciler.EnsureRepoSecret | internal/controller/pbsbackup_controller.go:448-503 | the copy is written only when it differs, always labelled; AlreadyExists after a missed read writes nothing |
| BackupController.Reconciler.Stage | internal/controller/pbsbackup_controller.go:512-544 | the staging ConfigMap is written only for a changed nonempty text; AlreadyExists after a missed read writes nothing |
| BackupController.Reconciler.GroupClaims | internal/controller/pbsbackup_controller.go:280-289 | the groups map holds each node's claims in selection order; the first unplaceable claim stops |
| BackupController.Reconciler.RecordOutcome | internal/controller/pbsbackup_controller.go:677-692 | patches only a changed status, reports a transition only when the patch went through |
| BackupController.Reconciler.CompleteBackup | internal/controller/pbsbackup_controller.go:609-650 | completion, a missing result, or an API error, as recorded, with the success gauges |
| BackupController.Reconciler.FailBackup | internal/controller/pbsbackup_controller.go:654-672 | failure as recorded, with the error counter |
| ScheduleRuns.SlotsIncrease | internal/controller/pbsschedule_controller.go:109-129 | at most once: under stale copies, failed patches, lost replies and suspend toggles the slots that get backups strictly increase |
| ScheduleRuns.LastNeverDecreases | internal/controller/pbsschedule_controller.go:112-129 | the recorded fire time never goes back |
| ScheduleRuns.RecordedSlotsAreServed | internal/controller/pbsschedule_controller.go:125-128 | a recorded fire time is a slot that came due, and its backup exists |
| ScheduleRuns.ResumeServesLatestOnly | internal/controller/pbsschedule_controller.go:109-129 | after any stretch of suspension or shut gates, the first reconcile serves the latest slot since the one served before the stretch, and no other in between got a backup from it |
| ScheduleRuns.FreedNameIsTakenAgain | internal/controller/pbsschedule_controller.go:159-185 | once a slot's backup is deleted, a reconcile on the copy from before serves the slot again |
| ScheduleRuns.EverySlotServed | internal/controller/pbsschedule_controller.go:112-148 | completeness: under an ideal timer the slots served are exactly the latest one due at the first reconcile and every later one, each at its own time |
| ScheduleRuns.SlotNamesDiffer | internal/controller/pbsschedule_controller.go:162-162 | different slots get different backup names |
| ScheduleRuns.ScheduleNamesDiffer | internal/controller/pbsschedule_controller.go:162-162 | two schedules never contend for a name |
| ScheduleController.Reconciler.CatchUp | internal/controller/pbsschedule_controller.go:116-122 | the catch-up loop terminates and returns the greatest slot in (base, now], defined by scanning backwards |
| ScheduleController.Reconciler.FireBackup | internal/controller/pbsschedule_controller.go:159-185 | a second create for a slot finds its name taken and changes nothing |
| ScheduleController.Reconciler.ActiveBackups | internal/controller/pbsschedule_controller.go:189-204 | the names of the unfinished listed backups, in order |
| ScheduleController.Reconciler.Reconcile | internal/controller/pbsschedule_controller.go:77-149 | the reconcile as written computes the specification |
| ScheduleController.Reconciler.Hold | internal/controller/pbsschedule_controller.go:208-225 | a shut gate records its condition and emits on a transition |
| ScheduleOutcomes.AtTheGates | internal/controller/pbsschedule_controller.go:86-105 | told from the answers alone: a bad expression is looked at again in five minutes, a missing or unready repo in one, only the condition changes; an unreadable repo is an error |
| ScheduleOutcomes.CreatesExactly | internal/controller/pbsschedule_controller.go:159-185 | a backup appears if and only if the latest due slot is fired for, its name is free and the create is not refused; it carries the schedule's name, repo, claims, selector and notes |
| ScheduleOutcomes.FireIsTold | internal/controller/pbsschedule_controller.go:173-184 | a creation is told by one event when its reply comes |
| ScheduleOutcomes.UnansweredErrs | internal/controller/pbsschedule_controller.go:123-136 | an unanswered create or a failing listing is an error that leaves the status |
| ScheduleOutcomes.RecordsTheFire | internal/controller/pbsschedule_controller.go:107-148 | the fire time, next slot and unfinished backups are recorded, and it looks again at the next slot but within a minute |
| Serializer.SerializeNamespace | internal/backup/serialize.go:75-137 | collect, filter, sort, strip and join compute the serialized text |
| Serializer.TextIgnoresOrder | internal/backup/serialize.go:115-120 | the text does not depend on discovery or listing order when (group-kind, name) pairs are unique |
| Serializer.ManagedLeavesNoTrace | internal/backup/serialize.go:96-112 | excluded kinds and managed-labelled objects never change the text |
| Serializer.ChurnIsStripped | internal/backup/serialize.go:140-155 | server-side writes to status or volatile metadata do not change what is serialized |
| Serializer.ParseJoined | internal/backup/serialize.go:122-136 | parsing the joined documents yields each document's own parse, in order, for any target namespace |
| Serializer.SerializedParses | internal/backup/restore_plan.go:50-95 | parsing a serialized namespace yields its stripped objects in sorted order |
| Serializer.ParsedEachIs | internal/backup/restore_plan.go:71-95 | the parse succeeds if and only if every document has a kind and a name, and then keeps all of them in order |
| Serializer.Object.StripVolatile | internal/backup/serialize.go:140-155 | the in-place deletions compute `Stripped` |
| RoundTrip.StripsExactly | internal/backup/serialize.go:140-155 | only status, the five volatile metadata fields, the last-applied annotation and a map it leaves empty go; every other field stays as it was |
| RoundTrip.SerializesExactly | internal/backup/serialize.go:88-121 | the text holds exactly the listed objects the operator did not make, events, Jobs and its own Kinds aside, each under its Kind, group and name |
| RoundTrip.FailsExactly | internal/backup/serialize.go:75-107 | serializing fails if and only if discovery does, a group version is malformed, or a listing of what is collected is refused |
| RoundTrip.SanitizesExactly | internal/backup/restore_plan.go:107-139 | a Service loses exactly its allocations and node ports, a claim exactly its volume and binding annotations, any other Kind nothing |
| RoundTrip.ReadsExactly | internal/backup/restore_plan.go:71-92 | an object is read if and only if it has a kind and a name; unless it is a Namespace or a definition it lands in the target namespace; every field not to go is kept |
| RoundTrip.ParsesExactly | internal/backup/restore_plan.go:50-95 | every text yields one such document per manifest it carries, in order, or the first manifest that cannot be read, and why |
| RoundTrip.NamespaceRoundTrip | internal/backup/restore_plan.go:50-95 | for any target namespace, a serialized namespace reads back as its own objects in sorted order, each in the target and with all of its own fields that are not to go |
| TextForms.SeparatorExactly | internal/backup/restore_plan.go:51-61 | a line divides documents if and only if it begins with three dashes followed by nothing visible or a comment |
| TextForms.DocumentsDivide | internal/backup/restore_plan.go:51-61 | every text is divided into documents that lose no line but separators, with no separator past the first line of any |
| TextForms.BlankExactly | internal/backup/restore_plan.go:288-297 | which lines carry no manifest, by their visible characters |
| TextForms.SerializedInOrder | internal/backup/serialize.go:115-120 | the objects are a permutation of those found, ordered by group-kind and then name |
| Manifests.ParseAPIManifests | internal/backup/restore_plan.go:50-95 | the reader loop computes `Parse`, error positions included |
| Manifests.SanitizedIsClean | internal/backup/restore_plan.go:107-139 | no binding or allocation of the source cluster is left, and stripping again changes nothing |
| Manifests.Manifest.StripPVCBinding | internal/backup/restore_plan.go:107-122 | the in-place deletions compute `ClaimUnbound` |
| Manifests.Manifest.StripServiceAllocations | internal/backup/restore_plan.go:126-139 | the in-place deletions compute `ServiceReleased` |
| Manifests.BucketDocs | internal/backup/restore_plan.go:172-191 | the four lists are the four buckets, in source order |
| AppliedDocs.IssuesOnlyItsKinds | internal/backup/restore_plan.go:172-191 | told by Kind alone: no pre run issues one of the six workload Kinds, no workload run anything else, and neither a dropped document |
| AppliedDocs.IssuesInOrder | internal/backup/restore_plan.go:172-191 | a successful pre run issues namespaces, then definitions, then the rest; a workload run the workloads; each in source order |
| AppliedDocs.AppliesExactly | internal/backup/restore_plan.go:172-191 | a document is issued by the one phase of its Kind, unless it is one of the five never restored, or dropped and not kept |
| Manifests.BucketsPartition | internal/backup/restore_plan.go:172-191 | the buckets hold each kept document exactly once and no dropped one |
| Manifests.BucketsSeeSets | internal/backup/restore_plan.go:266-272 | the filters see the two Kind lists only as sets |
| Manifests.PVCsFromDocs | internal/backup/restore_plan.go:195-203 | the claim names among the pre-volume documents, in order |
| Agreement.SidesAgree | internal/controller/pbsrestore_controller.go:213-240 | with nonempty, trimmed, comma-free Kind lists, the claims mounted across all volume Jobs are a permutation of the claims that a successful pre-apply run, started by the Job's own command on the same text, has applied |
| Agreement.SidesAgreeExactly | internal/agent/restore.go:205-283 | they are, for any lists, if and only if both sides decide alike on the claim Kind or there is no claim |
| Agreement.PreRunClaims | internal/agent/restore.go:205-283 | the claims among the documents a successful pre-apply run issues: all of the text's, or none |
| Agreement.VolumeJobsMountPlan | internal/controller/pbsrestore_controller.go:445-478 | every planned claim is mounted exactly once, each node's claims on that node's own Job |
| Agreement.AgentReadsLists | internal/agent/restore.go:353-393 | the lists the agent filters by are what its parser makes of the apply Job's command |
| Agreement.SpaceDisagrees | internal/agent/restore.go:382-393 | a leading space in a Kind list makes the sides disagree |
| CommandLines.BackupArgsRoundTrip | internal/agent/backup.go:294-316 | BuildBackupJob's arguments parse back to the same claims, API directory and notes, for arbitrary strings |
| CommandLines.VolumeArgsRoundTrip | internal/agent/restore.go:316-349 | BuildRestoreVolumeJob's arguments parse back to the same ref and ordered pairs |
| CommandLines.ApplyArgsRoundTrip | internal/agent/restore.go:353-379 | BuildApplyJob's arguments parse back to the phase, file and the trimmed pieces of the Kind lists |
| CommandLines.RestoreMatchesBackup | internal/backup/job.go:300-317 | each archive asked for is the one the backup wrote, plus ".didx", and is restored where the claim is mounted |
| PodContents.ArgvExactly | internal/agent/backup.go:67-80 | the client is called on its namespace and key, one archive per claim in order, the serialized namespace last |
| PodContents.BackupPodReads | internal/backup/job.go:55-84 | a backup Job runs on its node and mounts read-only every claim it is commanded, where that claim's archive is made from |
| PodContents.BackupPodReadsStaging | internal/backup/job.go:71-84 | the api archive is made from the read-only mount of the staging ConfigMap |
| PodContents.VolumePodWrites | internal/backup/job.go:300-339 | a volume Job runs on its node and restores each archive into the writable mount of its claim |
| PodContents.FetchPodUploads | internal/backup/job.go:238-262 | the fetch Job asks its snapshot for api.pxar, into a writable mount, and uploads it under the name it was given |
| PodContents.ApiJobsMeet | internal/controller/pbsrestore_controller.go:192-243 | the fetch Job uploads the ConfigMap both apply Jobs read, each in its own phase with the restore's Kind lists |
| CommandLines.KindListSurvives | internal/agent/restore.go:382-393 | a Kind list reaches the agent unchanged if and only if its entries are nonempty, trimmed and comma-free |
| CommandLines.VolumePodClaims | internal/backup/job.go:300-330 | a volume Job mounts exactly its claims, in order |
| CommandLines.BuildBackupJob | internal/backup/job.go:55-84 | the loop builds volumes, mounts and command of `BackupPod` |
| CommandLines.BuildApplyJob | internal/backup/job.go:268-295 | builds `ApplyPod` |
| CommandLines.BuildRestoreVolumeJob | internal/backup/job.go:300-339 | the loop builds `VolumePod` |
| CommandLines.BuildBackupArgv | internal/agent/backup.go:67-80 | the client's argument vector, one archive pair per claim |
| CommandLines.ParseBackupArgs | internal/agent/backup.go:294-316 | flags, repetitions and errors compute `BackupArgsOf` |
| CommandLines.ParseRestoreVolumeArgs | internal/agent/restore.go:316-349 | flags, pairing and errors compute `VolumeArgsOf` |
| CommandLines.ParseApplyArgs | internal/agent/restore.go:353-379 | flags, phase and errors compute `ApplyArgsOf` |
| CommandLines.ParseCsv | internal/agent/restore.go:382-393 | splits, trims and drops empty pieces |
| FlagForms.FormsAgree | internal/agent/restore.go:316-326 | one dash or two, value after an equals sign or as the next argument: all parse alike |
| FlagForms.OtherForms | internal/agent/restore.go:316-326 | what ends the flags, and which flags are errors |
| FlagForms.BackupLines | internal/agent/backup.go:294-316 | which backup lines are refused and with what, for any flags in any order, and what the others mean |
| FlagForms.VolumeLines | internal/agent/restore.go:316-349 | the same for restore-volume: ref, archive, pairing and leftovers, in this order |
| FlagForms.ApplyLines | internal/agent/restore.go:353-379 | the same for apply-manifests: phase, file and leftovers, in this order |
| ApplyAgent.PhasesApplyEachOnce | internal/agent/restore.go:224-283 | the two phases' commands together apply each kept document exactly once and no dropped one |
| ApplyAgent.CountsAddUp | internal/agent/restore.go:226-237 | two successful phases report counts that add up to the kept documents |
| ApplyAgent.PreNeedsDefinitions | internal/agent/restore.go:249-274 | no volume document is applied unless every definition was applied and found Established before |
| ApplyAgent.IssuesPrefix | internal/agent/restore.go:265-274 | a run issues a prefix of its commands, all but the last of which succeeded |
| ApplyAgent.PhaseDocs | internal/agent/restore.go:248-280 | what each phase applies, in which order |
| ApplyAgent.FileReadsBack | internal/agent/restore.go:290-309 | the temporary file reads back as exactly the bucket's documents |
| ApplyAgent.Agent.RunApplyManifests | internal/agent/restore.go:205-286 | exit code, termination log and issued commands of every run |
| AppliedDocs.ExitsExactly | internal/agent/restore.go:205-286 | 2 for an unknown phase, 0 with the document count when every command went through, 1 otherwise, at the command that failed |
| VolumeAgent.TargetsHoldArchives | internal/agent/restore.go:81-95 | after a successful run each target holds exactly its archive's tree, whatever was there before |
| VolumeAgent.RestoringIsIdempotent | internal/agent/restore.go:142-152 | restoring again, or from any file system that agrees outside the targets, ends in the same file system |
| VolumeAgent.EmptiesExactly | internal/agent/restore.go:142-152 | emptying removes everything below the directory, keeps the directory and touches nothing else, so the client starts on an empty target |
| VolumeAgent.ReplacesContents | internal/agent/restore.go:83-92 | one restore replaces its target's contents and changes nothing outside |
| VolumeAgent.ReportsWhatWasRestored | internal/agent/restore.go:93-108 | the reported archives in order, and the byte total as the wrapped sum of the restored sizes |
| VolumeAgent.VolumePairsSeparate | internal/backup/job.go:300-317 | the targets a volume Job names never nest |
| VolumeAgent.OuterAfterInnerLoses | internal/agent/restore.go:83-92 | nested targets do lose data: the outer restore leaves in the inner directory only what its own archive holds |
| VolumeAgent.Agent.EmptyDir | internal/agent/restore.go:142-152 | removes the entries in directory order, up to one that cannot be removed |
| VolumeAgent.Agent.DirSize | internal/agent/restore.go:156-167 | the sum of the file sizes below a directory, in whatever order they are visited |
| VolumeAgent.Agent.RunRestoreVolume | internal/agent/restore.go:59-109 | exit code, file system, report and upload of every run |
| VolumeOutcomes.StopsAtFirstFailure | internal/agent/restore.go:81-95 | a failing run stops at the first pair it cannot restore, with 1 for a directory that cannot be emptied and the client's own code otherwise |
| VolumeOutcomes.CanEmptyExactly | internal/agent/restore.go:142-152 | a directory can be emptied if and only if it is there and no entry of it is stuck |
| VolumeOutcomes.SizeExactly | internal/agent/restore.go:156-167 | the byte count adds every file's length and nothing for directories |
| Names.JobNameFits | internal/controller/pbsbackup_controller.go:827-836 | a Job name never exceeds 63 bytes |
| Names.JobNameInjectiveShort | internal/controller/pbsbackup_controller.go:827-831 | for a fixed first argument, untruncated names are injective |
| Names.TruncatedNamesCoincide | internal/controller/pbsbackup_controller.go:832-835 | two truncated names coincide if and only if the kept prefix and the FNV-1a sum both do |
| Names.JobNameIsLabel | internal/controller/pbsbackup_controller.go:827-836 | labels (section 2.1 of RFC 1123, within the length of section 2.3.4 of RFC 1035) give a label |
| Credentials.CopiesExactly | internal/controller/pbsbackup_controller.go:434-471 | the copy holds exactly the eight contract keys the source has, with its values, and the label |
| Credentials.CurrentExactly | internal/controller/pbsbackup_controller.go:553-560 | a copy is current if and only if it is labelled and reads as the source, key by key, absent as empty |

## Left out

- The PBS REST client, TLS pinning, task polling, the PBSRepo controller and SPDY exec: network plumbing. A repo's readiness, a hook's outcome and the client's exit are answers of the environment.
- API types, generated deepcopy, Helm charts, kustomize and the end-to-end environment: configuration only.
- `ResolveNode` is an uninterpreted answer per claim. `RestorePlans.FirstPinDecides` says which workload `NodeForPVC` takes; that it is the claim's true owner is not claimed, because claim templates match by prefix.
- RestoreOutcomes.FailedJobFails: on a copy of the status that is not the server's, says nothing of the condition and of status.jobs, because the merge patch leaves out what the copy already said.
- BackupHookPods.HooksRunExactly: takes pods of one namespace, whose names differ.
- BackupJobs.LaunchesExactly: takes launches whose Job names differ, as `BackupCoverage.UntruncatedAreDistinct` shows of untruncated names.
- The YAML library is a `Codec` of which each statement asks only the round trips it uses; text is a sequence of lines. Go's `flag` package is modelled for flags that take a value; encoding/json is a decoding function.
- Cron parsing: an expression is a `Next` function with `t < Next(t)`, constant between slots and whole seconds. robfig/cron answers the zero time for a date that never occurs; the catch-up loop would then not end, and that case is not part of this model.
- Condition reasons and messages of the reconcilers are structured values instead of text; an event carries the same reason and message as the condition it announces.
- Strings are sequences of characters; names are ASCII, so a character is a byte.
- Times set in a status are not rounded to whole seconds when stored, as the API server does.
- A nil and an empty status.jobs list are one value.
- Errors of `SetControllerReference` count as a failing create, or as a failed adoption for the ConfigMap.
- Reads of the object being reconciled do not fail, and a deleted object is not modelled.
- Metrics are always configured; a restart of the operator resets real counters and does not happen here.
- `sort.Slice` leaves the order of equal keys open: insertion sort stands for it, and order independence is stated for unique keys.
- Liveness of a restore whose Job completes and is reaped while the restore is held is not claimed: holds do not refresh status.jobs, so the step stays deleted.
- Job names are not claimed distinct across different backups ("a-b" with "c" and "a" with "b-c" coincide), nor truncated names with equal sums; `DistinctNames` is a hypothesis where runs need it.
- A removal that fails in `EmptyDir` leaves that entry untouched; a partial removal of one entry is not modelled.
- The agent's backup subcommand beyond its argument vector, the snapshot list and notes: wrapping of the client.
- RestoreController.Reconciler.Reconcile: takes a status whose Jobs list names no Job twice, which `RestoreReaping.AlwaysOrderly` shows of every status the controller writes.
- RestorePhases.PhaseNeverRegresses: assumes a working Job listing and live reads, because the phase does go back without them (`RestoreListing.LostListingRegresses`, `RestoreStaleness.OldCopyForgets`).
- RestoreReaping.MemoryGrows: says nothing after a read of a copy older than the record, because such a read does forget (`RestoreStaleness.OldCopyForgets`).
- BackupHooks.HooksAtMostOnce: assumes the status is written after the hooks and not read from before that, because the hooks do run again otherwise (`BackupStaleness.SameCopyRunsHooksAgain`).
- BackupMetrics.ErrorsAreFailures: says nothing after a read from before a backup's end, because that is counted again (`BackupMetrics.StaleCopyCountsAgain`).
- BackupMetrics.LastSuccessIsLatest: the same.
- ScheduleRuns.SlotsIncrease: assumes that no backup is deleted and the cron expression stays the same, because a freed name is taken again (`ScheduleRuns.FreedNameIsTakenAgain`) and a new expression has other slots.
