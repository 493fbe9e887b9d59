/** RestoreSpec: one PBSRestore reconcile as a function of what the API server answers.
    The pipeline is a list of steps (fetch, pre, one volume Job per node, workload); the first step that is
    not done decides the reconcile. The nested control flow of the controller is proved to compute this in
    RestoreController. */
module RestoreSpec {
  import opened Wrappers
  import opened Reads
  import opened Strings
  import opened Sorting
  import opened Names
  import opened Manifests
  import opened CommandLines
  import opened Conditions

  // ---- objects ------------------------------------------------------------------------------

  // Unset is the zero value a PBSRestore carries before its first status write.
  datatype Phase = Unset | New | StagingAPI | RestoringVolumes | ApplyingWorkloads | Completed | Failed

  predicate Terminal(p: Phase) {
    p == Completed || p == Failed
  }

  // `labelled`: carries pbsrestore=<name>, so List returns it. The two flags are the batch conditions.
  datatype Job = Job(work: Work, labelled: bool, failed: bool, complete: bool)

  predicate Done(j: Job) {
    j.complete && !j.failed
  }

  datatype State = Active | Complete | FailedState

  function JobState(j: Job): State {
    if j.failed then FailedState else if j.complete then Complete else Active
  }

  // Condition reasons and messages, kept structured; a gate brings its own text.
  datatype Reason =
    | InvalidSpec | ApiManifestMissing | PlacementFailed | JobDeleted | Running | JobsCompleted | JobsFailed
    | GateReason(text: string)

  datatype SpecIssue = NoRepoRef | NoSnapshotRef | NoTargetNamespace | MalformedSnapshotRef

  datatype Message =
    | SpecMessage(issue: SpecIssue)
    | ManifestMessage(error: ParseError)
    | ManifestAbsent
    | Unplaceable(pvc: string)
    | DeletedMessage(job: string)
    | FailedMessage(job: string)
    | InPhase(phase: Phase)
    | RestoreCompleted
    | GateMessage(text: string)

  datatype JobEntry = JobEntry(phase: Phase, job: string, state: State)
  type Ready = Condition<Reason, Message>
  datatype Status = Status(phase: Phase, ready: Option<Ready>, startedAt: Option<int>, completedAt: Option<int>,
                           jobs: seq<JobEntry>)

  const EMPTY_STATUS := Status(Unset, None, None, None, [])

  // The names the pipeline's Jobs get.
  datatype JobNames = JobNames(fetch: string, pre: string, workload: string, volume: string -> string)

  function NamesFor(restore: string): JobNames {
    JobNames(JobName(restore, "api-fetch"), JobName(restore, "api-pre"), JobName(restore, "api-workload"),
             (node: string) => JobName(restore, "vol-" + node))
  }

  datatype Config = Config(name: string, namespace: string, targetNamespace: string, repoRef: string,
                           snapshotRef: string, dropKinds: seq<string>, keepKinds: seq<string>,
                           generation: int, codec: Codec, names: JobNames)

  datatype Effect =
    | ConfigMapAdopted
    | JobCreated(name: string)
    | StatusPatched
    | Event(warning: bool, reason: Reason, message: Message)

  // The part of the API server one restore reads and writes. The log records every write and event, in order.
  datatype Cluster = Cluster(jobs: map<string, Job>, status: Status, adopted: bool, log: seq<Effect>)

  // ---- the plan ----------------------------------------------------------------------------------------

  datatype ConfigMapRead = ConfigMapFails | ConfigMapAbsent | ConfigMap(text: seq<string>)

  // What reading the ConfigMap, and the nodes if a claim needs placing, amounts to.
  datatype Plan =
    | PlanUnread
    | PlanMissing
    | PlanRejected(error: ParseError)
    | PlanNodesFail
    | PlanUnplaceable(pvc: string)
    | VolumePlan(docs: seq<Doc>, fallback: string, pvcs: seq<string>)

  function Placement(docs: seq<Doc>, fallback: string, pvc: string): string {
    if NodeForPVC(docs, pvc) != "" then NodeForPVC(docs, pvc) else fallback
  }

  // The first claim nothing places, if any.
  function FirstUnplaced(docs: seq<Doc>, fallback: string, pvcs: seq<string>): Option<string> {
    if pvcs == [] then None
    else if Placement(docs, fallback, pvcs[0]) == "" then Some(pvcs[0])
    else FirstUnplaced(docs, fallback, pvcs[1..])
  }

  function PlanOf(cfg: Config, configMap: ConfigMapRead, nodes: NodesRead): Plan {
    match configMap
    case ConfigMapFails => PlanUnread
    case ConfigMapAbsent => PlanMissing
    case ConfigMap(text) => PlanOfDocs(cfg, Parse(cfg.codec, text, cfg.targetNamespace), nodes)
  }

  function PlanOfDocs(cfg: Config, parsed: ParseResult, nodes: NodesRead): Plan {
    if parsed.Rejected? then PlanRejected(parsed.error)
    else
      var pvcs := ClaimNames(InBucket(cfg.codec, parsed.docs, cfg.dropKinds, cfg.keepKinds, PreVolume));
      if pvcs == [] then VolumePlan(parsed.docs, "", [])
      else if nodes.NodesFail? then PlanNodesFail
      else
        var stuck := FirstUnplaced(parsed.docs, nodes.node, pvcs);
        if stuck.Some? then PlanUnplaceable(stuck.value) else VolumePlan(parsed.docs, nodes.node, pvcs)
  }

  ghost function PlanNodes(docs: seq<Doc>, fallback: string, pvcs: seq<string>): set<string> {
    set p | p in pvcs :: Placement(docs, fallback, p)
  }

  // The claims placed on one node, in plan order.
  function GroupOf(docs: seq<Doc>, fallback: string, pvcs: seq<string>, node: string): seq<string> {
    if pvcs == [] then []
    else
      var last := pvcs[|pvcs| - 1];
      GroupOf(docs, fallback, pvcs[..|pvcs| - 1], node)
      + (if Placement(docs, fallback, last) == node then [last] else [])
  }

  // ---- what one reconcile is answered ------------------------------------------------------------

  datatype Gate = Open | Held(reason: Reason, message: Message) | Unreachable
  datatype Listing = ListFails | Listed(view: View<Job>)
  datatype Env = Env(gate: Gate, jobs: View<Job>, getFails: set<string>, createFails: set<string>,
                     plan: Plan, adoptFails: bool,
                     listing: Listing, patchFails: bool, now: int)

  datatype Result = Finished | Requeue(seconds: nat) | Errored

  const REQUEUE_WAIT := 60

  // ---- status.jobs -----------------------------------------------------------------------------------

  predicate ByJob(a: JobEntry, b: JobEntry) {
    Less(a.job, b.job)
  }

  ghost predicate UniqueJobs(jobs: seq<JobEntry>) {
    forall i, j | 0 <= i < j < |jobs| :: jobs[i].job != jobs[j].job
  }

  predicate KnownJob(rs: Status, name: string) {
    exists e | e in rs.jobs :: e.job == name
  }

  // The state recorded for a name, absent when unknown.
  function RecordedState(jobs: seq<JobEntry>, name: string): Option<State> {
    if jobs == [] then None else if jobs[0].job == name then Some(jobs[0].state) else RecordedState(jobs[1..], name)
  }

  predicate RecordedComplete(rs: Status, name: string) {
    RecordedState(rs.jobs, name) == Some(Complete)
  }

  function JobPhaseByName(restore: string, name: string): Phase {
    var base := TrimPrefix(name, restore + "-");
    if HasPrefix(base, "vol-") then RestoringVolumes
    else if base == "api-workload" then ApplyingWorkloads
    else StagingAPI
  }

  function LiveEntry(restore: string, name: string, j: Job): JobEntry {
    JobEntry(JobPhaseByName(restore, name), name, JobState(j))
  }

  ghost function LabelledNames(listed: map<string, Job>): set<string> {
    set n | n in listed && listed[n].labelled
  }

  ghost function KnownNames(jobs: seq<JobEntry>): set<string> {
    set e | e in jobs :: e.job
  }

  ghost function EntryOf(jobs: seq<JobEntry>, name: string): JobEntry
    requires name in KnownNames(jobs)
  {
    var e :| e in jobs && e.job == name;
    e
  }

  // A live Job's entry is refreshed; a vanished Job keeps its last recorded one. Sorted by name.
  ghost function SnapshotEntry(restore: string, recorded: seq<JobEntry>, listed: map<string, Job>, name: string): JobEntry
    requires name in LabelledNames(listed) + KnownNames(recorded)
  {
    if name in LabelledNames(listed) then LiveEntry(restore, name, listed[name]) else EntryOf(recorded, name)
  }

  ghost function Snapshot(restore: string, recorded: seq<JobEntry>, listed: map<string, Job>): (out: seq<JobEntry>)
  {
    var order := InOrder(LabelledNames(listed) + KnownNames(recorded));
    seq(|order|, i requires 0 <= i < |order| => SnapshotEntry(restore, recorded, listed, order[i]))
  }

  // The listing that fails keeps the last snapshot.
  ghost function LiveJobs(cfg: Config, rs: Status, listing: Listing, live: map<string, Job>): seq<JobEntry> {
    if listing.ListFails? then rs.jobs else Snapshot(cfg.name, rs.jobs, Look(listing.view, live))
  }

  // ---- the pipeline ---------------------------------------------------------------------------------------

  datatype Step = Step(phase: Phase, name: string, work: Work)

  function ApiName(cfg: Config): string { cfg.name + "-api" }

  function FetchStep(cfg: Config): Step {
    Step(StagingAPI, cfg.names.fetch, FetchWork(cfg.snapshotRef, ApiName(cfg)))
  }

  function PreStep(cfg: Config): Step {
    Step(StagingAPI, cfg.names.pre, ApplyWork(PreApply, ApiName(cfg), cfg.dropKinds, cfg.keepKinds))
  }

  function WorkloadStep(cfg: Config): Step {
    Step(ApplyingWorkloads, cfg.names.workload,
         ApplyWork(WorkloadApply, ApiName(cfg), cfg.dropKinds, cfg.keepKinds))
  }

  function VolumeStep(cfg: Config, node: string, group: seq<string>): Step {
    Step(RestoringVolumes, cfg.names.volume(node), VolumeWork(cfg.snapshotRef, node, SortStrings(group)))
  }

  // One volume Job per planned node, in node order.
  ghost function VolumeSteps(cfg: Config, plan: Plan): seq<Step>
    requires plan.VolumePlan?
  {
    var nodes := InOrder(PlanNodes(plan.docs, plan.fallback, plan.pvcs));
    seq(|nodes|, i requires 0 <= i < |nodes| =>
      VolumeStep(cfg, nodes[i], GroupOf(plan.docs, plan.fallback, plan.pvcs, nodes[i])))
  }

  // The ConfigMap was read: the pre step is reachable.
  predicate Present(plan: Plan) {
    !plan.PlanUnread? && !plan.PlanMissing?
  }

  // The steps a reconcile can reach, given what it reads.
  ghost function Steps(cfg: Config, plan: Plan): (steps: seq<Step>)
    ensures steps != [] && steps[0] == FetchStep(cfg)
    ensures Present(plan) <==> |steps| > 1
    ensures Present(plan) ==> steps[1] == PreStep(cfg)
  {
    if !Present(plan) then [FetchStep(cfg)]
    else if !plan.VolumePlan? then [FetchStep(cfg), PreStep(cfg)]
    else [FetchStep(cfg), PreStep(cfg)] + VolumeSteps(cfg, plan) + [WorkloadStep(cfg)]
  }

  datatype Outcome =
    | Ignored
    | ApiFails
    | Fails(reason: Reason, message: Message)
    | Holds(reason: Reason, message: Message)
    | Advances(phase: Phase)
    | Finishes

  // What is left once every reachable step is done.
  function Tail(plan: Plan): Outcome {
    match plan
    case PlanUnread => ApiFails
    case PlanMissing => Holds(ApiManifestMissing, ManifestAbsent)
    case PlanRejected(e) => Fails(InvalidSpec, ManifestMessage(e))
    case PlanNodesFail => ApiFails
    case PlanUnplaceable(pvc) => Holds(PlacementFailed, Unplaceable(pvc))
    case VolumePlan(_, _, _) => Finishes
  }

  datatype Ensured = JobDone | JobRuns | JobAbsent | JobFailed | JobGone | EnsureFails

  // A live Job speaks for itself; an absent one is done only if it was recorded complete, is never created
  // again once recorded, and is created otherwise.
  function Ensure(rs: Status, seen: map<string, Job>, env: Env, name: string): Ensured {
    if name in env.getFails then EnsureFails
    else if name in seen then
      (if seen[name].failed then JobFailed else if seen[name].complete then JobDone else JobRuns)
    else if KnownJob(rs, name) then
      (if RecordedComplete(rs, name) then JobDone else JobGone)
    else if name in env.createFails then EnsureFails
    else JobAbsent
  }

  // The first step that is not done.
  function FirstUndone(rs: Status, seen: map<string, Job>, env: Env, steps: seq<Step>): (i: nat)
    ensures i <= |steps|
    ensures forall j | 0 <= j < i :: Ensure(rs, seen, env, steps[j].name).JobDone?
    ensures i < |steps| ==> !Ensure(rs, seen, env, steps[i].name).JobDone?
  {
    if steps == [] || !Ensure(rs, seen, env, steps[0].name).JobDone? then 0
    else 1 + FirstUndone(rs, seen, env, steps[1..])
  }

  function Settle(step: Step, e: Ensured): Outcome
    requires !e.JobDone?
  {
    match e
    case JobFailed => Fails(JobsFailed, FailedMessage(step.name))
    case JobGone => Holds(JobDeleted, DeletedMessage(step.name))
    case EnsureFails => ApiFails
    case JobRuns => Advances(step.phase)
    case JobAbsent => Advances(step.phase)
  }

  function SpecProblem(cfg: Config): Option<SpecIssue> {
    if cfg.repoRef == "" then Some(NoRepoRef)
    else if cfg.snapshotRef == "" then Some(NoSnapshotRef)
    else if cfg.targetNamespace == "" then Some(NoTargetNamespace)
    else if |Split(cfg.snapshotRef, '/')| != 3 then Some(MalformedSnapshotRef)
    else None
  }

  ghost function Walk(cfg: Config, rs: Status, seen: map<string, Job>, env: Env): Outcome {
    var steps := Steps(cfg, env.plan);
    var i := FirstUndone(rs, seen, env, steps);
    if i == |steps| then Tail(env.plan) else Settle(steps[i], Ensure(rs, seen, env, steps[i].name))
  }

  ghost function Decide(cfg: Config, rs: Status, seen: map<string, Job>, env: Env): Outcome {
    if Terminal(rs.phase) then Ignored
    else if SpecProblem(cfg).Some? then Fails(InvalidSpec, SpecMessage(SpecProblem(cfg).value))
    else if env.gate.Unreachable? then ApiFails
    else if env.gate.Held? then Holds(env.gate.reason, env.gate.message)
    else Walk(cfg, rs, seen, env)
  }

  // The reconcile gets past the gates.
  ghost predicate Runs(cfg: Config, rs: Status, env: Env) {
    !Terminal(rs.phase) && SpecProblem(cfg).None? && env.gate.Open?
  }

  // The Job a reconcile creates, if any: the first step that is not done, when it is absent and unrecorded.
  ghost function Creation(cfg: Config, rs: Status, seen: map<string, Job>, env: Env): Option<Step> {
    var steps := Steps(cfg, env.plan);
    var i := FirstUndone(rs, seen, env, steps);
    if Runs(cfg, rs, env) && i < |steps| && Ensure(rs, seen, env, steps[i].name).JobAbsent? then Some(steps[i]) else None
  }

  // ---- what a reconcile writes ------------------------------------------------------------------------------

  // The fetch Job is done and its ConfigMap was read.
  ghost predicate Staged(cfg: Config, rs: Status, seen: map<string, Job>, env: Env) {
    && Runs(cfg, rs, env)
    && Ensure(rs, seen, env, FetchStep(cfg).name).JobDone?
    && Present(env.plan)
  }

  function Adopt(cfg: Config, c: Cluster, env: Env): Cluster {
    if cfg.namespace == cfg.targetNamespace && !c.adopted && !env.adoptFails
    then c.(adopted := true, log := c.log + [ConfigMapAdopted])
    else c
  }

  function NewJob(step: Step): Job {
    Job(step.work, true, false, false)
  }

  // Create; AlreadyExists is ignored.
  function Create(c: Cluster, step: Step): Cluster {
    if step.name in c.jobs then c
    else c.(jobs := c.jobs[step.name := NewJob(step)], log := c.log + [JobCreated(step.name)])
  }

  function HoldPhase(current: Phase): Phase {
    if current == New then StagingAPI else current
  }

  function OutcomePhase(rs: Status, out: Outcome): Phase {
    match out
    case Holds(_, _) => HoldPhase(rs.phase)
    case Advances(phase) => phase
    case Fails(_, _) => Failed
    case Finishes => Completed
    case _ => rs.phase
  }

  function OutcomeReason(out: Outcome): Reason {
    match out
    case Holds(reason, _) => reason
    case Fails(reason, _) => reason
    case Advances(_) => Running
    case _ => JobsCompleted
  }

  function OutcomeMessage(out: Outcome): Message {
    match out
    case Holds(_, message) => message
    case Fails(_, message) => message
    case Advances(phase) => InPhase(phase)
    case _ => RestoreCompleted
  }

  function OutcomeCondition(cfg: Config, rs: Status, out: Outcome, now: int): Ready {
    SetCondition(rs.ready, out.Finishes?, OutcomeReason(out), OutcomeMessage(out), cfg.generation, now)
  }

  // The status a reconcile wants to persist; holds leave status.jobs alone.
  ghost function Recorded(cfg: Config, rs: Status, out: Outcome, env: Env, live: map<string, Job>): Status
    requires !out.Ignored? && !out.ApiFails?
  {
    Status(OutcomePhase(rs, out),
           Some(OutcomeCondition(cfg, rs, out, env.now)),
           if out.Advances? then OrNow(rs.startedAt, env.now) else rs.startedAt,
           if out.Fails? || out.Finishes? then OrNow(rs.completedAt, env.now) else rs.completedAt,
           if out.Holds? then rs.jobs else LiveJobs(cfg, rs, env.listing, live))
  }

  // Field by field, the patch the controller sends.
  function MergeStatus(server: Status, before: Status, after: Status): Status {
    Status(Merge(server.phase, before.phase, after.phase),
           Merge(server.ready, before.ready, after.ready),
           Merge(server.startedAt, before.startedAt, after.startedAt),
           Merge(server.completedAt, before.completedAt, after.completedAt),
           Merge(server.jobs, before.jobs, after.jobs))
  }

  function Emitted(cfg: Config, rs: Status, out: Outcome, now: int): seq<Effect> {
    if out.Advances? || !Transitioned(rs.ready, OutcomeCondition(cfg, rs, out, now)) then []
    else [Event(!out.Finishes?, OutcomeReason(out), OutcomeMessage(out))]
  }

  function ResultOf(out: Outcome): Result {
    match out
    case Holds(_, _) => Requeue(REQUEUE_WAIT)
    case Advances(_) => Requeue(REQUEUE_WAIT)
    case ApiFails => Errored
    case _ => Finished
  }

  // recordRestore: patch only a changed status, emit only a transition.
  ghost function Record(cfg: Config, c: Cluster, rs: Status, out: Outcome, env: Env): (r: (Cluster, Result))
  {
    if out.Ignored? || out.ApiFails? then (c, ResultOf(out))
    else
      var after := Recorded(cfg, rs, out, env, c.jobs);
      if after == rs then (c, ResultOf(out))
      else if env.patchFails then (c, Errored)
      else
        (c.(status := MergeStatus(c.status, rs, after),
            log := c.log + [StatusPatched] + Emitted(cfg, rs, out, env.now)), ResultOf(out))
  }

  // The cluster once the ensure calls have run.
  ghost function Ensuring(cfg: Config, c: Cluster, rs: Status, env: Env): Cluster {
    var seen := Look(env.jobs, c.jobs);
    var c1 := if Staged(cfg, rs, seen, env) then Adopt(cfg, c, env) else c;
    var creation := Creation(cfg, rs, seen, env);
    if creation.Some? then Create(c1, creation.value) else c1
  }

  // One reconcile that read `rs` as the object's status.
  ghost function Reconcile(cfg: Config, c: Cluster, rs: Status, env: Env): (Cluster, Result) {
    Record(cfg, Ensuring(cfg, c, rs, env), rs, Decide(cfg, rs, Look(env.jobs, c.jobs), env), env)
  }
}
