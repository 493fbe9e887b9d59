/** BackupSpec: one PBSBackup reconcile as a function of what the API server answers. A reconcile prepares (gates,
    selection, staging, placement), runs the hooks before the first Job, launches one Job per node, and turns the
    Jobs' states into an outcome that is recorded once. */
module BackupSpec {
  import opened Wrappers
  import opened Sorting
  import opened Conditions
  import opened Reads
  import opened Int64
  import opened Credentials
  import opened CommandLines
  import Serializer

  // ---- objects ------------------------------------------------------------------------------------------

  datatype Phase = Unset | New | Scheduled | Running | Completed | Failed

  predicate Terminal(p: Phase) {
    p == Completed || p == Failed
  }

  datatype Job = Job(pod: Pod, failed: bool, complete: bool)

  datatype EntryState = Active | Complete | FailedState | Ok(ref: string)
  datatype JobEntry = JobEntry(node: string, job: string, state: EntryState)

  datatype Reason =
    | RepoNotReady | SecretCopyFailed | PlacementFailed | NoPVCs | HookInvalid | HookFailed | JobDeleted
    | JobsRunning | JobsCompleted | JobsFailed | ResultUnreadable

  datatype Message =
    | RepoMessage(text: string)
    | SourceAbsentMessage
    | ClaimNotFound(claim: string)
    | InvalidSelector(error: string)
    | ClaimUnbound(claim: string)
    | VolumeNotFound(volume: string, claim: string)
    | NodeUnresolved(error: string)
    | NothingToBackUp
    | NoNodes
    | BadAnnotation(pod: string, error: string)
    | NoExecutor(pod: string)
    | ExecFailed(pod: string, error: string)
    | DeletedMessage(job: string, node: string)
    | FailedMessage(job: string, node: string)
    | UnreadableLog(job: string, text: string)
    | NoLog(job: string)
    | RunningMessage
    | SnapshotMessage(ref: string)
    | CompletedMessage(jobs: nat)

  type Ready = Condition<Reason, Message>
  datatype Status = Status(phase: Phase, ready: Option<Ready>, startedAt: Option<int>, completedAt: Option<int>,
                           jobs: seq<JobEntry>, bytes: int, snapshotRef: string)

  const EMPTY_STATUS := Status(Unset, None, None, None, [], 0, "")

  // The copies the controller writes: the repo's credentials and the serialized namespace.
  datatype ConfigMap = ConfigMap(text: seq<string>, managed: bool)

  // One namespace's series.
  datatype Metrics = Metrics(lastSuccess: Option<int>, duration: Option<int>, errors: nat)

  datatype Effect =
    | SecretWritten
    | StagingWritten
    | HookRan(pod: string)
    | JobCreated(name: string)
    | StatusPatched
    | Event(warning: bool, reason: Reason, message: Message)

  // The part of the API server one backup reads and writes, the namespace's metrics, and the log of what was done.
  datatype Cluster = Cluster(jobs: map<string, Job>, secret: Option<Secret>, staging: Option<ConfigMap>, status: Status,
                             metrics: Metrics, log: seq<Effect>)

  // ---- what one reconcile is answered ----------------------------------------------------------------

  datatype Claim = Claim(name: string, volume: string)
  datatype Selection = Explicit(names: seq<string>) | BySelector | BadSelector(error: string) | AllClaims
  datatype Report = Report(ref: string, bytes: int)

  datatype Config = Config(name: string, namespace: string, selection: Selection, notes: string, generation: int,
                           executor: bool, serializer: bool, jobName: string -> string,
                           unmarshal: string -> Option<Report>)

  datatype Gate = Open | Held(text: string) | Unreachable
  datatype ClaimList = ClaimsFail | Claims(items: seq<Claim>)
  datatype Hook = NoHook | BadHook(error: string) | Hook(container: string, command: seq<string>)
  datatype PodInfo = PodInfo(name: string, claims: seq<string>, hook: Hook)
  datatype PodList = PodsFail | Pods(items: seq<PodInfo>)
  datatype Resolution = Unresolvable(error: string) | ResolvedTo(node: string)
  datatype ContainerLog = ContainerLog(terminated: string, last: string)
  datatype LogRead = LogsFail | Logs(pods: seq<seq<ContainerLog>>)

  // A read may miss an object that exists (`secretMissed`, `stagingMissed`, lagging views); creating it then answers
  // AlreadyExists.
  datatype Env = Env(
    repo: Gate, source: Source, secretGetFails: bool, secretMissed: bool, secretWriteFails: bool,
    claims: map<string, Claim>, claimFails: set<string>, listed: ClaimList,
    serialized: Serializer.Serialized, stagingGetFails: bool, stagingMissed: bool, stagingWriteFails: bool,
    pods: PodList, nodes: NodesRead,
    volumes: set<string>, volumeFails: set<string>, resolve: Claim -> Resolution,
    execFails: map<string, string>,
    jobs: View<Job>, getFails: set<string>, createFails: set<string>,
    again: View<Job>, againFails: set<string>,
    logs: string -> LogRead, patchFails: bool, now: int)

  datatype Result = Finished | Requeue(seconds: nat) | Errored

  const WAIT := 60
  const SLOW_WAIT := 300

  // ---- the credentials copy -----------------------------------------------------------------------

  datatype SecretStep = SecretOk | SecretProblem | SecretFails

  function SecretOutcome(c: Cluster, env: Env): SecretStep {
    match env.source
    case SourceFails => SecretFails
    case SourceAbsent => SecretProblem
    case Source(data) =>
      if env.secretGetFails then SecretFails
      else if CopyCurrent(Seen(c.secret, env.secretMissed), ContractData(data)) then SecretOk
      else if env.secretWriteFails then SecretFails
      else SecretOk
  }

  function EnsureSecret(c: Cluster, env: Env): Cluster {
    if !SecretOutcome(c, env).SecretOk? || CopyCurrent(Seen(c.secret, env.secretMissed), ContractData(env.source.data))
       || Taken(c.secret, env.secretMissed)
    then c
    else c.(secret := Some(Secret(ContractData(env.source.data), true)), log := c.log + [SecretWritten])
  }

  // ---- selection and staging ---------------------------------------------------------------------------

  datatype Picked = PickFails | PickProblem(message: Message) | Picks(claims: seq<Claim>)

  function PickNamed(env: Env, names: seq<string>): Picked {
    if names == [] then Picks([])
    else
      var front, name := PickNamed(env, names[..|names| - 1]), names[|names| - 1];
      if !front.Picks? then front
      else if name in env.claimFails then PickFails
      else if name !in env.claims then PickProblem(ClaimNotFound(name))
      else Picks(front.claims + [env.claims[name]])
  }

  // Named claims, else what the selector matches, else every claim of the namespace.
  function PickFrom(cfg: Config, env: Env): Picked {
    if cfg.selection.Explicit? && cfg.selection.names != [] then PickNamed(env, cfg.selection.names)
    else if cfg.selection.BadSelector? then PickProblem(InvalidSelector(cfg.selection.error))
    else if env.listed.ClaimsFail? then PickFails
    else Picks(env.listed.items)
  }

  // The text to stage: none without a serializer, and none for an empty namespace.
  function TextToStage(cfg: Config, env: Env): Serializer.Serialized {
    if cfg.serializer then env.serialized else Serializer.Text([])
  }

  function StagingName(cfg: Config): string { cfg.name + "-api" }

  // The ConfigMap mounted by the Jobs, "" for none.
  function StagingFor(cfg: Config, env: Env): string {
    var t := TextToStage(cfg, env);
    if t.Text? && t.lines != [] then StagingName(cfg) else ""
  }

  predicate StagingCurrent(staging: Option<ConfigMap>, text: seq<string>) {
    staging.Some? && staging.value.text == text
  }

  predicate StagingFails(cfg: Config, c: Cluster, env: Env) {
    var t := TextToStage(cfg, env);
    || t.SerializeFails?
    || (t.lines != []
        && (env.stagingGetFails
            || (!StagingCurrent(Seen(c.staging, env.stagingMissed), t.lines) && env.stagingWriteFails)))
  }

  // An existing ConfigMap keeps its labels; a new one is labelled.
  function EnsureStaging(cfg: Config, c: Cluster, env: Env): Cluster {
    var t := TextToStage(cfg, env);
    if StagingFails(cfg, c, env) || t.lines == [] || StagingCurrent(Seen(c.staging, env.stagingMissed), t.lines)
       || Taken(c.staging, env.stagingMissed)
    then c
    else c.(staging := Some(ConfigMap(t.lines, if c.staging.Some? then c.staging.value.managed else true)),
            log := c.log + [StagingWritten])
  }

  // ---- placement -----------------------------------------------------------------------------------------

  datatype Placement = PlaceFails | PlaceProblem(message: Message) | Placed(nodes: seq<string>)

  function PlaceOne(env: Env, claim: Claim): Placement {
    if claim.volume == "" then PlaceProblem(ClaimUnbound(claim.name))
    else if claim.volume in env.volumeFails then PlaceFails
    else if claim.volume !in env.volumes then PlaceProblem(VolumeNotFound(claim.volume, claim.name))
    else match env.resolve(claim)
      case Unresolvable(error) => PlaceProblem(NodeUnresolved(error))
      case ResolvedTo(node) => Placed([node])
  }

  // The node of every claim, in selection order; the first claim that cannot be placed stops.
  function PlaceAll(env: Env, claims: seq<Claim>): (p: Placement)
    ensures p.Placed? ==> |p.nodes| == |claims|
  {
    if claims == [] then Placed([])
    else
      var front := PlaceAll(env, claims[..|claims| - 1]);
      if !front.Placed? then front
      else
        var one := PlaceOne(env, claims[|claims| - 1]);
        if one.Placed? then Placed(front.nodes + [one.nodes[0]]) else one
  }

  // The names of the claims on one node, in selection order.
  function OnNode(claims: seq<Claim>, nodes: seq<string>, node: string): seq<string>
    requires |nodes| == |claims|
  {
    if claims == [] then []
    else
      var n := |claims| - 1;
      OnNode(claims[..n], nodes[..n], node) + (if nodes[n] == node then [claims[n].name] else [])
  }

  datatype Launch = Launch(node: string, name: string, pvcs: seq<string>)

  ghost function LaunchesOf(cfg: Config, claims: seq<Claim>, nodes: seq<string>): seq<Launch>
    requires |nodes| == |claims|
  {
    var order := InOrder(set n | n in nodes);
    seq(|order|, i requires 0 <= i < |order| =>
      Launch(order[i], cfg.jobName(order[i]), SortStrings(OnNode(claims, nodes, order[i]))))
  }

  // ---- preparing -----------------------------------------------------------------------------------------

  datatype Outcome =
    | Ignored
    | ApiFails
    | Holds(reason: Reason, message: Message, wait: nat)
    | Fails(reason: Reason, message: Message, entries: seq<JobEntry>)
    | RunsOn(entries: seq<JobEntry>)
    | Completes(entries: seq<JobEntry>, bytes: int, ref: string)

  // What precedes the hooks: stopping with an outcome, or the claims, pods and launches to go on with.
  datatype Prepared = Stops(out: Outcome) | Goes(claims: seq<Claim>, pods: seq<PodInfo>, launches: seq<Launch>)

  // A terminal backup or a gate stops before anything is written.
  function Gated(rs: Status, env: Env): Option<Outcome> {
    if Terminal(rs.phase) then Some(Ignored)
    else match env.repo
      case Unreachable => Some(ApiFails)
      case Held(text) => Some(Holds(RepoNotReady, RepoMessage(text), WAIT))
      case Open => None
  }

  ghost function PlaceLaunches(cfg: Config, env: Env, claims: seq<Claim>, pods: seq<PodInfo>): Prepared {
    if claims == [] then
      match env.nodes
      case NodesFail => Stops(ApiFails)
      case FirstNode(node) =>
        if node == "" then Stops(Holds(PlacementFailed, NoNodes, WAIT))
        else Goes([], pods, [Launch(node, cfg.jobName(node), [])])
    else
      match PlaceAll(env, claims)
      case PlaceFails => Stops(ApiFails)
      case PlaceProblem(message) => Stops(Holds(PlacementFailed, message, WAIT))
      case Placed(nodes) => Goes(claims, pods, LaunchesOf(cfg, claims, nodes))
  }

  // Once the claims are picked and the text is staged.
  ghost function PrepareClaims(cfg: Config, env: Env, claims: seq<Claim>): Prepared {
    if claims == [] && StagingFor(cfg, env) == "" then Stops(Holds(NoPVCs, NothingToBackUp, SLOW_WAIT))
    else if env.pods.PodsFail? then Stops(ApiFails)
    else PlaceLaunches(cfg, env, claims, env.pods.items)
  }

  ghost function Prepare(cfg: Config, c: Cluster, rs: Status, env: Env): Prepared {
    if Gated(rs, env).Some? then Stops(Gated(rs, env).value)
    else match SecretOutcome(c, env)
      case SecretFails => Stops(ApiFails)
      case SecretProblem => Stops(Holds(SecretCopyFailed, SourceAbsentMessage, WAIT))
      case SecretOk =>
        match PickFrom(cfg, env)
        case PickFails => Stops(ApiFails)
        case PickProblem(message) => Stops(Holds(PlacementFailed, message, WAIT))
        case Picks(claims) =>
          if StagingFails(cfg, c, env) then Stops(ApiFails) else PrepareClaims(cfg, env, claims)
  }

  // What preparing writes.
  ghost function Preparing(cfg: Config, c: Cluster, rs: Status, env: Env): Cluster {
    if Gated(rs, env).Some? then c
    else
      var c1 := EnsureSecret(c, env);
      if SecretOutcome(c, env).SecretOk? && PickFrom(cfg, env).Picks? then EnsureStaging(cfg, c1, env) else c1
  }

  // ---- hooks ----------------------------------------------------------------------------------------------

  predicate Mounts(pod: PodInfo, selected: set<string>) {
    exists c | c in pod.claims :: c in selected
  }

  function MountingPods(pods: seq<PodInfo>, selected: set<string>): seq<string> {
    if pods == [] then []
    else
      var last := pods[|pods| - 1];
      MountingPods(pods[..|pods| - 1], selected) + (if Mounts(last, selected) then [last.name] else [])
  }

  // The last mounting pod of a name wins (names are unique in a namespace).
  function PodNamed(pods: seq<PodInfo>, selected: set<string>, name: string): PodInfo {
    if pods == [] then PodInfo(name, [], NoHook)
    else
      var last := pods[|pods| - 1];
      if Mounts(last, selected) && last.name == name then last else PodNamed(pods[..|pods| - 1], selected, name)
  }

  datatype HookProblem = HookProblem(reason: Reason, message: Message)

  // The pods whose hook was executed, and what stopped the sequence.
  datatype HookRun = HookRun(ran: seq<string>, problem: Option<HookProblem>)

  function RunHook(cfg: Config, env: Env, pod: PodInfo): HookRun {
    match pod.hook
    case BadHook(error) => HookRun([], Some(HookProblem(HookInvalid, BadAnnotation(pod.name, error))))
    case NoHook => HookRun([], None)
    case Hook(_, _) =>
      if !cfg.executor then HookRun([], Some(HookProblem(HookFailed, NoExecutor(pod.name))))
      else if pod.name in env.execFails
      then HookRun([pod.name], Some(HookProblem(HookFailed, ExecFailed(pod.name, env.execFails[pod.name]))))
      else HookRun([pod.name], None)
  }

  // The hooks in order, up to the first problem.
  function RunHooks(cfg: Config, env: Env, pods: seq<PodInfo>): HookRun {
    if pods == [] then HookRun([], None)
    else
      var front := RunHooks(cfg, env, pods[..|pods| - 1]);
      if front.problem.Some? then front
      else
        var one := RunHook(cfg, env, pods[|pods| - 1]);
        HookRun(front.ran + one.ran, one.problem)
  }

  ghost function SelectedNames(claims: seq<Claim>): set<string> {
    set c | c in claims :: c.name
  }

  // The pods mounting a selected claim, in name order.
  ghost function HookOrder(claims: seq<Claim>, pods: seq<PodInfo>): seq<PodInfo> {
    var selected := SelectedNames(claims);
    var names := SortStrings(MountingPods(pods, selected));
    seq(|names|, i requires 0 <= i < |names| => PodNamed(pods, selected, names[i]))
  }

  // Hooks run only while no Job is on record.
  ghost function HooksOf(cfg: Config, rs: Status, env: Env, p: Prepared): HookRun
    requires p.Goes?
  {
    if rs.jobs == [] then RunHooks(cfg, env, HookOrder(p.claims, p.pods)) else HookRun([], None)
  }

  function HookEffects(ran: seq<string>): seq<Effect> {
    seq(|ran|, i requires 0 <= i < |ran| => HookRan(ran[i]))
  }

  // ---- launching -----------------------------------------------------------------------------------------

  predicate KnownJob(rs: Status, name: string) {
    exists e | e in rs.jobs :: e.job == name
  }

  function NewJob(cfg: Config, l: Launch, staging: string): Job {
    Job(BackupPod(l.node, l.pvcs, staging, cfg.notes), false, false)
  }

  datatype One = OneFails | OneVanished | OneFound(job: Job) | OneCreated

  // A live Job is taken as it is; a recorded one that vanished is not created again; a lost create race re-reads.
  function LaunchOne(c: Cluster, rs: Status, env: Env, name: string): One {
    if name in env.getFails then OneFails
    else if name in Look(env.jobs, c.jobs) then OneFound(Look(env.jobs, c.jobs)[name])
    else if KnownJob(rs, name) then OneVanished
    else if name in env.createFails then OneFails
    else if name !in c.jobs then OneCreated
    else if name in env.againFails || name !in Look(env.again, c.jobs) then OneFails
    else OneFound(Look(env.again, c.jobs)[name])
  }

  function AfterOne(cfg: Config, c: Cluster, rs: Status, env: Env, l: Launch): Cluster {
    if LaunchOne(c, rs, env, l.name).OneCreated?
    then c.(jobs := c.jobs[l.name := NewJob(cfg, l, StagingFor(cfg, env))], log := c.log + [JobCreated(l.name)])
    else c
  }

  datatype PlacedJob = PlacedJob(node: string, name: string, job: Job)
  datatype Launched = LaunchFails | Vanished(job: string, node: string) | AllPlaced(placed: seq<PlacedJob>)

  // The cluster once the first launches have run; a launch that does not place its Job is the last.
  function Launching(cfg: Config, c: Cluster, rs: Status, env: Env, ls: seq<Launch>): Cluster {
    if ls == [] then c
    else
      var front := ls[..|ls| - 1];
      var before := Launching(cfg, c, rs, env, front);
      if LaunchAll(cfg, c, rs, env, front).AllPlaced? then AfterOne(cfg, before, rs, env, ls[|ls| - 1]) else before
  }

  function LaunchAll(cfg: Config, c: Cluster, rs: Status, env: Env, ls: seq<Launch>): (r: Launched)
    ensures r.AllPlaced? ==> |r.placed| == |ls|
  {
    if ls == [] then AllPlaced([])
    else
      var front := LaunchAll(cfg, c, rs, env, ls[..|ls| - 1]);
      if !front.AllPlaced? then front
      else
        var l := ls[|ls| - 1];
        match LaunchOne(Launching(cfg, c, rs, env, ls[..|ls| - 1]), rs, env, l.name)
        case OneFails => LaunchFails
        case OneVanished => Vanished(l.name, l.node)
        case OneFound(job) => AllPlaced(front.placed + [PlacedJob(l.node, l.name, job)])
        case OneCreated => AllPlaced(front.placed + [PlacedJob(l.node, l.name, NewJob(cfg, l, StagingFor(cfg, env)))])
  }

  // ---- from Job states to an outcome --------------------------------------------------------------

  function JobState(j: Job): EntryState {
    if j.failed then FailedState else if j.complete then Complete else Active
  }

  function Entries(placed: seq<PlacedJob>): seq<JobEntry> {
    seq(|placed|, i requires 0 <= i < |placed| => JobEntry(placed[i].node, placed[i].name, JobState(placed[i].job)))
  }

  // The first Failed Job in node order.
  function FirstFailed(placed: seq<PlacedJob>): Option<PlacedJob> {
    if placed == [] then None
    else if placed[0].job.failed then Some(placed[0])
    else FirstFailed(placed[1..])
  }

  predicate AllComplete(placed: seq<PlacedJob>) {
    forall p | p in placed :: p.job.failed || p.job.complete
  }

  // The first nonempty termination message, the last state standing in for a current one that has none.
  function MessageIn(containers: seq<ContainerLog>): string {
    if containers == [] then ""
    else if containers[0].terminated != "" then containers[0].terminated
    else if containers[0].last != "" then containers[0].last
    else MessageIn(containers[1..])
  }

  function MessageOf(pods: seq<seq<ContainerLog>>): string {
    if pods == [] then ""
    else if MessageIn(pods[0]) != "" then MessageIn(pods[0])
    else MessageOf(pods[1..])
  }

  datatype JobResult = ResultFails | NoResult(message: Message) | Reported(report: Report)

  function ResultFor(cfg: Config, env: Env, name: string): JobResult {
    match env.logs(name)
    case LogsFail => ResultFails
    case Logs(pods) =>
      var text := MessageOf(pods);
      if text == "" then NoResult(NoLog(name))
      else
        var report := cfg.unmarshal(text);
        if report.None? || report.value.ref == "" then NoResult(UnreadableLog(name, text)) else Reported(report.value)
  }

  datatype Collection = CollectFails | Unreadable(message: Message) | Collected(reports: seq<Report>)

  function Collect(cfg: Config, env: Env, placed: seq<PlacedJob>): (r: Collection)
    ensures r.Collected? ==> |r.reports| == |placed|
  {
    if placed == [] then Collected([])
    else
      var front := Collect(cfg, env, placed[..|placed| - 1]);
      if !front.Collected? then front
      else match ResultFor(cfg, env, placed[|placed| - 1].name)
        case ResultFails => CollectFails
        case NoResult(message) => Unreadable(message)
        case Reported(report) => Collected(front.reports + [report])
  }

  function Bytes(reports: seq<Report>): seq<int> {
    seq(|reports|, i requires 0 <= i < |reports| => reports[i].bytes)
  }

  function OkEntries(placed: seq<PlacedJob>, reports: seq<Report>): seq<JobEntry>
    requires |placed| == |reports|
  {
    seq(|placed|, i requires 0 <= i < |placed| => JobEntry(placed[i].node, placed[i].name, Ok(reports[i].ref)))
  }

  // The ref of the only Job; empty when there are several.
  function SingleRef(reports: seq<Report>): string {
    if |reports| == 1 then reports[0].ref else ""
  }

  function Classify(cfg: Config, env: Env, placed: seq<PlacedJob>): Outcome {
    if FirstFailed(placed).Some? then
      Fails(JobsFailed, FailedMessage(FirstFailed(placed).value.name, FirstFailed(placed).value.node), Entries(placed))
    else if !AllComplete(placed) then RunsOn(Entries(placed))
    else match Collect(cfg, env, placed)
      case CollectFails => ApiFails
      case Unreadable(message) => Fails(ResultUnreadable, message, Entries(placed))
      case Collected(reports) => Completes(OkEntries(placed, reports), RunningTotal(Bytes(reports)), SingleRef(reports))
  }

  function LaunchOutcome(cfg: Config, env: Env, l: Launched): Outcome {
    match l
    case LaunchFails => ApiFails
    case Vanished(job, node) => Holds(JobDeleted, DeletedMessage(job, node), WAIT)
    case AllPlaced(placed) => Classify(cfg, env, placed)
  }

  // ---- recording -------------------------------------------------------------------------------------------

  function HoldPhase(p: Phase): Phase {
    if p == Running then Running else Scheduled
  }

  function OutcomeReason(out: Outcome): Reason {
    match out
    case Holds(reason, _, _) => reason
    case Fails(reason, _, _) => reason
    case RunsOn(_) => JobsRunning
    case _ => JobsCompleted
  }

  function OutcomeMessage(out: Outcome): Message {
    match out
    case Holds(_, message, _) => message
    case Fails(_, message, _) => message
    case Completes(entries, _, ref) => if |entries| == 1 then SnapshotMessage(ref) else CompletedMessage(|entries|)
    case _ => RunningMessage
  }

  function OutcomeCondition(cfg: Config, rs: Status, out: Outcome, now: int): Ready {
    SetCondition(rs.ready, out.Completes?, OutcomeReason(out), OutcomeMessage(out), cfg.generation, now)
  }

  // The status the reconcile wants to persist.
  function Recorded(cfg: Config, rs: Status, out: Outcome, now: int): Status
    requires !out.Ignored? && !out.ApiFails?
  {
    var stamped := rs.(ready := Some(OutcomeCondition(cfg, rs, out, now)));
    match out
    case Holds(_, _, _) => stamped.(phase := HoldPhase(rs.phase))
    case RunsOn(entries) => stamped.(phase := Running, startedAt := OrNow(rs.startedAt, now), jobs := entries)
    case Fails(_, _, entries) => stamped.(phase := Failed, completedAt := OrNow(rs.completedAt, now), jobs := entries)
    case Completes(entries, bytes, ref) =>
      stamped.(phase := Completed, completedAt := OrNow(rs.completedAt, now), jobs := entries, bytes := bytes,
               snapshotRef := if |entries| == 1 then ref else rs.snapshotRef)
  }

  function MergeStatus(server: Status, before: Status, after: Status): Status {
    Status(Merge(server.phase, before.phase, after.phase),
           Merge(server.ready, before.ready, after.ready),
           Merge(server.startedAt, before.startedAt, after.startedAt),
           Merge(server.completedAt, before.completedAt, after.completedAt),
           Merge(server.jobs, before.jobs, after.jobs),
           Merge(server.bytes, before.bytes, after.bytes),
           Merge(server.snapshotRef, before.snapshotRef, after.snapshotRef))
  }

  // Unix seconds of a time in nanoseconds.
  function Unix(t: int): int { t / 1_000_000_000 }

  // The success gauges are set by a completion, the error counter counts a failure.
  function Observed(m: Metrics, out: Outcome, after: Status): Metrics {
    if out.Fails? then m.(errors := m.errors + 1)
    else if out.Completes? && after.completedAt.Some? then
      m.(lastSuccess := Some(Unix(after.completedAt.value)),
         duration := if after.startedAt.Some? then Some(after.completedAt.value - after.startedAt.value) else m.duration)
    else m
  }

  function Emitted(cfg: Config, rs: Status, out: Outcome, now: int): seq<Effect> {
    if !Transitioned(rs.ready, OutcomeCondition(cfg, rs, out, now)) then []
    else [Event(out.Holds? || out.Fails?, OutcomeReason(out), OutcomeMessage(out))]
  }

  function ResultOf(out: Outcome): Result {
    match out
    case Holds(_, _, wait) => Requeue(wait)
    case RunsOn(_) => Requeue(WAIT)
    case ApiFails => Errored
    case _ => Finished
  }

  // The write failed.
  predicate Lost(cfg: Config, rs: Status, out: Outcome, env: Env) {
    !out.Ignored? && !out.ApiFails? && Recorded(cfg, rs, out, env.now) != rs && env.patchFails
  }

  function Record(cfg: Config, c: Cluster, rs: Status, out: Outcome, env: Env): Cluster {
    if out.Ignored? || out.ApiFails? || Lost(cfg, rs, out, env) then c
    else
      var after := Recorded(cfg, rs, out, env.now);
      c.(status := if after == rs then c.status else MergeStatus(c.status, rs, after),
         metrics := Observed(c.metrics, out, after),
         log := c.log + (if after == rs then [] else [StatusPatched]) + Emitted(cfg, rs, out, env.now))
  }

  // ---- the reconcile -----------------------------------------------------------------------------------

  // The outcome once preparing is over.
  ghost function Proceed(cfg: Config, c: Cluster, rs: Status, env: Env, p: Prepared): Outcome {
    if p.Stops? then p.out
    else
      var hooks := HooksOf(cfg, rs, env, p);
      if hooks.problem.Some? then Fails(hooks.problem.value.reason, hooks.problem.value.message, [])
      else LaunchOutcome(cfg, env, LaunchAll(cfg, c, rs, env, p.launches))
  }

  // What hooks and launches do to the cluster.
  ghost function Proceeding(cfg: Config, c: Cluster, rs: Status, env: Env, p: Prepared): Cluster {
    if p.Stops? then c
    else
      var hooks := HooksOf(cfg, rs, env, p);
      var hooked := c.(log := c.log + HookEffects(hooks.ran));
      if hooks.problem.Some? then hooked else Launching(cfg, hooked, rs, env, p.launches)
  }

  ghost function Decide(cfg: Config, c: Cluster, rs: Status, env: Env): Outcome {
    Proceed(cfg, c, rs, env, Prepare(cfg, c, rs, env))
  }

  // The cluster once everything but the status has been written.
  ghost function Acted(cfg: Config, c: Cluster, rs: Status, env: Env): Cluster {
    Proceeding(cfg, Preparing(cfg, c, rs, env), rs, env, Prepare(cfg, c, rs, env))
  }

  // One reconcile that read `rs` as the object's status.
  ghost function Reconcile(cfg: Config, c: Cluster, rs: Status, env: Env): Cluster {
    Record(cfg, Acted(cfg, c, rs, env), rs, Decide(cfg, c, rs, env), env)
  }

  ghost function ReconcileResult(cfg: Config, c: Cluster, rs: Status, env: Env): Result {
    var out := Decide(cfg, c, rs, env);
    if Lost(cfg, rs, out, env) then Errored else ResultOf(out)
  }
}
