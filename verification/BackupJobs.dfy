/** BackupJobs: what a backup reconcile makes of its Jobs, told from the Jobs it sees and the record: which it creates, when
    it waits for one that vanished, and what failed, running and finished Jobs lead to. */
module BackupJobs {
  import opened Wrappers
  import opened Reads
  import opened CommandLines
  import opened Int64
  import opened BackupSpec
  import opened BackupHooks
  import opened BackupCoverage
  import opened BackupHookPods
  import opened BackupOutcomes

  // ---- one launch -----------------------------------------------------------------------------------------------

  ghost predicate OnRecord(rs: Status, name: string) {
    exists i :: 0 <= i < |rs.jobs| && rs.jobs[i].job == name
  }

  // Never seen and never recorded; a create is due.
  ghost predicate CreateDue(c: Cluster, rs: Status, env: Env, name: string) {
    name !in env.getFails && name !in Look(env.jobs, c.jobs) && !OnRecord(rs, name)
  }

  // Seen, or found by reading again after losing a create race.
  ghost predicate Takes(c: Cluster, rs: Status, env: Env, name: string, job: Job) {
    || (name !in env.getFails && name in Look(env.jobs, c.jobs) && job == Look(env.jobs, c.jobs)[name])
    || (CreateDue(c, rs, env, name) && name !in env.createFails && name in c.jobs
        && name !in env.againFails && name in Look(env.again, c.jobs) && job == Look(env.again, c.jobs)[name])
  }

  ghost predicate Makes(c: Cluster, rs: Status, env: Env, name: string) {
    CreateDue(c, rs, env, name) && name !in env.createFails && name !in c.jobs
  }

  ghost predicate Misses(c: Cluster, rs: Status, env: Env, name: string) {
    name !in env.getFails && name !in Look(env.jobs, c.jobs) && OnRecord(rs, name)
  }

  // The Job a launch is built as: pinned to its node, commanded its claims, neither failed nor complete.
  function Built(cfg: Config, env: Env, l: Launch): Job {
    Job(BackupPod(l.node, l.pvcs, StagingFor(cfg, env), cfg.notes), false, false)
  }

  ghost predicate PlacesAs(cfg: Config, c: Cluster, rs: Status, env: Env, l: Launch, p: PlacedJob) {
    && p.node == l.node && p.name == l.name
    && (Takes(c, rs, env, l.name, p.job) || (Makes(c, rs, env, l.name) && p.job == Built(cfg, env, l)))
  }

  ghost predicate Places(c: Cluster, rs: Status, env: Env, name: string) {
    Makes(c, rs, env, name) || exists job :: Takes(c, rs, env, name, job)
  }

  lemma LaunchOneIs(cfg: Config, c: Cluster, d: Cluster, rs: Status, env: Env, l: Launch)
    requires (l.name in d.jobs <==> l.name in c.jobs) && (l.name in c.jobs ==> d.jobs[l.name] == c.jobs[l.name])
    ensures match LaunchOne(d, rs, env, l.name)
            case OneFound(job) => Takes(c, rs, env, l.name, job) && !Makes(c, rs, env, l.name)
            case OneCreated => Makes(c, rs, env, l.name)
            case OneVanished => Misses(c, rs, env, l.name) && !Places(c, rs, env, l.name)
            case OneFails => !Places(c, rs, env, l.name) && !Misses(c, rs, env, l.name)
  {
    assert KnownJob(rs, l.name) <==> OnRecord(rs, l.name);
  }

  // ---- all launches ---------------------------------------------------------------------------------------------

  ghost predicate AllPlacedAs(cfg: Config, c: Cluster, rs: Status, env: Env, ls: seq<Launch>, placed: seq<PlacedJob>) {
    |placed| == |ls| && forall i | 0 <= i < |ls| :: PlacesAs(cfg, c, rs, env, ls[i], placed[i])
  }

  // The first launch that places no Job.
  ghost predicate FirstStuck(c: Cluster, rs: Status, env: Env, ls: seq<Launch>, i: nat) {
    i < |ls| && !Places(c, rs, env, ls[i].name) && forall j | 0 <= j < i :: Places(c, rs, env, ls[j].name)
  }

  // What launching answers, launch by launch.
  ghost predicate LaunchesAs(cfg: Config, c: Cluster, rs: Status, env: Env, ls: seq<Launch>, r: Launched) {
    match r
    case AllPlaced(placed) => AllPlacedAs(cfg, c, rs, env, ls, placed)
    case Vanished(job, node) =>
      exists i: nat :: FirstStuck(c, rs, env, ls, i) && Misses(c, rs, env, ls[i].name) && job == ls[i].name && node == ls[i].node
    case LaunchFails => exists i: nat :: FirstStuck(c, rs, env, ls, i) && !Misses(c, rs, env, ls[i].name)
  }

  lemma StuckLater(c: Cluster, rs: Status, env: Env, ls: seq<Launch>, i: nat)
    requires ls != [] && FirstStuck(c, rs, env, ls[..|ls| - 1], i)
    ensures FirstStuck(c, rs, env, ls, i) && ls[..|ls| - 1][i] == ls[i]
  {
    assert forall j | 0 <= j < |ls| - 1 :: ls[..|ls| - 1][j] == ls[j];
  }

  lemma PlacedPlaces(cfg: Config, c: Cluster, rs: Status, env: Env, ls: seq<Launch>, placed: seq<PlacedJob>)
    requires AllPlacedAs(cfg, c, rs, env, ls, placed)
    ensures forall l | l in ls :: Places(c, rs, env, l.name)
  {
    forall l | l in ls ensures Places(c, rs, env, l.name) {
      var i :| 0 <= i < |ls| && ls[i] == l;
      assert PlacesAs(cfg, c, rs, env, ls[i], placed[i]);
    }
  }

  lemma {:induction false} LaunchesExactly(cfg: Config, c: Cluster, rs: Status, env: Env, ls: seq<Launch>)
    requires DistinctNames(ls)
    ensures LaunchesAs(cfg, c, rs, env, ls, LaunchAll(cfg, c, rs, env, ls))
  {
    if ls != [] {
      var n := |ls| - 1;
      var front := LaunchAll(cfg, c, rs, env, ls[..n]);
      LaunchesExactly(cfg, c, rs, env, ls[..n]);
      match front {
        case AllPlaced(placed) => LastLaunch(cfg, c, rs, env, ls, placed);
        case Vanished(_, _) =>
          var i: nat :| FirstStuck(c, rs, env, ls[..n], i) && Misses(c, rs, env, ls[..n][i].name)
                        && front.job == ls[..n][i].name && front.node == ls[..n][i].node;
          StuckLater(c, rs, env, ls, i);
        case LaunchFails =>
          var i: nat :| FirstStuck(c, rs, env, ls[..n], i) && !Misses(c, rs, env, ls[..n][i].name);
          StuckLater(c, rs, env, ls, i);
      }
    }
  }

  lemma LastPlaced(cfg: Config, c: Cluster, rs: Status, env: Env, ls: seq<Launch>, placed: seq<PlacedJob>, p: PlacedJob)
    requires ls != [] && AllPlacedAs(cfg, c, rs, env, ls[..|ls| - 1], placed) && PlacesAs(cfg, c, rs, env, ls[|ls| - 1], p)
    ensures AllPlacedAs(cfg, c, rs, env, ls, placed + [p])
  {
    var n, all := |ls| - 1, placed + [p];
    forall i | 0 <= i < |ls| ensures PlacesAs(cfg, c, rs, env, ls[i], all[i]) {
      if i < n { assert ls[..n][i] == ls[i] && all[i] == placed[i]; } else { assert all[i] == p; }
    }
  }

  lemma LastStuck(cfg: Config, c: Cluster, rs: Status, env: Env, ls: seq<Launch>, placed: seq<PlacedJob>)
    requires ls != [] && AllPlacedAs(cfg, c, rs, env, ls[..|ls| - 1], placed) && !Places(c, rs, env, ls[|ls| - 1].name)
    ensures FirstStuck(c, rs, env, ls, |ls| - 1)
  {
    PlacedPlaces(cfg, c, rs, env, ls[..|ls| - 1], placed);
    assert forall j | 0 <= j < |ls| - 1 :: ls[j] == ls[..|ls| - 1][j] && ls[j] in ls[..|ls| - 1];
  }

  lemma LastLaunch(cfg: Config, c: Cluster, rs: Status, env: Env, ls: seq<Launch>, placed: seq<PlacedJob>)
    requires ls != [] && DistinctNames(ls)
    requires LaunchAll(cfg, c, rs, env, ls[..|ls| - 1]) == AllPlaced(placed)
    requires AllPlacedAs(cfg, c, rs, env, ls[..|ls| - 1], placed)
    ensures LaunchesAs(cfg, c, rs, env, ls, LaunchAll(cfg, c, rs, env, ls))
  {
    var n := |ls| - 1;
    var before := Launching(cfg, c, rs, env, ls[..n]);
    OthersUntouched(cfg, c, rs, env, ls[..n], ls[n].name);
    LaunchOneIs(cfg, c, before, rs, env, ls[n]);
    match LaunchOne(before, rs, env, ls[n].name) {
      case OneFound(job) => LastPlaced(cfg, c, rs, env, ls, placed, PlacedJob(ls[n].node, ls[n].name, job));
      case OneCreated => LastPlaced(cfg, c, rs, env, ls, placed, PlacedJob(ls[n].node, ls[n].name, Built(cfg, env, ls[n])));
      case _ => LastStuck(cfg, c, rs, env, ls, placed);
    }
  }

  // The launch makes its Job, and none before it is stuck.
  ghost predicate CreatedAt(c: Cluster, rs: Status, env: Env, ls: seq<Launch>, i: nat) {
    i < |ls| && Makes(c, rs, env, ls[i].name) && forall j | 0 <= j < i :: Places(c, rs, env, ls[j].name)
  }

  lemma LastCreates(cfg: Config, c: Cluster, rs: Status, env: Env, ls: seq<Launch>)
    requires ls != [] && DistinctNames(ls)
    requires LaunchesAs(cfg, c, rs, env, ls[..|ls| - 1], LaunchAll(cfg, c, rs, env, ls[..|ls| - 1]))
    ensures LaunchAll(cfg, c, rs, env, ls[..|ls| - 1]).AllPlaced? <==>
              forall j | 0 <= j < |ls| - 1 :: Places(c, rs, env, ls[j].name)
  {
    var n := |ls| - 1;
    var front := LaunchAll(cfg, c, rs, env, ls[..n]);
    if front.AllPlaced? {
      PlacedPlaces(cfg, c, rs, env, ls[..n], front.placed);
      assert forall j | 0 <= j < n :: ls[j] == ls[..n][j] && ls[j] in ls[..n];
    } else {
      var i: nat :| FirstStuck(c, rs, env, ls[..n], i);
      assert ls[..n][i] == ls[i];
    }
  }

  lemma LastStep(cfg: Config, c: Cluster, rs: Status, env: Env, ls: seq<Launch>)
    requires ls != [] && DistinctNames(ls)
    ensures var n := |ls| - 1;
            Launching(cfg, c, rs, env, ls).jobs ==
              if CreatedAt(c, rs, env, ls, n) then Launching(cfg, c, rs, env, ls[..n]).jobs[ls[n].name := Built(cfg, env, ls[n])]
              else Launching(cfg, c, rs, env, ls[..n]).jobs
  {
    var n := |ls| - 1;
    LaunchesExactly(cfg, c, rs, env, ls[..n]);
    OthersUntouched(cfg, c, rs, env, ls[..n], ls[n].name);
    LaunchOneIs(cfg, c, Launching(cfg, c, rs, env, ls[..n]), rs, env, ls[n]);
    LastCreates(cfg, c, rs, env, ls);
  }

  lemma CreatedFront(c: Cluster, rs: Status, env: Env, ls: seq<Launch>, i: nat)
    requires ls != [] && i < |ls| - 1
    ensures CreatedAt(c, rs, env, ls[..|ls| - 1], i) <==> CreatedAt(c, rs, env, ls, i)
  {
    assert forall j | 0 <= j <= i :: ls[..|ls| - 1][j] == ls[j];
  }

  // What launching leaves: the Jobs there were, and the ones it made.
  lemma {:induction false} LaunchingMakes(cfg: Config, c: Cluster, rs: Status, env: Env, ls: seq<Launch>, i: nat)
    requires DistinctNames(ls) && CreatedAt(c, rs, env, ls, i)
    ensures ls[i].name in Launching(cfg, c, rs, env, ls).jobs
    ensures Launching(cfg, c, rs, env, ls).jobs[ls[i].name] == Built(cfg, env, ls[i])
  {
    var n := |ls| - 1;
    if i < n {
      CreatedFront(c, rs, env, ls, i);
      LaunchingMakes(cfg, c, rs, env, ls[..n], i);
      LastKeeps(cfg, c, rs, env, ls, ls[i].name);
    } else {
      LastStep(cfg, c, rs, env, ls);
    }
  }

  lemma LastKeeps(cfg: Config, c: Cluster, rs: Status, env: Env, ls: seq<Launch>, name: string)
    requires ls != [] && DistinctNames(ls) && name != ls[|ls| - 1].name
    requires name in Launching(cfg, c, rs, env, ls[..|ls| - 1]).jobs
    ensures name in Launching(cfg, c, rs, env, ls).jobs
    ensures Launching(cfg, c, rs, env, ls).jobs[name] == Launching(cfg, c, rs, env, ls[..|ls| - 1]).jobs[name]
  {
    LastStep(cfg, c, rs, env, ls);
  }

  lemma {:induction false} LaunchingMakesOnly(cfg: Config, c: Cluster, rs: Status, env: Env, ls: seq<Launch>, name: string)
    returns (i: nat)
    requires DistinctNames(ls) && name in Launching(cfg, c, rs, env, ls).jobs && name !in c.jobs
    ensures CreatedAt(c, rs, env, ls, i) && ls[i].name == name
  {
    var n := |ls| - 1;
    LastStep(cfg, c, rs, env, ls);
    if name in Launching(cfg, c, rs, env, ls[..n]).jobs {
      i := LaunchingMakesOnly(cfg, c, rs, env, ls[..n], name);
      CreatedFront(c, rs, env, ls, i);
    } else {
      i := n;
    }
  }

  // ---- the reconcile ---------------------------------------------------------------------------------------------

  // Past the hooks: they ran before, or none that has to run is troubled.
  ghost predicate PastHooks(cfg: Config, c: Cluster, rs: Status, env: Env, ls: seq<Launch>) {
    var p := Prepare(cfg, c, rs, env);
    && p.Goes? && p.launches == ls && DistinctNames(ls)
    && (rs.jobs == [] ==> UniquePods(p.pods) && !SomeTrouble(cfg, env, p.claims, p.pods))
  }

  lemma HooksPass(cfg: Config, c: Cluster, rs: Status, env: Env, ls: seq<Launch>)
    requires PastHooks(cfg, c, rs, env, ls)
    ensures HooksOf(cfg, rs, env, Prepare(cfg, c, rs, env)).problem.None?
  {
    var p := Prepare(cfg, c, rs, env);
    if rs.jobs == [] { HooksAre(cfg, env, p.claims, p.pods); }
  }

  lemma LaunchesDecide(cfg: Config, c: Cluster, rs: Status, env: Env, ls: seq<Launch>)
    requires PastHooks(cfg, c, rs, env, ls)
    ensures Decide(cfg, c, rs, env) == LaunchOutcome(cfg, env, LaunchAll(cfg, c, rs, env, ls))
    ensures LaunchesAs(cfg, c, rs, env, ls, LaunchAll(cfg, c, rs, env, ls))
  {
    HooksPass(cfg, c, rs, env, ls);
    LaunchesExactly(cfg, c, rs, env, ls);
  }

  lemma PlacedHas(cfg: Config, c: Cluster, rs: Status, env: Env, ls: seq<Launch>, i: nat, r: Launched)
    requires i < |ls| && LaunchesAs(cfg, c, rs, env, ls, r)
    ensures r.AllPlaced? ==> Places(c, rs, env, ls[i].name)
  {
    if r.AllPlaced? { assert PlacesAs(cfg, c, rs, env, ls[i], r.placed[i]); }
  }

  lemma OneStuck(cfg: Config, c: Cluster, rs: Status, env: Env, ls: seq<Launch>, i: nat, r: Launched)
    requires FirstStuck(c, rs, env, ls, i) && LaunchesAs(cfg, c, rs, env, ls, r)
    ensures r == if Misses(c, rs, env, ls[i].name) then Vanished(ls[i].name, ls[i].node) else LaunchFails
  {
    PlacedHas(cfg, c, rs, env, ls, i, r);
    forall k: nat | FirstStuck(c, rs, env, ls, k) ensures k == i {}
  }

  /** A recorded Job that is gone is waited for and not created again; one that cannot be had is an error. */
  lemma StuckLaunch(cfg: Config, c: Cluster, env: Env, ls: seq<Launch>, i: nat)
    requires PastHooks(cfg, c, c.status, env, ls) && FirstStuck(c, c.status, env, ls, i) && !env.patchFails
    ensures var d, r := Reconcile(cfg, c, c.status, env), ReconcileResult(cfg, c, c.status, env);
            if Misses(c, c.status, env, ls[i].name)
            then Waits(cfg, c.status, env, d, r, JobDeleted, DeletedMessage(ls[i].name, ls[i].node), 60)
            else r == Errored && d.status == c.status
  {
    LaunchesDecide(cfg, c, c.status, env, ls);
    OneStuck(cfg, c, c.status, env, ls, i, LaunchAll(cfg, c, c.status, env, ls));
    DecisionLeaves(cfg, c, env);
  }

  // One Job of a name is taken or made.
  lemma SamePlaced(cfg: Config, c: Cluster, rs: Status, env: Env, ls: seq<Launch>, a: seq<PlacedJob>, b: seq<PlacedJob>)
    requires AllPlacedAs(cfg, c, rs, env, ls, a) && AllPlacedAs(cfg, c, rs, env, ls, b)
    ensures a == b
  {
    forall i | 0 <= i < |ls| ensures a[i] == b[i] {
      assert PlacesAs(cfg, c, rs, env, ls[i], a[i]) && PlacesAs(cfg, c, rs, env, ls[i], b[i]);
    }
  }

  lemma PlacedDecide(cfg: Config, c: Cluster, rs: Status, env: Env, ls: seq<Launch>, placed: seq<PlacedJob>)
    requires PastHooks(cfg, c, rs, env, ls) && AllPlacedAs(cfg, c, rs, env, ls, placed)
    ensures Decide(cfg, c, rs, env) == Classify(cfg, env, placed)
  {
    LaunchesDecide(cfg, c, rs, env, ls);
    var r := LaunchAll(cfg, c, rs, env, ls);
    PlacedPlaces(cfg, c, rs, env, ls, placed);
    forall i: nat ensures !FirstStuck(c, rs, env, ls, i) {
      if i < |ls| { assert ls[i] in ls; }
    }
    SamePlaced(cfg, c, rs, env, ls, r.placed, placed);
  }

  // The entry of each Job shows its state.
  ghost predicate ShowsStates(placed: seq<PlacedJob>, entries: seq<JobEntry>) {
    && |entries| == |placed|
    && forall i | 0 <= i < |placed| ::
         && entries[i].node == placed[i].node && entries[i].job == placed[i].name
         && entries[i].state == if placed[i].job.failed then FailedState else if placed[i].job.complete then Complete else Active
  }

  lemma {:induction false} FirstFailedAt(placed: seq<PlacedJob>, i: nat)
    requires i < |placed| && placed[i].job.failed && forall j | 0 <= j < i :: !placed[j].job.failed
    ensures FirstFailed(placed) == Some(placed[i])
  {
    if i > 0 { FirstFailedAt(placed[1..], i - 1); }
  }

  /** A failed Job fails the backup for good, whatever the others do; the first in node order is told of. */
  lemma FailedJobFails(cfg: Config, c: Cluster, env: Env, ls: seq<Launch>, placed: seq<PlacedJob>, i: nat)
    requires PastHooks(cfg, c, c.status, env, ls) && AllPlacedAs(cfg, c, c.status, env, ls, placed) && !env.patchFails
    requires i < |placed| && placed[i].job.failed && forall j | 0 <= j < i :: !placed[j].job.failed
    ensures var d, r := Reconcile(cfg, c, c.status, env), ReconcileResult(cfg, c, c.status, env);
            exists entries :: ShowsStates(placed, entries)
              && FailsWith(cfg, c.status, env, c.metrics, d, r, JobsFailed, FailedMessage(placed[i].name, placed[i].node), entries)
  {
    PlacedDecide(cfg, c, c.status, env, ls, placed);
    FirstFailedAt(placed, i);
    FailureLeaves(cfg, c, env, JobsFailed, FailedMessage(placed[i].name, placed[i].node), Entries(placed));
    assert ShowsStates(placed, Entries(placed));
  }

  lemma NoneFailed(placed: seq<PlacedJob>)
    requires forall p | p in placed :: !p.job.failed
    ensures FirstFailed(placed).None?
  {
    FirstFailedIs(placed);
  }

  /** Jobs still at work are waited for. */
  lemma WorkingJobsGoOn(cfg: Config, c: Cluster, env: Env, ls: seq<Launch>, placed: seq<PlacedJob>)
    requires PastHooks(cfg, c, c.status, env, ls) && AllPlacedAs(cfg, c, c.status, env, ls, placed) && !env.patchFails
    requires (forall p | p in placed :: !p.job.failed) && exists p | p in placed :: !p.job.complete
    ensures var d, r := Reconcile(cfg, c, c.status, env), ReconcileResult(cfg, c, c.status, env);
            exists entries :: ShowsStates(placed, entries) && RunsOnWith(cfg, c.status, env, d, r, entries)
  {
    PlacedDecide(cfg, c, c.status, env, ls, placed);
    NoneFailed(placed);
    RunningLeaves(cfg, c, env, Entries(placed));
    assert ShowsStates(placed, Entries(placed));
  }

  // ---- the Jobs' reports -----------------------------------------------------------------------------------------

  // A container's say: its termination message, else that of its last run.
  function Says(l: ContainerLog): string {
    if l.terminated != "" then l.terminated else l.last
  }

  predicate Quiet(containers: seq<ContainerLog>) {
    forall k | 0 <= k < |containers| :: Says(containers[k]) == ""
  }

  // The first pod, and in it the first container, that says something.
  ghost predicate SaysFirst(pods: seq<seq<ContainerLog>>, i: nat, j: nat) {
    i < |pods| && FirstIn(pods[i], j) && forall p | 0 <= p < i :: Quiet(pods[p])
  }

  ghost predicate FirstIn(containers: seq<ContainerLog>, j: nat) {
    j < |containers| && Says(containers[j]) != "" && forall k | 0 <= k < j :: Says(containers[k]) == ""
  }

  lemma {:induction false} MessageInIs(containers: seq<ContainerLog>)
    ensures MessageIn(containers) == "" <==> Quiet(containers)
    ensures MessageIn(containers) != "" ==> exists j: nat :: FirstIn(containers, j) && Says(containers[j]) == MessageIn(containers)
  {
    if containers != [] {
      MessageInIs(containers[1..]);
      assert forall k | 0 < k < |containers| :: containers[k] == containers[1..][k - 1];
      if Says(containers[0]) != "" {
        assert FirstIn(containers, 0);
      } else if MessageIn(containers[1..]) != "" {
        var j: nat :| FirstIn(containers[1..], j) && Says(containers[1..][j]) == MessageIn(containers[1..]);
        assert FirstIn(containers, j + 1);
      }
    }
  }

  /** What a Job reports is the first thing any container of its pods says, in order. */
  lemma {:induction false} MessageExactly(pods: seq<seq<ContainerLog>>)
    ensures MessageOf(pods) == "" <==> forall i | 0 <= i < |pods| :: Quiet(pods[i])
    ensures MessageOf(pods) != "" ==> exists i: nat, j: nat :: SaysFirst(pods, i, j) && MessageOf(pods) == Says(pods[i][j])
  {
    if pods != [] {
      MessageInIs(pods[0]);
      MessageExactly(pods[1..]);
      assert forall i | 0 < i < |pods| :: pods[i] == pods[1..][i - 1];
      if MessageIn(pods[0]) != "" {
        var j: nat :| FirstIn(pods[0], j) && Says(pods[0][j]) == MessageIn(pods[0]);
        assert SaysFirst(pods, 0, j);
      } else if MessageOf(pods[1..]) != "" {
        var i: nat, j: nat :| SaysFirst(pods[1..], i, j) && MessageOf(pods[1..]) == Says(pods[1..][i][j]);
        assert SaysFirst(pods, i + 1, j);
      }
    }
  }

  // The Job's logs were read and say a report with a ref.
  ghost predicate Reports(cfg: Config, env: Env, name: string, report: Report) {
    && env.logs(name).Logs? && MessageOf(env.logs(name).pods) != ""
    && cfg.unmarshal(MessageOf(env.logs(name).pods)) == Some(report) && report.ref != ""
  }

  // Why a Job has no report; None is an API error.
  function WhyNone(cfg: Config, env: Env, name: string): Option<Message> {
    match env.logs(name)
    case LogsFail => None
    case Logs(pods) => if MessageOf(pods) == "" then Some(NoLog(name)) else Some(UnreadableLog(name, MessageOf(pods)))
  }

  ghost predicate HasReport(cfg: Config, env: Env, name: string) {
    exists report :: Reports(cfg, env, name, report)
  }

  ghost predicate FirstSilent(cfg: Config, env: Env, placed: seq<PlacedJob>, i: nat) {
    i < |placed| && !HasReport(cfg, env, placed[i].name) && forall j | 0 <= j < i :: HasReport(cfg, env, placed[j].name)
  }

  // What collecting answers, Job by Job.
  ghost predicate CollectsAs(cfg: Config, env: Env, placed: seq<PlacedJob>, r: Collection) {
    match r
    case Collected(reports) =>
      |reports| == |placed| && forall i | 0 <= i < |placed| :: Reports(cfg, env, placed[i].name, reports[i])
    case Unreadable(m) => exists i: nat :: FirstSilent(cfg, env, placed, i) && WhyNone(cfg, env, placed[i].name) == Some(m)
    case CollectFails => exists i: nat :: FirstSilent(cfg, env, placed, i) && WhyNone(cfg, env, placed[i].name).None?
  }

  lemma ResultIs(cfg: Config, env: Env, name: string)
    ensures match ResultFor(cfg, env, name)
            case ResultFails => !HasReport(cfg, env, name) && WhyNone(cfg, env, name).None?
            case NoResult(m) => !HasReport(cfg, env, name) && WhyNone(cfg, env, name) == Some(m)
            case Reported(report) => Reports(cfg, env, name, report)
  {
  }

  lemma {:induction false} CollectsExactly(cfg: Config, env: Env, placed: seq<PlacedJob>)
    ensures CollectsAs(cfg, env, placed, Collect(cfg, env, placed))
  {
    if placed != [] {
      var n := |placed| - 1;
      CollectsExactly(cfg, env, placed[..n]);
      ResultIs(cfg, env, placed[n].name);
      assert forall j | 0 <= j < n :: placed[..n][j] == placed[j];
      var front := Collect(cfg, env, placed[..n]);
      match front {
        case Collected(reports) =>
          forall j | 0 <= j < n ensures HasReport(cfg, env, placed[j].name) {
            assert Reports(cfg, env, placed[..n][j].name, reports[j]);
          }
          assert !HasReport(cfg, env, placed[n].name) ==> FirstSilent(cfg, env, placed, n);
        case Unreadable(m) =>
          var i: nat :| FirstSilent(cfg, env, placed[..n], i) && WhyNone(cfg, env, placed[..n][i].name) == Some(m);
          assert FirstSilent(cfg, env, placed, i);
        case CollectFails =>
          var i: nat :| FirstSilent(cfg, env, placed[..n], i) && WhyNone(cfg, env, placed[..n][i].name).None?;
          assert FirstSilent(cfg, env, placed, i);
      }
    }
  }

  predicate AllFinished(placed: seq<PlacedJob>) {
    forall p | p in placed :: p.job.complete && !p.job.failed
  }

  lemma FinishedDecide(cfg: Config, c: Cluster, rs: Status, env: Env, ls: seq<Launch>, placed: seq<PlacedJob>)
    requires PastHooks(cfg, c, rs, env, ls) && AllPlacedAs(cfg, c, rs, env, ls, placed) && AllFinished(placed)
    ensures var all := Collect(cfg, env, placed);
            Decide(cfg, c, rs, env) ==
              if all.CollectFails? then ApiFails
              else if all.Unreadable? then Fails(ResultUnreadable, all.message, Entries(placed))
              else Completes(OkEntries(placed, all.reports), RunningTotal(Bytes(all.reports)), SingleRef(all.reports))
  {
    PlacedDecide(cfg, c, rs, env, ls, placed);
    NoneFailed(placed);
  }

  // The entry of each Job carries its ref.
  ghost predicate ShowsRefs(placed: seq<PlacedJob>, reports: seq<Report>, entries: seq<JobEntry>)
    requires |reports| == |placed|
  {
    && |entries| == |placed|
    && forall i | 0 <= i < |placed| :: entries[i] == JobEntry(placed[i].node, placed[i].name, Ok(reports[i].ref))
  }

  /** A finished Job without a readable report fails the backup, the first one deciding; logs that cannot be read are an
      error. */
  lemma SilentJobFails(cfg: Config, c: Cluster, env: Env, ls: seq<Launch>, placed: seq<PlacedJob>, i: nat)
    requires PastHooks(cfg, c, c.status, env, ls) && AllPlacedAs(cfg, c, c.status, env, ls, placed) && AllFinished(placed)
    requires !env.patchFails && FirstSilent(cfg, env, placed, i)
    ensures var d, r := Reconcile(cfg, c, c.status, env), ReconcileResult(cfg, c, c.status, env);
            var why := WhyNone(cfg, env, placed[i].name);
            if why.None? then r == Errored && d.status == c.status
            else exists entries :: ShowsStates(placed, entries)
                   && FailsWith(cfg, c.status, env, c.metrics, d, r, ResultUnreadable, why.value, entries)
  {
    FinishedDecide(cfg, c, c.status, env, ls, placed);
    CollectsExactly(cfg, env, placed);
    OneSilent(cfg, env, placed, i, Collect(cfg, env, placed));
    var why := WhyNone(cfg, env, placed[i].name);
    if why.None? { ErrorLeaves(cfg, c, env); } else { FailureLeaves(cfg, c, env, ResultUnreadable, why.value, Entries(placed)); }
    assert ShowsStates(placed, Entries(placed));
  }

  // Each Job's report.
  ghost predicate AllReport(cfg: Config, env: Env, placed: seq<PlacedJob>, reports: seq<Report>) {
    |reports| == |placed| && forall i | 0 <= i < |placed| :: Reports(cfg, env, placed[i].name, reports[i])
  }

  /** Finished Jobs that all report complete the backup, with their refs, their total as an int64, and the ref of an only
      Job. */
  lemma FinishedJobsComplete(cfg: Config, c: Cluster, env: Env, ls: seq<Launch>, placed: seq<PlacedJob>, reports: seq<Report>)
    requires PastHooks(cfg, c, c.status, env, ls) && AllPlacedAs(cfg, c, c.status, env, ls, placed) && AllFinished(placed)
    requires !env.patchFails && AllReport(cfg, env, placed, reports)
    ensures var d, r := Reconcile(cfg, c, c.status, env), ReconcileResult(cfg, c, c.status, env);
            exists entries :: ShowsRefs(placed, reports, entries)
              && CompletesWith(cfg, c.status, env, c.metrics, d, r, entries, Wrap64(Plain(Bytes(reports))),
                               if |reports| == 1 then reports[0].ref else "")
  {
    FinishedDecide(cfg, c, c.status, env, ls, placed);
    CollectsExactly(cfg, env, placed);
    SameReports(cfg, env, placed, reports, Collect(cfg, env, placed));
    WrapsOnce(Bytes(reports));
    CompletionLeaves(cfg, c, env, OkEntries(placed, reports), Wrap64(Plain(Bytes(reports))), SingleRef(reports));
    assert ShowsRefs(placed, reports, OkEntries(placed, reports));
  }

  lemma CollectedHas(cfg: Config, env: Env, placed: seq<PlacedJob>, i: nat, r: Collection)
    requires i < |placed| && CollectsAs(cfg, env, placed, r)
    ensures r.Collected? ==> HasReport(cfg, env, placed[i].name)
  {
    if r.Collected? { assert Reports(cfg, env, placed[i].name, r.reports[i]); }
  }

  lemma OneSilent(cfg: Config, env: Env, placed: seq<PlacedJob>, i: nat, r: Collection)
    requires FirstSilent(cfg, env, placed, i) && CollectsAs(cfg, env, placed, r)
    ensures r == if WhyNone(cfg, env, placed[i].name).None? then CollectFails else Unreadable(WhyNone(cfg, env, placed[i].name).value)
  {
    CollectedHas(cfg, env, placed, i, r);
    forall k: nat | FirstSilent(cfg, env, placed, k) ensures k == i {}
  }

  lemma SameReports(cfg: Config, env: Env, placed: seq<PlacedJob>, reports: seq<Report>, r: Collection)
    requires AllReport(cfg, env, placed, reports) && CollectsAs(cfg, env, placed, r)
    ensures r == Collected(reports)
  {
    forall k: nat ensures !FirstSilent(cfg, env, placed, k) {
      if k < |placed| { assert Reports(cfg, env, placed[k].name, reports[k]); }
    }
    assert r.Collected?;
    forall i | 0 <= i < |placed| ensures r.reports[i] == reports[i] {
      assert Reports(cfg, env, placed[i].name, reports[i]) && Reports(cfg, env, placed[i].name, r.reports[i]);
    }
  }

  // ---- what appears -----------------------------------------------------------------------------------------------

  lemma ActedLaunches(cfg: Config, c: Cluster, rs: Status, env: Env, ls: seq<Launch>) returns (d: Cluster)
    requires PastHooks(cfg, c, rs, env, ls)
    ensures d.jobs == c.jobs && Acted(cfg, c, rs, env) == Launching(cfg, d, rs, env, ls)
  {
    HooksPass(cfg, c, rs, env, ls);
    PreparingKeeps(cfg, c, rs, env);
    var p, q := Prepare(cfg, c, rs, env), Preparing(cfg, c, rs, env);
    d := q.(log := q.log + HookEffects(HooksOf(cfg, rs, env, p).ran));
  }

  lemma CreatedAnywhere(c: Cluster, d: Cluster, rs: Status, env: Env, ls: seq<Launch>, i: nat)
    requires d.jobs == c.jobs
    ensures CreatedAt(d, rs, env, ls, i) <==> CreatedAt(c, rs, env, ls, i)
  {
    forall name ensures Makes(d, rs, env, name) <==> Makes(c, rs, env, name) {}
    forall name, job ensures Takes(d, rs, env, name, job) <==> Takes(c, rs, env, name, job) {}
    forall name ensures Places(d, rs, env, name) <==> Places(c, rs, env, name) {
      if job :| Takes(d, rs, env, name, job) { assert Takes(c, rs, env, name, job); }
      if job :| Takes(c, rs, env, name, job) { assert Takes(d, rs, env, name, job); }
    }
  }

  /** Past the hooks a Job appears if and only if its launch makes it and none before is stuck, built as its launch asks. */
  lemma JobsAppearExactly(cfg: Config, c: Cluster, rs: Status, env: Env, ls: seq<Launch>, name: string)
    requires PastHooks(cfg, c, rs, env, ls) && name !in c.jobs
    ensures name in Reconcile(cfg, c, rs, env).jobs <==> exists i: nat :: CreatedAt(c, rs, env, ls, i) && ls[i].name == name
    ensures forall i: nat | CreatedAt(c, rs, env, ls, i) && ls[i].name == name ::
              name in Reconcile(cfg, c, rs, env).jobs && Reconcile(cfg, c, rs, env).jobs[name] == Built(cfg, env, ls[i])
  {
    var d := ActedLaunches(cfg, c, rs, env, ls);
    BackupOutcomes.RecordKeepsJobs(cfg, Acted(cfg, c, rs, env), rs, Decide(cfg, c, rs, env), env);
    if name in Launching(cfg, d, rs, env, ls).jobs {
      var i := LaunchingMakesOnly(cfg, d, rs, env, ls, name);
      CreatedAnywhere(c, d, rs, env, ls, i);
    }
    forall i: nat | CreatedAt(c, rs, env, ls, i) && ls[i].name == name
      ensures name in Launching(cfg, d, rs, env, ls).jobs && Launching(cfg, d, rs, env, ls).jobs[name] == Built(cfg, env, ls[i])
    {
      CreatedAnywhere(c, d, rs, env, ls, i);
      LaunchingMakes(cfg, d, rs, env, ls, i);
    }
  }

  /** A backup that is not over is always asked about again: after its wait, or by the queue after an error. */
  lemma NeverGivenUp(cfg: Config, c: Cluster, env: Env)
    requires c.status.phase != Completed && c.status.phase != Failed
    ensures var d, r := Reconcile(cfg, c, c.status, env), ReconcileResult(cfg, c, c.status, env);
            && (d.status.phase != Completed && d.status.phase != Failed ==> r != Finished)
            && (env.patchFails ==> d.status == c.status)
  {
    ActedKeepsStatus(cfg, c, c.status, env);
    NotIgnored(cfg, c, c.status, env);
    KeepsAsking(cfg, Acted(cfg, c, c.status, env), Decide(cfg, c, c.status, env), env);
  }

  lemma NotIgnored(cfg: Config, c: Cluster, rs: Status, env: Env)
    requires !Terminal(rs.phase)
    ensures !Decide(cfg, c, rs, env).Ignored?
  {
    var p := Prepare(cfg, c, rs, env);
    if p.Goes? {
      var l := LaunchAll(cfg, c, rs, env, p.launches);
      assert !LaunchOutcome(cfg, env, l).Ignored?;
    }
  }

  lemma KeepsAsking(cfg: Config, mid: Cluster, out: Outcome, env: Env)
    requires !Terminal(mid.status.phase) && !out.Ignored?
    ensures var d := Record(cfg, mid, mid.status, out, env);
            && (!Terminal(d.status.phase) ==> Lost(cfg, mid.status, out, env) || ResultOf(out) != Finished)
            && (env.patchFails ==> d.status == mid.status)
  {
  }
}
