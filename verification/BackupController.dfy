/** BackupController: PBSBackupReconciler as it is written, step by step over mutable objects, proved to compute
    BackupSpec.Reconcile. */
module BackupController {
  import opened Wrappers
  import opened Sorting
  import opened Names
  import opened Conditions
  import opened Reads
  import opened Credentials
  import opened Int64
  import opened CommandLines
  import opened BackupSpec

  // ---- facts about the launch loop ------------------------------------------------------------------

  lemma OneSeesJobs(cfg: Config, a: Cluster, b: Cluster, rs: Status, env: Env, l: Launch)
    requires a.jobs == b.jobs
    ensures LaunchOne(a, rs, env, l.name) == LaunchOne(b, rs, env, l.name)
    ensures AfterOne(cfg, a, rs, env, l).jobs == AfterOne(cfg, b, rs, env, l).jobs
  {
  }

  // Launching looks at the Jobs only.
  lemma {:induction false} LaunchSeesJobs(cfg: Config, a: Cluster, b: Cluster, rs: Status, env: Env, ls: seq<Launch>)
    requires a.jobs == b.jobs
    ensures LaunchAll(cfg, a, rs, env, ls) == LaunchAll(cfg, b, rs, env, ls)
    ensures Launching(cfg, a, rs, env, ls).jobs == Launching(cfg, b, rs, env, ls).jobs
  {
    if ls != [] {
      var front, l := ls[..|ls| - 1], ls[|ls| - 1];
      LaunchSeesJobs(cfg, a, b, rs, env, front);
      OneSeesJobs(cfg, Launching(cfg, a, rs, env, front), Launching(cfg, b, rs, env, front), rs, env, l);
    }
  }

  lemma PreparingKeepsJobs(cfg: Config, c: Cluster, rs: Status, env: Env, p: Prepared)
    ensures Proceed(cfg, Preparing(cfg, c, rs, env), rs, env, p) == Proceed(cfg, c, rs, env, p)
  {
    if p.Goes? { LaunchSeesJobs(cfg, Preparing(cfg, c, rs, env), c, rs, env, p.launches); }
  }

  // Preparing stops by doing nothing, failing, or holding.
  lemma StopsHow(cfg: Config, c: Cluster, rs: Status, env: Env)
    ensures var p := Prepare(cfg, c, rs, env); p.Stops? ==> p.out.Ignored? || p.out.ApiFails? || p.out.Holds?
  {
  }

  lemma {:induction false} FirstFailedSnoc(placed: seq<PlacedJob>, p: PlacedJob)
    ensures FirstFailed(placed + [p]) ==
            if FirstFailed(placed).Some? then FirstFailed(placed) else if p.job.failed then Some(p) else None
  {
    if placed == [] {
      assert [p][1..] == [];
    } else {
      assert (placed + [p])[1..] == placed[1..] + [p];
      FirstFailedSnoc(placed[1..], p);
    }
  }

  // A launch that stops the loop decides it.
  lemma {:induction false} LaunchStops(cfg: Config, c: Cluster, rs: Status, env: Env, ls: seq<Launch>, i: nat)
    requires i <= |ls| && !LaunchAll(cfg, c, rs, env, ls[..i]).AllPlaced?
    ensures LaunchAll(cfg, c, rs, env, ls) == LaunchAll(cfg, c, rs, env, ls[..i])
    ensures Launching(cfg, c, rs, env, ls) == Launching(cfg, c, rs, env, ls[..i])
    decreases |ls| - i
  {
    if i < |ls| {
      assert ls[..i + 1][..i] == ls[..i];
      LaunchStops(cfg, c, rs, env, ls, i + 1);
    } else {
      assert ls[..i] == ls;
    }
  }

  lemma {:induction false} HooksStop(cfg: Config, env: Env, pods: seq<PodInfo>, i: nat)
    requires i <= |pods| && RunHooks(cfg, env, pods[..i]).problem.Some?
    ensures RunHooks(cfg, env, pods) == RunHooks(cfg, env, pods[..i])
    decreases |pods| - i
  {
    if i < |pods| {
      assert pods[..i + 1][..i] == pods[..i];
      HooksStop(cfg, env, pods, i + 1);
    } else {
      assert pods[..i] == pods;
    }
  }

  lemma PlaceStep(env: Env, claims: seq<Claim>, claim: Claim)
    requires PlaceAll(env, claims).Placed?
    ensures PlaceAll(env, claims + [claim]) ==
            if PlaceOne(env, claim).Placed? then Placed(PlaceAll(env, claims).nodes + [PlaceOne(env, claim).nodes[0]])
            else PlaceOne(env, claim)
  {
    assert (claims + [claim])[..|claims|] == claims;
  }

  lemma CollectStep(cfg: Config, env: Env, placed: seq<PlacedJob>, p: PlacedJob)
    requires Collect(cfg, env, placed).Collected?
    ensures var reports := Collect(cfg, env, placed).reports;
            Collect(cfg, env, placed + [p]) == match ResultFor(cfg, env, p.name)
              case ResultFails => CollectFails
              case NoResult(message) => Unreadable(message)
              case Reported(report) => Collected(reports + [report])
  {
    assert (placed + [p])[..|placed|] == placed;
  }

  lemma TotalStep(reports: seq<Report>, report: Report)
    ensures RunningTotal(Bytes(reports + [report])) == Wrap64(RunningTotal(Bytes(reports)) + report.bytes)
  {
    assert Bytes(reports + [report]) == Bytes(reports) + [report.bytes];
    RunningStep(Bytes(reports), report.bytes);
  }

  lemma {:induction false} PlacementStops(env: Env, claims: seq<Claim>, i: nat)
    requires i <= |claims| && !PlaceAll(env, claims[..i]).Placed?
    ensures PlaceAll(env, claims) == PlaceAll(env, claims[..i])
    decreases |claims| - i
  {
    if i < |claims| {
      assert claims[..i + 1][..i] == claims[..i];
      PlacementStops(env, claims, i + 1);
    } else {
      assert claims[..i] == claims;
    }
  }

  lemma {:induction false} PickStops(env: Env, names: seq<string>, i: nat)
    requires i <= |names| && !PickNamed(env, names[..i]).Picks?
    ensures PickNamed(env, names) == PickNamed(env, names[..i])
    decreases |names| - i
  {
    if i < |names| {
      assert names[..i + 1][..i] == names[..i];
      PickStops(env, names, i + 1);
    } else {
      assert names[..i] == names;
    }
  }

  lemma {:induction false} CollectStops(cfg: Config, env: Env, placed: seq<PlacedJob>, i: nat)
    requires i <= |placed| && !Collect(cfg, env, placed[..i]).Collected?
    ensures Collect(cfg, env, placed) == Collect(cfg, env, placed[..i])
    decreases |placed| - i
  {
    if i < |placed| {
      assert placed[..i + 1][..i] == placed[..i];
      CollectStops(cfg, env, placed, i + 1);
    } else {
      assert placed[..i] == placed;
    }
  }

  // ---- the API server --------------------------------------------------------------------------------

  class ApiServer {
    var jobs: map<string, Job>
    var secret: Option<Secret>
    var staging: Option<ConfigMap>
    var status: Status
    var metrics: Metrics
    var log: seq<Effect>

    function State(): Cluster
      reads this
    {
      Cluster(jobs, secret, staging, status, metrics, log)
    }

    method WriteSecret(s: Secret)
      modifies this
      ensures State() == old(State()).(secret := Some(s), log := old(log) + [SecretWritten])
    {
      secret := Some(s);
      log := log + [SecretWritten];
    }

    method WriteStaging(m: ConfigMap)
      modifies this
      ensures State() == old(State()).(staging := Some(m), log := old(log) + [StagingWritten])
    {
      staging := Some(m);
      log := log + [StagingWritten];
    }

    method CreateJob(name: string, job: Job)
      requires name !in jobs
      modifies this
      ensures State() == old(State()).(jobs := old(jobs)[name := job], log := old(log) + [JobCreated(name)])
    {
      jobs := jobs[name := job];
      log := log + [JobCreated(name)];
    }

    method PatchStatus(before: Status, after: Status)
      modifies this
      ensures State() == old(State()).(status := MergeStatus(old(status), before, after), log := old(log) + [StatusPatched])
    {
      status := MergeStatus(status, before, after);
      log := log + [StatusPatched];
    }

    method Log(e: Effect)
      modifies this`log
      ensures log == old(log) + [e]
    {
      log := log + [e];
    }
  }

  // The reconcile's copy of the object.
  class PBSBackup {
    var status: Status

    constructor (status: Status)
      ensures this.status == status
    {
      this.status := status;
    }
  }

  class Reconciler {
    const cfg: Config
    const api: ApiServer

    constructor (cfg: Config, api: ApiServer)
      ensures this.cfg == cfg.(jobName := (node: string) => JobName(cfg.name, node)) && this.api == api
    {
      this.cfg := cfg.(jobName := (node: string) => JobName(cfg.name, node));
      this.api := api;
    }

    // ---- preparing -----------------------------------------------------------------------------------

    method EnsureRepoSecret(env: Env) returns (r: SecretStep)
      modifies api
      ensures r == SecretOutcome(old(api.State()), env)
      ensures api.State() == EnsureSecret(old(api.State()), env)
    {
      if env.source.SourceFails? {
        return SecretFails;
      }
      if env.source.SourceAbsent? {
        return SecretProblem;
      }
      var data := ContractData(env.source.data);
      if env.secretGetFails {
        return SecretFails;
      }
      var existing := Seen(api.secret, env.secretMissed);
      if existing.Some? && ContractEqual(existing.value.data, data) && existing.value.managed {
        return SecretOk;
      }
      if env.secretWriteFails {
        return SecretFails;
      }
      if existing.None? && api.secret.Some? {
        return SecretOk; // AlreadyExists
      }
      api.WriteSecret(Secret(data, true));
      return SecretOk;
    }

    method SelectPVCs(env: Env) returns (p: Picked)
      ensures p == PickFrom(cfg, env)
    {
      if cfg.selection.Explicit? && |cfg.selection.names| > 0 {
        var names := cfg.selection.names;
        var out: seq<Claim> := [];
        for i := 0 to |names|
          invariant PickNamed(env, names[..i]) == Picks(out)
        {
          assert names[..i + 1][..i] == names[..i];
          if names[i] in env.claimFails {
            PickStops(env, names, i + 1);
            return PickFails;
          }
          if names[i] !in env.claims {
            PickStops(env, names, i + 1);
            return PickProblem(ClaimNotFound(names[i]));
          }
          out := out + [env.claims[names[i]]];
        }
        assert names[..|names|] == names;
        return Picks(out);
      }
      if cfg.selection.BadSelector? {
        return PickProblem(InvalidSelector(cfg.selection.error));
      }
      return if env.listed.ClaimsFail? then PickFails else Picks(env.listed.items);
    }

    // Serialize the namespace and keep the staging ConfigMap up to date; the name is "" when there is nothing to stage.
    method Stage(env: Env) returns (staging: string, ok: bool)
      modifies api
      ensures ok == !StagingFails(cfg, old(api.State()), env)
      ensures api.State() == EnsureStaging(cfg, old(api.State()), env)
      ensures ok ==> staging == StagingFor(cfg, env)
    {
      if !cfg.serializer {
        return "", true;
      }
      if env.serialized.SerializeFails? {
        return "", false;
      }
      var text := env.serialized.lines;
      if text == [] {
        return "", true;
      }
      if env.stagingGetFails {
        return "", false;
      }
      var name := StagingName(cfg);
      var existing := Seen(api.staging, env.stagingMissed);
      if existing.Some? && existing.value.text == text {
        return name, true;
      }
      if env.stagingWriteFails {
        return "", false;
      }
      if existing.None? && api.staging.Some? {
        return name, true; // AlreadyExists
      }
      api.WriteStaging(ConfigMap(text, if existing.Some? then existing.value.managed else true));
      return name, true;
    }

    method PlacePVC(claim: Claim, env: Env) returns (p: Placement)
      ensures p == PlaceOne(env, claim)
    {
      if claim.volume == "" {
        return PlaceProblem(ClaimUnbound(claim.name));
      }
      if claim.volume in env.volumeFails {
        return PlaceFails;
      }
      if claim.volume !in env.volumes {
        return PlaceProblem(VolumeNotFound(claim.volume, claim.name));
      }
      match env.resolve(claim) {
        case Unresolvable(error) => return PlaceProblem(NodeUnresolved(error));
        case ResolvedTo(node) => return Placed([node]);
      }
    }

    // The groups map, filled claim by claim: node to claim names.
    method GroupClaims(claims: seq<Claim>, env: Env) returns (p: Placement, groups: map<string, seq<string>>)
      ensures p == PlaceAll(env, claims)
      ensures p.Placed? ==> Groups(claims, p.nodes, groups)
    {
      groups := map[];
      var nodes: seq<string> := [];
      for i := 0 to |claims|
        invariant PlaceAll(env, claims[..i]) == Placed(nodes)
        invariant Groups(claims[..i], nodes, groups)
      {
        var one := PlacePVC(claims[i], env);
        assert claims[..i + 1] == claims[..i] + [claims[i]];
        PlaceStep(env, claims[..i], claims[i]);
        if !one.Placed? {
          PlacementStops(env, claims, i + 1);
          return one, groups;
        }
        var node := one.nodes[0];
        var sofar := if node in groups then groups[node] else [];
        GroupsGrow(claims[..i], nodes, groups, claims[i], node);
        groups := groups[node := sofar + [claims[i].name]];
        nodes := nodes + [node];
      }
      assert claims[..|claims|] == claims;
      return Placed(nodes), groups;
    }

    // ---- hooks ------------------------------------------------------------------------------------------

    method MountingNames(pods: seq<PodInfo>, selected: set<string>) returns (names: seq<string>)
      ensures names == MountingPods(pods, selected)
    {
      names := [];
      for i := 0 to |pods|
        invariant names == MountingPods(pods[..i], selected)
      {
        assert pods[..i + 1][..i] == pods[..i];
        if Mounts(pods[i], selected) {
          names := names + [pods[i].name];
        }
      }
      assert pods[..|pods|] == pods;
    }

    method RunPreHooks(claims: seq<Claim>, pods: seq<PodInfo>, env: Env) returns (problem: Option<HookProblem>)
      modifies api
      ensures problem == RunHooks(cfg, env, HookOrder(claims, pods)).problem
      ensures api.State() == old(api.State()).(log := old(api.log) + HookEffects(RunHooks(cfg, env, HookOrder(claims, pods)).ran))
    {
      var selected := set c | c in claims :: c.name;
      var names := MountingNames(pods, selected);
      names := SortStrings(names);
      ghost var order := HookOrder(claims, pods);
      ghost var ran: seq<string> := [];
      for i := 0 to |names|
        invariant RunHooks(cfg, env, order[..i]) == HookRun(ran, None)
        invariant api.State() == old(api.State()).(log := old(api.log) + HookEffects(ran))
      {
        var pod := PodNamed(pods, selected, names[i]);
        assert order[..i + 1][..i] == order[..i] && order[i] == pod;
        problem := ExecHook(pod, env, ran);
        ran := ran + RunHook(cfg, env, pod).ran;
        if problem.Some? {
          HooksStop(cfg, env, order, i + 1);
          return;
        }
      }
      assert order[..|names|] == order;
      return None;
    }

    // One pod's hook, if it has one.
    method ExecHook(pod: PodInfo, env: Env, ghost sofar: seq<string>) returns (problem: Option<HookProblem>)
      modifies api
      ensures problem == RunHook(cfg, env, pod).problem
      ensures forall start: seq<Effect> | old(api.log) == start + HookEffects(sofar) ::
                api.log == start + HookEffects(sofar + RunHook(cfg, env, pod).ran)
      ensures api.State() == old(api.State()).(log := api.log)
    {
      assert HookEffects(sofar + [pod.name]) == HookEffects(sofar) + [HookRan(pod.name)];
      assert sofar + [] == sofar;
      if pod.hook.BadHook? {
        return Some(HookProblem(HookInvalid, BadAnnotation(pod.name, pod.hook.error)));
      }
      if pod.hook.NoHook? {
        return None;
      }
      if !cfg.executor {
        return Some(HookProblem(HookFailed, NoExecutor(pod.name)));
      }
      api.Log(HookRan(pod.name));
      return if pod.name in env.execFails then Some(HookProblem(HookFailed, ExecFailed(pod.name, env.execFails[pod.name])))
        else None;
    }

    // ---- launching ------------------------------------------------------------------------------------

    // One Job per launch: take it, refuse to recreate it, or create it.
    method LaunchJobs(backup: PBSBackup, ls: seq<Launch>, staging: string, env: Env) returns (r: Launched)
      requires staging == StagingFor(cfg, env)
      modifies api
      ensures r == LaunchAll(cfg, old(api.State()), backup.status, env, ls)
      ensures api.State() == Launching(cfg, old(api.State()), backup.status, env, ls)
      ensures backup.status == old(backup.status)
    {
      var rs := backup.status;
      ghost var start := api.State();
      var placed: seq<PlacedJob> := [];
      for i := 0 to |ls|
        invariant LaunchAll(cfg, start, rs, env, ls[..i]) == AllPlaced(placed)
        invariant api.State() == Launching(cfg, start, rs, env, ls[..i])
      {
        var l := ls[i];
        ghost var before := api.State();
        assert ls[..i + 1][..i] == ls[..i];
        var one := EnsureJob(rs, l, staging, env);
        match one {
          case OneFails =>
            LaunchStops(cfg, start, rs, env, ls, i + 1);
            return LaunchFails;
          case OneVanished =>
            LaunchStops(cfg, start, rs, env, ls, i + 1);
            return Vanished(l.name, l.node);
          case OneFound(job) =>
            placed := placed + [PlacedJob(l.node, l.name, job)];
          case OneCreated =>
            placed := placed + [PlacedJob(l.node, l.name, NewJob(cfg, l, staging))];
        }
      }
      assert ls[..|ls|] == ls;
      return AllPlaced(placed);
    }

    method EnsureJob(rs: Status, l: Launch, staging: string, env: Env) returns (one: One)
      requires staging == StagingFor(cfg, env)
      modifies api
      ensures one == LaunchOne(old(api.State()), rs, env, l.name)
      ensures api.State() == AfterOne(cfg, old(api.State()), rs, env, l)
    {
      if l.name in env.getFails {
        return OneFails;
      }
      var seen := Look(env.jobs, api.jobs);
      if l.name in seen {
        return OneFound(seen[l.name]);
      }
      if exists e | e in rs.jobs :: e.job == l.name {
        return OneVanished;
      }
      var pod := BuildBackupJob(l.node, l.pvcs, staging, cfg.notes);
      if l.name in env.createFails {
        return OneFails;
      }
      if l.name in api.jobs {
        // Lost a create race: read again.
        var again := Look(env.again, api.jobs);
        return if l.name in env.againFails || l.name !in again then OneFails else OneFound(again[l.name]);
      }
      api.CreateJob(l.name, Job(pod, false, false));
      return OneCreated;
    }

    // ---- from Job states to an outcome --------------------------------------------------------------

    method JobResultOf(name: string, env: Env) returns (r: JobResult)
      ensures r == ResultFor(cfg, env, name)
    {
      var read := env.logs(name);
      if read.LogsFail? {
        return ResultFails;
      }
      var pods := read.pods;
      for i := 0 to |pods|
        invariant MessageOf(pods) == MessageOf(pods[i..])
      {
        var containers := pods[i];
        for k := 0 to |containers|
          invariant MessageIn(containers) == MessageIn(containers[k..])
        {
          var text := containers[k].terminated;
          if text == "" {
            text := containers[k].last;
          }
          if text == "" {
            continue;
          }
          assert MessageIn(containers) == text;
          var report := cfg.unmarshal(text);
          if report.None? || report.value.ref == "" {
            return NoResult(UnreadableLog(name, text));
          }
          return Reported(report.value);
        }
        assert MessageIn(containers) == "";
      }
      return NoResult(NoLog(name));
    }

    method JobStatuses(placed: seq<PlacedJob>) returns (out: seq<JobEntry>)
      ensures out == Entries(placed)
    {
      out := [];
      for i := 0 to |placed|
        invariant out == Entries(placed)[..i]
      {
        out := out + [JobEntry(placed[i].node, placed[i].name, JobState(placed[i].job))];
      }
    }

    // Any Failed Job fails the backup; else any active one keeps it running; else the results are collected.
    method Settle(backup: PBSBackup, placed: seq<PlacedJob>, env: Env) returns (r: Result)
      modifies api, backup
      ensures var out := Classify(cfg, env, placed);
              && api.State() == Record(cfg, old(api.State()), old(backup.status), out, env)
              && r == if Lost(cfg, old(backup.status), out, env) then Errored else ResultOf(out)
    {
      var failed: Option<PlacedJob> := None;
      var allComplete := true;
      for i := 0 to |placed|
        invariant failed == FirstFailed(placed[..i])
        invariant allComplete == AllComplete(placed[..i])
        invariant api.State() == old(api.State()) && backup.status == old(backup.status)
      {
        if placed[i].job.failed {
          if failed.None? {
            failed := Some(placed[i]);
          }
        } else if !placed[i].job.complete {
          allComplete := false;
        }
        FirstFailedSnoc(placed[..i], placed[i]);
        assert placed[..i + 1] == placed[..i] + [placed[i]];
      }
      assert placed[..|placed|] == placed;
      if failed.Some? {
        r := FailBackup(backup, JobsFailed, FailedMessage(failed.value.name, failed.value.node), placed, env);
        return;
      }
      if !allComplete {
        r := RunBackup(backup, placed, env);
        return;
      }
      r := CompleteBackup(backup, placed, env);
    }

    // ---- the reconcile ---------------------------------------------------------------------------------

    // One launch per node of the groups, in node order; an API-only backup runs on the first node.
    method PlaceJobs(claims: seq<Claim>, pods: seq<PodInfo>, env: Env) returns (p: Prepared)
      ensures p == PlaceLaunches(cfg, env, claims, pods)
    {
      if |claims| == 0 {
        if env.nodes.NodesFail? {
          return Stops(ApiFails);
        }
        var node := env.nodes.node;
        if node == "" {
          return Stops(Holds(PlacementFailed, NoNodes, WAIT));
        }
        return Goes([], pods, [Launch(node, cfg.jobName(node), [])]);
      }
      var placement, groups := GroupClaims(claims, env);
      if placement.PlaceFails? {
        return Stops(ApiFails);
      }
      if placement.PlaceProblem? {
        return Stops(Holds(PlacementFailed, placement.message, WAIT));
      }
      var nodes := SortedKeys(groups);
      LaunchesAre(cfg, claims, placement.nodes, groups);
      var launches := BuildLaunches(groups, nodes, LaunchesOf(cfg, claims, placement.nodes));
      return Goes(claims, pods, launches);
    }

    method BuildLaunches(groups: map<string, seq<string>>, nodes: seq<string>, ghost all: seq<Launch>)
      returns (launches: seq<Launch>)
      requires LaunchesNodes(cfg, groups, nodes, all)
      ensures launches == all
    {
      launches := [];
      for i := 0 to |nodes|
        invariant launches == all[..i]
      {
        launches := launches + [Launch(nodes[i], cfg.jobName(nodes[i]), SortStrings(groups[nodes[i]]))];
      }
    }

    method PrepareBackup(backup: PBSBackup, env: Env) returns (p: Prepared, staging: string)
      modifies api
      ensures p == Prepare(cfg, old(api.State()), backup.status, env)
      ensures api.State() == Preparing(cfg, old(api.State()), backup.status, env)
      ensures p.Goes? ==> staging == StagingFor(cfg, env)
    {
      staging := "";
      if Terminal(backup.status.phase) {
        return Stops(Ignored), "";
      }
      if env.repo.Unreachable? {
        return Stops(ApiFails), "";
      }
      if env.repo.Held? {
        return Stops(Holds(RepoNotReady, RepoMessage(env.repo.text), WAIT)), "";
      }
      var secret := EnsureRepoSecret(env);
      if secret.SecretFails? {
        return Stops(ApiFails), "";
      }
      if secret.SecretProblem? {
        return Stops(Holds(SecretCopyFailed, SourceAbsentMessage, WAIT)), "";
      }
      var picked := SelectPVCs(env);
      if picked.PickFails? {
        return Stops(ApiFails), "";
      }
      if picked.PickProblem? {
        return Stops(Holds(PlacementFailed, picked.message, WAIT)), "";
      }
      var ok;
      staging, ok := Stage(env);
      if !ok {
        return Stops(ApiFails), staging;
      }
      if |picked.claims| == 0 && staging == "" {
        return Stops(Holds(NoPVCs, NothingToBackUp, SLOW_WAIT)), staging;
      }
      if env.pods.PodsFail? {
        return Stops(ApiFails), staging;
      }
      p := PlaceJobs(picked.claims, env.pods.items, env);
    }

    // Hooks before the first Job, then one Job per node, then the outcome.
    method LaunchBackup(backup: PBSBackup, p: Prepared, staging: string, env: Env) returns (r: Result)
      requires p.Goes? && staging == StagingFor(cfg, env)
      modifies api, backup
      ensures var rs := old(backup.status);
              var out := Proceed(cfg, old(api.State()), rs, env, p);
              && api.State() == Record(cfg, Proceeding(cfg, old(api.State()), rs, env, p), rs, out, env)
              && r == if Lost(cfg, rs, out, env) then Errored else ResultOf(out)
    {
      ghost var before := api.State();
      if |backup.status.jobs| == 0 {
        var problem := RunPreHooks(p.claims, p.pods, env);
        if problem.Some? {
          r := FailBackup(backup, problem.value.reason, problem.value.message, [], env);
          return;
        }
      } else {
        assert before.log + HookEffects([]) == before.log;
      }
      LaunchSeesJobs(cfg, before, api.State(), backup.status, env, p.launches);
      var launched := LaunchJobs(backup, p.launches, staging, env);
      match launched {
        case LaunchFails =>
          return Errored;
        case Vanished(job, node) =>
          r := Hold(backup, JobDeleted, DeletedMessage(job, node), WAIT, env);
        case AllPlaced(placed) =>
          r := Settle(backup, placed, env);
      }
    }

    method Reconcile(read: Status, env: Env) returns (r: Result)
      modifies api
      ensures api.State() == BackupSpec.Reconcile(cfg, old(api.State()), read, env)
      ensures r == ReconcileResult(cfg, old(api.State()), read, env)
    {
      var backup := new PBSBackup(read);
      var p, staging := PrepareBackup(backup, env);
      PreparingKeepsJobs(cfg, old(api.State()), read, env, p);
      StopsHow(cfg, old(api.State()), read, env);
      if p.Stops? {
        if p.out.Ignored? {
          return Finished;
        }
        if p.out.ApiFails? {
          return Errored;
        }
        r := Hold(backup, p.out.reason, p.out.message, p.out.wait, env);
        return;
      }
      r := LaunchBackup(backup, p, staging, env);
    }

    // ---- recording --------------------------------------------------------------------------------------

    method RecordOutcome(backup: PBSBackup, after: Status, env: Env) returns (transitioned: bool, ok: bool)
      requires after.ready.Some?
      modifies api, backup
      ensures backup.status == after
      ensures ok == (after == old(backup.status) || !env.patchFails)
      ensures transitioned == (ok && Transitioned(old(backup.status).ready, after.ready.value))
      ensures api.State() == if after == old(backup.status) || !ok then old(api.State())
                             else old(api.State()).(status := MergeStatus(old(api.status), old(backup.status), after),
                                                    log := old(api.log) + [StatusPatched])
    {
      var before := backup.status;
      transitioned := Transitioned(before.ready, after.ready.value);
      backup.status := after;
      if before == after {
        return transitioned, true;
      }
      if env.patchFails {
        return false, false;
      }
      api.PatchStatus(before, after);
      ok := true;
    }

    method Hold(backup: PBSBackup, reason: Reason, message: Message, wait: nat, env: Env) returns (r: Result)
      modifies api, backup
      ensures var out := Holds(reason, message, wait);
              && api.State() == Record(cfg, old(api.State()), old(backup.status), out, env)
              && r == if Lost(cfg, old(backup.status), out, env) then Errored else ResultOf(out)
    {
      var rs := backup.status;
      var phase := if rs.phase == Running then Running else Scheduled;
      var cond := SetCondition(rs.ready, false, reason, message, cfg.generation, env.now);
      var after := rs.(ready := Some(cond), phase := phase);
      assert after == Recorded(cfg, rs, Holds(reason, message, wait), env.now);
      var transitioned, ok := RecordOutcome(backup, after, env);
      if transitioned {
        api.Log(Event(true, reason, message));
      }
      return if ok then Requeue(wait) else Errored;
    }

    method RunBackup(backup: PBSBackup, placed: seq<PlacedJob>, env: Env) returns (r: Result)
      modifies api, backup
      ensures var out := RunsOn(Entries(placed));
              && api.State() == Record(cfg, old(api.State()), old(backup.status), out, env)
              && r == if Lost(cfg, old(backup.status), out, env) then Errored else ResultOf(out)
    {
      var rs := backup.status;
      var cond := SetCondition(rs.ready, false, JobsRunning, RunningMessage, cfg.generation, env.now);
      var entries := JobStatuses(placed);
      var started := if rs.startedAt.None? then Some(env.now) else rs.startedAt;
      var transitioned, ok :=
        RecordOutcome(backup, rs.(ready := Some(cond), phase := Running, startedAt := started, jobs := entries), env);
      if transitioned {
        api.Log(Event(false, JobsRunning, RunningMessage));
      }
      return if ok then Requeue(WAIT) else Errored;
    }

    method FailBackup(backup: PBSBackup, reason: Reason, message: Message, placed: seq<PlacedJob>, env: Env) returns (r: Result)
      modifies api, backup
      ensures var out := Fails(reason, message, Entries(placed));
              && api.State() == Record(cfg, old(api.State()), old(backup.status), out, env)
              && r == if Lost(cfg, old(backup.status), out, env) then Errored else ResultOf(out)
    {
      var rs := backup.status;
      var cond := SetCondition(rs.ready, false, reason, message, cfg.generation, env.now);
      var entries := JobStatuses(placed);
      var completed := if rs.completedAt.None? then Some(env.now) else rs.completedAt;
      var transitioned, ok :=
        RecordOutcome(backup, rs.(ready := Some(cond), phase := Failed, completedAt := completed, jobs := entries), env);
      if transitioned {
        api.Log(Event(true, reason, message));
      }
      if !ok {
        return Errored;
      }
      api.metrics := api.metrics.(errors := api.metrics.errors + 1);
      return Finished;
    }

    // Every Job's result, in node order, until one is missing.
    method CollectResults(placed: seq<PlacedJob>, env: Env) returns (r: Collection)
      ensures r == Collect(cfg, env, placed)
    {
      var reports: seq<Report> := [];
      for i := 0 to |placed|
        invariant Collect(cfg, env, placed[..i]) == Collected(reports)
      {
        assert placed[..i + 1] == placed[..i] + [placed[i]];
        CollectStep(cfg, env, placed[..i], placed[i]);
        var result := JobResultOf(placed[i].name, env);
        if result.ResultFails? {
          CollectStops(cfg, env, placed, i + 1);
          return CollectFails;
        }
        if result.NoResult? {
          CollectStops(cfg, env, placed, i + 1);
          return Unreadable(result.message);
        }
        reports := reports + [result.report];
      }
      assert placed[..|placed|] == placed;
      return Collected(reports);
    }

    // The states, the running total and the last ref.
    method SumUp(placed: seq<PlacedJob>, reports: seq<Report>) returns (statuses: seq<JobEntry>, total: int, lastRef: string)
      requires |placed| == |reports|
      ensures statuses == OkEntries(placed, reports) && total == RunningTotal(Bytes(reports))
      ensures |reports| == 1 ==> lastRef == reports[0].ref
    {
      statuses, total, lastRef := [], 0, "";
      for i := 0 to |placed|
        invariant |statuses| == i && total == RunningTotal(Bytes(reports[..i]))
        invariant i > 0 ==> lastRef == reports[i - 1].ref
        invariant forall k | 0 <= k < i :: statuses[k] == JobEntry(placed[k].node, placed[k].name, Ok(reports[k].ref))
      {
        assert reports[..i + 1] == reports[..i] + [reports[i]];
        TotalStep(reports[..i], reports[i]);
        total := Wrap64(total + reports[i].bytes);
        lastRef := reports[i].ref;
        statuses := statuses + [JobEntry(placed[i].node, placed[i].name, Ok(lastRef))];
      }
      assert reports[..|placed|] == reports;
    }

    method CompleteBackup(backup: PBSBackup, placed: seq<PlacedJob>, env: Env) returns (r: Result)
      requires FirstFailed(placed).None? && AllComplete(placed)
      modifies api, backup
      ensures var out := Classify(cfg, env, placed);
              && api.State() == Record(cfg, old(api.State()), old(backup.status), out, env)
              && r == if Lost(cfg, old(backup.status), out, env) then Errored else ResultOf(out)
    {
      var collection := CollectResults(placed, env);
      match collection {
        case CollectFails =>
          return Errored;
        case Unreadable(message) =>
          r := FailBackup(backup, ResultUnreadable, message, placed, env);
        case Collected(reports) =>
          var statuses, total, lastRef := SumUp(placed, reports);
          r := RecordCompletion(backup, statuses, total, lastRef, env, SingleRef(reports));
      }
    }

    method RecordCompletion(backup: PBSBackup, statuses: seq<JobEntry>, total: int, singleRef: string, env: Env, ghost ref: string)
      returns (r: Result)
      requires |statuses| == 1 ==> singleRef == ref
      modifies api, backup
      ensures var out := Completes(statuses, total, ref);
              && api.State() == Record(cfg, old(api.State()), old(backup.status), out, env)
              && r == if Lost(cfg, old(backup.status), out, env) then Errored else ResultOf(out)
    {
      var rs := backup.status;
      var message := if |statuses| == 1 then SnapshotMessage(singleRef) else CompletedMessage(|statuses|);
      var cond := SetCondition(rs.ready, true, JobsCompleted, message, cfg.generation, env.now);
      var completed := if rs.completedAt.None? then Some(env.now) else rs.completedAt;
      var after := rs.(ready := Some(cond), phase := Completed, completedAt := completed, jobs := statuses, bytes := total,
                       snapshotRef := if |statuses| == 1 then singleRef else rs.snapshotRef);
      assert after == Recorded(cfg, rs, Completes(statuses, total, ref), env.now);
      var transitioned, ok := RecordOutcome(backup, after, env);
      if transitioned {
        api.Log(Event(false, JobsCompleted, message));
      }
      if !ok {
        return Errored;
      }
      ObserveCompleted(after);
      return Finished;
    }

    method ObserveCompleted(s: Status)
      modifies api`metrics
      ensures api.metrics == Observed(old(api.metrics), Completes([], 0, ""), s)
    {
      if s.completedAt.None? {
        return;
      }
      api.metrics := api.metrics.(lastSuccess := Some(Unix(s.completedAt.value)));
      if s.startedAt.Some? {
        api.metrics := api.metrics.(duration := Some(s.completedAt.value - s.startedAt.value));
      }
    }
  }

  // ---- the groups map ----------------------------------------------------------------------------------

  ghost predicate Groups(claims: seq<Claim>, nodes: seq<string>, groups: map<string, seq<string>>) {
    && |nodes| == |claims|
    && (forall n :: n in groups <==> n in nodes)
    && forall n | n in groups :: groups[n] == OnNode(claims, nodes, n)
  }

  lemma GroupKeys(claims: seq<Claim>, nodes: seq<string>, groups: map<string, seq<string>>)
    requires Groups(claims, nodes, groups)
    ensures groups.Keys == (set n | n in nodes)
  {
  }

  // The i-th launch is the i-th node's.
  ghost predicate LaunchesNodes(cfg: Config, groups: map<string, seq<string>>, nodes: seq<string>, all: seq<Launch>) {
    && |all| == |nodes|
    && forall i | 0 <= i < |nodes| ::
         nodes[i] in groups && all[i] == Launch(nodes[i], cfg.jobName(nodes[i]), SortStrings(groups[nodes[i]]))
  }

  lemma LaunchesAre(cfg: Config, claims: seq<Claim>, nodes: seq<string>, groups: map<string, seq<string>>)
    requires Groups(claims, nodes, groups)
    ensures LaunchesNodes(cfg, groups, InOrder(groups.Keys), LaunchesOf(cfg, claims, nodes))
  {
    GroupKeys(claims, nodes, groups);
    var order, all := InOrder(groups.Keys), LaunchesOf(cfg, claims, nodes);
    forall i | 0 <= i < |order|
      ensures order[i] in groups && all[i] == Launch(order[i], cfg.jobName(order[i]), SortStrings(groups[order[i]]))
    {
      assert order[i] in order;
    }
  }

  lemma {:induction false} OnNodeEmpty(claims: seq<Claim>, nodes: seq<string>, node: string)
    requires |nodes| == |claims| && node !in nodes
    ensures OnNode(claims, nodes, node) == []
  {
    if claims != [] { OnNodeEmpty(claims[..|claims| - 1], nodes[..|nodes| - 1], node); }
  }

  lemma GroupsGrow(claims: seq<Claim>, nodes: seq<string>, groups: map<string, seq<string>>, claim: Claim, node: string)
    requires Groups(claims, nodes, groups)
    ensures var sofar := if node in groups then groups[node] else [];
            Groups(claims + [claim], nodes + [node], groups[node := sofar + [claim.name]])
  {
    var more, at := claims + [claim], nodes + [node];
    assert more[..|claims|] == claims && at[..|nodes|] == nodes;
    if node !in groups { OnNodeEmpty(claims, nodes, node); }
  }
}
