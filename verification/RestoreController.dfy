/** RestoreController: PBSRestoreReconciler as it is written, step by step over mutable objects, proved to
    compute RestoreSpec.Reconcile. */
module RestoreController {
  import opened Wrappers
  import opened Reads
  import opened Sorting
  import opened Manifests
  import opened Conditions
  import opened RestoreSpec
  import opened RestoreSnapshot

  datatype JobGet = JobFound(job: Job) | JobNotFound | JobGetFails
  datatype Problem = RestoreHold(reason: Reason, message: Message) | ApiError

  // The API server: live Jobs, the persisted status, and a log of what was written.
  class ApiServer {
    var jobs: map<string, Job>
    var status: Status
    var adopted: bool
    var log: seq<Effect>

    function State(): Cluster
      reads this
    {
      Cluster(jobs, status, adopted, log)
    }

    method GetJob(name: string, env: Env) returns (r: JobGet)
      ensures r == if name in env.getFails then JobGetFails
                   else if name in Look(env.jobs, jobs) then JobFound(Look(env.jobs, jobs)[name])
                   else JobNotFound
    {
      if name in env.getFails {
        return JobGetFails;
      }
      var seen := Look(env.jobs, jobs);
      return if name in seen then JobFound(seen[name]) else JobNotFound;
    }

    // AlreadyExists counts as success and changes nothing.
    method CreateJob(step: Step, env: Env) returns (ok: bool)
      modifies this
      ensures ok == (step.name !in env.createFails)
      ensures State() == if ok then Create(old(State()), step) else old(State())
    {
      ok := step.name !in env.createFails;
      if ok && step.name !in jobs {
        jobs := jobs[step.name := NewJob(step)];
        log := log + [JobCreated(step.name)];
      }
    }

    // The labelled Jobs, in whatever order the server enumerates them.
    method ListJobs(env: Env) returns (items: Option<seq<(string, Job)>>)
      ensures items.None? <==> env.listing.ListFails?
      ensures items.Some? ==> Enumerates(items.value, Look(env.listing.view, jobs))
    {
      if env.listing.ListFails? {
        return None;
      }
      var listed := Look(env.listing.view, jobs);
      var left := set n | n in listed && listed[n].labelled;
      var out: seq<(string, Job)> := [];
      while left != {}
        invariant left <= LabelledNames(listed)
        invariant forall i | 0 <= i < |out| :: out[i].0 in LabelledNames(listed) - left && out[i].1 == listed[out[i].0]
        invariant forall n | n in LabelledNames(listed) - left :: (n, listed[n]) in out
        invariant forall i, j | 0 <= i < j < |out| :: out[i].0 != out[j].0
        decreases |left|
      {
        var n :| n in left;
        out := out + [(n, listed[n])];
        left := left - {n};
      }
      return Some(out);
    }

    method PatchStatus(before: Status, after: Status, env: Env) returns (ok: bool)
      modifies this
      ensures ok == !env.patchFails
      ensures State() == if !ok then old(State())
                         else old(State()).(status := MergeStatus(old(status), before, after), log := old(log) + [StatusPatched])
    {
      ok := !env.patchFails;
      if ok {
        status := MergeStatus(status, before, after);
        log := log + [StatusPatched];
      }
    }

    method Emit(e: Effect)
      modifies this`log
      ensures log == old(log) + [e]
    {
      log := log + [e];
    }
  }

  ghost predicate Enumerates(items: seq<(string, Job)>, listed: map<string, Job>) {
    && (forall i | 0 <= i < |items| :: items[i].0 in LabelledNames(listed) && items[i].1 == listed[items[i].0])
    && (forall n | n in LabelledNames(listed) :: (n, listed[n]) in items)
    && (forall i, j | 0 <= i < j < |items| :: items[i].0 != items[j].0)
  }

  // The reconcile's own copy of the object; helpers mutate its status before it is patched.
  class PBSRestore {
    var status: Status

    constructor (status: Status)
      ensures this.status == status
    {
      this.status := status;
    }
  }

  // How a status record is extended beyond phase and condition.
  datatype Extra = JobsKept | JobsRunning | JobsOver

  class Reconciler {
    const cfg: Config
    const api: ApiServer

    constructor (cfg: Config, api: ApiServer)
      ensures this.cfg == cfg.(names := NamesFor(cfg.name)) && this.api == api
    {
      this.cfg := cfg.(names := NamesFor(cfg.name));
      this.api := api;
    }

    // The problem ensureJob reports for a step that is not done.
    static function ProblemOf(e: Ensured, name: string): Option<Problem> {
      match e
      case JobFailed => Some(RestoreHold(JobsFailed, FailedMessage(name)))
      case JobGone => Some(RestoreHold(JobDeleted, DeletedMessage(name)))
      case EnsureFails => Some(ApiError)
      case _ => None
    }

    static function EnsureEffect(e: Ensured, c: Cluster, step: Step): Cluster {
      if e.JobAbsent? then Create(c, step) else c
    }

    // The builder runs only on first create; the step carries what it is given.
    method EnsureJob(rs: PBSRestore, step: Step, env: Env) returns (done: bool, problem: Option<Problem>)
      modifies api
      ensures var e := Ensure(rs.status, Look(env.jobs, old(api.jobs)), env, step.name);
              done == e.JobDone? && problem == ProblemOf(e, step.name) && api.State() == EnsureEffect(e, old(api.State()), step)
    {
      var got := api.GetJob(step.name, env);
      match got {
        case JobFound(job) =>
          if job.failed {
            return false, Some(RestoreHold(JobsFailed, FailedMessage(step.name)));
          }
          return job.complete, None;
        case JobNotFound =>
          if KnownJob(rs.status, step.name) {
            if RecordedState(rs.status.jobs, step.name) == Some(Complete) {
              return true, None;
            }
            return false, Some(RestoreHold(JobDeleted, DeletedMessage(step.name)));
          }
          var ok := api.CreateJob(step, env);
          if !ok {
            return false, Some(ApiError);
          }
          return false, None;
        case JobGetFails =>
          return false, Some(ApiError);
      }
    }

    // ensureVolumeJobs: group the claims by node, then one Job per node in node order.
    method EnsureVolumeJobs(rs: PBSRestore, docs: seq<Doc>, pvcs: seq<string>, nodesRead: NodesRead, env: Env)
      returns (done: bool, problem: Option<Problem>)
      requires pvcs != []
      modifies api
      ensures env.plan == PlacedPlan(docs, pvcs, nodesRead) ==>
                VolumesReport(cfg, rs.status, old(api.State()), env, done, problem, api.State())
    {
      if nodesRead.NodesFail? {
        return false, Some(ApiError);
      }
      var groups, stuck := GroupClaims(docs, nodesRead.node, pvcs);
      if stuck.Some? {
        return false, Some(RestoreHold(PlacementFailed, Unplaceable(stuck.value)));
      }
      ghost var steps := VolumeSteps(cfg, VolumePlan(docs, nodesRead.node, pvcs));
      done, problem := EnsureNodes(rs, groups, steps, env);
    }

    // The first half: claims by node, or the first claim that cannot be placed.
    method GroupClaims(docs: seq<Doc>, fallback: string, pvcs: seq<string>)
      returns (groups: map<string, seq<string>>, stuck: Option<string>)
      ensures stuck == FirstUnplaced(docs, fallback, pvcs)
      ensures stuck.None? ==> groups.Keys == PlanNodes(docs, fallback, pvcs)
      ensures stuck.None? ==> forall node | node in groups :: groups[node] == GroupOf(docs, fallback, pvcs, node)
    {
      groups := map[];
      for k := 0 to |pvcs|
        invariant FirstUnplaced(docs, fallback, pvcs) == FirstUnplaced(docs, fallback, pvcs[k..])
        invariant groups.Keys == PlanNodes(docs, fallback, pvcs[..k])
        invariant forall node | node in groups :: groups[node] == GroupOf(docs, fallback, pvcs[..k], node)
      {
        var pvc := pvcs[k];
        var node := NodeForPVC(docs, pvc);
        assert pvcs[k..][0] == pvc && pvcs[k..][1..] == pvcs[k + 1..];
        if node == "" {
          if fallback == "" {
            return groups, Some(pvc);
          }
          node := fallback;
        }
        GroupsGrow(docs, fallback, pvcs, k, groups);
        groups := groups[node := (if node in groups then groups[node] else []) + [pvc]];
      }
      assert pvcs[..|pvcs|] == pvcs;
      stuck := None;
    }

    // The second half of ensureVolumeJobs: the nodes in order, each Job awaited before the next.
    method EnsureNodes(rs: PBSRestore, groups: map<string, seq<string>>, ghost steps: seq<Step>, env: Env)
      returns (done: bool, problem: Option<Problem>)
      requires |steps| == |groups.Keys|
      requires var order := InOrder(groups.Keys);
               forall k | 0 <= k < |order| :: order[k] in groups && steps[k] == VolumeStep(cfg, order[k], groups[order[k]])
      modifies api
      ensures StepsReport(rs.status, old(api.State()), env, steps, done, problem, api.State())
    {
      var nodes := SortedKeys(groups);
      ghost var read, seen := rs.status, Look(env.jobs, api.jobs);
      for k := 0 to |nodes|
        invariant api.State() == old(api.State())
        invariant FirstUndone(read, seen, env, steps[..k]) == k
      {
        var step := VolumeStep(cfg, nodes[k], groups[nodes[k]]);
        assert step == steps[k];
        done, problem := EnsureJob(rs, step, env);
        ExtendUndone(read, seen, env, steps, k);
        if problem.Some? || !done {
          return;
        }
      }
      assert steps[..|nodes|] == steps;
      return true, None;
    }

    method LiveJobsNow(rs: PBSRestore, env: Env) returns (out: seq<JobEntry>)
      requires UniqueJobs(rs.status.jobs)
      ensures out == LiveJobs(cfg, rs.status, env.listing, api.jobs)
    {
      var items := api.ListJobs(env);
      if items.None? {
        return rs.status.jobs;
      }
      ghost var listed := Look(env.listing.view, api.jobs);
      out := [];
      var live: set<string> := {};
      for i := 0 to |items.value|
        invariant |out| == i
        invariant forall k | 0 <= k < i :: out[k] == LiveEntry(cfg.name, items.value[k].0, items.value[k].1)
        invariant live == set k | 0 <= k < i :: items.value[k].0
      {
        var (name, job) := items.value[i];
        live := live + {name};
        out := out + [LiveEntry(cfg.name, name, job)];
      }
      ListedEntries(cfg.name, items.value, listed, live, out);
      ghost var refreshed := out;
      for i := 0 to |rs.status.jobs|
        invariant UniqueJobs(out)
        invariant forall e | e in out :: e in refreshed || (e in rs.status.jobs[..i] && e.job !in live)
        invariant forall e | e in refreshed :: e in out
        invariant forall e | e in rs.status.jobs[..i] && e.job !in live :: e in out
      {
        var js := rs.status.jobs[i];
        if js.job !in live {
          out := out + [js];
        }
      }
      assert rs.status.jobs[..|rs.status.jobs|] == rs.status.jobs;
      SortsToSnapshot(cfg.name, rs.status.jobs, listed, out);
      out := Sort(ByJob, out);
    }

    // The extra status mutations a record may carry.
    method Extend(rs: PBSRestore, extra: Extra, env: Env)
      requires UniqueJobs(rs.status.jobs)
      modifies rs
      ensures rs.status == Extended(old(rs.status), extra, env, api.jobs)
    {
      match extra {
        case JobsKept =>
        case JobsRunning =>
          if rs.status.startedAt.None? {
            rs.status := rs.status.(startedAt := Some(env.now));
          }
          var jobs := LiveJobsNow(rs, env);
          rs.status := rs.status.(jobs := jobs);
        case JobsOver =>
          var jobs := LiveJobsNow(rs, env);
          rs.status := rs.status.(jobs := jobs);
          if rs.status.completedAt.None? {
            rs.status := rs.status.(completedAt := Some(env.now));
          }
      }
    }

    ghost function Extended(rs: Status, extra: Extra, env: Env, live: map<string, Job>): Status {
      rs.(startedAt := if extra.JobsRunning? then OrNow(rs.startedAt, env.now) else rs.startedAt,
          completedAt := if extra.JobsOver? then OrNow(rs.completedAt, env.now) else rs.completedAt,
          jobs := if extra.JobsKept? then rs.jobs else LiveJobs(cfg, rs, env.listing, live))
    }

    // recordRestore: stamp, compare with the copy that was read, patch if changed.
    method RecordRestore(rs: PBSRestore, phase: Phase, ready: bool, reason: Reason, message: Message, extra: Extra, env: Env)
      returns (transitioned: bool, ok: bool)
      requires UniqueJobs(rs.status.jobs)
      modifies api, rs
      ensures rs.status == Stamped(old(rs.status), phase, ready, reason, message, extra, env, old(api.jobs))
      ensures ok == (rs.status == old(rs.status) || !env.patchFails)
      ensures transitioned == (ok && Transitioned(old(rs.status).ready, rs.status.ready.value))
      ensures api.State() == if rs.status == old(rs.status) || !ok then old(api.State())
                             else old(api.State()).(status := MergeStatus(old(api.status), old(rs.status), rs.status),
                                                    log := old(api.log) + [StatusPatched])
    {
      var before := rs.status;
      var cond := SetCondition(before.ready, ready, reason, message, cfg.generation, env.now);
      transitioned := Transitioned(before.ready, cond);
      rs.status := before.(ready := Some(cond), phase := phase);
      Extend(rs, extra, env);
      ok := PatchIfChanged(before, rs.status, env);
      if !ok {
        transitioned := false;
      }
    }

    method PatchIfChanged(before: Status, after: Status, env: Env) returns (ok: bool)
      modifies api
      ensures ok == (after == before || !env.patchFails)
      ensures api.State() == if after == before || !ok then old(api.State())
                             else old(api.State()).(status := MergeStatus(old(api.status), before, after),
                                                    log := old(api.log) + [StatusPatched])
    {
      if before == after {
        return true;
      }
      ok := api.PatchStatus(before, after, env);
    }

    ghost function Stamped(rs: Status, phase: Phase, ready: bool, reason: Reason, message: Message, extra: Extra,
                           env: Env, live: map<string, Job>): Status {
      var cond := SetCondition(rs.ready, ready, reason, message, cfg.generation, env.now);
      Extended(rs.(phase := phase, ready := Some(cond)), extra, env, live)
    }

    method HoldRestore(rs: PBSRestore, reason: Reason, message: Message, env: Env) returns (r: Result)
      requires UniqueJobs(rs.status.jobs)
      modifies api, rs
      ensures (api.State(), r) == Record(cfg, old(api.State()), old(rs.status), Holds(reason, message), env)
    {
      var transitioned, ok := RecordRestore(rs, HoldPhase(rs.status.phase), false, reason, message, JobsKept, env);
      if transitioned {
        api.Emit(Event(true, reason, message));
      } else {
        assert api.log + [] == api.log;
      }
      return if ok then Requeue(REQUEUE_WAIT) else Errored;
    }

    method FailRestore(rs: PBSRestore, reason: Reason, message: Message, env: Env) returns (r: Result)
      requires UniqueJobs(rs.status.jobs)
      modifies api, rs
      ensures (api.State(), r) == Record(cfg, old(api.State()), old(rs.status), Fails(reason, message), env)
    {
      var transitioned, ok := RecordRestore(rs, Failed, false, reason, message, JobsOver, env);
      if transitioned {
        api.Emit(Event(true, reason, message));
      } else {
        assert api.log + [] == api.log;
      }
      return if ok then Finished else Errored;
    }

    method CompleteRestore(rs: PBSRestore, env: Env) returns (r: Result)
      requires UniqueJobs(rs.status.jobs)
      modifies api, rs
      ensures (api.State(), r) == Record(cfg, old(api.State()), old(rs.status), Finishes, env)
    {
      var transitioned, ok := RecordRestore(rs, Completed, true, JobsCompleted, RestoreCompleted, JobsOver, env);
      if transitioned {
        api.Emit(Event(false, JobsCompleted, RestoreCompleted));
      } else {
        assert api.log + [] == api.log;
      }
      return if ok then Finished else Errored;
    }

    static function ProblemOutcome(phase: Phase, problem: Option<Problem>): Outcome {
      match problem
      case None => Advances(phase)
      case Some(ApiError) => ApiFails
      case Some(RestoreHold(reason, message)) => if reason == JobsFailed then Fails(reason, message) else Holds(reason, message)
    }

    method RequeueOrHold(rs: PBSRestore, phase: Phase, problem: Option<Problem>, env: Env) returns (r: Result)
      requires UniqueJobs(rs.status.jobs)
      modifies api, rs
      ensures (api.State(), r) == Record(cfg, old(api.State()), old(rs.status), ProblemOutcome(phase, problem), env)
    {
      if problem.Some? && problem.value.RestoreHold? {
        if problem.value.reason == JobsFailed {
          r := FailRestore(rs, problem.value.reason, problem.value.message, env);
        } else {
          r := HoldRestore(rs, problem.value.reason, problem.value.message, env);
        }
        return;
      }
      if problem.Some? {
        return Errored;
      }
      var transitioned, ok := RecordRestore(rs, phase, false, Running, InPhase(phase), JobsRunning, env);
      assert api.log + [] == api.log;
      return if ok then Requeue(REQUEUE_WAIT) else Errored;
    }

    method AdoptConfigMap(env: Env)
      modifies api
      ensures api.State() == Adopt(cfg, old(api.State()), env)
    {
      if cfg.namespace != cfg.targetNamespace || api.adopted {
        return;
      }
      if !env.adoptFails {
        api.adopted := true;
        api.Emit(ConfigMapAdopted);
      }
    }

    // Reconcile, after reading `read` as the object's status. The ConfigMap and the nodes are read on the way.
    method Reconcile(read: Status, answers: Env, configMap: ConfigMapRead, nodes: NodesRead) returns (r: Result)
      requires UniqueJobs(read.jobs)
      modifies api
      ensures (api.State(), r)
              == RestoreSpec.Reconcile(cfg, old(api.State()), read, answers.(plan := PlanOf(cfg, configMap, nodes)))
    {
      var env := answers.(plan := PlanOf(cfg, configMap, nodes));
      var rs := new PBSRestore(read);
      if rs.status.phase == Completed || rs.status.phase == Failed {
        return Finished;
      }
      if SpecProblem(cfg).Some? {
        r := FailRestore(rs, InvalidSpec, SpecMessage(SpecProblem(cfg).value), env);
        return;
      }
      match env.gate {
        case Unreachable =>
          return Errored;
        case Held(reason, message) =>
          r := HoldRestore(rs, reason, message, env);
          return;
        case Open =>
      }
      r := RunPipeline(rs, env, configMap, nodes);
    }

    // Steps 1 to 5 of Reconcile, behind the gates.
    method RunPipeline(rs: PBSRestore, env: Env, configMap: ConfigMapRead, nodes: NodesRead) returns (r: Result)
      requires UniqueJobs(rs.status.jobs)
      requires !Terminal(rs.status.phase) && SpecProblem(cfg).None? && env.gate.Open?
      requires env.plan == PlanOf(cfg, configMap, nodes)
      modifies api, rs
      ensures (api.State(), r) == RestoreSpec.Reconcile(cfg, old(api.State()), old(rs.status), env)
    {
      // Step 1: fetch.
      ghost var c := api.State();
      var done, problem := EnsureJob(rs, FetchStep(cfg), env);
      FetchReported(cfg, c, rs.status, env);
      if problem.Some? || !done {
        r := RequeueOrHold(rs, StagingAPI, problem, env);
        return;
      }

      // Step 2: the fetch Job must have uploaded the ConfigMap.
      if configMap.ConfigMapAbsent? {
        r := HoldRestore(rs, ApiManifestMissing, ManifestAbsent, env);
        return;
      }
      if configMap.ConfigMapFails? {
        return Errored;
      }
      AdoptConfigMap(env);

      // Step 3: pre apply.
      done, problem := EnsureJob(rs, PreStep(cfg), env);
      PreReported(cfg, c, rs.status, env);
      if problem.Some? || !done {
        r := RequeueOrHold(rs, StagingAPI, problem, env);
        return;
      }

      r := RestoreVolumes(rs, env, configMap.text, nodes, c);
    }

    // Steps 4 and 5: the ConfigMap is adopted and the pre apply is done.
    method RestoreVolumes(rs: PBSRestore, env: Env, text: seq<string>, nodes: NodesRead, ghost c: Cluster) returns (r: Result)
      requires UniqueJobs(rs.status.jobs) && Runs(cfg, rs.status, env)
      requires env.plan == PlanOf(cfg, ConfigMap(text), nodes)
      requires api.State() == Adopt(cfg, c, env)
      requires Ensure(rs.status, Look(env.jobs, c.jobs), env, FetchStep(cfg).name).JobDone?
      requires Ensure(rs.status, Look(env.jobs, c.jobs), env, PreStep(cfg).name).JobDone?
      requires env.plan.VolumePlan? || EndsAs(cfg, c, rs.status, env, Adopt(cfg, c, env), Tail(env.plan))
      modifies api, rs
      ensures (api.State(), r) == RestoreSpec.Reconcile(cfg, c, old(rs.status), env)
    {
      // Step 4: volume data, one node-pinned Job per node.
      var parsed := ParseAPIManifests(cfg.codec, text, cfg.targetNamespace);
      if parsed.Rejected? {
        r := FailRestore(rs, InvalidSpec, ManifestMessage(parsed.error), env);
        return;
      }
      var _, _, preDocs, _ := BucketDocs(cfg.codec, parsed.docs, cfg.dropKinds, cfg.keepKinds);
      var pvcs := PVCsFromDocs(preDocs);
      var done, problem := true, None;
      if |pvcs| > 0 {
        assert env.plan == PlacedPlan(parsed.docs, pvcs, nodes);
        done, problem := EnsureVolumeJobs(rs, parsed.docs, pvcs, nodes, env);
        VolumesReported(cfg, c, rs.status, env, done, problem, api.State());
        if problem.Some? || !done {
          r := RequeueOrHold(rs, RestoringVolumes, problem, env);
          return;
        }
      } else {
        NoVolumes(cfg, c, rs.status, env);
      }

      r := ApplyWorkloads(rs, env, c);
    }

    // Step 5: workload apply; its completion ends the restore.
    method ApplyWorkloads(rs: PBSRestore, env: Env, ghost c: Cluster) returns (r: Result)
      requires UniqueJobs(rs.status.jobs) && Runs(cfg, rs.status, env)
      requires api.State() == Adopt(cfg, c, env)
      requires VolumesDone(cfg, rs.status, Look(env.jobs, c.jobs), env)
      modifies api, rs
      ensures (api.State(), r) == RestoreSpec.Reconcile(cfg, c, old(rs.status), env)
    {
      var done, problem := EnsureJob(rs, WorkloadStep(cfg), env);
      if problem.Some? || !done {
        WorkloadStops(cfg, c, rs.status, env);
        r := RequeueOrHold(rs, ApplyingWorkloads, problem, env);
        return;
      }
      WorkloadEnds(cfg, c, rs.status, env);
      r := CompleteRestore(rs, env);
    }
  }

  // ---- lemmas the methods use ------------------------------------------------------------------------

  lemma {:induction false} FirstUndoneIs(rs: Status, seen: map<string, Job>, env: Env, steps: seq<Step>, i: nat)
    requires i <= |steps|
    requires forall j | 0 <= j < i :: Ensure(rs, seen, env, steps[j].name).JobDone?
    requires i < |steps| ==> !Ensure(rs, seen, env, steps[i].name).JobDone?
    ensures FirstUndone(rs, seen, env, steps) == i
  {
    if i > 0 {
      assert forall j | 0 <= j < i - 1 :: steps[1..][j] == steps[j + 1];
      FirstUndoneIs(rs, seen, env, steps[1..], i - 1);
    }
  }

  // The reconcile ends as `out`, with the cluster as it is now.
  ghost predicate EndsAs(cfg: Config, c: Cluster, rs: Status, env: Env, now: Cluster, out: Outcome) {
    Ensuring(cfg, c, rs, env) == now && Decide(cfg, rs, Look(env.jobs, c.jobs), env) == out
  }

  lemma DecidesAt(cfg: Config, rs: Status, seen: map<string, Job>, env: Env, steps: seq<Step>, i: nat)
    requires Runs(cfg, rs, env) && steps == Steps(cfg, env.plan)
    requires FirstUndone(rs, seen, env, steps) == i < |steps|
    ensures Decide(cfg, rs, seen, env) == Settle(steps[i], Ensure(rs, seen, env, steps[i].name))
    ensures Creation(cfg, rs, seen, env) == if Ensure(rs, seen, env, steps[i].name).JobAbsent? then Some(steps[i]) else None
    ensures Staged(cfg, rs, seen, env) <==> i > 0
  {
    assert i > 0 ==> Ensure(rs, seen, env, steps[0].name).JobDone?;
  }

  // The pipeline stopped at step i: the reconcile is that step's effect and its report, recorded.
  lemma StopsAt(cfg: Config, c: Cluster, rs: Status, env: Env, steps: seq<Step>, i: nat)
    requires Runs(cfg, rs, env) && steps == Steps(cfg, env.plan)
    requires FirstUndone(rs, Look(env.jobs, c.jobs), env, steps) == i < |steps|
    ensures var e := Ensure(rs, Look(env.jobs, c.jobs), env, steps[i].name);
            EndsAs(cfg, c, rs, env, Reconciler.EnsureEffect(e, if i == 0 then c else Adopt(cfg, c, env), steps[i]),
                   Reconciler.ProblemOutcome(steps[i].phase, Reconciler.ProblemOf(e, steps[i].name)))
  {
    DecidesAt(cfg, rs, Look(env.jobs, c.jobs), env, steps, i);
  }

  // Every step is done: the tail decides.
  lemma RunsOut(cfg: Config, c: Cluster, rs: Status, env: Env, steps: seq<Step>)
    requires Runs(cfg, rs, env) && steps == Steps(cfg, env.plan)
    requires FirstUndone(rs, Look(env.jobs, c.jobs), env, steps) == |steps|
    ensures EndsAs(cfg, c, rs, env, if Present(env.plan) then Adopt(cfg, c, env) else c, Tail(env.plan))
  {
    assert Ensure(rs, Look(env.jobs, c.jobs), env, steps[0].name).JobDone?;
    assert Decide(cfg, rs, Look(env.jobs, c.jobs), env) == Tail(env.plan);
  }

  ghost predicate StepReport(rs: Status, c: Cluster, env: Env, step: Step, done: bool, problem: Option<Problem>, now: Cluster) {
    var e := Ensure(rs, Look(env.jobs, c.jobs), env, step.name);
    done == e.JobDone? && problem == Reconciler.ProblemOf(e, step.name) && now == Reconciler.EnsureEffect(e, c, step)
  }

  // A list of steps, each awaited before the next, was ensured.
  ghost predicate StepsReport(rs: Status, c: Cluster, env: Env, steps: seq<Step>, done: bool, problem: Option<Problem>, now: Cluster) {
    var i := FirstUndone(rs, Look(env.jobs, c.jobs), env, steps);
    if i == |steps| then done && problem.None? && now == c else StepReport(rs, c, env, steps[i], done, problem, now)
  }

  function PlacedPlan(docs: seq<Doc>, pvcs: seq<string>, nodes: NodesRead): Plan {
    if nodes.NodesFail? then PlanNodesFail
    else
      var stuck := FirstUnplaced(docs, nodes.node, pvcs);
      if stuck.Some? then PlanUnplaceable(stuck.value) else VolumePlan(docs, nodes.node, pvcs)
  }

  ghost predicate VolumesReport(cfg: Config, rs: Status, c: Cluster, env: Env, done: bool, problem: Option<Problem>, now: Cluster) {
    match env.plan
    case PlanNodesFail => !done && problem == Some(ApiError) && now == c
    case PlanUnplaceable(pvc) => !done && problem == Some(RestoreHold(PlacementFailed, Unplaceable(pvc))) && now == c
    case VolumePlan(_, _, _) => StepsReport(rs, c, env, VolumeSteps(cfg, env.plan), done, problem, now)
    case _ => true
  }

  // One more step of a list whose first k steps are done.
  lemma ExtendUndone(rs: Status, seen: map<string, Job>, env: Env, steps: seq<Step>, k: nat)
    requires k < |steps| && FirstUndone(rs, seen, env, steps[..k]) == k
    ensures if Ensure(rs, seen, env, steps[k].name).JobDone? then FirstUndone(rs, seen, env, steps[..k + 1]) == k + 1
            else FirstUndone(rs, seen, env, steps) == k
  {
    assert forall j | 0 <= j < k :: steps[..k][j] == steps[j];
    if Ensure(rs, seen, env, steps[k].name).JobDone? {
      FirstUndoneIs(rs, seen, env, steps[..k + 1], k + 1);
    } else {
      FirstUndoneIs(rs, seen, env, steps, k);
    }
  }

  lemma MiddleUndone(rs: Status, seen: map<string, Job>, env: Env, steps: seq<Step>, head: seq<Step>, mid: seq<Step>, tail: seq<Step>)
    requires steps == head + mid + tail
    requires forall j | 0 <= j < |head| :: Ensure(rs, seen, env, head[j].name).JobDone?
    requires FirstUndone(rs, seen, env, mid) < |mid|
    ensures FirstUndone(rs, seen, env, steps) == |head| + FirstUndone(rs, seen, env, mid) < |steps|
    ensures steps[|head| + FirstUndone(rs, seen, env, mid)] == mid[FirstUndone(rs, seen, env, mid)]
  {
    FirstUndoneIs(rs, seen, env, steps, |head| + FirstUndone(rs, seen, env, mid));
  }

  lemma LastUndone(rs: Status, seen: map<string, Job>, env: Env, steps: seq<Step>, head: seq<Step>, mid: seq<Step>, last: Step)
    requires steps == head + mid + [last]
    requires forall j | 0 <= j < |head| :: Ensure(rs, seen, env, head[j].name).JobDone?
    requires FirstUndone(rs, seen, env, mid) == |mid|
    ensures FirstUndone(rs, seen, env, steps)
            == |steps| - (if Ensure(rs, seen, env, last.name).JobDone? then 0 else 1)
    ensures |steps| > 0 && steps[|steps| - 1] == last
  {
    FirstUndoneIs(rs, seen, env, steps, |steps| - (if Ensure(rs, seen, env, last.name).JobDone? then 0 else 1));
  }

  lemma FetchReported(cfg: Config, c: Cluster, rs: Status, env: Env)
    requires Runs(cfg, rs, env)
    ensures var e := Ensure(rs, Look(env.jobs, c.jobs), env, FetchStep(cfg).name);
            if !e.JobDone? then
              EndsAs(cfg, c, rs, env, Reconciler.EnsureEffect(e, c, FetchStep(cfg)),
                     Reconciler.ProblemOutcome(StagingAPI, Reconciler.ProblemOf(e, FetchStep(cfg).name)))
            else Present(env.plan) || EndsAs(cfg, c, rs, env, c, Tail(env.plan))
  {
    var seen := Look(env.jobs, c.jobs);
    var steps := Steps(cfg, env.plan);
    if !Ensure(rs, seen, env, steps[0].name).JobDone? {
      FirstUndoneIs(rs, seen, env, steps, 0);
      StopsAt(cfg, c, rs, env, steps, 0);
    } else if !Present(env.plan) {
      FirstUndoneIs(rs, seen, env, steps, 1);
      RunsOut(cfg, c, rs, env, steps);
    }
  }

  lemma PreReported(cfg: Config, c: Cluster, rs: Status, env: Env)
    requires Runs(cfg, rs, env) && Present(env.plan)
    requires Ensure(rs, Look(env.jobs, c.jobs), env, FetchStep(cfg).name).JobDone?
    ensures var e := Ensure(rs, Look(env.jobs, c.jobs), env, PreStep(cfg).name);
            if !e.JobDone? then
              EndsAs(cfg, c, rs, env, Reconciler.EnsureEffect(e, Adopt(cfg, c, env), PreStep(cfg)),
                     Reconciler.ProblemOutcome(StagingAPI, Reconciler.ProblemOf(e, PreStep(cfg).name)))
            else env.plan.VolumePlan? || EndsAs(cfg, c, rs, env, Adopt(cfg, c, env), Tail(env.plan))
  {
    var seen := Look(env.jobs, c.jobs);
    var steps := Steps(cfg, env.plan);
    if !Ensure(rs, seen, env, steps[1].name).JobDone? {
      FirstUndoneIs(rs, seen, env, steps, 1);
      StopsAt(cfg, c, rs, env, steps, 1);
    } else if !env.plan.VolumePlan? {
      FirstUndoneIs(rs, seen, env, steps, 2);
      RunsOut(cfg, c, rs, env, steps);
    }
  }

  // Fetch, pre and every volume Job are done.
  ghost predicate VolumesDone(cfg: Config, rs: Status, seen: map<string, Job>, env: Env) {
    && env.plan.VolumePlan?
    && Ensure(rs, seen, env, FetchStep(cfg).name).JobDone?
    && Ensure(rs, seen, env, PreStep(cfg).name).JobDone?
    && FirstUndone(rs, seen, env, VolumeSteps(cfg, env.plan)) == |VolumeSteps(cfg, env.plan)|
  }

  lemma VolumesStopped(cfg: Config, c: Cluster, rs: Status, env: Env, problem: Option<Problem>, now: Cluster)
    requires Runs(cfg, rs, env) && env.plan.VolumePlan?
    requires Ensure(rs, Look(env.jobs, c.jobs), env, FetchStep(cfg).name).JobDone?
    requires Ensure(rs, Look(env.jobs, c.jobs), env, PreStep(cfg).name).JobDone?
    requires FirstUndone(rs, Look(env.jobs, c.jobs), env, VolumeSteps(cfg, env.plan)) < |VolumeSteps(cfg, env.plan)|
    requires StepsReport(rs, Adopt(cfg, c, env), env, VolumeSteps(cfg, env.plan), false, problem, now)
    ensures EndsAs(cfg, c, rs, env, now, Reconciler.ProblemOutcome(RestoringVolumes, problem))
  {
    var seen := Look(env.jobs, c.jobs);
    var volumes := VolumeSteps(cfg, env.plan);
    var i := FirstUndone(rs, seen, env, volumes);
    VolumeIsNext(cfg, rs, seen, env, Steps(cfg, env.plan), i);
    StopsAt(cfg, c, rs, env, Steps(cfg, env.plan), 2 + i);
  }

  // With fetch and pre done, the first volume step that is not done is next.
  lemma VolumeIsNext(cfg: Config, rs: Status, seen: map<string, Job>, env: Env, steps: seq<Step>, i: nat)
    requires env.plan.VolumePlan? && steps == Steps(cfg, env.plan)
    requires Ensure(rs, seen, env, FetchStep(cfg).name).JobDone? && Ensure(rs, seen, env, PreStep(cfg).name).JobDone?
    requires FirstUndone(rs, seen, env, VolumeSteps(cfg, env.plan)) == i < |VolumeSteps(cfg, env.plan)|
    ensures FirstUndone(rs, seen, env, steps) == 2 + i < |steps| && steps[2 + i] == VolumeSteps(cfg, env.plan)[i]
  {
    var head, volumes := [FetchStep(cfg), PreStep(cfg)], VolumeSteps(cfg, env.plan);
    assert steps == head + volumes + [WorkloadStep(cfg)];
    forall j | 0 <= j < |head| ensures Ensure(rs, seen, env, head[j].name).JobDone? {}
    MiddleUndone(rs, seen, env, steps, head, volumes, [WorkloadStep(cfg)]);
  }

  lemma VolumesReported(cfg: Config, c: Cluster, rs: Status, env: Env, done: bool, problem: Option<Problem>, now: Cluster)
    requires Runs(cfg, rs, env) && (env.plan.PlanNodesFail? || env.plan.PlanUnplaceable? || env.plan.VolumePlan?)
    requires Ensure(rs, Look(env.jobs, c.jobs), env, FetchStep(cfg).name).JobDone?
    requires Ensure(rs, Look(env.jobs, c.jobs), env, PreStep(cfg).name).JobDone?
    requires !env.plan.VolumePlan? ==> EndsAs(cfg, c, rs, env, Adopt(cfg, c, env), Tail(env.plan))
    requires VolumesReport(cfg, rs, Adopt(cfg, c, env), env, done, problem, now)
    ensures if problem.Some? || !done then EndsAs(cfg, c, rs, env, now, Reconciler.ProblemOutcome(RestoringVolumes, problem))
            else now == Adopt(cfg, c, env) && VolumesDone(cfg, rs, Look(env.jobs, c.jobs), env)
  {
    if env.plan.VolumePlan? {
      assert StepsReport(rs, Adopt(cfg, c, env), env, VolumeSteps(cfg, env.plan), done, problem, now);
      if FirstUndone(rs, Look(env.jobs, c.jobs), env, VolumeSteps(cfg, env.plan)) < |VolumeSteps(cfg, env.plan)| {
        VolumesStopped(cfg, c, rs, env, problem, now);
      }
    }
  }

  lemma NoVolumes(cfg: Config, c: Cluster, rs: Status, env: Env)
    requires env.plan.VolumePlan? && env.plan.pvcs == []
    requires Ensure(rs, Look(env.jobs, c.jobs), env, FetchStep(cfg).name).JobDone?
    requires Ensure(rs, Look(env.jobs, c.jobs), env, PreStep(cfg).name).JobDone?
    ensures VolumesDone(cfg, rs, Look(env.jobs, c.jobs), env)
  {
    assert PlanNodes(env.plan.docs, env.plan.fallback, []) == {};
  }

  // With fetch, pre and volumes done, the workload step is next, and it is the last.
  lemma WorkloadIsLast(cfg: Config, rs: Status, seen: map<string, Job>, env: Env, steps: seq<Step>)
    requires VolumesDone(cfg, rs, seen, env) && steps == Steps(cfg, env.plan)
    ensures var done := Ensure(rs, seen, env, WorkloadStep(cfg).name).JobDone?;
            && FirstUndone(rs, seen, env, steps) == (if done then |steps| else |steps| - 1)
            && steps[|steps| - 1] == WorkloadStep(cfg)
  {
    LastUndone(rs, seen, env, steps, [FetchStep(cfg), PreStep(cfg)], VolumeSteps(cfg, env.plan), WorkloadStep(cfg));
  }

  lemma WorkloadStops(cfg: Config, c: Cluster, rs: Status, env: Env)
    requires Runs(cfg, rs, env) && VolumesDone(cfg, rs, Look(env.jobs, c.jobs), env)
    requires !Ensure(rs, Look(env.jobs, c.jobs), env, WorkloadStep(cfg).name).JobDone?
    ensures var e := Ensure(rs, Look(env.jobs, c.jobs), env, WorkloadStep(cfg).name);
            EndsAs(cfg, c, rs, env, Reconciler.EnsureEffect(e, Adopt(cfg, c, env), WorkloadStep(cfg)),
                   Reconciler.ProblemOutcome(ApplyingWorkloads, Reconciler.ProblemOf(e, WorkloadStep(cfg).name)))
  {
    var steps := Steps(cfg, env.plan);
    WorkloadIsLast(cfg, rs, Look(env.jobs, c.jobs), env, steps);
    StopsAt(cfg, c, rs, env, steps, |steps| - 1);
  }

  lemma WorkloadEnds(cfg: Config, c: Cluster, rs: Status, env: Env)
    requires Runs(cfg, rs, env) && VolumesDone(cfg, rs, Look(env.jobs, c.jobs), env)
    requires Ensure(rs, Look(env.jobs, c.jobs), env, WorkloadStep(cfg).name).JobDone?
    ensures EndsAs(cfg, c, rs, env, Adopt(cfg, c, env), Finishes)
  {
    var steps := Steps(cfg, env.plan);
    WorkloadIsLast(cfg, rs, Look(env.jobs, c.jobs), env, steps);
    RunsOut(cfg, c, rs, env, steps);
  }

  // One more claim in its node's group.
  lemma GroupsGrow(docs: seq<Doc>, fallback: string, pvcs: seq<string>, k: nat, groups: map<string, seq<string>>)
    requires k < |pvcs|
    requires groups.Keys == PlanNodes(docs, fallback, pvcs[..k])
    requires forall node | node in groups :: groups[node] == GroupOf(docs, fallback, pvcs[..k], node)
    ensures var node := Placement(docs, fallback, pvcs[k]);
            var grown := groups[node := (if node in groups then groups[node] else []) + [pvcs[k]]];
            && grown.Keys == PlanNodes(docs, fallback, pvcs[..k + 1])
            && forall n | n in grown :: grown[n] == GroupOf(docs, fallback, pvcs[..k + 1], n)
  {
    var node := Placement(docs, fallback, pvcs[k]);
    assert pvcs[..k + 1] == pvcs[..k] + [pvcs[k]];
    assert pvcs[..k + 1][..k] == pvcs[..k];
    forall n | n !in groups ensures GroupOf(docs, fallback, pvcs[..k], n) == [] {
      EmptyGroup(docs, fallback, pvcs[..k], n);
    }
  }

  lemma {:induction false} EmptyGroup(docs: seq<Doc>, fallback: string, pvcs: seq<string>, node: string)
    requires node !in PlanNodes(docs, fallback, pvcs)
    ensures GroupOf(docs, fallback, pvcs, node) == []
  {
    if pvcs != [] {
      assert pvcs[|pvcs| - 1] in pvcs;
      EmptyGroup(docs, fallback, pvcs[..|pvcs| - 1], node);
    }
  }

  // The refreshed entries are the labelled Jobs', each once.
  lemma ListedEntries(restore: string, items: seq<(string, Job)>, listed: map<string, Job>, live: set<string>, out: seq<JobEntry>)
    requires Enumerates(items, listed)
    requires live == set k | 0 <= k < |items| :: items[k].0
    requires |out| == |items|
    requires forall k | 0 <= k < |items| :: out[k] == LiveEntry(restore, items[k].0, items[k].1)
    ensures live == LabelledNames(listed)
    ensures UniqueJobs(out)
    ensures forall e :: e in out <==> e.job in live && e == LiveEntry(restore, e.job, listed[e.job])
  {
    forall n | n in LabelledNames(listed) ensures n in live {
      assert (n, listed[n]) in items;
    }
    forall e: JobEntry | e.job in live && e == LiveEntry(restore, e.job, listed[e.job]) ensures e in out {
      var k :| 0 <= k < |items| && items[k].0 == e.job;
      assert out[k] == e;
    }
  }
}
