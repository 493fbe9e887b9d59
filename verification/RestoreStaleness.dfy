/** RestoreStaleness: why reads of the status must not be older than the record. In a run without a single failing
    call, one reconcile on a copy from before the first record fetches again what was fetched, goes back a phase, and
    forgets a Job that had completed. */
module RestoreStaleness {
  import opened Wrappers
  import opened Reads
  import opened RestoreSpec
  import opened RestoreSnapshot
  import opened RestoreReaping
  import opened RestorePhases
  import opened RestoreTermination
  import RestoreOrdering

  // Every call succeeds, on live reads, and the plan is there.
  ghost predicate Healthy(plan: Plan, env: Env) {
    && env.gate.Open? && env.jobs.Live? && env.listing == Listed(Live) && !env.patchFails
    && env.getFails == {} && env.createFails == {} && env.plan == plan
  }

  // A reconcile on a copy of the status without any record, when no fetch Job is live: it creates one, says
  // StagingAPI, and records only what is live.
  lemma RestartsFromNothing(cfg: Config, plan: Plan, c: Cluster, rs: Status, env: Env)
    requires SpecProblem(cfg).None? && Healthy(plan, env) && !Terminal(rs.phase)
    requires rs.jobs == [] && cfg.names.fetch !in c.jobs
    ensures var after := Reconcile(cfg, c, rs, env).0;
            && after.jobs == c.jobs[cfg.names.fetch := NewJob(FetchStep(cfg))]
            && (rs.phase != StagingAPI ==> after.status.phase == StagingAPI)
            && after.status.jobs == Snapshot(cfg.name, [], after.jobs)
  {
    var steps := Steps(cfg, env.plan);
    assert Ensure(rs, c.jobs, env, steps[0].name).JobAbsent?;
    StopsAtAbsent(cfg, rs, c.jobs, env, FetchStep(cfg));
    EnsuringCreates(cfg, c, rs, env, FetchStep(cfg));
    RecordsStaging(cfg, Ensuring(cfg, c, rs, env), rs, env);
  }

  lemma EnsuringCreates(cfg: Config, c: Cluster, rs: Status, env: Env, step: Step)
    requires env.jobs.Live? && Creation(cfg, rs, c.jobs, env) == Some(step) && step.name !in c.jobs
    ensures Ensuring(cfg, c, rs, env).jobs == c.jobs[step.name := NewJob(step)]
    ensures Ensuring(cfg, c, rs, env).status == c.status
  {
  }

  lemma Patches(cfg: Config, c: Cluster, rs: Status, out: Outcome, env: Env)
    requires !env.patchFails && !out.Ignored? && !out.ApiFails? && Recorded(cfg, rs, out, env, c.jobs) != rs
    ensures Record(cfg, c, rs, out, env).0.status == MergeStatus(c.status, rs, Recorded(cfg, rs, out, env, c.jobs))
    ensures Record(cfg, c, rs, out, env).0.jobs == c.jobs
  {
  }

  lemma RecordsStaging(cfg: Config, c: Cluster, rs: Status, env: Env)
    requires env.listing == Listed(Live) && !env.patchFails && rs.jobs == [] && cfg.names.fetch in LabelledNames(c.jobs)
    ensures var after := Record(cfg, c, rs, Advances(StagingAPI), env).0;
            && after.jobs == c.jobs
            && (rs.phase != StagingAPI ==> after.status.phase == StagingAPI)
            && after.status.jobs == Snapshot(cfg.name, [], c.jobs)
  {
    NamesLabelled(cfg, c.jobs);
    var wanted := Recorded(cfg, rs, Advances(StagingAPI), env, c.jobs);
    assert wanted.jobs == Snapshot(cfg.name, [], c.jobs);
    assert cfg.names.fetch in KnownNames(wanted.jobs);
    Patches(cfg, c, rs, Advances(StagingAPI), env);
  }

  lemma NamesLabelled(cfg: Config, jobs: map<string, Job>)
    ensures KnownNames(Snapshot(cfg.name, [], jobs)) == LabelledNames(jobs)
  {
    SnapshotRemembers(cfg.name, [], jobs);
    assert KnownNames([]) == {};
  }

  // ---- the run ----------------------------------------------------------------------------------------------

  // Every live Job complete.
  function AllCompleted(jobs: map<string, Job>): map<string, Job> {
    map n | n in jobs :: jobs[n].(complete := true, failed := false)
  }

  function Settle(c: Cluster): Cluster {
    c.(jobs := AllCompleted(c.jobs))
  }

  // One smooth reconcile, after which its Job completes.
  ghost function Round(cfg: Config, c: Cluster, env: Env): Cluster {
    Settle(Next(cfg, c, Reconciles(env)))
  }

  lemma SettlingIsInterval(cfg: Config, plan: Plan, mid: Cluster)
    ensures Interval(cfg, plan, mid, Settle(mid)) && Settle(mid).jobs.Keys == mid.jobs.Keys
  {
  }

  lemma StartStands(cfg: Config, plan: Plan, c: Cluster)
    requires c.jobs == map[] && c.status == EMPTY_STATUS.(phase := New)
    ensures Standing(cfg, plan, c, 0)
  {
  }

  lemma RoundKeys(cfg: Config, plan: Plan, c: Cluster, m: nat, env: Env)
    requires plan.VolumePlan? && Standing(cfg, plan, c, m) && Healthy(plan, env) && SpecProblem(cfg).None?
    requires m < |Steps(cfg, plan)|
    ensures Next(cfg, c, Reconciles(env)).jobs.Keys == c.jobs.Keys + {Steps(cfg, plan)[m].name}
  {
    assert Smooth(cfg, plan, c, env);
    SmoothReconcile(cfg, plan, c, m, env);
  }

  // From m steps done to m + 1, with every done step's Job still live.
  lemma RoundStands(cfg: Config, plan: Plan, c: Cluster, m: nat, env: Env)
    requires plan.VolumePlan? && Standing(cfg, plan, c, m) && Healthy(plan, env) && SpecProblem(cfg).None?
    requires m < |Steps(cfg, plan)| && DistinctNames(Steps(cfg, plan))
    ensures Standing(cfg, plan, Round(cfg, c, env), m + 1)
    ensures Round(cfg, c, env).jobs.Keys == c.jobs.Keys + {Steps(cfg, plan)[m].name}
  {
    SettlingIsInterval(cfg, plan, Next(cfg, c, Reconciles(env)));
    RoundKeys(cfg, plan, c, m, env);
    OneFurther(cfg, plan, c, m, env, Round(cfg, c, env));
  }

  // A step done before a reconcile, with its Job live, is recorded complete by it.
  lemma RecordsDone(cfg: Config, plan: Plan, c: Cluster, m: nat, env: Env, name: string)
    requires plan.VolumePlan? && Standing(cfg, plan, c, m) && Healthy(plan, env) && SpecProblem(cfg).None?
    requires m < |Steps(cfg, plan)| && name != Steps(cfg, plan)[m].name && name in c.jobs && StepDone(c, name)
    ensures RecordedComplete(Next(cfg, c, Reconciles(env)).status, name)
    ensures name in KnownNames(Next(cfg, c, Reconciles(env)).status.jobs)
  {
    assert Smooth(cfg, plan, c, env);
    SmoothReconcile(cfg, plan, c, m, env);
    var next := Next(cfg, c, Reconciles(env));
    LiveGetsRecorded(cfg, c.status.jobs, next.jobs, name);
    RecordedIsKnown(next.status, name);
  }

  // Two rounds, a third reconcile, both finished Jobs reaped, and a reconcile on the very first copy.
  ghost predicate StepAt(cfg: Config, tr: seq<Cluster>, env: Env, i: nat)
    requires |tr| == 8 && i < 7
  {
    if i == 6 then tr[7] == Reconcile(cfg, tr[6], tr[0].status, env).0
    else if i == 5 then tr[6] == tr[5].(jobs := tr[5].jobs - {cfg.names.fetch, cfg.names.pre})
    else if i % 2 == 1 then tr[i + 1] == Settle(tr[i])
    else tr[i + 1] == Reconcile(cfg, tr[i], tr[i].status, env).0
  }

  ghost predicate StaleTrace(cfg: Config, tr: seq<Cluster>, env: Env) {
    |tr| == 8 && forall i: nat | i < 7 :: StepAt(cfg, tr, env, i)
  }

  ghost function Actions(tr: seq<Cluster>, env: Env): seq<RestoreOrdering.Action>
    requires |tr| == 8
  {
    seq(7, i requires 0 <= i < 7 =>
      if i == 6 then RestoreOrdering.Reconciled(tr[0].status, env)
      else if i % 2 == 1 then RestoreOrdering.Environment(tr[i + 1].jobs)
      else RestoreOrdering.Reconciled(tr[i].status, env))
  }

  lemma ReconcileMoves(cfg: Config, tr: seq<Cluster>, i: nat, k: nat, env: Env)
    requires i + 1 < |tr| && k <= i && env.jobs.Live? && env.listing == Listed(Live)
    requires tr[i + 1] == Reconcile(cfg, tr[i], tr[k].status, env).0
    ensures RestoreOrdering.Moves(cfg, tr, RestoreOrdering.Reconciled(tr[k].status, env), i)
  {
  }

  lemma MovesAt(cfg: Config, tr: seq<Cluster>, env: Env, i: nat)
    requires |tr| == 8 && i < 7 && StepAt(cfg, tr, env, i) && env.jobs.Live? && env.listing == Listed(Live)
    ensures RestoreOrdering.Moves(cfg, tr, Actions(tr, env)[i], i)
  {
    if i % 2 == 0 { ReconcileMoves(cfg, tr, i, if i == 6 then 0 else i, env); }
  }

  lemma TraceIsRun(cfg: Config, plan: Plan, tr: seq<Cluster>, env: Env)
    requires Healthy(plan, env) && StaleTrace(cfg, tr, env) && tr[0].status.jobs == []
    ensures RestoreOrdering.Run(cfg, tr, Actions(tr, env))
  {
    forall i: nat | i < 7 ensures RestoreOrdering.Moves(cfg, tr, Actions(tr, env)[i], i) {
      assert StepAt(cfg, tr, env, i);
      MovesAt(cfg, tr, env, i);
    }
  }

  // The plan has a volume to restore, and nothing stands in the way.
  ghost predicate Ready(cfg: Config, plan: Plan, env: Env) {
    && plan.VolumePlan? && |Steps(cfg, plan)| > 3 && DistinctNames(Steps(cfg, plan))
    && SpecProblem(cfg).None? && Healthy(plan, env)
  }

  lemma RoundFrom(cfg: Config, plan: Plan, c: Cluster, mid: Cluster, after: Cluster, env: Env, m: nat)
    requires Ready(cfg, plan, env) && m < 2 && Standing(cfg, plan, c, m)
    requires mid == Reconcile(cfg, c, c.status, env).0 && after == Settle(mid)
    ensures Standing(cfg, plan, after, m + 1)
    ensures after.jobs.Keys == c.jobs.Keys + {Steps(cfg, plan)[m].name}
  {
    assert after == Round(cfg, c, env);
    RoundStands(cfg, plan, c, m, env);
  }

  lemma SecondState(cfg: Config, plan: Plan, tr: seq<Cluster>, env: Env)
    requires Ready(cfg, plan, env) && StaleTrace(cfg, tr, env) && Standing(cfg, plan, tr[0], 0)
    ensures Standing(cfg, plan, tr[2], 1) && tr[2].jobs.Keys == tr[0].jobs.Keys + {cfg.names.fetch}
  {
    assert StepAt(cfg, tr, env, 0) && StepAt(cfg, tr, env, 1);
    RoundFrom(cfg, plan, tr[0], tr[1], tr[2], env, 0);
  }

  lemma FourthState(cfg: Config, plan: Plan, tr: seq<Cluster>, env: Env)
    requires Ready(cfg, plan, env) && StaleTrace(cfg, tr, env) && Standing(cfg, plan, tr[2], 1)
    ensures Standing(cfg, plan, tr[4], 2) && tr[4].jobs.Keys == tr[2].jobs.Keys + {cfg.names.pre}
  {
    assert StepAt(cfg, tr, env, 2) && StepAt(cfg, tr, env, 3);
    RoundFrom(cfg, plan, tr[2], tr[3], tr[4], env, 1);
  }

  lemma ThirdReconcile(cfg: Config, plan: Plan, c: Cluster, env: Env)
    requires Ready(cfg, plan, env) && Standing(cfg, plan, c, 2) && c.jobs.Keys == {cfg.names.fetch, cfg.names.pre}
    ensures var next := Next(cfg, c, Reconciles(env));
            && next.status.phase == RestoringVolumes
            && next.jobs.Keys == c.jobs.Keys + {Steps(cfg, plan)[2].name}
            && RecordedComplete(next.status, cfg.names.fetch) && RecordedComplete(next.status, cfg.names.pre)
            && cfg.names.fetch in KnownNames(next.status.jobs) && cfg.names.pre in KnownNames(next.status.jobs)
  {
    var steps := Steps(cfg, plan);
    assert StepDone(c, steps[0].name) && StepDone(c, steps[1].name);
    assert steps[0].name != steps[2].name && steps[1].name != steps[2].name;
    RecordsDone(cfg, plan, c, 2, env, steps[0].name);
    RecordsDone(cfg, plan, c, 2, env, steps[1].name);
    PhaseOfStep(cfg, plan, 2);
    assert Smooth(cfg, plan, c, env);
    SmoothReconcile(cfg, plan, c, 2, env);
  }

  lemma Restarts(cfg: Config, plan: Plan, c: Cluster, rs: Status, env: Env)
    requires Ready(cfg, plan, env) && rs.phase == New && rs.jobs == [] && c.jobs.Keys == {Steps(cfg, plan)[2].name}
    ensures var after := Reconcile(cfg, c, rs, env).0;
            && cfg.names.fetch !in c.jobs && cfg.names.fetch in after.jobs
            && after.status.phase == StagingAPI && cfg.names.pre !in KnownNames(after.status.jobs)
  {
    var steps := Steps(cfg, plan);
    assert steps[0].name != steps[2].name && steps[1].name != steps[2].name && steps[0].name != steps[1].name;
    RestartsFromNothing(cfg, plan, c, rs, env);
    NamesLabelled(cfg, Reconcile(cfg, c, rs, env).0.jobs);
  }

  // Nothing is left running but the volume Job; fetch and pre are recorded complete.
  ghost predicate Volumes(cfg: Config, c: Cluster) {
    && c.status.phase == RestoringVolumes
    && RecordedComplete(c.status, cfg.names.fetch) && RecordedComplete(c.status, cfg.names.pre)
    && cfg.names.fetch in KnownNames(c.status.jobs) && cfg.names.pre in KnownNames(c.status.jobs)
  }

  lemma FifthState(cfg: Config, plan: Plan, tr: seq<Cluster>, env: Env)
    requires Ready(cfg, plan, env) && StaleTrace(cfg, tr, env) && Standing(cfg, plan, tr[4], 2)
    requires tr[4].jobs.Keys == {cfg.names.fetch, cfg.names.pre}
    ensures Volumes(cfg, tr[5]) && tr[5].jobs.Keys == tr[4].jobs.Keys + {Steps(cfg, plan)[2].name}
  {
    assert StepAt(cfg, tr, env, 4);
    ThirdReconcile(cfg, plan, tr[4], env);
  }

  lemma Reaps(cfg: Config, c: Cluster, d: Cluster, name: string)
    requires name !in {cfg.names.fetch, cfg.names.pre}
    requires c.jobs.Keys == {cfg.names.fetch, cfg.names.pre} + {name}
    requires d == c.(jobs := c.jobs - {cfg.names.fetch, cfg.names.pre})
    ensures d.jobs.Keys == {name}
  {
  }

  lemma ThirdName(cfg: Config, plan: Plan, env: Env)
    requires Ready(cfg, plan, env)
    ensures Steps(cfg, plan)[2].name !in {cfg.names.fetch, cfg.names.pre}
  {
    var steps := Steps(cfg, plan);
    assert steps[0].name != steps[2].name && steps[1].name != steps[2].name;
  }

  lemma SixthState(cfg: Config, plan: Plan, tr: seq<Cluster>, env: Env)
    requires Ready(cfg, plan, env) && StaleTrace(cfg, tr, env) && Volumes(cfg, tr[5])
    requires tr[5].jobs.Keys == {cfg.names.fetch, cfg.names.pre} + {Steps(cfg, plan)[2].name}
    ensures Volumes(cfg, tr[6]) && tr[6].jobs.Keys == {Steps(cfg, plan)[2].name}
  {
    assert StepAt(cfg, tr, env, 5);
    ThirdName(cfg, plan, env);
    Reaps(cfg, tr[5], tr[6], Steps(cfg, plan)[2].name);
  }

  lemma SeventhState(cfg: Config, plan: Plan, tr: seq<Cluster>, env: Env)
    requires Ready(cfg, plan, env) && StaleTrace(cfg, tr, env)
    requires tr[6].jobs.Keys == {Steps(cfg, plan)[2].name} && tr[0].status == EMPTY_STATUS.(phase := New)
    ensures cfg.names.fetch !in tr[6].jobs && cfg.names.fetch in tr[7].jobs
    ensures tr[7].status.phase == StagingAPI && cfg.names.pre !in KnownNames(tr[7].status.jobs)
  {
    assert StepAt(cfg, tr, env, 6);
    Restarts(cfg, plan, tr[6], tr[0].status, env);
  }

  /** One copy older than the record is enough. In this run no call fails and every view of the Jobs is live; fetch and
      pre apply have completed, are recorded so, and are reaped; then one reconcile reads the status the run started
      with. It creates the fetch Job again, takes the restore from RestoringVolumes back to StagingAPI, and forgets
      that there was a pre-apply Job. */
  lemma OldCopyForgets(cfg: Config, plan: Plan, tr: seq<Cluster>, env: Env)
    requires plan.VolumePlan? && VolumeSteps(cfg, plan) != [] && DistinctNames(Steps(cfg, plan)) && SpecProblem(cfg).None?
    requires Healthy(plan, env) && StaleTrace(cfg, tr, env)
    requires tr[0].jobs == map[] && tr[0].status == EMPTY_STATUS.(phase := New)
    ensures RestoreOrdering.Run(cfg, tr, Actions(tr, env))
    ensures RecordedComplete(tr[6].status, cfg.names.fetch) && RecordedComplete(tr[6].status, cfg.names.pre)
    ensures cfg.names.fetch in KnownNames(tr[6].status.jobs) && cfg.names.pre in KnownNames(tr[6].status.jobs)
    ensures cfg.names.fetch !in tr[6].jobs && cfg.names.fetch in tr[7].jobs
    ensures cfg.names.pre !in KnownNames(tr[7].status.jobs)
    ensures tr[6].status.phase == RestoringVolumes && tr[7].status.phase == StagingAPI
  {
    StepCount(cfg, plan);
    TraceIsRun(cfg, plan, tr, env);
    StartStands(cfg, plan, tr[0]);
    SecondState(cfg, plan, tr, env);
    FourthState(cfg, plan, tr, env);
    FifthState(cfg, plan, tr, env);
    SixthState(cfg, plan, tr, env);
    SeventhState(cfg, plan, tr, env);
  }
}
