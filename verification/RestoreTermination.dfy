/** RestoreTermination: when nothing goes wrong a restore is Completed by exactly its (4 + k)-th reconcile, k the
    number of planned nodes, even if finished Jobs it has recorded are reaped on the way. */
module RestoreTermination {
  import opened Wrappers
  import opened Reads
  import opened RestoreSpec
  import opened RestoreSnapshot
  import opened RestoreReaping
  import opened RestorePhases

  // Gates pass, reads are fresh, no call fails, and the plan is there once the fetch is done.
  ghost predicate Smooth(cfg: Config, plan: Plan, c: Cluster, env: Env) {
    && env.gate.Open? && env.jobs.Live? && env.listing == Listed(Live) && !env.patchFails
    && env.getFails == {} && env.createFails == {}
    && (Ensure(c.status, c.jobs, env, cfg.names.fetch).JobDone? ==> env.plan == plan)
  }

  // Between two reconciles every pipeline Job completes; only one already recorded complete may be reaped.
  ghost predicate Interval(cfg: Config, plan: Plan, a: Cluster, b: Cluster) {
    && b.status == a.status && b.log == a.log && b.adopted == a.adopted
    && forall n | InPipeline(cfg, plan, n) ::
         && (n in b.jobs ==> n in a.jobs && b.jobs[n].labelled == a.jobs[n].labelled && Done(b.jobs[n]))
         && (n in a.jobs && n !in b.jobs ==> Done(a.jobs[n]) && RecordedComplete(a.status, n))
  }

  ghost predicate DistinctNames(steps: seq<Step>) {
    forall i, j | 0 <= i < j < |steps| :: steps[i].name != steps[j].name
  }

  // The first m steps are done, and nothing is known of the others.
  ghost predicate Standing(cfg: Config, plan: Plan, c: Cluster, m: nat) {
    var steps := Steps(cfg, plan);
    && m <= |steps| && !Terminal(c.status.phase) && Orderly(cfg.name, c.status.jobs)
    && (forall i | 0 <= i < m :: StepDone(c, steps[i].name))
    && (forall i | m <= i < |steps| :: steps[i].name !in c.jobs && !KnownJob(c.status, steps[i].name))
  }

  ghost predicate StepDone(c: Cluster, name: string) {
    if name in c.jobs then c.jobs[name].labelled && Done(c.jobs[name]) else RecordedComplete(c.status, name)
  }

  ghost predicate Run(cfg: Config, plan: Plan, tr: seq<Cluster>, envs: seq<Env>) {
    && |tr| == |envs| + 1
    && Standing(cfg, plan, tr[0], 0)
    && forall i | 0 <= i < |envs| :: Smooth(cfg, plan, tr[i], envs[i]) && Follows(cfg, plan, tr[i], envs[i], tr[i + 1])
  }

  ghost predicate Follows(cfg: Config, plan: Plan, c: Cluster, env: Env, next: Cluster) {
    Interval(cfg, plan, Next(cfg, c, Reconciles(env)), next)
  }

  // ---- one reconcile ------------------------------------------------------------------------------------------

  lemma StandingEnsures(cfg: Config, plan: Plan, c: Cluster, m: nat, env: Env, i: nat)
    requires Standing(cfg, plan, c, m) && env.getFails == {} && env.createFails == {} && i < |Steps(cfg, plan)|
    ensures Ensure(c.status, c.jobs, env, Steps(cfg, plan)[i].name) == if i < m then JobDone else JobAbsent
  {
    var name := Steps(cfg, plan)[i].name;
    if i < m {
      assert StepDone(c, name);
      if name !in c.jobs { RecordedIsKnown(c.status, name); }
    }
  }

  // Whatever plan was read, the walk stops at step m.
  lemma StandsAt(cfg: Config, plan: Plan, c: Cluster, m: nat, env: Env)
    requires plan.VolumePlan? && Standing(cfg, plan, c, m) && Smooth(cfg, plan, c, env)
    ensures FirstUndone(c.status, c.jobs, env, Steps(cfg, env.plan)) == m
    ensures m > 0 ==> env.plan == plan
    ensures m < |Steps(cfg, plan)| ==>
              && m < |Steps(cfg, env.plan)| && Steps(cfg, env.plan)[m] == Steps(cfg, plan)[m]
              && Ensure(c.status, c.jobs, env, Steps(cfg, plan)[m].name).JobAbsent?
  {
    StandingEnsures(cfg, plan, c, m, env, 0);
    if m > 0 {
      AllBefore(cfg, plan, c, m, env);
    }
  }

  lemma UndoneAt(rs: Status, seen: map<string, Job>, env: Env, steps: seq<Step>, m: nat)
    requires m <= |steps|
    requires forall i | 0 <= i < |steps| :: Ensure(rs, seen, env, steps[i].name) == if i < m then JobDone else JobAbsent
    ensures FirstUndone(rs, seen, env, steps) == m
  {
    var u := FirstUndone(rs, seen, env, steps);
    if u < |steps| { assert Ensure(rs, seen, env, steps[u].name).JobDone? <==> u < m; }
    if m < |steps| { assert Ensure(rs, seen, env, steps[m].name).JobAbsent?; }
  }

  lemma AllBefore(cfg: Config, plan: Plan, c: Cluster, m: nat, env: Env)
    requires plan.VolumePlan? && Standing(cfg, plan, c, m) && env.getFails == {} && env.createFails == {}
    ensures FirstUndone(c.status, c.jobs, env, Steps(cfg, plan)) == m
    ensures m < |Steps(cfg, plan)| ==> Ensure(c.status, c.jobs, env, Steps(cfg, plan)[m].name).JobAbsent?
  {
    var steps := Steps(cfg, plan);
    forall i | 0 <= i < |steps|
      ensures Ensure(c.status, c.jobs, env, steps[i].name) == if i < m then JobDone else JobAbsent
    {
      StandingEnsures(cfg, plan, c, m, env, i);
    }
    UndoneAt(c.status, c.jobs, env, steps, m);
  }

  // Where the walk stops decides what a reconcile that passed the gates does.
  lemma StopsAtAbsent(cfg: Config, rs: Status, seen: map<string, Job>, env: Env, step: Step)
    requires Runs(cfg, rs, env)
    requires var k := FirstUndone(rs, seen, env, Steps(cfg, env.plan));
             k < |Steps(cfg, env.plan)| && Steps(cfg, env.plan)[k] == step && Ensure(rs, seen, env, step.name).JobAbsent?
    ensures Decide(cfg, rs, seen, env) == Advances(step.phase)
    ensures Creation(cfg, rs, seen, env) == Some(step)
  {
  }

  lemma RunsToTheEnd(cfg: Config, rs: Status, seen: map<string, Job>, env: Env)
    requires Runs(cfg, rs, env) && env.plan.VolumePlan?
    requires FirstUndone(rs, seen, env, Steps(cfg, env.plan)) == |Steps(cfg, env.plan)|
    ensures Decide(cfg, rs, seen, env).Finishes?
    ensures Creation(cfg, rs, seen, env).None?
  {
    WalksToTheEnd(cfg, rs, seen, env);
    DecideIsWalk(cfg, rs, seen, env);
  }

  lemma WalksToTheEnd(cfg: Config, rs: Status, seen: map<string, Job>, env: Env)
    requires FirstUndone(rs, seen, env, Steps(cfg, env.plan)) == |Steps(cfg, env.plan)|
    ensures Walk(cfg, rs, seen, env) == Tail(env.plan)
    ensures Creation(cfg, rs, seen, env).None?
  {
  }

  lemma StandingDecides(cfg: Config, plan: Plan, c: Cluster, m: nat, env: Env)
    requires plan.VolumePlan? && Standing(cfg, plan, c, m) && Smooth(cfg, plan, c, env) && SpecProblem(cfg).None?
    ensures m < |Steps(cfg, plan)| ==>
              && Decide(cfg, c.status, c.jobs, env) == Advances(Steps(cfg, plan)[m].phase)
              && Creation(cfg, c.status, c.jobs, env) == Some(Steps(cfg, plan)[m])
    ensures m == |Steps(cfg, plan)| ==>
              Decide(cfg, c.status, c.jobs, env).Finishes? && Creation(cfg, c.status, c.jobs, env).None?
  {
    StandsAt(cfg, plan, c, m, env);
    if m < |Steps(cfg, plan)| {
      StopsAtAbsent(cfg, c.status, c.jobs, env, Steps(cfg, plan)[m]);
    } else {
      RunsToTheEnd(cfg, c.status, c.jobs, env);
    }
  }

  // What a smooth reconcile leaves behind.
  lemma SmoothReconcile(cfg: Config, plan: Plan, c: Cluster, m: nat, env: Env)
    requires plan.VolumePlan? && Standing(cfg, plan, c, m) && Smooth(cfg, plan, c, env) && SpecProblem(cfg).None?
    ensures var next := Next(cfg, c, Reconciles(env));
            var steps := Steps(cfg, plan);
            && next.jobs == (if m < |steps| then c.jobs[steps[m].name := NewJob(steps[m])] else c.jobs)
            && next.status.phase == (if m < |steps| then steps[m].phase else Completed)
            && next.status.jobs == Snapshot(cfg.name, c.status.jobs, next.jobs)
  {
    StandingDecides(cfg, plan, c, m, env);
    EnsuringJobs(cfg, c, env);
    EnsuringKeepsStatus(cfg, c, env);
    PatchedWhole(cfg, Ensuring(cfg, c, c.status, env), Decide(cfg, c.status, c.jobs, env), env);
  }

  // ---- the next interval ------------------------------------------------------------------------------------

  lemma Unknown(cfg: Config, recorded: seq<JobEntry>, live: map<string, Job>, name: string)
    requires Orderly(cfg.name, recorded) && name !in live && name !in KnownNames(recorded)
    ensures !KnownJob(EMPTY_STATUS.(jobs := Snapshot(cfg.name, recorded, live)), name)
  {
    SnapshotRemembers(cfg.name, recorded, live);
    assert name !in KnownNames(Snapshot(cfg.name, recorded, live));
  }

  // The status after a reconcile over the first m steps, once the interval is over.
  ghost predicate Advanced(cfg: Config, plan: Plan, c: Cluster, m: nat, mid: Cluster)
    requires m < |Steps(cfg, plan)|
  {
    && mid.jobs == c.jobs[Steps(cfg, plan)[m].name := NewJob(Steps(cfg, plan)[m])]
    && mid.status.phase == Steps(cfg, plan)[m].phase
    && mid.status.jobs == Snapshot(cfg.name, c.status.jobs, mid.jobs)
  }

  lemma DoneSurvives(cfg: Config, plan: Plan, c: Cluster, m: nat, mid: Cluster, next: Cluster, i: nat)
    requires Standing(cfg, plan, c, m) && m < |Steps(cfg, plan)| && DistinctNames(Steps(cfg, plan))
    requires Advanced(cfg, plan, c, m, mid) && Interval(cfg, plan, mid, next) && i <= m
    ensures StepDone(next, Steps(cfg, plan)[i].name)
  {
    var steps := Steps(cfg, plan);
    var name := steps[i].name;
    assert steps[i] in steps;
    assert InPipeline(cfg, plan, name);
    if name !in mid.jobs {
      assert i < m && StepDone(c, name);
      StaysRecorded(cfg, c.(jobs := mid.jobs), name);
    } else {
      assert mid.jobs[name].labelled by {
        if i < m { assert StepDone(c, name) && name != steps[m].name; }
      }
    }
  }

  lemma UnknownSurvives(cfg: Config, plan: Plan, c: Cluster, m: nat, mid: Cluster, next: Cluster, i: nat)
    requires Standing(cfg, plan, c, m) && m < i < |Steps(cfg, plan)| && DistinctNames(Steps(cfg, plan))
    requires Advanced(cfg, plan, c, m, mid) && Interval(cfg, plan, mid, next)
    ensures Steps(cfg, plan)[i].name !in next.jobs && !KnownJob(next.status, Steps(cfg, plan)[i].name)
  {
    var steps := Steps(cfg, plan);
    var name := steps[i].name;
    assert steps[i] in steps;
    assert InPipeline(cfg, plan, name);
    assert name != steps[m].name;
    assert name !in KnownNames(c.status.jobs);
    Unknown(cfg, c.status.jobs, mid.jobs, name);
  }

  lemma StandsNext(cfg: Config, plan: Plan, c: Cluster, m: nat, mid: Cluster, next: Cluster)
    requires plan.VolumePlan? && Standing(cfg, plan, c, m) && m < |Steps(cfg, plan)| && DistinctNames(Steps(cfg, plan))
    requires Advanced(cfg, plan, c, m, mid) && Interval(cfg, plan, mid, next)
    ensures Standing(cfg, plan, next, m + 1)
  {
    var steps := Steps(cfg, plan);
    PhaseOfStep(cfg, plan, m);
    StepCount(cfg, plan);
    SnapshotOrderly(cfg.name, c.status.jobs, mid.jobs);
    forall i | 0 <= i < m + 1 ensures StepDone(next, steps[i].name) {
      DoneSurvives(cfg, plan, c, m, mid, next, i);
    }
    forall i | m + 1 <= i < |steps| ensures steps[i].name !in next.jobs && !KnownJob(next.status, steps[i].name) {
      UnknownSurvives(cfg, plan, c, m, mid, next, i);
    }
  }

  lemma OneFurther(cfg: Config, plan: Plan, c: Cluster, m: nat, env: Env, next: Cluster)
    requires plan.VolumePlan? && Standing(cfg, plan, c, m) && Smooth(cfg, plan, c, env) && SpecProblem(cfg).None?
    requires m < |Steps(cfg, plan)| && DistinctNames(Steps(cfg, plan)) && Follows(cfg, plan, c, env, next)
    ensures Standing(cfg, plan, next, m + 1)
  {
    SmoothReconcile(cfg, plan, c, m, env);
    StandsNext(cfg, plan, c, m, Next(cfg, c, Reconciles(env)), next);
  }

  // ---- the whole run -------------------------------------------------------------------------------------------

  lemma {:induction false} StandsAfter(cfg: Config, plan: Plan, tr: seq<Cluster>, envs: seq<Env>, m: nat)
    requires plan.VolumePlan? && SpecProblem(cfg).None? && DistinctNames(Steps(cfg, plan)) && Run(cfg, plan, tr, envs)
    requires m <= |envs| && m <= |Steps(cfg, plan)|
    ensures Standing(cfg, plan, tr[m], m)
  {
    if m > 0 {
      StandsAfter(cfg, plan, tr, envs, m - 1);
      OneFurther(cfg, plan, tr[m - 1], m - 1, envs[m - 1], tr[m]);
    }
  }

  /** Termination. Reconcile number m + 1 creates the m-th pipeline Job and leaves the restore in that Job's phase;
      with k planned nodes the (4 + k)-th one, and no earlier one, completes it. */
  lemma CompletesExactly(cfg: Config, plan: Plan, tr: seq<Cluster>, envs: seq<Env>, m: nat)
    requires plan.VolumePlan? && SpecProblem(cfg).None? && DistinctNames(Steps(cfg, plan)) && Run(cfg, plan, tr, envs)
    requires m < |envs| && m < 4 + |PlanNodes(plan.docs, plan.fallback, plan.pvcs)|
    ensures |Steps(cfg, plan)| == 3 + |PlanNodes(plan.docs, plan.fallback, plan.pvcs)|
    ensures var after := Next(cfg, tr[m], Reconciles(envs[m]));
            if m < |Steps(cfg, plan)| then
              && Steps(cfg, plan)[m].name !in tr[m].jobs
              && after.jobs == tr[m].jobs[Steps(cfg, plan)[m].name := NewJob(Steps(cfg, plan)[m])]
              && after.status.phase == Steps(cfg, plan)[m].phase && !Terminal(after.status.phase)
            else after.status.phase == Completed && after.jobs == tr[m].jobs
  {
    StepCount(cfg, plan);
    StandsAfter(cfg, plan, tr, envs, m);
    SmoothReconcile(cfg, plan, tr[m], m, envs[m]);
    if m < |Steps(cfg, plan)| { PhaseOfStep(cfg, plan, m); }
  }
}
