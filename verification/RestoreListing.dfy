/** RestoreListing: the working Job listing is needed for phases not to regress. A run in which every call succeeds
    but the listing goes back a phase. */
module RestoreListing {
  import opened Wrappers
  import opened CommandLines
  import opened RestoreSpec
  import opened RestoreReaping
  import opened RestorePhases
  import opened RestoreTermination

  // Every call succeeds except the listing.
  predicate Unlisted(env: Env) {
    env.gate.Open? && env.jobs.Live? && env.getFails == {} && env.createFails == {} && env.listing.ListFails? && !env.patchFails
  }

  lemma FirstAbsent(rs: Status, seen: map<string, Job>, env: Env, steps: seq<Step>, k: nat)
    requires Unlisted(env) && rs.jobs == [] && k < |steps| && steps[k].name !in seen
    requires forall i | 0 <= i < k :: steps[i].name in seen && Done(seen[steps[i].name])
    ensures FirstUndone(rs, seen, env, steps) == k && Ensure(rs, seen, env, steps[k].name).JobAbsent?
  {
    assert !Ensure(rs, seen, env, steps[k].name).JobDone?;
  }

  lemma SettlesAt(cfg: Config, c: Cluster, env: Env, k: nat)
    requires SpecProblem(cfg).None? && Unlisted(env) && !Terminal(c.status.phase)
    requires FirstUndone(c.status, c.jobs, env, Steps(cfg, env.plan)) == k < |Steps(cfg, env.plan)|
    requires Ensure(c.status, c.jobs, env, Steps(cfg, env.plan)[k].name).JobAbsent?
    ensures Decide(cfg, c.status, c.jobs, env) == Advances(Steps(cfg, env.plan)[k].phase)
    ensures Creation(cfg, c.status, c.jobs, env) == Some(Steps(cfg, env.plan)[k])
  {
  }

  // Without the listing nothing is ever recorded, and each reconcile creates the first step with no live Job.
  lemma CreatesUnlisted(cfg: Config, c: Cluster, env: Env, k: nat)
    requires SpecProblem(cfg).None? && Unlisted(env) && !Terminal(c.status.phase) && c.status.jobs == []
    requires k < |Steps(cfg, env.plan)| && Steps(cfg, env.plan)[k].name !in c.jobs
    requires forall i | 0 <= i < k :: Steps(cfg, env.plan)[i].name in c.jobs && Done(c.jobs[Steps(cfg, env.plan)[i].name])
    ensures var step := Steps(cfg, env.plan)[k];
            var next := Next(cfg, c, Reconciles(env));
            && next.jobs == c.jobs[step.name := NewJob(step)]
            && next.status.phase == step.phase && next.status.jobs == []
  {
    var steps := Steps(cfg, env.plan);
    FirstAbsent(c.status, c.jobs, env, steps, k);
    SettlesAt(cfg, c, env, k);
    CreationRecorded(cfg, c, env, steps[k]);
  }

  lemma CreationRecorded(cfg: Config, c: Cluster, env: Env, step: Step)
    requires Unlisted(env) && step.name !in c.jobs && c.status.jobs == []
    requires Creation(cfg, c.status, c.jobs, env) == Some(step)
    requires Decide(cfg, c.status, c.jobs, env) == Advances(step.phase)
    ensures var next := Next(cfg, c, Reconciles(env));
            && next.jobs == c.jobs[step.name := NewJob(step)]
            && next.status.phase == step.phase && next.status.jobs == []
  {
    EnsuringJobs(cfg, c, env);
    EnsuringKeepsStatus(cfg, c, env);
    UnlistedStatus(cfg, Ensuring(cfg, c, c.status, env), step.phase, env);
  }

  lemma UnlistedStatus(cfg: Config, c: Cluster, phase: Phase, env: Env)
    requires Unlisted(env) && c.status.jobs == []
    ensures var next := Record(cfg, c, c.status, Advances(phase), env).0;
            next.jobs == c.jobs && next.status.phase == phase && next.status.jobs == []
  {
  }

  // A Job as the cluster reports it once it has completed.
  const COMPLETED := Job(FetchWork("", ""), true, false, true)

  lemma {:induction false} FinalExtend(cfg: Config, c: Cluster, acts: seq<Action>, a: Action)
    ensures Final(cfg, c, acts + [a]) == Next(cfg, Final(cfg, c, acts), a)
    decreases |acts|
  {
    if acts == [] {
      assert Final(cfg, Next(cfg, c, a), []) == Next(cfg, c, a);
    } else {
      assert (acts + [a])[1..] == acts[1..] + [a];
      FinalExtend(cfg, Next(cfg, c, acts[0]), acts[1..], a);
    }
  }

  // After `acts` nothing is recorded, and the live Jobs are exactly `names`, all complete.
  ghost predicate Reached(cfg: Config, c: Cluster, acts: seq<Action>, phase: Phase, names: set<string>) {
    var d := Final(cfg, c, acts);
    && d.status.phase == phase && d.status.jobs == []
    && d.jobs.Keys == names && (forall n | n in names :: Done(d.jobs[n]))
  }

  // A reconcile creates step k.
  lemma Creates(cfg: Config, c: Cluster, acts: seq<Action>, env: Env, k: nat, phase: Phase, names: set<string>)
    requires SpecProblem(cfg).None? && Unlisted(env) && !Terminal(phase) && Reached(cfg, c, acts, phase, names)
    requires k < |Steps(cfg, env.plan)| && Steps(cfg, env.plan)[k].name !in names
    requires forall i | 0 <= i < k :: Steps(cfg, env.plan)[i].name in names
    ensures var d, step := Final(cfg, c, acts + [Reconciles(env)]), Steps(cfg, env.plan)[k];
            && d.status.phase == step.phase && d.status.jobs == []
            && d.jobs == Final(cfg, c, acts).jobs[step.name := NewJob(step)]
  {
    CreatesUnlisted(cfg, Final(cfg, c, acts), env, k);
    FinalExtend(cfg, c, acts, Reconciles(env));
  }

  // A reconcile creates step k, and the Job completes.
  lemma Completes(cfg: Config, c: Cluster, acts: seq<Action>, env: Env, k: nat, phase: Phase, names: set<string>)
    requires SpecProblem(cfg).None? && Unlisted(env) && !Terminal(phase) && Reached(cfg, c, acts, phase, names)
    requires k < |Steps(cfg, env.plan)| && Steps(cfg, env.plan)[k].name !in names
    requires forall i | 0 <= i < k :: Steps(cfg, env.plan)[i].name in names
    ensures var step := Steps(cfg, env.plan)[k];
            Reached(cfg, c, acts + [Reconciles(env)] + [Puts(step.name, COMPLETED)], step.phase, names + {step.name})
  {
    Creates(cfg, c, acts, env, k, phase, names);
    FinalExtend(cfg, c, acts + [Reconciles(env)], Puts(Steps(cfg, env.plan)[k].name, COMPLETED));
  }

  lemma Forgets(cfg: Config, c: Cluster, acts: seq<Action>, phase: Phase, names: set<string>, name: string)
    requires Reached(cfg, c, acts, phase, names)
    ensures Reached(cfg, c, acts + [Deletes(name)], phase, names - {name})
  {
    FinalExtend(cfg, c, acts, Deletes(name));
  }

  // A reconcile creates a Job, and it completes.
  function Round(env: Env, name: string): seq<Action> {
    [Reconciles(env)] + [Puts(name, COMPLETED)]
  }

  lemma CompletesRound(cfg: Config, c: Cluster, acts: seq<Action>, env: Env, k: nat, phase: Phase, names: set<string>)
    requires SpecProblem(cfg).None? && Unlisted(env) && !Terminal(phase) && Reached(cfg, c, acts, phase, names)
    requires k < |Steps(cfg, env.plan)| && Steps(cfg, env.plan)[k].name !in names
    requires forall i | 0 <= i < k :: Steps(cfg, env.plan)[i].name in names
    ensures var step := Steps(cfg, env.plan)[k];
            Reached(cfg, c, acts + Round(env, step.name), step.phase, names + {step.name})
  {
    Completes(cfg, c, acts, env, k, phase, names);
    var name := Steps(cfg, env.plan)[k].name;
    assert acts + Round(env, name) == acts + [Reconciles(env)] + [Puts(name, COMPLETED)];
  }

  // The first m steps, one round each.
  ghost function Rounds(cfg: Config, env: Env, m: nat): seq<Action>
    requires m <= |Steps(cfg, env.plan)|
  {
    if m == 0 then [] else Rounds(cfg, env, m - 1) + Round(env, Steps(cfg, env.plan)[m - 1].name)
  }

  ghost function NamesOf(steps: seq<Step>): set<string> {
    set s | s in steps :: s.name
  }

  lemma {:induction false} RoundsReach(cfg: Config, c: Cluster, env: Env, m: nat)
    requires SpecProblem(cfg).None? && Unlisted(env) && c.status.phase == New && c.status.jobs == [] && c.jobs == map[]
    requires m <= |Steps(cfg, env.plan)|
    requires forall i | 0 <= i < m :: !Terminal(Steps(cfg, env.plan)[i].phase)
    requires forall i, j | 0 <= i < j < m :: Steps(cfg, env.plan)[i].name != Steps(cfg, env.plan)[j].name
    ensures Reached(cfg, c, Rounds(cfg, env, m), if m == 0 then New else Steps(cfg, env.plan)[m - 1].phase,
                    NamesOf(Steps(cfg, env.plan)[..m]))
  {
    if m > 0 {
      var steps := Steps(cfg, env.plan);
      RoundsReach(cfg, c, env, m - 1);
      TakeNames(steps, m);
      CompletesRound(cfg, c, Rounds(cfg, env, m - 1), env, m - 1, if m == 1 then New else steps[m - 2].phase,
                     NamesOf(steps[..m - 1]));
    }
  }

  lemma TakeNames(steps: seq<Step>, m: nat)
    requires 0 < m <= |steps| && forall i, j | 0 <= i < j < m :: steps[i].name != steps[j].name
    ensures NamesOf(steps[..m]) == NamesOf(steps[..m - 1]) + {steps[m - 1].name}
    ensures steps[m - 1].name !in NamesOf(steps[..m - 1])
    ensures forall i | 0 <= i < m - 1 :: steps[i].name in NamesOf(steps[..m - 1])
  {
    assert steps[..m] == steps[..m - 1] + [steps[m - 1]];
    forall i | 0 <= i < m - 1 ensures steps[i].name in NamesOf(steps[..m - 1]) {
      assert steps[..m - 1][i] == steps[i];
    }
  }

  /** While the listing fails, a fetch Job that completes and is reaped is fetched again: under any plan with a volume
      to restore, the restore goes back from RestoringVolumes to StagingAPI. */
  lemma LostListingRegresses(cfg: Config, c: Cluster, env: Env)
    requires SpecProblem(cfg).None? && Unlisted(env)
    requires c.status.phase == New && c.status.jobs == [] && c.jobs == map[]
    requires env.plan.VolumePlan? && VolumeSteps(cfg, env.plan) != [] && DistinctNames(Steps(cfg, env.plan))
    ensures |Steps(cfg, env.plan)| > 3
    ensures var early := Rounds(cfg, env, 3);
            && Final(cfg, c, early).status.phase == RestoringVolumes
            && Final(cfg, c, early + [Deletes(cfg.names.fetch)] + [Reconciles(env)]).status.phase == StagingAPI
  {
    StepCount(cfg, env.plan);
    var f, early, names := cfg.names.fetch, Rounds(cfg, env, 3), NamesOf(Steps(cfg, env.plan)[..3]);
    ReachesVolumes(cfg, c, env);
    Forgets(cfg, c, early, RestoringVolumes, names, f);
    Creates(cfg, c, early + [Deletes(f)], env, 0, RestoringVolumes, names - {f});
  }

  lemma ReachesVolumes(cfg: Config, c: Cluster, env: Env)
    requires SpecProblem(cfg).None? && Unlisted(env)
    requires c.status.phase == New && c.status.jobs == [] && c.jobs == map[]
    requires env.plan.VolumePlan? && |Steps(cfg, env.plan)| > 3 && DistinctNames(Steps(cfg, env.plan))
    ensures Reached(cfg, c, Rounds(cfg, env, 3), RestoringVolumes, NamesOf(Steps(cfg, env.plan)[..3]))
  {
    var steps := Steps(cfg, env.plan);
    FirstPhases(cfg, env.plan);
    assert forall i, j | 0 <= i < j < 3 :: steps[i].name != steps[j].name;
    RoundsReach(cfg, c, env, 3);
  }

  lemma FirstPhases(cfg: Config, plan: Plan)
    requires plan.VolumePlan? && |Steps(cfg, plan)| > 3
    ensures Steps(cfg, plan)[2].phase == RestoringVolumes
    ensures forall i | 0 <= i < 3 :: !Terminal(Steps(cfg, plan)[i].phase)
  {
    forall i: nat | i < 3 ensures !Terminal(Steps(cfg, plan)[i].phase) {
      PhaseOfStep(cfg, plan, i);
    }
    PhaseOfStep(cfg, plan, 2);
  }
}
