/** RestorePhases: the phase of a restore never goes back, whichever status patches are lost, as long as reads are
    fresh, the Job listing works, finished Jobs stay finished and the fetched plan stays what it was. */
module RestorePhases {
  import opened Wrappers
  import opened RestoreSpec
  import opened RestoreSnapshot
  import opened RestoreReaping

  function Rank(p: Phase): nat {
    match p
    case Unset => 0
    case New => 0
    case StagingAPI => 1
    case RestoringVolumes => 2
    case ApplyingWorkloads => 3
    case Completed => 4
    case Failed => 4
  }

  ghost predicate InPipeline(cfg: Config, plan: Plan, name: string) {
    exists s | s in Steps(cfg, plan) :: s.name == name
  }

  // The plan a reconcile reads: `plan` once it is there and the nodes can be listed, nothing before.
  predicate Reaches(plan: Plan, got: Plan) {
    got == plan || got.PlanUnread? || got.PlanMissing? || got.PlanNodesFail?
  }

  // The reconciles may see every call fail but the reads' freshness and the listing; the environment may delete
  // any Job, fail it or complete it, but never revives a pipeline Job, strips its label or undoes its completion.
  ghost predicate Lawful(cfg: Config, plan: Plan, c: Cluster, a: Action) {
    match a
    case Reconciles(env) => Fresh(env) && env.listing.Listed? && Reaches(plan, env.plan)
    case Puts(name, job) =>
      InPipeline(cfg, plan, name) ==>
        name in c.jobs && job.labelled && (Done(c.jobs[name]) ==> Done(job))
    case Deletes(_) => true
  }

  ghost predicate Run(cfg: Config, plan: Plan, tr: seq<Cluster>, acts: seq<Action>) {
    && |tr| == |acts| + 1
    && Start(cfg, plan, tr[0])
    && forall i | 0 <= i < |acts| :: Lawful(cfg, plan, tr[i], acts[i]) && tr[i + 1] == Next(cfg, tr[i], acts[i])
  }

  ghost predicate Start(cfg: Config, plan: Plan, c: Cluster) {
    && Present(plan)
    && (c.status.phase == Unset || c.status.phase == New) && c.status.jobs == []
    && forall n | n in c.jobs :: !InPipeline(cfg, plan, n)
  }

  // ---- the invariant ---------------------------------------------------------------------------------------

  ghost predicate AllRecorded(rs: Status, steps: seq<Step>) {
    forall i | 0 <= i < |steps| :: RecordedComplete(rs, steps[i].name)
  }

  // Live pipeline Jobs are labelled, and complete if recorded so.
  ghost predicate Sound(cfg: Config, plan: Plan, c: Cluster) {
    forall n | n in c.jobs && InPipeline(cfg, plan, n) ::
      c.jobs[n].labelled && (RecordedComplete(c.status, n) ==> Done(c.jobs[n]))
  }

  // The steps a phase has behind it.
  ghost function Behind(cfg: Config, plan: Plan, phase: Phase): nat {
    if phase == RestoringVolumes then 2
    else if phase == ApplyingWorkloads then |Steps(cfg, plan)| - 1
    else 0
  }

  ghost predicate Inv(cfg: Config, plan: Plan, c: Cluster) {
    && Present(plan)
    && Orderly(cfg.name, c.status.jobs)
    && Sound(cfg, plan, c)
    && Behind(cfg, plan, c.status.phase) <= |Steps(cfg, plan)|
    && AllRecorded(c.status, Steps(cfg, plan)[..Behind(cfg, plan, c.status.phase)])
    && (c.status.phase == ApplyingWorkloads ==> plan.VolumePlan?)
  }

  // ---- the pipeline's shape ---------------------------------------------------------------------------------

  lemma ReadsPrefix(cfg: Config, plan: Plan, got: Plan)
    requires Present(plan) && Reaches(plan, got)
    ensures Steps(cfg, got) <= Steps(cfg, plan)
  {
  }

  lemma PhaseOfStep(cfg: Config, plan: Plan, k: nat)
    requires k < |Steps(cfg, plan)|
    ensures var phase := Steps(cfg, plan)[k].phase;
            && (k < 2 ==> phase == StagingAPI)
            && (k >= 2 ==> plan.VolumePlan?)
            && (2 <= k < |Steps(cfg, plan)| - 1 ==> phase == RestoringVolumes)
            && (k >= 2 && k == |Steps(cfg, plan)| - 1 ==> phase == ApplyingWorkloads)
  {
    if plan.VolumePlan? {
      VolumePhases(cfg, plan, [FetchStep(cfg), PreStep(cfg)], VolumeSteps(cfg, plan), WorkloadStep(cfg), k);
    }
  }

  lemma VolumePhases(cfg: Config, plan: Plan, head: seq<Step>, mid: seq<Step>, last: Step, k: nat)
    requires |head| == 2 && head[0].phase == StagingAPI && head[1].phase == StagingAPI
    requires forall i | 0 <= i < |mid| :: mid[i].phase == RestoringVolumes
    requires last.phase == ApplyingWorkloads
    requires k < |mid| + 3
    ensures |head + mid + [last]| == |mid| + 3
    ensures (head + mid + [last])[k].phase ==
            if k < 2 then StagingAPI else if k < |mid| + 2 then RestoringVolumes else ApplyingWorkloads
  {
  }

  // Every phase a step announces has only earlier steps behind it, and no later phase has.
  lemma BehindStep(cfg: Config, plan: Plan, k: nat, current: Phase)
    requires Present(plan) && k < |Steps(cfg, plan)|
    requires !Terminal(current) && Behind(cfg, plan, current) <= k
    requires current == ApplyingWorkloads ==> plan.VolumePlan?
    ensures var phase := Steps(cfg, plan)[k].phase;
            && Behind(cfg, plan, phase) <= k
            && (phase == ApplyingWorkloads ==> plan.VolumePlan?)
            && Rank(current) <= Rank(phase) < 4
  {
    PhaseOfStep(cfg, plan, k);
    if plan.VolumePlan? { StepCount(cfg, plan); }
  }

  lemma StepCount(cfg: Config, plan: Plan)
    requires plan.VolumePlan?
    ensures |Steps(cfg, plan)| == |VolumeSteps(cfg, plan)| + 3
  {
  }

  // ---- one reconcile ------------------------------------------------------------------------------------------

  // A recorded pipeline Job counts as done, or its read fails.
  lemma RecordedCountsDone(cfg: Config, plan: Plan, c: Cluster, env: Env, name: string)
    requires Sound(cfg, plan, c) && InPipeline(cfg, plan, name) && RecordedComplete(c.status, name)
    ensures var e := Ensure(c.status, c.jobs, env, name); e.JobDone? || e.EnsureFails?
  {
    RecordedIsKnown(c.status, name);
  }

  // The first step that is not done lies past every recorded one, unless the reconcile fails.
  lemma UndoneIsPast(cfg: Config, plan: Plan, c: Cluster, env: Env, k: nat)
    requires Inv(cfg, plan, c) && Reaches(plan, env.plan)
    requires k == FirstUndone(c.status, c.jobs, env, Steps(cfg, env.plan)) && k < |Steps(cfg, env.plan)|
    requires !Ensure(c.status, c.jobs, env, Steps(cfg, env.plan)[k].name).EnsureFails?
    ensures Behind(cfg, plan, c.status.phase) <= k < |Steps(cfg, plan)|
    ensures Steps(cfg, env.plan)[k] == Steps(cfg, plan)[k]
  {
    ReadsPrefix(cfg, plan, env.plan);
    var steps := Steps(cfg, plan);
    var s := Steps(cfg, env.plan)[k];
    assert s == steps[k];
    if k < Behind(cfg, plan, c.status.phase) {
      assert steps[..Behind(cfg, plan, c.status.phase)][k] == s;
      assert s in steps;
      RecordedCountsDone(cfg, plan, c, env, s.name);
      assert false;
    }
  }

  lemma EnsuringJobs(cfg: Config, c: Cluster, env: Env)
    requires env.jobs.Live?
    ensures var after := Ensuring(cfg, c, c.status, env).jobs;
            var creation := Creation(cfg, c.status, c.jobs, env);
            if creation.Some? && creation.value.name !in c.jobs
            then after == c.jobs[creation.value.name := NewJob(creation.value)] else after == c.jobs
  {
  }

  lemma CreationUnknown(cfg: Config, c: Cluster, env: Env)
    requires Creation(cfg, c.status, c.jobs, env).Some?
    ensures var s := Creation(cfg, c.status, c.jobs, env).value;
            s.name !in c.jobs && !KnownJob(c.status, s.name) && s in Steps(cfg, env.plan)
  {
  }

  // A step that counts as done is recorded complete by the snapshot the reconcile takes.
  lemma DoneGetsRecorded(cfg: Config, plan: Plan, c: Cluster, env: Env, name: string)
    requires Inv(cfg, plan, c) && Fresh(env) && InPipeline(cfg, plan, name)
    requires Ensure(c.status, c.jobs, env, name).JobDone?
    ensures var live := Ensuring(cfg, c, c.status, env).jobs;
            RecordedState(Snapshot(cfg.name, c.status.jobs, live), name) == Some(Complete)
  {
    var live := Ensuring(cfg, c, c.status, env).jobs;
    EnsuringJobs(cfg, c, env);
    if Creation(cfg, c.status, c.jobs, env).Some? { CreationUnknown(cfg, c, env); }
    if name in c.jobs {
      assert live[name] == c.jobs[name];
      LiveGetsRecorded(cfg, c.status.jobs, live, name);
    } else {
      RecordedIsKnown(c.status, name);
      StaysRecorded(cfg, c.(jobs := live), name);
    }
  }

  lemma LiveGetsRecorded(cfg: Config, recorded: seq<JobEntry>, live: map<string, Job>, name: string)
    requires Orderly(cfg.name, recorded) && name in live && live[name].labelled && Done(live[name])
    ensures RecordedState(Snapshot(cfg.name, recorded, live), name) == Some(Complete)
  {
    SnapshotRemembers(cfg.name, recorded, live);
    SnapshotSorted(cfg.name, recorded, live);
    RecordedStateOf(Snapshot(cfg.name, recorded, live), LiveEntry(cfg.name, name, live[name]));
  }

  // What a snapshot records complete about a live labelled Job is true of it.
  lemma SnapshotIsSound(cfg: Config, recorded: seq<JobEntry>, live: map<string, Job>, name: string)
    requires Orderly(cfg.name, recorded) && name in live && live[name].labelled
    requires RecordedState(Snapshot(cfg.name, recorded, live), name) == Some(Complete)
    ensures Done(live[name])
  {
    SnapshotRemembers(cfg.name, recorded, live);
    SnapshotSorted(cfg.name, recorded, live);
    RecordedStateOf(Snapshot(cfg.name, recorded, live), LiveEntry(cfg.name, name, live[name]));
  }

  // The ensure calls keep live pipeline Jobs labelled, and recorded ones complete.
  lemma EnsuringSound(cfg: Config, plan: Plan, c: Cluster, env: Env)
    requires Inv(cfg, plan, c) && Fresh(env) && Reaches(plan, env.plan)
    ensures Sound(cfg, plan, Ensuring(cfg, c, c.status, env))
  {
    EnsuringJobs(cfg, c, env);
    EnsuringKeepsStatus(cfg, c, env);
    if Creation(cfg, c.status, c.jobs, env).Some? {
      CreationUnknown(cfg, c, env);
      var s := Creation(cfg, c.status, c.jobs, env).value;
      if RecordedComplete(c.status, s.name) { RecordedIsKnown(c.status, s.name); }
    }
  }

  lemma PatchedWhole(cfg: Config, c: Cluster, out: Outcome, env: Env)
    requires !env.patchFails && !out.Ignored? && !out.ApiFails?
    ensures Record(cfg, c, c.status, out, env).0.status == Recorded(cfg, c.status, out, env, c.jobs)
    ensures Record(cfg, c, c.status, out, env).0.jobs == c.jobs
  {
  }

  // The status after: the old one, or what the reconcile wanted to record.
  lemma RecordStatus(cfg: Config, c: Cluster, out: Outcome, env: Env)
    requires Fresh(env) && env.listing.Listed?
    ensures var after := Record(cfg, c, c.status, out, env).0;
            && after.jobs == c.jobs
            && (after.status == c.status
                || (!out.Ignored? && !out.ApiFails?
                    && after.status.phase == OutcomePhase(c.status, out)
                    && after.status.jobs == if out.Holds? then c.status.jobs else Snapshot(cfg.name, c.status.jobs, c.jobs)))
  {
    if !env.patchFails && !out.Ignored? && !out.ApiFails? { PatchedWhole(cfg, c, out, env); }
  }

  lemma DecideIsWalk(cfg: Config, rs: Status, seen: map<string, Job>, env: Env)
    requires Runs(cfg, rs, env)
    ensures Decide(cfg, rs, seen, env) == Walk(cfg, rs, seen, env)
  {
  }

  lemma AdvanceIsSettle(cfg: Config, rs: Status, seen: map<string, Job>, env: Env, k: nat)
    requires Decide(cfg, rs, seen, env).Advances?
    requires k == FirstUndone(rs, seen, env, Steps(cfg, env.plan))
    ensures !Terminal(rs.phase)
    ensures k < |Steps(cfg, env.plan)| && Steps(cfg, env.plan)[k].phase == Decide(cfg, rs, seen, env).phase
    ensures !Ensure(rs, seen, env, Steps(cfg, env.plan)[k].name).EnsureFails?
  {
  }

  // An advancing reconcile stands at the announced phase's steps, past the ones recorded.
  lemma AdvanceStands(cfg: Config, plan: Plan, c: Cluster, env: Env, phase: Phase, k: nat)
    requires Inv(cfg, plan, c) && Reaches(plan, env.plan)
    requires Decide(cfg, c.status, c.jobs, env) == Advances(phase)
    requires k == FirstUndone(c.status, c.jobs, env, Steps(cfg, env.plan))
    ensures k < |Steps(cfg, env.plan)| && Steps(cfg, env.plan) <= Steps(cfg, plan)
    ensures Behind(cfg, plan, phase) <= k
    ensures phase == ApplyingWorkloads ==> plan.VolumePlan?
    ensures Rank(c.status.phase) <= Rank(phase) < 4
  {
    AdvanceIsSettle(cfg, c.status, c.jobs, env, k);
    UndoneIsPast(cfg, plan, c, env, k);
    BehindStep(cfg, plan, k, c.status.phase);
    ReadsPrefix(cfg, plan, env.plan);
  }

  // What an advancing reconcile has behind it gets recorded.
  lemma AdvanceRecords(cfg: Config, plan: Plan, c: Cluster, env: Env, phase: Phase, k: nat)
    requires Inv(cfg, plan, c) && Fresh(env) && Steps(cfg, env.plan) <= Steps(cfg, plan)
    requires k == FirstUndone(c.status, c.jobs, env, Steps(cfg, env.plan)) && Behind(cfg, plan, phase) <= k
    ensures AllRecorded(c.status.(jobs := Snapshot(cfg.name, c.status.jobs, Ensuring(cfg, c, c.status, env).jobs)),
                        Steps(cfg, plan)[..Behind(cfg, plan, phase)])
  {
    var steps := Steps(cfg, plan);
    var behind := steps[..Behind(cfg, plan, phase)];
    forall i | 0 <= i < |behind|
      ensures RecordedState(Snapshot(cfg.name, c.status.jobs, Ensuring(cfg, c, c.status, env).jobs), behind[i].name) == Some(Complete)
    {
      assert Steps(cfg, env.plan)[i] == steps[i] == behind[i];
      DoneGetsRecorded(cfg, plan, c, env, steps[i].name);
    }
  }

  lemma ReconcileKeeps(cfg: Config, plan: Plan, c: Cluster, env: Env)
    requires Inv(cfg, plan, c) && Lawful(cfg, plan, c, Reconciles(env))
    ensures Inv(cfg, plan, Next(cfg, c, Reconciles(env)))
    ensures Rank(c.status.phase) <= Rank(Next(cfg, c, Reconciles(env)).status.phase)
  {
    var mid := Ensuring(cfg, c, c.status, env);
    var out := Decide(cfg, c.status, c.jobs, env);
    EnsuringKeepsStatus(cfg, c, env);
    EnsuringSound(cfg, plan, c, env);
    RecordStatus(cfg, mid, out, env);
    OrderlyAfter(cfg, c, c.status, env);
    var after := Record(cfg, mid, c.status, out, env).0;
    if after.status != c.status {
      if out.Advances? {
        var k := FirstUndone(c.status, c.jobs, env, Steps(cfg, env.plan));
        AdvanceStands(cfg, plan, c, env, out.phase, k);
        AdvanceRecords(cfg, plan, c, env, out.phase, k);
      }
      SoundAfter(cfg, plan, c, mid, after);
      Settled(cfg, plan, c, out, after);
    } else {
      SoundAfter(cfg, plan, c, mid, after);
    }
  }

  lemma SoundAfter(cfg: Config, plan: Plan, c: Cluster, mid: Cluster, after: Cluster)
    requires Orderly(cfg.name, c.status.jobs) && mid.status == c.status && Sound(cfg, plan, mid)
    requires after.jobs == mid.jobs
    requires after.status.jobs == c.status.jobs || after.status.jobs == Snapshot(cfg.name, c.status.jobs, mid.jobs)
    ensures Sound(cfg, plan, after)
  {
    forall n | n in after.jobs && InPipeline(cfg, plan, n)
      ensures after.jobs[n].labelled && (RecordedComplete(after.status, n) ==> Done(after.jobs[n]))
    {
      if RecordedComplete(after.status, n) && after.status.jobs != c.status.jobs {
        SnapshotIsSound(cfg, c.status.jobs, mid.jobs, n);
      }
    }
  }

  lemma AllRecordedBy(a: Status, b: Status, steps: seq<Step>)
    requires AllRecorded(a, steps) && a.jobs == b.jobs
    ensures AllRecorded(b, steps)
  {
  }

  // From what was recorded to the invariant.
  lemma Settled(cfg: Config, plan: Plan, c: Cluster, out: Outcome, after: Cluster)
    requires Inv(cfg, plan, c) && Sound(cfg, plan, after) && Orderly(cfg.name, after.status.jobs)
    requires !out.Ignored? && !out.ApiFails? && after.status.phase == OutcomePhase(c.status, out)
    requires out.Holds? ==> after.status.jobs == c.status.jobs
    requires out.Advances? ==>
               && Behind(cfg, plan, out.phase) <= |Steps(cfg, plan)|
               && (out.phase == ApplyingWorkloads ==> plan.VolumePlan?)
               && Rank(c.status.phase) <= Rank(out.phase)
               && AllRecorded(c.status.(jobs := after.status.jobs), Steps(cfg, plan)[..Behind(cfg, plan, out.phase)])
    ensures Inv(cfg, plan, after)
    ensures Rank(c.status.phase) <= Rank(after.status.phase)
  {
    var behind := Steps(cfg, plan)[..Behind(cfg, plan, after.status.phase)];
    if out.Advances? {
      AllRecordedBy(c.status.(jobs := after.status.jobs), after.status, behind);
    } else if out.Holds? {
      AllRecordedBy(c.status, after.status, behind);
    }
  }

  lemma StepKeeps(cfg: Config, plan: Plan, c: Cluster, a: Action)
    requires Inv(cfg, plan, c) && Lawful(cfg, plan, c, a)
    ensures Inv(cfg, plan, Next(cfg, c, a))
    ensures Rank(c.status.phase) <= Rank(Next(cfg, c, a).status.phase)
    ensures Terminal(c.status.phase) ==> Next(cfg, c, a).status == c.status
  {
    if a.Reconciles? { ReconcileKeeps(cfg, plan, c, a.env); }
  }

  // ---- runs -----------------------------------------------------------------------------------------------------

  lemma {:induction false} AlwaysInv(cfg: Config, plan: Plan, tr: seq<Cluster>, acts: seq<Action>, i: nat)
    requires Run(cfg, plan, tr, acts) && i < |tr|
    ensures Inv(cfg, plan, tr[i])
  {
    if i > 0 {
      AlwaysInv(cfg, plan, tr, acts, i - 1);
      StepKeeps(cfg, plan, tr[i - 1], acts[i - 1]);
    }
  }

  ghost predicate Forward(tr: seq<Cluster>, p: nat)
    requires p + 1 < |tr|
  {
    && Rank(tr[p].status.phase) <= Rank(tr[p + 1].status.phase)
    && (Terminal(tr[p].status.phase) ==> tr[p + 1].status == tr[p].status)
  }

  lemma {:induction false} ForwardThroughout(tr: seq<Cluster>, i: nat, j: nat)
    requires i <= j < |tr| && forall p: nat | p + 1 < |tr| :: Forward(tr, p)
    ensures Rank(tr[i].status.phase) <= Rank(tr[j].status.phase)
    ensures Terminal(tr[i].status.phase) ==> tr[j].status == tr[i].status
  {
    if i < j {
      ForwardThroughout(tr, i, j - 1);
      assert Forward(tr, j - 1);
    }
  }

  lemma GoesForward(cfg: Config, plan: Plan, tr: seq<Cluster>, acts: seq<Action>, p: nat)
    requires Run(cfg, plan, tr, acts) && p < |acts|
    ensures Forward(tr, p)
  {
    AlwaysInv(cfg, plan, tr, acts, p);
    StepKeeps(cfg, plan, tr[p], acts[p]);
  }

  /** The phase never regresses, and a terminal status is final. */
  lemma PhaseNeverRegresses(cfg: Config, plan: Plan, tr: seq<Cluster>, acts: seq<Action>, i: nat, j: nat)
    requires Run(cfg, plan, tr, acts) && i <= j < |tr|
    ensures Rank(tr[i].status.phase) <= Rank(tr[j].status.phase)
    ensures Terminal(tr[i].status.phase) ==> tr[j].status == tr[i].status
  {
    forall p: nat | p + 1 < |tr| ensures Forward(tr, p) {
      GoesForward(cfg, plan, tr, acts, p);
    }
    ForwardThroughout(tr, i, j);
  }
}
