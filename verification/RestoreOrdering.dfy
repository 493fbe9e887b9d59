/** RestoreOrdering: over every run, however Jobs complete, fail, vanish or reappear, however stale the cached
    reads are and whichever calls fail, no pipeline Job is created before the ones it depends on have completed. */
module RestoreOrdering {
  import opened Wrappers
  import opened Reads
  import opened RestoreSpec
  import opened RestoreSnapshot

  // Between reconciles the environment may turn the Jobs into anything.
  datatype Action = Reconciled(read: Status, env: Env) | Environment(jobs: map<string, Job>)

  // What a read may return: every Job as it was at this or some earlier moment.
  ghost predicate Observed(tr: seq<Cluster>, i: nat, v: View<Job>)
    requires i < |tr|
  {
    v.Cached? ==> forall n | n in v.jobs :: exists j: nat :: j <= i && n in tr[j].jobs && tr[j].jobs[n] == v.jobs[n]
  }

  ghost predicate Moves(cfg: Config, tr: seq<Cluster>, a: Action, i: nat)
    requires i + 1 < |tr|
  {
    match a
    case Environment(jobs) => tr[i + 1] == tr[i].(jobs := jobs)
    case Reconciled(read, env) =>
      && (exists j: nat :: j <= i && tr[j].status == read)
      && Observed(tr, i, env.jobs)
      && (env.listing.Listed? ==> Observed(tr, i, env.listing.view))
      && tr[i + 1] == Reconcile(cfg, tr[i], read, env).0
  }

  ghost predicate Run(cfg: Config, tr: seq<Cluster>, acts: seq<Action>) {
    && |tr| == |acts| + 1
    && tr[0].status.jobs == []
    && forall i | 0 <= i < |acts| :: Moves(cfg, tr, acts[i], i)
  }

  // At this or some earlier moment, a Job of that name was live and complete.
  ghost predicate CompletedBy(tr: seq<Cluster>, i: nat, name: string)
    requires i < |tr|
  {
    exists j: nat :: j <= i && name in tr[j].jobs && Done(tr[j].jobs[name])
  }

  // A recorded completion witnesses a real one.
  ghost predicate Truthful(tr: seq<Cluster>, i: nat, jobs: seq<JobEntry>)
    requires i < |tr|
  {
    forall e | e in jobs && e.state == Complete :: CompletedBy(tr, i, e.job)
  }

  lemma CompletedLater(tr: seq<Cluster>, j: nat, i: nat, name: string)
    requires j <= i < |tr| && CompletedBy(tr, j, name)
    ensures CompletedBy(tr, i, name)
  {
  }

  lemma TruthfulLater(tr: seq<Cluster>, j: nat, i: nat, jobs: seq<JobEntry>)
    requires j <= i < |tr| && Truthful(tr, j, jobs)
    ensures Truthful(tr, i, jobs)
  {
    forall e | e in jobs && e.state == Complete ensures CompletedBy(tr, i, e.job) {
      CompletedLater(tr, j, i, e.job);
    }
  }

  // A Job seen complete was complete.
  lemma SeenComplete(tr: seq<Cluster>, i: nat, v: View<Job>, name: string)
    requires i < |tr| && Observed(tr, i, v)
    requires var seen := Look(v, tr[i].jobs); name in seen && Done(seen[name])
    ensures CompletedBy(tr, i, name)
  {
    if v.Cached? {
      var j: nat :| j <= i && name in tr[j].jobs && tr[j].jobs[name] == v.jobs[name];
    }
  }

  // Creating a Job changes no other Job, and the new one is not complete.
  lemma CreateKeeps(cfg: Config, c: Cluster, rs: Status, env: Env, name: string)
    requires name in Ensuring(cfg, c, rs, env).jobs && Done(Ensuring(cfg, c, rs, env).jobs[name])
    ensures name in c.jobs && c.jobs[name] == Ensuring(cfg, c, rs, env).jobs[name]
  {
  }

  // The snapshot a reconcile takes is truthful if the one it read was.
  lemma LiveJobsTruthful(cfg: Config, tr: seq<Cluster>, i: nat, rs: Status, env: Env)
    requires i < |tr| && Truthful(tr, i, rs.jobs)
    requires env.listing.Listed? ==> Observed(tr, i, env.listing.view)
    ensures Truthful(tr, i, LiveJobs(cfg, rs, env.listing, Ensuring(cfg, tr[i], rs, env).jobs))
  {
    if env.listing.Listed? {
      var live := Ensuring(cfg, tr[i], rs, env).jobs;
      var listed := Look(env.listing.view, live);
      forall e | e in Snapshot(cfg.name, rs.jobs, listed) && e.state == Complete ensures CompletedBy(tr, i, e.job) {
        SnapshotOnly(cfg.name, rs.jobs, listed, e);
        if e.job in LabelledNames(listed) {
          assert Done(listed[e.job]);
          if env.listing.view.Live? { CreateKeeps(cfg, tr[i], rs, env, e.job); }
          SeenComplete(tr, i, env.listing.view, e.job);
        }
      }
    }
  }

  lemma RecordedJobs(cfg: Config, c: Cluster, rs: Status, out: Outcome, env: Env)
    ensures var after := Record(cfg, c, rs, out, env).0.status.jobs;
            || after == c.status.jobs
            || (env.listing.Listed? && after == Snapshot(cfg.name, rs.jobs, Look(env.listing.view, c.jobs)))
  {
  }

  // After a reconcile status.jobs is the server's, or the snapshot taken on top of the copy that was read.
  lemma JobsAfter(cfg: Config, c: Cluster, rs: Status, env: Env)
    ensures var after := Reconcile(cfg, c, rs, env).0.status.jobs;
            || after == c.status.jobs
            || (env.listing.Listed?
                && after == Snapshot(cfg.name, rs.jobs, Look(env.listing.view, Ensuring(cfg, c, rs, env).jobs)))
  {
    RecordedJobs(cfg, Ensuring(cfg, c, rs, env), rs, Decide(cfg, rs, Look(env.jobs, c.jobs), env), env);
  }

  // The carrying invariant, at every moment of a run.
  lemma {:induction false} AlwaysTruthful(cfg: Config, tr: seq<Cluster>, acts: seq<Action>, i: nat)
    requires Run(cfg, tr, acts) && i < |tr|
    ensures Truthful(tr, i, tr[i].status.jobs)
    decreases i, 0
  {
    if i > 0 {
      var p := i - 1;
      assert Moves(cfg, tr, acts[p], p);
      AlwaysTruthful(cfg, tr, acts, p);
      TruthfulLater(tr, p, i, tr[p].status.jobs);
      match acts[p] {
        case Environment(_) =>
        case Reconciled(read, env) =>
          ReadTruthful(cfg, tr, acts, p);
          LiveJobsTruthful(cfg, tr, p, read, env);
          TruthfulLater(tr, p, i, LiveJobs(cfg, read, env.listing, Ensuring(cfg, tr[p], read, env).jobs));
          JobsAfter(cfg, tr[p], read, env);
      }
    }
  }

  // Whatever status a reconcile read, stale or not, was truthful.
  lemma {:induction false} ReadTruthful(cfg: Config, tr: seq<Cluster>, acts: seq<Action>, i: nat)
    requires Run(cfg, tr, acts) && i < |acts| && acts[i].Reconciled?
    ensures Truthful(tr, i, acts[i].read.jobs)
    decreases i, 1
  {
    assert Moves(cfg, tr, acts[i], i);
    var j: nat :| j <= i && tr[j].status == acts[i].read;
    AlwaysTruthful(cfg, tr, acts, j);
    TruthfulLater(tr, j, i, tr[j].status.jobs);
  }

  lemma {:induction false} RecordedCompleteEntry(jobs: seq<JobEntry>, name: string)
    requires RecordedState(jobs, name) == Some(Complete)
    ensures exists e :: e in jobs && e.job == name && e.state == Complete
  {
    if jobs[0].job == name {
      assert jobs[0] in jobs;
    } else {
      RecordedCompleteEntry(jobs[1..], name);
      var e :| e in jobs[1..] && e.job == name && e.state == Complete;
      assert e in jobs;
    }
  }

  // A step that counts as done completed at this or some earlier moment.
  lemma DoneMeansCompleted(cfg: Config, tr: seq<Cluster>, acts: seq<Action>, i: nat, name: string)
    requires Run(cfg, tr, acts) && i < |acts| && acts[i].Reconciled?
    requires Ensure(acts[i].read, Look(acts[i].env.jobs, tr[i].jobs), acts[i].env, name).JobDone?
    ensures CompletedBy(tr, i, name)
  {
    assert Moves(cfg, tr, acts[i], i);
    var read, env := acts[i].read, acts[i].env;
    if name in Look(env.jobs, tr[i].jobs) {
      SeenComplete(tr, i, env.jobs, name);
    } else {
      ReadTruthful(cfg, tr, acts, i);
      RecordedCompleteEntry(read.jobs, name);
    }
  }

  // Only the step the reconcile decided to create can appear.
  lemma OnlyTheCreation(cfg: Config, c: Cluster, rs: Status, env: Env, name: string)
    requires name in Reconcile(cfg, c, rs, env).0.jobs && name !in c.jobs
    ensures var creation := Creation(cfg, rs, Look(env.jobs, c.jobs), env);
            creation.Some? && creation.value.name == name
            && Reconcile(cfg, c, rs, env).0.jobs[name].work == creation.value.work
  {
    assert Reconcile(cfg, c, rs, env).0.jobs == Ensuring(cfg, c, rs, env).jobs;
  }

  ghost predicate StepsCompleted(tr: seq<Cluster>, i: nat, steps: seq<Step>)
    requires i < |tr|
  {
    forall j | 0 <= j < |steps| :: CompletedBy(tr, i, steps[j].name)
  }

  // Every step before the created one has completed.
  lemma EarlierStepsCompleted(cfg: Config, tr: seq<Cluster>, acts: seq<Action>, i: nat, k: nat)
    requires Run(cfg, tr, acts) && i < |acts| && acts[i].Reconciled?
    requires k == FirstUndone(acts[i].read, Look(acts[i].env.jobs, tr[i].jobs), acts[i].env, Steps(cfg, acts[i].env.plan))
    ensures StepsCompleted(tr, i, Steps(cfg, acts[i].env.plan)[..k])
  {
    var steps := Steps(cfg, acts[i].env.plan);
    forall j | 0 <= j < k ensures CompletedBy(tr, i, steps[..k][j].name) {
      DoneMeansCompleted(cfg, tr, acts, i, steps[j].name);
    }
  }

  // The pipeline position of a step is read off its work.
  lemma StepPositions(cfg: Config, plan: Plan, k: nat)
    requires k < |Steps(cfg, plan)|
    ensures var w := Steps(cfg, plan)[k].work;
            && (w.FetchWork? <==> k == 0)
            && (w.ApplyWork? && w.phase.PreApply? ==> k == 1)
            && (w.VolumeWork? ==> plan.VolumePlan? && 2 <= k < |Steps(cfg, plan)| - 1)
            && (w.ApplyWork? && w.phase.WorkloadApply? ==> plan.VolumePlan? && k == |Steps(cfg, plan)| - 1)
  {
    if plan.VolumePlan? {
      var v := VolumeSteps(cfg, plan);
      var steps := Steps(cfg, plan);
      assert |steps| == |v| + 3;
      assert 2 <= k < |v| + 2 ==> steps[k] == v[k - 2];
      assert k == |v| + 2 ==> steps[k] == WorkloadStep(cfg);
    }
  }

  /** Restore ordering. Whenever a reconcile makes a Job appear, everything its work depends on completed at this or
      some earlier moment: the pre apply waits for the fetch and its ConfigMap, each volume Job for the pre apply and
      for the volume Jobs of earlier nodes, and the workload apply for every volume Job of the plan then read. */
  lemma RestoreOrdered(cfg: Config, tr: seq<Cluster>, acts: seq<Action>, i: nat, name: string)
    requires Run(cfg, tr, acts) && i < |acts| && acts[i].Reconciled?
    requires name in tr[i + 1].jobs && name !in tr[i].jobs
    ensures var work := tr[i + 1].jobs[name].work;
            var steps := Steps(cfg, acts[i].env.plan);
            && (work.ApplyWork? && work.phase.PreApply? ==>
                  Present(acts[i].env.plan) && StepsCompleted(tr, i, [FetchStep(cfg)]))
            && (work.VolumeWork? ==>
                  acts[i].env.plan.VolumePlan?
                  && exists k :: 2 <= k < |steps| - 1 && steps[k].name == name && StepsCompleted(tr, i, steps[..k]))
            && (work.ApplyWork? && work.phase.WorkloadApply? ==>
                  acts[i].env.plan.VolumePlan? && StepsCompleted(tr, i, steps[..|steps| - 1])
                  && StepsCompleted(tr, i, VolumeSteps(cfg, acts[i].env.plan)))
  {
    assert Moves(cfg, tr, acts[i], i);
    var read, env := acts[i].read, acts[i].env;
    OnlyTheCreation(cfg, tr[i], read, env, name);
    var steps := Steps(cfg, env.plan);
    var k := FirstUndone(read, Look(env.jobs, tr[i].jobs), env, steps);
    EarlierStepsCompleted(cfg, tr, acts, i, k);
    StepPositions(cfg, env.plan, k);
    if k == 1 { assert steps[..k] == [FetchStep(cfg)]; }
    if env.plan.VolumePlan? && k == |steps| - 1 { VolumesAmong(cfg, tr, i, env.plan); }
  }

  lemma MiddleCompleted(tr: seq<Cluster>, i: nat, head: seq<Step>, mid: seq<Step>, last: Step, steps: seq<Step>)
    requires i < |tr| && steps == head + mid + [last] && StepsCompleted(tr, i, steps[..|steps| - 1])
    ensures StepsCompleted(tr, i, mid)
  {
    var front := steps[..|steps| - 1];
    forall j | 0 <= j < |mid| ensures CompletedBy(tr, i, mid[j].name) {
      assert front[|head| + j] == mid[j];
    }
  }

  lemma VolumesAmong(cfg: Config, tr: seq<Cluster>, i: nat, plan: Plan)
    requires i < |tr| && plan.VolumePlan?
    requires StepsCompleted(tr, i, Steps(cfg, plan)[..|Steps(cfg, plan)| - 1])
    ensures StepsCompleted(tr, i, VolumeSteps(cfg, plan))
  {
    MiddleCompleted(tr, i, [FetchStep(cfg), PreStep(cfg)], VolumeSteps(cfg, plan), WorkloadStep(cfg), Steps(cfg, plan));
  }

  /** A restore is marked Completed only when every Job of the plan then read has completed. */
  lemma CompletedMeansAllCompleted(cfg: Config, tr: seq<Cluster>, acts: seq<Action>, i: nat)
    requires Run(cfg, tr, acts) && i < |acts| && acts[i].Reconciled?
    requires Decide(cfg, acts[i].read, Look(acts[i].env.jobs, tr[i].jobs), acts[i].env).Finishes?
    ensures acts[i].env.plan.VolumePlan? && StepsCompleted(tr, i, Steps(cfg, acts[i].env.plan))
  {
    var steps := Steps(cfg, acts[i].env.plan);
    EarlierStepsCompleted(cfg, tr, acts, i, |steps|);
    assert steps[..|steps|] == steps;
  }
}
