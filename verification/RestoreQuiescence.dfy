/** RestoreQuiescence: a restore reconcile that met no API error has done all there was to do. Run again on an
    unchanged cluster, at any later time, it creates nothing, patches nothing and emits nothing. */
module RestoreQuiescence {
  import opened Reads
  import opened Sorting
  import opened RestoreSpec
  import opened RestoreSnapshot
  import opened RestoreReaping
  import opened RestorePhases

  // ---- snapshots settle -------------------------------------------------------------------------------------

  lemma SnapshotSettles(restore: string, recorded: seq<JobEntry>, listed: map<string, Job>)
    requires Orderly(restore, recorded)
    ensures Snapshot(restore, Snapshot(restore, recorded, listed), listed) == Snapshot(restore, recorded, listed)
  {
    var once := Snapshot(restore, recorded, listed);
    var twice := Snapshot(restore, once, listed);
    SnapshotSorted(restore, recorded, listed);
    SnapshotSorted(restore, once, listed);
    SnapshotMembers(restore, recorded, listed);
    SnapshotMembers(restore, once, listed);
    ByJobIsOrder();
    AscendingUnique(ByJob, twice, once);
  }

  lemma LiveJobsSettle(cfg: Config, rs: Status, listing: Listing, live: map<string, Job>)
    requires Orderly(cfg.name, rs.jobs)
    ensures var jobs := LiveJobs(cfg, rs, listing, live);
            LiveJobs(cfg, rs.(jobs := jobs), listing, live) == jobs
  {
    if listing.Listed? { SnapshotSettles(cfg.name, rs.jobs, Look(listing.view, live)); }
  }

  lemma LiveJobsByJobs(cfg: Config, a: Status, b: Status, listing: Listing, live: map<string, Job>)
    requires a.jobs == b.jobs
    ensures LiveJobs(cfg, a, listing, live) == LiveJobs(cfg, b, listing, live)
  {
  }

  // What an outcome records, it records again.
  lemma RecordedSettles(cfg: Config, rs: Status, out: Outcome, env: Env, live: map<string, Job>, later: int)
    requires Orderly(cfg.name, rs.jobs) && (out.Holds? || out.Advances?)
    ensures var after := Recorded(cfg, rs, out, env, live);
            Recorded(cfg, after, out, env.(now := later), live) == after
  {
    var after := Recorded(cfg, rs, out, env, live);
    if out.Advances? {
      LiveJobsSettle(cfg, rs, env.listing, live);
      LiveJobsByJobs(cfg, after, rs.(jobs := LiveJobs(cfg, rs, env.listing, live)), env.listing, live);
    }
  }

  // ---- the same decision again ----------------------------------------------------------------------------------

  // `e` was answered for a name; `f` is answered after the reconcile.
  predicate Settled(e: Ensured, f: Ensured) {
    if e.JobAbsent? then f.JobRuns? else f == e
  }

  // The memory of the next reconcile: unchanged, or the snapshot of what is live.
  ghost predicate Remembers(cfg: Config, c: Cluster, live: map<string, Job>, jobs: seq<JobEntry>) {
    jobs == c.status.jobs || jobs == Snapshot(cfg.name, c.status.jobs, live)
  }

  lemma StillDone(cfg: Config, c: Cluster, live: map<string, Job>, rs: Status, env: Env, later: int, name: string)
    requires Orderly(cfg.name, c.status.jobs) && Remembers(cfg, c, live, rs.jobs)
    requires name in c.jobs ==> name in live && live[name] == c.jobs[name]
    requires name !in c.jobs && KnownJob(c.status, name) ==> name !in live
    requires Ensure(c.status, c.jobs, env, name).JobDone?
    ensures Ensure(rs, live, env.(now := later), name).JobDone?
  {
    if name !in c.jobs {
      RecordedIsKnown(c.status, name);
      StaysRecorded(cfg, c.(jobs := live), name);
      RecordedIsKnown(rs, name);
    }
  }

  // Where the reconcile stopped, with the memory it left.
  lemma StopsAgain(cfg: Config, c: Cluster, live: map<string, Job>, rs: Status, env: Env, later: int, name: string)
    requires var e := Ensure(c.status, c.jobs, env, name);
             e.JobRuns? || e.JobAbsent? || (e.JobGone? && rs.jobs == c.status.jobs)
    requires name in c.jobs ==> name in live && live[name] == c.jobs[name]
    requires name !in c.jobs ==>
               if Ensure(c.status, c.jobs, env, name).JobAbsent? then name in live && !live[name].failed && !live[name].complete
               else name !in live
    ensures Settled(Ensure(c.status, c.jobs, env, name), Ensure(rs, live, env.(now := later), name))
  {
  }

  // The walk stops at the same step.
  lemma {:induction false} SameStop(rs: Status, seen: map<string, Job>, env: Env, rs2: Status, seen2: map<string, Job>, env2: Env, steps: seq<Step>)
    requires var k := FirstUndone(rs, seen, env, steps);
             && (forall i | 0 <= i < k :: Ensure(rs2, seen2, env2, steps[i].name).JobDone?)
             && (k < |steps| ==> !Ensure(rs2, seen2, env2, steps[k].name).JobDone?)
    ensures FirstUndone(rs2, seen2, env2, steps) == FirstUndone(rs, seen, env, steps)
  {
    var k, k2 := FirstUndone(rs, seen, env, steps), FirstUndone(rs2, seen2, env2, steps);
    if k < |steps| { assert k2 <= k; }
    if k2 < |steps| { assert k <= k2; }
  }

  // The live Jobs after the ensure calls: what was there, and the step created.
  ghost predicate Grown(cfg: Config, c: Cluster, env: Env, live: map<string, Job>) {
    var creation := Creation(cfg, c.status, c.jobs, env);
    live == if creation.Some? then c.jobs[creation.value.name := NewJob(creation.value)] else c.jobs
  }

  lemma Grows(cfg: Config, c: Cluster, env: Env)
    requires env.jobs.Live?
    ensures Grown(cfg, c, env, Ensuring(cfg, c, c.status, env).jobs)
  {
    EnsuringJobs(cfg, c, env);
    if Creation(cfg, c.status, c.jobs, env).Some? { CreationUnknown(cfg, c, env); }
  }

  lemma SameFirstUndone(cfg: Config, c: Cluster, live: map<string, Job>, rs: Status, env: Env, later: int)
    requires Runs(cfg, c.status, env) && Orderly(cfg.name, c.status.jobs)
    requires Grown(cfg, c, env, live) && Remembers(cfg, c, live, rs.jobs)
    requires var k := FirstUndone(c.status, c.jobs, env, Steps(cfg, env.plan));
             k < |Steps(cfg, env.plan)| ==>
               var e := Ensure(c.status, c.jobs, env, Steps(cfg, env.plan)[k].name);
               e.JobRuns? || e.JobAbsent? || (e.JobGone? && rs.jobs == c.status.jobs)
    ensures var k := FirstUndone(c.status, c.jobs, env, Steps(cfg, env.plan));
            && FirstUndone(rs, live, env.(now := later), Steps(cfg, env.plan)) == k
            && (k < |Steps(cfg, env.plan)| ==>
                  Settled(Ensure(c.status, c.jobs, env, Steps(cfg, env.plan)[k].name),
                          Ensure(rs, live, env.(now := later), Steps(cfg, env.plan)[k].name)))
  {
    var steps := Steps(cfg, env.plan);
    var k := FirstUndone(c.status, c.jobs, env, steps);
    if Creation(cfg, c.status, c.jobs, env).Some? { CreationUnknown(cfg, c, env); }
    forall i | 0 <= i < k ensures Ensure(rs, live, env.(now := later), steps[i].name).JobDone? {
      StillDone(cfg, c, live, rs, env, later, steps[i].name);
    }
    if k < |steps| { StopsAgain(cfg, c, live, rs, env, later, steps[k].name); }
    SameStop(c.status, c.jobs, env, rs, live, env.(now := later), steps);
  }

  // What an outcome that keeps the restore running says about the step the walk stopped at.
  lemma OutcomeAt(cfg: Config, rs: Status, seen: map<string, Job>, env: Env)
    requires Runs(cfg, rs, env)
    requires var out := Decide(cfg, rs, seen, env); out.Holds? || out.Advances?
    ensures var k := FirstUndone(rs, seen, env, Steps(cfg, env.plan));
            k < |Steps(cfg, env.plan)| ==>
              var e := Ensure(rs, seen, env, Steps(cfg, env.plan)[k].name);
              e.JobRuns? || e.JobAbsent? || (e.JobGone? && Decide(cfg, rs, seen, env).Holds?)
  {
    DecideIsWalk(cfg, rs, seen, env);
    WalkStops(cfg, rs, seen, env);
  }

  lemma WalkStops(cfg: Config, rs: Status, seen: map<string, Job>, env: Env)
    ensures var k := FirstUndone(rs, seen, env, Steps(cfg, env.plan));
            k < |Steps(cfg, env.plan)| ==>
              var step := Steps(cfg, env.plan)[k];
              var e := Ensure(rs, seen, env, step.name);
              !e.JobDone? && Walk(cfg, rs, seen, env) == Settle(step, e)
  {
  }

  // Settled answers settle the same way, and create nothing.
  lemma SameSettle(cfg: Config, rs: Status, seen: map<string, Job>, env: Env, rs2: Status, seen2: map<string, Job>, later: int)
    requires Runs(cfg, rs, env) && Runs(cfg, rs2, env)
    requires var k := FirstUndone(rs, seen, env, Steps(cfg, env.plan));
             && FirstUndone(rs2, seen2, env.(now := later), Steps(cfg, env.plan)) == k
             && (k < |Steps(cfg, env.plan)| ==>
                   Settled(Ensure(rs, seen, env, Steps(cfg, env.plan)[k].name),
                           Ensure(rs2, seen2, env.(now := later), Steps(cfg, env.plan)[k].name)))
    ensures Walk(cfg, rs2, seen2, env.(now := later)) == Walk(cfg, rs, seen, env)
    ensures Creation(cfg, rs2, seen2, env.(now := later)).None?
  {
  }

  lemma SameFetch(cfg: Config, rs: Status, seen: map<string, Job>, env: Env, rs2: Status, seen2: map<string, Job>, later: int)
    requires Runs(cfg, rs, env)
    requires FirstUndone(rs2, seen2, env.(now := later), Steps(cfg, env.plan)) == FirstUndone(rs, seen, env, Steps(cfg, env.plan))
    ensures Staged(cfg, rs2, seen2, env.(now := later)) ==> Staged(cfg, rs, seen, env)
  {
  }

  // The second reconcile decides what the first decided, and has nothing to create or adopt.
  lemma SameAgain(cfg: Config, c: Cluster, live: map<string, Job>, rs: Status, env: Env, later: int)
    requires Runs(cfg, c.status, env) && Orderly(cfg.name, c.status.jobs) && Grown(cfg, c, env, live)
    requires var out := Decide(cfg, c.status, c.jobs, env);
             && (out.Holds? || out.Advances?)
             && rs == Recorded(cfg, c.status, out, env, live)
    requires Fresh(env)
    ensures Decide(cfg, rs, live, env.(now := later)) == Decide(cfg, c.status, c.jobs, env)
    ensures Creation(cfg, rs, live, env.(now := later)).None?
    ensures Staged(cfg, rs, live, env.(now := later)) ==> Staged(cfg, c.status, c.jobs, env)
  {
    OutcomeAt(cfg, c.status, c.jobs, env);
    OutcomeInFlight(cfg, c.status, c.jobs, env);
    SameFirstUndone(cfg, c, live, rs, env, later);
    SameSettle(cfg, c.status, c.jobs, env, rs, live, later);
    SameFetch(cfg, c.status, c.jobs, env, rs, live, later);
    DecideIsWalk(cfg, c.status, c.jobs, env);
    DecideIsWalk(cfg, rs, live, env.(now := later));
  }

  lemma StepPhasesInFlight(cfg: Config, plan: Plan, k: nat)
    requires k < |Steps(cfg, plan)|
    ensures !Terminal(Steps(cfg, plan)[k].phase)
  {
    PhaseOfStep(cfg, plan, k);
    if plan.VolumePlan? { StepCount(cfg, plan); }
  }

  lemma OutcomeInFlight(cfg: Config, rs: Status, seen: map<string, Job>, env: Env)
    requires var out := Decide(cfg, rs, seen, env); out.Holds? || out.Advances?
    ensures !Terminal(OutcomePhase(rs, Decide(cfg, rs, seen, env)))
  {
    if Decide(cfg, rs, seen, env).Advances? {
      var k := FirstUndone(rs, seen, env, Steps(cfg, env.plan));
      AdvanceIsSettle(cfg, rs, seen, env, k);
      StepPhasesInFlight(cfg, env.plan, k);
    }
  }

  // A gate that holds, holds again.
  lemma HeldAgain(cfg: Config, rs: Status, seen: map<string, Job>, env: Env, rs2: Status, seen2: map<string, Job>, later: int)
    requires !Runs(cfg, rs, env) && Decide(cfg, rs, seen, env).Holds? && !Terminal(rs2.phase)
    ensures Decide(cfg, rs2, seen2, env.(now := later)) == Decide(cfg, rs, seen, env)
    ensures Creation(cfg, rs2, seen2, env.(now := later)).None?
    ensures !Staged(cfg, rs2, seen2, env.(now := later))
  {
  }

  lemma AdvancesRun(cfg: Config, rs: Status, seen: map<string, Job>, env: Env)
    requires Decide(cfg, rs, seen, env).Advances?
    ensures Runs(cfg, rs, env)
  {
  }

  // ---- putting it together ------------------------------------------------------------------------------------

  // A reconcile that met no error has recorded what it wanted to.
  lemma RecordedIsWritten(cfg: Config, c: Cluster, out: Outcome, env: Env)
    requires Record(cfg, c, c.status, out, env).1 != Errored && !out.Ignored?
    ensures !out.ApiFails?
    ensures var next := Record(cfg, c, c.status, out, env).0;
            && next.status == Recorded(cfg, c.status, out, env, c.jobs)
            && next.jobs == c.jobs && next.adopted == c.adopted
  {
  }

  // Nothing to record, nothing written.
  lemma NothingToRecord(cfg: Config, c: Cluster, out: Outcome, env: Env)
    requires out.Ignored? || (!out.ApiFails? && Recorded(cfg, c.status, out, env, c.jobs) == c.status)
    ensures Record(cfg, c, c.status, out, env).0 == c
  {
  }

  lemma NothingToEnsure(cfg: Config, c: Cluster, env: Env)
    requires env.jobs.Live? && Creation(cfg, c.status, c.jobs, env).None?
    requires Staged(cfg, c.status, c.jobs, env) ==> c.adopted || cfg.namespace != cfg.targetNamespace
    ensures Ensuring(cfg, c, c.status, env) == c
  {
  }

  lemma TerminalIsQuiet(cfg: Config, c: Cluster, env: Env)
    requires Terminal(c.status.phase) && env.jobs.Live?
    ensures Next(cfg, c, Reconciles(env)) == c
  {
    NothingToEnsure(cfg, c, env);
    NothingToRecord(cfg, c, Ignored, env);
  }

  lemma Adopts(cfg: Config, c: Cluster, env: Env)
    requires env.jobs.Live? && !env.adoptFails && Staged(cfg, c.status, c.jobs, env)
    ensures Ensuring(cfg, c, c.status, env).adopted || cfg.namespace != cfg.targetNamespace
  {
  }

  lemma AgainNothing(cfg: Config, c: Cluster, env: Env, later: int, next: Cluster)
    requires Fresh(env) && !env.adoptFails && Orderly(cfg.name, c.status.jobs)
    requires var mid := Ensuring(cfg, c, c.status, env);
             var out := Decide(cfg, c.status, c.jobs, env);
             && (out.Holds? || out.Advances?)
             && next.jobs == mid.jobs && next.adopted == mid.adopted
             && next.status == Recorded(cfg, c.status, out, env, mid.jobs)
    ensures Next(cfg, next, Reconciles(env.(now := later))) == next
  {
    var out := Decide(cfg, c.status, c.jobs, env);
    var env2 := env.(now := later);
    Grows(cfg, c, env);
    OutcomeInFlight(cfg, c.status, c.jobs, env);
    if Runs(cfg, c.status, env) {
      SameAgain(cfg, c, next.jobs, next.status, env, later);
      if Staged(cfg, next.status, next.jobs, env2) { Adopts(cfg, c, env); }
    } else {
      if out.Advances? { AdvancesRun(cfg, c.status, c.jobs, env); }
      HeldAgain(cfg, c.status, c.jobs, env, next.status, next.jobs, later);
    }
    RecordedSettles(cfg, c.status, out, env, next.jobs, later);
    NothingToEnsure(cfg, next, env2);
    NothingToRecord(cfg, next, out, env2);
  }

  /** Quiescence. */
  lemma SecondReconcileDoesNothing(cfg: Config, c: Cluster, env: Env, later: int)
    requires Fresh(env) && !env.adoptFails && Orderly(cfg.name, c.status.jobs)
    requires Reconcile(cfg, c, c.status, env).1 != Errored
    ensures var next := Next(cfg, c, Reconciles(env));
            Next(cfg, next, Reconciles(env.(now := later))) == next
  {
    var mid := Ensuring(cfg, c, c.status, env);
    var out := Decide(cfg, c.status, c.jobs, env);
    EnsuringKeepsStatus(cfg, c, env);
    if out.Ignored? {
      TerminalIsQuiet(cfg, c, env);
      TerminalIsQuiet(cfg, c, env.(now := later));
    } else {
      RecordedIsWritten(cfg, mid, out, env);
      var next := Next(cfg, c, Reconciles(env));
      if out.Holds? || out.Advances? {
        AgainNothing(cfg, c, env, later, next);
      } else {
        TerminalIsQuiet(cfg, next, env.(now := later));
      }
    }
  }
}
