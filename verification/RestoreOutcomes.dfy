/** RestoreOutcomes: what one restore reconcile makes of the Jobs it sees, told from the Jobs, the record and the answers
    alone. Which facts make it fail, complete, hold, err or go on, what it then writes, and that there are no others. */
module RestoreOutcomes {
  import opened Wrappers
  import opened Reads
  import opened Sorting
  import opened Strings
  import opened Manifests
  import opened RestoreSpec
  import opened RestoreSnapshot
  import opened RestorePhases
  import opened RestoreTermination

  // ---- what is known of one Job -------------------------------------------------------------------------

  ghost predicate OnRecord(jobs: seq<JobEntry>, name: string) {
    exists i :: 0 <= i < |jobs| && jobs[i].job == name
  }

  // The first entry of that name says complete.
  ghost predicate LastComplete(jobs: seq<JobEntry>, name: string) {
    exists i :: 0 <= i < |jobs| && jobs[i].job == name && jobs[i].state == Complete && forall j | 0 <= j < i :: jobs[j].job != name
  }

  // The Job could be read, and is there or not.
  ghost predicate Live(seen: map<string, Job>, env: Env, name: string) {
    name !in env.getFails && name in seen
  }

  ghost predicate Absent(seen: map<string, Job>, env: Env, name: string) {
    name !in env.getFails && name !in seen
  }

  // Over: seen complete and not failed, or gone after it was recorded complete.
  ghost predicate Over(rs: Status, seen: map<string, Job>, env: Env, name: string) {
    || (Live(seen, env, name) && seen[name].complete && !seen[name].failed)
    || (Absent(seen, env, name) && LastComplete(rs.jobs, name))
  }

  ghost predicate Broken(seen: map<string, Job>, env: Env, name: string) {
    Live(seen, env, name) && seen[name].failed
  }

  // Gone while on record, and not complete there.
  ghost predicate Deleted(rs: Status, seen: map<string, Job>, env: Env, name: string) {
    Absent(seen, env, name) && OnRecord(rs.jobs, name) && !LastComplete(rs.jobs, name)
  }

  ghost predicate Unanswered(rs: Status, seen: map<string, Job>, env: Env, name: string) {
    name in env.getFails || (name !in seen && !OnRecord(rs.jobs, name) && name in env.createFails)
  }

  // Never seen and never recorded; creating it works.
  ghost predicate Unheard(rs: Status, seen: map<string, Job>, env: Env, name: string) {
    Absent(seen, env, name) && !OnRecord(rs.jobs, name) && name !in env.createFails
  }

  ghost predicate Busy(seen: map<string, Job>, env: Env, name: string) {
    Live(seen, env, name) && !seen[name].failed && !seen[name].complete
  }

  // ---- where the reconcile stands -----------------------------------------------------------------------

  predicate SpecBroken(cfg: Config) {
    cfg.repoRef == "" || cfg.snapshotRef == "" || cfg.targetNamespace == "" || |Split(cfg.snapshotRef, '/')| != 3
  }

  predicate PastGates(cfg: Config, rs: Status, env: Env) {
    rs.phase != Completed && rs.phase != Failed && !SpecBroken(cfg) && env.gate == Open
  }

  // Every earlier Job of the plan is over.
  ghost predicate ArrivesAt(cfg: Config, rs: Status, seen: map<string, Job>, env: Env, i: nat) {
    i < |Steps(cfg, env.plan)| && forall j | 0 <= j < i :: Over(rs, seen, env, Steps(cfg, env.plan)[j].name)
  }

  ghost predicate AllOver(cfg: Config, rs: Status, seen: map<string, Job>, env: Env) {
    forall s | s in Steps(cfg, env.plan) :: Over(rs, seen, env, s.name)
  }

  // ---- from facts to the decision -------------------------------------------------------------------------

  lemma {:induction false} LastCompleteIs(jobs: seq<JobEntry>, name: string)
    ensures RecordedState(jobs, name) == Some(Complete) <==> LastComplete(jobs, name)
  {
    if jobs != [] {
      LastCompleteIs(jobs[1..], name);
      if jobs[0].job != name {
        if LastComplete(jobs[1..], name) {
          var i :| 0 <= i < |jobs[1..]| && jobs[1..][i].job == name && jobs[1..][i].state == Complete
                   && forall j | 0 <= j < i :: jobs[1..][j].job != name;
          assert jobs[i + 1] == jobs[1..][i];
          assert forall j | 0 < j < i + 1 :: jobs[j] == jobs[1..][j - 1];
        }
        if LastComplete(jobs, name) {
          var i :| 0 <= i < |jobs| && jobs[i].job == name && jobs[i].state == Complete
                   && forall j | 0 <= j < i :: jobs[j].job != name;
          assert jobs[1..][i - 1] == jobs[i];
        }
      }
    }
  }

  lemma EnsureIs(rs: Status, seen: map<string, Job>, env: Env, name: string)
    ensures var e := Ensure(rs, seen, env, name);
            && (e.JobDone? <==> Over(rs, seen, env, name))
            && (e.JobFailed? <==> Broken(seen, env, name))
            && (e.JobGone? <==> Deleted(rs, seen, env, name))
            && (e.EnsureFails? <==> Unanswered(rs, seen, env, name))
            && (e.JobAbsent? <==> Unheard(rs, seen, env, name))
            && (e.JobRuns? <==> Busy(seen, env, name))
  {
    LastCompleteIs(rs.jobs, name);
    assert KnownJob(rs, name) <==> OnRecord(rs.jobs, name);
    if LastComplete(rs.jobs, name) { assert OnRecord(rs.jobs, name); }
  }

  // The reconcile stops at the first Job that is not over.
  lemma StopsAt(cfg: Config, rs: Status, seen: map<string, Job>, env: Env, i: nat)
    requires ArrivesAt(cfg, rs, seen, env, i) && !Over(rs, seen, env, Steps(cfg, env.plan)[i].name)
    ensures FirstUndone(rs, seen, env, Steps(cfg, env.plan)) == i
  {
    var steps := Steps(cfg, env.plan);
    var k := FirstUndone(rs, seen, env, steps);
    EnsureIs(rs, seen, env, steps[i].name);
    if k < |steps| { EnsureIs(rs, seen, env, steps[k].name); }
  }

  lemma Somewhere(cfg: Config, rs: Status, seen: map<string, Job>, env: Env) returns (i: nat)
    ensures i == FirstUndone(rs, seen, env, Steps(cfg, env.plan))
    ensures i == |Steps(cfg, env.plan)| <==> AllOver(cfg, rs, seen, env)
    ensures i < |Steps(cfg, env.plan)| ==>
              ArrivesAt(cfg, rs, seen, env, i) && !Over(rs, seen, env, Steps(cfg, env.plan)[i].name)
  {
    var steps := Steps(cfg, env.plan);
    i := FirstUndone(rs, seen, env, steps);
    forall j | 0 <= j < |steps| ensures Ensure(rs, seen, env, steps[j].name).JobDone? <==> Over(rs, seen, env, steps[j].name) {
      EnsureIs(rs, seen, env, steps[j].name);
    }
    if i < |steps| { assert steps[i] in steps; }
  }

  // What is decided at the first Job that is not over, and past the last Job.
  lemma DecidedAt(cfg: Config, rs: Status, seen: map<string, Job>, env: Env, i: nat)
    requires PastGates(cfg, rs, env) && ArrivesAt(cfg, rs, seen, env, i) && !Over(rs, seen, env, Steps(cfg, env.plan)[i].name)
    ensures var step := Steps(cfg, env.plan)[i];
            var e := Ensure(rs, seen, env, step.name);
            !e.JobDone? && Decide(cfg, rs, seen, env) == Settle(step, e)
  {
    StopsAt(cfg, rs, seen, env, i);
    EnsureIs(rs, seen, env, Steps(cfg, env.plan)[i].name);
    DecideIsWalk(cfg, rs, seen, env);
  }

  lemma DecidedAfterAll(cfg: Config, rs: Status, seen: map<string, Job>, env: Env)
    requires PastGates(cfg, rs, env) && AllOver(cfg, rs, seen, env)
    ensures Decide(cfg, rs, seen, env) == Tail(env.plan)
  {
    var i := Somewhere(cfg, rs, seen, env);
    WalksToTheEnd(cfg, rs, seen, env);
    DecideIsWalk(cfg, rs, seen, env);
  }

  // ---- what a reconcile leaves behind ---------------------------------------------------------------------

  ghost predicate EndsWith(log: seq<Effect>, tail: seq<Effect>) {
    |tail| <= |log| && log[|log| - |tail|..] == tail
  }

  // The Ready condition as it is set anew; its time moves only when readiness flips.
  ghost predicate Stamped(cfg: Config, rs: Status, env: Env, now: Status, ready: bool, reason: Reason, message: Message) {
    && now.ready.Some?
    && var c := now.ready.value;
       && c.ready == ready && c.reason == reason && c.message == message && c.generation == cfg.generation
       && c.since == if rs.ready.Some? && rs.ready.value.ready == ready then rs.ready.value.since else env.now
  }

  // The condition says something new.
  predicate News(cfg: Config, rs: Status, ready: bool, reason: Reason, message: Message) {
    rs.ready.None? || rs.ready.value.ready != ready || rs.ready.value.reason != reason || rs.ready.value.message != message
    || rs.ready.value.generation != cfg.generation
  }

  predicate OnceSet(before: Option<int>, after: Option<int>, now: int) {
    after == if before.Some? then before else Some(now)
  }

  // The entry of a listed Job shows its state as it is now.
  ghost predicate ShowsListed(listed: map<string, Job>, e: JobEntry) {
    && e.job in listed && listed[e.job].labelled
    && e.state == if listed[e.job].failed then FailedState else if listed[e.job].complete then Complete else Active
  }

  // Every listed Job of the restore shows its state, entries of others stay; a listing that fails leaves all alone.
  ghost predicate ShowsJobs(rs: Status, env: Env, d: Cluster) {
    if env.listing.ListFails? then d.status.jobs == rs.jobs
    else
      var listed := Look(env.listing.view, d.jobs);
      && (forall n | n in listed && listed[n].labelled :: exists e :: e in d.status.jobs && e.job == n && ShowsListed(listed, e))
      && (forall e | e in d.status.jobs :: ShowsListed(listed, e) || e in rs.jobs)
      && (forall e | e in rs.jobs && !(e.job in listed && listed[e.job].labelled) :: e in d.status.jobs)
  }

  lemma LiveJobsShow(cfg: Config, rs: Status, env: Env, d: Cluster)
    requires UniqueJobs(rs.jobs) && d.status.jobs == LiveJobs(cfg, rs, env.listing, d.jobs)
    ensures ShowsJobs(rs, env, d)
  {
    if env.listing.Listed? {
      var listed := Look(env.listing.view, d.jobs);
      SnapshotRemembers(cfg.name, rs.jobs, listed);
      forall n | n in listed && listed[n].labelled ensures exists e :: e in d.status.jobs && e.job == n && ShowsListed(listed, e) {
        assert n in LabelledNames(listed);
        assert ShowsListed(listed, LiveEntry(cfg.name, n, listed[n]));
      }
      forall e | e in d.status.jobs ensures ShowsListed(listed, e) || e in rs.jobs {
        SnapshotOnly(cfg.name, rs.jobs, listed, e);
      }
    }
  }

  // The writes that record a status, and the event that goes with news.
  function Telling(cfg: Config, rs: Status, ready: bool, reason: Reason, message: Message): seq<Effect> {
    [StatusPatched] + (if News(cfg, rs, ready, reason, message) then [Event(!ready, reason, message)] else [])
  }

  // Over for good: no Job is created, the end is stamped once, news is told by one event, and nothing is asked again.
  // What an old copy already says the patch leaves out, so the other fields are told of a copy that is current.
  ghost predicate Ends(cfg: Config, c: Cluster, rs: Status, env: Env, d: Cluster, r: Result,
                       phase: Phase, ready: bool, reason: Reason, message: Message)
  {
    && r == Finished && d.status.phase == phase && d.jobs == c.jobs
    && EndsWith(d.log, Telling(cfg, rs, ready, reason, message))
    && d.status.startedAt == c.status.startedAt && (rs.completedAt.Some? ==> d.status.completedAt == c.status.completedAt)
    && (c.status == rs ==>
          && Stamped(cfg, rs, env, d.status, ready, reason, message)
          && OnceSet(rs.completedAt, d.status.completedAt, env.now) && d.status.startedAt == rs.startedAt
          && (UniqueJobs(rs.jobs) ==> ShowsJobs(rs, env, d)))
  }

  ghost predicate EndsFailed(cfg: Config, c: Cluster, rs: Status, env: Env, reason: Reason, message: Message) {
    Ends(cfg, c, rs, env, Reconcile(cfg, c, rs, env).0, Reconcile(cfg, c, rs, env).1, Failed, false, reason, message)
  }

  ghost predicate EndsCompleted(cfg: Config, c: Cluster, rs: Status, env: Env) {
    Ends(cfg, c, rs, env, Reconcile(cfg, c, rs, env).0, Reconcile(cfg, c, rs, env).1, Completed, true, JobsCompleted, RestoreCompleted)
  }

  // Waiting: no Job is created, and beside the condition only a phase New becomes StagingAPI; asked again in a minute.
  ghost predicate Waits(cfg: Config, c: Cluster, rs: Status, env: Env, d: Cluster, r: Result, reason: Reason, message: Message) {
    && r == Requeue(60) && d.jobs == c.jobs && d.status.jobs == c.status.jobs
    && d.status.startedAt == c.status.startedAt && d.status.completedAt == c.status.completedAt
    && (c.status == rs ==>
          && Stamped(cfg, rs, env, d.status, false, reason, message)
          && d.status.phase == (if rs.phase == New then StagingAPI else rs.phase)
          && d.status == rs.(phase := d.status.phase, ready := d.status.ready)
          && (d.status != rs ==> EndsWith(d.log, Telling(cfg, rs, false, reason, message))))
  }

  ghost predicate EndsWaiting(cfg: Config, c: Cluster, rs: Status, env: Env, reason: Reason, message: Message) {
    Waits(cfg, c, rs, env, Reconcile(cfg, c, rs, env).0, Reconcile(cfg, c, rs, env).1, reason, message)
  }

  // Going on: the phase of the Job it waits for, the start stamped once, no event; asked again in a minute.
  ghost predicate GoesOn(cfg: Config, c: Cluster, rs: Status, env: Env, d: Cluster, r: Result, phase: Phase) {
    && r == Requeue(60)
    && d.status.completedAt == c.status.completedAt && (rs.startedAt.Some? ==> d.status.startedAt == c.status.startedAt)
    && (c.status == rs ==>
          && Stamped(cfg, rs, env, d.status, false, Running, InPhase(phase)) && d.status.phase == phase
          && OnceSet(rs.startedAt, d.status.startedAt, env.now) && d.status.completedAt == rs.completedAt
          && (UniqueJobs(rs.jobs) ==> ShowsJobs(rs, env, d))
          && (d.status != rs ==> EndsWith(d.log, [StatusPatched])))
  }

  ghost predicate EndsGoingOn(cfg: Config, c: Cluster, rs: Status, env: Env, phase: Phase) {
    GoesOn(cfg, c, rs, env, Reconcile(cfg, c, rs, env).0, Reconcile(cfg, c, rs, env).1, phase)
  }

  // ---- recording ----------------------------------------------------------------------------------------------

  lemma EnsuringLeaves(cfg: Config, c: Cluster, rs: Status, env: Env)
    ensures Ensuring(cfg, c, rs, env).status == c.status
    ensures Creation(cfg, rs, Look(env.jobs, c.jobs), env).None? ==> Ensuring(cfg, c, rs, env).jobs == c.jobs
  {
  }

  lemma AppendEnds(log: seq<Effect>, first: seq<Effect>, more: seq<Effect>)
    ensures EndsWith(log + first + more, first + more)
  {
    assert log + first + more == log + (first + more);
  }

  lemma PatchedLog(cfg: Config, mid: Cluster, rs: Status, out: Outcome, env: Env)
    requires !out.Ignored? && !out.ApiFails? && !env.patchFails && Recorded(cfg, rs, out, env, mid.jobs) != rs
    ensures Record(cfg, mid, rs, out, env).0.log == mid.log + [StatusPatched] + Emitted(cfg, rs, out, env.now)
    ensures EndsWith(Record(cfg, mid, rs, out, env).0.log, [StatusPatched] + Emitted(cfg, rs, out, env.now))
  {
    AppendEnds(mid.log, [StatusPatched], Emitted(cfg, rs, out, env.now));
  }

  lemma EmittedIs(cfg: Config, rs: Status, out: Outcome, now: int)
    requires out.Holds? || out.Fails? || out.Finishes? || out.Advances?
    ensures [StatusPatched] + Emitted(cfg, rs, out, now)
            == if out.Advances? then [StatusPatched] else Telling(cfg, rs, out.Finishes?, OutcomeReason(out), OutcomeMessage(out))
  {
  }

  lemma RecordEnds(cfg: Config, mid: Cluster, rs: Status, out: Outcome, env: Env)
    requires (out.Fails? || out.Finishes?) && !Terminal(rs.phase) && !env.patchFails
    ensures Ends(cfg, mid, rs, env, Record(cfg, mid, rs, out, env).0, Record(cfg, mid, rs, out, env).1,
                 if out.Fails? then Failed else Completed, out.Finishes?, OutcomeReason(out), OutcomeMessage(out))
  {
    assert Recorded(cfg, rs, out, env, mid.jobs).phase != rs.phase;
    PatchedLog(cfg, mid, rs, out, env);
    EmittedIs(cfg, rs, out, env.now);
    if mid.status == rs && UniqueJobs(rs.jobs) { LiveJobsShow(cfg, rs, env, Record(cfg, mid, rs, out, env).0); }
  }

  lemma RecordWaits(cfg: Config, mid: Cluster, rs: Status, out: Outcome, env: Env)
    requires out.Holds? && !env.patchFails
    ensures Waits(cfg, mid, rs, env, Record(cfg, mid, rs, out, env).0, Record(cfg, mid, rs, out, env).1,
                  out.reason, out.message)
  {
    var after := Recorded(cfg, rs, out, env, mid.jobs);
    if after != rs {
      PatchedLog(cfg, mid, rs, out, env);
      EmittedIs(cfg, rs, out, env.now);
    }
    assert mid.status == rs ==> Record(cfg, mid, rs, out, env).0.status == after;
  }

  lemma RecordGoesOn(cfg: Config, mid: Cluster, rs: Status, out: Outcome, env: Env)
    requires out.Advances? && !env.patchFails
    ensures GoesOn(cfg, mid, rs, env, Record(cfg, mid, rs, out, env).0, Record(cfg, mid, rs, out, env).1, out.phase)
  {
    var after := Recorded(cfg, rs, out, env, mid.jobs);
    if after != rs {
      PatchedLog(cfg, mid, rs, out, env);
      EmittedIs(cfg, rs, out, env.now);
    }
    assert mid.status == rs ==> Record(cfg, mid, rs, out, env).0.status == after;
    if mid.status == rs && UniqueJobs(rs.jobs) { LiveJobsShow(cfg, rs, env, Record(cfg, mid, rs, out, env).0); }
  }

  // ---- each case ------------------------------------------------------------------------------------------------

  // From a decision of a kind to its record, whatever adopting and creating did before.
  lemma DecisionEnds(cfg: Config, c: Cluster, rs: Status, env: Env, out: Outcome)
    requires !Terminal(rs.phase) && !env.patchFails && (out.Fails? || out.Finishes?)
    requires Decide(cfg, rs, Look(env.jobs, c.jobs), env) == out && Creation(cfg, rs, Look(env.jobs, c.jobs), env).None?
    ensures Ends(cfg, c, rs, env, Reconcile(cfg, c, rs, env).0, Reconcile(cfg, c, rs, env).1,
                 if out.Fails? then Failed else Completed, out.Finishes?, OutcomeReason(out), OutcomeMessage(out))
  {
    EnsuringLeaves(cfg, c, rs, env);
    RecordEnds(cfg, Ensuring(cfg, c, rs, env), rs, out, env);
  }

  lemma DecisionWaits(cfg: Config, c: Cluster, rs: Status, env: Env, out: Outcome)
    requires !env.patchFails && out.Holds?
    requires Decide(cfg, rs, Look(env.jobs, c.jobs), env) == out && Creation(cfg, rs, Look(env.jobs, c.jobs), env).None?
    ensures EndsWaiting(cfg, c, rs, env, out.reason, out.message)
  {
    EnsuringLeaves(cfg, c, rs, env);
    RecordWaits(cfg, Ensuring(cfg, c, rs, env), rs, out, env);
  }

  lemma DecisionGoesOn(cfg: Config, c: Cluster, rs: Status, env: Env, phase: Phase)
    requires !env.patchFails && Decide(cfg, rs, Look(env.jobs, c.jobs), env) == Advances(phase)
    ensures EndsGoingOn(cfg, c, rs, env, phase)
  {
    EnsuringLeaves(cfg, c, rs, env);
    RecordGoesOn(cfg, Ensuring(cfg, c, rs, env), rs, Advances(phase), env);
  }

  // What stands at the first Job that is not over decides alone.
  lemma OnlyThere(cfg: Config, rs: Status, seen: map<string, Job>, env: Env, i: nat)
    requires ArrivesAt(cfg, rs, seen, env, i) && !Over(rs, seen, env, Steps(cfg, env.plan)[i].name)
    requires !Unheard(rs, seen, env, Steps(cfg, env.plan)[i].name)
    ensures Creation(cfg, rs, seen, env).None?
  {
    StopsAt(cfg, rs, seen, env, i);
    EnsureIs(rs, seen, env, Steps(cfg, env.plan)[i].name);
  }

  /** A failed Job of the pipeline, every earlier one over, fails the restore for good. */
  lemma FailedJobFails(cfg: Config, c: Cluster, rs: Status, env: Env, i: nat)
    requires PastGates(cfg, rs, env) && ArrivesAt(cfg, rs, Look(env.jobs, c.jobs), env, i) && !env.patchFails
    requires Broken(Look(env.jobs, c.jobs), env, Steps(cfg, env.plan)[i].name)
    ensures EndsFailed(cfg, c, rs, env, JobsFailed, FailedMessage(Steps(cfg, env.plan)[i].name))
  {
    var seen, name := Look(env.jobs, c.jobs), Steps(cfg, env.plan)[i].name;
    DecidedAt(cfg, rs, seen, env, i);
    EnsureIs(rs, seen, env, name);
    OnlyThere(cfg, rs, seen, env, i);
    DecisionEnds(cfg, c, rs, env, Fails(JobsFailed, FailedMessage(name)));
  }

  /** A Job that vanished before it was recorded complete is not created again: the restore waits. */
  lemma DeletedJobWaits(cfg: Config, c: Cluster, rs: Status, env: Env, i: nat)
    requires PastGates(cfg, rs, env) && ArrivesAt(cfg, rs, Look(env.jobs, c.jobs), env, i) && !env.patchFails
    requires Deleted(rs, Look(env.jobs, c.jobs), env, Steps(cfg, env.plan)[i].name)
    ensures EndsWaiting(cfg, c, rs, env, JobDeleted, DeletedMessage(Steps(cfg, env.plan)[i].name))
  {
    var seen, name := Look(env.jobs, c.jobs), Steps(cfg, env.plan)[i].name;
    DecidedAt(cfg, rs, seen, env, i);
    EnsureIs(rs, seen, env, name);
    OnlyThere(cfg, rs, seen, env, i);
    DecisionWaits(cfg, c, rs, env, Holds(JobDeleted, DeletedMessage(name)));
  }

  /** A Job still at work is waited for, in its phase. */
  lemma BusyJobGoesOn(cfg: Config, c: Cluster, rs: Status, env: Env, i: nat)
    requires PastGates(cfg, rs, env) && ArrivesAt(cfg, rs, Look(env.jobs, c.jobs), env, i) && !env.patchFails
    requires Busy(Look(env.jobs, c.jobs), env, Steps(cfg, env.plan)[i].name)
    ensures EndsGoingOn(cfg, c, rs, env, Steps(cfg, env.plan)[i].phase) && Reconcile(cfg, c, rs, env).0.jobs == c.jobs
  {
    var seen, name := Look(env.jobs, c.jobs), Steps(cfg, env.plan)[i].name;
    DecidedAt(cfg, rs, seen, env, i);
    EnsureIs(rs, seen, env, name);
    OnlyThere(cfg, rs, seen, env, i);
    EnsuringLeaves(cfg, c, rs, env);
    DecisionGoesOn(cfg, c, rs, env, Steps(cfg, env.plan)[i].phase);
  }

  lemma CreationThere(cfg: Config, rs: Status, seen: map<string, Job>, env: Env, i: nat)
    requires PastGates(cfg, rs, env) && ArrivesAt(cfg, rs, seen, env, i)
    requires Unheard(rs, seen, env, Steps(cfg, env.plan)[i].name)
    ensures Creation(cfg, rs, seen, env) == Some(Steps(cfg, env.plan)[i])
    ensures Decide(cfg, rs, seen, env) == Advances(Steps(cfg, env.plan)[i].phase)
  {
    EnsureIs(rs, seen, env, Steps(cfg, env.plan)[i].name);
    StopsAt(cfg, rs, seen, env, i);
    DecidedAt(cfg, rs, seen, env, i);
  }

  lemma EnsuringCreates(cfg: Config, c: Cluster, rs: Status, env: Env, step: Step)
    requires Creation(cfg, rs, Look(env.jobs, c.jobs), env) == Some(step)
    ensures var mid := Ensuring(cfg, c, rs, env);
            mid.jobs == if step.name in c.jobs then c.jobs else c.jobs[step.name := Job(step.work, true, false, false)]
  {
  }

  /** A Job never heard of is created, labelled and fresh, unless a lagging read missed it; only the patch can fail now. */
  lemma UnheardJobIsCreated(cfg: Config, c: Cluster, rs: Status, env: Env, i: nat)
    requires PastGates(cfg, rs, env) && ArrivesAt(cfg, rs, Look(env.jobs, c.jobs), env, i)
    requires Unheard(rs, Look(env.jobs, c.jobs), env, Steps(cfg, env.plan)[i].name)
    ensures var step := Steps(cfg, env.plan)[i];
            && Reconcile(cfg, c, rs, env).0.jobs
               == (if step.name in c.jobs then c.jobs else c.jobs[step.name := Job(step.work, true, false, false)])
            && (!env.patchFails ==> EndsGoingOn(cfg, c, rs, env, step.phase))
  {
    CreationThere(cfg, rs, Look(env.jobs, c.jobs), env, i);
    EnsuringCreates(cfg, c, rs, env, Steps(cfg, env.plan)[i]);
    if !env.patchFails { DecisionGoesOn(cfg, c, rs, env, Steps(cfg, env.plan)[i].phase); }
  }

  // An API error: nothing is recorded, and the queue retries.
  ghost predicate EndsErring(cfg: Config, c: Cluster, rs: Status, env: Env) {
    && Reconcile(cfg, c, rs, env).1 == Errored
    && Reconcile(cfg, c, rs, env).0.status == c.status && Reconcile(cfg, c, rs, env).0.jobs == c.jobs
  }

  lemma DecisionErrs(cfg: Config, c: Cluster, rs: Status, env: Env)
    requires Decide(cfg, rs, Look(env.jobs, c.jobs), env).ApiFails? && Creation(cfg, rs, Look(env.jobs, c.jobs), env).None?
    ensures EndsErring(cfg, c, rs, env)
  {
    EnsuringLeaves(cfg, c, rs, env);
  }

  lemma UnansweredErrs(cfg: Config, c: Cluster, rs: Status, env: Env, i: nat)
    requires PastGates(cfg, rs, env) && ArrivesAt(cfg, rs, Look(env.jobs, c.jobs), env, i)
    requires Unanswered(rs, Look(env.jobs, c.jobs), env, Steps(cfg, env.plan)[i].name)
    ensures EndsErring(cfg, c, rs, env)
  {
    var seen, name := Look(env.jobs, c.jobs), Steps(cfg, env.plan)[i].name;
    EnsureIs(rs, seen, env, name);
    DecidedAt(cfg, rs, seen, env, i);
    OnlyThere(cfg, rs, seen, env, i);
    DecisionErrs(cfg, c, rs, env);
  }

  // ---- past the Jobs, and before them --------------------------------------------------------------------

  ghost predicate Fetched(cfg: Config, rs: Status, seen: map<string, Job>, env: Env) {
    Over(rs, seen, env, cfg.names.fetch)
  }

  ghost predicate PreApplied(cfg: Config, rs: Status, seen: map<string, Job>, env: Env) {
    Over(rs, seen, env, cfg.names.fetch) && Over(rs, seen, env, cfg.names.pre)
  }

  // The name of the Job that restores a claim.
  function VolumeJob(cfg: Config, plan: Plan, pvc: string): string
    requires plan.VolumePlan?
  {
    cfg.names.volume(if NodeForPVC(plan.docs, pvc) == "" then plan.fallback else NodeForPVC(plan.docs, pvc))
  }

  ghost predicate WholePlanOver(cfg: Config, rs: Status, seen: map<string, Job>, env: Env) {
    && env.plan.VolumePlan? && PreApplied(cfg, rs, seen, env) && Over(rs, seen, env, cfg.names.workload)
    && forall p | p in env.plan.pvcs :: Over(rs, seen, env, VolumeJob(cfg, env.plan, p))
  }

  lemma VolumeStepFor(cfg: Config, plan: Plan, pvc: string) returns (s: Step)
    requires plan.VolumePlan? && pvc in plan.pvcs
    ensures s in VolumeSteps(cfg, plan) && s.name == VolumeJob(cfg, plan, pvc)
  {
    var nodes := InOrder(PlanNodes(plan.docs, plan.fallback, plan.pvcs));
    assert Placement(plan.docs, plan.fallback, pvc) in nodes;
    var i :| 0 <= i < |nodes| && nodes[i] == Placement(plan.docs, plan.fallback, pvc);
    s := VolumeSteps(cfg, plan)[i];
  }

  lemma VolumeStepOf(cfg: Config, plan: Plan, s: Step) returns (pvc: string)
    requires plan.VolumePlan? && s in VolumeSteps(cfg, plan)
    ensures pvc in plan.pvcs && s.name == VolumeJob(cfg, plan, pvc)
  {
    var nodes := InOrder(PlanNodes(plan.docs, plan.fallback, plan.pvcs));
    var i :| 0 <= i < |VolumeSteps(cfg, plan)| && VolumeSteps(cfg, plan)[i] == s;
    assert nodes[i] in nodes;
    pvc :| pvc in plan.pvcs && Placement(plan.docs, plan.fallback, pvc) == nodes[i];
  }

  lemma StepsOfWholePlan(cfg: Config, plan: Plan, s: Step)
    requires plan.VolumePlan?
    ensures s in Steps(cfg, plan) <==>
              s == FetchStep(cfg) || s == PreStep(cfg) || s in VolumeSteps(cfg, plan) || s == WorkloadStep(cfg)
  {
  }

  // The Jobs of a plan, by name: the fetch, the pre apply once the ConfigMap is there, and with a whole plan one Job per
  // claim's node and the workload apply.
  lemma AllOverIs(cfg: Config, rs: Status, seen: map<string, Job>, env: Env)
    ensures AllOver(cfg, rs, seen, env) <==>
            if env.plan.PlanUnread? || env.plan.PlanMissing? then Fetched(cfg, rs, seen, env)
            else if env.plan.VolumePlan? then WholePlanOver(cfg, rs, seen, env)
            else PreApplied(cfg, rs, seen, env)
  {
    if env.plan.VolumePlan? {
      if AllOver(cfg, rs, seen, env) { WholeFromAll(cfg, rs, seen, env); }
      if WholePlanOver(cfg, rs, seen, env) { AllFromWhole(cfg, rs, seen, env); }
    } else {
      var steps := Steps(cfg, env.plan);
      assert steps[0] in steps;
      if Present(env.plan) { assert steps[1] in steps; }
    }
  }

  lemma WholeFromAll(cfg: Config, rs: Status, seen: map<string, Job>, env: Env)
    requires env.plan.VolumePlan? && AllOver(cfg, rs, seen, env)
    ensures WholePlanOver(cfg, rs, seen, env)
  {
    StepsOfWholePlan(cfg, env.plan, FetchStep(cfg));
    StepsOfWholePlan(cfg, env.plan, PreStep(cfg));
    StepsOfWholePlan(cfg, env.plan, WorkloadStep(cfg));
    forall p | p in env.plan.pvcs ensures Over(rs, seen, env, VolumeJob(cfg, env.plan, p)) {
      var s := VolumeStepFor(cfg, env.plan, p);
      StepsOfWholePlan(cfg, env.plan, s);
    }
  }

  lemma AllFromWhole(cfg: Config, rs: Status, seen: map<string, Job>, env: Env)
    requires WholePlanOver(cfg, rs, seen, env)
    ensures AllOver(cfg, rs, seen, env)
  {
    forall s | s in Steps(cfg, env.plan) ensures Over(rs, seen, env, s.name) {
      StepsOfWholePlan(cfg, env.plan, s);
      if s in VolumeSteps(cfg, env.plan) {
        var p := VolumeStepOf(cfg, env.plan, s);
      }
    }
  }

  lemma PastAllCreatesNothing(cfg: Config, rs: Status, seen: map<string, Job>, env: Env)
    requires AllOver(cfg, rs, seen, env)
    ensures Creation(cfg, rs, seen, env).None?
  {
    var i := Somewhere(cfg, rs, seen, env);
  }

  /** Past the plan's Jobs: an unreadable ConfigMap or node list is an error, a missing ConfigMap or a claim without a node
      is waited for, a payload that does not parse fails the restore, and a whole plan completes it. */
  lemma PastAllJobs(cfg: Config, c: Cluster, rs: Status, env: Env)
    requires PastGates(cfg, rs, env) && !env.patchFails
    ensures var seen := Look(env.jobs, c.jobs);
            match env.plan
            case PlanUnread => Fetched(cfg, rs, seen, env) ==> EndsErring(cfg, c, rs, env)
            case PlanMissing => Fetched(cfg, rs, seen, env) ==> EndsWaiting(cfg, c, rs, env, ApiManifestMissing, ManifestAbsent)
            case PlanRejected(e) => PreApplied(cfg, rs, seen, env) ==> EndsFailed(cfg, c, rs, env, InvalidSpec, ManifestMessage(e))
            case PlanNodesFail => PreApplied(cfg, rs, seen, env) ==> EndsErring(cfg, c, rs, env)
            case PlanUnplaceable(p) => PreApplied(cfg, rs, seen, env) ==> EndsWaiting(cfg, c, rs, env, PlacementFailed, Unplaceable(p))
            case VolumePlan(_, _, _) => WholePlanOver(cfg, rs, seen, env) ==> EndsCompleted(cfg, c, rs, env)
  {
    var seen := Look(env.jobs, c.jobs);
    AllOverIs(cfg, rs, seen, env);
    if AllOver(cfg, rs, seen, env) {
      DecidedAfterAll(cfg, rs, seen, env);
      PastAllCreatesNothing(cfg, rs, seen, env);
      var out := Tail(env.plan);
      if out.ApiFails? { DecisionErrs(cfg, c, rs, env); }
      if out.Holds? { DecisionWaits(cfg, c, rs, env, out); }
      if out.Fails? || out.Finishes? { DecisionEnds(cfg, c, rs, env, out); }
    }
  }

  lemma BeforeGatesCreatesNothing(cfg: Config, rs: Status, seen: map<string, Job>, env: Env)
    requires !PastGates(cfg, rs, env)
    ensures Creation(cfg, rs, seen, env).None?
  {
  }

  function IssueOf(cfg: Config): SpecIssue {
    if cfg.repoRef == "" then NoRepoRef
    else if cfg.snapshotRef == "" then NoSnapshotRef
    else if cfg.targetNamespace == "" then NoTargetNamespace
    else MalformedSnapshotRef
  }

  /** At the gates: a restore that is over is left as it is, a broken spec fails it, a shut gate is waited for. */
  lemma AtTheGates(cfg: Config, c: Cluster, rs: Status, env: Env)
    requires !env.patchFails
    ensures rs.phase == Completed || rs.phase == Failed ==>
              Reconcile(cfg, c, rs, env).0 == c && Reconcile(cfg, c, rs, env).1 == Finished
    ensures !Terminal(rs.phase) && SpecBroken(cfg) ==>
              EndsFailed(cfg, c, rs, env, InvalidSpec, SpecMessage(IssueOf(cfg)))
    ensures !Terminal(rs.phase) && !SpecBroken(cfg) && env.gate.Unreachable? ==> EndsErring(cfg, c, rs, env)
    ensures !Terminal(rs.phase) && !SpecBroken(cfg) && env.gate.Held? ==>
              EndsWaiting(cfg, c, rs, env, env.gate.reason, env.gate.message)
  {
    if !PastGates(cfg, rs, env) {
      var seen := Look(env.jobs, c.jobs);
      BeforeGatesCreatesNothing(cfg, rs, seen, env);
      var out := Decide(cfg, rs, seen, env);
      if out.ApiFails? { DecisionErrs(cfg, c, rs, env); }
      if out.Holds? { DecisionWaits(cfg, c, rs, env, out); }
      if out.Fails? { DecisionEnds(cfg, c, rs, env, out); }
    }
  }

  // ---- exactly ------------------------------------------------------------------------------------------------

  ghost predicate SomeBroken(cfg: Config, rs: Status, seen: map<string, Job>, env: Env) {
    exists i: nat :: ArrivesAt(cfg, rs, seen, env, i) && Broken(seen, env, Steps(cfg, env.plan)[i].name)
  }

  ghost predicate SomeUnanswered(cfg: Config, rs: Status, seen: map<string, Job>, env: Env) {
    exists i: nat :: ArrivesAt(cfg, rs, seen, env, i) && Unanswered(rs, seen, env, Steps(cfg, env.plan)[i].name)
  }

  // Only one Job can be the first that is not over.
  lemma OneArrival(cfg: Config, rs: Status, seen: map<string, Job>, env: Env, i: nat)
    requires ArrivesAt(cfg, rs, seen, env, i) && !Over(rs, seen, env, Steps(cfg, env.plan)[i].name)
    ensures !AllOver(cfg, rs, seen, env)
    ensures SomeBroken(cfg, rs, seen, env) <==> Broken(seen, env, Steps(cfg, env.plan)[i].name)
    ensures SomeUnanswered(cfg, rs, seen, env) <==> Unanswered(rs, seen, env, Steps(cfg, env.plan)[i].name)
  {
    assert Steps(cfg, env.plan)[i] in Steps(cfg, env.plan);
    if SomeBroken(cfg, rs, seen, env) {
      var k: nat :| ArrivesAt(cfg, rs, seen, env, k) && Broken(seen, env, Steps(cfg, env.plan)[k].name);
      SameArrival(cfg, rs, seen, env, i, k);
    }
    if SomeUnanswered(cfg, rs, seen, env) {
      var k: nat :| ArrivesAt(cfg, rs, seen, env, k) && Unanswered(rs, seen, env, Steps(cfg, env.plan)[k].name);
      SameArrival(cfg, rs, seen, env, i, k);
    }
  }

  lemma SameArrival(cfg: Config, rs: Status, seen: map<string, Job>, env: Env, i: nat, k: nat)
    requires ArrivesAt(cfg, rs, seen, env, i) && !Over(rs, seen, env, Steps(cfg, env.plan)[i].name)
    requires ArrivesAt(cfg, rs, seen, env, k) && !Over(rs, seen, env, Steps(cfg, env.plan)[k].name)
    ensures i == k
  {
  }

  lemma NoArrival(cfg: Config, rs: Status, seen: map<string, Job>, env: Env)
    requires AllOver(cfg, rs, seen, env)
    ensures !SomeBroken(cfg, rs, seen, env) && !SomeUnanswered(cfg, rs, seen, env)
  {
    forall i: nat | ArrivesAt(cfg, rs, seen, env, i) ensures Over(rs, seen, env, Steps(cfg, env.plan)[i].name) {
      assert Steps(cfg, env.plan)[i] in Steps(cfg, env.plan);
    }
  }

  // The facts that fail a restore.
  ghost predicate MustFail(cfg: Config, rs: Status, seen: map<string, Job>, env: Env) {
    || SpecBroken(cfg)
    || (PastGates(cfg, rs, env) && SomeBroken(cfg, rs, seen, env))
    || (PastGates(cfg, rs, env) && env.plan.PlanRejected? && PreApplied(cfg, rs, seen, env))
  }

  // The facts that stop a reconcile with an API error.
  ghost predicate MustErr(cfg: Config, rs: Status, seen: map<string, Job>, env: Env) {
    || (!SpecBroken(cfg) && env.gate.Unreachable?)
    || (PastGates(cfg, rs, env) && SomeUnanswered(cfg, rs, seen, env))
    || (PastGates(cfg, rs, env) && env.plan.PlanUnread? && Fetched(cfg, rs, seen, env))
    || (PastGates(cfg, rs, env) && env.plan.PlanNodesFail? && PreApplied(cfg, rs, seen, env))
  }

  // A decision is of the kind the facts call for.
  ghost predicate Fits(cfg: Config, rs: Status, seen: map<string, Job>, env: Env, out: Outcome) {
    && (out.Fails? <==> MustFail(cfg, rs, seen, env))
    && (out.Finishes? <==> PastGates(cfg, rs, env) && WholePlanOver(cfg, rs, seen, env))
    && (out.ApiFails? <==> MustErr(cfg, rs, seen, env))
    && !out.Ignored?
    && (out.Advances? ==> !Terminal(out.phase))
  }

  lemma FitsAfterAll(cfg: Config, rs: Status, seen: map<string, Job>, env: Env)
    requires PastGates(cfg, rs, env) && AllOver(cfg, rs, seen, env)
    ensures Fits(cfg, rs, seen, env, Decide(cfg, rs, seen, env))
  {
    AllOverIs(cfg, rs, seen, env);
    DecidedAfterAll(cfg, rs, seen, env);
    NoArrival(cfg, rs, seen, env);
  }

  lemma MustAt(cfg: Config, rs: Status, seen: map<string, Job>, env: Env, i: nat)
    requires PastGates(cfg, rs, env) && ArrivesAt(cfg, rs, seen, env, i)
    requires !Over(rs, seen, env, Steps(cfg, env.plan)[i].name)
    ensures MustFail(cfg, rs, seen, env) <==> Broken(seen, env, Steps(cfg, env.plan)[i].name)
    ensures MustErr(cfg, rs, seen, env) <==> Unanswered(rs, seen, env, Steps(cfg, env.plan)[i].name)
    ensures !WholePlanOver(cfg, rs, seen, env)
  {
    AllOverIs(cfg, rs, seen, env);
    OneArrival(cfg, rs, seen, env, i);
  }

  lemma FitsAt(cfg: Config, rs: Status, seen: map<string, Job>, env: Env, i: nat)
    requires PastGates(cfg, rs, env) && ArrivesAt(cfg, rs, seen, env, i)
    requires !Over(rs, seen, env, Steps(cfg, env.plan)[i].name)
    ensures Fits(cfg, rs, seen, env, Decide(cfg, rs, seen, env))
  {
    DecidedAt(cfg, rs, seen, env, i);
    MustAt(cfg, rs, seen, env, i);
    EnsureIs(rs, seen, env, Steps(cfg, env.plan)[i].name);
    PhaseOfStep(cfg, env.plan, i);
  }

  lemma DecidesExactly(cfg: Config, rs: Status, seen: map<string, Job>, env: Env)
    requires rs.phase != Completed && rs.phase != Failed
    ensures Fits(cfg, rs, seen, env, Decide(cfg, rs, seen, env))
  {
    if PastGates(cfg, rs, env) {
      var i := Somewhere(cfg, rs, seen, env);
      if AllOver(cfg, rs, seen, env) { FitsAfterAll(cfg, rs, seen, env); } else { FitsAt(cfg, rs, seen, env, i); }
    }
  }

  // The phase on the server afterwards, on whatever copy was read.
  lemma RecordedPhase(cfg: Config, mid: Cluster, rs: Status, out: Outcome, env: Env)
    requires !Terminal(rs.phase) && !Terminal(mid.status.phase) && !env.patchFails && (out.Advances? ==> !Terminal(out.phase))
    ensures var (d, r) := Record(cfg, mid, rs, out, env);
            && (d.status.phase == Failed <==> out.Fails?) && (d.status.phase == Completed <==> out.Finishes?)
            && (r == Errored <==> out.ApiFails?) && (r == Finished <==> out.Fails? || out.Finishes? || out.Ignored?)
  {
  }

  /** Exactly: on any copy that is not over, a reconcile whose patch works fails, completes or errs the restore if and only
      if these facts hold, and gives it up only when it is over. */
  lemma EndsExactly(cfg: Config, c: Cluster, rs: Status, env: Env)
    requires !Terminal(rs.phase) && !Terminal(c.status.phase) && !env.patchFails
    ensures var seen := Look(env.jobs, c.jobs);
            var (d, r) := Reconcile(cfg, c, rs, env);
            && (d.status.phase == Failed <==> MustFail(cfg, rs, seen, env))
            && (d.status.phase == Completed <==> PastGates(cfg, rs, env) && WholePlanOver(cfg, rs, seen, env))
            && (r == Errored <==> MustErr(cfg, rs, seen, env))
            && (r == Finished <==> d.status.phase == Failed || d.status.phase == Completed)
  {
    var seen := Look(env.jobs, c.jobs);
    DecidesExactly(cfg, rs, seen, env);
    EnsuringLeaves(cfg, c, rs, env);
    RecordedPhase(cfg, Ensuring(cfg, c, rs, env), rs, Decide(cfg, rs, seen, env), env);
  }

  /** A restore that is not over is always asked about again: in a minute, or by the queue after an error. */
  lemma NeverGivenUp(cfg: Config, c: Cluster, env: Env)
    requires c.status.phase != Completed && c.status.phase != Failed
    ensures var (d, r) := Reconcile(cfg, c, c.status, env);
            && (d.status.phase != Completed && d.status.phase != Failed ==> r == Requeue(60) || r == Errored)
            && (env.patchFails ==> d.status == c.status && r != Finished)
  {
    DecidesExactly(cfg, c.status, Look(env.jobs, c.jobs), env);
    EnsuringLeaves(cfg, c, c.status, env);
    RecordKeepsAsking(cfg, Ensuring(cfg, c, c.status, env), Decide(cfg, c.status, Look(env.jobs, c.jobs), env), env);
  }

  lemma RecordKeepsAsking(cfg: Config, mid: Cluster, out: Outcome, env: Env)
    requires !Terminal(mid.status.phase) && !out.Ignored?
    ensures var (d, r) := Record(cfg, mid, mid.status, out, env);
            && (!Terminal(d.status.phase) ==> r == Requeue(60) || r == Errored)
            && (env.patchFails ==> d.status == mid.status && r != Finished)
  {
  }

  /** A reconcile makes a Job appear if and only if it is the first Job of the plan that is not over and was never heard
      of; it changes no other, and creates at most one. */
  lemma CreatesExactly(cfg: Config, c: Cluster, rs: Status, env: Env, name: string)
    requires name !in c.jobs
    ensures var seen := Look(env.jobs, c.jobs);
            name in Reconcile(cfg, c, rs, env).0.jobs <==>
              && PastGates(cfg, rs, env)
              && exists i: nat ::
                   ArrivesAt(cfg, rs, seen, env, i) && Unheard(rs, seen, env, name) && Steps(cfg, env.plan)[i].name == name
    ensures forall n | n in c.jobs :: n in Reconcile(cfg, c, rs, env).0.jobs && Reconcile(cfg, c, rs, env).0.jobs[n] == c.jobs[n]
    ensures forall n, m | n in Reconcile(cfg, c, rs, env).0.jobs && m in Reconcile(cfg, c, rs, env).0.jobs && n != m ::
              n in c.jobs || m in c.jobs
  {
    var seen := Look(env.jobs, c.jobs);
    if PastGates(cfg, rs, env) {
      var k := Somewhere(cfg, rs, seen, env);
      if k < |Steps(cfg, env.plan)| && Unheard(rs, seen, env, Steps(cfg, env.plan)[k].name) {
        UnheardJobIsCreated(cfg, c, rs, env, k);
      }
      forall i: nat | ArrivesAt(cfg, rs, seen, env, i) && Unheard(rs, seen, env, Steps(cfg, env.plan)[i].name) ensures i == k {
        EnsureIs(rs, seen, env, Steps(cfg, env.plan)[i].name);
        StopsAt(cfg, rs, seen, env, i);
      }
      if k < |Steps(cfg, env.plan)| && !Unheard(rs, seen, env, Steps(cfg, env.plan)[k].name) {
        OnlyThere(cfg, rs, seen, env, k);
        CreatesNothing(cfg, c, rs, env);
      }
      if k == |Steps(cfg, env.plan)| {
        PastAllCreatesNothing(cfg, rs, seen, env);
        CreatesNothing(cfg, c, rs, env);
      }
    } else {
      BeforeGatesCreatesNothing(cfg, rs, seen, env);
      CreatesNothing(cfg, c, rs, env);
    }
  }

  lemma CreatesNothing(cfg: Config, c: Cluster, rs: Status, env: Env)
    requires Creation(cfg, rs, Look(env.jobs, c.jobs), env).None?
    ensures Reconcile(cfg, c, rs, env).0.jobs == c.jobs
  {
    EnsuringLeaves(cfg, c, rs, env);
  }

  /** The ConfigMap is adopted if and only if it was before, or the pre apply is in reach in the restore's own namespace and
      the patch works. */
  lemma AdoptsExactly(cfg: Config, c: Cluster, rs: Status, env: Env)
    ensures Reconcile(cfg, c, rs, env).0.adopted <==>
              || c.adopted
              || (&& PastGates(cfg, rs, env) && Fetched(cfg, rs, Look(env.jobs, c.jobs), env)
                  && !env.plan.PlanUnread? && !env.plan.PlanMissing? && cfg.namespace == cfg.targetNamespace && !env.adoptFails)
  {
    EnsureIs(rs, Look(env.jobs, c.jobs), env, cfg.names.fetch);
    AdoptionStands(cfg, c, rs, env);
  }

  lemma AdoptionStands(cfg: Config, c: Cluster, rs: Status, env: Env)
    ensures Reconcile(cfg, c, rs, env).0.adopted == Ensuring(cfg, c, rs, env).adopted
  {
  }
}
