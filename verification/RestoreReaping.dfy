/** RestoreReaping: status.jobs as durable memory. It stays sorted and duplicate-free and only grows, so a recorded
    Job is never created again; and deleting a Job already recorded complete is invisible: every run with such
    reaps has the same status, events and creations, in the same order, as the run without them. */
module RestoreReaping {
  import opened Wrappers
  import opened Reads
  import opened Sorting
  import opened RestoreSpec
  import opened RestoreSnapshot
  import RestoreOrdering

  // ---- what a status.jobs list always is --------------------------------------------------------------

  ghost predicate Orderly(restore: string, jobs: seq<JobEntry>) {
    && Ascending(ByJob, jobs)
    && UniqueJobs(jobs)
    && forall e | e in jobs :: e.phase == JobPhaseByName(restore, e.job)
  }

  lemma SnapshotOrderly(restore: string, recorded: seq<JobEntry>, listed: map<string, Job>)
    requires Orderly(restore, recorded)
    ensures Orderly(restore, Snapshot(restore, recorded, listed))
  {
    SnapshotSorted(restore, recorded, listed);
    SnapshotMembers(restore, recorded, listed);
  }

  // Every status of every run, whatever reads were stale, is sorted, names no Job twice, and files every entry
  // under the phase its name tells.
  lemma {:induction false} AlwaysOrderly(cfg: Config, tr: seq<Cluster>, acts: seq<RestoreOrdering.Action>, i: nat)
    requires RestoreOrdering.Run(cfg, tr, acts) && i < |tr|
    ensures Orderly(cfg.name, tr[i].status.jobs)
  {
    if i > 0 {
      var p := i - 1;
      assert RestoreOrdering.Moves(cfg, tr, acts[p], p);
      AlwaysOrderly(cfg, tr, acts, p);
      match acts[p] {
        case Environment(_) =>
        case Reconciled(read, env) =>
          var j: nat :| j <= p && tr[j].status == read;
          AlwaysOrderly(cfg, tr, acts, j);
          OrderlyAfter(cfg, tr[p], read, env);
      }
    }
  }

  lemma OrderlyAfter(cfg: Config, c: Cluster, rs: Status, env: Env)
    requires Orderly(cfg.name, c.status.jobs) && Orderly(cfg.name, rs.jobs)
    ensures Orderly(cfg.name, Reconcile(cfg, c, rs, env).0.status.jobs)
  {
    RestoreOrdering.JobsAfter(cfg, c, rs, env);
    if env.listing.Listed? {
      SnapshotOrderly(cfg.name, rs.jobs, Look(env.listing.view, Ensuring(cfg, c, rs, env).jobs));
    }
  }

  // ---- what a reconcile forgets ---------------------------------------------------------------------------

  // The names the listing of a reconcile shows.
  ghost function Shown(cfg: Config, c: Cluster, rs: Status, env: Env): set<string> {
    if env.listing.ListFails? then {} else LabelledNames(Look(env.listing.view, Ensuring(cfg, c, rs, env).jobs))
  }

  /** Exactly when a reconcile forgets no name, whatever copy it read: it leaves status.jobs alone, or the copy and the
      listing together still know every recorded name. */
  lemma ForgetsNothingExactly(cfg: Config, c: Cluster, rs: Status, env: Env)
    requires UniqueJobs(rs.jobs)
    ensures var after := Reconcile(cfg, c, rs, env).0.status.jobs;
            KnownNames(c.status.jobs) <= KnownNames(after) <==>
              after == c.status.jobs || KnownNames(c.status.jobs) <= KnownNames(rs.jobs) + Shown(cfg, c, rs, env)
  {
    RestoreOrdering.JobsAfter(cfg, c, rs, env);
    if env.listing.Listed? {
      SnapshotRemembers(cfg.name, rs.jobs, Look(env.listing.view, Ensuring(cfg, c, rs, env).jobs));
    }
  }

  // A name both the server and the copy know is still known afterwards.
  lemma KeepsShared(cfg: Config, c: Cluster, rs: Status, env: Env, name: string)
    requires UniqueJobs(rs.jobs) && name in KnownNames(c.status.jobs) && name in KnownNames(rs.jobs)
    ensures name in KnownNames(Reconcile(cfg, c, rs, env).0.status.jobs)
  {
    RestoreOrdering.JobsAfter(cfg, c, rs, env);
    if env.listing.Listed? {
      SnapshotRemembers(cfg.name, rs.jobs, Look(env.listing.view, Ensuring(cfg, c, rs, env).jobs));
    }
  }

  // From moment i on, every reconcile reads some status of a moment no earlier than i.
  ghost predicate ReadsSince(tr: seq<Cluster>, acts: seq<RestoreOrdering.Action>, i: nat)
    requires |tr| == |acts| + 1
  {
    forall j | i <= j < |acts| && acts[j].Reconciled? :: exists k: nat :: i <= k <= j && tr[k].status == acts[j].read
  }

  lemma KeptOnce(cfg: Config, tr: seq<Cluster>, acts: seq<RestoreOrdering.Action>, p: nat, k: nat, name: string)
    requires RestoreOrdering.Run(cfg, tr, acts) && k <= p < |acts|
    requires acts[p].Reconciled? ==> tr[k].status == acts[p].read
    requires name in KnownNames(tr[p].status.jobs) && name in KnownNames(tr[k].status.jobs)
    ensures name in KnownNames(tr[p + 1].status.jobs)
  {
    assert RestoreOrdering.Moves(cfg, tr, acts[p], p);
    if acts[p].Reconciled? {
      AlwaysOrderly(cfg, tr, acts, k);
      KeepsShared(cfg, tr[p], acts[p].read, acts[p].env, name);
    }
  }

  /** Memory. A name recorded at moment i is recorded at every later moment, as long as no reconcile from i on reads a
      copy of the status older than i; its view of the Jobs may be as stale as it likes. */
  lemma {:induction false} MemoryGrows(cfg: Config, tr: seq<Cluster>, acts: seq<RestoreOrdering.Action>, i: nat, j: nat, name: string)
    requires RestoreOrdering.Run(cfg, tr, acts) && i <= j < |tr| && ReadsSince(tr, acts, i)
    requires name in KnownNames(tr[i].status.jobs)
    ensures name in KnownNames(tr[j].status.jobs)
  {
    if i < j {
      var p := j - 1;
      MemoryGrows(cfg, tr, acts, i, p, name);
      var k := p;
      if acts[p].Reconciled? {
        k :| i <= k <= p && tr[k].status == acts[p].read;
        MemoryGrows(cfg, tr, acts, i, k, name);
      }
      KeptOnce(cfg, tr, acts, p, k, name);
    }
  }

  lemma KnownIsNotCreated(cfg: Config, c: Cluster, rs: Status, env: Env, name: string)
    requires name in KnownNames(rs.jobs) && name !in c.jobs
    ensures name !in Reconcile(cfg, c, rs, env).0.jobs
  {
    if name in Reconcile(cfg, c, rs, env).0.jobs {
      RestoreOrdering.OnlyTheCreation(cfg, c, rs, env, name);
      assert KnownJob(rs, name);
      assert false;
    }
  }

  /** A name recorded at moment i is never created again by reconciles that read no copy older than i. */
  lemma RecordedNeverRecreated(cfg: Config, tr: seq<Cluster>, acts: seq<RestoreOrdering.Action>, i: nat, j: nat, name: string)
    requires RestoreOrdering.Run(cfg, tr, acts) && i <= j < |acts| && acts[j].Reconciled? && ReadsSince(tr, acts, i)
    requires name in KnownNames(tr[i].status.jobs) && name !in tr[j].jobs
    ensures name !in tr[j + 1].jobs
  {
    assert RestoreOrdering.Moves(cfg, tr, acts[j], j);
    var k: nat :| i <= k <= j && tr[k].status == acts[j].read;
    MemoryGrows(cfg, tr, acts, i, k, name);
    KnownIsNotCreated(cfg, tr[j], acts[j].read, acts[j].env, name);
  }

  // ---- reaping one Job ---------------------------------------------------------------------------------------

  // `a` is `b` with some Jobs gone, each complete and recorded so.
  ghost predicate Reaped(cfg: Config, a: Cluster, b: Cluster) {
    && a.status == b.status && a.adopted == b.adopted && a.log == b.log
    && a.jobs.Keys <= b.jobs.Keys
    && (forall n | n in a.jobs :: a.jobs[n] == b.jobs[n])
    && forall n | n in b.jobs && n !in a.jobs :: Done(b.jobs[n]) && RecordedComplete(b.status, n)
  }

  // Reads go to the live server; the listing may still fail.
  predicate Fresh(env: Env) {
    env.jobs.Live? && (env.listing.Listed? ==> env.listing.view.Live?)
  }

  lemma {:induction false} RecordedHasEntry(jobs: seq<JobEntry>, name: string)
    requires RecordedState(jobs, name).Some?
    ensures exists e :: e in jobs && e.job == name
  {
    if jobs[0].job == name {
      assert jobs[0] in jobs;
    } else {
      RecordedHasEntry(jobs[1..], name);
      var e :| e in jobs[1..] && e.job == name;
      assert e in jobs;
    }
  }

  lemma RecordedIsKnown(rs: Status, name: string)
    requires RecordedState(rs.jobs, name).Some?
    ensures KnownJob(rs, name) && name in KnownNames(rs.jobs)
  {
    RecordedHasEntry(rs.jobs, name);
  }

  lemma SameEnsure(cfg: Config, a: Cluster, b: Cluster, env: Env, name: string)
    requires Reaped(cfg, a, b)
    ensures Ensure(b.status, a.jobs, env, name) == Ensure(b.status, b.jobs, env, name)
  {
    if name in b.jobs && name !in a.jobs { RecordedIsKnown(b.status, name); }
  }

  lemma {:induction false} SameUndone(cfg: Config, a: Cluster, b: Cluster, env: Env, steps: seq<Step>)
    requires Reaped(cfg, a, b)
    ensures FirstUndone(b.status, a.jobs, env, steps) == FirstUndone(b.status, b.jobs, env, steps)
  {
    if steps != [] {
      SameEnsure(cfg, a, b, env, steps[0].name);
      SameUndone(cfg, a, b, env, steps[1..]);
    }
  }

  // Both clusters get the same decision and the same creation.
  lemma SameDecision(cfg: Config, a: Cluster, b: Cluster, env: Env)
    requires Reaped(cfg, a, b)
    ensures Decide(cfg, b.status, a.jobs, env) == Decide(cfg, b.status, b.jobs, env)
    ensures Creation(cfg, b.status, a.jobs, env) == Creation(cfg, b.status, b.jobs, env)
    ensures Staged(cfg, b.status, a.jobs, env) == Staged(cfg, b.status, b.jobs, env)
  {
    var steps := Steps(cfg, env.plan);
    SameUndone(cfg, a, b, env, steps);
    SameEnsure(cfg, a, b, env, steps[0].name);
    var i := FirstUndone(b.status, b.jobs, env, steps);
    if i < |steps| { SameEnsure(cfg, a, b, env, steps[i].name); }
  }

  // The created name is fresh in both: a reaped name is recorded.
  lemma CreationIsNew(cfg: Config, a: Cluster, b: Cluster, env: Env)
    requires Reaped(cfg, a, b) && Creation(cfg, b.status, b.jobs, env).Some?
    ensures var n := Creation(cfg, b.status, b.jobs, env).value.name; n !in a.jobs && n !in b.jobs
  {
  }

  lemma SameEnsuring(cfg: Config, a: Cluster, b: Cluster, env: Env)
    requires Reaped(cfg, a, b) && env.jobs.Live?
    ensures Reaped(cfg, Ensuring(cfg, a, a.status, env), Ensuring(cfg, b, b.status, env))
  {
    SameDecision(cfg, a, b, env);
    if Creation(cfg, b.status, b.jobs, env).Some? { CreationIsNew(cfg, a, b, env); }
  }

  lemma {:induction false} RecordedEntry(jobs: seq<JobEntry>, name: string, state: State)
    requires UniqueJobs(jobs) && RecordedState(jobs, name) == Some(state)
    ensures name in KnownNames(jobs) && EntryOf(jobs, name).state == state
  {
    var rs := EMPTY_STATUS.(jobs := jobs);
    RecordedIsKnown(rs, name);
    RecordedStateOf(jobs, EntryOf(jobs, name));
  }

  // A reaped Job's live entry would have been its recorded one.
  lemma ReapedEntry(cfg: Config, a: Cluster, b: Cluster, n: string)
    requires Reaped(cfg, a, b) && Orderly(cfg.name, b.status.jobs) && n in b.jobs && n !in a.jobs
    ensures n in KnownNames(b.status.jobs) && EntryOf(b.status.jobs, n) == LiveEntry(cfg.name, n, b.jobs[n])
  {
    RecordedEntry(b.status.jobs, n, Complete);
  }

  lemma SameNames(cfg: Config, a: Cluster, b: Cluster)
    requires Reaped(cfg, a, b)
    ensures LabelledNames(a.jobs) + KnownNames(b.status.jobs) == LabelledNames(b.jobs) + KnownNames(b.status.jobs)
  {
    forall n | n in b.jobs && n !in a.jobs ensures n in KnownNames(b.status.jobs) {
      RecordedIsKnown(b.status, n);
    }
  }

  lemma SameEntry(cfg: Config, a: Cluster, b: Cluster, n: string)
    requires Reaped(cfg, a, b) && Orderly(cfg.name, b.status.jobs)
    requires n in LabelledNames(a.jobs) + KnownNames(b.status.jobs)
    requires n in LabelledNames(b.jobs) + KnownNames(b.status.jobs)
    ensures SnapshotEntry(cfg.name, b.status.jobs, a.jobs, n) == SnapshotEntry(cfg.name, b.status.jobs, b.jobs, n)
  {
    if n in b.jobs && n !in a.jobs { ReapedEntry(cfg, a, b, n); }
  }

  lemma SameSnapshot(cfg: Config, a: Cluster, b: Cluster)
    requires Reaped(cfg, a, b) && Orderly(cfg.name, b.status.jobs)
    ensures Snapshot(cfg.name, b.status.jobs, a.jobs) == Snapshot(cfg.name, b.status.jobs, b.jobs)
  {
    SameNames(cfg, a, b);
    var order := InOrder(LabelledNames(b.jobs) + KnownNames(b.status.jobs));
    forall i | 0 <= i < |order|
      ensures Snapshot(cfg.name, b.status.jobs, a.jobs)[i] == Snapshot(cfg.name, b.status.jobs, b.jobs)[i]
    {
      SameEntry(cfg, a, b, order[i]);
    }
  }

  // A complete, recorded Job is recorded complete afterwards.
  lemma StaysRecorded(cfg: Config, c: Cluster, n: string)
    requires Orderly(cfg.name, c.status.jobs) && RecordedComplete(c.status, n)
    requires n in c.jobs ==> Done(c.jobs[n])
    ensures RecordedState(Snapshot(cfg.name, c.status.jobs, c.jobs), n) == Some(Complete)
  {
    var out := Snapshot(cfg.name, c.status.jobs, c.jobs);
    RecordedEntry(c.status.jobs, n, Complete);
    SnapshotRemembers(cfg.name, c.status.jobs, c.jobs);
    SnapshotSorted(cfg.name, c.status.jobs, c.jobs);
    if n in LabelledNames(c.jobs) {
      RecordedStateOf(out, LiveEntry(cfg.name, n, c.jobs[n]));
    } else {
      RecordedStateOf(out, EntryOf(c.status.jobs, n));
    }
  }

  lemma SameRecord(cfg: Config, a: Cluster, b: Cluster, out: Outcome, env: Env)
    requires Reaped(cfg, a, b) && Fresh(env) && Orderly(cfg.name, b.status.jobs)
    ensures Record(cfg, a, a.status, out, env).1 == Record(cfg, b, b.status, out, env).1
    ensures Reaped(cfg, Record(cfg, a, a.status, out, env).0, Record(cfg, b, b.status, out, env).0)
  {
    SameSnapshot(cfg, a, b);
    FreshRecord(cfg, b, out, env);
    forall n | n in b.jobs && n !in a.jobs
      ensures RecordedComplete(Record(cfg, b, b.status, out, env).0.status, n)
    {
      StaysRecorded(cfg, b, n);
    }
  }

  lemma FreshRecord(cfg: Config, c: Cluster, out: Outcome, env: Env)
    requires Fresh(env)
    ensures var after := Record(cfg, c, c.status, out, env).0.status.jobs;
            after == c.status.jobs || after == Snapshot(cfg.name, c.status.jobs, c.jobs)
  {
    RestoreOrdering.RecordedJobs(cfg, c, c.status, out, env);
  }

  lemma EnsuringKeepsStatus(cfg: Config, c: Cluster, env: Env)
    ensures Ensuring(cfg, c, c.status, env).status == c.status
  {
  }

  /** Reaping is invisible to the next reconcile: it creates the same Job, writes the same status and events and
      asks for the same requeue, whichever complete recorded Jobs are gone. */
  lemma ReapingInvisible(cfg: Config, a: Cluster, b: Cluster, env: Env)
    requires Reaped(cfg, a, b) && Fresh(env) && Orderly(cfg.name, b.status.jobs)
    ensures Reconcile(cfg, a, a.status, env).1 == Reconcile(cfg, b, b.status, env).1
    ensures Reaped(cfg, Reconcile(cfg, a, a.status, env).0, Reconcile(cfg, b, b.status, env).0)
  {
    SameDecision(cfg, a, b, env);
    SameEnsuring(cfg, a, b, env);
    var a1, b1 := Ensuring(cfg, a, a.status, env), Ensuring(cfg, b, b.status, env);
    EnsuringKeepsStatus(cfg, a, env);
    EnsuringKeepsStatus(cfg, b, env);
    SameRecord(cfg, a1, b1, Decide(cfg, b.status, b.jobs, env), env);
  }

  // ---- runs with and without reaps -----------------------------------------------------------------------

  datatype Action = Reconciles(env: Env) | Puts(name: string, job: Job) | Deletes(name: string)

  ghost function Next(cfg: Config, c: Cluster, a: Action): Cluster {
    match a
    case Reconciles(env) => Reconcile(cfg, c, c.status, env).0
    case Puts(name, job) => c.(jobs := c.jobs[name := job])
    case Deletes(name) => c.(jobs := c.jobs - {name})
  }

  ghost function Final(cfg: Config, c: Cluster, acts: seq<Action>): Cluster
    decreases |acts|
  {
    if acts == [] then c else Final(cfg, Next(cfg, c, acts[0]), acts[1..])
  }

  // Deletes a Job that is complete and recorded so: what the TTL controller does to a finished Job.
  ghost predicate IsReap(c: Cluster, a: Action) {
    a.Deletes? && a.name in c.jobs && Done(c.jobs[a.name]) && RecordedComplete(c.status, a.name)
  }

  ghost predicate NoReaps(cfg: Config, c: Cluster, acts: seq<Action>)
    decreases |acts|
  {
    acts == [] || (!IsReap(c, acts[0]) && NoReaps(cfg, Next(cfg, c, acts[0]), acts[1..]))
  }

  ghost predicate Drops(c: Cluster, a: Action) {
    a.Deletes? && (a.name !in c.jobs || IsReap(c, a))
  }

  // The run without its reaps (and without deletions of what is not there).
  ghost function Unreaped(cfg: Config, c: Cluster, acts: seq<Action>): seq<Action>
    decreases |acts|
  {
    if acts == [] then []
    else (if Drops(c, acts[0]) then [] else [acts[0]]) + Unreaped(cfg, Next(cfg, c, acts[0]), acts[1..])
  }

  predicate AllFresh(acts: seq<Action>) {
    forall a | a in acts && a.Reconciles? :: Fresh(a.env)
  }

  lemma NextOrderly(cfg: Config, c: Cluster, a: Action)
    requires Orderly(cfg.name, c.status.jobs)
    ensures Orderly(cfg.name, Next(cfg, c, a).status.jobs)
  {
    if a.Reconciles? { OrderlyAfter(cfg, c, c.status, a.env); }
  }

  // One action, kept or dropped, keeps the two clusters in step.
  lemma InStep(cfg: Config, a: Cluster, b: Cluster, act: Action)
    requires Reaped(cfg, a, b) && Orderly(cfg.name, b.status.jobs)
    requires act.Reconciles? ==> Fresh(act.env)
    ensures Drops(a, act) ==> Reaped(cfg, Next(cfg, a, act), b)
    ensures !Drops(a, act) ==> Reaped(cfg, Next(cfg, a, act), Next(cfg, b, act)) && !IsReap(b, act)
  {
    if act.Reconciles? { ReapingInvisible(cfg, a, b, act.env); }
  }

  /** Every run with reaps is matched by one without: the same status, adoption, creations, patches and events, in
      the same order, and Jobs that differ only by the reaped ones. */
  lemma {:induction false} ReapsAreInvisible(cfg: Config, a: Cluster, b: Cluster, acts: seq<Action>)
    requires Reaped(cfg, a, b) && Orderly(cfg.name, b.status.jobs) && AllFresh(acts)
    ensures Reaped(cfg, Final(cfg, a, acts), Final(cfg, b, Unreaped(cfg, a, acts)))
    ensures NoReaps(cfg, b, Unreaped(cfg, a, acts))
    decreases |acts|
  {
    if acts != [] {
      var act := acts[0];
      InStep(cfg, a, b, act);
      var rest := Unreaped(cfg, Next(cfg, a, act), acts[1..]);
      if Drops(a, act) {
        assert Unreaped(cfg, a, acts) == rest;
        ReapsAreInvisible(cfg, Next(cfg, a, act), b, acts[1..]);
      } else {
        NextOrderly(cfg, b, act);
        ReapsAreInvisible(cfg, Next(cfg, a, act), Next(cfg, b, act), acts[1..]);
        assert Unreaped(cfg, a, acts)[1..] == rest;
      }
    }
  }

  // Runs from one start.
  lemma SameHistory(cfg: Config, c: Cluster, acts: seq<Action>)
    requires c.status.jobs == [] && AllFresh(acts)
    ensures var kept := Final(cfg, c, Unreaped(cfg, c, acts));
            && Final(cfg, c, acts).log == kept.log
            && Final(cfg, c, acts).status == kept.status
            && NoReaps(cfg, c, Unreaped(cfg, c, acts))
  {
    ReapsAreInvisible(cfg, c, c, acts);
  }
}
