/** BackupHooks: over every run that writes its status after the hooks, and then reads no older copy, the hooks run in at
    most one reconcile, before the first Job is created, and a hook problem means no Job is ever created. */
module BackupHooks {
  import opened Wrappers
  import opened Sorting
  import opened Credentials
  import opened BackupSpec
  import BackupController

  // ---- what a reconcile leaves alone -----------------------------------------------------------------

  lemma PreparingKeeps(cfg: Config, c: Cluster, rs: Status, env: Env)
    ensures var d := Preparing(cfg, c, rs, env);
            && d.jobs == c.jobs && d.status == c.status && d.metrics == c.metrics
            && |c.log| <= |d.log| && d.log[..|c.log|] == c.log
            && forall e | e in d.log[|c.log|..] :: e.SecretWritten? || e.StagingWritten?
  {
    var c1 := EnsureSecret(c, env);
    SecretLog(c, env);
    StagingLog(cfg, c1, env);
  }

  lemma SecretLog(c: Cluster, env: Env)
    ensures var d := EnsureSecret(c, env);
            && d.jobs == c.jobs && d.status == c.status && d.metrics == c.metrics
            && (d.log == c.log || d.log == c.log + [SecretWritten])
  {
  }

  lemma StagingLog(cfg: Config, c: Cluster, env: Env)
    ensures var d := EnsureStaging(cfg, c, env);
            && d.jobs == c.jobs && d.status == c.status && d.metrics == c.metrics
            && (d.log == c.log || d.log == c.log + [StagingWritten])
  {
  }

  // Nothing but new Jobs, and the log of their creation.
  ghost predicate OnlyAdds(c: Cluster, d: Cluster) {
    && d.(jobs := c.jobs, log := c.log) == c
    && (forall n | n in c.jobs :: n in d.jobs && d.jobs[n] == c.jobs[n])
    && |c.log| <= |d.log| && d.log[..|c.log|] == c.log
    && forall e | e in d.log[|c.log|..] :: e.JobCreated?
  }

  lemma AddsOne(c: Cluster, name: string, job: Job)
    requires name !in c.jobs
    ensures OnlyAdds(c, c.(jobs := c.jobs[name := job], log := c.log + [JobCreated(name)]))
  {
    assert (c.log + [JobCreated(name)])[|c.log|..] == [JobCreated(name)];
  }

  lemma OneAdds(cfg: Config, c: Cluster, rs: Status, env: Env, l: Launch)
    ensures OnlyAdds(c, AfterOne(cfg, c, rs, env, l))
  {
    if LaunchOne(c, rs, env, l.name).OneCreated? {
      AddsOne(c, l.name, NewJob(cfg, l, StagingFor(cfg, env)));
    } else {
      assert c.log[|c.log|..] == [];
    }
  }

  lemma AddsTwice(a: Cluster, b: Cluster, c: Cluster)
    requires OnlyAdds(a, b) && OnlyAdds(b, c)
    ensures OnlyAdds(a, c)
  {
    assert c.log[|a.log|..] == c.log[..|b.log|][|a.log|..] + c.log[|b.log|..];
    assert c.log[..|a.log|] == c.log[..|b.log|][..|a.log|];
  }

  lemma {:induction false} LaunchingKeeps(cfg: Config, c: Cluster, rs: Status, env: Env, ls: seq<Launch>)
    ensures OnlyAdds(c, Launching(cfg, c, rs, env, ls))
  {
    if ls != [] {
      var before := Launching(cfg, c, rs, env, ls[..|ls| - 1]);
      LaunchingKeeps(cfg, c, rs, env, ls[..|ls| - 1]);
      if LaunchAll(cfg, c, rs, env, ls[..|ls| - 1]).AllPlaced? {
        OneAdds(cfg, before, rs, env, ls[|ls| - 1]);
        AddsTwice(c, before, AfterOne(cfg, before, rs, env, ls[|ls| - 1]));
      }
    }
  }

  // Preparing never yields an empty launch list.
  lemma LaunchesSomething(cfg: Config, c: Cluster, rs: Status, env: Env)
    ensures var p := Prepare(cfg, c, rs, env); p.Goes? ==> p.launches != []
  {
    var p := Prepare(cfg, c, rs, env);
    if p.Goes? && p.claims != [] {
      var nodes := PlaceAll(env, p.claims).nodes;
      assert nodes[0] in InOrder(set n | n in nodes);
    }
  }

  // With no Job on record none can be missed.
  lemma {:induction false} NothingVanishes(cfg: Config, c: Cluster, rs: Status, env: Env, ls: seq<Launch>)
    requires rs.jobs == []
    ensures !LaunchAll(cfg, c, rs, env, ls).Vanished?
  {
    if ls != [] { NothingVanishes(cfg, c, rs, env, ls[..|ls| - 1]); }
  }

  // ---- the hook stage -----------------------------------------------------------------------------------

  // The reconcile gets as far as the hooks, with no Job on record.
  ghost predicate ReachesHooks(cfg: Config, c: Cluster, read: Status, env: Env) {
    Prepare(cfg, c, read, env).Goes? && read.jobs == []
  }

  // The hooks are still ahead: nothing has been launched.
  predicate Ahead(s: Status) {
    s.jobs == [] && (s.phase == Unset || s.phase == New || s.phase == Scheduled)
  }

  // The hooks are behind: Jobs are on record and running, or the backup is over.
  predicate Behind(s: Status) {
    Terminal(s.phase) || (s.jobs != [] && s.phase == Running)
  }

  lemma ReachingIsAhead(cfg: Config, c: Cluster, read: Status, env: Env)
    requires ReachesHooks(cfg, c, read, env)
    ensures !Behind(read)
  {
  }

  // What an outcome records puts the hooks behind.
  predicate Settles(out: Outcome) {
    match out
    case Fails(_, _, _) => true
    case Completes(_, _, _) => true
    case RunsOn(entries) => entries != []
    case _ => false
  }

  lemma ClassifySettles(cfg: Config, env: Env, placed: seq<PlacedJob>)
    requires placed != []
    ensures var out := Classify(cfg, env, placed); Settles(out) || out.ApiFails?
  {
  }

  lemma ReachingOutcome(cfg: Config, c: Cluster, read: Status, env: Env)
    requires ReachesHooks(cfg, c, read, env)
    ensures var out := Decide(cfg, c, read, env); Settles(out) || out.ApiFails?
  {
    var p := Prepare(cfg, c, read, env);
    LaunchesSomething(cfg, c, read, env);
    var launched := LaunchAll(cfg, c, read, env, p.launches);
    NothingVanishes(cfg, c, read, env, p.launches);
    if launched.AllPlaced? { ClassifySettles(cfg, env, launched.placed); }
  }

  lemma AnyOutcome(cfg: Config, c: Cluster, read: Status, env: Env)
    ensures var out := Decide(cfg, c, read, env); Settles(out) || out.ApiFails? || out.Ignored? || out.Holds?
  {
    var p := Prepare(cfg, c, read, env);
    BackupController.StopsHow(cfg, c, read, env);
    if p.Goes? {
      LaunchesSomething(cfg, c, read, env);
      var launched := LaunchAll(cfg, c, read, env, p.launches);
      if launched.AllPlaced? { ClassifySettles(cfg, env, launched.placed); }
    }
  }

  // A settling outcome of a copy from before the hooks puts them behind, whatever the server holds.
  lemma RecordSettles(cfg: Config, c: Cluster, read: Status, out: Outcome, env: Env)
    requires Ahead(read) && Settles(out) && !Lost(cfg, read, out, env)
    ensures Behind(Record(cfg, c, read, out, env).status)
  {
    var after := Recorded(cfg, read, out, env.now);
    assert after.phase != read.phase;
  }

  // Once the hooks are behind, for the server and for the copy that was read, they stay behind.
  lemma RecordKeepsBehind(cfg: Config, c: Cluster, read: Status, out: Outcome, env: Env)
    requires Behind(c.status) && Behind(read) && (Settles(out) || out.ApiFails? || out.Ignored? || out.Holds?)
    requires Terminal(read.phase) ==> out.Ignored?
    ensures Behind(Record(cfg, c, read, out, env).status)
  {
  }

  lemma RecordKeepsAhead(cfg: Config, c: Cluster, read: Status, out: Outcome, env: Env)
    requires Ahead(c.status) && Ahead(read) && (out.ApiFails? || out.Ignored? || out.Holds?)
    ensures Ahead(Record(cfg, c, read, out, env).status)
  {
  }

  lemma ActedKeepsStatus(cfg: Config, c: Cluster, rs: Status, env: Env)
    ensures Acted(cfg, c, rs, env).status == c.status
  {
    PreparingKeeps(cfg, c, rs, env);
    var p := Prepare(cfg, c, rs, env);
    if p.Goes? {
      var d := Preparing(cfg, c, rs, env);
      LaunchingKeeps(cfg, d.(log := d.log + HookEffects(HooksOf(cfg, rs, env, p).ran)), rs, env, p.launches);
    }
  }

  /** A reconcile that reaches the hooks puts them behind exactly when it meets no API error. */
  lemma HooksSettle(cfg: Config, c: Cluster, read: Status, env: Env)
    requires ReachesHooks(cfg, c, read, env) && Ahead(read) && Ahead(c.status)
    ensures Behind(Reconcile(cfg, c, read, env).status) <==> ReconcileResult(cfg, c, read, env) != Errored
  {
    var out := Decide(cfg, c, read, env);
    ReachingOutcome(cfg, c, read, env);
    ActedKeepsStatus(cfg, c, read, env);
    var mid := Acted(cfg, c, read, env);
    if Settles(out) && !Lost(cfg, read, out, env) { RecordSettles(cfg, mid, read, out, env); }
  }

  lemma TerminalIsIgnored(cfg: Config, c: Cluster, read: Status, env: Env)
    requires Terminal(read.phase)
    ensures Decide(cfg, c, read, env).Ignored? && Reconcile(cfg, c, read, env) == c
  {
  }

  lemma BehindStays(cfg: Config, c: Cluster, read: Status, env: Env)
    requires Behind(c.status) && Behind(read)
    ensures Behind(Reconcile(cfg, c, read, env).status)
  {
    if Terminal(read.phase) {
      TerminalIsIgnored(cfg, c, read, env);
    } else {
      AnyOutcome(cfg, c, read, env);
      ActedKeepsStatus(cfg, c, read, env);
      RecordKeepsBehind(cfg, Acted(cfg, c, read, env), read, Decide(cfg, c, read, env), env);
    }
  }

  // A reconcile that does not reach the hooks leaves them ahead.
  lemma AheadStays(cfg: Config, c: Cluster, read: Status, env: Env)
    requires Ahead(c.status) && Ahead(read) && !ReachesHooks(cfg, c, read, env)
    ensures Ahead(Reconcile(cfg, c, read, env).status)
  {
    BackupController.StopsHow(cfg, c, read, env);
    ActedKeepsStatus(cfg, c, read, env);
    RecordKeepsAhead(cfg, Acted(cfg, c, read, env), read, Decide(cfg, c, read, env), env);
  }

  // ---- the log ---------------------------------------------------------------------------------------------

  // No hook after a Job creation.
  ghost predicate HooksFirst(log: seq<Effect>) {
    forall i, j | 0 <= i < j < |log| :: !(log[i].JobCreated? && log[j].HookRan?)
  }

  ghost predicate NoJobs(log: seq<Effect>) {
    forall e | e in log :: !e.JobCreated?
  }

  ghost predicate NoHooks(log: seq<Effect>) {
    forall e | e in log :: !e.HookRan?
  }

  lemma RecordLog(cfg: Config, c: Cluster, rs: Status, out: Outcome, env: Env) returns (more: seq<Effect>)
    ensures Record(cfg, c, rs, out, env).log == c.log + more && NoJobs(more) && NoHooks(more)
  {
    more := [];
    assert c.log + more == c.log;
    if !(out.Ignored? || out.ApiFails? || Lost(cfg, rs, out, env)) {
      var after := Recorded(cfg, rs, out, env.now);
      more := (if after == rs then [] else [StatusPatched]) + Emitted(cfg, rs, out, env.now);
      assert c.log + (if after == rs then [] else [StatusPatched]) + Emitted(cfg, rs, out, env.now) == c.log + more;
    }
  }

  // What hooks and launches log.
  lemma ProceedingLog(cfg: Config, d: Cluster, rs: Status, env: Env, p: Prepared)
    returns (hooks: seq<Effect>, created: seq<Effect>)
    ensures Proceeding(cfg, d, rs, env, p).log == d.log + hooks + created
    ensures NoJobs(hooks) && NoHooks(created)
    ensures hooks != [] || created != [] ==> p.Goes?
    ensures hooks == if p.Goes? then HookEffects(HooksOf(cfg, rs, env, p).ran) else []
    ensures hooks != [] ==> rs.jobs == []
    ensures created != [] && p.Goes? ==> HooksOf(cfg, rs, env, p).problem.None?
  {
    hooks, created := [], [];
    if p.Goes? {
      var run := HooksOf(cfg, rs, env, p);
      hooks := HookEffects(run.ran);
      var hooked := d.(log := d.log + hooks);
      if run.problem.None? {
        LaunchingKeeps(cfg, hooked, rs, env, p.launches);
        created := Launching(cfg, hooked, rs, env, p.launches).log[|hooked.log|..];
      }
    }
  }

  lemma PreparingLog(cfg: Config, c: Cluster, read: Status, env: Env) returns (prepared: seq<Effect>)
    ensures Preparing(cfg, c, read, env).log == c.log + prepared && NoJobs(prepared) && NoHooks(prepared)
  {
    PreparingKeeps(cfg, c, read, env);
    prepared := Preparing(cfg, c, read, env).log[|c.log|..];
  }

  // What hooks and creations say of the reconcile that logged them.
  ghost predicate Accounts(cfg: Config, c: Cluster, read: Status, env: Env, hooks: seq<Effect>, created: seq<Effect>) {
    var p := Prepare(cfg, c, read, env);
    && NoJobs(hooks) && NoHooks(created)
    && (hooks != [] || created != [] ==> p.Goes?)
    && hooks == (if p.Goes? then HookEffects(HooksOf(cfg, read, env, p).ran) else [])
    && (hooks != [] ==> read.jobs == [])
    && (created != [] && p.Goes? ==> HooksOf(cfg, read, env, p).problem.None?)
  }

  lemma ActedLog(cfg: Config, c: Cluster, read: Status, env: Env)
    returns (prepared: seq<Effect>, hooks: seq<Effect>, created: seq<Effect>)
    ensures Acted(cfg, c, read, env).log == c.log + prepared + hooks + created
    ensures NoJobs(prepared) && NoHooks(prepared) && Accounts(cfg, c, read, env, hooks, created)
  {
    prepared := PreparingLog(cfg, c, read, env);
    hooks, created := ProceedingLog(cfg, Preparing(cfg, c, read, env), read, env, Prepare(cfg, c, read, env));
  }

  // A reconcile logs what preparing wrote, then hooks, then creations, then the recording.
  lemma ReconcileLog(cfg: Config, c: Cluster, read: Status, env: Env)
    returns (prepared: seq<Effect>, hooks: seq<Effect>, created: seq<Effect>, recorded: seq<Effect>)
    ensures Reconcile(cfg, c, read, env).log == c.log + prepared + hooks + created + recorded
    ensures NoJobs(prepared) && NoHooks(prepared) && NoJobs(recorded) && NoHooks(recorded)
    ensures Accounts(cfg, c, read, env, hooks, created)
  {
    prepared, hooks, created := ActedLog(cfg, c, read, env);
    recorded := RecordLog(cfg, Acted(cfg, c, read, env), read, Decide(cfg, c, read, env), env);
  }

  lemma LogsNoJobs(cfg: Config, c: Cluster, read: Status, env: Env)
    requires NoJobs(c.log)
    requires var p := Prepare(cfg, c, read, env); p.Goes? ==> HooksOf(cfg, read, env, p).problem.Some?
    ensures NoJobs(Reconcile(cfg, c, read, env).log)
  {
    var prepared, hooks, created, recorded := ReconcileLog(cfg, c, read, env);
  }

  lemma SplitsLog(log: seq<Effect>, hooks: seq<Effect>, rest: seq<Effect>)
    requires HooksFirst(log) && NoHooks(rest) && (hooks == [] || NoJobs(log)) && NoJobs(hooks)
    ensures HooksFirst(log + hooks + rest)
  {
    var all := log + hooks + rest;
    forall i, j | 0 <= i < j < |all| ensures !(all[i].JobCreated? && all[j].HookRan?) {
      if j >= |log| + |hooks| {
        assert all[j] == rest[j - |log| - |hooks|];
      } else if j >= |log| {
        if i < |log| { assert all[i] == log[i]; } else { assert all[i] == hooks[i - |log|]; }
      }
    }
  }

  lemma FirstStays(log: seq<Effect>, prepared: seq<Effect>)
    requires HooksFirst(log) && NoHooks(prepared)
    ensures HooksFirst(log + prepared)
  {
    var all := log + prepared;
    forall i, j | 0 <= i < j < |all| ensures !(all[i].JobCreated? && all[j].HookRan?) {
      if j >= |log| { assert all[j] == prepared[j - |log|]; }
    }
  }

  lemma AllFirst(log: seq<Effect>, prepared: seq<Effect>, hooks: seq<Effect>, created: seq<Effect>, recorded: seq<Effect>)
    requires HooksFirst(log) && NoHooks(prepared) && NoJobs(prepared) && NoJobs(hooks) && NoHooks(created) && NoHooks(recorded)
    requires hooks == [] || NoJobs(log)
    ensures HooksFirst(log + prepared + hooks + created + recorded)
  {
    FirstStays(log, prepared);
    SplitsLog(log + prepared, hooks, created + recorded);
    assert log + prepared + hooks + created + recorded == log + prepared + hooks + (created + recorded);
  }

  // The parts of a reconcile's log, and that only one that reaches the hooks has any.
  lemma LogParts(cfg: Config, c: Cluster, read: Status, env: Env)
    returns (prepared: seq<Effect>, hooks: seq<Effect>, created: seq<Effect>, recorded: seq<Effect>)
    ensures Reconcile(cfg, c, read, env).log == c.log + prepared + hooks + created + recorded
    ensures NoHooks(prepared) && NoJobs(prepared) && NoJobs(hooks) && NoHooks(created) && NoHooks(recorded)
    ensures hooks != [] ==> ReachesHooks(cfg, c, read, env)
  {
    prepared, hooks, created, recorded := ReconcileLog(cfg, c, read, env);
  }

  lemma LogsHooksFirst(cfg: Config, c: Cluster, read: Status, env: Env)
    requires HooksFirst(c.log) && (ReachesHooks(cfg, c, read, env) ==> NoJobs(c.log))
    ensures HooksFirst(Reconcile(cfg, c, read, env).log)
  {
    var prepared, hooks, created, recorded := LogParts(cfg, c, read, env);
    AllFirst(c.log, prepared, hooks, created, recorded);
  }

  // ---- runs -------------------------------------------------------------------------------------------------

  // A reconcile reads some copy of the status; between reconciles anything but status and log may change.
  datatype Action =
    | Reconciled(read: Status, env: Env)
    | Environment(jobs: map<string, Job>, secret: Option<Secret>, staging: Option<ConfigMap>)

  ghost function Next(cfg: Config, c: Cluster, a: Action): Cluster {
    match a
    case Reconciled(read, env) => Reconcile(cfg, c, read, env)
    case Environment(jobs, secret, staging) => c.(jobs := jobs, secret := secret, staging := staging)
  }

  ghost predicate HooksAt(cfg: Config, tr: seq<Cluster>, acts: seq<Action>, i: nat)
    requires i < |acts| && |tr| == |acts| + 1
  {
    acts[i].Reconciled? && ReachesHooks(cfg, tr[i], acts[i].read, acts[i].env)
  }

  // No API error once the hooks were reached.
  ghost predicate WritesStatus(cfg: Config, tr: seq<Cluster>, acts: seq<Action>, i: nat)
    requires i < |acts| && |tr| == |acts| + 1
  {
    HooksAt(cfg, tr, acts, i) ==> ReconcileResult(cfg, tr[i], acts[i].read, acts[i].env) != Errored
  }

  // The copy that is read may be old, but no older than what a reconcile that reached the hooks wrote.
  ghost predicate ReadsRecent(cfg: Config, tr: seq<Cluster>, acts: seq<Action>, i: nat)
    requires i < |acts| && |tr| == |acts| + 1
  {
    acts[i].Reconciled? ==>
      exists k: nat :: k <= i && tr[k].status == acts[i].read && forall h: nat | h < i && HooksAt(cfg, tr, acts, h) :: h < k
  }

  ghost predicate StepAt(cfg: Config, tr: seq<Cluster>, acts: seq<Action>, i: nat)
    requires i < |acts| && |tr| == |acts| + 1
  {
    tr[i + 1] == Next(cfg, tr[i], acts[i]) && WritesStatus(cfg, tr, acts, i) && ReadsRecent(cfg, tr, acts, i)
  }

  ghost predicate Run(cfg: Config, tr: seq<Cluster>, acts: seq<Action>) {
    && |tr| == |acts| + 1 && tr[0].status == EMPTY_STATUS && tr[0].log == []
    && forall i: nat | i < |acts| :: StepAt(cfg, tr, acts, i)
  }

  // Some reconcile before moment i reached the hooks.
  ghost predicate Hooked(cfg: Config, tr: seq<Cluster>, acts: seq<Action>, i: nat)
    requires |tr| == |acts| + 1 && i <= |acts|
  {
    exists h: nat :: h < i && HooksAt(cfg, tr, acts, h)
  }

  // Which side of the hooks a moment is on.
  ghost predicate Sided(cfg: Config, tr: seq<Cluster>, acts: seq<Action>, i: nat)
    requires |tr| == |acts| + 1 && i <= |acts|
  {
    if Hooked(cfg, tr, acts, i) then Behind(tr[i].status) else Ahead(tr[i].status) && NoJobs(tr[i].log)
  }

  // One step, from the sides of the moment it starts at and of the copy it reads.
  lemma StepSided(cfg: Config, tr: seq<Cluster>, acts: seq<Action>, p: nat, k: nat)
    requires Run(cfg, tr, acts) && p < |acts| && k <= p && Sided(cfg, tr, acts, p) && Sided(cfg, tr, acts, k)
    requires acts[p].Reconciled? ==> tr[k].status == acts[p].read
    requires Hooked(cfg, tr, acts, p) ==> Hooked(cfg, tr, acts, k)
    ensures Sided(cfg, tr, acts, p + 1)
  {
    assert StepAt(cfg, tr, acts, p);
    if acts[p].Reconciled? {
      var read, env := acts[p].read, acts[p].env;
      if Hooked(cfg, tr, acts, p) {
        BehindStays(cfg, tr[p], read, env);
      } else if HooksAt(cfg, tr, acts, p) {
        HooksSettle(cfg, tr[p], read, env);
        assert Hooked(cfg, tr, acts, p + 1);
      } else {
        AheadStays(cfg, tr[p], read, env);
        LogsNoJobs(cfg, tr[p], read, env);
      }
    }
  }

  lemma {:induction false} AlwaysSided(cfg: Config, tr: seq<Cluster>, acts: seq<Action>, i: nat)
    requires Run(cfg, tr, acts) && i < |tr|
    ensures Sided(cfg, tr, acts, i)
  {
    if i > 0 {
      var p := i - 1;
      AlwaysSided(cfg, tr, acts, p);
      var k := ReadFrom(cfg, tr, acts, p);
      AlwaysSided(cfg, tr, acts, k);
      StepSided(cfg, tr, acts, p, k);
    }
  }

  // The moment whose status a reconcile reads lies past every earlier reconcile that reached the hooks.
  lemma ReadFrom(cfg: Config, tr: seq<Cluster>, acts: seq<Action>, p: nat) returns (k: nat)
    requires Run(cfg, tr, acts) && p < |acts|
    ensures k <= p && (acts[p].Reconciled? ==> tr[k].status == acts[p].read)
    ensures forall h: nat | h < p && HooksAt(cfg, tr, acts, h) :: h < k
    ensures Hooked(cfg, tr, acts, p) ==> Hooked(cfg, tr, acts, k)
  {
    assert StepAt(cfg, tr, acts, p);
    k := p;
    if acts[p].Reconciled? {
      k :| k <= p && tr[k].status == acts[p].read && forall h: nat | h < p && HooksAt(cfg, tr, acts, h) :: h < k;
    }
  }

  lemma NotAgain(cfg: Config, tr: seq<Cluster>, acts: seq<Action>, j: nat)
    requires Run(cfg, tr, acts) && j < |acts| && Hooked(cfg, tr, acts, j)
    ensures !HooksAt(cfg, tr, acts, j)
  {
    if HooksAt(cfg, tr, acts, j) {
      var k := ReadFrom(cfg, tr, acts, j);
      AlwaysSided(cfg, tr, acts, k);
      ReachingIsAhead(cfg, tr[j], acts[j].read, acts[j].env);
    }
  }

  /** At most once: no two reconciles of a run execute hooks. */
  lemma HooksAtMostOnce(cfg: Config, tr: seq<Cluster>, acts: seq<Action>, i: nat, j: nat)
    requires Run(cfg, tr, acts) && i < |acts| && j < |acts| && HooksAt(cfg, tr, acts, i) && HooksAt(cfg, tr, acts, j)
    ensures i == j
  {
    if i < j { NotAgain(cfg, tr, acts, j); }
    if j < i { NotAgain(cfg, tr, acts, i); }
  }

  /** All hooks precede the first Job creation. */
  lemma {:induction false} HooksPrecedeJobs(cfg: Config, tr: seq<Cluster>, acts: seq<Action>, i: nat)
    requires Run(cfg, tr, acts) && i < |tr|
    ensures HooksFirst(tr[i].log)
  {
    if i > 0 {
      var p := i - 1;
      HooksPrecedeJobs(cfg, tr, acts, p);
      assert StepAt(cfg, tr, acts, p);
      if acts[p].Reconciled? {
        AlwaysSided(cfg, tr, acts, p);
        if HooksAt(cfg, tr, acts, p) && Hooked(cfg, tr, acts, p) { NotAgain(cfg, tr, acts, p); }
        LogsHooksFirst(cfg, tr[p], acts[p].read, acts[p].env);
      }
    }
  }

  // ---- a hook problem ---------------------------------------------------------------------------------------

  ghost predicate HookProblemAt(cfg: Config, tr: seq<Cluster>, acts: seq<Action>, i: nat)
    requires i < |acts| && |tr| == |acts| + 1
  {
    HooksAt(cfg, tr, acts, i)
    && HooksOf(cfg, acts[i].read, acts[i].env, Prepare(cfg, tr[i], acts[i].read, acts[i].env)).problem.Some?
  }

  lemma ProblemFails(cfg: Config, c: Cluster, read: Status, env: Env)
    requires ReachesHooks(cfg, c, read, env) && Ahead(read) && ReconcileResult(cfg, c, read, env) != Errored
    requires HooksOf(cfg, read, env, Prepare(cfg, c, read, env)).problem.Some?
    ensures Reconcile(cfg, c, read, env).status.phase == Failed
  {
    RecordsFailure(cfg, Acted(cfg, c, read, env), read, Decide(cfg, c, read, env), env);
  }

  lemma RecordsFailure(cfg: Config, c: Cluster, read: Status, out: Outcome, env: Env)
    requires out.Fails? && !Lost(cfg, read, out, env) && read.phase != Failed
    ensures Record(cfg, c, read, out, env).status.phase == Failed
  {
    assert Recorded(cfg, read, out, env.now).phase != read.phase;
  }

  lemma FailedStep(cfg: Config, tr: seq<Cluster>, acts: seq<Action>, p: nat, read: Status)
    requires Run(cfg, tr, acts) && p < |acts| && (acts[p].Reconciled? ==> acts[p].read == read) && read.phase == Failed
    ensures tr[p + 1].status == tr[p].status && tr[p + 1].log == tr[p].log
  {
    assert StepAt(cfg, tr, acts, p);
    if acts[p].Reconciled? { TerminalIsIgnored(cfg, tr[p], read, acts[p].env); }
  }

  // Past moment i, reconciles read copies from past moment i.
  ghost predicate ReadsPast(tr: seq<Cluster>, acts: seq<Action>, i: nat)
    requires |tr| == |acts| + 1
  {
    forall p: nat | i < p < |acts| && acts[p].Reconciled? :: exists k: nat :: i < k <= p && tr[k].status == acts[p].read
  }

  lemma ReadsPastHooks(cfg: Config, tr: seq<Cluster>, acts: seq<Action>, i: nat)
    requires Run(cfg, tr, acts) && i < |acts| && HooksAt(cfg, tr, acts, i)
    ensures ReadsPast(tr, acts, i)
  {
    forall p: nat | i < p < |acts| && acts[p].Reconciled? ensures exists k: nat :: i < k <= p && tr[k].status == acts[p].read {
      var k := ReadFrom(cfg, tr, acts, p);
    }
  }

  // From the problem on, the backup is Failed and nothing more is logged.
  lemma {:induction false} FailedForever(cfg: Config, tr: seq<Cluster>, acts: seq<Action>, i: nat, j: nat)
    requires Run(cfg, tr, acts) && i < j < |tr| && ReadsPast(tr, acts, i) && tr[i + 1].status.phase == Failed
    ensures tr[j].status.phase == Failed && tr[j].log == tr[i + 1].log
  {
    if i + 1 < j {
      var p := j - 1;
      FailedForever(cfg, tr, acts, i, p);
      var read := tr[p].status;
      if acts[p].Reconciled? {
        var k: nat :| i < k <= p && tr[k].status == acts[p].read;
        FailedForever(cfg, tr, acts, i, k);
        read := tr[k].status;
      }
      FailedStep(cfg, tr, acts, p, read);
    }
  }

  // The reconcile that meets the problem fails the backup, with no Job in the log.
  lemma ProblemStep(cfg: Config, tr: seq<Cluster>, acts: seq<Action>, i: nat)
    requires Run(cfg, tr, acts) && i < |acts| && HookProblemAt(cfg, tr, acts, i)
    ensures !Hooked(cfg, tr, acts, i)
    ensures tr[i + 1].status.phase == Failed && NoJobs(tr[i + 1].log)
  {
    if Hooked(cfg, tr, acts, i) { NotAgain(cfg, tr, acts, i); }
    assert StepAt(cfg, tr, acts, i);
    AlwaysSided(cfg, tr, acts, i);
    var k := ReadFrom(cfg, tr, acts, i);
    AlwaysSided(cfg, tr, acts, k);
    ProblemFails(cfg, tr[i], acts[i].read, acts[i].env);
    LogsNoJobs(cfg, tr[i], acts[i].read, acts[i].env);
  }

  /** A hook problem, an invalid annotation or a failed command, fails the backup for good: no Job was created before
      it and none ever will be. */
  lemma HookProblemMeansNoJobs(cfg: Config, tr: seq<Cluster>, acts: seq<Action>, i: nat, j: nat)
    requires Run(cfg, tr, acts) && i < |acts| && j < |tr| && HookProblemAt(cfg, tr, acts, i)
    ensures NoJobs(tr[j].log)
    ensures j > i ==> tr[j].status.phase == Failed
  {
    ProblemStep(cfg, tr, acts, i);
    if j > i {
      ReadsPastHooks(cfg, tr, acts, i);
      FailedForever(cfg, tr, acts, i, j);
    } else {
      AlwaysSided(cfg, tr, acts, j);
    }
  }
}
