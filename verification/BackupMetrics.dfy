/** BackupMetrics: many backups of one namespace share its series. Over any interleaving, on any copies of the statuses
    that are not from before a backup's end once it has ended, the error counter is the number of Failed backups, and
    the success gauge is the time of the latest completion. */
module BackupMetrics {
  import opened Wrappers
  import opened BackupSpec
  import BackupHooks

  // Each backup with its own Jobs, copies and status; the metrics are shared.
  datatype World = World(backups: map<string, Cluster>, metrics: Metrics)

  // One backup is reconciled on some copy of its status, or anything about it but its status changes.
  datatype Action = Reconciled(id: string, read: Status, env: Env) | Environment(id: string, jobs: map<string, Job>)

  type Configs = string -> Config

  ghost function Next(cfgs: Configs, w: World, a: Action): World {
    if a.id !in w.backups then w
    else match a
      case Environment(id, jobs) => w.(backups := w.backups[id := w.backups[id].(jobs := jobs)])
      case Reconciled(id, read, env) =>
        var d := Reconcile(cfgs(id), w.backups[id].(metrics := w.metrics), read, env);
        World(w.backups[id := d], d.metrics)
  }

  // The copy is one the backup's status once was, and not from before its end once it has ended.
  ghost predicate ReadsEnd(tr: seq<World>, a: Action, i: nat)
    requires i < |tr|
  {
    a.Reconciled? && a.id in tr[i].backups ==>
      && (exists k: nat :: k <= i && a.id in tr[k].backups && tr[k].backups[a.id].status == a.read)
      && (Terminal(tr[i].backups[a.id].status.phase) ==> Terminal(a.read.phase))
  }

  ghost predicate Run(cfgs: Configs, tr: seq<World>, acts: seq<Action>) {
    && |tr| == |acts| + 1
    && tr[0].metrics == Metrics(None, None, 0)
    && (forall id | id in tr[0].backups :: tr[0].backups[id].status == EMPTY_STATUS)
    && forall i: nat | i < |acts| :: tr[i + 1] == Next(cfgs, tr[i], acts[i]) && ReadsEnd(tr, acts[i], i)
  }

  function PhaseOf(w: World, id: string): Phase
    requires id in w.backups
  {
    w.backups[id].status.phase
  }

  ghost function FailedBackups(w: World): set<string> {
    set id | id in w.backups && PhaseOf(w, id) == Failed
  }

  // ---- one reconcile ------------------------------------------------------------------------------------

  // Only the end of a backup sets its completion time.
  predicate Clean(s: Status) {
    Terminal(s.phase) || s.completedAt.None?
  }

  // What a reconcile does to the metrics is told by the phase it reaches.
  ghost predicate Counts(c: Cluster, d: Cluster) {
    && Clean(d.status)
    && if Terminal(c.status.phase) then d.status == c.status && d.metrics == c.metrics
       else if d.status.phase == Failed then
         d.metrics == c.metrics.(errors := c.metrics.errors + 1)
       else if d.status.phase == Completed then
         d.metrics.errors == c.metrics.errors && d.status.completedAt.Some?
         && d.metrics.lastSuccess == Some(Unix(d.status.completedAt.value))
       else d.metrics == c.metrics
  }

  lemma RecordedPhase(cfg: Config, read: Status, out: Outcome, now: int)
    requires !out.Ignored? && !out.ApiFails? && !Terminal(read.phase) && read.completedAt.None?
    ensures var after := Recorded(cfg, read, out, now);
            && (after.phase == Failed <==> out.Fails?) && (after.phase == Completed <==> out.Completes?)
            && (if out.Fails? || out.Completes? then after.completedAt == Some(now) else after.completedAt == None)
  {
  }

  lemma RecordCounts(cfg: Config, c: Cluster, read: Status, out: Outcome, env: Env)
    requires Clean(c.status) && Clean(read)
    requires Terminal(c.status.phase) ==> Terminal(read.phase)
    requires Terminal(read.phase) ==> out.Ignored?
    ensures Counts(c, Record(cfg, c, read, out, env))
  {
    if !out.Ignored? && !out.ApiFails? && !Lost(cfg, read, out, env) {
      RecordedPhase(cfg, read, out, env.now);
    }
  }

  lemma ActedMetrics(cfg: Config, c: Cluster, read: Status, env: Env)
    ensures Acted(cfg, c, read, env).metrics == c.metrics
  {
    BackupHooks.PreparingKeeps(cfg, c, read, env);
    var p := Prepare(cfg, c, read, env);
    if p.Goes? {
      var d := Preparing(cfg, c, read, env);
      BackupHooks.LaunchingKeeps(cfg, d.(log := d.log + HookEffects(HooksOf(cfg, read, env, p).ran)), read, env, p.launches);
    }
  }

  lemma ReconcileCounts(cfg: Config, c: Cluster, read: Status, env: Env)
    requires Clean(c.status) && Clean(read) && (Terminal(c.status.phase) ==> Terminal(read.phase))
    ensures Counts(c, Reconcile(cfg, c, read, env))
  {
    if Terminal(read.phase) {
      BackupHooks.TerminalIsIgnored(cfg, c, read, env);
    } else {
      BackupHooks.ActedKeepsStatus(cfg, c, read, env);
      ActedMetrics(cfg, c, read, env);
      RecordCounts(cfg, Acted(cfg, c, read, env), read, Decide(cfg, c, read, env), env);
    }
  }

  // ---- runs ----------------------------------------------------------------------------------------------

  // Some backup completed in the step, and when.
  ghost predicate Completes(a: World, b: World, id: string) {
    id in a.backups && id in b.backups && PhaseOf(a, id) != Completed && PhaseOf(b, id) == Completed
  }

  ghost predicate AllClean(w: World) {
    forall id | id in w.backups :: Clean(w.backups[id].status)
  }

  ghost predicate StepCounts(a: World, b: World, id: string) {
    && a.backups.Keys == b.backups.Keys
    && (forall other | other in a.backups && other != id :: b.backups[other] == a.backups[other])
    && (id in a.backups ==> Counts(a.backups[id].(metrics := a.metrics), b.backups[id].(metrics := b.metrics)))
    && (id !in a.backups ==> b.metrics == a.metrics)
  }

  lemma NextCounts(cfgs: Configs, w: World, a: Action)
    requires AllClean(w)
    requires a.Reconciled? && a.id in w.backups ==>
               Clean(a.read) && (Terminal(w.backups[a.id].status.phase) ==> Terminal(a.read.phase))
    ensures StepCounts(w, Next(cfgs, w, a), a.id)
  {
    if a.id in w.backups && a.Reconciled? {
      ReconcileCounts(cfgs(a.id), w.backups[a.id].(metrics := w.metrics), a.read, a.env);
    }
  }

  lemma StaysClean(a: World, b: World, id: string)
    requires AllClean(a) && StepCounts(a, b, id)
    ensures AllClean(b)
  {
  }

  lemma StepOf(cfgs: Configs, tr: seq<World>, acts: seq<Action>, p: nat, k: nat)
    requires Run(cfgs, tr, acts) && p < |acts| && k <= p && AllClean(tr[p]) && AllClean(tr[k])
    requires acts[p].Reconciled? && acts[p].id in tr[p].backups ==>
               acts[p].id in tr[k].backups && tr[k].backups[acts[p].id].status == acts[p].read
    ensures StepCounts(tr[p], tr[p + 1], acts[p].id)
  {
    assert tr[p + 1] == Next(cfgs, tr[p], acts[p]) && ReadsEnd(tr, acts[p], p);
    NextCounts(cfgs, tr[p], acts[p]);
  }

  lemma {:induction false} AlwaysClean(cfgs: Configs, tr: seq<World>, acts: seq<Action>, i: nat)
    requires Run(cfgs, tr, acts) && i < |tr|
    ensures AllClean(tr[i])
    decreases i, 0
  {
    if i > 0 {
      AlwaysClean(cfgs, tr, acts, i - 1);
      AlwaysCounts(cfgs, tr, acts, i - 1);
      StaysClean(tr[i - 1], tr[i], acts[i - 1].id);
    }
  }

  // Every step of a run counts.
  lemma {:induction false} AlwaysCounts(cfgs: Configs, tr: seq<World>, acts: seq<Action>, p: nat)
    requires Run(cfgs, tr, acts) && p < |acts|
    ensures StepCounts(tr[p], tr[p + 1], acts[p].id)
    decreases p, 1
  {
    var k: nat := p;
    if acts[p].Reconciled? && acts[p].id in tr[p].backups {
      assert ReadsEnd(tr, acts[p], p);
      var from: nat :| from <= p && acts[p].id in tr[from].backups && tr[from].backups[acts[p].id].status == acts[p].read;
      k := from;
    }
    AlwaysClean(cfgs, tr, acts, p);
    AlwaysClean(cfgs, tr, acts, k);
    StepOf(cfgs, tr, acts, p, k);
  }

  // The acted-on backup fails in the step.
  ghost predicate FailsIn(a: World, b: World, id: string) {
    id in a.backups && id in b.backups && !Terminal(PhaseOf(a, id)) && PhaseOf(b, id) == Failed
  }

  lemma FailedAfter(a: World, b: World, id: string)
    requires StepCounts(a, b, id)
    ensures FailedBackups(b) == FailedBackups(a) + (if FailsIn(a, b, id) then {id} else {})
    ensures FailsIn(a, b, id) ==> id !in FailedBackups(a)
  {
  }

  lemma MetricsAfter(a: World, b: World, id: string)
    requires StepCounts(a, b, id)
    ensures b.metrics.errors == a.metrics.errors + (if FailsIn(a, b, id) then 1 else 0)
    ensures if Completes(a, b, id) && b.backups[id].status.completedAt.Some?
            then b.metrics.lastSuccess == Some(Unix(b.backups[id].status.completedAt.value))
            else b.metrics.lastSuccess == a.metrics.lastSuccess
  {
  }

  lemma ErrorsStep(a: World, b: World, id: string)
    requires StepCounts(a, b, id) && a.metrics.errors == |FailedBackups(a)|
    ensures b.metrics.errors == |FailedBackups(b)|
  {
    FailedAfter(a, b, id);
    MetricsAfter(a, b, id);
  }

  /** The error counter is always the number of backups that reached Failed. */
  lemma {:induction false} ErrorsAreFailures(cfgs: Configs, tr: seq<World>, acts: seq<Action>, i: nat)
    requires Run(cfgs, tr, acts) && i < |tr|
    ensures tr[i].metrics.errors == |FailedBackups(tr[i])|
  {
    if i == 0 {
      assert FailedBackups(tr[0]) == {};
    } else {
      ErrorsAreFailures(cfgs, tr, acts, i - 1);
      AlwaysCounts(cfgs, tr, acts, i - 1);
      ErrorsStep(tr[i - 1], tr[i], acts[i - 1].id);
    }
  }

  // The completion time of the backup that completed last, if any has.
  ghost function LatestCompletion(tr: seq<World>, acts: seq<Action>, i: nat): Option<int>
    requires |tr| == |acts| + 1 && i < |tr|
  {
    if i == 0 then None
    else
      var id := acts[i - 1].id;
      if Completes(tr[i - 1], tr[i], id) && tr[i].backups[id].status.completedAt.Some?
      then Some(Unix(tr[i].backups[id].status.completedAt.value))
      else LatestCompletion(tr, acts, i - 1)
  }

  /** The success gauge is always the completion time of the latest Completed transition; failures never touch it. */
  lemma {:induction false} LastSuccessIsLatest(cfgs: Configs, tr: seq<World>, acts: seq<Action>, i: nat)
    requires Run(cfgs, tr, acts) && i < |tr|
    ensures tr[i].metrics.lastSuccess == LatestCompletion(tr, acts, i)
  {
    if i > 0 {
      LastSuccessIsLatest(cfgs, tr, acts, i - 1);
      AlwaysCounts(cfgs, tr, acts, i - 1);
      MetricsAfter(tr[i - 1], tr[i], acts[i - 1].id);
    }
  }

  // A copy from before the end is one too old: a Failed backup that fails again on it is counted again.
  lemma StaleCopyCountsAgain(cfg: Config, c: Cluster, read: Status, env: Env)
    requires c.status.phase == Failed && Decide(cfg, c, read, env).Fails? && !Lost(cfg, read, Decide(cfg, c, read, env), env)
    ensures Reconcile(cfg, c, read, env).metrics.errors == c.metrics.errors + 1
    ensures Reconcile(cfg, c, read, env).status.phase == Failed
  {
    ActedMetrics(cfg, c, read, env);
    BackupHooks.ActedKeepsStatus(cfg, c, read, env);
    RecordFails(cfg, Acted(cfg, c, read, env), read, Decide(cfg, c, read, env), env);
  }

  lemma RecordFails(cfg: Config, c: Cluster, rs: Status, out: Outcome, env: Env)
    requires out.Fails? && !Lost(cfg, rs, out, env) && c.status.phase == Failed
    ensures Record(cfg, c, rs, out, env).metrics.errors == c.metrics.errors + 1
    ensures Record(cfg, c, rs, out, env).status.phase == Failed
  {
  }
}
