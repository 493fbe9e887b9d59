/** ScheduleOutcomes: what one schedule reconcile makes of the answers it gets, told from the answers alone: what a created
    backup carries, what is recorded, and when it looks again. */
module ScheduleOutcomes {
  import opened Wrappers
  import opened Decimals
  import opened ScheduleSpec

  // ---- facts ------------------------------------------------------------------------------------------------------

  const MINUTE := 60_000_000_000

  // The slot to serve: the latest one past the last served, or past the schedule's creation.
  ghost predicate IsDue(cfg: Config, env: Env, slot: int)
    requires cfg.cron.Parsed?
  {
    && slot <= env.now && Slot(cfg.cron.cron, slot) && cfg.creation < slot && (env.read.last.Some? ==> env.read.last.value < slot)
    && forall s | slot < s <= env.now :: !Slot(cfg.cron.cron, s)
  }

  ghost predicate GatesOpen(cfg: Config, env: Env) {
    cfg.cron.Parsed? && env.repo == RepoFound(true)
  }

  // The slot a reconcile fires for, if any.
  ghost predicate Fires(cfg: Config, env: Env, slot: int) {
    GatesOpen(cfg, env) && !env.suspend && IsDue(cfg, env, slot)
  }

  ghost predicate FiresNot(cfg: Config, env: Env) {
    forall slot :: !Fires(cfg, env, slot)
  }

  lemma FiredIs(cfg: Config, env: Env)
    ensures forall slot :: Fired(cfg, env) == Some(slot) <==> Fires(cfg, env, slot)
    ensures Fired(cfg, env).None? <==> FiresNot(cfg, env)
  {
    if GatesOpen(cfg, env) && !env.suspend {
      var due := Due(cfg, env);
      forall slot ensures due == Some(slot) <==> IsDue(cfg, env, slot) {}
      if due.Some? { assert Fires(cfg, env, due.value); }
    }
  }

  ghost predicate Stamped(env: Env, now: Status, ready: bool, reason: Reason, message: Message) {
    && now.ready.Some?
    && var c, before := now.ready.value, env.read.ready;
       && c.ready == ready && c.reason == reason && c.message == message && c.generation == env.generation
       && c.since == if before.Some? && before.value.ready == ready then before.value.since else env.now
  }

  predicate News(env: Env, ready: bool, reason: Reason, message: Message) {
    var before := env.read.ready;
    before.None? || before.value.ready != ready || before.value.reason != reason || before.value.message != message
    || before.value.generation != env.generation
  }

  // ---- the gates ------------------------------------------------------------------------------------------------

  // Shut: only the condition changes, news is told by a warning, and nothing is created.
  ghost predicate EndsShut(cfg: Config, c: Cluster, env: Env, reason: Reason, message: Message, wait: int) {
    var d := Reconcile(cfg, c, env);
    && ResultOf(cfg, env) == Requeue(wait) && d.backups == c.backups
    && (c.status == env.read ==>
          && Stamped(env, d.status, false, reason, message) && d.status == env.read.(ready := d.status.ready)
          && d.log == c.log + (if d.status != env.read then [StatusPatched] else [])
                    + (if News(env, false, reason, message) then [Event(true, reason, message)] else []))
  }

  lemma ShutEnds(cfg: Config, c: Cluster, env: Env, reason: Reason, message: Message, wait: int)
    requires GateOf(cfg, env) == Shut(reason, message, wait) && !env.patchFails
    ensures EndsShut(cfg, c, env, reason, message, wait)
  {
    var d := Reconcile(cfg, c, env);
    var after := HeldStatus(env, reason, message);
    if c.status == env.read {
      assert d.status == after;
      var events: seq<Effect> := if News(env, false, reason, message) then [Event(true, reason, message)] else [];
      assert d.log == (if after != env.read then c.log + [StatusPatched] else c.log) + events;
      assert c.log + [] == c.log;
    }
  }

  /** At the gates: an expression that does not parse is looked at again in five minutes, a repo that is missing or not ready
      in one; a repo that cannot be read is an error. */
  lemma AtTheGates(cfg: Config, c: Cluster, env: Env)
    requires !env.patchFails
    ensures cfg.cron.Unparsable? ==> EndsShut(cfg, c, env, InvalidCron, BadExpression(cfg.cron.error), 5 * MINUTE)
    ensures cfg.cron.Parsed? && env.repo.RepoAbsent? ==> EndsShut(cfg, c, env, RepoMissing, RepoNotFound, MINUTE)
    ensures cfg.cron.Parsed? && env.repo == RepoFound(false) ==> EndsShut(cfg, c, env, RepoMissing, RepoNotReady, MINUTE)
    ensures cfg.cron.Parsed? && env.repo.RepoFails? ==> Reconcile(cfg, c, env) == c && ResultOf(cfg, env) == Errored
  {
    var gate := GateOf(cfg, env);
    if gate.Shut? { ShutEnds(cfg, c, env, gate.reason, gate.message, gate.wait); }
  }

  // ---- firing ---------------------------------------------------------------------------------------------------

  // A backup of the schedule's own: its name, its repo, its selection and notes; just begun.
  ghost predicate BackupOf(cfg: Config, b: Backup) {
    && b.schedule == cfg.name && b.repoRef == cfg.repoRef && !b.finished
    && b.template.pvcs == cfg.template.pvcs && b.template.selector == cfg.template.selector && b.template.notes == cfg.template.notes
  }

  function NameFor(cfg: Config, slot: int): string {
    cfg.name + "-" + Decimal(slot / 1_000_000_000)
  }

  /** A backup appears if and only if a slot is fired for whose name is free, and the create is not refused; it carries the
      schedule's name, repo and template, and no other backup changes. */
  lemma CreatesExactly(cfg: Config, c: Cluster, env: Env, name: string)
    ensures var d := Reconcile(cfg, c, env);
            && (name in d.backups && name !in c.backups <==>
                  name !in c.backups && !env.create.Refused? && exists slot :: Fires(cfg, env, slot) && name == NameFor(cfg, slot))
            && (name in d.backups && name !in c.backups ==> BackupOf(cfg, d.backups[name]))
            && (name in c.backups ==> name in d.backups && d.backups[name] == c.backups[name])
  {
    FiredIs(cfg, env);
    var fired := Fired(cfg, env);
    if fired.Some? { assert Fires(cfg, env, fired.value); }
  }

  // What firing tells: the creation, and one event if the reply came.
  function FireTold(cfg: Config, env: Env, slot: int): seq<Effect> {
    [BackupCreated(NameFor(cfg, slot))] + (if env.create.Answered? then [Event(false, BackupMade, CreatedFor(slot))] else [])
  }

  /** A creation is logged when it happens, and told by one event when its reply comes; nothing else is logged but the
      patch. */
  lemma FireIsTold(cfg: Config, c: Cluster, env: Env)
    requires GatesOpen(cfg, env)
    ensures var d := Reconcile(cfg, c, env);
            && (FiresNot(cfg, env) ==> d.log == c.log || d.log == c.log + [StatusPatched])
            && forall slot | Fires(cfg, env, slot) ::
                 if env.create.Refused? || NameFor(cfg, slot) in c.backups then d.log == c.log || d.log == c.log + [StatusPatched]
                 else d.log == c.log + FireTold(cfg, env, slot) || d.log == c.log + FireTold(cfg, env, slot) + [StatusPatched]
  {
    FiredIs(cfg, env);
    var fired := Fired(cfg, env);
    if fired.Some? {
      assert Fires(cfg, env, fired.value);
      FireLogs(cfg, c, env, fired.value);
    }
  }

  lemma FireLogs(cfg: Config, c: Cluster, env: Env, slot: int)
    ensures Fire(cfg, c, env, slot).log ==
            if env.create.Refused? || NameFor(cfg, slot) in c.backups then c.log else c.log + FireTold(cfg, env, slot)
  {
    var events: seq<Effect> := if env.create.Answered? then [Event(false, BackupMade, CreatedFor(slot))] else [];
    assert c.log + [BackupCreated(NameFor(cfg, slot))] + events == c.log + FireTold(cfg, env, slot);
  }

  // ---- a whole reconcile ----------------------------------------------------------------------------------------

  // The k-th name is that of the backup listed at `at[k]`.
  ghost predicate NamesAt(items: seq<(string, Backup)>, names: seq<string>, at: seq<nat>) {
    && |at| == |names|
    && (forall k | 0 <= k < |at| :: at[k] < |items| && names[k] == items[at[k]].0 && !items[at[k]].1.finished)
    && (forall j, k | 0 <= j < k < |at| :: at[j] < at[k])
  }

  ghost predicate CoversUnfinished(items: seq<(string, Backup)>, at: seq<nat>) {
    forall i: nat | i < |items| && !items[i].1.finished :: i in at
  }

  // The backups that are not finished, each once and in listing order.
  ghost predicate Unfinished(items: seq<(string, Backup)>, names: seq<string>) {
    exists at :: NamesAt(items, names, at) && CoversUnfinished(items, at)
  }

  lemma NamesAtMore(items: seq<(string, Backup)>, names: seq<string>, at: seq<nat>)
    requires items != [] && NamesAt(items[..|items| - 1], names, at)
    ensures NamesAt(items, names, at)
    ensures !items[|items| - 1].1.finished ==> NamesAt(items, names + [items[|items| - 1].0], at + [|items| - 1])
  {
    assert forall k | 0 <= k < |at| :: items[..|items| - 1][at[k]] == items[at[k]];
  }

  lemma CoversMore(items: seq<(string, Backup)>, at: seq<nat>)
    requires items != [] && CoversUnfinished(items[..|items| - 1], at)
    ensures CoversUnfinished(items, if items[|items| - 1].1.finished then at else at + [|items| - 1])
  {
    var n := |items| - 1;
    var more: seq<nat> := if items[n].1.finished then at else at + [n];
    forall i: nat | i < |items| && !items[i].1.finished ensures i in more {
      if i < n { assert items[..n][i] == items[i] && i in at; }
    }
  }

  lemma {:induction false} ActiveIs(items: seq<(string, Backup)>)
    ensures Unfinished(items, Active(items))
  {
    if items == [] {
      assert NamesAt(items, [], []) && CoversUnfinished(items, []);
    } else {
      var n := |items| - 1;
      ActiveIs(items[..n]);
      var at :| NamesAt(items[..n], Active(items[..n]), at) && CoversUnfinished(items[..n], at);
      NamesAtMore(items, Active(items[..n]), at);
      CoversMore(items, at);
      var more: seq<nat> := if items[n].1.finished then at else at + [n];
      assert Active(items[..n]) + [] == Active(items[..n]);
      assert NamesAt(items, Active(items), more) && CoversUnfinished(items, more);
    }
  }

  // Looks again at the next slot, within a minute.
  predicate LooksAgain(next: int, later: int, wait: int) {
    wait == if later < next <= later + MINUTE then next - later else MINUTE
  }

  // The create, if one is due, is answered, and the backups are listed.
  ghost predicate Answered(cfg: Config, env: Env) {
    (FiresNot(cfg, env) || env.create.Answered?) && env.listing.Listed?
  }

  lemma FireKeepsStatus(cfg: Config, c: Cluster, env: Env, slot: int)
    ensures Fire(cfg, c, env, slot).status == c.status
  {
  }

  /** Past the gates: a create that is not answered, or a listing that fails, is an error; the status is left to the next
      time. */
  lemma UnansweredErrs(cfg: Config, c: Cluster, env: Env)
    requires GatesOpen(cfg, env) && !Answered(cfg, env)
    ensures ResultOf(cfg, env) == Errored && Reconcile(cfg, c, env).status == c.status
  {
    FiredIs(cfg, env);
    var fired := Fired(cfg, env);
    if fired.Some? { FireKeepsStatus(cfg, c, env, fired.value); }
  }

  lemma RefreshedIs(cfg: Config, env: Env)
    requires GatesOpen(cfg, env) && Answered(cfg, env)
    ensures var after, next := Refreshed(cfg, env), cfg.cron.cron.next(env.now);
            && Stamped(env, after, true, Valid, NextFire(env.suspend, next))
            && after.next == Some(next) && Unfinished(env.listing.items, after.active)
            && (if FiresNot(cfg, env) then after.last == env.read.last else after.last.Some? && Fires(cfg, env, after.last.value))
  {
    FiredIs(cfg, env);
    ActiveIs(env.listing.items);
  }

  lemma RecordsRefreshed(cfg: Config, c: Cluster, env: Env)
    requires GatesOpen(cfg, env) && Answered(cfg, env) && c.status == env.read
    ensures Reconcile(cfg, c, env).status == if env.patchFails then c.status else Refreshed(cfg, env)
    ensures ResultOf(cfg, env) ==
            if env.patchFails && Refreshed(cfg, env) != env.read then Errored
            else Requeue(Wait(cfg.cron.cron.next(env.now), env.later))
  {
    FiredIs(cfg, env);
    var fired := Fired(cfg, env);
    if fired.Some? { FireKeepsStatus(cfg, c, env, fired.value); }
  }

  /** Otherwise the fire time moves to the slot fired for, the next slot and the unfinished backups are recorded, and it looks
      again at the next slot but within a minute. */
  lemma RecordsTheFire(cfg: Config, c: Cluster, env: Env)
    requires GatesOpen(cfg, env) && Answered(cfg, env) && c.status == env.read && !env.patchFails
    ensures var d, next := Reconcile(cfg, c, env), cfg.cron.cron.next(env.now);
            && Stamped(env, d.status, true, Valid, NextFire(env.suspend, next))
            && d.status.next == Some(next) && Unfinished(env.listing.items, d.status.active)
            && (if FiresNot(cfg, env) then d.status.last == c.status.last
                else d.status.last.Some? && Fires(cfg, env, d.status.last.value))
            && ResultOf(cfg, env).Requeue? && LooksAgain(next, env.later, ResultOf(cfg, env).wait)
  {
    RefreshedIs(cfg, env);
    RecordsRefreshed(cfg, c, env);
  }
}
