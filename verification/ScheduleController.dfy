/** ScheduleController: PBSScheduleReconciler as it is written, proved to compute ScheduleSpec.Reconcile. */
module ScheduleController {
  import opened Wrappers
  import opened Conditions
  import opened ScheduleSpec

  // ---- facts about slots -------------------------------------------------------------------------------

  // The first slot after a time is a slot.
  lemma NextIsSlot(c: Cron, t: int)
    requires IsCron(c)
    ensures Slot(c, c.next(t))
  {
    var s := c.next(t);
    assert t <= s - 1 < c.next(t);
  }

  // No slot lies strictly between a time and the next slot.
  lemma NoSlotBefore(c: Cron, t: int, s: int)
    requires IsCron(c) && t < s && Slot(c, s)
    ensures c.next(t) <= s
  {
    assert s - 1 < c.next(t) ==> c.next(s - 1) == c.next(t);
  }

  class ApiServer {
    var backups: map<string, Backup>
    var status: Status
    var log: seq<Effect>

    function State(): Cluster
      reads this
    {
      Cluster(backups, status, log)
    }

    // Not-exists, already-exists and errors, as Create reports them.
    method CreateBackup(cfg: Config, name: string, env: Env) returns (taken: bool, ok: bool)
      modifies this
      ensures status == old(status)
      ensures ok == env.create.Answered? && taken == (name in old(backups))
      ensures if env.create.Refused? || taken then backups == old(backups) && log == old(log)
              else backups == old(backups)[name := NewBackup(cfg)] && log == old(log) + [BackupCreated(name)]
    {
      taken := name in backups;
      if !env.create.Refused? && !taken {
        backups := backups[name := NewBackup(cfg)];
        log := log + [BackupCreated(name)];
      }
      ok := env.create.Answered?;
    }

    method PatchStatus(before: Status, after: Status, env: Env) returns (ok: bool)
      modifies this
      ensures ok == !env.patchFails && backups == old(backups)
      ensures status == if ok then MergeStatus(old(status), before, after) else old(status)
      ensures log == if ok then old(log) + [StatusPatched] else old(log)
    {
      ok := !env.patchFails;
      if ok {
        status := MergeStatus(status, before, after);
        log := log + [StatusPatched];
      }
    }

    method Emit(e: Effect)
      modifies this`log
      ensures log == old(log) + [e]
    {
      log := log + [e];
    }
  }

  // The reconcile's copy of the object.
  class PBSSchedule {
    var status: Status

    constructor (status: Status)
      ensures this.status == status
    {
      this.status := status;
    }
  }

  class Reconciler {
    const cfg: Config
    const api: ApiServer

    constructor (cfg: Config, api: ApiServer)
      ensures this.cfg == cfg && this.api == api
    {
      this.cfg := cfg;
      this.api := api;
    }

    // The catch-up loop: from the first slot after base forward to the last one that is due.
    method CatchUp(cron: Cron, base: int, now: int) returns (due: Option<int>)
      requires IsCron(cron)
      ensures due == LatestDue(cron, base, now)
    {
      var fire := cron.next(base);
      NextIsSlot(cron, base);
      if fire > now {
        forall s | base < s <= now ensures !Slot(cron, s) {
          if Slot(cron, s) { NoSlotBefore(cron, base, s); }
        }
        return None;
      }
      var next := cron.next(fire);
      while next <= now
        invariant base < fire <= now && Slot(cron, fire) && next == cron.next(fire)
        decreases now - fire
      {
        NextIsSlot(cron, fire);
        fire := next;
        next := cron.next(fire);
      }
      forall s | fire < s <= now ensures !Slot(cron, s) {
        if Slot(cron, s) { NoSlotBefore(cron, fire, s); }
      }
      return Some(fire);
    }

    method FireBackup(slot: int, env: Env) returns (created: bool, ok: bool)
      modifies api
      ensures api.State() == Fire(cfg, old(api.State()), env, slot) && ok == env.create.Answered?
      ensures created ==> BackupName(cfg, slot) !in old(api.backups) && BackupName(cfg, slot) in api.backups
    {
      var name := BackupName(cfg, slot);
      var taken;
      taken, ok := api.CreateBackup(cfg, name, env);
      created := ok && !taken;
      if created {
        api.Emit(Event(false, BackupMade, CreatedFor(slot)));
      }
    }

    method ActiveBackups(items: seq<(string, Backup)>) returns (out: seq<string>)
      ensures out == Active(items)
    {
      out := [];
      for i := 0 to |items|
        invariant out == Active(items[..i])
      {
        assert items[..i + 1][..i] == items[..i];
        if !items[i].1.finished {
          out := out + [items[i].0];
        }
      }
      assert items[..|items|] == items;
    }

    method PatchStatusIfChanged(before: Status, after: Status, env: Env) returns (ok: bool)
      requires before == env.read
      modifies api
      ensures api.State() == Patch(old(api.State()), env, after) && ok == !Refuses(env, after)
    {
      if before == after {
        return true;
      }
      ok := api.PatchStatus(before, after, env);
    }

    method Hold(schedule: PBSSchedule, reason: Reason, message: Message, wait: int, env: Env) returns (r: Result)
      requires schedule.status == env.read
      modifies api, schedule
      ensures api.State() == ScheduleSpec.Hold(old(api.State()), env, reason, message)
      ensures r == if Refuses(env, HeldStatus(env, reason, message)) then Errored else Requeue(wait)
    {
      var before := schedule.status;
      var cond := SetCondition(before.ready, false, reason, message, env.generation, env.now);
      var transitioned := Transitioned(before.ready, cond);
      schedule.status := before.(ready := Some(cond));
      var ok := PatchStatusIfChanged(before, schedule.status, env);
      if !ok {
        return Errored;
      }
      if transitioned {
        api.Emit(Event(true, reason, message));
      }
      return Requeue(wait);
    }

    method Reconcile(env: Env) returns (r: Result)
      requires cfg.cron.Parsed? ==> IsCron(cfg.cron.cron)
      modifies api
      ensures api.State() == ScheduleSpec.Reconcile(cfg, old(api.State()), env)
      ensures r == ResultOf(cfg, env)
    {
      var schedule := new PBSSchedule(env.read);
      var orig := schedule.status;
      if cfg.cron.Unparsable? {
        r := Hold(schedule, InvalidCron, BadExpression(cfg.cron.error), 300 * SECOND, env);
        return;
      }
      match env.repo {
        case RepoAbsent =>
          r := Hold(schedule, RepoMissing, RepoNotFound, 60 * SECOND, env);
          return;
        case RepoFails =>
          return Errored;
        case RepoFound(ready) =>
          if !ready {
            r := Hold(schedule, RepoMissing, RepoNotReady, 60 * SECOND, env);
            return;
          }
      }
      r := Serve(schedule, orig, cfg.cron.cron, env);
    }

    // Fire what is due, refresh the status, requeue.
    method Serve(schedule: PBSSchedule, orig: Status, cron: Cron, env: Env) returns (r: Result)
      requires cfg.cron == Parsed(cron) && IsCron(cron) && Opens(cfg, env)
      requires schedule.status == orig == env.read
      modifies api, schedule
      ensures api.State() == ScheduleSpec.Reconcile(cfg, old(api.State()), env)
      ensures r == ResultOf(cfg, env)
    {
      var base := cfg.creation;
      if schedule.status.last.Some? && schedule.status.last.value > base {
        base := schedule.status.last.value;
      }
      var due := CatchUp(cron, base, env.now);
      if due.Some? && !env.suspend {
        var created, ok := FireBackup(due.value, env);
        if !ok {
          return Errored;
        }
        schedule.status := schedule.status.(last := due);
      }
      var next := cron.next(env.now);
      schedule.status := schedule.status.(next := Some(next));
      if env.listing.ListFails? {
        return Errored;
      }
      var active := ActiveBackups(env.listing.items);
      schedule.status := schedule.status.(active := active);
      var cond := SetCondition(schedule.status.ready, true, Valid, NextFire(env.suspend, next), env.generation, env.now);
      schedule.status := schedule.status.(ready := Some(cond));
      var patched := PatchStatusIfChanged(orig, schedule.status, env);
      if !patched {
        return Errored;
      }
      var wait := next - env.later;
      if wait <= 0 || wait > REQUEUE_CAP {
        wait := REQUEUE_CAP;
      }
      return Requeue(wait);
    }
  }
}
