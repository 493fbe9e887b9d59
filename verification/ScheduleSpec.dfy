/** ScheduleSpec: one PBSSchedule reconcile as a function of the copy it read and the answers it got. Times are
    nanoseconds; the due slot is defined by scanning backwards from now, not by the controller's catch-up loop. */
module ScheduleSpec {
  import opened Wrappers
  import opened Decimals
  import opened Conditions

  const SECOND := 1_000_000_000
  const REQUEUE_CAP := 60 * SECOND

  // ---- cron ------------------------------------------------------------------------------------------

  // A parsed expression: the first slot after a time.
  datatype Cron = Cron(next: int -> int)

  ghost predicate IsCron(c: Cron) {
    && (forall t :: t < c.next(t))
    && (forall t, u | t <= u < c.next(t) :: c.next(u) == c.next(t))
    && (forall t :: c.next(t) % SECOND == 0)
  }

  predicate Slot(c: Cron, t: int) {
    c.next(t - 1) == t
  }

  // The greatest slot in (base, now].
  ghost function LatestDue(c: Cron, base: int, now: int): (due: Option<int>)
    ensures due.Some? ==> base < due.value <= now && Slot(c, due.value)
    ensures forall s | base < s <= now && Slot(c, s) :: due.Some? && s <= due.value
    decreases now - base
  {
    if now <= base then None
    else if Slot(c, now) then Some(now)
    else LatestDue(c, base, now - 1)
  }

  // ---- objects ------------------------------------------------------------------------------------------

  datatype Template = Template(pvcs: seq<string>, selector: seq<(string, string)>, notes: string)
  datatype Backup = Backup(schedule: string, repoRef: string, template: Template, finished: bool)

  datatype Reason = Valid | InvalidCron | RepoMissing | BackupMade
  datatype Message = BadExpression(error: string) | RepoNotFound | RepoNotReady | NextFire(suspended: bool, next: int)
    | CreatedFor(slot: int)

  type Ready = Condition<Reason, Message>
  datatype Status = Status(ready: Option<Ready>, last: Option<int>, next: Option<int>, active: seq<string>)

  datatype Parsed = Unparsable(error: string) | Parsed(cron: Cron)

  datatype Config = Config(name: string, repoRef: string, template: Template, creation: int, cron: Parsed)

  datatype Effect = BackupCreated(name: string) | StatusPatched | Event(warning: bool, reason: Reason, message: Message)

  // The part of the API server one schedule reads and writes, with a log of every write and event.
  datatype Cluster = Cluster(backups: map<string, Backup>, status: Status, log: seq<Effect>)

  // ---- what one reconcile is answered ----------------------------------------------------------------

  datatype Repo = RepoFails | RepoAbsent | RepoFound(ready: bool)

  // A create may be refused, or be carried out and its reply lost.
  datatype Reply = Answered | Refused | Lost

  datatype Listing = ListFails | Listed(items: seq<(string, Backup)>)

  // `read` is the copy of the status the cache served; it may be old.
  datatype Env = Env(read: Status, suspend: bool, generation: int, repo: Repo, create: Reply, listing: Listing,
                     patchFails: bool, now: int, later: int)

  datatype Result = Errored | Requeue(wait: int)

  // ---- the reconcile -----------------------------------------------------------------------------------

  function BackupName(cfg: Config, slot: int): string {
    cfg.name + "-" + Decimal(slot / SECOND)
  }

  function NewBackup(cfg: Config): Backup {
    Backup(cfg.name, cfg.repoRef, cfg.template, false)
  }

  function Base(cfg: Config, rs: Status): int {
    if rs.last.Some? && rs.last.value > cfg.creation then rs.last.value else cfg.creation
  }

  // The gates pass.
  predicate Opens(cfg: Config, env: Env) {
    cfg.cron.Parsed? && env.repo.RepoFound? && env.repo.ready
  }

  ghost function Due(cfg: Config, env: Env): Option<int>
    requires cfg.cron.Parsed?
  {
    LatestDue(cfg.cron.cron, Base(cfg, env.read), env.now)
  }

  // The slot a reconcile serves, and the one it actually creates a backup for.
  ghost function Fired(cfg: Config, env: Env): Option<int> {
    if Opens(cfg, env) && !env.suspend then Due(cfg, env) else None
  }

  ghost function CreatedSlot(cfg: Config, c: Cluster, env: Env): Option<int> {
    var due := Fired(cfg, env);
    if due.Some? && !env.create.Refused? && BackupName(cfg, due.value) !in c.backups then due else None
  }

  // A second create for a slot finds its name taken.
  function Fire(cfg: Config, c: Cluster, env: Env, slot: int): Cluster {
    var name := BackupName(cfg, slot);
    if env.create.Refused? || name in c.backups then c
    else c.(backups := c.backups[name := NewBackup(cfg)],
            log := c.log + [BackupCreated(name)]
                   + (if env.create.Answered? then [Event(false, BackupMade, CreatedFor(slot))] else []))
  }

  // The names of the listed backups that are not finished, in listing order.
  function Active(items: seq<(string, Backup)>): seq<string> {
    if items == [] then []
    else
      var last := items[|items| - 1];
      Active(items[..|items| - 1]) + (if last.1.finished then [] else [last.0])
  }

  ghost function Refreshed(cfg: Config, env: Env): Status
    requires cfg.cron.Parsed? && env.listing.Listed?
  {
    var next := cfg.cron.cron.next(env.now);
    Status(Some(SetCondition(env.read.ready, true, Valid, NextFire(env.suspend, next), env.generation, env.now)),
           if Fired(cfg, env).Some? then Fired(cfg, env) else env.read.last,
           Some(next),
           Active(env.listing.items))
  }

  function Wait(next: int, later: int): int {
    var wait := next - later;
    if wait <= 0 || wait > REQUEUE_CAP then REQUEUE_CAP else wait
  }

  function MergeStatus(server: Status, before: Status, after: Status): Status {
    Status(Merge(server.ready, before.ready, after.ready),
           Merge(server.last, before.last, after.last),
           Merge(server.next, before.next, after.next),
           Merge(server.active, before.active, after.active))
  }

  predicate Patches(env: Env, after: Status) {
    after != env.read && !env.patchFails
  }

  function Patch(c: Cluster, env: Env, after: Status): Cluster {
    if Patches(env, after) then c.(status := MergeStatus(c.status, env.read, after), log := c.log + [StatusPatched])
    else c
  }

  // What keeps the schedule from firing.
  datatype Gate = Open | GateFails | Shut(reason: Reason, message: Message, wait: int)

  function GateOf(cfg: Config, env: Env): Gate {
    if cfg.cron.Unparsable? then Shut(InvalidCron, BadExpression(cfg.cron.error), 300 * SECOND)
    else match env.repo
      case RepoFails => GateFails
      case RepoAbsent => Shut(RepoMissing, RepoNotFound, 60 * SECOND)
      case RepoFound(ready) => if ready then Open else Shut(RepoMissing, RepoNotReady, 60 * SECOND)
  }

  function HeldStatus(env: Env, reason: Reason, message: Message): Status {
    env.read.(ready := Some(SetCondition(env.read.ready, false, reason, message, env.generation, env.now)))
  }

  function Hold(c: Cluster, env: Env, reason: Reason, message: Message): Cluster {
    var after := HeldStatus(env, reason, message);
    var patched := Patch(c, env, after);
    if Transitioned(env.read.ready, after.ready.value) && (after == env.read || !env.patchFails)
    then patched.(log := patched.log + [Event(true, reason, message)]) else patched
  }

  // A write of `after` that fails is an error.
  predicate Refuses(env: Env, after: Status) {
    after != env.read && env.patchFails
  }

  ghost function Reconcile(cfg: Config, c: Cluster, env: Env): Cluster {
    match GateOf(cfg, env)
    case GateFails => c
    case Shut(reason, message, _) => Hold(c, env, reason, message)
    case Open =>
      var fired := Fired(cfg, env);
      var mid := if fired.Some? then Fire(cfg, c, env, fired.value) else c;
      if (fired.Some? && !env.create.Answered?) || env.listing.ListFails? then mid
      else Patch(mid, env, Refreshed(cfg, env))
  }

  ghost function ResultOf(cfg: Config, env: Env): Result {
    match GateOf(cfg, env)
    case GateFails => Errored
    case Shut(reason, message, wait) => if Refuses(env, HeldStatus(env, reason, message)) then Errored else Requeue(wait)
    case Open =>
      if (Fired(cfg, env).Some? && !env.create.Answered?) || env.listing.ListFails? then Errored
      else if Refuses(env, Refreshed(cfg, env)) then Errored
      else Requeue(Wait(cfg.cron.cron.next(env.now), env.later))
  }
}
