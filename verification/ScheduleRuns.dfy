/** ScheduleRuns: what a schedule does over whole runs. Under stale reads, failed patches, lost replies and suspend
    toggles every slot gets at most one backup, in strictly increasing order; under an ideal timer every slot gets
    one, at its own time. */
module ScheduleRuns {
  import opened Wrappers
  import opened Decimals
  import opened ScheduleSpec
  import opened ScheduleController

  // ---- names -------------------------------------------------------------------------------------------

  lemma {:induction false} NaturalHasNoDash(n: nat)
    ensures '-' !in Natural(n)
  {
    assert forall c | c in Natural(n) :: c != '-';
  }

  // Slots are whole seconds, so different slots get different names.
  lemma SlotNamesDiffer(cfg: Config, s: int, t: int)
    requires s % SECOND == 0 && t % SECOND == 0 && BackupName(cfg, s) == BackupName(cfg, t)
    ensures s == t
  {
    var head := cfg.name + "-";
    assert BackupName(cfg, s)[|head|..] == Decimal(s / SECOND);
    assert BackupName(cfg, t)[|head|..] == Decimal(t / SECOND);
    DecimalInjective(s / SECOND, t / SECOND);
  }

  // Two schedules never contend for a name, whatever their names.
  lemma ScheduleNamesDiffer(a: Config, b: Config, s: int, t: int)
    requires 0 <= s && 0 <= t && BackupName(a, s) == BackupName(b, t)
    ensures a.name == b.name && s / SECOND == t / SECOND
  {
    var x, y := Natural(s / SECOND), Natural(t / SECOND);
    var whole := BackupName(a, s);
    assert whole == a.name + "-" + x == b.name + "-" + y;
    NaturalHasNoDash(s / SECOND);
    NaturalHasNoDash(t / SECOND);
    LastDash(a.name, x, b.name, y);
    NaturalInjective(s / SECOND, t / SECOND);
  }

  lemma LastDash(a: string, x: string, b: string, y: string)
    requires '-' !in x && '-' !in y && a + "-" + x == b + "-" + y
    ensures a == b && x == y
  {
    var left, right := a + "-" + x, b + "-" + y;
    assert forall k | |a| < k < |left| :: left[k] == x[k - |a| - 1];
    assert forall k | |b| < k < |right| :: right[k] == y[k - |b| - 1];
    assert left[|a|] == '-' && right[|b|] == '-';
    assert left[..|a|] == a && right[..|b|] == b;
    assert left[|a| + 1..] == x && right[|b| + 1..] == y;
  }

  lemma SlotIsWhole(c: Cron, s: int)
    requires IsCron(c) && Slot(c, s)
    ensures s % SECOND == 0
  {
    assert c.next(s - 1) % SECOND == 0;
  }

  // ---- runs under an adversary ---------------------------------------------------------------------

  // Others may add backups and finish them, but delete none.
  datatype Action = Reconciled(env: Env) | Environment(backups: map<string, Backup>)

  ghost predicate Moves(cfg: Config, tr: seq<Cluster>, a: Action, i: nat)
    requires i + 1 < |tr|
  {
    match a
    case Environment(backups) => tr[i].backups.Keys <= backups.Keys && tr[i + 1] == tr[i].(backups := backups)
    case Reconciled(env) =>
      (exists j: nat :: j <= i && tr[j].status == env.read) && tr[i + 1] == Reconcile(cfg, tr[i], env)
  }

  ghost predicate Clock(acts: seq<Action>) {
    forall i, j | 0 <= i < j < |acts| && acts[i].Reconciled? && acts[j].Reconciled? :: acts[i].env.now <= acts[j].env.now
  }

  ghost predicate Run(cfg: Config, tr: seq<Cluster>, acts: seq<Action>) {
    && |tr| == |acts| + 1 && Clock(acts)
    && cfg.cron.Parsed? && IsCron(cfg.cron.cron)
    && tr[0].status.last.None?
    && forall i | 0 <= i < |acts| :: Moves(cfg, tr, acts[i], i)
  }

  // A slot some reconcile before moment i could have served.
  ghost predicate Reached(cfg: Config, acts: seq<Action>, i: nat, slot: int)
    requires i <= |acts| && cfg.cron.Parsed?
  {
    && Slot(cfg.cron.cron, slot) && cfg.creation < slot
    && exists k: nat :: k < i && acts[k].Reconciled? && slot <= acts[k].env.now
  }

  // What is recorded as last served is such a slot, and its backup is there.
  ghost predicate LastServed(cfg: Config, tr: seq<Cluster>, acts: seq<Action>, i: nat, last: Option<int>)
    requires i <= |acts| && |tr| == |acts| + 1 && cfg.cron.Parsed?
  {
    last.Some? ==> Reached(cfg, acts, i, last.value) && BackupName(cfg, last.value) in tr[i].backups
  }

  lemma BackupsGrow(cfg: Config, c: Cluster, env: Env)
    ensures c.backups.Keys <= Reconcile(cfg, c, env).backups.Keys
  {
  }

  lemma {:induction false} BackupsKept(cfg: Config, tr: seq<Cluster>, acts: seq<Action>, i: nat, j: nat)
    requires Run(cfg, tr, acts) && i <= j < |tr|
    ensures tr[i].backups.Keys <= tr[j].backups.Keys
  {
    if i < j {
      BackupsKept(cfg, tr, acts, i, j - 1);
      assert Moves(cfg, tr, acts[j - 1], j - 1);
      if acts[j - 1].Reconciled? { BackupsGrow(cfg, tr[j - 1], acts[j - 1].env); }
    }
  }

  // The recorded fire time after a reconcile: the server's, the one read, or the one just served.
  lemma LastAfter(cfg: Config, c: Cluster, env: Env)
    ensures var last := Reconcile(cfg, c, env).status.last;
            || last == c.status.last
            || (Fired(cfg, env).Some? && last == Fired(cfg, env)
                && BackupName(cfg, last.value) in Reconcile(cfg, c, env).backups)
  {
  }

  lemma FiredIsReached(cfg: Config, acts: seq<Action>, i: nat)
    requires i < |acts| && acts[i].Reconciled? && cfg.cron.Parsed? && Fired(cfg, acts[i].env).Some?
    ensures Reached(cfg, acts, i + 1, Fired(cfg, acts[i].env).value)
  {
  }

  lemma ServedStep(cfg: Config, tr: seq<Cluster>, acts: seq<Action>, p: nat)
    requires Run(cfg, tr, acts) && p < |acts| && LastServed(cfg, tr, acts, p, tr[p].status.last)
    ensures LastServed(cfg, tr, acts, p + 1, tr[p + 1].status.last)
  {
    BackupsKept(cfg, tr, acts, p, p + 1);
    assert Moves(cfg, tr, acts[p], p);
    if acts[p].Reconciled? {
      LastAfter(cfg, tr[p], acts[p].env);
      if Fired(cfg, acts[p].env).Some? { FiredIsReached(cfg, acts, p); }
    }
  }

  /** The recorded fire time is always a slot that came due, and its backup exists. */
  lemma {:induction false} RecordedSlotsAreServed(cfg: Config, tr: seq<Cluster>, acts: seq<Action>, i: nat)
    requires Run(cfg, tr, acts) && i < |tr|
    ensures LastServed(cfg, tr, acts, i, tr[i].status.last)
  {
    if i > 0 {
      RecordedSlotsAreServed(cfg, tr, acts, i - 1);
      ServedStep(cfg, tr, acts, i - 1);
    }
  }

  // Whatever copy it read, a later reconcile's due slot is no earlier than any slot reached before.
  lemma DueCatchesUp(cfg: Config, acts: seq<Action>, i: nat, slot: int)
    requires i < |acts| && acts[i].Reconciled? && Clock(acts) && cfg.cron.Parsed?
    requires Reached(cfg, acts, i, slot) && Fired(cfg, acts[i].env).Some?
    ensures slot <= Fired(cfg, acts[i].env).value
  {
    var k: nat :| k < i && acts[k].Reconciled? && slot <= acts[k].env.now;
    var env := acts[i].env;
    assert slot <= env.now;
    if slot > Base(cfg, env.read) {
      assert Due(cfg, env).Some? && slot <= Due(cfg, env).value;
    }
  }

  lemma ReachedLater(cfg: Config, acts: seq<Action>, i: nat, j: nat, slot: int)
    requires i <= j <= |acts| && cfg.cron.Parsed? && Reached(cfg, acts, i, slot)
    ensures Reached(cfg, acts, j, slot)
  {
  }

  ghost predicate NoEarlier(a: Option<int>, b: Option<int>) {
    a.Some? ==> b.Some? && a.value <= b.value
  }

  lemma StepNoEarlier(cfg: Config, tr: seq<Cluster>, acts: seq<Action>, p: nat)
    requires Run(cfg, tr, acts) && p < |acts|
    ensures NoEarlier(tr[p].status.last, tr[p + 1].status.last)
  {
    RecordedSlotsAreServed(cfg, tr, acts, p);
    assert Moves(cfg, tr, acts[p], p);
    if acts[p].Reconciled? {
      var env := acts[p].env;
      LastAfter(cfg, tr[p], env);
      if Fired(cfg, env).Some? && tr[p].status.last.Some? {
        DueCatchesUp(cfg, acts, p, tr[p].status.last.value);
      }
    }
  }

  lemma {:induction false} NoEarlierThroughout(tr: seq<Cluster>, i: nat, j: nat)
    requires i <= j < |tr| && forall p: nat | p + 1 < |tr| :: NoEarlier(tr[p].status.last, tr[p + 1].status.last)
    ensures NoEarlier(tr[i].status.last, tr[j].status.last)
  {
    if i < j {
      NoEarlierThroughout(tr, i, j - 1);
      assert NoEarlier(tr[j - 1].status.last, tr[j - 1 + 1].status.last);
    }
  }

  /** The recorded fire time never goes back, however stale the copies and whichever patches fail. */
  lemma LastNeverDecreases(cfg: Config, tr: seq<Cluster>, acts: seq<Action>, i: nat, j: nat)
    requires Run(cfg, tr, acts) && i <= j < |tr|
    ensures NoEarlier(tr[i].status.last, tr[j].status.last)
  {
    forall p: nat | p + 1 < |tr| ensures NoEarlier(tr[p].status.last, tr[p + 1].status.last) {
      StepNoEarlier(cfg, tr, acts, p);
    }
    NoEarlierThroughout(tr, i, j);
  }

  ghost predicate Creates(cfg: Config, tr: seq<Cluster>, acts: seq<Action>, i: nat, slot: int)
    requires |tr| == |acts| + 1 && i < |acts|
  {
    acts[i].Reconciled? && CreatedSlot(cfg, tr[i], acts[i].env) == Some(slot)
  }

  // The created slot is exactly what is new among the backups.
  lemma CreatedIsNew(cfg: Config, c: Cluster, env: Env)
    ensures var made := CreatedSlot(cfg, c, env);
            Reconcile(cfg, c, env).backups
            == if made.Some? then c.backups[BackupName(cfg, made.value) := NewBackup(cfg)] else c.backups
  {
  }

  /** At most once. The slots that get backups strictly increase along the run, so none gets two. */
  lemma SlotsIncrease(cfg: Config, tr: seq<Cluster>, acts: seq<Action>, i: nat, j: nat, s: int, t: int)
    requires Run(cfg, tr, acts) && i < j < |acts| && Creates(cfg, tr, acts, i, s) && Creates(cfg, tr, acts, j, t)
    ensures s < t && BackupName(cfg, s) != BackupName(cfg, t)
  {
    CreatedIsKept(cfg, tr, acts, i, j, s);
    FiredIsReached(cfg, acts, i);
    ReachedLater(cfg, acts, i + 1, j, s);
    DueCatchesUp(cfg, acts, j, s);
  }

  lemma CreatedIsKept(cfg: Config, tr: seq<Cluster>, acts: seq<Action>, i: nat, j: nat, s: int)
    requires Run(cfg, tr, acts) && i < j < |tr| && i < |acts| && Creates(cfg, tr, acts, i, s)
    ensures BackupName(cfg, s) in tr[j].backups
  {
    assert Moves(cfg, tr, acts[i], i);
    CreatedIsNew(cfg, tr[i], acts[i].env);
    BackupsKept(cfg, tr, acts, i + 1, j);
  }

  // That no backup is deleted is needed: once a slot's name is free again, a copy from before it was served has the
  // slot served a second time.
  lemma FreedNameIsTakenAgain(cfg: Config, c: Cluster, env: Env, slot: int)
    requires Creates(cfg, [c, Reconcile(cfg, c, env)], [Reconciled(env)], 0, slot)
    ensures var freed := Reconcile(cfg, c, env);
            CreatedSlot(cfg, freed.(backups := freed.backups - {BackupName(cfg, slot)}), env) == Some(slot)
  {
  }

  // A suspended schedule, or one whose gates are shut, fires nothing.
  predicate Idle(cfg: Config, a: Action) {
    a.Reconciled? ==> a.env.suspend || !Opens(cfg, a.env)
  }

  lemma IdleKeeps(cfg: Config, c: Cluster, env: Env)
    requires env.suspend || !Opens(cfg, env)
    ensures Reconcile(cfg, c, env).backups == c.backups && Reconcile(cfg, c, env).status.last == c.status.last
  {
  }

  lemma IdleMoves(cfg: Config, tr: seq<Cluster>, acts: seq<Action>, p: nat)
    requires Run(cfg, tr, acts) && p < |acts| && Idle(cfg, acts[p])
    ensures tr[p + 1].status.last == tr[p].status.last
    ensures acts[p].Reconciled? ==> tr[p + 1].backups == tr[p].backups
  {
    assert Moves(cfg, tr, acts[p], p);
    if acts[p].Reconciled? { IdleKeeps(cfg, tr[p], acts[p].env); }
  }

  lemma {:induction false} IdleStretch(cfg: Config, tr: seq<Cluster>, acts: seq<Action>, i: nat, j: nat)
    requires Run(cfg, tr, acts) && i <= j < |tr| && forall p: nat | i <= p < j :: Idle(cfg, acts[p])
    ensures tr[j].status.last == tr[i].status.last
  {
    if i < j {
      IdleStretch(cfg, tr, acts, i, j - 1);
      IdleMoves(cfg, tr, acts, j - 1);
    }
  }

  /** Resuming after any stretch of suspension or shut gates serves one slot: the latest one since the slot served
      before the stretch. All the others missed in between collapse into it, and their reconciles created nothing. */
  lemma ResumeServesLatestOnly(cfg: Config, tr: seq<Cluster>, acts: seq<Action>, i: nat, j: nat)
    requires Run(cfg, tr, acts) && i <= j < |acts| && forall p: nat | i <= p < j :: Idle(cfg, acts[p])
    requires acts[j].Reconciled? && acts[j].env.read == tr[j].status && !Idle(cfg, acts[j])
    ensures Fired(cfg, acts[j].env) == LatestDue(cfg.cron.cron, Base(cfg, tr[i].status), acts[j].env.now)
    ensures forall p: nat | i <= p < j && acts[p].Reconciled? :: tr[p + 1].backups == tr[p].backups
  {
    IdleStretch(cfg, tr, acts, i, j);
    forall p: nat | i <= p < j && acts[p].Reconciled? ensures tr[p + 1].backups == tr[p].backups {
      IdleMoves(cfg, tr, acts, p);
    }
  }

  // ---- runs under an ideal timer ----------------------------------------------------------------

  // Fresh reads, no failure, no suspension; the reconcile takes no time.
  ghost predicate Ideal(cfg: Config, c: Cluster, env: Env) {
    && Opens(cfg, env) && !env.suspend && env.read == c.status
    && env.create.Answered? && env.listing.Listed? && !env.patchFails && env.later == env.now
  }

  // Each reconcile runs exactly its requeue interval after the one before.
  ghost predicate Timed(cfg: Config, tr: seq<Cluster>, envs: seq<Env>) {
    && |tr| == |envs| + 1 && |envs| > 0
    && cfg.cron.Parsed? && IsCron(cfg.cron.cron)
    && tr[0].status.last.None? && cfg.creation <= envs[0].now
    && (forall s | Slot(cfg.cron.cron, s) && cfg.creation < s :: BackupName(cfg, s) !in tr[0].backups)
    && (forall i | 0 <= i < |envs| :: Ideal(cfg, tr[i], envs[i]) && tr[i + 1] == Reconcile(cfg, tr[i], envs[i]))
    && forall i | 0 <= i < |envs| - 1 ::
         ResultOf(cfg, envs[i]).Requeue? && envs[i + 1].now == envs[i].now + ResultOf(cfg, envs[i]).wait
  }

  lemma WaitIsBounded(next: int, now: int)
    requires now < next
    ensures 0 < Wait(next, now) && now + Wait(next, now) <= next
  {
  }

  lemma IdealReconcile(cfg: Config, c: Cluster, env: Env)
    requires cfg.cron.Parsed? && Ideal(cfg, c, env)
    ensures ResultOf(cfg, env) == Requeue(Wait(cfg.cron.cron.next(env.now), env.now))
    ensures Reconcile(cfg, c, env).status.last == if Due(cfg, env).Some? then Due(cfg, env) else c.status.last
  {
  }

  // The timer never steps over a slot.
  lemma TimerStops(cfg: Config, tr: seq<Cluster>, envs: seq<Env>, i: nat)
    requires Timed(cfg, tr, envs) && i + 1 < |envs|
    ensures envs[i].now < envs[i + 1].now
    ensures forall s | envs[i].now < s < envs[i + 1].now :: !Slot(cfg.cron.cron, s)
  {
    var c := cfg.cron.cron;
    IdealReconcile(cfg, tr[i], envs[i]);
    WaitIsBounded(c.next(envs[i].now), envs[i].now);
    forall s | envs[i].now < s < envs[i + 1].now ensures !Slot(c, s) {
      if Slot(c, s) { NoSlotBefore(c, envs[i].now, s); }
    }
  }

  // After each reconcile the recorded fire time is the latest slot so far, and later slots are unserved.
  ghost predicate UpToDate(cfg: Config, c: Cluster, now: int)
    requires cfg.cron.Parsed?
  {
    && c.status.last == LatestDue(cfg.cron.cron, cfg.creation, now)
    && forall s | Slot(cfg.cron.cron, s) && now < s :: BackupName(cfg, s) !in c.backups
  }

  // What reconcile i serves.
  ghost function Expected(cfg: Config, envs: seq<Env>, i: nat): Option<int>
    requires cfg.cron.Parsed? && i < |envs|
  {
    if i == 0 then LatestDue(cfg.cron.cron, cfg.creation, envs[0].now)
    else if Slot(cfg.cron.cron, envs[i].now) then Some(envs[i].now) else None
  }

  lemma DueIs(c: Cron, base: int, now: int, due: Option<int>)
    requires due.Some? ==> base < due.value <= now && Slot(c, due.value)
    requires forall s | base < s <= now && Slot(c, s) :: due.Some? && s <= due.value
    ensures LatestDue(c, base, now) == due
  {
  }

  // The slot the timer stopped at is the only one due.
  lemma OnlyNowIsDue(cfg: Config, c: Cluster, before: int, env: Env)
    requires cfg.cron.Parsed? && IsCron(cfg.cron.cron) && Ideal(cfg, c, env) && cfg.creation <= before < env.now
    requires c.status.last == LatestDue(cfg.cron.cron, cfg.creation, before)
    requires forall s | before < s < env.now :: !Slot(cfg.cron.cron, s)
    ensures Due(cfg, env) == if Slot(cfg.cron.cron, env.now) then Some(env.now) else None
    ensures LatestDue(cfg.cron.cron, cfg.creation, env.now) == if Due(cfg, env).Some? then Due(cfg, env) else c.status.last
  {
    var cron := cfg.cron.cron;
    DueIs(cron, Base(cfg, env.read), env.now, if Slot(cron, env.now) then Some(env.now) else None);
    DueIs(cron, cfg.creation, env.now, if Slot(cron, env.now) then Some(env.now) else c.status.last);
  }

  lemma StaysUnserved(cfg: Config, c: Cluster, env: Env, before: int)
    requires cfg.cron.Parsed? && IsCron(cfg.cron.cron) && before <= env.now
    requires forall s | Slot(cfg.cron.cron, s) && before < s :: BackupName(cfg, s) !in c.backups
    ensures forall s | Slot(cfg.cron.cron, s) && env.now < s :: BackupName(cfg, s) !in Reconcile(cfg, c, env).backups
  {
    CreatedIsNew(cfg, c, env);
    var made := CreatedSlot(cfg, c, env);
    forall s | Slot(cfg.cron.cron, s) && env.now < s ensures BackupName(cfg, s) !in Reconcile(cfg, c, env).backups {
      if made.Some? {
        SlotIsWhole(cfg.cron.cron, s);
        SlotIsWhole(cfg.cron.cron, made.value);
        if BackupName(cfg, s) == BackupName(cfg, made.value) { SlotNamesDiffer(cfg, s, made.value); }
      }
    }
  }

  // With everything up to `before` served, an ideal reconcile serves the slot it stopped at, if it is one.
  lemma IdealNext(cfg: Config, c: Cluster, env: Env, before: int)
    requires cfg.cron.Parsed? && IsCron(cfg.cron.cron) && Ideal(cfg, c, env) && cfg.creation <= before < env.now
    requires UpToDate(cfg, c, before)
    requires forall s | before < s < env.now :: !Slot(cfg.cron.cron, s)
    ensures UpToDate(cfg, Reconcile(cfg, c, env), env.now)
    ensures CreatedSlot(cfg, c, env) == if Slot(cfg.cron.cron, env.now) then Some(env.now) else None
  {
    IdealReconcile(cfg, c, env);
    OnlyNowIsDue(cfg, c, before, env);
    StaysUnserved(cfg, c, env, before);
  }

  lemma IdealFirst(cfg: Config, c: Cluster, env: Env)
    requires cfg.cron.Parsed? && IsCron(cfg.cron.cron) && Ideal(cfg, c, env) && cfg.creation <= env.now
    requires c.status.last.None?
    requires forall s | Slot(cfg.cron.cron, s) && cfg.creation < s :: BackupName(cfg, s) !in c.backups
    ensures UpToDate(cfg, Reconcile(cfg, c, env), env.now)
    ensures CreatedSlot(cfg, c, env) == LatestDue(cfg.cron.cron, cfg.creation, env.now)
  {
    IdealReconcile(cfg, c, env);
    StaysUnserved(cfg, c, env, cfg.creation);
  }

  lemma IdealStepNext(cfg: Config, tr: seq<Cluster>, envs: seq<Env>, i: nat)
    requires Timed(cfg, tr, envs) && i + 1 < |envs|
    requires UpToDate(cfg, tr[i + 1], envs[i].now) && cfg.creation <= envs[i].now
    ensures UpToDate(cfg, tr[i + 2], envs[i + 1].now) && cfg.creation <= envs[i + 1].now
    ensures CreatedSlot(cfg, tr[i + 1], envs[i + 1]) == Expected(cfg, envs, i + 1)
  {
    var c, env := tr[i + 1], envs[i + 1];
    TimerStops(cfg, tr, envs, i);
    assert Ideal(cfg, c, env) && tr[i + 2] == Reconcile(cfg, c, env);
    IdealNext(cfg, c, env, envs[i].now);
  }

  lemma {:induction false} IdealStep(cfg: Config, tr: seq<Cluster>, envs: seq<Env>, i: nat)
    requires Timed(cfg, tr, envs) && i < |envs|
    ensures UpToDate(cfg, tr[i + 1], envs[i].now)
    ensures cfg.creation <= envs[i].now
    ensures CreatedSlot(cfg, tr[i], envs[i]) == Expected(cfg, envs, i)
  {
    if i == 0 {
      IdealFirst(cfg, tr[0], envs[0]);
    } else {
      IdealStep(cfg, tr, envs, i - 1);
      IdealStepNext(cfg, tr, envs, i - 1);
    }
  }

  ghost predicate Served(cfg: Config, tr: seq<Cluster>, envs: seq<Env>, n: nat, slot: int)
    requires |tr| == |envs| + 1 && n < |envs|
  {
    exists i: nat :: i <= n && CreatedSlot(cfg, tr[i], envs[i]) == Some(slot)
  }

  // Some reconcile runs at every slot after the first one.
  lemma {:induction false} SlotIsHit(cfg: Config, tr: seq<Cluster>, envs: seq<Env>, n: nat, slot: int)
    requires Timed(cfg, tr, envs) && n < |envs| && Slot(cfg.cron.cron, slot) && envs[0].now < slot <= envs[n].now
    ensures exists i: nat :: 0 < i <= n && envs[i].now == slot
  {
    TimerStops(cfg, tr, envs, n - 1);
    if slot <= envs[n - 1].now {
      SlotIsHit(cfg, tr, envs, n - 1, slot);
    }
  }

  // What a reconcile serves is due, and after the first one is served on time.
  lemma ServedIsDue(cfg: Config, tr: seq<Cluster>, envs: seq<Env>, i: nat, n: nat, slot: int)
    requires Timed(cfg, tr, envs) && i <= n < |envs| && CreatedSlot(cfg, tr[i], envs[i]) == Some(slot)
    ensures || (i == 0 && LatestDue(cfg.cron.cron, cfg.creation, envs[0].now) == Some(slot))
            || (i > 0 && Slot(cfg.cron.cron, slot) && envs[0].now < slot <= envs[n].now && envs[i].now == slot)
  {
    IdealStep(cfg, tr, envs, i);
    if i > 0 {
      TimesIncrease(cfg, tr, envs, 0, i);
      if i < n { TimesIncrease(cfg, tr, envs, i, n); }
    }
  }

  // What is due is served.
  lemma DueIsServed(cfg: Config, tr: seq<Cluster>, envs: seq<Env>, n: nat, slot: int)
    requires Timed(cfg, tr, envs) && n < |envs|
    requires || LatestDue(cfg.cron.cron, cfg.creation, envs[0].now) == Some(slot)
             || (Slot(cfg.cron.cron, slot) && envs[0].now < slot <= envs[n].now)
    ensures Served(cfg, tr, envs, n, slot)
  {
    if LatestDue(cfg.cron.cron, cfg.creation, envs[0].now) == Some(slot) {
      IdealStep(cfg, tr, envs, 0);
      assert CreatedSlot(cfg, tr[0], envs[0]) == Some(slot);
    } else {
      SlotIsHit(cfg, tr, envs, n, slot);
      var i: nat :| 0 < i <= n && envs[i].now == slot;
      IdealStep(cfg, tr, envs, i);
      assert CreatedSlot(cfg, tr[i], envs[i]) == Some(slot);
    }
  }

  /** Completeness. Under an ideal timer the slots served are exactly the latest one due at the first reconcile and
      every later one; each later one is served at its own time. */
  lemma EverySlotServed(cfg: Config, tr: seq<Cluster>, envs: seq<Env>, n: nat, slot: int)
    requires Timed(cfg, tr, envs) && n < |envs|
    ensures Served(cfg, tr, envs, n, slot) <==>
              || LatestDue(cfg.cron.cron, cfg.creation, envs[0].now) == Some(slot)
              || (Slot(cfg.cron.cron, slot) && envs[0].now < slot <= envs[n].now)
    ensures forall i: nat | 0 < i <= n && CreatedSlot(cfg, tr[i], envs[i]) == Some(slot) :: envs[i].now == slot
  {
    forall i: nat | i <= n && CreatedSlot(cfg, tr[i], envs[i]) == Some(slot)
      ensures || (i == 0 && LatestDue(cfg.cron.cron, cfg.creation, envs[0].now) == Some(slot))
              || (i > 0 && Slot(cfg.cron.cron, slot) && envs[0].now < slot <= envs[n].now && envs[i].now == slot)
    {
      ServedIsDue(cfg, tr, envs, i, n, slot);
    }
    if || LatestDue(cfg.cron.cron, cfg.creation, envs[0].now) == Some(slot)
       || (Slot(cfg.cron.cron, slot) && envs[0].now < slot <= envs[n].now)
    {
      DueIsServed(cfg, tr, envs, n, slot);
    }
  }

  lemma {:induction false} TimesIncrease(cfg: Config, tr: seq<Cluster>, envs: seq<Env>, i: nat, j: nat)
    requires Timed(cfg, tr, envs) && i < j < |envs|
    ensures envs[i].now < envs[j].now
  {
    TimerStops(cfg, tr, envs, j - 1);
    if i < j - 1 { TimesIncrease(cfg, tr, envs, i, j - 1); }
  }
}
