/** BackupStaleness: why the status must be written after the hooks and not be read from before that write. A reconcile
    on the copy the hooks were first run on runs the very same hooks again. */
module BackupStaleness {
  import opened BackupSpec
  import opened BackupHooks
  import BackupQuiescence

  lemma RecordKeepsCopies(cfg: Config, c: Cluster, read: Status, out: Outcome, env: Env)
    ensures var d := Record(cfg, c, read, out, env); d.secret == c.secret && d.staging == c.staging
  {
  }

  lemma {:induction false} SameHooks(cfg: Config, env: Env, later: int, pods: seq<PodInfo>)
    ensures RunHooks(cfg, env.(now := later), pods) == RunHooks(cfg, env, pods)
  {
    if pods != [] { SameHooks(cfg, env, later, pods[..|pods| - 1]); }
  }

  lemma ReachingIsNotGated(cfg: Config, c: Cluster, read: Status, env: Env)
    requires ReachesHooks(cfg, c, read, env)
    ensures Gated(read, env).None?
  {
  }

  /** Whether the first reconcile met an error or not, a later one that reads the same copy, because the write was lost
      or the cache lags, executes the same hooks again. */
  lemma SameCopyRunsHooksAgain(cfg: Config, c: Cluster, read: Status, env: Env, later: int)
    requires ReachesHooks(cfg, c, read, env)
    ensures var d := Reconcile(cfg, c, read, env);
            var first, again := Prepare(cfg, c, read, env), Prepare(cfg, d, read, env.(now := later));
            && ReachesHooks(cfg, d, read, env.(now := later))
            && HooksOf(cfg, read, env.(now := later), again) == HooksOf(cfg, read, env, first)
  {
    var d := Reconcile(cfg, c, read, env);
    BackupQuiescence.ActedCopies(cfg, c, read, env);
    RecordKeepsCopies(cfg, Acted(cfg, c, read, env), read, Decide(cfg, c, read, env), env);
    ReachingIsNotGated(cfg, c, read, env);
    BackupQuiescence.PrepareAgain(cfg, c, read, env, d, read, later);
    var p := Prepare(cfg, c, read, env);
    SameHooks(cfg, env, later, HookOrder(p.claims, p.pods));
  }

  /** A write that is lost leaves exactly that copy to be read: the next reconcile, fresh as its reads may be, executes
      the hooks again. */
  lemma LostWriteRunsHooksAgain(cfg: Config, c: Cluster, env: Env, later: int)
    requires ReachesHooks(cfg, c, c.status, env) && ReconcileResult(cfg, c, c.status, env) == Errored
    ensures var d := Reconcile(cfg, c, c.status, env);
            d.status == c.status && ReachesHooks(cfg, d, d.status, env.(now := later))
  {
    ReachingOutcome(cfg, c, c.status, env);
    ActedKeepsStatus(cfg, c, c.status, env);
    SameCopyRunsHooksAgain(cfg, c, c.status, env, later);
  }
}
