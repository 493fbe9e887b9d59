/** BackupHookPods: which pods' hooks a reconcile executes, in which order, and exactly when it stops for one, told from
    the pods, the selected claims and the executor's answers alone. */
module BackupHookPods {
  import opened Wrappers
  import opened Sorting
  import opened Strings
  import opened BackupSpec
  import opened BackupHooks

  // ---- pods ---------------------------------------------------------------------------------------------------

  // The pod mounts a selected claim.
  ghost predicate Wanted(claims: seq<Claim>, pod: PodInfo) {
    exists c | c in claims :: c.name in pod.claims
  }

  // Its hook cannot be read, cannot be executed, or fails.
  predicate Troubled(cfg: Config, env: Env, pod: PodInfo) {
    pod.hook.BadHook? || (pod.hook.Hook? && (!cfg.executor || pod.name in env.execFails))
  }

  predicate Executes(cfg: Config, pod: PodInfo) {
    pod.hook.Hook? && cfg.executor
  }

  ghost predicate UniquePods(pods: seq<PodInfo>) {
    forall i, j | 0 <= i < j < |pods| :: pods[i].name != pods[j].name
  }

  // Of all wanted pods, the one whose trouble comes first by name.
  ghost predicate FirstTroubled(cfg: Config, env: Env, claims: seq<Claim>, pods: seq<PodInfo>, pod: PodInfo) {
    && pod in pods && Wanted(claims, pod) && Troubled(cfg, env, pod)
    && forall q | q in pods && Wanted(claims, q) && Troubled(cfg, env, q) :: q == pod || Less(pod.name, q.name)
  }

  ghost predicate SomeTrouble(cfg: Config, env: Env, claims: seq<Claim>, pods: seq<PodInfo>) {
    exists p | p in pods :: Wanted(claims, p) && Troubled(cfg, env, p)
  }

  // ---- the order the hooks run in ---------------------------------------------------------------------------

  lemma {:induction false} MountingAre(pods: seq<PodInfo>, selected: set<string>, name: string)
    ensures name in MountingPods(pods, selected) <==> exists p | p in pods :: Mounts(p, selected) && p.name == name
  {
    if pods != [] {
      var front, last := pods[..|pods| - 1], pods[|pods| - 1];
      MountingAre(front, selected, name);
      assert pods == front + [last];
    }
  }

  lemma UniqueFront(pods: seq<PodInfo>)
    requires pods != [] && UniquePods(pods)
    ensures UniquePods(pods[..|pods| - 1])
    ensures forall p | p in pods[..|pods| - 1] :: p.name != pods[|pods| - 1].name
  {
  }

  lemma {:induction false} MountingDistinct(pods: seq<PodInfo>, selected: set<string>)
    requires UniquePods(pods)
    ensures forall i, j | 0 <= i < j < |MountingPods(pods, selected)| ::
              MountingPods(pods, selected)[i] != MountingPods(pods, selected)[j]
  {
    if pods != [] {
      var front, last := pods[..|pods| - 1], pods[|pods| - 1];
      UniqueFront(pods);
      MountingDistinct(front, selected);
      MountingAre(front, selected, last.name);
    }
  }

  lemma {:induction false} NamedIs(pods: seq<PodInfo>, selected: set<string>, pod: PodInfo)
    requires UniquePods(pods) && pod in pods && Mounts(pod, selected)
    ensures PodNamed(pods, selected, pod.name) == pod
  {
    var front, last := pods[..|pods| - 1], pods[|pods| - 1];
    UniqueFront(pods);
    if pod != last {
      assert pod in front;
      NamedIs(front, selected, pod);
    }
  }

  lemma WantedMounts(claims: seq<Claim>, pod: PodInfo)
    ensures Mounts(pod, SelectedNames(claims)) <==> Wanted(claims, pod)
  {
    if Mounts(pod, SelectedNames(claims)) {
      var n :| n in pod.claims && n in SelectedNames(claims);
      var c :| c in claims && c.name == n;
    }
    if Wanted(claims, pod) {
      var c :| c in claims && c.name in pod.claims;
      assert c.name in SelectedNames(claims);
    }
  }

  // Ascending by name.
  ghost predicate ByName(pods: seq<PodInfo>) {
    forall i, j | 0 <= i < j < |pods| :: Less(pods[i].name, pods[j].name)
  }

  lemma SortedMounting(pods: seq<PodInfo>, selected: set<string>)
    requires UniquePods(pods)
    ensures var names := SortStrings(MountingPods(pods, selected));
            Ascending(Less, names) && forall n :: n in names <==> n in MountingPods(pods, selected)
  {
    var names := MountingPods(pods, selected);
    LessIsOrder();
    MountingDistinct(pods, selected);
    forall i, j | 0 <= i < j < |names| ensures Less(names[i], names[j]) || Less(names[j], names[i]) {
      LessTotal(names[i], names[j]);
    }
    SortAscends(Less, names);
    SortPermutes(Less, names);
  }

  // The hook order is the wanted pods, each once, in name order.
  lemma OrderIs(claims: seq<Claim>, pods: seq<PodInfo>)
    requires UniquePods(pods)
    ensures ByName(HookOrder(claims, pods))
    ensures forall p :: p in HookOrder(claims, pods) <==> p in pods && Wanted(claims, p)
  {
    var selected := SelectedNames(claims);
    var names, order := SortStrings(MountingPods(pods, selected)), HookOrder(claims, pods);
    SortedMounting(pods, selected);
    forall i | 0 <= i < |order| ensures order[i] in pods && Wanted(claims, order[i]) && order[i].name == names[i] {
      assert names[i] in names;
      MountingAre(pods, selected, names[i]);
      var p :| p in pods && Mounts(p, selected) && p.name == names[i];
      NamedIs(pods, selected, p);
      WantedMounts(claims, p);
    }
    forall p | p in pods && Wanted(claims, p) ensures p in order {
      WantedMounts(claims, p);
      MountingAre(pods, selected, p.name);
      var i :| 0 <= i < |names| && names[i] == p.name;
      NamedIs(pods, selected, p);
      assert order[i] == p;
    }
  }

  // ---- running them --------------------------------------------------------------------------------------------

  // What a troubled pod stops the backup with.
  predicate Tells(cfg: Config, env: Env, pod: PodInfo, reason: Reason, message: Message) {
    match pod.hook
    case NoHook => false
    case BadHook(error) => reason == HookInvalid && message == BadAnnotation(pod.name, error)
    case Hook(_, _) =>
      if !cfg.executor then reason == HookFailed && message == NoExecutor(pod.name)
      else pod.name in env.execFails && reason == HookFailed && message == ExecFailed(pod.name, env.execFails[pod.name])
  }

  // The i-th pod is reached: none before it is troubled.
  ghost predicate Reached(cfg: Config, env: Env, pods: seq<PodInfo>, i: nat) {
    i < |pods| && forall j | 0 <= j < i :: !Troubled(cfg, env, pods[j])
  }

  ghost predicate RunsThere(cfg: Config, env: Env, pods: seq<PodInfo>, name: string, i: nat) {
    Reached(cfg, env, pods, i) && Executes(cfg, pods[i]) && pods[i].name == name
  }

  lemma RunHookIs(cfg: Config, env: Env, pod: PodInfo)
    ensures var one := RunHook(cfg, env, pod);
            && one.ran == (if Executes(cfg, pod) then [pod.name] else [])
            && (one.problem.Some? <==> Troubled(cfg, env, pod))
            && (one.problem.Some? ==> Tells(cfg, env, pod, one.problem.value.reason, one.problem.value.message))
  {
  }

  ghost predicate StopsThere(cfg: Config, env: Env, pods: seq<PodInfo>, problem: HookProblem, i: nat) {
    Reached(cfg, env, pods, i) && Troubled(cfg, env, pods[i]) && Tells(cfg, env, pods[i], problem.reason, problem.message)
  }

  lemma ReachedLast(cfg: Config, env: Env, pods: seq<PodInfo>)
    requires pods != [] && forall p | p in pods[..|pods| - 1] :: !Troubled(cfg, env, p)
    ensures Reached(cfg, env, pods, |pods| - 1)
  {
    forall j | 0 <= j < |pods| - 1 ensures !Troubled(cfg, env, pods[j]) { assert pods[j] in pods[..|pods| - 1]; }
  }

  lemma {:induction false} StopsAtFirst(cfg: Config, env: Env, pods: seq<PodInfo>)
    ensures var run := RunHooks(cfg, env, pods);
            && (run.problem.None? ==> forall p | p in pods :: !Troubled(cfg, env, p))
            && (run.problem.Some? ==> exists i: nat :: StopsThere(cfg, env, pods, run.problem.value, i))
  {
    if pods != [] {
      var n := |pods| - 1;
      StopsAtFirst(cfg, env, pods[..n]);
      RunHookIs(cfg, env, pods[n]);
      var front := RunHooks(cfg, env, pods[..n]);
      if front.problem.Some? {
        var i: nat :| StopsThere(cfg, env, pods[..n], front.problem.value, i);
        assert StopsThere(cfg, env, pods, front.problem.value, i);
      } else {
        ReachedLast(cfg, env, pods);
        assert Troubled(cfg, env, pods[n]) ==> StopsThere(cfg, env, pods, RunHook(cfg, env, pods[n]).problem.value, n);
      }
    }
  }

  lemma ReachedFront(cfg: Config, env: Env, pods: seq<PodInfo>, name: string, i: nat)
    requires pods != [] && i < |pods| - 1
    ensures RunsThere(cfg, env, pods[..|pods| - 1], name, i) <==> RunsThere(cfg, env, pods, name, i)
  {
  }

  lemma {:induction false} RunsExactly(cfg: Config, env: Env, pods: seq<PodInfo>, name: string)
    ensures name in RunHooks(cfg, env, pods).ran <==> exists i: nat :: RunsThere(cfg, env, pods, name, i)
  {
    if pods != [] {
      var n := |pods| - 1;
      var front := RunHooks(cfg, env, pods[..n]);
      RunsExactly(cfg, env, pods[..n], name);
      RunHookIs(cfg, env, pods[n]);
      StopsAtFirst(cfg, env, pods[..n]);
      forall i: nat | i < n ensures RunsThere(cfg, env, pods[..n], name, i) <==> RunsThere(cfg, env, pods, name, i) {
        ReachedFront(cfg, env, pods, name, i);
      }
      if front.problem.Some? {
        var k: nat :| StopsThere(cfg, env, pods[..n], front.problem.value, k);
        assert pods[k] == pods[..n][k];
        assert !Reached(cfg, env, pods, n);
      } else {
        ReachedLast(cfg, env, pods);
        assert RunsThere(cfg, env, pods, name, n) <==> Executes(cfg, pods[n]) && pods[n].name == name;
      }
    }
  }

  lemma {:induction false} RanAscends(cfg: Config, env: Env, pods: seq<PodInfo>)
    requires ByName(pods)
    ensures Ascending(Less, RunHooks(cfg, env, pods).ran)
  {
    if pods != [] {
      var n := |pods| - 1;
      var front, one := RunHooks(cfg, env, pods[..n]), RunHook(cfg, env, pods[n]);
      RanAscends(cfg, env, pods[..n]);
      RunHookIs(cfg, env, pods[n]);
      forall name | name in front.ran ensures Less(name, pods[n].name) {
        RunsExactly(cfg, env, pods[..n], name);
        var i: nat :| RunsThere(cfg, env, pods[..n], name, i);
        assert pods[..n][i] == pods[i];
      }
    }
  }

  // ---- over the pods themselves -------------------------------------------------------------------------------

  // The hook is executed: the pod is wanted, its hook can be, and no wanted pod of a lesser name is troubled.
  ghost predicate HookRuns(cfg: Config, env: Env, claims: seq<Claim>, pods: seq<PodInfo>, pod: PodInfo) {
    && pod in pods && Wanted(claims, pod) && Executes(cfg, pod)
    && forall q | q in pods && Wanted(claims, q) && Less(q.name, pod.name) :: !Troubled(cfg, env, q)
  }

  lemma FirstOfOrder(cfg: Config, env: Env, claims: seq<Claim>, pods: seq<PodInfo>, i: nat)
    requires UniquePods(pods) && Reached(cfg, env, HookOrder(claims, pods), i) && Troubled(cfg, env, HookOrder(claims, pods)[i])
    ensures FirstTroubled(cfg, env, claims, pods, HookOrder(claims, pods)[i])
  {
    var order := HookOrder(claims, pods);
    OrderIs(claims, pods);
    assert order[i] in order;
    forall q | q in pods && Wanted(claims, q) && Troubled(cfg, env, q) ensures q == order[i] || Less(order[i].name, q.name) {
      assert q in order;
      var j :| 0 <= j < |order| && order[j] == q;
      assert j >= i;
    }
  }

  // In name order the pod of a lesser name comes before.
  lemma ComesBefore(pods: seq<PodInfo>, i: nat, j: nat)
    requires ByName(pods) && i < |pods| && j < |pods| && Less(pods[j].name, pods[i].name)
    ensures j < i
  {
    if i < j { LessTransitive(pods[i].name, pods[j].name, pods[i].name); }
    LessIrreflexive(pods[i].name);
  }

  lemma ReachedRuns(cfg: Config, env: Env, claims: seq<Claim>, pods: seq<PodInfo>, order: seq<PodInfo>, i: nat)
    requires ByName(order) && Reached(cfg, env, order, i)
    requires forall p :: p in order <==> p in pods && Wanted(claims, p)
    ensures forall q | q in pods && Wanted(claims, q) && Less(q.name, order[i].name) :: !Troubled(cfg, env, q)
  {
    forall q | q in pods && Wanted(claims, q) && Less(q.name, order[i].name) ensures !Troubled(cfg, env, q) {
      assert q in order;
      var j: nat :| j < |order| && order[j] == q;
      ComesBefore(order, i, j);
    }
  }

  lemma RunsReached(cfg: Config, env: Env, claims: seq<Claim>, pods: seq<PodInfo>, order: seq<PodInfo>, i: nat)
    requires ByName(order) && i < |order| && HookRuns(cfg, env, claims, pods, order[i])
    requires forall p :: p in order <==> p in pods && Wanted(claims, p)
    ensures Reached(cfg, env, order, i)
  {
    forall j | 0 <= j < i ensures !Troubled(cfg, env, order[j]) {
      assert order[j] in order && Less(order[j].name, order[i].name);
    }
  }

  lemma RunsInOrder(cfg: Config, env: Env, claims: seq<Claim>, pods: seq<PodInfo>, i: nat)
    requires UniquePods(pods) && i < |HookOrder(claims, pods)|
    ensures var order := HookOrder(claims, pods);
            Reached(cfg, env, order, i) && Executes(cfg, order[i]) <==> HookRuns(cfg, env, claims, pods, order[i])
  {
    var order := HookOrder(claims, pods);
    OrderIs(claims, pods);
    assert order[i] in order;
    if Reached(cfg, env, order, i) { ReachedRuns(cfg, env, claims, pods, order, i); }
    if HookRuns(cfg, env, claims, pods, order[i]) { RunsReached(cfg, env, claims, pods, order, i); }
  }

  // Whose hooks run, and what stops them.
  ghost predicate RunsHooks(cfg: Config, env: Env, claims: seq<Claim>, pods: seq<PodInfo>, ran: seq<string>) {
    && Ascending(Less, ran)
    && forall name :: name in ran <==> exists pod :: HookRuns(cfg, env, claims, pods, pod) && pod.name == name
  }

  ghost predicate StopsFor(cfg: Config, env: Env, claims: seq<Claim>, pods: seq<PodInfo>, problem: HookProblem) {
    exists pod :: FirstTroubled(cfg, env, claims, pods, pod) && Tells(cfg, env, pod, problem.reason, problem.message)
  }

  lemma RanIs(cfg: Config, env: Env, claims: seq<Claim>, pods: seq<PodInfo>, name: string)
    requires UniquePods(pods)
    ensures name in RunHooks(cfg, env, HookOrder(claims, pods)).ran <==>
              exists pod :: HookRuns(cfg, env, claims, pods, pod) && pod.name == name
  {
    var order := HookOrder(claims, pods);
    OrderIs(claims, pods);
    RunsExactly(cfg, env, order, name);
    if i: nat :| RunsThere(cfg, env, order, name, i) {
      RunsInOrder(cfg, env, claims, pods, i);
    }
    if pod :| HookRuns(cfg, env, claims, pods, pod) && pod.name == name {
      assert pod in order;
      var i: nat :| i < |order| && order[i] == pod;
      RunsInOrder(cfg, env, claims, pods, i);
      assert RunsThere(cfg, env, order, name, i);
    }
  }

  lemma HooksAre(cfg: Config, env: Env, claims: seq<Claim>, pods: seq<PodInfo>)
    requires UniquePods(pods)
    ensures var run := RunHooks(cfg, env, HookOrder(claims, pods));
            && RunsHooks(cfg, env, claims, pods, run.ran)
            && (run.problem.Some? <==> SomeTrouble(cfg, env, claims, pods))
            && (run.problem.Some? ==> StopsFor(cfg, env, claims, pods, run.problem.value))
  {
    var order := HookOrder(claims, pods);
    var run := RunHooks(cfg, env, order);
    OrderIs(claims, pods);
    RanAscends(cfg, env, order);
    forall name ensures name in run.ran <==> exists pod :: HookRuns(cfg, env, claims, pods, pod) && pod.name == name {
      RanIs(cfg, env, claims, pods, name);
    }
    StopsAtFirst(cfg, env, order);
    if run.problem.Some? {
      var i: nat :| StopsThere(cfg, env, order, run.problem.value, i);
      FirstOfOrder(cfg, env, claims, pods, i);
    }
  }

  // ---- the reconcile ---------------------------------------------------------------------------------------------

  // The pods whose hooks a log tells of, in order.
  function HookNames(log: seq<Effect>): seq<string> {
    if log == [] then []
    else HookNames(log[..|log| - 1]) + (if log[|log| - 1].HookRan? then [log[|log| - 1].pod] else [])
  }

  lemma {:induction false} HookNamesAppend(a: seq<Effect>, b: seq<Effect>)
    ensures HookNames(a + b) == HookNames(a) + HookNames(b)
  {
    if b == [] {
      assert a + b == a;
    } else {
      assert (a + b)[..|a + b| - 1] == a + b[..|b| - 1];
      HookNamesAppend(a, b[..|b| - 1]);
    }
  }

  lemma {:induction false} NoHookNames(log: seq<Effect>)
    requires NoHooks(log)
    ensures HookNames(log) == []
  {
    if log != [] { NoHookNames(log[..|log| - 1]); }
  }

  lemma {:induction false} EffectNames(ran: seq<string>)
    ensures HookNames(HookEffects(ran)) == ran
  {
    if ran != [] {
      var n := |ran| - 1;
      assert HookEffects(ran)[..n] == HookEffects(ran[..n]);
      EffectNames(ran[..n]);
    }
  }

  lemma MiddleNames(a: seq<Effect>, b: seq<Effect>, hooks: seq<Effect>, d: seq<Effect>, e: seq<Effect>)
    requires NoHooks(b) && NoHooks(d) && NoHooks(e)
    ensures HookNames(a + b + hooks + d + e) == HookNames(a) + HookNames(hooks)
  {
    HookNamesAppend(a + b + hooks + d, e);
    HookNamesAppend(a + b + hooks, d);
    HookNamesAppend(a + b, hooks);
    HookNamesAppend(a, b);
    NoHookNames(b);
    NoHookNames(d);
    NoHookNames(e);
  }

  lemma LoggedHooks(cfg: Config, c: Cluster, rs: Status, env: Env)
    ensures var p := Prepare(cfg, c, rs, env);
            HookNames(Reconcile(cfg, c, rs, env).log)
            == HookNames(c.log) + if p.Goes? then HooksOf(cfg, rs, env, p).ran else []
  {
    var prepared, hooks, created, recorded := ReconcileLog(cfg, c, rs, env);
    MiddleNames(c.log, prepared, hooks, created, recorded);
    var p := Prepare(cfg, c, rs, env);
    EffectNames(if p.Goes? then HooksOf(cfg, rs, env, p).ran else []);
  }

  /** Which hooks run: past preparing and with no Job on record, those of the wanted pods up to the first that is troubled,
      in name order and each once; otherwise none. */
  lemma HooksRunExactly(cfg: Config, c: Cluster, rs: Status, env: Env)
    ensures var p := Prepare(cfg, c, rs, env);
            if p.Goes? && rs.jobs == [] then
              UniquePods(p.pods) ==>
                exists ran :: HookNames(Reconcile(cfg, c, rs, env).log) == HookNames(c.log) + ran
                              && RunsHooks(cfg, env, p.claims, p.pods, ran)
            else HookNames(Reconcile(cfg, c, rs, env).log) == HookNames(c.log)
  {
    var p := Prepare(cfg, c, rs, env);
    LoggedHooks(cfg, c, rs, env);
    if p.Goes? && rs.jobs == [] && UniquePods(p.pods) {
      HooksAre(cfg, env, p.claims, p.pods);
      assert RunsHooks(cfg, env, p.claims, p.pods, HooksOf(cfg, rs, env, p).ran);
    }
  }

  // The status of a backup that a hook stopped.
  ghost predicate StoppedByHook(cfg: Config, rs: Status, env: Env, p: Prepared, now: Status)
    requires p.Goes?
  {
    && now.ready.Some? && !now.ready.value.ready && now.ready.value.generation == cfg.generation
    && (exists pod :: FirstTroubled(cfg, env, p.claims, p.pods, pod)
                      && Tells(cfg, env, pod, now.ready.value.reason, now.ready.value.message))
    && now.completedAt == (if rs.completedAt.Some? then rs.completedAt else Some(env.now))
    && now == rs.(phase := Failed, ready := now.ready, completedAt := now.completedAt)
  }

  lemma ProblemDecides(cfg: Config, c: Cluster, rs: Status, env: Env) returns (problem: HookProblem)
    requires Prepare(cfg, c, rs, env).Goes? && rs.jobs == [] && UniquePods(Prepare(cfg, c, rs, env).pods)
    requires var p := Prepare(cfg, c, rs, env); SomeTrouble(cfg, env, p.claims, p.pods)
    ensures var p := Prepare(cfg, c, rs, env); StopsFor(cfg, env, p.claims, p.pods, problem)
    ensures Decide(cfg, c, rs, env) == Fails(problem.reason, problem.message, [])
    ensures Acted(cfg, c, rs, env).jobs == c.jobs && Acted(cfg, c, rs, env).status == c.status
    ensures Acted(cfg, c, rs, env).metrics == c.metrics
  {
    var p := Prepare(cfg, c, rs, env);
    HooksAre(cfg, env, p.claims, p.pods);
    PreparingKeeps(cfg, c, rs, env);
    problem := HooksOf(cfg, rs, env, p).problem.value;
  }

  lemma RecordStops(cfg: Config, mid: Cluster, rs: Status, env: Env, reason: Reason, message: Message)
    requires !Terminal(rs.phase) && rs.jobs == []
    ensures var d := Record(cfg, mid, rs, Fails(reason, message, []), env);
            && d.jobs == mid.jobs
            && (if env.patchFails then d == mid
                else d.status.phase == Failed && d.metrics.errors == mid.metrics.errors + 1
                     && (mid.status == rs ==>
                           d.status == rs.(phase := Failed,
                                           completedAt := if rs.completedAt.Some? then rs.completedAt else Some(env.now),
                                           ready := Some(OutcomeCondition(cfg, rs, Fails(reason, message, []), env.now)))))
    ensures Lost(cfg, rs, Fails(reason, message, []), env) <==> env.patchFails
  {
    assert Recorded(cfg, rs, Fails(reason, message, []), env.now).phase != rs.phase;
  }

  lemma GoesIsOpen(cfg: Config, c: Cluster, rs: Status, env: Env)
    requires Prepare(cfg, c, rs, env).Goes?
    ensures !Terminal(rs.phase)
  {
  }

  /** A troubled hook fails the backup for good: no Job is created, the condition tells of the first troubled pod by name,
      and one error is counted. */
  lemma HookTroubleFails(cfg: Config, c: Cluster, rs: Status, env: Env)
    requires Prepare(cfg, c, rs, env).Goes? && rs.jobs == [] && UniquePods(Prepare(cfg, c, rs, env).pods)
    requires var p := Prepare(cfg, c, rs, env); SomeTrouble(cfg, env, p.claims, p.pods)
    ensures Reconcile(cfg, c, rs, env).jobs == c.jobs
    ensures if env.patchFails then ReconcileResult(cfg, c, rs, env) == Errored && Reconcile(cfg, c, rs, env).status == c.status
            else ReconcileResult(cfg, c, rs, env) == Finished && Reconcile(cfg, c, rs, env).status.phase == Failed
                 && Reconcile(cfg, c, rs, env).metrics.errors == c.metrics.errors + 1
                 && (c.status == rs ==> StoppedByHook(cfg, rs, env, Prepare(cfg, c, rs, env), Reconcile(cfg, c, rs, env).status))
  {
    GoesIsOpen(cfg, c, rs, env);
    var problem := ProblemDecides(cfg, c, rs, env);
    RecordStops(cfg, Acted(cfg, c, rs, env), rs, env, problem.reason, problem.message);
  }

  // The status says that a hook stopped the backup.
  predicate SaysHook(s: Status) {
    s.phase == Failed && s.ready.Some? && (s.ready.value.reason == HookInvalid || s.ready.value.reason == HookFailed)
  }

  lemma LaunchSaysNoHook(cfg: Config, env: Env, l: Launched)
    ensures var out := LaunchOutcome(cfg, env, l);
            out.Fails? ==> out.reason != HookInvalid && out.reason != HookFailed
  {
  }

  lemma RecordSaysNoHook(cfg: Config, mid: Cluster, out: Outcome, env: Env)
    requires !Terminal(mid.status.phase) && (out.Fails? ==> out.reason != HookInvalid && out.reason != HookFailed)
    ensures !SaysHook(Record(cfg, mid, mid.status, out, env).status)
  {
  }

  /** It is stopped for a hook only then. */
  lemma HookStopsExactly(cfg: Config, c: Cluster, env: Env)
    requires Prepare(cfg, c, c.status, env).Goes? && c.status.jobs == [] && UniquePods(Prepare(cfg, c, c.status, env).pods)
    requires !env.patchFails
    ensures var p := Prepare(cfg, c, c.status, env);
            SaysHook(Reconcile(cfg, c, c.status, env).status) <==> SomeTrouble(cfg, env, p.claims, p.pods)
  {
    var p := Prepare(cfg, c, c.status, env);
    if SomeTrouble(cfg, env, p.claims, p.pods) {
      HookTroubleFails(cfg, c, c.status, env);
    } else {
      HooksAre(cfg, env, p.claims, p.pods);
      GoesIsOpen(cfg, c, c.status, env);
      ActedKeepsStatus(cfg, c, c.status, env);
      LaunchSaysNoHook(cfg, env, LaunchAll(cfg, Preparing(cfg, c, c.status, env), c.status, env, p.launches));
      RecordSaysNoHook(cfg, Acted(cfg, c, c.status, env), Decide(cfg, c, c.status, env), env);
    }
  }
}
