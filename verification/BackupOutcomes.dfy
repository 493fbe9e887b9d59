/** BackupOutcomes: what one backup reconcile makes of the answers it gets, told from the answers alone: which claims it
    selects, where it places them, what it copies, when it waits and for how long, and what it records of its Jobs. */
module BackupOutcomes {
  import opened Wrappers
  import opened Reads
  import opened Credentials
  import opened BackupSpec
  import opened BackupHooks

  // ---- the selection ------------------------------------------------------------------------------------------

  predicate ByNames(cfg: Config) {
    cfg.selection.Explicit? && cfg.selection.names != []
  }

  // The named claims in the order named, or all that were listed.
  ghost predicate Selects(cfg: Config, env: Env, claims: seq<Claim>) {
    if ByNames(cfg) then
      && |claims| == |cfg.selection.names|
      && forall i | 0 <= i < |claims| ::
           var name := cfg.selection.names[i];
           name !in env.claimFails && name in env.claims && claims[i] == env.claims[name]
    else !cfg.selection.BadSelector? && env.listed == Claims(claims)
  }

  // The first named claim that cannot be had.
  ghost predicate FirstUnhad(env: Env, names: seq<string>, i: nat) {
    && i < |names| && (names[i] in env.claimFails || names[i] !in env.claims)
    && forall j | 0 <= j < i :: names[j] !in env.claimFails && names[j] in env.claims
  }

  lemma {:induction false} PickNamedIs(env: Env, names: seq<string>)
    ensures var p := PickNamed(env, names);
            match p
            case Picks(claims) =>
              && |claims| == |names|
              && forall i | 0 <= i < |names| ::
                   names[i] !in env.claimFails && names[i] in env.claims && claims[i] == env.claims[names[i]]
            case PickFails => exists i: nat :: FirstUnhad(env, names, i) && names[i] in env.claimFails
            case PickProblem(m) =>
              exists i: nat :: FirstUnhad(env, names, i) && names[i] !in env.claimFails && m == ClaimNotFound(names[i])
  {
    if names != [] {
      var n := |names| - 1;
      var front := PickNamed(env, names[..n]);
      PickNamedIs(env, names[..n]);
      match front {
        case Picks(claims) =>
          assert forall j | 0 <= j < n :: names[..n][j] == names[j];
          if names[n] in env.claimFails || names[n] !in env.claims { assert FirstUnhad(env, names, n); }
        case PickFails =>
          var i: nat :| FirstUnhad(env, names[..n], i) && names[..n][i] in env.claimFails;
          assert FirstUnhad(env, names, i);
        case PickProblem(m) =>
          var i: nat :| FirstUnhad(env, names[..n], i) && names[..n][i] !in env.claimFails && m == ClaimNotFound(names[..n][i]);
          assert FirstUnhad(env, names, i);
      }
    }
  }

  /** The selection: the claims named, each as it is now; a name that cannot be had stops it, the first one deciding how. */
  lemma SelectsExactly(cfg: Config, env: Env)
    ensures forall claims :: PickFrom(cfg, env) == Picks(claims) <==> Selects(cfg, env, claims)
    ensures ByNames(cfg) ==> forall i: nat | FirstUnhad(env, cfg.selection.names, i) ::
              PickFrom(cfg, env) == if cfg.selection.names[i] in env.claimFails then PickFails
                                    else PickProblem(ClaimNotFound(cfg.selection.names[i]))
    ensures cfg.selection.BadSelector? ==> PickFrom(cfg, env) == PickProblem(InvalidSelector(cfg.selection.error))
    ensures !ByNames(cfg) && !cfg.selection.BadSelector? && env.listed.ClaimsFail? ==> PickFrom(cfg, env).PickFails?
  {
    if ByNames(cfg) {
      var names := cfg.selection.names;
      PickNamedIs(env, names);
      forall claims | Selects(cfg, env, claims) ensures PickFrom(cfg, env) == Picks(claims) {
        PicksThem(env, names, claims);
      }
      forall i: nat | FirstUnhad(env, names, i)
        ensures PickFrom(cfg, env) == if names[i] in env.claimFails then PickFails else PickProblem(ClaimNotFound(names[i]))
      {
        OneUnhad(env, names, i);
      }
    }
  }

  lemma PicksThem(env: Env, names: seq<string>, claims: seq<Claim>)
    requires |claims| == |names|
    requires forall i | 0 <= i < |names| :: names[i] !in env.claimFails && names[i] in env.claims && claims[i] == env.claims[names[i]]
    ensures PickNamed(env, names) == Picks(claims)
  {
    PickNamedIs(env, names);
    assert PickNamed(env, names).Picks?;
    assert PickNamed(env, names).claims == claims;
  }

  lemma OneUnhad(env: Env, names: seq<string>, i: nat)
    requires FirstUnhad(env, names, i)
    ensures PickNamed(env, names) == if names[i] in env.claimFails then PickFails else PickProblem(ClaimNotFound(names[i]))
  {
    PickNamedIs(env, names);
    forall k: nat | FirstUnhad(env, names, k) ensures k == i {
    }
  }

  // ---- placement -------------------------------------------------------------------------------------------------

  // The claim is bound to a volume that could be read and resolves to that node.
  predicate LiesOn(env: Env, claim: Claim, node: string) {
    claim.volume != "" && claim.volume !in env.volumeFails && claim.volume in env.volumes && env.resolve(claim) == ResolvedTo(node)
  }

  predicate Placeable(env: Env, claim: Claim) {
    claim.volume != "" && claim.volume !in env.volumeFails && claim.volume in env.volumes && env.resolve(claim).ResolvedTo?
  }

  ghost predicate FirstUnplaceable(env: Env, claims: seq<Claim>, i: nat) {
    i < |claims| && !Placeable(env, claims[i]) && forall j | 0 <= j < i :: Placeable(env, claims[j])
  }

  // Why a claim cannot be placed; None is an API error.
  function WhyUnplaced(env: Env, claim: Claim): Option<Message> {
    if claim.volume == "" then Some(BackupSpec.ClaimUnbound(claim.name))
    else if claim.volume in env.volumeFails then None
    else if claim.volume !in env.volumes then Some(VolumeNotFound(claim.volume, claim.name))
    else if env.resolve(claim).Unresolvable? then Some(NodeUnresolved(env.resolve(claim).error))
    else None
  }

  lemma {:induction false} PlacesExactly(env: Env, claims: seq<Claim>)
    ensures PlaceAll(env, claims).Placed? <==> forall c | c in claims :: Placeable(env, c)
    ensures PlaceAll(env, claims).Placed? ==>
              forall i | 0 <= i < |claims| :: LiesOn(env, claims[i], PlaceAll(env, claims).nodes[i])
    ensures forall i: nat | FirstUnplaceable(env, claims, i) ::
              PlaceAll(env, claims) == if WhyUnplaced(env, claims[i]).None? then PlaceFails
                                       else PlaceProblem(WhyUnplaced(env, claims[i]).value)
  {
    if claims != [] {
      var n := |claims| - 1;
      var front := claims[..n];
      assert claims == front + [claims[n]];
      PlacesExactly(env, front);
      forall i: nat | FirstUnplaceable(env, claims, i) ensures
        PlaceAll(env, claims) == if WhyUnplaced(env, claims[i]).None? then PlaceFails
                                 else PlaceProblem(WhyUnplaced(env, claims[i]).value)
      {
        if i < n {
          assert FirstUnplaceable(env, front, i) && !Placeable(env, front[i]) && front[i] in front;
        } else {
          assert forall c | c in front :: Placeable(env, c);
        }
      }
    }
  }

  // ---- the copies ------------------------------------------------------------------------------------------------

  // The credentials copy a read shows is up to date.
  ghost predicate SecretThere(c: Cluster, env: Env) {
    env.source.Source? && !env.secretMissed && c.secret.Some? && ReadsAs(c.secret.value, env.source.data)
  }

  ghost predicate SecretGoes(c: Cluster, env: Env) {
    env.source.Source? && !env.secretGetFails && (SecretThere(c, env) || !env.secretWriteFails)
  }

  lemma SecretIs(c: Cluster, env: Env)
    ensures SecretOutcome(c, env).SecretOk? <==> SecretGoes(c, env)
    ensures SecretOutcome(c, env).SecretProblem? <==> env.source.SourceAbsent?
    ensures env.source.Source? ==>
              (CopyCurrent(Seen(c.secret, env.secretMissed), ContractData(env.source.data)) <==> SecretThere(c, env))
  {
    if env.source.Source? { CurrentExactly(Seen(c.secret, env.secretMissed), env.source.data); }
  }

  // The serialized namespace, where a serializer is there and answers.
  predicate Serialized(cfg: Config, env: Env) {
    cfg.serializer ==> env.serialized.Text?
  }

  function Staged(cfg: Config, env: Env): seq<string>
    requires Serialized(cfg, env)
  {
    if cfg.serializer then env.serialized.lines else []
  }

  predicate TextThere(c: Cluster, env: Env, text: seq<string>) {
    !env.stagingMissed && c.staging.Some? && c.staging.value.text == text
  }

  predicate StagingGoes(cfg: Config, c: Cluster, env: Env) {
    && Serialized(cfg, env)
    && (Staged(cfg, env) == []
        || (!env.stagingGetFails && (TextThere(c, env, Staged(cfg, env)) || !env.stagingWriteFails)))
  }

  lemma StagingIs(cfg: Config, c: Cluster, env: Env)
    ensures StagingFails(cfg, c, env) <==> !StagingGoes(cfg, c, env)
    ensures Serialized(cfg, env) ==> StagingFor(cfg, env) == if Staged(cfg, env) == [] then "" else cfg.name + "-api"
    ensures Serialized(cfg, env) ==> (StagingFor(cfg, env) == "" <==> Staged(cfg, env) == [])
  {
    assert |cfg.name + "-api"| >= 4;
  }

  predicate RepoOpen(rs: Status, env: Env) {
    rs.phase != Completed && rs.phase != Failed && env.repo == Open
  }

  // What the cluster has of the copies once a reconcile is through with them.
  ghost predicate SecretPut(c: Cluster, env: Env, d: Cluster)
    requires env.source.Source?
  {
    if SecretThere(c, env) || (env.secretMissed && c.secret.Some?) then d.secret == c.secret
    else d.secret.Some? && ReadsAs(d.secret.value, env.source.data) && OnlyCopied(d.secret.value, env.source.data)
  }

  ghost predicate TextPut(cfg: Config, c: Cluster, env: Env, d: Cluster)
    requires Serialized(cfg, env)
  {
    var text := Staged(cfg, env);
    if text == [] || TextThere(c, env, text) || (env.stagingMissed && c.staging.Some?) then d.staging == c.staging
    else d.staging == Some(ConfigMap(text, c.staging.None? || c.staging.value.managed))
  }

  lemma RecordKeepsCopies(cfg: Config, c: Cluster, rs: Status, out: Outcome, env: Env)
    ensures Record(cfg, c, rs, out, env).secret == c.secret && Record(cfg, c, rs, out, env).staging == c.staging
  {
  }

  lemma ActedCopies(cfg: Config, c: Cluster, rs: Status, env: Env)
    ensures Acted(cfg, c, rs, env).secret == Preparing(cfg, c, rs, env).secret
    ensures Acted(cfg, c, rs, env).staging == Preparing(cfg, c, rs, env).staging
  {
    var p, d := Prepare(cfg, c, rs, env), Preparing(cfg, c, rs, env);
    if p.Goes? { LaunchingKeeps(cfg, d.(log := d.log + HookEffects(HooksOf(cfg, rs, env, p).ran)), rs, env, p.launches); }
  }

  lemma SecretIsPut(c: Cluster, env: Env)
    requires SecretGoes(c, env)
    ensures SecretPut(c, env, EnsureSecret(c, env)) && EnsureSecret(c, env).staging == c.staging
  {
    SecretIs(c, env);
    CopiesExactly(env.source.data);
  }

  lemma TextIsPut(cfg: Config, c: Cluster, env: Env)
    requires StagingGoes(cfg, c, env)
    ensures TextPut(cfg, c, env, EnsureStaging(cfg, c, env)) && EnsureStaging(cfg, c, env).secret == c.secret
  {
    StagingIs(cfg, c, env);
  }

  lemma PreparedCopies(cfg: Config, c: Cluster, rs: Status, env: Env)
    requires RepoOpen(rs, env) && SecretGoes(c, env)
    ensures var d := Preparing(cfg, c, rs, env);
            && SecretPut(c, env, d)
            && ((exists claims :: Selects(cfg, env, claims)) && StagingGoes(cfg, c, env) ==> TextPut(cfg, c, env, d))
  {
    SecretIs(c, env);
    SecretIsPut(c, env);
    SelectsExactly(cfg, env);
    var c1 := EnsureSecret(c, env);
    StagingLog(cfg, c1, env);
    if StagingGoes(cfg, c1, env) { TextIsPut(cfg, c1, env); } else { StagingIs(cfg, c1, env); }
    if claims :| Selects(cfg, env, claims) { assert PickFrom(cfg, env) == Picks(claims); }
  }

  /** Past its gate a reconcile leaves an up-to-date copy of the credentials, contract keys only, and once the claims are
      selected the serialized text in the staging ConfigMap, however it ends. */
  lemma CopiesArePut(cfg: Config, c: Cluster, rs: Status, env: Env)
    requires RepoOpen(rs, env) && SecretGoes(c, env)
    ensures var d := Reconcile(cfg, c, rs, env);
            && SecretPut(c, env, d)
            && ((exists claims :: Selects(cfg, env, claims)) && StagingGoes(cfg, c, env) ==> TextPut(cfg, c, env, d))
  {
    PreparedCopies(cfg, c, rs, env);
    ActedCopies(cfg, c, rs, env);
    RecordKeepsCopies(cfg, Acted(cfg, c, rs, env), rs, Decide(cfg, c, rs, env), env);
  }

  // ---- past preparing --------------------------------------------------------------------------------------------

  // Everything a reconcile needs before the hooks.
  ghost predicate Prepares(cfg: Config, c: Cluster, rs: Status, env: Env, claims: seq<Claim>) {
    && RepoOpen(rs, env) && SecretGoes(c, env) && Selects(cfg, env, claims) && StagingGoes(cfg, c, env)
    && (claims != [] || Staged(cfg, env) != []) && env.pods.Pods?
    && (if claims == [] then env.nodes.FirstNode? && env.nodes.node != "" else forall cl | cl in claims :: Placeable(env, cl))
  }

  lemma PreparesThese(cfg: Config, c: Cluster, rs: Status, env: Env, claims: seq<Claim>)
    requires RepoOpen(rs, env) && SecretGoes(c, env) && Selects(cfg, env, claims) && StagingGoes(cfg, c, env)
    ensures Prepare(cfg, c, rs, env) == PrepareClaims(cfg, env, claims)
  {
    SecretIs(c, env);
    SelectsExactly(cfg, env);
    StagingIs(cfg, c, env);
  }

  /** A reconcile gets to the hooks if and only if every one of these answers lets it, and then with the claims selected and
      the pods listed; without a claim, its one Job goes to the first node. */
  lemma PreparesExactly(cfg: Config, c: Cluster, rs: Status, env: Env)
    ensures Prepare(cfg, c, rs, env).Goes? <==> exists claims :: Prepares(cfg, c, rs, env, claims)
    ensures var p := Prepare(cfg, c, rs, env);
            p.Goes? ==>
              && Prepares(cfg, c, rs, env, p.claims) && env.pods == Pods(p.pods)
              && (p.claims == [] ==> p.launches == [Launch(env.nodes.node, cfg.jobName(env.nodes.node), [])])
  {
    SecretIs(c, env);
    SelectsExactly(cfg, env);
    StagingIs(cfg, c, env);
    var p := Prepare(cfg, c, rs, env);
    if p.Goes? { GoesPrepares(cfg, c, rs, env); }
    if claims :| Prepares(cfg, c, rs, env, claims) {
      PreparesThese(cfg, c, rs, env, claims);
      PlacesExactly(env, claims);
    }
  }

  lemma GoesPrepares(cfg: Config, c: Cluster, rs: Status, env: Env)
    requires Prepare(cfg, c, rs, env).Goes?
    ensures var p := Prepare(cfg, c, rs, env);
            && Prepares(cfg, c, rs, env, p.claims) && env.pods == Pods(p.pods)
            && (p.claims == [] ==> p.launches == [Launch(env.nodes.node, cfg.jobName(env.nodes.node), [])])
  {
    SecretIs(c, env);
    SelectsExactly(cfg, env);
    StagingIs(cfg, c, env);
    PlacesExactly(env, PickFrom(cfg, env).claims);
  }

  // ---- what a reconcile leaves behind ------------------------------------------------------------------------

  // The Ready condition as it is set anew; its time moves only when readiness flips.
  ghost predicate Stamped(cfg: Config, rs: Status, env: Env, now: Status, ready: bool, reason: Reason, message: Message) {
    && now.ready.Some?
    && var c := now.ready.value;
       && c.ready == ready && c.reason == reason && c.message == message && c.generation == cfg.generation
       && c.since == if rs.ready.Some? && rs.ready.value.ready == ready then rs.ready.value.since else env.now
  }

  predicate News(cfg: Config, rs: Status, ready: bool, reason: Reason, message: Message) {
    rs.ready.None? || rs.ready.value.ready != ready || rs.ready.value.reason != reason || rs.ready.value.message != message
    || rs.ready.value.generation != cfg.generation
  }

  ghost predicate EndsWith(log: seq<Effect>, tail: seq<Effect>) {
    |tail| <= |log| && log[|log| - |tail|..] == tail
  }

  // The writes of a status that changed, and one event for news; waiting and failing are told as warnings.
  predicate OnceSet(before: Option<int>, after: Option<int>, now: int) {
    after == if before.Some? then before else Some(now)
  }

  ghost predicate Tells(cfg: Config, rs: Status, d: Cluster, warning: bool, ready: bool, reason: Reason, message: Message) {
    (d.status != rs ==>
      EndsWith(d.log, [StatusPatched] + if News(cfg, rs, ready, reason, message) then [Event(warning, reason, message)] else []))
  }

  // Waiting: a phase other than Running becomes Scheduled, and nothing else changes; asked again after the wait.
  ghost predicate Waits(cfg: Config, rs: Status, env: Env, d: Cluster, r: Result, reason: Reason, message: Message, wait: nat) {
    && r == Requeue(wait) && Stamped(cfg, rs, env, d.status, false, reason, message)
    && d.status == rs.(phase := if rs.phase == Running then Running else Scheduled, ready := d.status.ready)
    && Tells(cfg, rs, d, true, false, reason, message)
  }

  // Running: the entries of the Jobs, the start stamped once; asked again in a minute.
  ghost predicate RunsOnWith(cfg: Config, rs: Status, env: Env, d: Cluster, r: Result, entries: seq<JobEntry>) {
    && r == Requeue(60) && Stamped(cfg, rs, env, d.status, false, JobsRunning, RunningMessage)
    && OnceSet(rs.startedAt, d.status.startedAt, env.now)
    && d.status == rs.(phase := Running, ready := d.status.ready, startedAt := d.status.startedAt, jobs := entries)
    && Tells(cfg, rs, d, false, false, JobsRunning, RunningMessage)
  }

  ghost predicate FailsWith(cfg: Config, rs: Status, env: Env, before: Metrics, d: Cluster, r: Result,
                            reason: Reason, message: Message, entries: seq<JobEntry>)
  {
    && r == Finished && Stamped(cfg, rs, env, d.status, false, reason, message)
    && OnceSet(rs.completedAt, d.status.completedAt, env.now)
    && d.status == rs.(phase := Failed, ready := d.status.ready, completedAt := d.status.completedAt, jobs := entries)
    && Tells(cfg, rs, d, true, false, reason, message) && d.metrics == before.(errors := before.errors + 1)
  }

  // Completed: the gauges show the end in seconds, and how long it took where the start is known.
  ghost predicate CompletesWith(cfg: Config, rs: Status, env: Env, before: Metrics, d: Cluster, r: Result,
                                entries: seq<JobEntry>, bytes: int, ref: string)
  {
    var message := if |entries| == 1 then SnapshotMessage(ref) else CompletedMessage(|entries|);
    && r == Finished && Stamped(cfg, rs, env, d.status, true, JobsCompleted, message)
    && OnceSet(rs.completedAt, d.status.completedAt, env.now)
    && d.status == rs.(phase := Completed, ready := d.status.ready, completedAt := d.status.completedAt, jobs := entries,
                       bytes := bytes, snapshotRef := if |entries| == 1 then ref else rs.snapshotRef)
    && Tells(cfg, rs, d, false, true, JobsCompleted, message)
    && d.status.completedAt.Some?
    && d.metrics.errors == before.errors && d.metrics.lastSuccess == Some(d.status.completedAt.value / 1_000_000_000)
    && d.metrics.duration ==
         if rs.startedAt.Some? then Some(d.status.completedAt.value - rs.startedAt.value) else before.duration
  }

  // What a decision leaves behind, on a status that was read as it is.
  ghost predicate Leaves(cfg: Config, rs: Status, env: Env, before: Metrics, d: Cluster, r: Result, out: Outcome) {
    match out
    case Ignored => r == Finished && d.status == rs && d.metrics == before
    case ApiFails => r == Errored && d.status == rs && d.metrics == before
    case Holds(reason, message, wait) => Waits(cfg, rs, env, d, r, reason, message, wait) && d.metrics == before
    case RunsOn(entries) => RunsOnWith(cfg, rs, env, d, r, entries) && d.metrics == before
    case Fails(reason, message, entries) => FailsWith(cfg, rs, env, before, d, r, reason, message, entries)
    case Completes(entries, bytes, ref) => CompletesWith(cfg, rs, env, before, d, r, entries, bytes, ref)
  }

  lemma AppendEnds(log: seq<Effect>, first: seq<Effect>, more: seq<Effect>)
    ensures EndsWith(log + first + more, first + more)
  {
    assert log + first + more == log + (first + more);
  }

  lemma RecordWrites(cfg: Config, mid: Cluster, rs: Status, out: Outcome, env: Env)
    requires !out.Ignored? && !out.ApiFails? && !env.patchFails && mid.status == rs
    ensures var d := Record(cfg, mid, rs, out, env);
            && d.status == Recorded(cfg, rs, out, env.now) && d.metrics == Observed(mid.metrics, out, d.status)
            && (d.status != rs ==> d.log == mid.log + [StatusPatched] + Emitted(cfg, rs, out, env.now))
  {
  }

  lemma EmittedIs(cfg: Config, rs: Status, out: Outcome, now: int)
    requires !out.Ignored? && !out.ApiFails?
    ensures Emitted(cfg, rs, out, now) ==
            if News(cfg, rs, out.Completes?, OutcomeReason(out), OutcomeMessage(out))
            then [Event(out.Holds? || out.Fails?, OutcomeReason(out), OutcomeMessage(out))] else []
  {
  }

  lemma RecordTells(cfg: Config, mid: Cluster, rs: Status, out: Outcome, env: Env)
    requires !out.Ignored? && !out.ApiFails? && !env.patchFails && mid.status == rs
    ensures Tells(cfg, rs, Record(cfg, mid, rs, out, env), out.Holds? || out.Fails?, out.Completes?,
                  OutcomeReason(out), OutcomeMessage(out))
  {
    RecordWrites(cfg, mid, rs, out, env);
    EmittedIs(cfg, rs, out, env.now);
    AppendEnds(mid.log, [StatusPatched], Emitted(cfg, rs, out, env.now));
  }

  lemma RecordLeaves(cfg: Config, mid: Cluster, rs: Status, out: Outcome, env: Env)
    requires !env.patchFails && mid.status == rs
    ensures Leaves(cfg, rs, env, mid.metrics, Record(cfg, mid, rs, out, env), ResultOf(out), out)
  {
    if !out.Ignored? && !out.ApiFails? {
      RecordWrites(cfg, mid, rs, out, env);
      RecordTells(cfg, mid, rs, out, env);
    }
  }

  lemma ActedMetrics(cfg: Config, c: Cluster, rs: Status, env: Env)
    ensures Acted(cfg, c, rs, env).metrics == c.metrics
  {
    PreparingKeeps(cfg, c, rs, env);
    var p, d := Prepare(cfg, c, rs, env), Preparing(cfg, c, rs, env);
    if p.Goes? { LaunchingKeeps(cfg, d.(log := d.log + HookEffects(HooksOf(cfg, rs, env, p).ran)), rs, env, p.launches); }
  }

  lemma DecisionLeaves(cfg: Config, c: Cluster, env: Env)
    requires !env.patchFails
    ensures Leaves(cfg, c.status, env, c.metrics, Reconcile(cfg, c, c.status, env), ReconcileResult(cfg, c, c.status, env),
                   Decide(cfg, c, c.status, env))
  {
    ActedKeepsStatus(cfg, c, c.status, env);
    ActedMetrics(cfg, c, c.status, env);
    RecordLeaves(cfg, Acted(cfg, c, c.status, env), c.status, Decide(cfg, c, c.status, env), env);
  }

  lemma FailureLeaves(cfg: Config, c: Cluster, env: Env, reason: Reason, message: Message, entries: seq<JobEntry>)
    requires !env.patchFails && Decide(cfg, c, c.status, env) == Fails(reason, message, entries)
    ensures FailsWith(cfg, c.status, env, c.metrics, Reconcile(cfg, c, c.status, env), ReconcileResult(cfg, c, c.status, env),
                      reason, message, entries)
  {
    DecisionLeaves(cfg, c, env);
  }

  lemma RunningLeaves(cfg: Config, c: Cluster, env: Env, entries: seq<JobEntry>)
    requires !env.patchFails && Decide(cfg, c, c.status, env) == RunsOn(entries)
    ensures RunsOnWith(cfg, c.status, env, Reconcile(cfg, c, c.status, env), ReconcileResult(cfg, c, c.status, env), entries)
  {
    DecisionLeaves(cfg, c, env);
  }

  lemma CompletionLeaves(cfg: Config, c: Cluster, env: Env, entries: seq<JobEntry>, bytes: int, ref: string)
    requires !env.patchFails && Decide(cfg, c, c.status, env) == Completes(entries, bytes, ref)
    ensures CompletesWith(cfg, c.status, env, c.metrics, Reconcile(cfg, c, c.status, env), ReconcileResult(cfg, c, c.status, env),
                          entries, bytes, ref)
  {
    DecisionLeaves(cfg, c, env);
  }

  lemma ErrorLeaves(cfg: Config, c: Cluster, env: Env)
    requires !env.patchFails && Decide(cfg, c, c.status, env).ApiFails?
    ensures ReconcileResult(cfg, c, c.status, env) == Errored && Reconcile(cfg, c, c.status, env).status == c.status
  {
    DecisionLeaves(cfg, c, env);
  }

  /** On any copy of the status, old or current: what a reconcile leaves as the copy has it stays as the server has it. */
  lemma OldCopyOverwritesNothing(cfg: Config, c: Cluster, rs: Status, env: Env)
    ensures var d, out := Reconcile(cfg, c, rs, env), Decide(cfg, c, rs, env);
            && (out.Holds? ==> d.status.jobs == c.status.jobs && d.status.completedAt == c.status.completedAt)
            && (out.Holds? || out.Fails? ==> d.status.startedAt == c.status.startedAt)
            && (!out.Completes? ==> d.status.bytes == c.status.bytes && d.status.snapshotRef == c.status.snapshotRef)
            && (out.RunsOn? && rs.startedAt.Some? ==> d.status.startedAt == c.status.startedAt)
  {
    ActedKeepsStatus(cfg, c, rs, env);
    RecordOverwritesNothing(cfg, Acted(cfg, c, rs, env), rs, Decide(cfg, c, rs, env), env);
  }

  lemma RecordOverwritesNothing(cfg: Config, mid: Cluster, rs: Status, out: Outcome, env: Env)
    ensures var d := Record(cfg, mid, rs, out, env);
            && (out.Holds? ==> d.status.jobs == mid.status.jobs && d.status.completedAt == mid.status.completedAt)
            && (out.Holds? || out.Fails? ==> d.status.startedAt == mid.status.startedAt)
            && (!out.Completes? ==> d.status.bytes == mid.status.bytes && d.status.snapshotRef == mid.status.snapshotRef)
            && (out.RunsOn? && rs.startedAt.Some? ==> d.status.startedAt == mid.status.startedAt)
  {
  }

  // ---- before the hooks -------------------------------------------------------------------------------------------

  // On the status as it is: the reconcile waits, or stops with an API error; either way it creates no Job.
  ghost predicate EndsWaiting(cfg: Config, c: Cluster, env: Env, reason: Reason, message: Message, wait: nat) {
    && Waits(cfg, c.status, env, Reconcile(cfg, c, c.status, env), ReconcileResult(cfg, c, c.status, env), reason, message, wait)
    && Reconcile(cfg, c, c.status, env).jobs == c.jobs
  }

  ghost predicate EndsErring(cfg: Config, c: Cluster, env: Env) {
    && ReconcileResult(cfg, c, c.status, env) == Errored
    && Reconcile(cfg, c, c.status, env).status == c.status && Reconcile(cfg, c, c.status, env).jobs == c.jobs
  }

  lemma RecordKeepsJobs(cfg: Config, mid: Cluster, rs: Status, out: Outcome, env: Env)
    ensures Record(cfg, mid, rs, out, env).jobs == mid.jobs
  {
  }

  lemma StoppedWaits(cfg: Config, c: Cluster, env: Env, reason: Reason, message: Message, wait: nat)
    requires Prepare(cfg, c, c.status, env) == Stops(Holds(reason, message, wait)) && !env.patchFails
    ensures EndsWaiting(cfg, c, env, reason, message, wait)
  {
    DecisionLeaves(cfg, c, env);
    StoppedKeepsJobs(cfg, c, env);
  }

  lemma StoppedErrs(cfg: Config, c: Cluster, env: Env)
    requires Prepare(cfg, c, c.status, env) == Stops(ApiFails) && !env.patchFails
    ensures EndsErring(cfg, c, env)
  {
    DecisionLeaves(cfg, c, env);
    StoppedKeepsJobs(cfg, c, env);
  }

  lemma StoppedKeepsJobs(cfg: Config, c: Cluster, env: Env)
    requires Prepare(cfg, c, c.status, env).Stops?
    ensures Reconcile(cfg, c, c.status, env).jobs == c.jobs
  {
    PreparingKeeps(cfg, c, c.status, env);
    RecordKeepsJobs(cfg, Acted(cfg, c, c.status, env), c.status, Decide(cfg, c, c.status, env), env);
  }

  /** At the gates: a backup that is over is left alone; a repo that is not ready, or whose secret is not there, is waited for
      a minute. */
  lemma AtTheGates(cfg: Config, c: Cluster, env: Env)
    requires !env.patchFails
    ensures c.status.phase == Completed || c.status.phase == Failed ==>
              Reconcile(cfg, c, c.status, env) == c && ReconcileResult(cfg, c, c.status, env) == Finished
    ensures !Terminal(c.status.phase) && env.repo.Held? ==> EndsWaiting(cfg, c, env, RepoNotReady, RepoMessage(env.repo.text), 60)
    ensures !Terminal(c.status.phase) && env.repo.Unreachable? ==> EndsErring(cfg, c, env)
    ensures RepoOpen(c.status, env) && env.source.SourceAbsent? ==>
              EndsWaiting(cfg, c, env, SecretCopyFailed, SourceAbsentMessage, 60)
    ensures RepoOpen(c.status, env) && !env.source.SourceAbsent? && !SecretGoes(c, env) ==> EndsErring(cfg, c, env)
  {
    SecretIs(c, env);
    if Terminal(c.status.phase) {
      TerminalIsIgnored(cfg, c, c.status, env);
    } else if !RepoOpen(c.status, env) || !SecretGoes(c, env) {
      var p := Prepare(cfg, c, c.status, env);
      if p.out.Holds? { StoppedWaits(cfg, c, env, p.out.reason, p.out.message, p.out.wait); } else { StoppedErrs(cfg, c, env); }
    }
  }

  lemma SelectionStops(cfg: Config, c: Cluster, rs: Status, env: Env)
    requires RepoOpen(rs, env) && SecretGoes(c, env) && !PickFrom(cfg, env).Picks?
    ensures Prepare(cfg, c, rs, env) == Stops(match PickFrom(cfg, env)
                                               case PickProblem(message) => Holds(PlacementFailed, message, 60)
                                               case _ => ApiFails)
  {
    SecretIs(c, env);
  }

  /** At the selection: a named claim that is not there, or a selector that does not parse, is waited for; claims that cannot
      be read are an error. */
  lemma AtTheSelection(cfg: Config, c: Cluster, env: Env)
    requires RepoOpen(c.status, env) && SecretGoes(c, env) && !env.patchFails
    ensures ByNames(cfg) ==> forall i: nat | FirstUnhad(env, cfg.selection.names, i) ::
              if cfg.selection.names[i] in env.claimFails then EndsErring(cfg, c, env)
              else EndsWaiting(cfg, c, env, PlacementFailed, ClaimNotFound(cfg.selection.names[i]), 60)
    ensures cfg.selection.BadSelector? ==> EndsWaiting(cfg, c, env, PlacementFailed, InvalidSelector(cfg.selection.error), 60)
    ensures !ByNames(cfg) && !cfg.selection.BadSelector? && env.listed.ClaimsFail? ==> EndsErring(cfg, c, env)
  {
    SelectsExactly(cfg, env);
    if !PickFrom(cfg, env).Picks? {
      SelectionStops(cfg, c, c.status, env);
      if PickFrom(cfg, env).PickProblem? {
        StoppedWaits(cfg, c, env, PlacementFailed, PickFrom(cfg, env).message, 60);
      } else {
        StoppedErrs(cfg, c, env);
      }
    }
  }

  lemma StagingStops(cfg: Config, c: Cluster, rs: Status, env: Env, claims: seq<Claim>)
    requires RepoOpen(rs, env) && SecretGoes(c, env) && Selects(cfg, env, claims) && !StagingGoes(cfg, c, env)
    ensures Prepare(cfg, c, rs, env) == Stops(ApiFails)
  {
    SecretIs(c, env);
    SelectsExactly(cfg, env);
    StagingIs(cfg, c, env);
  }

  /** At the placement: with nothing to back up it looks again in five minutes; without a node, or at the first claim that
      has no place yet, in one; reads that fail are errors. */
  lemma AtThePlacement(cfg: Config, c: Cluster, env: Env, claims: seq<Claim>)
    requires RepoOpen(c.status, env) && SecretGoes(c, env) && Selects(cfg, env, claims) && !env.patchFails
    ensures !StagingGoes(cfg, c, env) ==> EndsErring(cfg, c, env)
    ensures StagingGoes(cfg, c, env) && claims == [] && Staged(cfg, env) == [] ==>
              EndsWaiting(cfg, c, env, NoPVCs, NothingToBackUp, 300)
    ensures StagingGoes(cfg, c, env) && (claims != [] || Staged(cfg, env) != []) && env.pods.PodsFail? ==> EndsErring(cfg, c, env)
    ensures StagingGoes(cfg, c, env) && claims == [] && Staged(cfg, env) != [] && env.pods.Pods? ==>
              && (env.nodes.NodesFail? ==> EndsErring(cfg, c, env))
              && (env.nodes == FirstNode("") ==> EndsWaiting(cfg, c, env, PlacementFailed, NoNodes, 60))
    ensures StagingGoes(cfg, c, env) && env.pods.Pods? ==>
              forall i: nat | FirstUnplaceable(env, claims, i) ::
                if WhyUnplaced(env, claims[i]).None? then EndsErring(cfg, c, env)
                else EndsWaiting(cfg, c, env, PlacementFailed, WhyUnplaced(env, claims[i]).value, 60)
  {
    if !StagingGoes(cfg, c, env) {
      StagingStops(cfg, c, c.status, env, claims);
      StoppedErrs(cfg, c, env);
    } else {
      PreparesThese(cfg, c, c.status, env, claims);
      StagingIs(cfg, c, env);
      PlacesExactly(env, claims);
      var p := PrepareClaims(cfg, env, claims);
      if p.Stops? {
        if p.out.Holds? { StoppedWaits(cfg, c, env, p.out.reason, p.out.message, p.out.wait); } else { StoppedErrs(cfg, c, env); }
      }
    }
  }
}
