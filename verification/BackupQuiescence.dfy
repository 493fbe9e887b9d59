/** BackupQuiescence: a backup reconcile that met no API error has done all there was to do. Run again on an unchanged
    cluster it writes nothing and emits nothing, since everything the controller writes is invisible to the
    serializer; unless an unlabelled ConfigMap already held the staging name, and then it never settles. */
module BackupQuiescence {
  import opened Wrappers
  import opened Sorting
  import opened Credentials
  import opened BackupSpec
  import BackupController
  import BackupHooks
  import Serializer
  import Manifests

  // ---- the same answers give the same decision --------------------------------------------------------

  lemma SecretSettles(c: Cluster, env: Env, later: int)
    requires SecretOutcome(c, env).SecretOk?
    ensures var d := EnsureSecret(c, env);
            SecretOutcome(d, env.(now := later)).SecretOk? && EnsureSecret(d, env.(now := later)) == d
  {
  }

  lemma StagingSettles(cfg: Config, c: Cluster, env: Env, later: int)
    requires !StagingFails(cfg, c, env)
    ensures var d := EnsureStaging(cfg, c, env);
            !StagingFails(cfg, d, env.(now := later)) && EnsureStaging(cfg, d, env.(now := later)) == d
  {
  }

  // Selection, staging and placement do not look at the clock.
  lemma {:induction false} PickSame(env: Env, later: int, names: seq<string>)
    ensures PickNamed(env.(now := later), names) == PickNamed(env, names)
  {
    if names != [] { PickSame(env, later, names[..|names| - 1]); }
  }

  lemma {:induction false} PlaceSame(env: Env, later: int, claims: seq<Claim>)
    ensures PlaceAll(env.(now := later), claims) == PlaceAll(env, claims)
  {
    if claims != [] { PlaceSame(env, later, claims[..|claims| - 1]); }
  }

  lemma PrepareClaimsSame(cfg: Config, env: Env, later: int)
    ensures PickFrom(cfg, env.(now := later)) == PickFrom(cfg, env)
    ensures StagingFor(cfg, env.(now := later)) == StagingFor(cfg, env)
    ensures forall claims :: PrepareClaims(cfg, env.(now := later), claims) == PrepareClaims(cfg, env, claims)
  {
    if cfg.selection.Explicit? { PickSame(env, later, cfg.selection.names); }
    forall claims ensures PrepareClaims(cfg, env.(now := later), claims) == PrepareClaims(cfg, env, claims) {
      PlaceSame(env, later, claims);
    }
  }

  // The copies after preparing are what preparing made them.
  ghost predicate Copied(cfg: Config, c: Cluster, rs: Status, env: Env, d: Cluster) {
    var p := Preparing(cfg, c, rs, env);
    d.secret == p.secret && d.staging == p.staging
  }

  lemma SecretSees(c: Cluster, d: Cluster, env: Env)
    requires c.secret == d.secret
    ensures SecretOutcome(c, env) == SecretOutcome(d, env)
    ensures EnsureSecret(c, env) == c ==> EnsureSecret(d, env) == d
  {
  }

  lemma StagingSees(cfg: Config, c: Cluster, d: Cluster, env: Env)
    requires c.staging == d.staging
    ensures StagingFails(cfg, c, env) == StagingFails(cfg, d, env)
    ensures EnsureStaging(cfg, c, env) == c ==> EnsureStaging(cfg, d, env) == d
  {
  }

  // Preparing again changes nothing and comes to the same end, as long as the backup is not over and met no error.
  // What the copies answer once they are made.
  lemma CopiesAgain(cfg: Config, c: Cluster, rs: Status, env: Env, d: Cluster, later: int)
    requires Gated(rs, env).None? && Copied(cfg, c, rs, env, d)
    ensures SecretOutcome(d, env.(now := later)) == SecretOutcome(c, env)
    ensures EnsureSecret(d, env.(now := later)) == d
    ensures SecretOutcome(c, env).SecretOk? && PickFrom(cfg, env).Picks? ==>
              && (!StagingFails(cfg, c, env) ==> !StagingFails(cfg, d, env.(now := later)))
              && (!StagingFails(cfg, c, env) ==> EnsureStaging(cfg, d, env.(now := later)) == d)
  {
    var env2 := env.(now := later);
    var c1 := EnsureSecret(c, env);
    StagingSees(cfg, c, c1, env);
    if SecretOutcome(c, env).SecretOk? {
      SecretSettles(c, env, later);
      StagingKeepsSecret(cfg, c1, env);
      SecretSees(c1, d, env2);
      if PickFrom(cfg, env).Picks? && !StagingFails(cfg, c, env) {
        StagingSettles(cfg, c1, env, later);
        StagingSees(cfg, EnsureStaging(cfg, c1, env), d, env2);
      }
    } else {
      SecretSees(c, d, env);
    }
  }

  lemma PrepareAgain(cfg: Config, c: Cluster, rs: Status, env: Env, d: Cluster, rs2: Status, later: int)
    requires Gated(rs, env).None? && Gated(rs2, env).None? && Copied(cfg, c, rs, env, d)
    requires var p := Prepare(cfg, c, rs, env); p.Stops? ==> !p.out.ApiFails?
    ensures Prepare(cfg, d, rs2, env.(now := later)) == Prepare(cfg, c, rs, env)
    ensures Preparing(cfg, d, rs2, env.(now := later)) == d
  {
    PrepareClaimsSame(cfg, env, later);
    CopiesAgain(cfg, c, rs, env, d, later);
  }

  lemma StagingKeepsSecret(cfg: Config, c: Cluster, env: Env)
    ensures EnsureStaging(cfg, c, env).secret == c.secret
  {
  }

  // ---- launching again ---------------------------------------------------------------------------------

  // A Job the first launch found or made is found again; one it missed is missed again.
  lemma OneAgain(cfg: Config, c: Cluster, rs: Status, env: Env, d: Cluster, rs2: Status, later: int, l: Launch)
    requires env.jobs.Live?
    requires var one := LaunchOne(c, rs, env, l.name);
             && !one.OneFails?
             && (one.OneVanished? ==> l.name !in d.jobs && KnownJob(rs2, l.name))
             && (one.OneFound? ==> l.name in d.jobs && d.jobs[l.name] == one.job)
             && (one.OneCreated? ==> l.name in d.jobs && d.jobs[l.name] == NewJob(cfg, l, StagingFor(cfg, env)))
    ensures var one, two := LaunchOne(c, rs, env, l.name), LaunchOne(d, rs2, env.(now := later), l.name);
            && two == (if one.OneCreated? then OneFound(NewJob(cfg, l, StagingFor(cfg, env))) else one)
            && AfterOne(cfg, d, rs2, env.(now := later), l) == d
  {
  }

  // Jobs a launch found or created stay as they are for the rest of the loop.
  lemma {:induction false} LaunchingAgain(cfg: Config, c: Cluster, rs: Status, env: Env, ls: seq<Launch>, d: Cluster, rs2: Status, later: int)
    requires env.jobs.Live? && !LaunchAll(cfg, c, rs, env, ls).LaunchFails?
    requires var e := Launching(cfg, c, rs, env, ls); forall n | n in e.jobs :: n in d.jobs && d.jobs[n] == e.jobs[n]
    requires forall n | n in d.jobs && n !in Launching(cfg, c, rs, env, ls).jobs :: !KnownJob(rs, n)
    requires LaunchAll(cfg, c, rs, env, ls).Vanished? ==> rs2.jobs == rs.jobs
    ensures LaunchAll(cfg, d, rs2, env.(now := later), ls) == LaunchAll(cfg, c, rs, env, ls)
    ensures Launching(cfg, d, rs2, env.(now := later), ls) == d
  {
    if ls != [] {
      var n := |ls| - 1;
      var front, l := ls[..n], ls[n];
      var e := Launching(cfg, c, rs, env, front);
      var placed := LaunchAll(cfg, c, rs, env, front);
      if placed.AllPlaced? {
        AfterOneGrows(cfg, e, rs, env, l);
        LaunchingAgain(cfg, c, rs, env, front, d, rs2, later);
        OneAgain(cfg, e, rs, env, d, rs2, later, l);
      } else {
        LaunchingAgain(cfg, c, rs, env, front, d, rs2, later);
      }
      StagingSame(cfg, env, later);
    }
  }

  lemma StagingSame(cfg: Config, env: Env, later: int)
    ensures StagingFor(cfg, env.(now := later)) == StagingFor(cfg, env)
  {
  }

  lemma AfterOneGrows(cfg: Config, c: Cluster, rs: Status, env: Env, l: Launch)
    ensures var d := AfterOne(cfg, c, rs, env, l);
            && (forall n | n in c.jobs :: n in d.jobs && d.jobs[n] == c.jobs[n])
            && (forall n | n in d.jobs && n !in c.jobs :: !KnownJob(rs, n))
  {
  }

  // ---- recording again ------------------------------------------------------------------------------------

  lemma RecordedAgain(cfg: Config, rs: Status, out: Outcome, now: int, later: int)
    requires out.Holds? || out.RunsOn?
    ensures var after := Recorded(cfg, rs, out, now);
            Recorded(cfg, after, out, later) == after && Emitted(cfg, after, out, later) == []
  {
  }

  lemma NothingToRecord(cfg: Config, d: Cluster, out: Outcome, env: Env)
    requires out.Holds? || out.RunsOn?
    requires Recorded(cfg, d.status, out, env.now) == d.status && Emitted(cfg, d.status, out, env.now) == []
    ensures Record(cfg, d, d.status, out, env) == d
  {
  }

  lemma RecordWrites(cfg: Config, c: Cluster, out: Outcome, env: Env)
    requires !out.Ignored? && !out.ApiFails? && !Lost(cfg, c.status, out, env)
    ensures var d := Record(cfg, c, c.status, out, env);
            && d.status == Recorded(cfg, c.status, out, env.now)
            && d.jobs == c.jobs && d.secret == c.secret && d.staging == c.staging
  {
  }

  // ---- deciding again -----------------------------------------------------------------------------------

  // What is left of a reconcile, up to the log: the copies preparing made, and the Jobs launching made.
  lemma ActedCopies(cfg: Config, c: Cluster, rs: Status, env: Env)
    ensures Copied(cfg, c, rs, env, Acted(cfg, c, rs, env))
    ensures var p := Prepare(cfg, c, rs, env);
            Acted(cfg, c, rs, env).jobs ==
              if p.Goes? && HooksOf(cfg, rs, env, p).problem.None? then Launching(cfg, c, rs, env, p.launches).jobs else c.jobs
  {
    var p := Prepare(cfg, c, rs, env);
    var d := Preparing(cfg, c, rs, env);
    BackupHooks.PreparingKeeps(cfg, c, rs, env);
    if p.Goes? {
      var hooked := d.(log := d.log + HookEffects(HooksOf(cfg, rs, env, p).ran));
      BackupHooks.LaunchingKeeps(cfg, hooked, rs, env, p.launches);
      BackupController.LaunchSeesJobs(cfg, hooked, c, rs, env, p.launches);
    }
  }

  // A stop that holds, again.
  lemma StopsAgain(cfg: Config, c: Cluster, rs: Status, env: Env, d: Cluster, later: int)
    requires Prepare(cfg, c, rs, env).Stops? && Decide(cfg, c, rs, env).Holds?
    requires Copied(cfg, c, rs, env, d) && !Terminal(d.status.phase)
    ensures Decide(cfg, d, d.status, env.(now := later)) == Decide(cfg, c, rs, env)
    ensures Acted(cfg, d, d.status, env.(now := later)) == d
  {
    if Gated(rs, env).None? { PrepareAgain(cfg, c, rs, env, d, d.status, later); }
  }

  // The launches, again: the hooks are behind, and every Job is as it was left.
  lemma LaunchesAgain(cfg: Config, c: Cluster, rs: Status, env: Env, d: Cluster, later: int)
    requires env.jobs.Live? && Prepare(cfg, c, rs, env).Goes?
    requires Copied(cfg, c, rs, env, d) && !Terminal(d.status.phase) && d.status.jobs != []
    requires var ls := Prepare(cfg, c, rs, env).launches;
             && d.jobs == Launching(cfg, c, rs, env, ls).jobs
             && !LaunchAll(cfg, c, rs, env, ls).LaunchFails?
             && (LaunchAll(cfg, c, rs, env, ls).Vanished? ==> d.status.jobs == rs.jobs)
    ensures var ls := Prepare(cfg, c, rs, env).launches;
            && Decide(cfg, d, d.status, env.(now := later))
               == LaunchOutcome(cfg, env.(now := later), LaunchAll(cfg, c, rs, env, ls))
            && Acted(cfg, d, d.status, env.(now := later)) == d
  {
    var env2 := env.(now := later);
    var p := Prepare(cfg, c, rs, env);
    NotGated(cfg, c, rs, env, d.status);
    PrepareAgain(cfg, c, rs, env, d, d.status, later);
    LaunchingAgain(cfg, c, rs, env, p.launches, d, d.status, later);
    ProceedsQuietly(cfg, d, env2, p);
  }

  lemma NotGated(cfg: Config, c: Cluster, rs: Status, env: Env, rs2: Status)
    requires Prepare(cfg, c, rs, env).Goes? && !Terminal(rs2.phase)
    ensures Gated(rs, env).None? && Gated(rs2, env).None?
  {
  }

  lemma ProceedsQuietly(cfg: Config, d: Cluster, env: Env, p: Prepared)
    requires p.Goes? && d.status.jobs != [] && Launching(cfg, d, d.status, env, p.launches) == d
    ensures Proceed(cfg, d, d.status, env, p) == LaunchOutcome(cfg, env, LaunchAll(cfg, d, d.status, env, p.launches))
    ensures Proceeding(cfg, d, d.status, env, p) == d
  {
    assert d.log + HookEffects([]) == d.log;
    assert d.(log := d.log + HookEffects([])) == d;
  }

  // An outcome short of the end comes from an empty gate, a vanished Job or active Jobs.
  lemma OutcomeFrom(cfg: Config, c: Cluster, rs: Status, env: Env)
    requires var out := Decide(cfg, c, rs, env); out.Holds? || out.RunsOn?
    requires Prepare(cfg, c, rs, env).Goes?
    ensures var p, out := Prepare(cfg, c, rs, env), Decide(cfg, c, rs, env);
            var launched := LaunchAll(cfg, c, rs, env, p.launches);
            && HooksOf(cfg, rs, env, p).problem.None? && !launched.LaunchFails?
            && out == LaunchOutcome(cfg, env, launched)
            && (out.Holds? <==> launched.Vanished?)
            && (launched.Vanished? ==> rs.jobs != [])
            && (out.RunsOn? ==> out.entries != [])
  {
    var p := Prepare(cfg, c, rs, env);
    BackupHooks.LaunchesSomething(cfg, c, rs, env);
    if rs.jobs == [] { BackupHooks.NothingVanishes(cfg, c, rs, env, p.launches); }
  }

  lemma SameLaunchOutcome(cfg: Config, env: Env, later: int, launched: Launched)
    requires var out := LaunchOutcome(cfg, env, launched); out.Holds? || out.RunsOn?
    ensures LaunchOutcome(cfg, env.(now := later), launched) == LaunchOutcome(cfg, env, launched)
  {
  }

  // The second reconcile decides what the first decided, and acts on nothing.
  lemma DecidesAgain(cfg: Config, c: Cluster, env: Env, d: Cluster, later: int)
    requires env.jobs.Live?
    requires var out := Decide(cfg, c, c.status, env);
             && (out.Holds? || out.RunsOn?)
             && d.status == Recorded(cfg, c.status, out, env.now) && !Terminal(c.status.phase)
             && d.jobs == Acted(cfg, c, c.status, env).jobs && Copied(cfg, c, c.status, env, d)
    ensures Decide(cfg, d, d.status, env.(now := later)) == Decide(cfg, c, c.status, env)
    ensures Acted(cfg, d, d.status, env.(now := later)) == d
  {
    if Prepare(cfg, c, c.status, env).Stops? {
      StopsAgain(cfg, c, c.status, env, d, later);
    } else {
      ActedCopies(cfg, c, c.status, env);
      OutcomeFrom(cfg, c, c.status, env);
      LaunchesAgain(cfg, c, c.status, env, d, later);
      SameLaunchOutcome(cfg, env, later, LaunchAll(cfg, c, c.status, env, Prepare(cfg, c, c.status, env).launches));
    }
  }

  // What a reconcile that met no error has left: its status, Jobs and copies.
  lemma Leaves(cfg: Config, c: Cluster, env: Env)
    requires !Terminal(c.status.phase) && ReconcileResult(cfg, c, c.status, env) != Errored
    ensures var d, out := Reconcile(cfg, c, c.status, env), Decide(cfg, c, c.status, env);
            && !out.Ignored? && !out.ApiFails?
            && d.status == Recorded(cfg, c.status, out, env.now)
            && d.jobs == Acted(cfg, c, c.status, env).jobs && Copied(cfg, c, c.status, env, d)
  {
    NotIgnored(cfg, c, env);
    BackupHooks.ActedKeepsStatus(cfg, c, c.status, env);
    RecordWrites(cfg, Acted(cfg, c, c.status, env), Decide(cfg, c, c.status, env), env);
    ActedCopies(cfg, c, c.status, env);
  }

  lemma QuietWhileRunning(cfg: Config, c: Cluster, env: Env, d: Cluster, later: int)
    requires env.jobs.Live? && !Terminal(c.status.phase)
    requires var out := Decide(cfg, c, c.status, env);
             && (out.Holds? || out.RunsOn?)
             && d.status == Recorded(cfg, c.status, out, env.now)
             && d.jobs == Acted(cfg, c, c.status, env).jobs && Copied(cfg, c, c.status, env, d)
    ensures Reconcile(cfg, d, d.status, env.(now := later)) == d
  {
    var out := Decide(cfg, c, c.status, env);
    DecidesAgain(cfg, c, env, d, later);
    RecordedAgain(cfg, c.status, out, env.now, later);
    NothingToRecord(cfg, d, out, env.(now := later));
  }

  lemma EndsTerminal(cfg: Config, rs: Status, out: Outcome, now: int)
    requires out.Fails? || out.Completes?
    ensures Terminal(Recorded(cfg, rs, out, now).phase)
  {
  }

  /** Quiescence, given that the namespace serializes to the same text. */
  lemma SecondReconcileDoesNothing(cfg: Config, c: Cluster, env: Env, later: int)
    requires env.jobs.Live? && ReconcileResult(cfg, c, c.status, env) != Errored
    ensures var d := Reconcile(cfg, c, c.status, env);
            Reconcile(cfg, d, d.status, env.(now := later)) == d
  {
    if Terminal(c.status.phase) {
      BackupHooks.TerminalIsIgnored(cfg, c, c.status, env);
      BackupHooks.TerminalIsIgnored(cfg, c, c.status, env.(now := later));
    } else {
      Leaves(cfg, c, env);
      var d := Reconcile(cfg, c, c.status, env);
      var out := Decide(cfg, c, c.status, env);
      if out.Holds? || out.RunsOn? {
        QuietWhileRunning(cfg, c, env, d, later);
      } else {
        EndsTerminal(cfg, c.status, out, env.now);
        BackupHooks.TerminalIsIgnored(cfg, d, d.status, env.(now := later));
      }
    }
  }

  lemma NotIgnored(cfg: Config, c: Cluster, env: Env)
    requires !Terminal(c.status.phase)
    ensures !Decide(cfg, c, c.status, env).Ignored?
  {
    var p := Prepare(cfg, c, c.status, env);
    BackupController.StopsHow(cfg, c, c.status, env);
  }

  // ---- the namespace the serializer sees -------------------------------------------------------------

  // An object as far as the serializer cares: its name, its managed label, and a body.
  function Labelled(name: string, managed: bool, body: Manifests.Value): Manifests.Value {
    var labels := if managed then map[Serializer.MANAGED := Manifests.Str("true")] else map[];
    Manifests.Object(map["metadata" := Manifests.Object(map["name" := Manifests.Str(name), "labels" := Manifests.Object(labels)]),
                         "data" := body])
  }

  function SecretObject(s: Secret): Manifests.Value {
    Labelled("pbsrepo", s.managed, Manifests.Object(map k | k in s.data :: Manifests.Str(s.data[k])))
  }

  function StagingObject(cfg: Config, m: ConfigMap): Manifests.Value {
    Labelled(StagingName(cfg), m.managed,
             Manifests.Object(map["api.yaml" := Manifests.List(seq(|m.text|, i requires 0 <= i < |m.text| => Manifests.Str(m.text[i])))]))
  }

  ghost function ManagedObjects(names: seq<string>): seq<Manifests.Value> {
    seq(|names|, i requires 0 <= i < |names| => Labelled(names[i], true, Manifests.Null))
  }

  // The events emitted so far.
  function EventsIn(log: seq<Effect>): seq<Effect> {
    if log == [] then []
    else EventsIn(log[..|log| - 1]) + (if log[|log| - 1].Event? then [log[|log| - 1]] else [])
  }

  // Everything this backup has written to the namespace: the copies, the Jobs, the Jobs' pods, which carry the label
  // too, the backup's own status, and its events, which either Event API lists.
  ghost function OwnObjects(cfg: Config, c: Cluster, group: string, kind: string): seq<Manifests.Value> {
    if group == "" && kind == "Secret" then (if c.secret.Some? then [SecretObject(c.secret.value)] else [])
    else if group == "" && kind == "ConfigMap" then (if c.staging.Some? then [StagingObject(cfg, c.staging.value)] else [])
    else if (group == "" && kind == "Pod") || (group == "batch" && kind == "Job") then ManagedObjects(InOrder(c.jobs.Keys))
    else if group == Serializer.PBS_GROUP && kind == "PBSBackup" then [BackupObject(cfg, c.status)]
    else if (group == "" || group == "events.k8s.io") && kind == "Event" then EventObjects(cfg, EventsIn(c.log))
    else []
  }

  function BackupObject(cfg: Config, rs: Status): Manifests.Value {
    Labelled(cfg.name, false,
             Manifests.List(seq(|rs.jobs|, i requires 0 <= i < |rs.jobs| => Manifests.Str(rs.jobs[i].job))))
  }

  function EventObjects(cfg: Config, events: seq<Effect>): seq<Manifests.Value> {
    seq(|events|, i requires 0 <= i < |events| => Labelled(cfg.name, false, Manifests.Null))
  }

  ghost function WithOwn(cfg: Config, c: Cluster, l: Serializer.ResourceList, r: Serializer.Resource): Serializer.Resource {
    if r.listing.Items? && Serializer.GroupOf(l.groupVersion).Some?
    then r.(listing := Serializer.Items(r.listing.objects + OwnObjects(cfg, c, Serializer.GroupOf(l.groupVersion).value, r.kind)))
    else r
  }

  ghost function ListWithOwn(cfg: Config, c: Cluster, l: Serializer.ResourceList): Serializer.ResourceList {
    l.(resources := seq(|l.resources|, j requires 0 <= j < |l.resources| => WithOwn(cfg, c, l, l.resources[j])))
  }

  // The namespace: what is there besides this backup, and what this backup wrote.
  ghost function Namespace(cfg: Config, c: Cluster, others: seq<Serializer.ResourceList>): seq<Serializer.ResourceList> {
    seq(|others|, i requires 0 <= i < |others| => ListWithOwn(cfg, c, others[i]))
  }

  // The text a reconcile is answered: it serializes after the credentials copy is in place.
  ghost function SerializedAt(cfg: Config, codec: Manifests.Codec, others: seq<Serializer.ResourceList>, c: Cluster, env: Env)
    : Serializer.Serialized
  {
    Serializer.Serialize(codec, Serializer.Discovered(Namespace(cfg, EnsureSecret(c, env), others)))
  }

  predicate SecretLabelled(c: Cluster) {
    c.secret.Some? ==> c.secret.value.managed
  }

  predicate StagingLabelled(c: Cluster) {
    c.staging.Some? ==> c.staging.value.managed
  }

  // The copies do not tell two clusters apart: each is the same in both, or hidden by its label in both.
  predicate CopiesHidden(a: Cluster, b: Cluster) {
    && (a.secret == b.secret || (SecretLabelled(a) && SecretLabelled(b)))
    && (a.staging == b.staging || (StagingLabelled(a) && StagingLabelled(b)))
  }

  lemma LabelIs(name: string, managed: bool, body: Manifests.Value)
    ensures Serializer.Managed(Labelled(name, managed, body)) == managed
  {
    var obj := Labelled(name, managed, body);
    assert Manifests.At(obj, "metadata").Object?;
    assert Manifests.At(Manifests.At(obj, "metadata"), "labels").Object?;
  }

  lemma AllManaged(names: seq<string>, v: Manifests.Value)
    requires v in ManagedObjects(names)
    ensures Serializer.Managed(v)
  {
    var i :| 0 <= i < |names| && v == ManagedObjects(names)[i];
    LabelIs(names[i], true, Manifests.Null);
  }

  // Everything the controller writes is of an excluded kind, the same in both clusters, or labelled.
  lemma OwnAreHidden(cfg: Config, a: Cluster, b: Cluster, group: string, kind: string)
    requires CopiesHidden(a, b)
    ensures || Serializer.Excluded(group, kind)
            || OwnObjects(cfg, a, group, kind) == OwnObjects(cfg, b, group, kind)
            || (forall v | v in OwnObjects(cfg, a, group, kind) || v in OwnObjects(cfg, b, group, kind) :: Serializer.Managed(v))
  {
    forall v | v in ManagedObjects(InOrder(a.jobs.Keys)) ensures Serializer.Managed(v) { AllManaged(InOrder(a.jobs.Keys), v); }
    forall v | v in ManagedObjects(InOrder(b.jobs.Keys)) ensures Serializer.Managed(v) { AllManaged(InOrder(b.jobs.Keys), v); }
    CopiesAreHidden(cfg, a, b);
  }

  lemma CopiesAreHidden(cfg: Config, a: Cluster, b: Cluster)
    requires CopiesHidden(a, b)
    ensures a.secret == b.secret || forall c | c in {a, b} && c.secret.Some? :: Serializer.Managed(SecretObject(c.secret.value))
    ensures a.staging == b.staging || forall c | c in {a, b} && c.staging.Some? :: Serializer.Managed(StagingObject(cfg, c.staging.value))
  {
    forall c | c in {a, b} && c.secret.Some? ensures Serializer.Managed(SecretObject(c.secret.value)) == c.secret.value.managed {
      SecretLabelIs(c.secret.value);
    }
    forall c | c in {a, b} && c.staging.Some?
      ensures Serializer.Managed(StagingObject(cfg, c.staging.value)) == c.staging.value.managed
    {
      StagingLabelIs(cfg, c.staging.value);
    }
  }

  lemma SecretLabelIs(s: Secret)
    ensures Serializer.Managed(SecretObject(s)) == s.managed
  {
    LabelIs("pbsrepo", s.managed, Manifests.At(SecretObject(s), "data"));
  }

  lemma StagingLabelIs(cfg: Config, m: ConfigMap)
    ensures Serializer.Managed(StagingObject(cfg, m)) == m.managed
  {
    LabelIs(StagingName(cfg), m.managed, Manifests.At(StagingObject(cfg, m), "data"));
  }

  lemma OwnVanish(cfg: Config, a: Cluster, b: Cluster, l: Serializer.ResourceList, r: Serializer.Resource)
    requires CopiesHidden(a, b) && Serializer.GroupOf(l.groupVersion).Some?
    ensures Serializer.OnlyManagedMore(Serializer.GroupOf(l.groupVersion).value, WithOwn(cfg, a, l, r), WithOwn(cfg, b, l, r))
  {
    var group := Serializer.GroupOf(l.groupVersion).value;
    if r.listing.Items? {
      var ownA, ownB := OwnObjects(cfg, a, group, r.kind), OwnObjects(cfg, b, group, r.kind);
      OwnAreHidden(cfg, a, b, group, r.kind);
      if !Serializer.Excluded(group, r.kind) && ownA != ownB {
        forall gk ensures Serializer.Unmanaged(gk, r.listing.objects + ownB) == Serializer.Unmanaged(gk, r.listing.objects + ownA) {
          Serializer.UnmanagedAppend(gk, r.listing.objects, ownA);
          Serializer.UnmanagedAppend(gk, r.listing.objects, ownB);
        }
      }
    }
  }

  /** Nothing this backup writes shows in the serialized namespace: not the copies, the Jobs or their pods, its status
      or its events. */
  lemma OwnWritesInvisible(cfg: Config, codec: Manifests.Codec, others: seq<Serializer.ResourceList>, a: Cluster, b: Cluster)
    requires CopiesHidden(a, b)
    ensures Serializer.Serialize(codec, Serializer.Discovered(Namespace(cfg, a, others)))
            == Serializer.Serialize(codec, Serializer.Discovered(Namespace(cfg, b, others)))
  {
    var na, nb := Namespace(cfg, a, others), Namespace(cfg, b, others);
    forall i, j | 0 <= i < |others| && 0 <= j < |others[i].resources| && Serializer.GroupOf(others[i].groupVersion).Some?
      ensures Serializer.OnlyManagedMore(Serializer.GroupOf(others[i].groupVersion).value, na[i].resources[j], nb[i].resources[j])
    {
      OwnVanish(cfg, a, b, others[i], others[i].resources[j]);
    }
    Serializer.ManagedLeavesNoTrace(codec, na, nb);
  }

  lemma StagingStaysLabelled(cfg: Config, c: Cluster, env: Env)
    requires StagingLabelled(c)
    ensures StagingLabelled(Preparing(cfg, c, c.status, env))
  {
  }

  lemma CopiesUnchanged(cfg: Config, c: Cluster, env: Env)
    requires Gated(c.status, env).Some? || !SecretOutcome(c, env).SecretOk?
    ensures Preparing(cfg, c, c.status, env) == c
  {
  }

  // The credentials copy is the same whenever a reconcile serializes.
  lemma SecretStays(cfg: Config, c: Cluster, env: Env, d: Cluster)
    requires Copied(cfg, c, c.status, env, d)
    ensures EnsureSecret(d, env).secret == EnsureSecret(c, env).secret
  {
    if Gated(c.status, env).None? && SecretOutcome(c, env).SecretOk? {
      var c1 := EnsureSecret(c, env);
      SecretSettles(c, env, env.now);
      StagingKeepsSecret(cfg, c1, env);
      assert env.(now := env.now) == env;
      SecretSees(c1, d, env);
    } else {
      CopiesUnchanged(cfg, c, env);
    }
  }

  lemma SerializedSame(cfg: Config, codec: Manifests.Codec, others: seq<Serializer.ResourceList>, c: Cluster, env: Env)
    requires env.jobs.Live? && ReconcileResult(cfg, c, c.status, env) != Errored && StagingLabelled(c)
    ensures SerializedAt(cfg, codec, others, Reconcile(cfg, c, c.status, env), env) == SerializedAt(cfg, codec, others, c, env)
  {
    var d := Reconcile(cfg, c, c.status, env);
    if Terminal(c.status.phase) {
      BackupHooks.TerminalIsIgnored(cfg, c, c.status, env);
    } else {
      Leaves(cfg, c, env);
      StagingStaysLabelled(cfg, c, env);
      SecretStays(cfg, c, env, d);
      OwnWritesInvisible(cfg, codec, others, EnsureSecret(d, env), EnsureSecret(c, env));
    }
  }

  /** Quiescence in its own namespace: unless an unlabelled ConfigMap holds the staging name, a reconcile that met no
      error leaves nothing for the next one, though that one serializes the namespace anew. */
  lemma QuietInNamespace(cfg: Config, codec: Manifests.Codec, others: seq<Serializer.ResourceList>, c: Cluster, env: Env, later: int)
    requires env.jobs.Live? && ReconcileResult(cfg, c, c.status, env) != Errored
    requires StagingLabelled(c)
    requires env.serialized == SerializedAt(cfg, codec, others, c, env)
    ensures var d := Reconcile(cfg, c, c.status, env);
            Reconcile(cfg, d, d.status, env.(now := later, serialized := SerializedAt(cfg, codec, others, d, env))) == d
  {
    SerializedSame(cfg, codec, others, c, env);
    SecondReconcileDoesNothing(cfg, c, env, later);
    assert env.(now := later, serialized := env.serialized) == env.(now := later);
  }

  // ---- an unlabelled ConfigMap of the staging name --------------------------------------------------

  // Rendering the ConfigMap spells its payload out, line by line, and more.
  ghost predicate Spells(cfg: Config, codec: Manifests.Codec) {
    forall text :: |codec.encode(Serializer.Stripped(StagingObject(cfg, ConfigMap(text, false))))| > |text|
  }

  lemma {:induction false} JoinedHolds(blocks: seq<seq<string>>, i: nat)
    requires i < |blocks|
    ensures |blocks[i]| <= |Serializer.Joined(blocks)|
  {
    if i > 0 { JoinedHolds(blocks[1..], i - 1); }
  }

  // Some listing of core ConfigMaps succeeds.
  ghost predicate ListsConfigMaps(others: seq<Serializer.ResourceList>) {
    exists i, j | 0 <= i < |others| && 0 <= j < |others[i].resources| ::
      var r := others[i].resources[j];
      && Serializer.GroupOf(others[i].groupVersion) == Some("")
      && r.kind == "ConfigMap" && Serializer.Listable("", r) && r.listing.Items?
  }

  lemma StagingIsFound(cfg: Config, c: Cluster, others: seq<Serializer.ResourceList>)
    requires ListsConfigMaps(others) && c.staging.Some? && !c.staging.value.managed
    requires Serializer.OfLists(Namespace(cfg, c, others)).Some?
    ensures exists f :: f in Serializer.OfLists(Namespace(cfg, c, others)).value && f.obj == StagingObject(cfg, c.staging.value)
  {
    var ns := Namespace(cfg, c, others);
    var obj := StagingObject(cfg, c.staging.value);
    var i, j :| 0 <= i < |others| && 0 <= j < |others[i].resources|
                && Serializer.GroupOf(others[i].groupVersion) == Some("")
                && others[i].resources[j].kind == "ConfigMap" && Serializer.Listable("", others[i].resources[j])
                && others[i].resources[j].listing.Items?;
    var r := ns[i].resources[j];
    LabelIs(StagingName(cfg), false, Manifests.At(obj, "data"));
    var own := OwnObjects(cfg, c, "", "ConfigMap");
    assert own == [obj] && r.listing.objects == others[i].resources[j].listing.objects + own;
    assert own[0] in r.listing.objects;
    var f := Serializer.Found(Serializer.GroupKind("", r.kind), Serializer.NameOf(obj), obj);
    assert ns[i] in ns && r in ns[i].resources && Serializer.OffersIn("", r, f);
    Serializer.OfListsAre(ns, f);
  }

  /** The precondition is needed: an unlabelled ConfigMap of the staging name is serialized into its own payload, so
      every reconcile that gets as far rewrites it, and it stays unlabelled. */
  lemma UnlabelledNeverSettles(cfg: Config, codec: Manifests.Codec, others: seq<Serializer.ResourceList>, c: Cluster, env: Env)
    requires cfg.serializer && Spells(cfg, codec) && ListsConfigMaps(others)
    requires c.staging.Some? && !c.staging.value.managed && !env.stagingMissed
    requires env.serialized == SerializedAt(cfg, codec, others, c, env) && !StagingFails(cfg, c, env)
    ensures var d := EnsureStaging(cfg, EnsureSecret(c, env), env);
            && d.log == EnsureSecret(c, env).log + [StagingWritten]
            && d.staging.Some? && !d.staging.value.managed && d.staging.value.text != c.staging.value.text
  {
    var c1 := EnsureSecret(c, env);
    var ns := Namespace(cfg, c1, others);
    StagingSees(cfg, c, c1, env);
    StagingIsFound(cfg, c1, others);
    var found := Serializer.OfLists(ns).value;
    var sorted := Sort(Serializer.ByKey, found);
    var f :| f in found && f.obj == StagingObject(cfg, c.staging.value);
    SortPermutes(Serializer.ByKey, found);
    var k :| 0 <= k < |sorted| && sorted[k] == f;
    var blocks := Serializer.Blocks(codec, sorted);
    JoinedHolds(blocks, k);
    var text := c.staging.value.text;
    assert c.staging.value == ConfigMap(text, false);
    assert |blocks[k]| > |text|;
    assert |env.serialized.lines| > |text|;
  }
}
