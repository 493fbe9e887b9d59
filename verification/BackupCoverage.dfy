/** BackupCoverage: what a Completed backup means, and when a backup fails. With stable selection and placement every
    selected claim is on the command line of exactly one Job, pinned to the claim's node, and that Job completed. */
module BackupCoverage {
  import opened Strings
  import opened Sorting
  import opened Names
  import opened Reads
  import opened Groups
  import opened Int64
  import opened CommandLines
  import opened BackupSpec
  import BackupController
  import BackupHooks
  import BackupOutcomes

  // ---- launches cover the claims ----------------------------------------------------------------------

  function NamesOf(claims: seq<Claim>): seq<string> {
    seq(|claims|, i requires 0 <= i < |claims| => claims[i].name)
  }

  lemma {:induction false} OnNodeIsGroup(claims: seq<Claim>, nodes: seq<string>, node: string)
    requires |nodes| == |claims|
    ensures OnNode(claims, nodes, node) == Group(NamesOf(claims), nodes, node)
  {
    if claims != [] {
      var n := |claims| - 1;
      OnNodeIsGroup(claims[..n], nodes[..n], node);
      assert NamesOf(claims)[..n] == NamesOf(claims[..n]);
    }
  }

  // All claims on the launches' commands, with multiplicity.
  function Commanded(ls: seq<Launch>): multiset<string> {
    if ls == [] then multiset{} else Commanded(ls[..|ls| - 1]) + multiset(ls[|ls| - 1].pvcs)
  }

  // The launches of the nodes in `order`.
  ghost function LaunchesFor(cfg: Config, claims: seq<Claim>, nodes: seq<string>, order: seq<string>): seq<Launch>
    requires |nodes| == |claims|
  {
    seq(|order|, i requires 0 <= i < |order| =>
      Launch(order[i], cfg.jobName(order[i]), SortStrings(OnNode(claims, nodes, order[i]))))
  }

  lemma {:induction false} CommandedIsGathered(cfg: Config, claims: seq<Claim>, nodes: seq<string>, order: seq<string>)
    requires |nodes| == |claims|
    ensures Commanded(LaunchesFor(cfg, claims, nodes, order)) == Gathered(NamesOf(claims), nodes, order)
  {
    var ls := LaunchesFor(cfg, claims, nodes, order);
    if order != [] {
      var n := |order| - 1;
      CommandedIsGathered(cfg, claims, nodes, order[..n]);
      assert ls[..n] == LaunchesFor(cfg, claims, nodes, order[..n]);
      OnNodeIsGroup(claims, nodes, order[n]);
      SortPermutes(Less, OnNode(claims, nodes, order[n]));
    }
  }

  lemma LaunchesInOrder(cfg: Config, claims: seq<Claim>, nodes: seq<string>)
    requires |nodes| == |claims|
    ensures var order := InOrder(set n | n in nodes);
            && LaunchesOf(cfg, claims, nodes) == LaunchesFor(cfg, claims, nodes, order)
            && Distinct(order) && forall n | n in nodes :: n in order
  {
    var order := InOrder(set n | n in nodes);
    LessIsOrder();
    AscendingDistinct(Less, order);
  }

  // A launch carries the name of its node and exactly the claim occurrences placed there.
  ghost predicate Fits(cfg: Config, claims: seq<Claim>, nodes: seq<string>, l: Launch)
    requires |nodes| == |claims|
  {
    l.name == cfg.jobName(l.node) && multiset(l.pvcs) == multiset(Group(NamesOf(claims), nodes, l.node))
  }

  lemma LaunchFits(cfg: Config, claims: seq<Claim>, nodes: seq<string>, order: seq<string>, i: nat)
    requires |nodes| == |claims| && i < |order|
    ensures var l := LaunchesFor(cfg, claims, nodes, order)[i]; l.node == order[i] && Fits(cfg, claims, nodes, l)
  {
    OnNodeIsGroup(claims, nodes, order[i]);
    SortPermutes(Less, OnNode(claims, nodes, order[i]));
  }

  // One launch per node in node order, and together they command every claim occurrence exactly once.
  lemma LaunchesCover(cfg: Config, claims: seq<Claim>, nodes: seq<string>)
    requires |nodes| == |claims|
    ensures var ls := LaunchesOf(cfg, claims, nodes);
            && Commanded(ls) == multiset(NamesOf(claims))
            && (forall i, j | 0 <= i < j < |ls| :: Less(ls[i].node, ls[j].node))
            && (forall i | 0 <= i < |ls| :: Fits(cfg, claims, nodes, ls[i]))
  {
    var order := InOrder(set n | n in nodes);
    LaunchesInOrder(cfg, claims, nodes);
    CommandedIsGathered(cfg, claims, nodes, order);
    GroupsPartition(NamesOf(claims), nodes, order);
    forall i | 0 <= i < |order|
      ensures var l := LaunchesFor(cfg, claims, nodes, order)[i]; l.node == order[i] && Fits(cfg, claims, nodes, l)
    {
      LaunchFits(cfg, claims, nodes, order, i);
    }
  }

  // ---- failure dominance -------------------------------------------------------------------------------

  lemma {:induction false} FirstFailedIs(placed: seq<PlacedJob>)
    ensures FirstFailed(placed).Some? <==> exists p | p in placed :: p.job.failed
    ensures FirstFailed(placed).Some? ==> FirstFailed(placed).value in placed && FirstFailed(placed).value.job.failed
  {
    if placed != [] {
      FirstFailedIs(placed[1..]);
      assert placed == [placed[0]] + placed[1..];
    }
  }

  /** Once every Job is placed, one Failed Job fails the backup whatever the others are doing, and nothing else fails
      it for that reason; with none failed, the backup runs on exactly while some Job is active. */
  lemma FailureDominates(cfg: Config, env: Env, placed: seq<PlacedJob>)
    ensures var out := Classify(cfg, env, placed);
            && ((out.Fails? && out.reason == JobsFailed) <==> exists p | p in placed :: p.job.failed)
            && (out.RunsOn? <==> (forall p | p in placed :: !p.job.failed) && exists p | p in placed :: !p.job.complete)
            && (out.Completes? ==> forall p | p in placed :: p.job.complete && !p.job.failed)
  {
    FirstFailedIs(placed);
  }

  // ---- results -------------------------------------------------------------------------------------------

  // What a completion reports: each Job's ref, the wrapped total, and the ref of an only Job.
  ghost predicate Sums(placed: seq<PlacedJob>, reports: seq<Report>, entries: seq<JobEntry>, bytes: int, ref: string) {
    && |reports| == |placed| == |entries|
    && (forall i | 0 <= i < |placed| :: entries[i] == JobEntry(placed[i].node, placed[i].name, Ok(reports[i].ref)))
    && bytes == Wrap64(Plain(Bytes(reports)))
    && ref == if |placed| == 1 then reports[0].ref else ""
  }

  lemma CompletionReports(cfg: Config, env: Env, placed: seq<PlacedJob>) returns (reports: seq<Report>)
    requires Classify(cfg, env, placed).Completes?
    ensures var out := Classify(cfg, env, placed); Sums(placed, reports, out.entries, out.bytes, out.ref)
    ensures forall i | 0 <= i < |placed| :: ResultFor(cfg, env, placed[i].name) == Reported(reports[i]) && reports[i].ref != ""
  {
    CollectReports(cfg, env, placed);
    reports := Collect(cfg, env, placed).reports;
    WrapsOnce(Bytes(reports));
  }

  lemma {:induction false} CollectReports(cfg: Config, env: Env, placed: seq<PlacedJob>)
    requires Collect(cfg, env, placed).Collected?
    ensures var reports := Collect(cfg, env, placed).reports;
            forall i | 0 <= i < |placed| ::
              ResultFor(cfg, env, placed[i].name) == Reported(reports[i]) && reports[i].ref != ""
  {
    if placed != [] {
      var n := |placed| - 1;
      CollectReports(cfg, env, placed[..n]);
      var reports := Collect(cfg, env, placed).reports;
      forall i | 0 <= i < |placed|
        ensures ResultFor(cfg, env, placed[i].name) == Reported(reports[i]) && reports[i].ref != ""
      {
        if i < n { assert placed[..n][i] == placed[i]; }
      }
    }
  }

  // ---- which Jobs a launch places --------------------------------------------------------------------

  // Each launch places a Job of its own name: a live one that was seen, or the one it builds.
  ghost predicate PlacedFrom(cfg: Config, c: Cluster, env: Env, l: Launch, p: PlacedJob) {
    && p.node == l.node && p.name == l.name
    && (p.job == NewJob(cfg, l, StagingFor(cfg, env))
        || (p.name in c.jobs && p.job == c.jobs[p.name])
        || (env.jobs.Cached? && p.name in env.jobs.jobs && p.job == env.jobs.jobs[p.name])
        || (env.again.Cached? && p.name in env.again.jobs && p.job == env.again.jobs[p.name]))
  }

  // With distinct names no launch sees what another one created.
  lemma {:induction false} OthersUntouched(cfg: Config, c: Cluster, rs: Status, env: Env, ls: seq<Launch>, name: string)
    requires forall l | l in ls :: l.name != name
    ensures var d := Launching(cfg, c, rs, env, ls);
            (name in d.jobs <==> name in c.jobs) && (name in c.jobs ==> d.jobs[name] == c.jobs[name])
  {
    if ls != [] { OthersUntouched(cfg, c, rs, env, ls[..|ls| - 1], name); }
  }

  ghost predicate DistinctNames(ls: seq<Launch>) {
    forall i, j | 0 <= i < j < |ls| :: ls[i].name != ls[j].name
  }

  // The last launch of a loop that placed them all.
  lemma LastPlaces(cfg: Config, c: Cluster, rs: Status, env: Env, ls: seq<Launch>) returns (p: PlacedJob)
    requires ls != [] && DistinctNames(ls) && LaunchAll(cfg, c, rs, env, ls).AllPlaced?
    ensures var front := LaunchAll(cfg, c, rs, env, ls[..|ls| - 1]);
            front.AllPlaced? && LaunchAll(cfg, c, rs, env, ls).placed == front.placed + [p]
    ensures PlacedFrom(cfg, c, env, ls[|ls| - 1], p)
  {
    var n := |ls| - 1;
    OthersUntouched(cfg, c, rs, env, ls[..n], ls[n].name);
    PlacedByOne(cfg, c, Launching(cfg, c, rs, env, ls[..n]), rs, env, ls[n]);
    p := LaunchAll(cfg, c, rs, env, ls).placed[n];
  }

  ghost predicate PlacedEach(cfg: Config, c: Cluster, env: Env, ls: seq<Launch>, placed: seq<PlacedJob>) {
    |placed| == |ls| && forall i | 0 <= i < |ls| :: PlacedFrom(cfg, c, env, ls[i], placed[i])
  }

  lemma PlacedSnoc(cfg: Config, c: Cluster, env: Env, ls: seq<Launch>, placed: seq<PlacedJob>, p: PlacedJob)
    requires ls != [] && PlacedEach(cfg, c, env, ls[..|ls| - 1], placed) && PlacedFrom(cfg, c, env, ls[|ls| - 1], p)
    ensures PlacedEach(cfg, c, env, ls, placed + [p])
  {
    var n, all := |ls| - 1, placed + [p];
    forall i | 0 <= i < |ls| ensures PlacedFrom(cfg, c, env, ls[i], all[i]) {
      if i < n { assert ls[..n][i] == ls[i] && all[i] == placed[i]; } else { assert all[i] == p; }
    }
  }

  lemma {:induction false} LaunchPlaces(cfg: Config, c: Cluster, rs: Status, env: Env, ls: seq<Launch>)
    requires DistinctNames(ls) && LaunchAll(cfg, c, rs, env, ls).AllPlaced?
    ensures PlacedEach(cfg, c, env, ls, LaunchAll(cfg, c, rs, env, ls).placed)
  {
    if ls != [] {
      var p := LastPlaces(cfg, c, rs, env, ls);
      LaunchPlaces(cfg, c, rs, env, ls[..|ls| - 1]);
      PlacedSnoc(cfg, c, env, ls, LaunchAll(cfg, c, rs, env, ls[..|ls| - 1]).placed, p);
    }
  }

  lemma PlacedByOne(cfg: Config, c: Cluster, d: Cluster, rs: Status, env: Env, l: Launch)
    requires (l.name in d.jobs <==> l.name in c.jobs) && (l.name in c.jobs ==> d.jobs[l.name] == c.jobs[l.name])
    ensures var one := LaunchOne(d, rs, env, l.name);
            one.OneFound? ==> PlacedFrom(cfg, c, env, l, PlacedJob(l.node, l.name, one.job))
  {
  }

  // ---- runs with stable selection and placement ------------------------------------------------------

  datatype Action = Reconciled(read: Status, env: Env) | Environment(jobs: map<string, Job>)

  // Cached Jobs are what some Job was at this or an earlier moment.
  ghost predicate Observed(tr: seq<Cluster>, i: nat, v: View<Job>)
    requires i < |tr|
  {
    v.Cached? ==> forall n | n in v.jobs :: exists j: nat :: j <= i && n in tr[j].jobs && tr[j].jobs[n] == v.jobs[n]
  }

  // Every reconcile that gets to the launches gets to the same ones, with the same staging.
  ghost predicate Stable(cfg: Config, c: Cluster, read: Status, env: Env, ls: seq<Launch>, staging: string) {
    var p := Prepare(cfg, c, read, env);
    p.Goes? ==> p.launches == ls && StagingFor(cfg, env) == staging
  }

  // Nobody else creates Jobs of these names, and a Job's template never changes.
  ghost predicate KeepsPods(c: Cluster, jobs: map<string, Job>, ls: seq<Launch>) {
    forall l | l in ls && l.name in jobs :: l.name in c.jobs && jobs[l.name].pod == c.jobs[l.name].pod
  }

  ghost predicate Moves(cfg: Config, tr: seq<Cluster>, a: Action, i: nat, ls: seq<Launch>, staging: string)
    requires i + 1 < |tr|
  {
    match a
    case Environment(jobs) => KeepsPods(tr[i], jobs, ls) && tr[i + 1] == tr[i].(jobs := jobs)
    case Reconciled(read, env) =>
      && Stable(cfg, tr[i], read, env, ls, staging)
      && Observed(tr, i, env.jobs) && Observed(tr, i, env.again)
      && tr[i + 1] == Reconcile(cfg, tr[i], read, env)
  }

  ghost predicate Run(cfg: Config, tr: seq<Cluster>, acts: seq<Action>, ls: seq<Launch>, staging: string) {
    && |tr| == |acts| + 1 && DistinctNames(ls)
    && (forall l | l in ls :: l.name !in tr[0].jobs)
    && forall i | 0 <= i < |acts| :: Moves(cfg, tr, acts[i], i, ls, staging)
  }

  // Every live Job of a launch's name carries that launch's command.
  ghost predicate Commands(cfg: Config, c: Cluster, ls: seq<Launch>, staging: string) {
    forall l | l in ls && l.name in c.jobs :: c.jobs[l.name].pod == BackupPod(l.node, l.pvcs, staging, cfg.notes)
  }

  lemma {:induction false} LaunchingCommands(cfg: Config, c: Cluster, rs: Status, env: Env, all: seq<Launch>, ls: seq<Launch>)
    requires Commands(cfg, c, all, StagingFor(cfg, env)) && DistinctNames(all) && forall l | l in ls :: l in all
    ensures Commands(cfg, Launching(cfg, c, rs, env, ls), all, StagingFor(cfg, env))
  {
    if ls != [] {
      var n := |ls| - 1;
      LaunchingCommands(cfg, c, rs, env, all, ls[..n]);
      var before := Launching(cfg, c, rs, env, ls[..n]);
      assert ls[n] in all;
      forall l | l in all && l.name == ls[n].name ensures l == ls[n] {
        var i :| 0 <= i < |all| && all[i] == l;
        var j :| 0 <= j < |all| && all[j] == ls[n];
        assert i == j;
      }
    }
  }

  lemma ActedCommands(cfg: Config, c: Cluster, rs: Status, env: Env, ls: seq<Launch>, staging: string)
    requires Commands(cfg, c, ls, staging) && DistinctNames(ls) && Stable(cfg, c, rs, env, ls, staging)
    ensures Commands(cfg, Acted(cfg, c, rs, env), ls, staging)
  {
    BackupHooks.PreparingKeeps(cfg, c, rs, env);
    var p := Prepare(cfg, c, rs, env);
    if p.Goes? {
      var d := Preparing(cfg, c, rs, env);
      LaunchingCommands(cfg, d.(log := d.log + HookEffects(HooksOf(cfg, rs, env, p).ran)), rs, env, ls, p.launches);
    }
  }

  lemma RecordKeepsJobs(cfg: Config, c: Cluster, rs: Status, out: Outcome, env: Env)
    ensures Record(cfg, c, rs, out, env).jobs == c.jobs
  {
  }

  lemma StepCommands(cfg: Config, tr: seq<Cluster>, a: Action, i: nat, ls: seq<Launch>, staging: string)
    requires i + 1 < |tr| && Moves(cfg, tr, a, i, ls, staging) && DistinctNames(ls) && Commands(cfg, tr[i], ls, staging)
    ensures Commands(cfg, tr[i + 1], ls, staging)
  {
    if a.Reconciled? {
      ActedCommands(cfg, tr[i], a.read, a.env, ls, staging);
      RecordKeepsJobs(cfg, Acted(cfg, tr[i], a.read, a.env), a.read, Decide(cfg, tr[i], a.read, a.env), a.env);
    }
  }

  ghost predicate Stays(cfg: Config, tr: seq<Cluster>, ls: seq<Launch>, staging: string, p: nat)
    requires p + 1 < |tr|
  {
    Commands(cfg, tr[p], ls, staging) ==> Commands(cfg, tr[p + 1], ls, staging)
  }

  lemma StepStays(cfg: Config, tr: seq<Cluster>, acts: seq<Action>, ls: seq<Launch>, staging: string, p: nat)
    requires Run(cfg, tr, acts, ls, staging) && p < |acts|
    ensures Stays(cfg, tr, ls, staging, p)
  {
    assert Moves(cfg, tr, acts[p], p, ls, staging);
    if Commands(cfg, tr[p], ls, staging) { StepCommands(cfg, tr, acts[p], p, ls, staging); }
  }

  lemma {:induction false} StaysThroughout(cfg: Config, tr: seq<Cluster>, ls: seq<Launch>, staging: string, i: nat)
    requires i < |tr| && Commands(cfg, tr[0], ls, staging) && forall p: nat | p + 1 < |tr| :: Stays(cfg, tr, ls, staging, p)
    ensures Commands(cfg, tr[i], ls, staging)
  {
    if i > 0 {
      StaysThroughout(cfg, tr, ls, staging, i - 1);
      assert Stays(cfg, tr, ls, staging, i - 1);
    }
  }

  lemma AlwaysCommands(cfg: Config, tr: seq<Cluster>, acts: seq<Action>, ls: seq<Launch>, staging: string, i: nat)
    requires Run(cfg, tr, acts, ls, staging) && i < |tr|
    ensures Commands(cfg, tr[i], ls, staging)
  {
    forall p: nat | p + 1 < |tr| ensures Stays(cfg, tr, ls, staging, p) {
      StepStays(cfg, tr, acts, ls, staging, p);
    }
    StaysThroughout(cfg, tr, ls, staging, i);
  }

  // At this or some earlier moment the launch's Job was live, complete, pinned to its node, and commanded its claims.
  ghost predicate BackedUp(cfg: Config, tr: seq<Cluster>, i: nat, l: Launch, staging: string)
    requires i < |tr|
  {
    exists j: nat :: j <= i && l.name in tr[j].jobs && tr[j].jobs[l.name].complete && !tr[j].jobs[l.name].failed
                     && tr[j].jobs[l.name].pod == BackupPod(l.node, l.pvcs, staging, cfg.notes)
  }

  lemma SeenBackedUp(cfg: Config, tr: seq<Cluster>, acts: seq<Action>, ls: seq<Launch>, staging: string, i: nat, l: Launch, p: PlacedJob)
    requires Run(cfg, tr, acts, ls, staging) && i < |acts| && acts[i].Reconciled? && l in ls
    requires PlacedFrom(cfg, tr[i], acts[i].env, l, p) && p.job.complete && !p.job.failed
    ensures BackedUp(cfg, tr, i, l, staging)
  {
    assert Moves(cfg, tr, acts[i], i, ls, staging);
    var env := acts[i].env;
    var j: nat :| j <= i && l.name in tr[j].jobs && tr[j].jobs[l.name] == p.job;
    AlwaysCommands(cfg, tr, acts, ls, staging, j);
  }

  lemma DecidedByLaunches(cfg: Config, c: Cluster, rs: Status, env: Env)
    requires Decide(cfg, c, rs, env).Completes?
    ensures var p := Prepare(cfg, c, rs, env);
            p.Goes? && LaunchAll(cfg, c, rs, env, p.launches).AllPlaced?
            && Decide(cfg, c, rs, env) == Classify(cfg, env, LaunchAll(cfg, c, rs, env, p.launches).placed)
  {
    BackupController.StopsHow(cfg, c, rs, env);
  }

  /** Coverage. When a reconcile completes a backup, the launches' Jobs have all completed, each with its node's claims
      on its command, and status.jobs lists them in node order. */
  lemma CompletedCovers(cfg: Config, tr: seq<Cluster>, acts: seq<Action>, ls: seq<Launch>, staging: string, i: nat)
    requires Run(cfg, tr, acts, ls, staging) && i < |acts| && acts[i].Reconciled?
    requires Decide(cfg, tr[i], acts[i].read, acts[i].env).Completes?
    ensures var entries := Decide(cfg, tr[i], acts[i].read, acts[i].env).entries;
            && |entries| == |ls|
            && forall k | 0 <= k < |ls| ::
                 BackedUp(cfg, tr, i, ls[k], staging)
                 && entries[k].node == ls[k].node && entries[k].job == ls[k].name && entries[k].state.Ok?
  {
    var c, rs, env := tr[i], acts[i].read, acts[i].env;
    assert Moves(cfg, tr, acts[i], i, ls, staging);
    DecidedByLaunches(cfg, c, rs, env);
    var placed := LaunchAll(cfg, c, rs, env, ls).placed;
    LaunchPlaces(cfg, c, rs, env, ls);
    FailureDominates(cfg, env, placed);
    var reports := CompletionReports(cfg, env, placed);
    forall k | 0 <= k < |ls| ensures BackedUp(cfg, tr, i, ls[k], staging) {
      assert placed[k] in placed;
      SeenBackedUp(cfg, tr, acts, ls, staging, i, ls[k], placed[k]);
    }
  }

  // Untruncated names keep the launches of different nodes apart.
  lemma UntruncatedAreDistinct(cfg: Config, claims: seq<Claim>, nodes: seq<string>)
    requires |nodes| == |claims|
    requires forall n | n in nodes :: cfg.jobName(n) == JobName(cfg.name, n) && !Truncated(cfg.name, n)
    ensures DistinctNames(LaunchesOf(cfg, claims, nodes))
  {
    var ls := LaunchesOf(cfg, claims, nodes);
    var order := InOrder(set n | n in nodes);
    LaunchesInOrder(cfg, claims, nodes);
    forall i, j | 0 <= i < j < |ls| ensures ls[i].name != ls[j].name {
      assert order[i] in order && order[j] in order;
      if ls[i].name == ls[j].name { JobNameInjectiveShort(cfg.name, order[i], order[j]); }
    }
  }

  lemma NodeHasLaunch(cfg: Config, claims: seq<Claim>, nodes: seq<string>, m: nat) returns (k: nat)
    requires |nodes| == |claims| && m < |claims|
    ensures var ls := LaunchesOf(cfg, claims, nodes);
            k < |ls| && ls[k].node == nodes[m] && claims[m].name in ls[k].pvcs
  {
    var order := InOrder(set n | n in nodes);
    LaunchesInOrder(cfg, claims, nodes);
    assert nodes[m] in nodes;
    k :| 0 <= k < |order| && order[k] == nodes[m];
    LaunchFits(cfg, claims, nodes, order, k);
    assert NamesOf(claims)[m] == claims[m].name;
    GroupHolds(NamesOf(claims), nodes, nodes[m], claims[m].name);
    var l := LaunchesFor(cfg, claims, nodes, order)[k];
    assert claims[m].name in multiset(Group(NamesOf(claims), nodes, nodes[m]));
    assert claims[m].name in multiset(l.pvcs);
  }

  // A reconcile that goes on past placement launches one Job per node of the claims it selected.
  lemma LaunchesSelected(cfg: Config, c: Cluster, rs: Status, env: Env, claims: seq<Claim>)
    requires Prepare(cfg, c, rs, env).Goes? && PickFrom(cfg, env) == Picks(claims) && claims != []
    ensures PlaceAll(env, claims).Placed?
    ensures Prepare(cfg, c, rs, env).launches == LaunchesOf(cfg, claims, PlaceAll(env, claims).nodes)
  {
    assert Prepare(cfg, c, rs, env) == PrepareClaims(cfg, env, claims);
    assert PrepareClaims(cfg, env, claims) == PlaceLaunches(cfg, env, claims, env.pods.items);
  }

  /** Every claim a completing reconcile selects was backed up by the completed Job of the node its volume lies on. */
  lemma EveryClaimBackedUp(cfg: Config, tr: seq<Cluster>, acts: seq<Action>, ls: seq<Launch>, staging: string,
                           claims: seq<Claim>, i: nat, m: nat)
    requires Run(cfg, tr, acts, ls, staging) && i < |acts| && acts[i].Reconciled?
    requires Decide(cfg, tr[i], acts[i].read, acts[i].env).Completes?
    requires BackupOutcomes.Selects(cfg, acts[i].env, claims) && m < |claims|
    ensures exists k :: 0 <= k < |ls| && BackupOutcomes.LiesOn(acts[i].env, claims[m], ls[k].node) && claims[m].name in ls[k].pvcs
                        && BackedUp(cfg, tr, i, ls[k], staging)
  {
    var c, rs, env := tr[i], acts[i].read, acts[i].env;
    assert Moves(cfg, tr, acts[i], i, ls, staging);
    DecidedByLaunches(cfg, c, rs, env);
    BackupOutcomes.SelectsExactly(cfg, env);
    LaunchesSelected(cfg, c, rs, env, claims);
    BackupOutcomes.PlacesExactly(env, claims);
    CompletedCovers(cfg, tr, acts, ls, staging, i);
    var k := NodeHasLaunch(cfg, claims, PlaceAll(env, claims).nodes, m);
    assert BackedUp(cfg, tr, i, ls[k], staging);
  }

  // The completed status: the true total exactly when it fits, and a snapshot ref exactly for a single Job.
  lemma CompletedStatus(cfg: Config, rs: Status, env: Env, placed: seq<PlacedJob>)
    requires Classify(cfg, env, placed).Completes? && rs.snapshotRef == ""
    ensures var after := Recorded(cfg, rs, Classify(cfg, env, placed), env.now);
            && (after.snapshotRef != "" <==> |placed| == 1)
            && exists reports: seq<Report> ::
                 |reports| == |placed|
                 && (forall k | 0 <= k < |placed| :: ResultFor(cfg, env, placed[k].name) == Reported(reports[k]))
                 && (after.bytes == Plain(Bytes(reports)) <==> FitsInt64(Plain(Bytes(reports))))
  {
    var reports := CompletionReports(cfg, env, placed);
    WrapsOnce(Bytes(reports));
  }

  // What the agent reads off a launch's command is the launch's claim list, in order.
  lemma AgentBacksUp(l: Launch, staging: string, notes: string, termlogEnv: string)
    requires l.pvcs != [] || staging != ""
    ensures var args := BackupArgsOf(BackupPod(l.node, l.pvcs, staging, notes).command[2..], termlogEnv);
            args.BackupArgs? && args.pvcs == l.pvcs
  {
    BackupArgsRoundTrip(l.node, l.pvcs, staging, notes, termlogEnv);
  }
}
