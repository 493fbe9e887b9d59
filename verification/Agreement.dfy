/** Agreement: the controller plans volume Jobs from the same text the agent applies, but the two meet only over a
    command line. The claims the volume Jobs mount are exactly the claims the pre-apply Job creates, each node's on
    its own Job; and exactly when the Kind lists could fail to carry this across the comma-joined flags. */
module Agreement {
  import opened Wrappers
  import opened Strings
  import opened Sorting
  import opened Reads
  import opened Groups
  import opened Manifests
  import opened CommandLines
  import opened RestoreSpec
  import opened ApplyAgent

  // ---- the claims of a document list -----------------------------------------------------------------

  function AllClaims(docs: seq<Doc>): seq<string> {
    if docs == [] then []
    else
      var last := docs[|docs| - 1];
      AllClaims(docs[..|docs| - 1]) + (if last.kind == PVC then [last.name] else [])
  }

  // Claims are planned all or not at all: one Kind, one decision.
  predicate ClaimsKept(drop: seq<string>, keep: seq<string>) {
    PVC !in KindSet(drop) || PVC in KindSet(keep)
  }

  lemma ClaimBucket(drop: seq<string>, keep: seq<string>)
    ensures BucketOf(PVC, drop, keep) == if ClaimsKept(drop, keep) then PreVolume else Dropped
  {
  }

  lemma {:induction false} PlannedClaims(codec: Codec, docs: seq<Doc>, drop: seq<string>, keep: seq<string>)
    ensures ClaimNames(InBucket(codec, docs, drop, keep, PreVolume)) == if ClaimsKept(drop, keep) then AllClaims(docs) else []
  {
    if docs != [] {
      var front, last := docs[..|docs| - 1], docs[|docs| - 1];
      PlannedClaims(codec, front, drop, keep);
      ClaimBucket(drop, keep);
      if BucketOf(last.kind, drop, keep) == PreVolume {
        ClaimNamesSnoc(InBucket(codec, front, drop, keep, PreVolume), Planned(codec, last));
      } else {
        assert InBucket(codec, docs, drop, keep, PreVolume) == InBucket(codec, front, drop, keep, PreVolume);
      }
    }
  }

  lemma ClaimNamesSnoc(docs: seq<PlannedDoc>, d: PlannedDoc)
    ensures ClaimNames(docs + [d]) == ClaimNames(docs) + (if d.kind == PVC then [d.name] else [])
  {
    assert (docs + [d])[..|docs|] == docs;
  }

  // ---- what the pre-apply Job applies -----------------------------------------------------------------

  // The Kind lists the agent reads off the apply Job's command line.
  function AgentDrop(cfg: Config): seq<string> { CsvEach(cfg.dropKinds) }

  function AgentKeep(cfg: Config): seq<string> { CsvEach(cfg.keepKinds) }

  // The agent as the pre-apply Job starts it: its arguments parsed off the command, its payload the mounted text, its
  // namespace the one the Job runs in.
  function PreRun(cfg: Config, text: seq<string>, termlogEnv: string, answers: Answers): ApplyAgent.Run {
    var args := ApplyArgsOf(PodOf(PreStep(cfg).work).command[2..], termlogEnv);
    if args.ApplyArgsError? then ApplyAgent.Run(2, Silent, [])
    else RunOf(cfg.codec, Payload(Some(cfg.targetNamespace), Some(text)), args.phase, args.drop, args.keep, answers)
  }

  // The claims among the documents a run has issued for application.
  function IssuedClaims(run: ApplyAgent.Run): seq<string> {
    ClaimNames(DocsOf(run.issued))
  }

  // The lists the agent runs with are what its parser makes of the Job's command.
  lemma AgentReadsLists(cfg: Config, termlogEnv: string)
    ensures var args := ApplyArgsOf(PodOf(PreStep(cfg).work).command[2..], termlogEnv);
            && args.ApplyArgs? && args.phase == "pre" && args.drop == AgentDrop(cfg) && args.keep == AgentKeep(cfg)
  {
    ApplyArgsRoundTrip("pre", ApiName(cfg), cfg.dropKinds, cfg.keepKinds, termlogEnv);
  }

  lemma {:induction false} ClaimNamesAppend(a: seq<PlannedDoc>, b: seq<PlannedDoc>)
    ensures ClaimNames(a + b) == ClaimNames(a) + ClaimNames(b)
  {
    if b == [] {
      assert a + b == a;
    } else {
      var n := |b| - 1;
      assert a + b == a + b[..n] + [b[n]] && b == b[..n] + [b[n]];
      ClaimNamesAppend(a, b[..n]);
      ClaimNamesSnoc(a + b[..n], b[n]);
      ClaimNamesSnoc(b[..n], b[n]);
    }
  }

  lemma {:induction false} NoClaimNames(docs: seq<PlannedDoc>)
    requires forall d | d in docs :: d.kind != PVC
    ensures ClaimNames(docs) == []
  {
    if docs != [] { NoClaimNames(docs[..|docs| - 1]); }
  }

  // Claims are among the pre-volume documents only.
  lemma ClaimsArePreVolume(codec: Codec, docs: seq<Doc>, drop: seq<string>, keep: seq<string>)
    ensures var b := BucketsOf(codec, docs, drop, keep);
            ClaimNames(DocsOf(PhaseCommands("pre", b))) == ClaimNames(b.pre)
  {
    var b := BucketsOf(codec, docs, drop, keep);
    PhaseDocs(b);
    ClaimBucket(drop, keep);
    BucketKinds(codec, docs, drop, keep, Namespaces);
    BucketKinds(codec, docs, drop, keep, Definitions);
    NoClaimNames(b.ns);
    NoClaimNames(b.crds);
    ClaimNamesAppend(b.ns, b.crds);
    ClaimNamesAppend(b.ns + b.crds, b.pre);
  }

  // A run that exits 0 has issued every command of its phase.
  lemma SuccessIssuesAll(cmds: seq<Command>, answers: Answers)
    requires RunCommands(cmds, answers).code == 0
    ensures RunCommands(cmds, answers).issued == cmds
  {
    IssuesPrefix(START, cmds, answers);
    assert [] + cmds[..|cmds|] == cmds;
  }

  // The claims a successful pre-apply run applies: all of the text's, or none.
  lemma PreRunClaims(cfg: Config, text: seq<string>, termlogEnv: string, answers: Answers)
    requires PreRun(cfg, text, termlogEnv, answers).code == 0
    ensures var parsed := Parse(cfg.codec, text, cfg.targetNamespace);
            && parsed.Parsed?
            && IssuedClaims(PreRun(cfg, text, termlogEnv, answers))
               == if ClaimsKept(AgentDrop(cfg), AgentKeep(cfg)) then AllClaims(parsed.docs) else []
  {
    AgentReadsLists(cfg, termlogEnv);
    var docs := Parse(cfg.codec, text, cfg.targetNamespace).docs;
    var b := BucketsOf(cfg.codec, docs, AgentDrop(cfg), AgentKeep(cfg));
    SuccessIssuesAll(PhaseCommands("pre", b), answers);
    ClaimsArePreVolume(cfg.codec, docs, AgentDrop(cfg), AgentKeep(cfg));
    PlannedClaims(cfg.codec, docs, AgentDrop(cfg), AgentKeep(cfg));
  }

  // ---- what the volume Jobs mount -----------------------------------------------------------------------

  function Placements(docs: seq<Doc>, fallback: string, pvcs: seq<string>): seq<string> {
    seq(|pvcs|, i requires 0 <= i < |pvcs| => Placement(docs, fallback, pvcs[i]))
  }

  lemma {:induction false} GroupOfIsGroup(docs: seq<Doc>, fallback: string, pvcs: seq<string>, node: string)
    ensures GroupOf(docs, fallback, pvcs, node) == Group(pvcs, Placements(docs, fallback, pvcs), node)
  {
    if pvcs != [] {
      var n := |pvcs| - 1;
      GroupOfIsGroup(docs, fallback, pvcs[..n], node);
      assert Placements(docs, fallback, pvcs)[..n] == Placements(docs, fallback, pvcs[..n]);
    }
  }

  // All claims mounted by the Jobs of some steps, with multiplicity.
  function Mounted(steps: seq<Step>): multiset<string> {
    if steps == [] then multiset{}
    else Mounted(steps[..|steps| - 1]) + multiset(Claims(PodOf(steps[|steps| - 1].work).volumes))
  }

  ghost function StepsFor(cfg: Config, plan: Plan, order: seq<string>): seq<Step>
    requires plan.VolumePlan?
  {
    seq(|order|, i requires 0 <= i < |order| =>
      VolumeStep(cfg, order[i], GroupOf(plan.docs, plan.fallback, plan.pvcs, order[i])))
  }

  // One volume Job: pinned to its node, mounting exactly the claims placed there.
  ghost predicate MountsItsNode(plan: Plan, s: Step)
    requires plan.VolumePlan?
  {
    && s.work.VolumeWork? && PodOf(s.work).node == Some(s.work.node)
    && multiset(Claims(PodOf(s.work).volumes))
       == multiset(Group(plan.pvcs, Placements(plan.docs, plan.fallback, plan.pvcs), s.work.node))
  }

  lemma VolumeJobMounts(cfg: Config, plan: Plan, node: string)
    requires plan.VolumePlan?
    ensures MountsItsNode(plan, VolumeStep(cfg, node, GroupOf(plan.docs, plan.fallback, plan.pvcs, node)))
  {
    var group := GroupOf(plan.docs, plan.fallback, plan.pvcs, node);
    VolumePodClaims(cfg.snapshotRef, node, SortStrings(group));
    SortPermutes(Less, group);
    GroupOfIsGroup(plan.docs, plan.fallback, plan.pvcs, node);
  }

  lemma {:induction false} MountedIsGathered(cfg: Config, plan: Plan, order: seq<string>)
    requires plan.VolumePlan?
    ensures Mounted(StepsFor(cfg, plan, order)) == Gathered(plan.pvcs, Placements(plan.docs, plan.fallback, plan.pvcs), order)
  {
    if order != [] {
      var n := |order| - 1;
      var front, last := order[..n], order[n];
      var step := VolumeStep(cfg, last, GroupOf(plan.docs, plan.fallback, plan.pvcs, last));
      assert order == front + [last];
      assert StepsFor(cfg, plan, order) == StepsFor(cfg, plan, front) + [step];
      MountedIsGathered(cfg, plan, front);
      MountedSnoc(StepsFor(cfg, plan, front), step);
      GatheredLast(plan.pvcs, Placements(plan.docs, plan.fallback, plan.pvcs), front, last);
      VolumeJobMounts(cfg, plan, last);
    }
  }

  lemma MountedSnoc(steps: seq<Step>, s: Step)
    ensures Mounted(steps + [s]) == Mounted(steps) + multiset(Claims(PodOf(s.work).volumes))
  {
    assert (steps + [s])[..|steps|] == steps;
  }

  // The volume Jobs mount every planned claim exactly once, each node's claims on that node's Job.
  lemma VolumeJobsMountPlan(cfg: Config, plan: Plan)
    requires plan.VolumePlan?
    ensures Mounted(VolumeSteps(cfg, plan)) == multiset(plan.pvcs)
    ensures forall i | 0 <= i < |VolumeSteps(cfg, plan)| :: MountsItsNode(plan, VolumeSteps(cfg, plan)[i])
    ensures forall i, j | 0 <= i < j < |VolumeSteps(cfg, plan)| ::
              VolumeSteps(cfg, plan)[i].work.VolumeWork? && VolumeSteps(cfg, plan)[j].work.VolumeWork?
              && Less(VolumeSteps(cfg, plan)[i].work.node, VolumeSteps(cfg, plan)[j].work.node)
  {
    var order := InOrder(PlanNodes(plan.docs, plan.fallback, plan.pvcs));
    OrderCovers(plan);
    assert VolumeSteps(cfg, plan) == StepsFor(cfg, plan, order);
    MountedIsGathered(cfg, plan, order);
    GroupsPartition(plan.pvcs, Placements(plan.docs, plan.fallback, plan.pvcs), order);
    forall i | 0 <= i < |order| ensures MountsItsNode(plan, StepsFor(cfg, plan, order)[i]) {
      VolumeJobMounts(cfg, plan, order[i]);
    }
  }

  lemma OrderCovers(plan: Plan)
    requires plan.VolumePlan?
    ensures var order := InOrder(PlanNodes(plan.docs, plan.fallback, plan.pvcs));
            Distinct(order) && forall k | k in Placements(plan.docs, plan.fallback, plan.pvcs) :: k in order
  {
    var order := InOrder(PlanNodes(plan.docs, plan.fallback, plan.pvcs));
    LessIsOrder();
    AscendingDistinct(Less, order);
    var at := Placements(plan.docs, plan.fallback, plan.pvcs);
    forall k | k in at ensures k in order {
      var i :| 0 <= i < |at| && at[i] == k;
      assert plan.pvcs[i] in plan.pvcs;
    }
  }

  // ---- the two sides -------------------------------------------------------------------------------------

  // The plan's claims are the controller's reading of the same text.
  lemma PlanIsOfText(cfg: Config, text: seq<string>, nodes: NodesRead)
    requires PlanOf(cfg, ConfigMap(text), nodes).VolumePlan?
    ensures var plan, parsed := PlanOf(cfg, ConfigMap(text), nodes), Parse(cfg.codec, text, cfg.targetNamespace);
            && parsed.Parsed? && plan.docs == parsed.docs
            && plan.pvcs == (if ClaimsKept(cfg.dropKinds, cfg.keepKinds) then AllClaims(parsed.docs) else [])
  {
    PlannedClaims(cfg.codec, Parse(cfg.codec, text, cfg.targetNamespace).docs, cfg.dropKinds, cfg.keepKinds);
  }

  /** Agreement, exactly: the claims the volume Jobs mount are a permutation of the claims a successful pre-apply run on
      the same text has applied, if and only if both sides make the same decision on the claim Kind, or there is no
      claim to decide on. */
  lemma SidesAgreeExactly(cfg: Config, text: seq<string>, nodes: NodesRead, termlogEnv: string, answers: Answers)
    requires PlanOf(cfg, ConfigMap(text), nodes).VolumePlan?
    requires PreRun(cfg, text, termlogEnv, answers).code == 0
    ensures var plan := PlanOf(cfg, ConfigMap(text), nodes);
            Mounted(VolumeSteps(cfg, plan)) == multiset(IssuedClaims(PreRun(cfg, text, termlogEnv, answers))) <==>
              || AllClaims(plan.docs) == []
              || ClaimsKept(cfg.dropKinds, cfg.keepKinds) == ClaimsKept(AgentDrop(cfg), AgentKeep(cfg))
  {
    var plan := PlanOf(cfg, ConfigMap(text), nodes);
    PlanIsOfText(cfg, text, nodes);
    VolumeJobsMountPlan(cfg, plan);
    PreRunClaims(cfg, text, termlogEnv, answers);
    if AllClaims(plan.docs) != [] {
      assert |multiset(AllClaims(plan.docs))| > 0;
      assert multiset(AllClaims(plan.docs)) != multiset([]);
    }
  }

  ghost predicate ListsCarry(cfg: Config) {
    (forall k | k in cfg.dropKinds :: Carriable(k)) && (forall k | k in cfg.keepKinds :: Carriable(k))
  }

  /** With Kind lists of nonempty, trimmed, comma-free entries the sides always agree. */
  lemma SidesAgree(cfg: Config, text: seq<string>, nodes: NodesRead, termlogEnv: string, answers: Answers)
    requires PlanOf(cfg, ConfigMap(text), nodes).VolumePlan? && ListsCarry(cfg)
    requires PreRun(cfg, text, termlogEnv, answers).code == 0
    ensures var plan := PlanOf(cfg, ConfigMap(text), nodes);
            Mounted(VolumeSteps(cfg, plan)) == multiset(IssuedClaims(PreRun(cfg, text, termlogEnv, answers)))
  {
    CarriableListSurvives(cfg.dropKinds);
    CarriableListSurvives(cfg.keepKinds);
    SidesAgreeExactly(cfg, text, nodes, termlogEnv, answers);
  }

  lemma PaddedReads(kind: string)
    requires kind != "" && Trimmed(kind) && ',' !in kind
    ensures Csv(" " + kind) == [kind]
  {
    var padded := " " + kind;
    SplitWithout(padded, ',');
    assert padded[1..] == kind;
    TrimSpaceFacts(kind);
    assert TrimLeft(padded) == TrimLeft(kind);
    assert [padded][..0] == [] && Cleaned([padded]) == [] + [kind];
  }

  // A leading space is enough: the controller plans the claims, the agent drops them.
  lemma SpaceDisagrees(cfg: Config)
    requires cfg.dropKinds == [" " + PVC] && cfg.keepKinds == []
    ensures ClaimsKept(cfg.dropKinds, cfg.keepKinds) && !ClaimsKept(AgentDrop(cfg), AgentKeep(cfg))
  {
    assert PVC[0] == 'P' && PVC[|PVC| - 1] == 'm' && (" " + PVC)[0] == ' ';
    PaddedReads(PVC);
    assert cfg.dropKinds[1..] == [] && CsvEach(cfg.dropKinds) == [PVC] + [];
    assert PVC in KindSet([PVC]);
  }
}
