/** RestorePlans: what a restore plans from the ConfigMap's text and the node list: which claims, each on which node, and what
    keeps it from planning. */
module RestorePlans {
  import opened Wrappers
  import opened Strings
  import opened Reads
  import opened Manifests
  import opened RestoreSpec
  import opened Agreement

  // ---- what pins a claim ------------------------------------------------------------------------------------

  const CONSUMERS: set<string> := {"Deployment", "StatefulSet", "DaemonSet", "Job", "CronJob", "ReplicaSet"}

  function PodSpecOf(d: Doc): Value { At(At(At(d.obj, "spec"), "template"), "spec") }

  // The document is a workload that mounts the claim, or makes it from a claim template of its own.
  predicate Consumes(d: Doc, pvc: string) {
    && d.kind in CONSUMERS
    && ((exists v | v in Items(At(PodSpecOf(d), "volumes")) :: Text(At(At(v, "persistentVolumeClaim"), "claimName")) == pvc)
        || exists t | t in Items(At(At(d.obj, "spec"), "volumeClaimTemplates")) ::
             var name := Text(At(At(t, "metadata"), "name"));
             name != "" && HasPrefix(pvc, name + "-" + d.name + "-"))
  }

  function Hostname(d: Doc): string {
    Text(At(At(PodSpecOf(d), "nodeSelector"), "kubernetes.io/hostname"))
  }

  predicate Pins(d: Doc, pvc: string) {
    Consumes(d, pvc) && Hostname(d) != ""
  }

  lemma {:induction false} NoPinOf(docs: seq<Doc>, pvc: string)
    ensures NodeForPVC(docs, pvc) == "" <==> forall d | d in docs :: PinOf(d, pvc) == ""
  {
    if docs != [] {
      NoPinOf(docs[1..], pvc);
      assert docs == [docs[0]] + docs[1..];
    }
  }

  lemma {:induction false} FirstPinOf(docs: seq<Doc>, pvc: string, i: nat)
    requires i < |docs| && PinOf(docs[i], pvc) != "" && forall j | 0 <= j < i :: PinOf(docs[j], pvc) == ""
    ensures NodeForPVC(docs, pvc) == PinOf(docs[i], pvc)
  {
    if i > 0 { FirstPinOf(docs[1..], pvc, i - 1); }
  }

  lemma PinIs(d: Doc, pvc: string)
    ensures PinOf(d, pvc) == if Consumes(d, pvc) then Hostname(d) else ""
  {
    assert WORKLOAD_KINDS == CONSUMERS;
  }

  lemma PinsIs(d: Doc, pvc: string)
    ensures PinOf(d, pvc) != "" <==> Pins(d, pvc)
    ensures Pins(d, pvc) ==> PinOf(d, pvc) == Hostname(d)
  {
    PinIs(d, pvc);
  }

  // A claim has no node of its own if and only if no workload that consumes it names one.
  lemma UnpinnedExactly(docs: seq<Doc>, pvc: string)
    ensures NodeForPVC(docs, pvc) == "" <==> forall d | d in docs :: !Pins(d, pvc)
  {
    NoPinOf(docs, pvc);
    forall d: Doc ensures PinOf(d, pvc) != "" <==> Pins(d, pvc) { PinsIs(d, pvc); }
  }

  /** A claim goes to the node of the first workload that consumes it and names one. */
  lemma FirstPinDecides(docs: seq<Doc>, pvc: string, i: nat)
    requires i < |docs| && Pins(docs[i], pvc) && forall j | 0 <= j < i :: !Pins(docs[j], pvc)
    ensures NodeForPVC(docs, pvc) == Hostname(docs[i])
  {
    PinsIs(docs[i], pvc);
    forall j | 0 <= j < i ensures PinOf(docs[j], pvc) == "" { PinsIs(docs[j], pvc); }
    FirstPinOf(docs, pvc, i);
  }

  // ---- the plan ------------------------------------------------------------------------------------------------

  // The first claim that no workload pins, while no node is there to fall back to.
  ghost predicate FirstStray(docs: seq<Doc>, pvcs: seq<string>, i: nat) {
    i < |pvcs| && NodeForPVC(docs, pvcs[i]) == "" && forall j | 0 <= j < i :: NodeForPVC(docs, pvcs[j]) != ""
  }

  lemma {:induction false} NoneUnplaced(docs: seq<Doc>, fallback: string, pvcs: seq<string>)
    ensures FirstUnplaced(docs, fallback, pvcs).None? <==> forall p | p in pvcs :: Placement(docs, fallback, p) != ""
  {
    if pvcs != [] {
      NoneUnplaced(docs, fallback, pvcs[1..]);
      assert pvcs[0] in pvcs;
      assert forall p :: p in pvcs <==> p == pvcs[0] || p in pvcs[1..];
    }
  }

  lemma {:induction false} StrayIsFirst(docs: seq<Doc>, pvcs: seq<string>, i: nat)
    requires FirstStray(docs, pvcs, i)
    ensures FirstUnplaced(docs, "", pvcs) == Some(pvcs[i])
  {
    if i > 0 { StrayIsFirst(docs, pvcs[1..], i - 1); }
  }

  // The claims a payload asks to restore.
  function Wanted(cfg: Config, docs: seq<Doc>): seq<string> {
    if ClaimsKept(cfg.dropKinds, cfg.keepKinds) then AllClaims(docs) else []
  }

  /** The plan of a ConfigMap: rejected where its text does not parse; without claims it needs no node; otherwise every claim
      goes to its pin or the first node, and the first claim with neither is told of. */
  lemma PlanExactly(cfg: Config, text: seq<string>, nodes: NodesRead)
    ensures var plan, parsed := PlanOf(cfg, ConfigMap(text), nodes), Parse(cfg.codec, text, cfg.targetNamespace);
            if parsed.Rejected? then plan == PlanRejected(parsed.error)
            else if Wanted(cfg, parsed.docs) == [] then plan == VolumePlan(parsed.docs, "", [])
            else if nodes.NodesFail? then plan.PlanNodesFail?
            else
              && (plan.VolumePlan? || plan.PlanUnplaceable?)
              && (plan.VolumePlan? <==>
                    nodes.node != "" || forall p | p in Wanted(cfg, parsed.docs) :: NodeForPVC(parsed.docs, p) != "")
              && (plan.VolumePlan? ==> plan == VolumePlan(parsed.docs, nodes.node, Wanted(cfg, parsed.docs)))
              && forall i: nat | nodes.node == "" && FirstStray(parsed.docs, Wanted(cfg, parsed.docs), i) ::
                   plan == PlanUnplaceable(Wanted(cfg, parsed.docs)[i])
    ensures PlanOf(cfg, ConfigMapFails, nodes) == PlanUnread && PlanOf(cfg, ConfigMapAbsent, nodes) == PlanMissing
  {
    var parsed := Parse(cfg.codec, text, cfg.targetNamespace);
    if parsed.Parsed? {
      PlannedClaims(cfg.codec, parsed.docs, cfg.dropKinds, cfg.keepKinds);
      if nodes.FirstNode? {
        NoneUnplaced(parsed.docs, nodes.node, Wanted(cfg, parsed.docs));
        forall i: nat | FirstStray(parsed.docs, Wanted(cfg, parsed.docs), i)
          ensures FirstUnplaced(parsed.docs, "", Wanted(cfg, parsed.docs)) == Some(Wanted(cfg, parsed.docs)[i])
        {
          StrayIsFirst(parsed.docs, Wanted(cfg, parsed.docs), i);
        }
      }
    }
  }
}
