/** AppliedDocs: which documents the two apply phases issue, told by their Kinds alone, and how a run ends. */
module AppliedDocs {
  import opened Manifests
  import opened ApplyAgent

  // ---- Kinds: the tables, apart from those the code looks things up in -------------------------------------

  const WORKLOADS: set<string> := {"Deployment", "StatefulSet", "DaemonSet", "Job", "CronJob", "ReplicaSet"}
  const NEVER_RESTORED: set<string> := {"Pod", "Endpoints", "EndpointSlice", "PodMetrics", "ControllerRevision"}

  // Keep wins over drop, but restores none of the five.
  predicate Dropped(kind: string, drop: seq<string>, keep: seq<string>) {
    kind in NEVER_RESTORED || (kind in drop && kind !in keep)
  }

  lemma BucketIs(kind: string, drop: seq<string>, keep: seq<string>)
    ensures var b := BucketOf(kind, drop, keep);
            && (b.Dropped? <==> Dropped(kind, drop, keep))
            && (b.Namespaces? <==> !Dropped(kind, drop, keep) && kind == "Namespace")
            && (b.Definitions? <==> !Dropped(kind, drop, keep) && kind == "CustomResourceDefinition")
            && (b.Workloads? <==> !Dropped(kind, drop, keep) && kind in WORKLOADS)
  {
  }

  // The documents of the Kinds that are wanted, rendered, in source order.
  function Chosen(codec: Codec, docs: seq<Doc>, wanted: string -> bool): seq<PlannedDoc> {
    if docs == [] then []
    else
      (if wanted(docs[0].kind) then [PlannedDoc(docs[0].kind, docs[0].name, codec.encode(docs[0].obj))] else [])
      + Chosen(codec, docs[1..], wanted)
  }

  lemma {:induction false} ChosenSnoc(codec: Codec, docs: seq<Doc>, d: Doc, wanted: string -> bool)
    ensures Chosen(codec, docs + [d], wanted)
            == Chosen(codec, docs, wanted) + (if wanted(d.kind) then [PlannedDoc(d.kind, d.name, codec.encode(d.obj))] else [])
  {
    if docs == [] {
      assert [d][1..] == [] && [] + [d] == [d];
    } else {
      assert (docs + [d])[1..] == docs[1..] + [d];
      ChosenSnoc(codec, docs[1..], d, wanted);
    }
  }

  lemma {:induction false} InBucketIsChosen(codec: Codec, docs: seq<Doc>, drop: seq<string>, keep: seq<string>, b: Bucket,
                                            wanted: string -> bool)
    requires forall kind :: wanted(kind) <==> BucketOf(kind, drop, keep) == b
    ensures InBucket(codec, docs, drop, keep, b) == Chosen(codec, docs, wanted)
  {
    if docs != [] {
      var front, last := docs[..|docs| - 1], docs[|docs| - 1];
      assert docs == front + [last];
      InBucketIsChosen(codec, front, drop, keep, b, wanted);
      ChosenSnoc(codec, front, last, wanted);
    }
  }

  // Which Kinds go where: namespaces, definitions, workloads, and the rest, which volumes may need.
  function NamespaceKind(drop: seq<string>, keep: seq<string>): string -> bool {
    kind => kind == "Namespace" && !Dropped(kind, drop, keep)
  }

  function DefinitionKind(drop: seq<string>, keep: seq<string>): string -> bool {
    kind => kind == "CustomResourceDefinition" && !Dropped(kind, drop, keep)
  }

  function WorkloadKind(drop: seq<string>, keep: seq<string>): string -> bool {
    kind => kind in WORKLOADS && !Dropped(kind, drop, keep)
  }

  function OtherKind(drop: seq<string>, keep: seq<string>): string -> bool {
    kind => kind !in WORKLOADS && kind != "Namespace" && kind != "CustomResourceDefinition" && !Dropped(kind, drop, keep)
  }

  function PreDocs(codec: Codec, docs: seq<Doc>, drop: seq<string>, keep: seq<string>): seq<PlannedDoc> {
    Chosen(codec, docs, NamespaceKind(drop, keep)) + Chosen(codec, docs, DefinitionKind(drop, keep))
    + Chosen(codec, docs, OtherKind(drop, keep))
  }

  function WorkDocs(codec: Codec, docs: seq<Doc>, drop: seq<string>, keep: seq<string>): seq<PlannedDoc> {
    Chosen(codec, docs, WorkloadKind(drop, keep))
  }

  // What the phases would issue, were no command to fail.
  lemma PhaseDocsAre(codec: Codec, docs: seq<Doc>, drop: seq<string>, keep: seq<string>)
    ensures var b := BucketsOf(codec, docs, drop, keep);
            && DocsOf(PhaseCommands("pre", b)) == PreDocs(codec, docs, drop, keep)
            && DocsOf(PhaseCommands("workload", b)) == WorkDocs(codec, docs, drop, keep)
  {
    PhaseDocs(BucketsOf(codec, docs, drop, keep));
    forall kind
      ensures NamespaceKind(drop, keep)(kind) <==> BucketOf(kind, drop, keep) == Namespaces
      ensures DefinitionKind(drop, keep)(kind) <==> BucketOf(kind, drop, keep) == Definitions
      ensures OtherKind(drop, keep)(kind) <==> BucketOf(kind, drop, keep) == PreVolume
      ensures WorkloadKind(drop, keep)(kind) <==> BucketOf(kind, drop, keep) == Workloads
    {
      BucketIs(kind, drop, keep);
    }
    InBucketIsChosen(codec, docs, drop, keep, Namespaces, NamespaceKind(drop, keep));
    InBucketIsChosen(codec, docs, drop, keep, Definitions, DefinitionKind(drop, keep));
    InBucketIsChosen(codec, docs, drop, keep, PreVolume, OtherKind(drop, keep));
    InBucketIsChosen(codec, docs, drop, keep, Workloads, WorkloadKind(drop, keep));
  }

  lemma {:induction false} ChosenAre(codec: Codec, docs: seq<Doc>, wanted: string -> bool, p: PlannedDoc)
    ensures p in Chosen(codec, docs, wanted) <==>
              wanted(p.kind) && exists d | d in docs :: p == PlannedDoc(d.kind, d.name, codec.encode(d.obj))
  {
    if docs != [] {
      ChosenAre(codec, docs[1..], wanted, p);
      assert docs == [docs[0]] + docs[1..];
    }
  }

  // The document comes from the payload, rendered.
  ghost predicate Rendered(codec: Codec, docs: seq<Doc>, p: PlannedDoc) {
    exists d | d in docs :: p == PlannedDoc(d.kind, d.name, codec.encode(d.obj))
  }

  lemma PreKinds(kind: string, drop: seq<string>, keep: seq<string>)
    ensures NamespaceKind(drop, keep)(kind) || DefinitionKind(drop, keep)(kind) || OtherKind(drop, keep)(kind) <==>
              kind !in WORKLOADS && !Dropped(kind, drop, keep)
  {
  }

  lemma PreDocsAre(codec: Codec, docs: seq<Doc>, drop: seq<string>, keep: seq<string>, p: PlannedDoc)
    ensures p in PreDocs(codec, docs, drop, keep) <==>
              p.kind !in WORKLOADS && !Dropped(p.kind, drop, keep) && Rendered(codec, docs, p)
  {
    PreKinds(p.kind, drop, keep);
    ChosenAre(codec, docs, NamespaceKind(drop, keep), p);
    ChosenAre(codec, docs, DefinitionKind(drop, keep), p);
    ChosenAre(codec, docs, OtherKind(drop, keep), p);
  }

  lemma WorkDocsAre(codec: Codec, docs: seq<Doc>, drop: seq<string>, keep: seq<string>, p: PlannedDoc)
    ensures p in WorkDocs(codec, docs, drop, keep) <==>
              p.kind in WORKLOADS && !Dropped(p.kind, drop, keep) && Rendered(codec, docs, p)
  {
    ChosenAre(codec, docs, WorkloadKind(drop, keep), p);
  }

  // ---- what a run issues, failing or not ------------------------------------------------------------------

  lemma {:induction false} PrefixDocs(cmds: seq<Command>, k: nat, p: PlannedDoc)
    requires k <= |cmds| && p in DocsOf(cmds[..k])
    ensures p in DocsOf(cmds)
    decreases |cmds|
  {
    if k < |cmds| {
      var front := cmds[..|cmds| - 1];
      assert cmds[..k] == front[..k];
      PrefixDocs(front, k, p);
    } else {
      assert cmds[..k] == cmds;
    }
  }

  lemma IssuedIsPlanned(cmds: seq<Command>, answers: Answers, p: PlannedDoc)
    requires p in DocsOf(RunCommands(cmds, answers).issued)
    ensures p in DocsOf(cmds)
  {
    IssuesPrefix(START, cmds, answers);
    var k := IssuedCount(START, cmds, answers);
    assert [] + cmds[..k] == cmds[..k];
    PrefixDocs(cmds, k, p);
  }

  lemma RunIssues(codec: Codec, p: Payload, phase: string, drop: seq<string>, keep: seq<string>, answers: Answers, d: PlannedDoc)
    requires phase == "pre" || phase == "workload"
    requires d in DocsOf(RunOf(codec, p, phase, drop, keep, answers).issued)
    ensures p.namespace.Some? && p.file.Some? && Parse(codec, p.file.value, p.namespace.value).Parsed?
    ensures var docs := Parse(codec, p.file.value, p.namespace.value).docs;
            d in if phase == "pre" then PreDocs(codec, docs, drop, keep) else WorkDocs(codec, docs, drop, keep)
  {
    var docs := Parse(codec, p.file.value, p.namespace.value).docs;
    IssuedIsPlanned(PhaseCommands(phase, BucketsOf(codec, docs, drop, keep)), answers, d);
    PhaseDocsAre(codec, docs, drop, keep);
  }

  /** No run issues a document of the other phase, or a dropped one: a pre run never issues a workload, and a workload run
      nothing else. */
  lemma IssuesOnlyItsKinds(codec: Codec, p: Payload, drop: seq<string>, keep: seq<string>, answers: Answers)
    ensures forall d | d in DocsOf(RunOf(codec, p, "pre", drop, keep, answers).issued) ::
              d.kind !in WORKLOADS && !Dropped(d.kind, drop, keep)
    ensures forall d | d in DocsOf(RunOf(codec, p, "workload", drop, keep, answers).issued) ::
              d.kind in WORKLOADS && !Dropped(d.kind, drop, keep)
  {
    forall d | d in DocsOf(RunOf(codec, p, "pre", drop, keep, answers).issued)
      ensures d.kind !in WORKLOADS && !Dropped(d.kind, drop, keep)
    {
      RunIssues(codec, p, "pre", drop, keep, answers, d);
      PreDocsAre(codec, Parse(codec, p.file.value, p.namespace.value).docs, drop, keep, d);
    }
    forall d | d in DocsOf(RunOf(codec, p, "workload", drop, keep, answers).issued)
      ensures d.kind in WORKLOADS && !Dropped(d.kind, drop, keep)
    {
      RunIssues(codec, p, "workload", drop, keep, answers, d);
      WorkDocsAre(codec, Parse(codec, p.file.value, p.namespace.value).docs, drop, keep, d);
    }
  }

  /** A run that exits 0 has issued exactly its phase's documents: namespaces, then definitions, then what else is kept and
      is no workload; or the workloads that are kept; each in source order. */
  lemma IssuesInOrder(codec: Codec, p: Payload, phase: string, drop: seq<string>, keep: seq<string>, answers: Answers)
    requires RunOf(codec, p, phase, drop, keep, answers).code == 0
    ensures p.namespace.Some? && p.file.Some? && Parse(codec, p.file.value, p.namespace.value).Parsed?
    ensures phase == "pre" || phase == "workload"
    ensures var docs := Parse(codec, p.file.value, p.namespace.value).docs;
            DocsOf(RunOf(codec, p, phase, drop, keep, answers).issued) ==
              if phase == "pre" then PreDocs(codec, docs, drop, keep) else WorkDocs(codec, docs, drop, keep)
  {
    var docs := Parse(codec, p.file.value, p.namespace.value).docs;
    var cmds := PhaseCommands(phase, BucketsOf(codec, docs, drop, keep));
    IssuesPrefix(START, cmds, answers);
    assert [] + cmds[..|cmds|] == cmds;
    PhaseDocsAre(codec, docs, drop, keep);
  }

  /** Every document of the payload is issued by the one phase that its Kind calls for, unless its Kind is one of the five
      never restored, or is dropped and not kept. */
  lemma AppliesExactly(codec: Codec, p: Payload, drop: seq<string>, keep: seq<string>, first: Answers, second: Answers, d: Doc)
    requires RunOf(codec, p, "pre", drop, keep, first).code == 0 && RunOf(codec, p, "workload", drop, keep, second).code == 0
    requires p.namespace.Some? && p.file.Some? && Parse(codec, p.file.value, p.namespace.value).Parsed?
    requires d in Parse(codec, p.file.value, p.namespace.value).docs
    ensures var planned := PlannedDoc(d.kind, d.name, codec.encode(d.obj));
            && (planned in DocsOf(RunOf(codec, p, "pre", drop, keep, first).issued) <==>
                  d.kind !in WORKLOADS && !Dropped(d.kind, drop, keep))
            && (planned in DocsOf(RunOf(codec, p, "workload", drop, keep, second).issued) <==>
                  d.kind in WORKLOADS && !Dropped(d.kind, drop, keep))
  {
    var planned := PlannedDoc(d.kind, d.name, codec.encode(d.obj));
    var docs := Parse(codec, p.file.value, p.namespace.value).docs;
    IssuesInOrder(codec, p, "pre", drop, keep, first);
    IssuesInOrder(codec, p, "workload", drop, keep, second);
    PreDocsAre(codec, docs, drop, keep, planned);
    WorkDocsAre(codec, docs, drop, keep, planned);
  }

  // ---- how a run ends -------------------------------------------------------------------------------------

  // The payload is there and parses.
  predicate Readable(codec: Codec, p: Payload) {
    p.namespace.Some? && p.file.Some? && Parse(codec, p.file.value, p.namespace.value).Parsed?
  }

  // The n-th command went through: kubectl exited 0, and the file of an apply could be written.
  ghost predicate WentThrough(cmd: Command, answers: Answers, n: nat) {
    answers(n).code == 0 && (cmd.Apply? ==> answers(n).written)
  }

  lemma {:induction false} FailureEnds(p: Progress, cmds: seq<Command>, answers: Answers)
    requires !AllSucceed(p, cmds, answers)
    ensures var k := IssuedCount(p, cmds, answers);
            || (k > 0 && answers(p.step + k - 1).code != 0)
            || (k < |cmds| && cmds[k].Apply? && !answers(p.step + k).written)
    ensures Try(p, cmds, answers).termlog.ErrorLog?
    decreases |cmds|
  {
    AllSucceedTail(p, cmds, answers);
    if Succeeds(cmds[0], answers(p.step)) { FailureEnds(Advance(p, cmds[0]), cmds[1..], answers); }
  }

  /** How a run ends: 2 for a phase it does not know, 0 with the number of documents when every command it issued went
      through, and 1 otherwise, for an unreadable payload or the command that failed, with an error in the log. */
  lemma ExitsExactly(codec: Codec, p: Payload, phase: string, drop: seq<string>, keep: seq<string>, answers: Answers)
    ensures var run := RunOf(codec, p, phase, drop, keep, answers);
            && (run.code == 2 <==> Readable(codec, p) && phase != "pre" && phase != "workload")
            && (run.code != 2 && !Readable(codec, p) ==> run.code == 1 && run.issued == [])
            && (run.code == 0 ==>
                  && run.termlog == AppliedLog(|DocsOf(run.issued)|)
                  && forall i | 0 <= i < |run.issued| :: WentThrough(run.issued[i], answers, i))
            && (run.code != 0 ==> run.termlog.ErrorLog?)
            && (run.code == 1 && Readable(codec, p) ==>
                  var n := |run.issued|; (n > 0 && answers(n - 1).code != 0) || !answers(n).written)
            && run.code in {0, 1, 2}
  {
    if Readable(codec, p) && (phase == "pre" || phase == "workload") {
      var docs := Parse(codec, p.file.value, p.namespace.value).docs;
      var cmds := PhaseCommands(phase, BucketsOf(codec, docs, drop, keep));
      CommandsEnd(cmds, answers);
    }
  }

  lemma CommandsEnd(cmds: seq<Command>, answers: Answers)
    ensures var run := RunCommands(cmds, answers);
            if run.code == 0 then
              && run.termlog == AppliedLog(|DocsOf(run.issued)|)
              && forall i | 0 <= i < |run.issued| :: WentThrough(run.issued[i], answers, i)
            else
              && run.code == 1 && run.termlog.ErrorLog?
              && var n := |run.issued|; (n > 0 && answers(n - 1).code != 0) || !answers(n).written
  {
    IssuesPrefix(START, cmds, answers);
    var k := IssuedCount(START, cmds, answers);
    assert [] + cmds[..k] == cmds[..k];
    if AllSucceed(START, cmds, answers) {
      assert cmds[..k] == cmds;
      CountsDocs(START, cmds, answers);
      forall i | 0 <= i < |cmds| ensures WentThrough(cmds[i], answers, i) {
        assert Succeeds(cmds[i], answers(START.step + i));
      }
    } else {
      FailureEnds(START, cmds, answers);
    }
  }
}
