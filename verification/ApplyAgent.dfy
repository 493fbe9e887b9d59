/** ApplyAgent: the apply-manifests subcommand. One phase is a list of kubectl commands issued until one fails; the two
    phases of one payload together apply every kept document exactly once, and the documents volumes need only after
    every CustomResourceDefinition was applied and awaited. */
module ApplyAgent {
  import opened Wrappers
  import opened Strings
  import opened Manifests

  // ---- commands ---------------------------------------------------------------------------------------

  // kubectl apply of one temporary file, and kubectl wait for one definition.
  datatype Command = Apply(docs: seq<PlannedDoc>) | Await(crd: string)

  // The fate of the n-th command: whether its temporary file could be written, and kubectl's exit code.
  datatype Answer = Answer(written: bool, code: int)
  type Answers = nat -> Answer

  // Only an apply needs a file.
  predicate Issues(cmd: Command, a: Answer) {
    cmd.Apply? ==> a.written
  }

  predicate Succeeds(cmd: Command, a: Answer) {
    Issues(cmd, a) && a.code == 0
  }

  function ApplyStep(docs: seq<PlannedDoc>): seq<Command> {
    if docs == [] then [] else [Apply(docs)]
  }

  function Awaits(crds: seq<PlannedDoc>): seq<Command> {
    seq(|crds|, i requires 0 <= i < |crds| => Await(crds[i].name))
  }

  datatype Buckets = Buckets(ns: seq<PlannedDoc>, crds: seq<PlannedDoc>, pre: seq<PlannedDoc>, work: seq<PlannedDoc>)

  function BucketsOf(codec: Codec, docs: seq<Doc>, drop: seq<string>, keep: seq<string>): Buckets {
    Buckets(InBucket(codec, docs, drop, keep, Namespaces), InBucket(codec, docs, drop, keep, Definitions),
            InBucket(codec, docs, drop, keep, PreVolume), InBucket(codec, docs, drop, keep, Workloads))
  }

  // The commands of a phase, were none to fail.
  function PreCommands(b: Buckets): seq<Command> {
    ApplyStep(b.ns) + ApplyStep(b.crds) + Awaits(b.crds) + ApplyStep(b.pre)
  }

  function PhaseCommands(phase: string, b: Buckets): seq<Command> {
    if phase == "pre" then PreCommands(b) else ApplyStep(b.work)
  }

  // ---- one run ------------------------------------------------------------------------------------------

  datatype Failure = NoNamespace | NoFile | BadPayload(error: ParseError) | ApplyFailed | NotEstablished(crd: string) | BadPhase
  datatype Termlog = Silent | ErrorLog(failure: Failure) | AppliedLog(n: nat)

  // The commands issued so far, how many were tried, and the documents applied.
  datatype Progress = Progress(issued: seq<Command>, step: nat, applied: nat, termlog: Termlog)

  const START := Progress([], 0, 0, Silent)

  function FailureAt(cmd: Command): Failure {
    match cmd
    case Apply(_) => ApplyFailed
    case Await(crd) => NotEstablished(crd)
  }

  function DocCount(cmd: Command): nat {
    if cmd.Apply? then |cmd.docs| else 0
  }

  function Advance(p: Progress, cmd: Command): Progress {
    p.(issued := p.issued + [cmd], step := p.step + 1, applied := p.applied + DocCount(cmd))
  }

  function Stop(p: Progress, cmd: Command, a: Answer): Progress {
    p.(issued := p.issued + (if Issues(cmd, a) then [cmd] else []), termlog := ErrorLog(FailureAt(cmd)))
  }

  // All commands in order, until one fails.
  predicate AllSucceed(p: Progress, cmds: seq<Command>, answers: Answers) {
    forall i | 0 <= i < |cmds| :: Succeeds(cmds[i], answers(p.step + i))
  }

  function Try(p: Progress, cmds: seq<Command>, answers: Answers): Progress
    decreases |cmds|
  {
    if cmds == [] then p
    else if Succeeds(cmds[0], answers(p.step)) then Try(Advance(p, cmds[0]), cmds[1..], answers)
    else Stop(p, cmds[0], answers(p.step))
  }

  datatype Payload = Payload(namespace: Option<string>, file: Option<seq<string>>)

  // Exit code, termination log and issued commands of a whole run.
  datatype Run = Run(code: int, termlog: Termlog, issued: seq<Command>)

  function RunOf(codec: Codec, p: Payload, phase: string, drop: seq<string>, keep: seq<string>, answers: Answers): Run {
    if p.namespace.None? then Run(1, ErrorLog(NoNamespace), [])
    else if p.file.None? then Run(1, ErrorLog(NoFile), [])
    else
      var parsed := Parse(codec, p.file.value, p.namespace.value);
      if parsed.Rejected? then Run(1, ErrorLog(BadPayload(parsed.error)), [])
      else if phase != "pre" && phase != "workload" then Run(2, ErrorLog(BadPhase), [])
      else RunCommands(PhaseCommands(phase, BucketsOf(codec, parsed.docs, drop, keep)), answers)
  }

  function RunCommands(cmds: seq<Command>, answers: Answers): Run {
    var end := Try(START, cmds, answers);
    if AllSucceed(START, cmds, answers) then Run(0, AppliedLog(end.applied), end.issued) else Run(1, end.termlog, end.issued)
  }

  // ---- the agent ----------------------------------------------------------------------------------------

  lemma {:induction false} TryAppend(p: Progress, a: seq<Command>, b: seq<Command>, answers: Answers)
    ensures AllSucceed(p, a, answers) ==> Try(p, a, answers).step == p.step + |a|
    ensures AllSucceed(p, a + b, answers) <==> AllSucceed(p, a, answers) && AllSucceed(Try(p, a, answers), b, answers)
    ensures Try(p, a + b, answers) ==
            if AllSucceed(p, a, answers) then Try(Try(p, a, answers), b, answers) else Try(p, a, answers)
    decreases |a|
  {
    if a == [] {
      assert a + b == b;
    } else {
      assert (a + b)[1..] == a[1..] + b && a == [a[0]] + a[1..];
      var next := Advance(p, a[0]);
      AllSucceedTail(p, a, answers);
      AllSucceedTail(p, a + b, answers);
      TryAppend(next, a[1..], b, answers);
    }
  }

  lemma AllSucceedTail(p: Progress, cmds: seq<Command>, answers: Answers)
    requires cmds != []
    ensures AllSucceed(p, cmds, answers) <==>
              Succeeds(cmds[0], answers(p.step)) && AllSucceed(Advance(p, cmds[0]), cmds[1..], answers)
  {
    var next := Advance(p, cmds[0]);
    if Succeeds(cmds[0], answers(p.step)) && AllSucceed(next, cmds[1..], answers) {
      forall i | 0 <= i < |cmds| ensures Succeeds(cmds[i], answers(p.step + i)) {
        if i > 0 { assert Succeeds(cmds[1..][i - 1], answers(next.step + (i - 1))); }
      }
    }
    if AllSucceed(p, cmds, answers) {
      forall i | 0 <= i < |cmds[1..]| ensures Succeeds(cmds[1..][i], answers(next.step + i)) {
        assert Succeeds(cmds[i + 1], answers(p.step + (i + 1)));
      }
    }
  }

  lemma TryOne(p: Progress, cmd: Command, answers: Answers)
    ensures AllSucceed(p, [cmd], answers) <==> Succeeds(cmd, answers(p.step))
    ensures Try(p, [cmd], answers) == if Succeeds(cmd, answers(p.step)) then Advance(p, cmd) else Stop(p, cmd, answers(p.step))
  {
    assert [cmd][1..] == [];
    if Succeeds(cmd, answers(p.step)) {
      forall i | 0 <= i < |[cmd]| ensures Succeeds([cmd][i], answers(p.step + i)) {}
    }
    if AllSucceed(p, [cmd], answers) { assert Succeeds([cmd][0], answers(p.step + 0)); }
  }

  class Agent {
    const answers: Answers
    var issued: seq<Command>
    var step: nat
    var applied: nat
    var termlog: Termlog

    constructor (answers: Answers)
      ensures this.answers == answers && State() == START
    {
      this.answers := answers;
      issued, step, applied, termlog := [], 0, 0, Silent;
    }

    function State(): Progress
      reads this
    {
      Progress(issued, step, applied, termlog)
    }

    method ApplyBucket(bucket: seq<PlannedDoc>) returns (ok: bool)
      modifies this
      ensures State() == Try(old(State()), ApplyStep(bucket), answers)
      ensures ok == AllSucceed(old(State()), ApplyStep(bucket), answers)
    {
      if |bucket| == 0 {
        return true;
      }
      TryOne(State(), Apply(bucket), answers);
      var answer := answers(step);
      if !answer.written {
        assert issued + [] == issued;
        termlog := ErrorLog(ApplyFailed);
        return false;
      }
      issued := issued + [Apply(bucket)];
      if answer.code != 0 {
        termlog := ErrorLog(ApplyFailed);
        return false;
      }
      step := step + 1;
      applied := applied + |bucket|;
      return true;
    }

    method WaitCRD(crd: string) returns (ok: bool)
      modifies this
      ensures State() == Try(old(State()), [Await(crd)], answers)
      ensures ok == AllSucceed(old(State()), [Await(crd)], answers)
    {
      TryOne(State(), Await(crd), answers);
      issued := issued + [Await(crd)];
      if answers(step).code != 0 {
        termlog := ErrorLog(NotEstablished(crd));
        return false;
      }
      step := step + 1;
      return true;
    }

    method ApplyDefinitions(crds: seq<PlannedDoc>) returns (ok: bool)
      modifies this
      ensures State() == Try(old(State()), ApplyStep(crds) + Awaits(crds), answers)
      ensures ok == AllSucceed(old(State()), ApplyStep(crds) + Awaits(crds), answers)
    {
      TryAppend(State(), ApplyStep(crds), Awaits(crds), answers);
      ok := ApplyBucket(crds);
      if ok {
        ok := AwaitAll(crds);
      }
    }

    method AwaitAll(crds: seq<PlannedDoc>) returns (ok: bool)
      modifies this
      ensures State() == Try(old(State()), Awaits(crds), answers)
      ensures ok == AllSucceed(old(State()), Awaits(crds), answers)
    {
      ghost var start, waits := State(), Awaits(crds);
      for i := 0 to |crds|
        invariant State() == Try(start, waits[..i], answers)
        invariant AllSucceed(start, waits[..i], answers)
      {
        var wait := Await(crds[i].name);
        assert waits[..i + 1] == waits[..i] + [wait];
        TryAppend(start, waits[..i], [wait], answers);
        ok := WaitCRD(crds[i].name);
        if !ok {
          assert waits == waits[..i + 1] + waits[i + 1..];
          TryAppend(start, waits[..i + 1], waits[i + 1..], answers);
          return;
        }
      }
      assert waits[..|crds|] == waits;
      ok := true;
    }

    method ApplyPre(b: Buckets) returns (ok: bool)
      modifies this
      ensures State() == Try(old(State()), PreCommands(b), answers)
      ensures ok == AllSucceed(old(State()), PreCommands(b), answers)
    {
      ghost var start := State();
      ghost var defs := ApplyStep(b.crds) + Awaits(b.crds);
      assert PreCommands(b) == ApplyStep(b.ns) + (defs + ApplyStep(b.pre));
      TryAppend(start, ApplyStep(b.ns), defs + ApplyStep(b.pre), answers);
      ok := ApplyBucket(b.ns);
      if !ok {
        return;
      }
      TryAppend(State(), defs, ApplyStep(b.pre), answers);
      ok := ApplyDefinitions(b.crds);
      if !ok {
        return;
      }
      ok := ApplyBucket(b.pre);
    }

    method RunApplyManifests(codec: Codec, p: Payload, phase: string, drop: seq<string>, keep: seq<string>) returns (code: int)
      requires State() == START
      modifies this
      ensures Run(code, termlog, issued) == RunOf(codec, p, phase, drop, keep, answers)
    {
      if p.namespace.None? {
        termlog := ErrorLog(NoNamespace);
        return 1;
      }
      if p.file.None? {
        termlog := ErrorLog(NoFile);
        return 1;
      }
      var parsed := ParseAPIManifests(codec, p.file.value, p.namespace.value);
      if parsed.Rejected? {
        termlog := ErrorLog(BadPayload(parsed.error));
        return 1;
      }
      var ns, crds, pre, work := BucketDocs(codec, parsed.docs, drop, keep);
      var b := Buckets(ns, crds, pre, work);
      var ok;
      if phase == "pre" {
        ok := ApplyPre(b);
      } else if phase == "workload" {
        ok := ApplyBucket(work);
      } else {
        termlog := ErrorLog(BadPhase);
        return 2;
      }
      if !ok {
        return 1;
      }
      termlog := AppliedLog(applied);
      return 0;
    }
  }

  // ---- what a run issues --------------------------------------------------------------------------------

  // The documents of all applies, in order.
  function DocsOf(cmds: seq<Command>): seq<PlannedDoc> {
    if cmds == [] then []
    else DocsOf(cmds[..|cmds| - 1]) + (if cmds[|cmds| - 1].Apply? then cmds[|cmds| - 1].docs else [])
  }

  lemma {:induction false} DocsAppend(a: seq<Command>, b: seq<Command>)
    ensures DocsOf(a + b) == DocsOf(a) + DocsOf(b)
  {
    if b == [] {
      assert a + b == a;
    } else {
      assert (a + b)[..|a + b| - 1] == a + b[..|b| - 1];
      DocsAppend(a, b[..|b| - 1]);
    }
  }

  // The number of commands a run issues.
  function IssuedCount(p: Progress, cmds: seq<Command>, answers: Answers): (k: nat)
    ensures k <= |cmds|
    decreases |cmds|
  {
    if cmds == [] then 0
    else if Succeeds(cmds[0], answers(p.step)) then 1 + IssuedCount(Advance(p, cmds[0]), cmds[1..], answers)
    else if Issues(cmds[0], answers(p.step)) then 1
    else 0
  }

  lemma {:induction false} IssuedAre(p: Progress, cmds: seq<Command>, answers: Answers)
    ensures Try(p, cmds, answers).issued == p.issued + cmds[..IssuedCount(p, cmds, answers)]
    decreases |cmds|
  {
    if cmds != [] && Succeeds(cmds[0], answers(p.step)) {
      var next := Advance(p, cmds[0]);
      IssuedAre(next, cmds[1..], answers);
      var k := IssuedCount(next, cmds[1..], answers);
      assert next.issued + cmds[1..][..k] == p.issued + cmds[..k + 1];
    }
  }

  /** A run issues a prefix of its phase's commands; every command before the last one issued has succeeded, and a run
      without failure issues them all. */
  lemma {:induction false} IssuesPrefix(p: Progress, cmds: seq<Command>, answers: Answers)
    ensures Try(p, cmds, answers).issued == p.issued + cmds[..IssuedCount(p, cmds, answers)]
    ensures forall i | 0 <= i < IssuedCount(p, cmds, answers) - 1 :: Succeeds(cmds[i], answers(p.step + i))
    ensures AllSucceed(p, cmds, answers) ==> IssuedCount(p, cmds, answers) == |cmds|
    decreases |cmds|
  {
    IssuedAre(p, cmds, answers);
    if cmds != [] {
      AllSucceedTail(p, cmds, answers);
      if Succeeds(cmds[0], answers(p.step)) {
        var next := Advance(p, cmds[0]);
        IssuesPrefix(next, cmds[1..], answers);
        forall i | 0 < i < IssuedCount(p, cmds, answers) - 1 ensures Succeeds(cmds[i], answers(p.step + i)) {
          assert Succeeds(cmds[1..][i - 1], answers(next.step + (i - 1)));
        }
      }
    }
  }

  // The applied count of a run without failure.
  lemma {:induction false} CountsDocs(p: Progress, cmds: seq<Command>, answers: Answers)
    requires AllSucceed(p, cmds, answers)
    ensures Try(p, cmds, answers).applied == p.applied + |DocsOf(cmds)|
    decreases |cmds|
  {
    if cmds != [] {
      AllSucceedTail(p, cmds, answers);
      CountsDocs(Advance(p, cmds[0]), cmds[1..], answers);
      assert cmds == [cmds[0]] + cmds[1..];
      DocsAppend([cmds[0]], cmds[1..]);
      assert [cmds[0]][..0] == [];
    }
  }

  // ---- the two phases together ----------------------------------------------------------------------

  lemma DocsOfStep(docs: seq<PlannedDoc>)
    ensures DocsOf(ApplyStep(docs)) == docs
  {
    assert docs != [] ==> ApplyStep(docs)[..0] == [];
  }

  lemma {:induction false} AwaitsApplyNothing(crds: seq<PlannedDoc>)
    ensures DocsOf(Awaits(crds)) == []
  {
    if crds != [] {
      assert Awaits(crds)[..|crds| - 1] == Awaits(crds[..|crds| - 1]);
      AwaitsApplyNothing(crds[..|crds| - 1]);
    }
  }

  // The pre phase applies namespaces, definitions and volume documents; the workload phase the workloads.
  lemma PhaseDocs(b: Buckets)
    ensures DocsOf(PhaseCommands("pre", b)) == b.ns + b.crds + b.pre
    ensures DocsOf(PhaseCommands("workload", b)) == b.work
  {
    DocsOfStep(b.ns);
    DocsOfStep(b.crds);
    DocsOfStep(b.pre);
    DocsOfStep(b.work);
    AwaitsApplyNothing(b.crds);
    DocsAppend(ApplyStep(b.ns), ApplyStep(b.crds));
    DocsAppend(ApplyStep(b.ns) + ApplyStep(b.crds), Awaits(b.crds));
    DocsAppend(ApplyStep(b.ns) + ApplyStep(b.crds) + Awaits(b.crds), ApplyStep(b.pre));
  }

  /** Exactly once: the two phases' commands apply each kept document once and no dropped one. */
  lemma PhasesApplyEachOnce(codec: Codec, docs: seq<Doc>, drop: seq<string>, keep: seq<string>)
    ensures var b := BucketsOf(codec, docs, drop, keep);
            multiset(DocsOf(PhaseCommands("pre", b)) + DocsOf(PhaseCommands("workload", b)))
            == multiset(Kept(codec, docs, drop, keep))
  {
    var b := BucketsOf(codec, docs, drop, keep);
    PhaseDocs(b);
    BucketsPartition(codec, docs, drop, keep);
  }

  /** Two successful phases over one payload report counts that add up to the number of kept documents. */
  lemma CountsAddUp(codec: Codec, p: Payload, drop: seq<string>, keep: seq<string>, first: Answers, second: Answers)
    requires var pre, work := RunOf(codec, p, "pre", drop, keep, first), RunOf(codec, p, "workload", drop, keep, second);
             pre.code == 0 && work.code == 0
    ensures var pre, work := RunOf(codec, p, "pre", drop, keep, first), RunOf(codec, p, "workload", drop, keep, second);
            && p.file.Some? && p.namespace.Some?
            && var parsed := Parse(codec, p.file.value, p.namespace.value);
               && parsed.Parsed? && pre.termlog.AppliedLog? && work.termlog.AppliedLog?
               && pre.termlog.n + work.termlog.n == |Kept(codec, parsed.docs, drop, keep)|
  {
    var docs := Parse(codec, p.file.value, p.namespace.value).docs;
    var b := BucketsOf(codec, docs, drop, keep);
    CountsDocs(START, PhaseCommands("pre", b), first);
    CountsDocs(START, PhaseCommands("workload", b), second);
    PhasesApplyEachOnce(codec, docs, drop, keep);
    var all := DocsOf(PhaseCommands("pre", b)) + DocsOf(PhaseCommands("workload", b));
    assert |multiset(all)| == |all|;
    assert |multiset(Kept(codec, docs, drop, keep))| == |Kept(codec, docs, drop, keep)|;
  }

  lemma {:induction false} BucketKinds(codec: Codec, docs: seq<Doc>, drop: seq<string>, keep: seq<string>, b: Bucket)
    ensures forall d | d in InBucket(codec, docs, drop, keep, b) :: BucketOf(d.kind, drop, keep) == b
  {
    if docs != [] { BucketKinds(codec, docs[..|docs| - 1], drop, keep, b); }
  }

  // The documents of different buckets are never one and the same apply.
  lemma PreIsLast(codec: Codec, docs: seq<Doc>, drop: seq<string>, keep: seq<string>, i: nat)
    requires var b := BucketsOf(codec, docs, drop, keep);
             b.pre != [] && i < |PreCommands(b)| && PreCommands(b)[i] == Apply(b.pre)
    ensures i == |PreCommands(BucketsOf(codec, docs, drop, keep))| - 1
  {
    var b := BucketsOf(codec, docs, drop, keep);
    BucketKinds(codec, docs, drop, keep, Namespaces);
    BucketKinds(codec, docs, drop, keep, Definitions);
    BucketKinds(codec, docs, drop, keep, PreVolume);
    assert b.pre[0] in b.pre;
    assert b.ns != [] ==> b.ns[0] in b.ns;
    assert b.crds != [] ==> b.crds[0] in b.crds;
  }

  lemma FirstIssued(cmds: seq<Command>, answers: Answers) returns (k: nat)
    ensures k <= |cmds| && Try(START, cmds, answers).issued == cmds[..k]
    ensures forall i: nat | i < k - 1 :: Succeeds(cmds[i], answers(i))
  {
    IssuesPrefix(START, cmds, answers);
    k := IssuedCount(START, cmds, answers);
    assert [] + cmds[..k] == cmds[..k];
    forall i: nat | i < k - 1 ensures Succeeds(cmds[i], answers(i)) {
      assert Succeeds(cmds[i], answers(START.step + i));
    }
  }

  // Once the last command of a list is issued, all others have succeeded.
  lemma LastNeedsAll(cmds: seq<Command>, answers: Answers, last: Command)
    requires last in Try(START, cmds, answers).issued
    requires forall i: nat | i < |cmds| && cmds[i] == last :: i == |cmds| - 1
    ensures forall i: nat | i < |cmds| - 1 :: Succeeds(cmds[i], answers(i))
  {
    var k := FirstIssued(cmds, answers);
    var i: nat :| i < k && cmds[i] == last;
    assert k == |cmds|;
  }

  // The command was issued before the last one, and succeeded.
  ghost predicate DoneBefore(cmds: seq<Command>, answers: Answers, cmd: Command) {
    exists i: nat :: i < |cmds| - 1 && cmds[i] == cmd && Succeeds(cmd, answers(i))
  }

  lemma EarlierAreDone(cmds: seq<Command>, answers: Answers, last: Command, cmd: Command)
    requires last in Try(START, cmds, answers).issued
    requires forall i: nat | i < |cmds| && cmds[i] == last :: i == |cmds| - 1
    requires exists i: nat :: i < |cmds| - 1 && cmds[i] == cmd
    ensures DoneBefore(cmds, answers, cmd)
  {
    LastNeedsAll(cmds, answers, last);
    var i: nat :| i < |cmds| - 1 && cmds[i] == cmd;
    assert Succeeds(cmds[i], answers(i));
  }

  /** No volume document is applied unless every definition was applied and found Established before. */
  lemma PreNeedsDefinitions(codec: Codec, docs: seq<Doc>, drop: seq<string>, keep: seq<string>, answers: Answers, crd: PlannedDoc)
    requires var b := BucketsOf(codec, docs, drop, keep);
             b.pre != [] && Apply(b.pre) in RunCommands(PreCommands(b), answers).issued && crd in b.crds
    ensures var b := BucketsOf(codec, docs, drop, keep);
            DoneBefore(PreCommands(b), answers, Apply(b.crds)) && DoneBefore(PreCommands(b), answers, Await(crd.name))
  {
    var b := BucketsOf(codec, docs, drop, keep);
    var cmds := PreCommands(b);
    forall i: nat | i < |cmds| && cmds[i] == Apply(b.pre) ensures i == |cmds| - 1 {
      PreIsLast(codec, docs, drop, keep, i);
    }
    DefinitionPlaces(b, crd);
    EarlierAreDone(cmds, answers, Apply(b.pre), Apply(b.crds));
    EarlierAreDone(cmds, answers, Apply(b.pre), Await(crd.name));
  }

  lemma DefinitionPlaces(b: Buckets, crd: PlannedDoc)
    requires crd in b.crds && b.pre != []
    ensures exists i: nat :: i < |PreCommands(b)| - 1 && PreCommands(b)[i] == Apply(b.crds)
    ensures exists i: nat :: i < |PreCommands(b)| - 1 && PreCommands(b)[i] == Await(crd.name)
  {
    var n := |ApplyStep(b.ns)|;
    var j :| 0 <= j < |b.crds| && b.crds[j] == crd;
    assert PreCommands(b)[n] == Apply(b.crds);
    assert Awaits(b.crds)[j] == Await(crd.name);
    assert PreCommands(b)[n + 1 + j] == Await(crd.name);
  }

  // ---- the temporary file -------------------------------------------------------------------------------

  // Each document followed by a separator line.
  function FileOf(docs: seq<PlannedDoc>): seq<string> {
    if docs == [] then [] else docs[0].yaml + ["---"] + FileOf(docs[1..])
  }

  lemma {:induction false} TakesBlock(block: seq<string>, rest: seq<string>, buffer: seq<string>)
    requires forall line | line in block :: !IsSeparator(line)
    requires buffer + block != []
    ensures NextDoc(block + ["---"] + rest, buffer) == (Some(buffer + block), rest)
  {
    var all := block + ["---"] + rest;
    if block == [] {
      assert all == ["---"] + rest && all[1..] == rest && buffer + block == buffer;
      DashesSeparate();
    } else {
      assert all[0] == block[0] && all[1..] == block[1..] + ["---"] + rest;
      TakesBlock(block[1..], rest, buffer + [block[0]]);
      assert buffer + [block[0]] + block[1..] == buffer + block;
    }
  }

  lemma DashesSeparate()
    ensures IsSeparator("---")
  {
    assert "---"[3..] == "";
    TrimSpaceFacts("");
  }

  /** kubectl reads back exactly the bucket's documents, in order. */
  lemma {:induction false} FileReadsBack(docs: seq<PlannedDoc>)
    requires forall d | d in docs :: d.yaml != [] && forall line | line in d.yaml :: !IsSeparator(line)
    ensures Documents(FileOf(docs)) == seq(|docs|, i requires 0 <= i < |docs| => docs[i].yaml)
  {
    if docs != [] {
      assert docs[0] in docs;
      TakesBlock(docs[0].yaml, FileOf(docs[1..]), []);
      assert [] + docs[0].yaml == docs[0].yaml;
      FileReadsBack(docs[1..]);
    }
  }
}
