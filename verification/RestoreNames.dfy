/** RestoreNames: the phase a pipeline Job ran in, told back from its name. */
module RestoreNames {
  import opened Strings
  import opened Names
  import opened Sorting
  import opened CommandLines
  import opened RestoreSpec
  import RestoreTermination

  lemma TrimsOwner(restore: string, part: string)
    requires !Truncated(restore, part)
    ensures TrimPrefix(JobName(restore, part), restore + "-") == part
  {
    var name := JobName(restore, part);
    assert name == restore + "-" + part;
    assert name[..|restore| + 1] == restore + "-" && name[|restore| + 1..] == part;
  }

  // The phase of a pipeline part.
  function PartPhase(part: string): Phase {
    if HasPrefix(part, "vol-") then RestoringVolumes
    else if part == "api-workload" then ApplyingWorkloads
    else StagingAPI
  }

  /** An untruncated name tells the phase its Job was launched in. */
  lemma UntruncatedTellsPhase(restore: string, part: string)
    requires !Truncated(restore, part)
    ensures JobPhaseByName(restore, JobName(restore, part)) == PartPhase(part)
  {
    TrimsOwner(restore, part);
  }

  // The parts the pipeline uses, and the phases it launches them in.
  lemma PipelineParts(cfg: Config, node: string, group: seq<string>)
    requires cfg.names == NamesFor(cfg.name)
    ensures PartPhase("api-fetch") == FetchStep(cfg).phase && FetchStep(cfg).name == JobName(cfg.name, "api-fetch")
    ensures PartPhase("api-pre") == PreStep(cfg).phase && PreStep(cfg).name == JobName(cfg.name, "api-pre")
    ensures PartPhase("api-workload") == WorkloadStep(cfg).phase && WorkloadStep(cfg).name == JobName(cfg.name, "api-workload")
    ensures PartPhase("vol-" + node) == VolumeStep(cfg, node, group).phase
    ensures VolumeStep(cfg, node, group).name == JobName(cfg.name, "vol-" + node)
  {
    assert "vol-"[0] == 'v' && "api-fetch"[0] == 'a' && "api-pre"[0] == 'a' && "api-workload"[0] == 'a';
    NotVolume("api-fetch");
    NotVolume("api-pre");
    NotVolume("api-workload");
    assert ("vol-" + node)[..4] == "vol-";
  }

  lemma NotVolume(part: string)
    requires part != "" && part[0] != 'v'
    ensures !HasPrefix(part, "vol-")
  {
    if |part| >= 4 { assert part[..4][0] == part[0] && "vol-"[0] == 'v'; }
  }

  // The parts a pipeline Job name can have.
  predicate PipelinePart(part: string) {
    part in {"api-fetch", "api-pre", "api-workload"} || HasPrefix(part, "vol-")
  }

  // Object names end in a letter or a digit.
  predicate ObjectName(name: string) {
    name != "" && name[|name| - 1] != '-'
  }

  // The phase a pipeline Job is filed under. A cut name loses its part to the hash: what is left of it, or of the
  // restore's own name when that was cut too, decides.
  function FiledPhase(restore: string, part: string): Phase {
    if !Truncated(restore, part) then PartPhase(part)
    else if |restore| <= 50 then (if HasPrefix(part, "vol-") then RestoringVolumes else StagingAPI)
    else if |restore| <= 54 then StagingAPI
    else if HasPrefix(restore, "vol-") then RestoringVolumes
    else StagingAPI
  }

  // What a cut name keeps of the full one.
  function KeptOf(full: string): string
    requires |full| > LABEL_LIMIT
  {
    TrimDashes(full[..LABEL_LIMIT - HASH_SUFFIX])
  }

  lemma CutName(restore: string, part: string)
    requires Truncated(restore, part)
    ensures var full := FullName(restore, part);
            JobName(restore, part) == KeptOf(full) + "-" + Hex(HashOf(full), 8)
  {
  }

  // No string of hexadecimal digits starts "vol-" or ends "workload".
  lemma NotHex(digits: string)
    requires |digits| == 8 && forall c | c in digits :: c in HEX
    ensures digits != "workload" && !HasPrefix(digits, "vol-") && '-' !in digits
  {
    assert digits[0] in digits;
    assert 'w' !in HEX && 'v' !in HEX && '-' !in HEX;
    assert "workload"[0] == 'w';
    FourOf(digits);
  }

  // Whatever is trimmed off its front, a cut name is never taken for the workload's.
  lemma NeverWorkload(name: string, base: string, digits: string)
    requires |name| >= 8 && name[|name| - 8..] == digits && digits != "workload"
    requires |base| <= |name| && base == name[|name| - |base|..]
    ensures base != "api-workload"
  {
    if |base| >= 8 { assert base[|base| - 8..] == digits; }
    assert "api-workload"[4..] == "workload";
  }

  // The restore's name is longer than what was kept: its prefix is not found, and the kept part decides.
  lemma RestoreCut(restore: string, kept: string, digits: string)
    requires |kept| < |restore| && |digits| == 8 && '-' !in digits
    ensures !HasPrefix(kept + "-" + digits, restore + "-")
  {
    var name, prefix := kept + "-" + digits, restore + "-";
    assert forall i | |kept| < i < |name| :: name[i] == digits[i - |kept| - 1];
    assert |name| > |restore| ==> name[..|restore| + 1][|restore|] == name[|restore|];
    assert prefix[|restore|] == '-';
  }

  // The restore's name was kept whole: what was kept of the part, if anything, decides.
  lemma RestoreKept(restore: string, kept: string, digits: string)
    requires restore <= kept && (|kept| > |restore| ==> kept[|restore|] == '-')
    ensures TrimPrefix(kept + "-" + digits, restore + "-") ==
            if |kept| == |restore| then digits else kept[|restore| + 1..] + "-" + digits
  {
    var name, prefix := kept + "-" + digits, restore + "-";
    assert name[..|restore|] == restore && name[|restore|] == '-';
    assert name[..|restore| + 1] == prefix;
    if |kept| > |restore| { assert name[|restore| + 1..] == kept[|restore| + 1..] + "-" + digits; }
  }

  // A name of a part that is no volume's keeps no "vol-" in front of the dash.
  lemma PartFront(part: string, q: string, digits: string)
    requires PipelinePart(part) && q <= part && |digits| == 8 && !HasPrefix(digits, "vol-")
    ensures HasPrefix(q + "-" + digits, "vol-") <==> HasPrefix(part, "vol-") && |q| >= 3
  {
    var base := q + "-" + digits;
    assert "vol-"[0] == 'v' && "vol-"[1] == 'o' && "vol-"[2] == 'l' && "vol-"[3] == '-';
    assert "api-fetch"[0] == 'a' && "api-pre"[0] == 'a' && "api-workload"[0] == 'a';
    if |q| >= 1 { assert base[0] == q[0] == part[0]; }
    if HasPrefix(part, "vol-") {
      assert part[..4] == "vol-";
      assert part[0] == 'v' && part[1] == 'o' && part[2] == 'l' && part[3] == '-';
      FourOf(base);
      if |q| >= 4 { assert base[3] == q[3] == part[3]; }
    } else if HasPrefix(base, "vol-") {
      FourOf(base);
      PartIsNoVolume(part);
    }
  }

  lemma PartIsNoVolume(part: string)
    requires PipelinePart(part) && !HasPrefix(part, "vol-")
    ensures part != "" && part[0] == 'a'
  {
    assert "api-fetch"[0] == 'a' && "api-pre"[0] == 'a' && "api-workload"[0] == 'a';
  }

  lemma FourOf(s: string)
    ensures HasPrefix(s, "vol-") <==> |s| >= 4 && s[0] == 'v' && s[1] == 'o' && s[2] == 'l' && s[3] == '-'
  {
    if |s| >= 4 { assert s[..4] == [s[0], s[1], s[2], s[3]]; }
    assert "vol-" == ['v', 'o', 'l', '-'];
  }

  lemma {:induction false} TrimmedAreDashes(s: string, i: nat)
    requires |TrimDashes(s)| <= i < |s|
    ensures s[i] == '-'
  {
    if i < |s| - 1 { TrimmedAreDashes(s[..|s| - 1], i); }
  }

  // What the cut leaves of the part, behind a restore name that was kept whole.
  function KeptPart(restore: string, kept: string): string {
    if |kept| > |restore| then kept[|restore| + 1..] else ""
  }

  // A restore name of at most 53 characters is kept whole.
  lemma KeepsRestore(restore: string, part: string)
    requires ObjectName(restore) && Truncated(restore, part) && |restore| <= 53
    ensures var kept := KeptOf(FullName(restore, part));
            && restore <= kept && (|kept| > |restore| ==> kept[|restore|] == '-')
            && KeptPart(restore, kept) <= part
  {
    var full := FullName(restore, part);
    var cut, kept := full[..54], KeptOf(full);
    assert cut[..|restore|] == restore;
    TrimKeepsPrefix(cut, restore);
    if |kept| > |restore| {
      var q := kept[|restore| + 1..];
      assert kept[|restore|] == full[|restore|] == '-';
      assert q == cut[|restore| + 1..|kept|] == full[|restore| + 1..|kept|] == part[..|q|];
    }
  }

  // Such a name is filed by what is left of the part.
  lemma FiledByRest(restore: string, part: string, kept: string, digits: string)
    requires PipelinePart(part) && restore <= kept && (|kept| > |restore| ==> kept[|restore|] == '-')
    requires KeptPart(restore, kept) <= part
    requires |digits| == 8 && digits != "workload" && !HasPrefix(digits, "vol-")
    ensures JobPhaseByName(restore, kept + "-" + digits) ==
            if HasPrefix(part, "vol-") && |kept| >= |restore| + 4 then RestoringVolumes else StagingAPI
  {
    var name := kept + "-" + digits;
    RestoreKept(restore, kept, digits);
    NeverWorkload(name, TrimPrefix(name, restore + "-"), digits);
    if |kept| > |restore| { PartFront(part, KeptPart(restore, kept), digits); }
  }

  lemma ShortRestore(restore: string, part: string)
    requires PipelinePart(part) && ObjectName(restore) && Truncated(restore, part) && |restore| <= 53
    ensures JobPhaseByName(restore, JobName(restore, part)) == FiledPhase(restore, part)
  {
    var full := FullName(restore, part);
    CutName(restore, part);
    HexDigitsOnly(HashOf(full), 8);
    NotHex(Hex(HashOf(full), 8));
    KeepsRestore(restore, part);
    FiledByRest(restore, part, KeptOf(full), Hex(HashOf(full), 8));
    if HasPrefix(part, "vol-") { VolumeKept(restore, part, full, KeptOf(full)); }
  }

  // The cut keeps "vol" of a volume part exactly for restore names of up to 50 characters.
  lemma VolumeKept(restore: string, part: string, full: string, kept: string)
    requires HasPrefix(part, "vol-") && full == FullName(restore, part) && |full| > LABEL_LIMIT && kept == KeptOf(full)
    requires |restore| <= 53
    ensures |kept| >= |restore| + 4 <==> |restore| <= 50
  {
    var cut := full[..54];
    if |restore| <= 50 {
      var keep := restore + "-vol";
      FourOf(part);
      assert cut[..|keep|] == keep;
      TrimKeepsPrefix(cut, keep);
    }
  }

  // A restore name of exactly 54 characters is all the cut keeps: the hash is all that is left of the name.
  lemma RestoreFillsCut(restore: string, part: string)
    requires ObjectName(restore) && Truncated(restore, part) && |restore| == 54
    ensures JobPhaseByName(restore, JobName(restore, part)) == StagingAPI
  {
    var full := FullName(restore, part);
    var digits := Hex(HashOf(full), 8);
    CutName(restore, part);
    HexDigitsOnly(HashOf(full), 8);
    NotHex(digits);
    assert full[..54] == restore;
    RestoreKept(restore, restore, digits);
    NeverWorkload(JobName(restore, part), digits, digits);
  }

  // A longer restore name is cut itself, and its own beginning is taken for the part's.
  lemma LongRestore(restore: string, part: string)
    requires Truncated(restore, part) && |restore| > 54
    ensures JobPhaseByName(restore, JobName(restore, part)) == if HasPrefix(restore, "vol-") then RestoringVolumes else StagingAPI
  {
    var full := FullName(restore, part);
    var kept, digits := KeptOf(full), Hex(HashOf(full), 8);
    var name := JobName(restore, part);
    CutName(restore, part);
    HexDigitsOnly(HashOf(full), 8);
    NotHex(digits);
    assert full[..54] == restore[..54];
    RestoreCut(restore, kept, digits);
    NeverWorkload(name, name, digits);
    OwnBeginning(restore, kept, digits);
  }

  lemma OwnBeginning(restore: string, kept: string, digits: string)
    requires |restore| > 54 && kept == TrimDashes(restore[..54]) && |digits| == 8
    ensures HasPrefix(kept + "-" + digits, "vol-") <==> HasPrefix(restore, "vol-")
  {
    var name, cut := kept + "-" + digits, restore[..54];
    FourOf(name);
    FourOf(restore);
    if HasPrefix(restore, "vol-") {
      assert cut[..3] == "vol" by { assert cut[..3] == [restore[0], restore[1], restore[2]]; }
      TrimKeepsPrefix(cut, "vol");
      assert kept[..3] == "vol";
    }
    if |kept| == 3 { TrimmedAreDashes(cut, 3); }
    assert forall i | 0 <= i < |kept| :: name[i] == kept[i] == cut[i] == restore[i];
  }

  /** The phase every pipeline Job is filed under, for every restore name, node and length: an untruncated name tells
      its part back; a cut one tells a volume apart for restore names of up to 50 characters, and above 54 whatever
      the restore's own name begins with decides. */
  lemma PhaseExactly(restore: string, part: string)
    requires PipelinePart(part) && ObjectName(restore)
    ensures JobPhaseByName(restore, JobName(restore, part)) == FiledPhase(restore, part)
  {
    if !Truncated(restore, part) {
      UntruncatedTellsPhase(restore, part);
    } else if |restore| <= 53 {
      ShortRestore(restore, part);
    } else if |restore| == 54 {
      RestoreFillsCut(restore, part);
    } else {
      LongRestore(restore, part);
    }
  }

  /** Exactly when the launching phase is told back: never for a cut workload name; for a cut volume name up to 50
      characters of restore name, or when that begins like a volume; for the others unless it does. */
  lemma ToldBackExactly(restore: string, part: string)
    requires PipelinePart(part) && ObjectName(restore)
    ensures JobPhaseByName(restore, JobName(restore, part)) == PartPhase(part) <==>
              var misled := |restore| > 54 && HasPrefix(restore, "vol-");
              || !Truncated(restore, part)
              || (if HasPrefix(part, "vol-") then |restore| <= 50 || misled else part != "api-workload" && !misled)
  {
    PhaseExactly(restore, part);
  }

  // ---- distinct names ---------------------------------------------------------------------------------

  // The part of its name that tells a pipeline Job from the others.
  function PartOf(w: Work): string {
    match w
    case FetchWork(_, _) => "api-fetch"
    case ApplyWork(phase, _, _, _) => if phase.PreApply? then "api-pre" else "api-workload"
    case VolumeWork(_, node, _) => "vol-" + node
  }

  // No name of the pipeline is cut.
  ghost predicate NoneTruncated(cfg: Config, steps: seq<Step>) {
    forall s | s in steps :: s.name == JobName(cfg.name, PartOf(s.work)) && !Truncated(cfg.name, PartOf(s.work))
  }

  ghost predicate DistinctParts(steps: seq<Step>) {
    forall i, j | 0 <= i < j < |steps| :: PartOf(steps[i].work) != PartOf(steps[j].work)
  }

  lemma VolumeParts(cfg: Config, plan: Plan)
    requires plan.VolumePlan?
    ensures DistinctParts(VolumeSteps(cfg, plan))
    ensures forall s | s in VolumeSteps(cfg, plan) :: s.work.VolumeWork?
  {
    var nodes := InOrder(PlanNodes(plan.docs, plan.fallback, plan.pvcs));
    LessIsOrder();
    AscendingDistinct(Less, nodes);
    NodesTellParts(nodes, VolumeSteps(cfg, plan));
  }

  lemma NodesTellParts(nodes: seq<string>, v: seq<Step>)
    requires |v| == |nodes| && forall i | 0 <= i < |v| :: v[i].work.VolumeWork? && v[i].work.node == nodes[i]
    requires forall i, j | 0 <= i < j < |nodes| :: nodes[i] != nodes[j]
    ensures DistinctParts(v)
  {
    forall i, j | 0 <= i < j < |v| ensures PartOf(v[i].work) != PartOf(v[j].work) {
      VolumePartDiffers(nodes[i], nodes[j]);
    }
  }

  lemma VolumePartDiffers(a: string, b: string)
    requires a != b
    ensures "vol-" + a != "vol-" + b
  {
    assert ("vol-" + a)[4..] == a && ("vol-" + b)[4..] == b;
  }

  lemma AppendDistinct(head: seq<Step>, mid: seq<Step>, last: Step)
    requires |head| == 2 && head[0].work.FetchWork? && head[1].work.ApplyWork? && head[1].work.phase.PreApply?
    requires DistinctParts(mid) && forall s | s in mid :: s.work.VolumeWork?
    requires last.work.ApplyWork? && last.work.phase.WorkloadApply?
    ensures DistinctParts(head + mid + [last])
  {
    var all := head + mid + [last];
    assert "vol-"[0] == 'v' && "api-fetch"[0] == 'a' && "api-pre"[0] == 'a' && "api-workload"[0] == 'a';
    assert "api-fetch"[4] == 'f' && "api-pre"[4] == 'p' && "api-workload"[4] == 'w';
    forall k | 2 <= k < |mid| + 2 ensures PartOf(all[k].work)[..1] == "v" && all[k] == mid[k - 2] {
      assert all[k] == mid[k - 2] && mid[k - 2] in mid;
      assert ("vol-" + all[k].work.node)[..1] == "v";
    }
    forall i, j | 0 <= i < j < |all| ensures PartOf(all[i].work) != PartOf(all[j].work) {
      if 2 <= i && j < |mid| + 2 { assert PartOf(mid[i - 2].work) != PartOf(mid[j - 2].work); }
    }
  }

  lemma PipelinePartsDistinct(cfg: Config, plan: Plan)
    requires plan.VolumePlan?
    ensures DistinctParts(Steps(cfg, plan))
  {
    VolumeParts(cfg, plan);
    AppendDistinct([FetchStep(cfg), PreStep(cfg)], VolumeSteps(cfg, plan), WorkloadStep(cfg));
  }

  /** Untruncated names keep the whole pipeline's Jobs apart: what the termination theorem asks for. */
  lemma UntruncatedAreDistinct(cfg: Config, plan: Plan)
    requires plan.VolumePlan? && NoneTruncated(cfg, Steps(cfg, plan))
    ensures RestoreTermination.DistinctNames(Steps(cfg, plan))
  {
    var steps := Steps(cfg, plan);
    PipelinePartsDistinct(cfg, plan);
    forall i, j | 0 <= i < j < |steps| ensures steps[i].name != steps[j].name {
      assert steps[i] in steps && steps[j] in steps;
      if steps[i].name == steps[j].name {
        JobNameInjectiveShort(cfg.name, PartOf(steps[i].work), PartOf(steps[j].work));
      }
    }
  }
}
