/** CommandLines: the pods the controllers build, and the arguments the agent parses back in another process.
    Go's flag package is modelled by `ParseFlags`; every flag of the agent takes a value. */
module CommandLines {
  import opened Wrappers
  import opened Strings
  import opened Decimals

  // ---- pod templates (the parts of a batchv1.Job the properties speak about) --------------

  datatype Volume =
    | ClaimVolume(name: string, claim: string, readOnly: bool)
    | ConfigMapVolume(name: string, configMap: string)
    | EmptyDirVolume(name: string)

  datatype Mount = Mount(name: string, path: string, readOnly: bool)

  datatype Pod = Pod(command: seq<string>, volumes: seq<Volume>, mounts: seq<Mount>, node: Option<string>)

  const API_MOUNT := "/staging/api"
  const CACHE_VOLUME := EmptyDirVolume("client-cache")
  const CACHE_MOUNT := Mount("client-cache", "/cache", false)

  function MountPath(pvc: string): string { "/backup/" + pvc }

  // The archive a claim is backed up as, and the archive a restore asks for.
  function ArchiveName(pvc: string): string { "pvc-" + pvc + ".pxar" }

  function RestoreArchive(pvc: string): string { "pvc-" + pvc + ".pxar.didx" }

  function ClaimVolumes(pvcs: seq<string>, readOnly: bool): seq<Volume> {
    seq(|pvcs|, i requires 0 <= i < |pvcs| => ClaimVolume("pvc-" + Decimal(i), pvcs[i], readOnly))
  }

  function ClaimMounts(pvcs: seq<string>, readOnly: bool): seq<Mount> {
    seq(|pvcs|, i requires 0 <= i < |pvcs| => Mount("pvc-" + Decimal(i), MountPath(pvcs[i]), readOnly))
  }

  lemma ClaimsSnoc(pvcs: seq<string>, readOnly: bool, i: nat)
    requires i < |pvcs|
    ensures var name := "pvc-" + Decimal(i);
            && ClaimVolumes(pvcs, readOnly)[..i + 1] == ClaimVolumes(pvcs, readOnly)[..i] + [ClaimVolume(name, pvcs[i], readOnly)]
            && ClaimMounts(pvcs, readOnly)[..i + 1] == ClaimMounts(pvcs, readOnly)[..i] + [Mount(name, MountPath(pvcs[i]), readOnly)]
  {
  }

  // ---- flags as written ----------------------------------------------------------------------

  type Assignment = (string, string)

  const BACKUP_COMMAND := ["pbs-agent", "backup"]
  const VOLUME_COMMAND := ["pbs-agent", "restore-volume"]
  const APPLY_COMMAND := ["pbs-agent", "apply-manifests"]
  const API_FILE := "/staging/api/api.yaml"

  function Flag(name: string): string { "--" + name }

  // "--name value" for each assignment, in order.
  function Written(flags: seq<Assignment>): seq<string> {
    if flags == [] then []
    else Written(flags[..|flags| - 1]) + [Flag(flags[|flags| - 1].0), flags[|flags| - 1].1]
  }

  function PvcFlags(pvcs: seq<string>): seq<Assignment> {
    seq(|pvcs|, i requires 0 <= i < |pvcs| => ("pvc", pvcs[i]))
  }

  function PairFlags(pvcs: seq<string>): seq<Assignment> {
    if pvcs == [] then []
    else
      var last := pvcs[|pvcs| - 1];
      PairFlags(pvcs[..|pvcs| - 1]) + [("archive", RestoreArchive(last)), ("target", MountPath(last))]
  }

  // A flag the builder writes only when its value is nonempty.
  function Optional(k: string, v: string): seq<Assignment> {
    if v != "" then [(k, v)] else []
  }

  function BackupFlags(pvcs: seq<string>, staging: string, notes: string): seq<Assignment> {
    PvcFlags(pvcs) + Optional("api", if staging != "" then API_MOUNT else "") + Optional("notes", notes)
  }

  function ApplyFlags(phase: string, drop: seq<string>, keep: seq<string>): seq<Assignment> {
    [("phase", phase), ("file", API_FILE)]
    + (if |drop| > 0 then [("drop", Join(drop, ','))] else [])
    + (if |keep| > 0 then [("keep", Join(keep, ','))] else [])
  }

  // ---- the builders ---------------------------------------------------------------------------

  function BackupPod(node: string, pvcs: seq<string>, staging: string, notes: string): Pod {
    Pod(BACKUP_COMMAND + Written(BackupFlags(pvcs, staging, notes)),
        ClaimVolumes(pvcs, true) + (if staging != "" then [ConfigMapVolume("api-staging", staging)] else []),
        ClaimMounts(pvcs, true) + (if staging != "" then [Mount("api-staging", API_MOUNT, true)] else []),
        Some(node))
  }

  lemma WrittenSnoc(flags: seq<Assignment>, k: string, v: string)
    ensures Written(flags + [(k, v)]) == Written(flags) + [Flag(k), v]
  {
    assert (flags + [(k, v)])[..|flags|] == flags;
  }

  lemma WrittenOptional(flags: seq<Assignment>, k: string, v: string)
    ensures Written(flags + Optional(k, v)) == Written(flags) + (if v != "" then [Flag(k), v] else [])
  {
    if v != "" { WrittenSnoc(flags, k, v); } else { assert flags + Optional(k, v) == flags; }
  }

  lemma WrittenPair(k: string, v: string, k': string, v': string)
    ensures Written([(k, v)]) == [Flag(k), v]
    ensures Written([(k, v), (k', v')]) == [Flag(k), v, Flag(k'), v']
  {
    assert Written([]) == [];
    WrittenSnoc([], k, v);
    assert [] + [(k, v)] == [(k, v)];
    WrittenSnoc([(k, v)], k', v');
    assert [(k, v)] + [(k', v')] == [(k, v), (k', v')];
  }

  // One read-only volume, mount and --pvc flag per claim.
  method AddClaims(base: seq<string>, pvcs: seq<string>)
    returns (volumes: seq<Volume>, mounts: seq<Mount>, command: seq<string>)
    ensures volumes == ClaimVolumes(pvcs, true) && mounts == ClaimMounts(pvcs, true)
    ensures command == base + Written(PvcFlags(pvcs))
  {
    ghost var vs, ms := ClaimVolumes(pvcs, true), ClaimMounts(pvcs, true);
    volumes, mounts, command := [], [], base;
    for i := 0 to |pvcs|
      invariant volumes == vs[..i] && mounts == ms[..i]
      invariant command == base + Written(PvcFlags(pvcs)[..i])
    {
      var name := "pvc-" + Decimal(i);
      ClaimsSnoc(pvcs, true, i);
      volumes := volumes + [ClaimVolume(name, pvcs[i], true)];
      mounts := mounts + [Mount(name, MountPath(pvcs[i]), true)];
      command := command + [Flag("pvc"), pvcs[i]];
      WrittenSnoc(PvcFlags(pvcs)[..i], "pvc", pvcs[i]);
      assert PvcFlags(pvcs)[..i + 1] == PvcFlags(pvcs)[..i] + [("pvc", pvcs[i])];
    }
    assert PvcFlags(pvcs)[..|pvcs|] == PvcFlags(pvcs);
  }

  // The command of a backup pod, flag after flag.
  lemma BackupWritten(base: seq<string>, pvcs: seq<string>, staging: string, notes: string)
    ensures base + Written(BackupFlags(pvcs, staging, notes))
            == base + Written(PvcFlags(pvcs)) + (if staging != "" then [Flag("api"), API_MOUNT] else [])
               + (if notes != "" then [Flag("notes"), notes] else [])
  {
    var mount := if staging != "" then API_MOUNT else "";
    WrittenOptional(PvcFlags(pvcs), "api", mount);
    WrittenOptional(PvcFlags(pvcs) + Optional("api", mount), "notes", notes);
  }

  method BuildBackupJob(node: string, pvcs: seq<string>, staging: string, notes: string) returns (pod: Pod)
    ensures pod == BackupPod(node, pvcs, staging, notes)
  {
    var base := BACKUP_COMMAND;
    var volumes, mounts, command := AddClaims(base, pvcs);
    BackupWritten(base, pvcs, staging, notes);
    if staging != "" {
      volumes := volumes + [ConfigMapVolume("api-staging", staging)];
      mounts := mounts + [Mount("api-staging", API_MOUNT, true)];
      command := command + [Flag("api"), API_MOUNT];
    }
    if notes != "" {
      command := command + [Flag("notes"), notes];
    }
    pod := Pod(command, volumes, mounts, Some(node));
  }

  function FetchPod(ref: string, configMap: string): Pod {
    Pod(VOLUME_COMMAND + [Flag("ref"), ref, Flag("archive"), "api.pxar.didx", Flag("target"), API_MOUNT,
                          Flag("configmap"), configMap],
        [EmptyDirVolume("api-staging"), CACHE_VOLUME],
        [Mount("api-staging", API_MOUNT, false), CACHE_MOUNT],
        None)
  }

  function ApplyPod(phase: string, configMap: string, drop: seq<string>, keep: seq<string>): Pod {
    Pod(APPLY_COMMAND + Written(ApplyFlags(phase, drop, keep)),
        [ConfigMapVolume("api-staging", configMap)],
        [Mount("api-staging", API_MOUNT, true)],
        None)
  }

  method BuildApplyJob(phase: string, configMap: string, drop: seq<string>, keep: seq<string>) returns (pod: Pod)
    ensures pod == ApplyPod(phase, configMap, drop, keep)
  {
    var command := APPLY_COMMAND + [Flag("phase"), phase, Flag("file"), API_FILE];
    ghost var flags := [("phase", phase), ("file", API_FILE)];
    WrittenPair("phase", phase, "file", API_FILE);
    if |drop| > 0 {
      command := command + [Flag("drop"), Join(drop, ',')];
      WrittenSnoc(flags, "drop", Join(drop, ','));
      flags := flags + [("drop", Join(drop, ','))];
    }
    if |keep| > 0 {
      command := command + [Flag("keep"), Join(keep, ',')];
      WrittenSnoc(flags, "keep", Join(keep, ','));
      flags := flags + [("keep", Join(keep, ','))];
    }
    assert flags == ApplyFlags(phase, drop, keep);
    pod := Pod(command, [ConfigMapVolume("api-staging", configMap)], [Mount("api-staging", API_MOUNT, true)], None);
  }

  function VolumePod(ref: string, node: string, pvcs: seq<string>): Pod {
    Pod(VOLUME_COMMAND + Written([("ref", ref)] + PairFlags(pvcs)),
        ClaimVolumes(pvcs, false) + [CACHE_VOLUME],
        ClaimMounts(pvcs, false) + [CACHE_MOUNT],
        Some(node))
  }

  lemma {:induction false} WrittenAppend(a: seq<Assignment>, b: seq<Assignment>)
    ensures Written(a + b) == Written(a) + Written(b)
  {
    if b == [] {
      assert a + b == a;
    } else {
      assert (a + b)[..|a + b| - 1] == a + b[..|b| - 1];
      WrittenAppend(a, b[..|b| - 1]);
    }
  }

  lemma PairWritten(pvcs: seq<string>, i: nat)
    requires i < |pvcs|
    ensures Written(PairFlags(pvcs[..i + 1]))
            == Written(PairFlags(pvcs[..i])) + [Flag("archive"), RestoreArchive(pvcs[i]), Flag("target"), MountPath(pvcs[i])]
  {
    assert pvcs[..i + 1][..i] == pvcs[..i];
    WrittenPair("archive", RestoreArchive(pvcs[i]), "target", MountPath(pvcs[i]));
    WrittenAppend(PairFlags(pvcs[..i]), [("archive", RestoreArchive(pvcs[i])), ("target", MountPath(pvcs[i]))]);
  }

  // One writable volume and mount, and one --archive/--target pair, per claim.
  method AddPairs(base: seq<string>, pvcs: seq<string>)
    returns (volumes: seq<Volume>, mounts: seq<Mount>, command: seq<string>)
    ensures volumes == ClaimVolumes(pvcs, false) && mounts == ClaimMounts(pvcs, false)
    ensures command == base + Written(PairFlags(pvcs))
  {
    ghost var vs, ms := ClaimVolumes(pvcs, false), ClaimMounts(pvcs, false);
    volumes, mounts, command := [], [], base;
    for i := 0 to |pvcs|
      invariant volumes == vs[..i] && mounts == ms[..i]
      invariant command == base + Written(PairFlags(pvcs[..i]))
    {
      var name := "pvc-" + Decimal(i);
      ClaimsSnoc(pvcs, false, i);
      volumes := volumes + [ClaimVolume(name, pvcs[i], false)];
      mounts := mounts + [Mount(name, MountPath(pvcs[i]), false)];
      command := command + [Flag("archive"), RestoreArchive(pvcs[i]), Flag("target"), MountPath(pvcs[i])];
      PairWritten(pvcs, i);
    }
    assert pvcs[..|pvcs|] == pvcs;
  }

  method BuildRestoreVolumeJob(ref: string, node: string, pvcs: seq<string>) returns (pod: Pod)
    ensures pod == VolumePod(ref, node, pvcs)
  {
    var volumes, mounts, command := AddPairs(VOLUME_COMMAND + [Flag("ref"), ref], pvcs);
    WrittenPair("ref", ref, "ref", ref);
    WrittenAppend([("ref", ref)], PairFlags(pvcs));
    volumes := volumes + [CACHE_VOLUME];
    mounts := mounts + [CACHE_MOUNT];
    pod := Pod(command, volumes, mounts, Some(node));
  }

  datatype ApplyPhase = PreApply | WorkloadApply

  function PhaseArg(phase: ApplyPhase): string {
    if phase.PreApply? then "pre" else "workload"
  }

  // What a restore Job is built to do, and the pod its builder returns.
  datatype Work =
    | FetchWork(ref: string, configMap: string)
    | ApplyWork(phase: ApplyPhase, configMap: string, drop: seq<string>, keep: seq<string>)
    | VolumeWork(ref: string, node: string, claims: seq<string>)

  function PodOf(w: Work): Pod {
    match w
    case FetchWork(ref, configMap) => FetchPod(ref, configMap)
    case ApplyWork(phase, configMap, drop, keep) => ApplyPod(PhaseArg(phase), configMap, drop, keep)
    case VolumeWork(ref, node, claims) => VolumePod(ref, node, claims)
  }

  // The claims a pod mounts.
  function Claims(volumes: seq<Volume>): seq<string> {
    if volumes == [] then []
    else
      var last := volumes[|volumes| - 1];
      Claims(volumes[..|volumes| - 1]) + (if last.ClaimVolume? then [last.claim] else [])
  }

  lemma {:induction false} ClaimsOfClaimVolumes(pvcs: seq<string>, readOnly: bool)
    ensures Claims(ClaimVolumes(pvcs, readOnly)) == pvcs
  {
    if pvcs != [] {
      var vs := ClaimVolumes(pvcs, readOnly);
      assert vs[..|vs| - 1] == ClaimVolumes(pvcs[..|pvcs| - 1], readOnly);
      ClaimsOfClaimVolumes(pvcs[..|pvcs| - 1], readOnly);
    }
  }

  lemma VolumePodClaims(ref: string, node: string, pvcs: seq<string>)
    ensures Claims(VolumePod(ref, node, pvcs).volumes) == pvcs
  {
    var vs := ClaimVolumes(pvcs, false);
    assert (vs + [CACHE_VOLUME])[..|vs|] == vs;
    ClaimsOfClaimVolumes(pvcs, false);
  }

  // proxmox-backup-client backup: one archive per claim, read from where the Job mounts it.
  function BackupPairs(pvcs: seq<string>): seq<string> {
    seq(|pvcs|, i requires 0 <= i < |pvcs| => ArchiveName(pvcs[i]) + ":" + MountPath(pvcs[i]))
  }

  function BackupArgv(ns: string, keyfile: string, pvcs: seq<string>, apiDir: string): seq<string> {
    ["proxmox-backup-client", "backup", "--ns", ns, "--keyfile", keyfile]
    + BackupPairs(pvcs)
    + (if apiDir != "" then ["api.pxar:" + apiDir] else [])
  }

  method BuildBackupArgv(ns: string, keyfile: string, pvcs: seq<string>, apiDir: string) returns (argv: seq<string>)
    ensures argv == BackupArgv(ns, keyfile, pvcs, apiDir)
  {
    argv := ["proxmox-backup-client", "backup", "--ns", ns, "--keyfile", keyfile];
    for i := 0 to |pvcs|
      invariant argv == ["proxmox-backup-client", "backup", "--ns", ns, "--keyfile", keyfile] + BackupPairs(pvcs)[..i]
    {
      argv := argv + [ArchiveName(pvcs[i]) + ":" + MountPath(pvcs[i])];
    }
    if apiDir != "" {
      argv := argv + ["api.pxar:" + apiDir];
    }
  }

  // ---- Go's flag package ------------------------------------------------------------------------

  datatype FlagError = BadSyntax | Undefined(name: string) | NeedsArgument(name: string)
  datatype FlagResult = FlagsSet(assignments: seq<Assignment>, rest: seq<string>) | FlagsError(error: FlagError)

  // Position of the first '=' past the first character, or the length.
  function EqualsAt(name: string, from: nat): (i: nat)
    requires 1 <= from <= |name|
    ensures from <= i <= |name|
    decreases |name| - from
  {
    if from == |name| || name[from] == '=' then from else EqualsAt(name, from + 1)
  }

  datatype Parsed = Stop(rest: seq<string>) | Assign(name: string, value: string, rest: seq<string>) | Bad(error: FlagError)

  // flag.FlagSet.parseOne
  function ParseOne(formal: set<string>, args: seq<string>): (r: Parsed)
    ensures r.Assign? ==> |r.rest| < |args|
  {
    if args == [] || |args[0]| < 2 || args[0][0] != '-' then Stop(args)
    else if args[0] == "--" then Stop(args[1..])
    else
      var name := args[0][if args[0][1] == '-' then 2 else 1..];
      if name == "" || name[0] == '-' || name[0] == '=' then Bad(BadSyntax)
      else
        var e := EqualsAt(name, 1);
        var flag := name[..e];
        if flag !in formal then Bad(Undefined(flag))
        else if e < |name| then Assign(flag, name[e + 1..], args[1..])
        else if |args| > 1 then Assign(flag, args[1], args[2..])
        else Bad(NeedsArgument(flag))
  }

  function ParseFlags(formal: set<string>, args: seq<string>): FlagResult
    decreases |args|
  {
    match ParseOne(formal, args)
    case Stop(rest) => FlagsSet([], rest)
    case Bad(error) => FlagsError(error)
    case Assign(name, value, rest) =>
      var tail := ParseFlags(formal, rest);
      if tail.FlagsError? then tail else FlagsSet([(name, value)] + tail.assignments, tail.rest)
  }

  function After(done: seq<Assignment>, r: FlagResult): FlagResult {
    if r.FlagsError? then r else FlagsSet(done + r.assignments, r.rest)
  }

  // One more flag read.
  lemma ReadsFlag(formal: set<string>, done: seq<Assignment>, args: seq<string>)
    requires ParseOne(formal, args).Assign?
    ensures var one := ParseOne(formal, args);
            After(done, ParseFlags(formal, args)) == After(done + [(one.name, one.value)], ParseFlags(formal, one.rest))
  {
    var one := ParseOne(formal, args);
    var r := ParseFlags(formal, one.rest);
    if r.FlagsSet? {
      assert done + ([(one.name, one.value)] + r.assignments) == done + [(one.name, one.value)] + r.assignments;
    }
  }

  // A flag.FlagSet: each Set call in order, and the arguments left over.
  class FlagSet {
    const formal: set<string>
    var assignments: seq<Assignment>
    var rest: seq<string>

    constructor (formal: set<string>)
      ensures this.formal == formal && assignments == [] && rest == []
    {
      this.formal := formal;
      assignments := [];
      rest := [];
    }

    method Parse(args: seq<string>) returns (error: Option<FlagError>)
      requires assignments == []
      modifies this
      ensures ParseFlags(formal, args)
              == if error.Some? then FlagsError(error.value) else FlagsSet(assignments, rest)
    {
      rest := args;
      while true
        invariant ParseFlags(formal, args) == After(assignments, ParseFlags(formal, rest))
        decreases |rest|
      {
        match ParseOne(formal, rest) {
          case Stop(left) =>
            rest := left;
            return None;
          case Bad(e) =>
            return Some(e);
          case Assign(name, value, left) =>
            ReadsFlag(formal, assignments, rest);
            assignments := assignments + [(name, value)];
            rest := left;
        }
      }
    }
  }

  // Flags a builder may write: parsed back as they are.
  predicate PlainFlag(name: string) {
    name != "" && name[0] != '-' && '=' !in name
  }

  lemma {:induction false} NoEquals(name: string, from: nat)
    requires 1 <= from <= |name| && '=' !in name
    ensures EqualsAt(name, from) == |name|
    decreases |name| - from
  {
    if from < |name| {
      assert name[from] in name;
      NoEquals(name, from + 1);
    }
  }

  lemma ParseOneWritten(formal: set<string>, k: string, v: string, rest: seq<string>)
    requires PlainFlag(k) && k in formal
    ensures ParseOne(formal, [Flag(k), v] + rest) == Assign(k, v, rest)
  {
    var args := [Flag(k), v] + rest;
    assert k[0] in k;
    NoEquals(k, 1);
    assert args[0][2..] == k;
    assert args[2..] == rest;
    assert k[..|k|] == k;
  }

  lemma {:induction false} ParseWrittenThen(formal: set<string>, flags: seq<Assignment>, rest: seq<string>)
    requires forall f | f in flags :: PlainFlag(f.0) && f.0 in formal
    ensures ParseFlags(formal, Written(flags) + rest) == After(flags, ParseFlags(formal, rest))
  {
    if flags == [] {
      assert Written(flags) + rest == rest;
    } else {
      var init, last := flags[..|flags| - 1], flags[|flags| - 1];
      assert flags == init + [last];
      var tail := [Flag(last.0), last.1] + rest;
      assert Written(flags) + rest == Written(init) + tail;
      ParseWrittenThen(formal, init, tail);
      ParseOneWritten(formal, last.0, last.1, rest);
      ReadsFlag(formal, init, tail);
    }
  }

  // Whatever the values contain, the parser assigns exactly what was written.
  lemma ParseWritten(formal: set<string>, flags: seq<Assignment>)
    requires forall f | f in flags :: PlainFlag(f.0) && f.0 in formal
    ensures ParseFlags(formal, Written(flags)) == FlagsSet(flags, [])
  {
    ParseWrittenThen(formal, flags, []);
    assert Written(flags) + [] == Written(flags);
    assert flags + [] == flags;
  }

  // A repeatable flag collects its values; a plain one keeps the last.
  function Collected(flags: seq<Assignment>, name: string): seq<string> {
    if flags == [] then []
    else
      var last := flags[|flags| - 1];
      Collected(flags[..|flags| - 1], name) + (if last.0 == name then [last.1] else [])
  }

  function LastSet(flags: seq<Assignment>, name: string, default: string): string {
    if flags == [] then default
    else if flags[|flags| - 1].0 == name then flags[|flags| - 1].1
    else LastSet(flags[..|flags| - 1], name, default)
  }

  // ---- the agent's argument parsers ------------------------------------------------------------------

  const DEFAULT_TERMLOG := "/dev/termination-log"

  function TermlogDefault(env: string): string {
    if TrimSpace(env) == "" then DEFAULT_TERMLOG else TrimSpace(env)
  }

  datatype ArgsError = BadFlag(error: FlagError) | NothingToDo | MissingRef | MissingPair | Unpaired | BadPhase | MissingFile | Unexpected

  datatype BackupArgs = BackupArgs(pvcs: seq<string>, api: string, notes: string, termlog: string) | BackupArgsError(error: ArgsError)

  const BACKUP_FLAGS: set<string> := {"pvc", "api", "notes", "termlog"}

  method ParseBackupArgs(args: seq<string>, termlogEnv: string) returns (r: BackupArgs)
    ensures r == BackupArgsOf(args, termlogEnv)
  {
    var fs := new FlagSet(BACKUP_FLAGS);
    var error := fs.Parse(args);
    if error.Some? {
      return BackupArgsError(BadFlag(error.value));
    }
    var pvcs, api := Collected(fs.assignments, "pvc"), LastSet(fs.assignments, "api", "");
    if |pvcs| == 0 && api == "" {
      return BackupArgsError(NothingToDo);
    }
    if |fs.rest| > 0 {
      return BackupArgsError(Unexpected);
    }
    return BackupArgs(pvcs, api, LastSet(fs.assignments, "notes", ""),
                      LastSet(fs.assignments, "termlog", TermlogDefault(termlogEnv)));
  }

  function BackupArgsOf(args: seq<string>, termlogEnv: string): BackupArgs {
    match ParseFlags(BACKUP_FLAGS, args)
    case FlagsError(e) => BackupArgsError(BadFlag(e))
    case FlagsSet(fs, rest) =>
      var pvcs, api := Collected(fs, "pvc"), LastSet(fs, "api", "");
      if |pvcs| == 0 && api == "" then BackupArgsError(NothingToDo)
      else if |rest| > 0 then BackupArgsError(Unexpected)
      else BackupArgs(pvcs, api, LastSet(fs, "notes", ""), LastSet(fs, "termlog", TermlogDefault(termlogEnv)))
  }

  datatype VolumeArgs =
    | VolumeArgs(ref: string, pairs: seq<(string, string)>, configMap: string, termlog: string)
    | VolumeArgsError(error: ArgsError)

  const VOLUME_FLAGS: set<string> := {"ref", "archive", "target", "configmap", "termlog"}

  function Zip(archives: seq<string>, targets: seq<string>): seq<(string, string)>
    requires |archives| == |targets|
  {
    seq(|archives|, i requires 0 <= i < |archives| => (archives[i], targets[i]))
  }

  function VolumeArgsOf(args: seq<string>, termlogEnv: string): VolumeArgs {
    match ParseFlags(VOLUME_FLAGS, args)
    case FlagsError(e) => VolumeArgsError(BadFlag(e))
    case FlagsSet(fs, rest) =>
      var archives, targets := Collected(fs, "archive"), Collected(fs, "target");
      if LastSet(fs, "ref", "") == "" then VolumeArgsError(MissingRef)
      else if |archives| == 0 then VolumeArgsError(MissingPair)
      else if |archives| != |targets| then VolumeArgsError(Unpaired)
      else if |rest| > 0 then VolumeArgsError(Unexpected)
      else VolumeArgs(LastSet(fs, "ref", ""), Zip(archives, targets), LastSet(fs, "configmap", ""),
                      LastSet(fs, "termlog", TermlogDefault(termlogEnv)))
  }

  method ParseRestoreVolumeArgs(args: seq<string>, termlogEnv: string) returns (r: VolumeArgs)
    ensures r == VolumeArgsOf(args, termlogEnv)
  {
    var fs := new FlagSet(VOLUME_FLAGS);
    var error := fs.Parse(args);
    if error.Some? {
      return VolumeArgsError(BadFlag(error.value));
    }
    var ref := LastSet(fs.assignments, "ref", "");
    var archives, targets := Collected(fs.assignments, "archive"), Collected(fs.assignments, "target");
    if ref == "" {
      return VolumeArgsError(MissingRef);
    }
    if |archives| == 0 {
      return VolumeArgsError(MissingPair);
    }
    if |archives| != |targets| {
      return VolumeArgsError(Unpaired);
    }
    if |fs.rest| > 0 {
      return VolumeArgsError(Unexpected);
    }
    var pairs: seq<(string, string)> := [];
    for i := 0 to |archives|
      invariant pairs == Zip(archives, targets)[..i]
    {
      pairs := pairs + [(archives[i], targets[i])];
    }
    return VolumeArgs(ref, pairs, LastSet(fs.assignments, "configmap", ""),
                      LastSet(fs.assignments, "termlog", TermlogDefault(termlogEnv)));
  }

  // ---- comma lists ------------------------------------------------------------------------------------

  // The trimmed, nonempty pieces, in order.
  function Cleaned(parts: seq<string>): seq<string> {
    if parts == [] then []
    else
      var piece := TrimSpace(parts[|parts| - 1]);
      Cleaned(parts[..|parts| - 1]) + (if piece != "" then [piece] else [])
  }

  function Csv(list: string): seq<string> {
    Cleaned(Split(list, ','))
  }

  method ParseCsv(list: string) returns (out: seq<string>)
    ensures out == Csv(list)
  {
    if TrimSpace(list) == "" {
      BlankHasNoPieces(list);
      return [];
    }
    out := [];
    var fields := Split(list, ',');
    for i := 0 to |fields|
      invariant out == Cleaned(fields[..i])
    {
      assert fields[..i + 1][..i] == fields[..i];
      var f := TrimSpace(fields[i]);
      if f != "" {
        out := out + [f];
      }
    }
    assert fields[..|fields|] == fields;
  }

  lemma BlankHasNoPieces(list: string)
    requires TrimSpace(list) == ""
    ensures Csv(list) == []
  {
    if ',' in list {
      TrimKeepsVisible(list, ',');
    } else {
      SplitWithout(list, ',');
      assert [list][..0] == [];
    }
  }

  lemma {:induction false} TrimLeftKeeps(s: string, c: char)
    requires c in s && !IsSpace(c)
    ensures c in TrimLeft(s)
  {
    if IsSpace(s[0]) {
      assert s == [s[0]] + s[1..];
      TrimLeftKeeps(s[1..], c);
    }
  }

  lemma {:induction false} TrimRightKeeps(s: string, c: char)
    requires c in s && !IsSpace(c)
    ensures c in TrimRight(s)
  {
    if IsSpace(s[|s| - 1]) {
      assert s == s[..|s| - 1] + [s[|s| - 1]];
      TrimRightKeeps(s[..|s| - 1], c);
    }
  }

  lemma TrimKeepsVisible(s: string, c: char)
    requires c in s && !IsSpace(c)
    ensures c in TrimSpace(s)
  {
    TrimLeftKeeps(s, c);
    TrimRightKeeps(TrimLeft(s), c);
  }

  datatype ApplyArgs =
    | ApplyArgs(phase: string, file: string, drop: seq<string>, keep: seq<string>, termlog: string)
    | ApplyArgsError(error: ArgsError)

  const APPLY_FLAGS: set<string> := {"phase", "file", "drop", "keep", "termlog"}

  function ApplyArgsOf(args: seq<string>, termlogEnv: string): ApplyArgs {
    match ParseFlags(APPLY_FLAGS, args)
    case FlagsError(e) => ApplyArgsError(BadFlag(e))
    case FlagsSet(fs, rest) =>
      var phase := LastSet(fs, "phase", "");
      if phase != "pre" && phase != "workload" then ApplyArgsError(BadPhase)
      else if LastSet(fs, "file", "") == "" then ApplyArgsError(MissingFile)
      else if |rest| > 0 then ApplyArgsError(Unexpected)
      else ApplyArgs(phase, LastSet(fs, "file", ""), Csv(LastSet(fs, "drop", "")), Csv(LastSet(fs, "keep", "")),
                     LastSet(fs, "termlog", TermlogDefault(termlogEnv)))
  }

  method ParseApplyArgs(args: seq<string>, termlogEnv: string) returns (r: ApplyArgs)
    ensures r == ApplyArgsOf(args, termlogEnv)
  {
    var fs := new FlagSet(APPLY_FLAGS);
    var error := fs.Parse(args);
    if error.Some? {
      return ApplyArgsError(BadFlag(error.value));
    }
    var phase, file := LastSet(fs.assignments, "phase", ""), LastSet(fs.assignments, "file", "");
    if phase != "pre" && phase != "workload" {
      return ApplyArgsError(BadPhase);
    }
    if file == "" {
      return ApplyArgsError(MissingFile);
    }
    if |fs.rest| > 0 {
      return ApplyArgsError(Unexpected);
    }
    var drop := ParseCsv(LastSet(fs.assignments, "drop", ""));
    var keep := ParseCsv(LastSet(fs.assignments, "keep", ""));
    return ApplyArgs(phase, file, drop, keep, LastSet(fs.assignments, "termlog", TermlogDefault(termlogEnv)));
  }

  // ---- round trips: what a builder writes, the agent reads ----------------------------------------------

  lemma {:induction false} CollectedAppend(a: seq<Assignment>, b: seq<Assignment>, name: string)
    ensures Collected(a + b, name) == Collected(a, name) + Collected(b, name)
  {
    if b == [] {
      assert a + b == a;
    } else {
      assert (a + b)[..|a + b| - 1] == a + b[..|b| - 1];
      CollectedAppend(a, b[..|b| - 1], name);
    }
  }

  lemma {:induction false} CollectedPvcs(pvcs: seq<string>)
    ensures Collected(PvcFlags(pvcs), "pvc") == pvcs
  {
    if pvcs != [] {
      assert PvcFlags(pvcs)[..|pvcs| - 1] == PvcFlags(pvcs[..|pvcs| - 1]);
      CollectedPvcs(pvcs[..|pvcs| - 1]);
    }
  }

  lemma {:induction false} LastSetAbsent(flags: seq<Assignment>, name: string, default: string)
    requires forall f | f in flags :: f.0 != name
    ensures LastSet(flags, name, default) == default && Collected(flags, name) == []
  {
    if flags != [] { LastSetAbsent(flags[..|flags| - 1], name, default); }
  }

  lemma {:induction false} LastSetAppend(a: seq<Assignment>, b: seq<Assignment>, name: string, default: string)
    ensures LastSet(a + b, name, default) == LastSet(b, name, LastSet(a, name, default))
  {
    if b == [] {
      assert a + b == a;
    } else {
      assert (a + b)[..|a + b| - 1] == a + b[..|b| - 1];
      LastSetAppend(a, b[..|b| - 1], name, default);
    }
  }

  lemma OptionalRead(k: string, v: string, name: string, default: string)
    ensures LastSet(Optional(k, v), name, default) == if name == k && v != "" then v else default
    ensures Collected(Optional(k, v), name) == if name == k && v != "" then [v] else []
  {
    var one := Optional(k, v);
    assert one != [] ==> one[..0] == [];
  }

  // What the backup flags assign to one name.
  lemma BackupFlagRead(pvcs: seq<string>, staging: string, notes: string, name: string, default: string)
    ensures LastSet(BackupFlags(pvcs, staging, notes), name, default)
            == if name == "notes" && notes != "" then notes
               else if name == "api" && staging != "" then API_MOUNT
               else LastSet(PvcFlags(pvcs), name, default)
    ensures name == "pvc" ==> Collected(BackupFlags(pvcs, staging, notes), name) == pvcs
  {
    var mount := if staging != "" then API_MOUNT else "";
    var api, note := Optional("api", mount), Optional("notes", notes);
    var claims := PvcFlags(pvcs);
    assert BackupFlags(pvcs, staging, notes) == claims + api + note;
    LastSetAppend(claims + api, note, name, default);
    LastSetAppend(claims, api, name, default);
    OptionalRead("api", mount, name, LastSet(claims, name, default));
    OptionalRead("notes", notes, name, LastSet(claims + api, name, default));
    if name == "pvc" {
      CollectedAppend(claims + api, note, name);
      CollectedAppend(claims, api, name);
      CollectedPvcs(pvcs);
    }
  }

  lemma BackupFlagsPlain(pvcs: seq<string>, staging: string, notes: string)
    ensures forall f | f in BackupFlags(pvcs, staging, notes) :: PlainFlag(f.0) && f.0 in BACKUP_FLAGS
  {
    assert PlainFlag("pvc") && PlainFlag("api") && PlainFlag("notes");
    forall f | f in BackupFlags(pvcs, staging, notes) ensures f.0 == "pvc" || f.0 == "api" || f.0 == "notes" {}
  }

  // BuildBackupJob's arguments mean the same claims, staging mount and notes to ParseBackupArgs; the only
  // refusal is the one for an empty request.
  lemma BackupArgsRoundTrip(node: string, pvcs: seq<string>, staging: string, notes: string, termlogEnv: string)
    ensures BackupArgsOf(BackupPod(node, pvcs, staging, notes).command[2..], termlogEnv)
            == if pvcs == [] && staging == "" then BackupArgsError(NothingToDo)
               else BackupArgs(pvcs, if staging == "" then "" else API_MOUNT, notes, TermlogDefault(termlogEnv))
  {
    var flags := BackupFlags(pvcs, staging, notes);
    assert BackupPod(node, pvcs, staging, notes).command[2..] == Written(flags);
    BackupFlagsPlain(pvcs, staging, notes);
    ParseWritten(BACKUP_FLAGS, flags);
    BackupFlagsRead(pvcs, staging, notes, TermlogDefault(termlogEnv));
  }

  lemma BackupFlagsRead(pvcs: seq<string>, staging: string, notes: string, termlog: string)
    ensures var flags := BackupFlags(pvcs, staging, notes);
            && Collected(flags, "pvc") == pvcs
            && LastSet(flags, "api", "") == (if staging == "" then "" else API_MOUNT)
            && LastSet(flags, "notes", "") == notes
            && LastSet(flags, "termlog", termlog) == termlog
  {
    BackupFlagRead(pvcs, staging, notes, "pvc", "");
    BackupFlagRead(pvcs, staging, notes, "api", "");
    BackupFlagRead(pvcs, staging, notes, "notes", "");
    BackupFlagRead(pvcs, staging, notes, "termlog", termlog);
    LastSetAbsent(PvcFlags(pvcs), "api", "");
    LastSetAbsent(PvcFlags(pvcs), "notes", "");
    LastSetAbsent(PvcFlags(pvcs), "termlog", termlog);
  }

  lemma {:induction false} CollectedPairs(pvcs: seq<string>)
    ensures Collected(PairFlags(pvcs), "archive") == seq(|pvcs|, i requires 0 <= i < |pvcs| => RestoreArchive(pvcs[i]))
    ensures Collected(PairFlags(pvcs), "target") == seq(|pvcs|, i requires 0 <= i < |pvcs| => MountPath(pvcs[i]))
    ensures forall f | f in PairFlags(pvcs) :: f.0 == "archive" || f.0 == "target"
  {
    if pvcs != [] {
      var init, last := pvcs[..|pvcs| - 1], pvcs[|pvcs| - 1];
      CollectedPairs(init);
      var two: seq<Assignment> := [("archive", RestoreArchive(last)), ("target", MountPath(last))];
      CollectedAppend(PairFlags(init), two, "archive");
      CollectedAppend(PairFlags(init), two, "target");
      var first: seq<Assignment> := [("archive", RestoreArchive(last))];
      assert two[..1] == first && first[..0] == [];
      assert Collected([], "archive") == [] && Collected([], "target") == [];
      assert Collected(first, "archive") == [RestoreArchive(last)] && Collected(first, "target") == [];
    }
  }

  function RestorePairs(pvcs: seq<string>): seq<(string, string)> {
    seq(|pvcs|, i requires 0 <= i < |pvcs| => (RestoreArchive(pvcs[i]), MountPath(pvcs[i])))
  }

  // BuildRestoreVolumeJob's arguments mean the same reference and archive/target pairs, in order.
  lemma VolumeArgsRoundTrip(ref: string, node: string, pvcs: seq<string>, termlogEnv: string)
    ensures VolumeArgsOf(VolumePod(ref, node, pvcs).command[2..], termlogEnv)
            == if ref == "" then VolumeArgsError(MissingRef)
               else if pvcs == [] then VolumeArgsError(MissingPair)
               else VolumeArgs(ref, RestorePairs(pvcs), "", TermlogDefault(termlogEnv))
  {
    var flags: seq<Assignment> := [("ref", ref)] + PairFlags(pvcs);
    assert VolumePod(ref, node, pvcs).command[2..] == Written(flags);
    CollectedPairs(pvcs);
    forall f | f in flags ensures PlainFlag(f.0) && f.0 in VOLUME_FLAGS {}
    ParseWritten(VOLUME_FLAGS, flags);
    VolumeFlagsRead(ref, pvcs, TermlogDefault(termlogEnv));
  }

  lemma VolumeFlagsRead(ref: string, pvcs: seq<string>, termlog: string)
    ensures var flags: seq<Assignment> := [("ref", ref)] + PairFlags(pvcs);
            && LastSet(flags, "ref", "") == ref
            && |Collected(PairFlags(pvcs), "archive")| == |Collected(PairFlags(pvcs), "target")| == |pvcs|
            && Zip(Collected(PairFlags(pvcs), "archive"), Collected(PairFlags(pvcs), "target")) == RestorePairs(pvcs)
            && Collected(flags, "archive") == Collected(PairFlags(pvcs), "archive")
            && Collected(flags, "target") == Collected(PairFlags(pvcs), "target")
            && LastSet(flags, "configmap", "") == ""
            && LastSet(flags, "termlog", termlog) == termlog
  {
    CollectedPairs(pvcs);
    var first: seq<Assignment> := [("ref", ref)];
    assert first[..0] == [];
    assert Collected(first, "archive") == Collected([], "archive") && Collected(first, "target") == Collected([], "target");
    CollectedAppend(first, PairFlags(pvcs), "archive");
    CollectedAppend(first, PairFlags(pvcs), "target");
    LastSetAppend(first, PairFlags(pvcs), "ref", "");
    LastSetAbsent(PairFlags(pvcs), "ref", LastSet(first, "ref", ""));
    LastSetAbsent(first + PairFlags(pvcs), "configmap", "");
    LastSetAbsent(first + PairFlags(pvcs), "termlog", termlog);
  }

  // Each archive a restore asks for is the one the backup of that claim wrote, and it lands where the claim is mounted.
  lemma RestoreMatchesBackup(ns: string, keyfile: string, ref: string, node: string, pvcs: seq<string>, i: nat)
    requires i < |pvcs|
    ensures BackupArgv(ns, keyfile, pvcs, "")[6 + i]
            == RestorePairs(pvcs)[i].0[..|RestorePairs(pvcs)[i].0| - |".didx"|] + ":" + RestorePairs(pvcs)[i].1
    ensures VolumePod(ref, node, pvcs).volumes[i].ClaimVolume? && VolumePod(ref, node, pvcs).volumes[i].claim == pvcs[i]
    ensures VolumePod(ref, node, pvcs).mounts[i].name == VolumePod(ref, node, pvcs).volumes[i].name
    ensures VolumePod(ref, node, pvcs).mounts[i].path == RestorePairs(pvcs)[i].1
  {
    assert RestoreArchive(pvcs[i]) == ArchiveName(pvcs[i]) + ".didx";
    assert BackupArgv(ns, keyfile, pvcs, "")[6 + i] == BackupPairs(pvcs)[i];
  }

  // ---- what survives join and split ------------------------------------------------------------------------

  lemma {:induction false} CleanedAppend(a: seq<string>, b: seq<string>)
    ensures Cleaned(a + b) == Cleaned(a) + Cleaned(b)
  {
    if b == [] {
      assert a + b == a;
    } else {
      assert (a + b)[..|a + b| - 1] == a + b[..|b| - 1];
      CleanedAppend(a, b[..|b| - 1]);
    }
  }

  function CsvEach(kinds: seq<string>): seq<string> {
    if kinds == [] then [] else Csv(kinds[0]) + CsvEach(kinds[1..])
  }

  // Joining with commas and splitting again yields the pieces of each entry, in order.
  lemma {:induction false} CsvOfJoin(kinds: seq<string>)
    ensures Csv(Join(kinds, ',')) == CsvEach(kinds)
  {
    if kinds == [] {
      SplitWithout("", ',');
      assert [""][..0] == [];
    } else if |kinds| == 1 {
      assert CsvEach(kinds[1..]) == [];
    } else {
      SplitAppend(kinds[0], ',', Join(kinds[1..], ','));
      CleanedAppend(Split(kinds[0], ','), Split(Join(kinds[1..], ','), ','));
      CsvOfJoin(kinds[1..]);
    }
  }

  // An entry the comma list can carry.
  predicate Carriable(kind: string) {
    kind != "" && Trimmed(kind) && ',' !in kind
  }

  lemma CarriableIsFixed(kind: string)
    requires Carriable(kind)
    ensures Csv(kind) == [kind]
  {
    SplitWithout(kind, ',');
    TrimSpaceFacts(kind);
    assert [kind][..0] == [] && Cleaned([]) == [];
    assert Cleaned([kind]) == [] + [kind];
  }

  lemma {:induction false} CleanedAreCarriable(parts: seq<string>)
    requires forall p | p in parts :: ',' !in p
    ensures forall k | k in Cleaned(parts) :: Carriable(k)
  {
    if parts != [] {
      CleanedAreCarriable(parts[..|parts| - 1]);
      TrimSpaceFacts(parts[|parts| - 1]);
    }
  }

  lemma CsvAreCarriable(list: string)
    ensures forall k | k in Csv(list) :: Carriable(k)
  {
    SplitPartsWithout(list, ',');
    CleanedAreCarriable(Split(list, ','));
  }

  lemma {:induction false} CarriableListSurvives(kinds: seq<string>)
    requires forall k | k in kinds :: Carriable(k)
    ensures CsvEach(kinds) == kinds
  {
    if kinds != [] {
      CarriableIsFixed(kinds[0]);
      CarriableListSurvives(kinds[1..]);
    }
  }

  // A Kind list reaches the agent unchanged exactly when every entry is nonempty, trimmed and comma-free.
  lemma KindListSurvives(kinds: seq<string>)
    ensures Csv(Join(kinds, ',')) == kinds <==> forall k | k in kinds :: Carriable(k)
  {
    CsvOfJoin(kinds);
    CsvAreCarriable(Join(kinds, ','));
    if forall k | k in kinds :: Carriable(k) { CarriableListSurvives(kinds); }
  }

  // BuildApplyJob's arguments as ParseApplyArgs reads them.
  lemma ApplyArgsRoundTrip(phase: string, configMap: string, drop: seq<string>, keep: seq<string>, termlogEnv: string)
    requires phase == "pre" || phase == "workload"
    ensures ApplyArgsOf(ApplyPod(phase, configMap, drop, keep).command[2..], termlogEnv)
            == ApplyArgs(phase, API_FILE, CsvEach(drop), CsvEach(keep), TermlogDefault(termlogEnv))
  {
    var flags := ApplyFlags(phase, drop, keep);
    assert ApplyPod(phase, configMap, drop, keep).command[2..] == Written(flags);
    forall f | f in flags ensures PlainFlag(f.0) && f.0 in APPLY_FLAGS {}
    ParseWritten(APPLY_FLAGS, flags);
    ApplyFlagsRead(phase, drop, keep, TermlogDefault(termlogEnv));
    CsvOfJoin(drop);
    CsvOfJoin(keep);
    assert LastSet(flags, "file", "") != "";
  }

  lemma SingleRead(k: string, v: string, name: string, default: string)
    ensures LastSet([(k, v)], name, default) == if name == k then v else default
  {
    assert [(k, v)][..0] == [];
  }

  // A list flag is written only for a nonempty list; absent, it reads as the empty string.
  function ListFlag(name: string, items: seq<string>): seq<Assignment> {
    if |items| > 0 then [(name, Join(items, ','))] else []
  }

  lemma ListFlagRead(k: string, items: seq<string>, name: string, default: string)
    ensures LastSet(ListFlag(k, items), name, default) == if name == k && |items| > 0 then Join(items, ',') else default
  {
    SingleRead(k, Join(items, ','), name, default);
  }

  // Reading one flag off the apply Job's command line.
  lemma ApplyFlagRead(phase: string, drop: seq<string>, keep: seq<string>, name: string, default: string)
    ensures LastSet(ApplyFlags(phase, drop, keep), name, default) ==
            if name == "keep" && |keep| > 0 then Join(keep, ',')
            else if name == "drop" && |drop| > 0 then Join(drop, ',')
            else if name == "file" then API_FILE
            else if name == "phase" then phase
            else default
  {
    var first, second := [("phase", phase)], [("file", API_FILE)];
    var dropped, kept := ListFlag("drop", drop), ListFlag("keep", keep);
    assert ApplyFlags(phase, drop, keep) == first + second + dropped + kept;
    LastSetAppend(first + second + dropped, kept, name, default);
    LastSetAppend(first + second, dropped, name, default);
    LastSetAppend(first, second, name, default);
    SingleRead("phase", phase, name, default);
    var afterPhase := LastSet(first, name, default);
    SingleRead("file", API_FILE, name, afterPhase);
    var afterFile := LastSet(second, name, afterPhase);
    ListFlagRead("drop", drop, name, afterFile);
    ListFlagRead("keep", keep, name, LastSet(dropped, name, afterFile));
  }

  lemma ApplyFlagsRead(phase: string, drop: seq<string>, keep: seq<string>, termlog: string)
    ensures var flags := ApplyFlags(phase, drop, keep);
            && LastSet(flags, "phase", "") == phase
            && LastSet(flags, "file", "") == API_FILE
            && LastSet(flags, "drop", "") == Join(drop, ',')
            && LastSet(flags, "keep", "") == Join(keep, ',')
            && LastSet(flags, "termlog", termlog) == termlog
  {
    ApplyFlagRead(phase, drop, keep, "phase", "");
    ApplyFlagRead(phase, drop, keep, "file", "");
    ApplyFlagRead(phase, drop, keep, "drop", "");
    ApplyFlagRead(phase, drop, keep, "keep", "");
    ApplyFlagRead(phase, drop, keep, "termlog", termlog);
  }
}
