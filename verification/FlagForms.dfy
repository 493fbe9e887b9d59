/** FlagForms: what the agent's parsers make of any command line: every form a flag may take, and which lines they refuse, with
    which error first. */
module FlagForms {
  import opened Strings
  import opened CommandLines

  // ---- one argument ---------------------------------------------------------------------------------------------

  lemma {:induction false} FirstEquals(name: string, value: string, from: nat)
    requires 1 <= from <= |name| && '=' !in name
    ensures EqualsAt(name + "=" + value, from) == |name|
    decreases |name| - from
  {
    var all := name + "=" + value;
    if from < |name| {
      assert all[from] == name[from] && name[from] in name;
      FirstEquals(name, value, from + 1);
    } else {
      assert all[from] == '=';
    }
  }

  lemma PlainName(k: string)
    requires PlainFlag(k)
    ensures EqualsAt(k, 1) == |k| && k[..|k|] == k && k[0] != '='
  {
    NoEquals(k, 1);
    assert k[0] in k;
  }

  /** One dash or two, the value after an equals sign or as the next argument: all say the same. */
  lemma FormsAgree(formal: set<string>, k: string, v: string, rest: seq<string>)
    requires PlainFlag(k) && k in formal
    ensures ParseOne(formal, ["--" + k, v] + rest) == Assign(k, v, rest)
    ensures ParseOne(formal, ["-" + k, v] + rest) == Assign(k, v, rest)
    ensures ParseOne(formal, ["--" + k + "=" + v] + rest) == Assign(k, v, rest)
    ensures ParseOne(formal, ["-" + k + "=" + v] + rest) == Assign(k, v, rest)
  {
    PlainName(k);
    FirstEquals(k, v, 1);
    TwoArguments(formal, k, v, rest);
    OneArgument(formal, k, v, rest, "--");
    OneArgument(formal, k, v, rest, "-");
  }

  lemma TwoArguments(formal: set<string>, k: string, v: string, rest: seq<string>)
    requires PlainFlag(k) && k in formal && EqualsAt(k, 1) == |k| && k[..|k|] == k && k[0] != '='
    ensures ParseOne(formal, ["--" + k, v] + rest) == Assign(k, v, rest)
    ensures ParseOne(formal, ["-" + k, v] + rest) == Assign(k, v, rest)
  {
    var a, b := ["--" + k, v] + rest, ["-" + k, v] + rest;
    assert a[0][2..] == k && a[2..] == rest;
    assert b[0][1..] == k && b[2..] == rest;
  }

  lemma OneArgument(formal: set<string>, k: string, v: string, rest: seq<string>, dashes: string)
    requires PlainFlag(k) && k in formal && EqualsAt(k + "=" + v, 1) == |k| && k[0] != '='
    requires dashes == "-" || dashes == "--"
    ensures ParseOne(formal, [dashes + k + "=" + v] + rest) == Assign(k, v, rest)
  {
    var a, name := [dashes + k + "=" + v] + rest, k + "=" + v;
    assert name[..|k|] == k && name[|k| + 1..] == v;
    assert a[0][|dashes|..] == name && a[1..] == rest;
  }

  /** What is no flag ends the flags; "--" ends them and is dropped; a flag unknown or without a value is an error. */
  lemma OtherForms(formal: set<string>, k: string, rest: seq<string>)
    ensures ParseOne(formal, []) == CommandLines.Stop([])
    ensures |k| < 2 || k[0] != '-' ==> ParseOne(formal, [k] + rest) == CommandLines.Stop([k] + rest)
    ensures ParseOne(formal, ["--"] + rest) == CommandLines.Stop(rest)
    ensures PlainFlag(k) && k !in formal ==> ParseOne(formal, ["--" + k] + rest) == Bad(Undefined(k))
    ensures PlainFlag(k) && k in formal ==> ParseOne(formal, ["--" + k]) == Bad(NeedsArgument(k))
    ensures ParseOne(formal, ["---" + k] + rest) == Bad(BadSyntax) && ParseOne(formal, ["--=" + k] + rest) == Bad(BadSyntax)
  {
    assert (["--"] + rest)[1..] == rest;
    assert ("---" + k)[2..] == "-" + k && ("--=" + k)[2..] == "=" + k;
    if PlainFlag(k) {
      PlainName(k);
      assert ("--" + k)[2..] == k;
    }
  }

  // ---- whole lines ------------------------------------------------------------------------------------------------

  // Arguments that end the flags.
  predicate NoFlag(rest: seq<string>) {
    rest == [] || |rest[0]| < 2 || rest[0][0] != '-'
  }

  ghost predicate Known(flags: seq<Assignment>, names: set<string>) {
    forall f | f in flags :: PlainFlag(f.0) && f.0 in names
  }

  lemma ReadsLine(formal: set<string>, flags: seq<Assignment>, rest: seq<string>)
    requires Known(flags, formal) && NoFlag(rest)
    ensures ParseFlags(formal, Written(flags) + rest) == FlagsSet(flags, rest)
  {
    ParseWrittenThen(formal, flags, rest);
    assert flags + [] == flags;
  }

  function TermlogOf(flags: seq<Assignment>, env: string): string {
    LastSet(flags, "termlog", if TrimSpace(env) == "" then "/dev/termination-log" else TrimSpace(env))
  }

  /** The backup subcommand refuses a line that asks for nothing, or has arguments left over; otherwise it takes every claim in
      order and the last of each other flag. */
  lemma BackupLines(flags: seq<Assignment>, rest: seq<string>, env: string)
    requires Known(flags, {"pvc", "api", "notes", "termlog"}) && NoFlag(rest)
    ensures BackupArgsOf(Written(flags) + rest, env) ==
            if Collected(flags, "pvc") == [] && LastSet(flags, "api", "") == "" then BackupArgsError(NothingToDo)
            else if rest != [] then BackupArgsError(Unexpected)
            else BackupArgs(Collected(flags, "pvc"), LastSet(flags, "api", ""), LastSet(flags, "notes", ""), TermlogOf(flags, env))
  {
    ReadsLine(BACKUP_FLAGS, flags, rest);
  }

  /** The volume subcommand asks for a ref, at least one archive, as many targets, and nothing left over, in this order. */
  lemma VolumeLines(flags: seq<Assignment>, rest: seq<string>, env: string)
    requires Known(flags, {"ref", "archive", "target", "configmap", "termlog"}) && NoFlag(rest)
    ensures var r := VolumeArgsOf(Written(flags) + rest, env);
            var archives, targets := Collected(flags, "archive"), Collected(flags, "target");
            if LastSet(flags, "ref", "") == "" then r == VolumeArgsError(MissingRef)
            else if archives == [] then r == VolumeArgsError(MissingPair)
            else if |archives| != |targets| then r == VolumeArgsError(Unpaired)
            else if rest != [] then r == VolumeArgsError(Unexpected)
            else
              && r.VolumeArgs? && r.ref == LastSet(flags, "ref", "") && r.configMap == LastSet(flags, "configmap", "")
              && r.termlog == TermlogOf(flags, env) && |r.pairs| == |archives|
              && forall i | 0 <= i < |archives| :: r.pairs[i] == (archives[i], targets[i])
  {
    ReadsLine(VOLUME_FLAGS, flags, rest);
  }

  /** The apply subcommand asks for a phase it knows, a file, and nothing left over, in this order. */
  lemma ApplyLines(flags: seq<Assignment>, rest: seq<string>, env: string)
    requires Known(flags, {"phase", "file", "drop", "keep", "termlog"}) && NoFlag(rest)
    ensures var phase, file := LastSet(flags, "phase", ""), LastSet(flags, "file", "");
            ApplyArgsOf(Written(flags) + rest, env) ==
              if phase != "pre" && phase != "workload" then ApplyArgsError(BadPhase)
              else if file == "" then ApplyArgsError(MissingFile)
              else if rest != [] then ApplyArgsError(Unexpected)
              else ApplyArgs(phase, file, Csv(LastSet(flags, "drop", "")), Csv(LastSet(flags, "keep", "")), TermlogOf(flags, env))
  {
    ReadsLine(APPLY_FLAGS, flags, rest);
  }
}
