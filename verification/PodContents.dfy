/** PodContents: that what a Job's command names is what its pod mounts, and as it should: read-only where it is backed up,
    writable where it is restored, and the api ConfigMap under one name from the Job that uploads it to those that read it. */
module PodContents {
  import opened Wrappers
  import opened Decimals
  import opened CommandLines
  import opened RestoreSpec

  // The volume of a mount: the one of its name.
  ghost predicate Mounted(pod: Pod, path: string, v: Volume, readOnly: bool) {
    v in pod.volumes && Mount(v.name, path, readOnly) in pod.mounts
  }

  ghost predicate VolumesDiffer(pod: Pod) {
    forall i, j | 0 <= i < j < |pod.volumes| :: pod.volumes[i].name != pod.volumes[j].name
  }

  // Every mount is of exactly one volume.
  ghost predicate WellMounted(pod: Pod) {
    VolumesDiffer(pod) && forall m | m in pod.mounts :: exists v :: v in pod.volumes && v.name == m.name
  }

  lemma ClaimNamesDiffer(pvcs: seq<string>, readOnly: bool, i: nat, j: nat)
    requires i < j < |pvcs|
    ensures ClaimVolumes(pvcs, readOnly)[i].name != ClaimVolumes(pvcs, readOnly)[j].name
  {
    var a, b := "pvc-" + Decimal(i), "pvc-" + Decimal(j);
    if a == b {
      assert a[4..] == Decimal(i) && b[4..] == Decimal(j);
      DecimalInjective(i, j);
    }
  }

  lemma ClaimNameStarts(pvcs: seq<string>, readOnly: bool, i: nat)
    requires i < |pvcs|
    ensures |ClaimVolumes(pvcs, readOnly)[i].name| >= 1 && ClaimVolumes(pvcs, readOnly)[i].name[0] == 'p'
  {
  }

  // Volume by volume, its mount.
  ghost predicate Aligned(pod: Pod) {
    |pod.volumes| == |pod.mounts| && forall i | 0 <= i < |pod.volumes| :: pod.volumes[i].name == pod.mounts[i].name
  }

  lemma AlignedMounts(pod: Pod)
    requires Aligned(pod) && VolumesDiffer(pod)
    ensures WellMounted(pod)
  {
    forall m | m in pod.mounts ensures exists v :: v in pod.volumes && v.name == m.name {
      var i :| 0 <= i < |pod.mounts| && pod.mounts[i] == m;
      assert pod.volumes[i] in pod.volumes;
    }
  }

  // Claim volumes, and at most one more of another name.
  ghost predicate ClaimPod(pod: Pod, pvcs: seq<string>, readOnly: bool) {
    && |pvcs| <= |pod.volumes| <= |pvcs| + 1 && Aligned(pod)
    && (forall i | 0 <= i < |pvcs| :: pod.volumes[i] == ClaimVolume("pvc-" + Decimal(i), pvcs[i], readOnly))
    && (forall i | 0 <= i < |pvcs| :: pod.mounts[i] == Mount("pvc-" + Decimal(i), MountPath(pvcs[i]), readOnly))
    && (|pod.volumes| > |pvcs| ==> pod.volumes[|pvcs|].name != "" && pod.volumes[|pvcs|].name[0] != 'p')
  }

  lemma ClaimPodVolumesDiffer(pod: Pod, pvcs: seq<string>, readOnly: bool)
    requires ClaimPod(pod, pvcs, readOnly)
    ensures VolumesDiffer(pod)
  {
    forall i, j | 0 <= i < j < |pod.volumes| ensures pod.volumes[i].name != pod.volumes[j].name {
      ClaimNameStarts(pvcs, readOnly, i);
      if j < |pvcs| { ClaimNamesDiffer(pvcs, readOnly, i, j); }
    }
  }

  lemma ClaimPodMounts(pod: Pod, pvcs: seq<string>, readOnly: bool, i: nat)
    requires ClaimPod(pod, pvcs, readOnly) && i < |pvcs|
    ensures WellMounted(pod)
    ensures Mounted(pod, MountPath(pvcs[i]), ClaimVolume("pvc-" + Decimal(i), pvcs[i], readOnly), readOnly)
  {
    ClaimPodVolumesDiffer(pod, pvcs, readOnly);
    AlignedMounts(pod);
    assert pod.volumes[i] in pod.volumes && pod.mounts[i] in pod.mounts;
  }

  lemma BackupPodIs(node: string, pvcs: seq<string>, staging: string, notes: string)
    ensures ClaimPod(BackupPod(node, pvcs, staging, notes), pvcs, true)
  {
    assert "api-staging"[0] == 'a';
  }

  lemma VolumePodIs(ref: string, node: string, pvcs: seq<string>)
    ensures ClaimPod(VolumePod(ref, node, pvcs), pvcs, false)
  {
    assert "client-cache"[0] == 'c';
  }

  /** The client is called on its namespace and key, with one archive per claim in order, and the serialized namespace last. */
  lemma ArgvExactly(ns: string, keyfile: string, pvcs: seq<string>, apiDir: string)
    ensures var argv := BackupArgv(ns, keyfile, pvcs, apiDir);
            && |argv| == 6 + |pvcs| + (if apiDir == "" then 0 else 1)
            && argv[..6] == ["proxmox-backup-client", "backup", "--ns", ns, "--keyfile", keyfile]
            && (forall i | 0 <= i < |pvcs| :: argv[6 + i] == "pvc-" + pvcs[i] + ".pxar:" + MountPath(pvcs[i]))
            && (apiDir != "" ==> argv[|argv| - 1] == "api.pxar:" + apiDir)
  {
    forall i | 0 <= i < |pvcs|
      ensures BackupArgv(ns, keyfile, pvcs, apiDir)[6 + i] == "pvc-" + pvcs[i] + ".pxar:" + MountPath(pvcs[i])
    {
      ArchivesOf(ns, keyfile, pvcs, apiDir, i);
    }
  }

  lemma ArchivesOf(ns: string, keyfile: string, pvcs: seq<string>, apiDir: string, i: nat)
    requires i < |pvcs|
    ensures BackupArgv(ns, keyfile, pvcs, apiDir)[6 + i] == "pvc-" + pvcs[i] + ".pxar:" + MountPath(pvcs[i])
  {
    assert BackupArgv(ns, keyfile, pvcs, apiDir)[6 + i] == BackupPairs(pvcs)[i];
    assert "pvc-" + pvcs[i] + ".pxar" + ":" == "pvc-" + pvcs[i] + ".pxar:";
  }

  /** A backup Job runs on its node and reads every claim it is commanded, read-only, from where the archive of that claim is
      made; the serialized namespace likewise. */
  lemma BackupPodReads(node: string, pvcs: seq<string>, staging: string, notes: string,
                       ns: string, keyfile: string, apiDir: string, i: nat)
    requires i < |pvcs|
    ensures var pod := BackupPod(node, pvcs, staging, notes);
            && pod.node == Some(node) && WellMounted(pod)
            && exists v: Volume, path: string ::
                 v.ClaimVolume? && v.claim == pvcs[i] && v.readOnly && Mounted(pod, path, v, true)
                 && BackupArgv(ns, keyfile, pvcs, apiDir)[6 + i] == "pvc-" + pvcs[i] + ".pxar:" + path
  {
    var pod := BackupPod(node, pvcs, staging, notes);
    BackupPodIs(node, pvcs, staging, notes);
    ClaimPodMounts(pod, pvcs, true, i);
    ArchivesOf(ns, keyfile, pvcs, apiDir, i);
    assert Mounted(pod, MountPath(pvcs[i]), ClaimVolume("pvc-" + Decimal(i), pvcs[i], true), true);
  }

  lemma BackupPodReadsStaging(node: string, pvcs: seq<string>, staging: string, notes: string, ns: string, keyfile: string)
    requires staging != ""
    ensures var pod := BackupPod(node, pvcs, staging, notes);
            var argv := BackupArgv(ns, keyfile, pvcs, "/staging/api");
            exists v: Volume, path: string ::
              v.ConfigMapVolume? && v.configMap == staging && Mounted(pod, path, v, true) && argv[|argv| - 1] == "api.pxar:" + path
  {
    var pod := BackupPod(node, pvcs, staging, notes);
    var v := ConfigMapVolume("api-staging", staging);
    assert pod.volumes[|pvcs|] == v && pod.mounts[|pvcs|] == Mount("api-staging", API_MOUNT, true);
    assert Mounted(pod, "/staging/api", v, true);
  }

  /** A volume Job runs on its node and restores every archive it is commanded into the writable mount of its claim. */
  lemma VolumePodWrites(ref: string, node: string, pvcs: seq<string>, termlogEnv: string, i: nat)
    requires ref != "" && i < |pvcs|
    ensures var pod := VolumePod(ref, node, pvcs);
            var args := VolumeArgsOf(pod.command[2..], termlogEnv);
            && pod.node == Some(node) && WellMounted(pod)
            && args.VolumeArgs? && args.ref == ref && args.configMap == "" && |args.pairs| == |pvcs|
            && args.pairs[i].0 == "pvc-" + pvcs[i] + ".pxar.didx"
            && exists v: Volume :: v.ClaimVolume? && v.claim == pvcs[i] && !v.readOnly && Mounted(pod, args.pairs[i].1, v, false)
  {
    var pod := VolumePod(ref, node, pvcs);
    VolumePodIs(ref, node, pvcs);
    ClaimPodMounts(pod, pvcs, false, i);
    VolumeArgsRoundTrip(ref, node, pvcs, termlogEnv);
    assert Mounted(pod, MountPath(pvcs[i]), ClaimVolume("pvc-" + Decimal(i), pvcs[i], false), false);
  }

  // ---- the api ConfigMap ---------------------------------------------------------------------------------------

  lemma FetchWritten(ref: string, configMap: string)
    ensures FetchPod(ref, configMap).command[2..]
            == Written([("ref", ref), ("archive", "api.pxar.didx"), ("target", API_MOUNT), ("configmap", configMap)])
  {
    WrittenPair("ref", ref, "archive", "api.pxar.didx");
    WrittenPair("target", API_MOUNT, "configmap", configMap);
    var a, b := [("ref", ref), ("archive", "api.pxar.didx")], [("target", API_MOUNT), ("configmap", configMap)];
    WrittenAppend(a, b);
    assert a + b == [("ref", ref), ("archive", "api.pxar.didx"), ("target", API_MOUNT), ("configmap", configMap)];
  }

  lemma FetchRead(ref: string, configMap: string, termlog: string)
    ensures var flags := [("ref", ref), ("archive", "api.pxar.didx"), ("target", API_MOUNT), ("configmap", configMap)];
            && Collected(flags, "archive") == ["api.pxar.didx"] && Collected(flags, "target") == [API_MOUNT]
            && LastSet(flags, "ref", "") == ref && LastSet(flags, "configmap", "") == configMap
            && LastSet(flags, "termlog", termlog) == termlog
  {
    var a, b: seq<Assignment> := [("ref", ref)], [("archive", "api.pxar.didx")];
    var c, d: seq<Assignment> := [("target", API_MOUNT)], [("configmap", configMap)];
    assert a + b + c + d == [("ref", ref), ("archive", "api.pxar.didx"), ("target", API_MOUNT), ("configmap", configMap)];
    FetchReadOne(a, b, c, d, "archive", "");
    FetchReadOne(a, b, c, d, "target", "");
    FetchReadOne(a, b, c, d, "ref", "");
    FetchReadOne(a, b, c, d, "configmap", "");
    FetchReadOne(a, b, c, d, "termlog", termlog);
  }

  // Reading one flag off four.
  lemma FetchReadOne(a: seq<Assignment>, b: seq<Assignment>, c: seq<Assignment>, d: seq<Assignment>, name: string, default: string)
    requires |a| == |b| == |c| == |d| == 1
    ensures LastSet(a + b + c + d, name, default) ==
            if d[0].0 == name then d[0].1 else if c[0].0 == name then c[0].1 else if b[0].0 == name then b[0].1
            else if a[0].0 == name then a[0].1 else default
    ensures Collected(a + b + c + d, name) ==
            (if a[0].0 == name then [a[0].1] else []) + (if b[0].0 == name then [b[0].1] else [])
            + (if c[0].0 == name then [c[0].1] else []) + (if d[0].0 == name then [d[0].1] else [])
  {
    LastSetAppend(a + b + c, d, name, default);
    LastSetAppend(a + b, c, name, default);
    LastSetAppend(a, b, name, default);
    CollectedAppend(a + b + c, d, name);
    CollectedAppend(a + b, c, name);
    CollectedAppend(a, b, name);
    OneRead(a, name, default);
    OneRead(b, name, LastSet(a, name, default));
    OneRead(c, name, LastSet(a + b, name, default));
    OneRead(d, name, LastSet(a + b + c, name, default));
  }

  lemma OneRead(flags: seq<Assignment>, name: string, default: string)
    requires |flags| == 1
    ensures LastSet(flags, name, default) == if flags[0].0 == name then flags[0].1 else default
    ensures Collected(flags, name) == if flags[0].0 == name then [flags[0].1] else []
  {
    assert flags[..0] == [] && flags[1..] == [];
  }

  /** The fetch Job asks the snapshot for api.pxar, into a writable mount, and uploads what it finds as the ConfigMap. */
  lemma FetchPodUploads(ref: string, configMap: string, termlogEnv: string)
    requires ref != ""
    ensures var pod := FetchPod(ref, configMap);
            var args := VolumeArgsOf(pod.command[2..], termlogEnv);
            && args.VolumeArgs? && args.ref == ref && args.configMap == configMap
            && |args.pairs| == 1 && args.pairs[0].0 == "api.pxar.didx"
            && exists v: Volume :: v.EmptyDirVolume? && Mounted(pod, args.pairs[0].1, v, false)
  {
    var pod := FetchPod(ref, configMap);
    var flags := [("ref", ref), ("archive", "api.pxar.didx"), ("target", API_MOUNT), ("configmap", configMap)];
    FetchWritten(ref, configMap);
    forall f | f in flags ensures PlainFlag(f.0) && f.0 in VOLUME_FLAGS {}
    ParseWritten(VOLUME_FLAGS, flags);
    FetchRead(ref, configMap, TermlogDefault(termlogEnv));
    assert Mounted(pod, API_MOUNT, EmptyDirVolume("api-staging"), false);
  }

  /** The Jobs of one restore meet in one ConfigMap: the fetch Job of its snapshot uploads it, and both apply Jobs read the
      file in it that the upload put there, each in its own phase and with the restore's own Kind lists as written. */
  lemma ApiJobsMeet(cfg: Config, termlogEnv: string)
    requires cfg.snapshotRef != ""
    ensures var fetch := PodOf(FetchStep(cfg).work);
            var up := VolumeArgsOf(fetch.command[2..], termlogEnv);
            && up.VolumeArgs? && up.ref == cfg.snapshotRef && up.configMap == cfg.name + "-api"
            && ReadsApi(PodOf(PreStep(cfg).work), up.configMap, "pre", cfg, termlogEnv)
            && ReadsApi(PodOf(WorkloadStep(cfg).work), up.configMap, "workload", cfg, termlogEnv)
  {
    FetchPodUploads(cfg.snapshotRef, cfg.name + "-api", termlogEnv);
    ApplyPodReads(cfg, "pre", termlogEnv);
    ApplyPodReads(cfg, "workload", termlogEnv);
  }

  // The file lies in a read-only mount of the ConfigMap.
  ghost predicate Supplies(pod: Pod, configMap: string, file: string) {
    exists v: Volume, path: string ::
      v.ConfigMapVolume? && v.configMap == configMap && Mounted(pod, path, v, true) && file == path + "/api.yaml"
  }

  ghost predicate ReadsApi(pod: Pod, configMap: string, phase: string, cfg: Config, termlogEnv: string) {
    |pod.command| >= 2
    && var args := ApplyArgsOf(pod.command[2..], termlogEnv);
       && args.ApplyArgs? && args.phase == phase
       && args.drop == CsvEach(cfg.dropKinds) && args.keep == CsvEach(cfg.keepKinds)
       && Supplies(pod, configMap, args.file)
  }

  lemma ApplyPodSupplies(phase: string, configMap: string, drop: seq<string>, keep: seq<string>)
    ensures Supplies(ApplyPod(phase, configMap, drop, keep), configMap, API_FILE)
  {
    var pod := ApplyPod(phase, configMap, drop, keep);
    var v := ConfigMapVolume("api-staging", configMap);
    assert pod.volumes[0] == v && pod.mounts[0] == Mount("api-staging", API_MOUNT, true);
    assert Mounted(pod, API_MOUNT, v, true);
    assert API_FILE == API_MOUNT + "/api.yaml";
  }

  lemma ApplyPodReads(cfg: Config, phase: string, termlogEnv: string)
    requires phase == "pre" || phase == "workload"
    ensures ReadsApi(ApplyPod(phase, cfg.name + "-api", cfg.dropKinds, cfg.keepKinds), cfg.name + "-api", phase, cfg, termlogEnv)
  {
    ApplyArgsRoundTrip(phase, cfg.name + "-api", cfg.dropKinds, cfg.keepKinds, termlogEnv);
    ApplyPodSupplies(phase, cfg.name + "-api", cfg.dropKinds, cfg.keepKinds);
  }
}
