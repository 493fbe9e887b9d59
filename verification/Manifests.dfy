/** Manifests: the api.yaml payload as the restore side reads it. Text is a sequence of lines; the YAML
    library is a `Codec`, of which each statement asks only the round trips it uses. */
module Manifests {
  import opened Wrappers
  import opened Strings

  // ---- decoded YAML -----------------------------------------------------------------

  datatype Value =
    | Null
    | Bool(b: bool)
    | Number(digits: string)
    | Str(s: string)
    | List(items: seq<Value>)
    | Object(fields: map<string, Value>)

  // A map-typed assertion on an absent or differently typed value yields the nil map.
  function Fields(v: Value): map<string, Value> {
    if v.Object? then v.fields else map[]
  }

  function Items(v: Value): seq<Value> {
    if v.List? then v.items else []
  }

  function Text(v: Value): string {
    if v.Str? then v.s else ""
  }

  function At(v: Value, key: string): Value {
    if key in Fields(v) then Fields(v)[key] else Null
  }

  // delete(m, k) for each key; a no-op on the nil map.
  function Without(v: Value, keys: set<string>): Value {
    if v.Object? then Object(v.fields - keys) else v
  }

  function With(v: Value, key: string, field: Value): Value {
    Object(Fields(v)[key := field])
  }

  // Replaces an existing field, as an update through a nested Go map does.
  function Replace(v: Value, key: string, field: Value): Value {
    if key in Fields(v) then With(v, key, field) else v
  }

  datatype Codec = Codec(encode: Value -> seq<string>, decode: seq<string> -> Option<Value>)

  // ---- documents -----------------------------------------------------------------------

  datatype Doc = Doc(kind: string, namespace: string, name: string, obj: Value)
  datatype PlannedDoc = PlannedDoc(kind: string, name: string, yaml: seq<string>)

  // Which document (counted from 0) stopped the parse.
  datatype ParseError = Undecodable(index: nat) | Incomplete(index: nat)
  datatype ParseResult = Parsed(docs: seq<Doc>) | Rejected(error: ParseError)

  const NAMESPACE := "Namespace"
  const CRD := "CustomResourceDefinition"
  const PVC := "PersistentVolumeClaim"
  const SERVICE := "Service"
  const CLUSTER_SCOPED: set<string> := {NAMESPACE, CRD}
  const WORKLOAD_KINDS: set<string> := {"Deployment", "StatefulSet", "DaemonSet", "Job", "CronJob", "ReplicaSet"}
  const DROPPED_KINDS: set<string> := {"Pod", "Endpoints", "EndpointSlice", "PodMetrics", "ControllerRevision"}

  // ---- stripping source-owned state ------------------------------------------------------

  const BIND_ANNOTATIONS: set<string> :=
    {"pv.kubernetes.io/bind-completed", "pv.kubernetes.io/bound-by-controller", "volume.kubernetes.io/selected-node"}
  const SERVICE_ALLOCATIONS: set<string> := {"clusterIP", "clusterIPs", "loadBalancerIP", "healthCheckNodePort"}

  function WithoutAnnotations(meta: Value, keys: set<string>): Value {
    var anns := Without(At(meta, "annotations"), keys);
    if |Fields(anns)| == 0 then Without(meta, {"annotations"}) else Replace(meta, "annotations", anns)
  }

  function ClaimUnbound(obj: Value): Value {
    var o := Replace(obj, "spec", Without(At(obj, "spec"), {"volumeName"}));
    Replace(o, "metadata", WithoutAnnotations(At(obj, "metadata"), BIND_ANNOTATIONS))
  }

  function PortsReleased(ports: seq<Value>): (r: seq<Value>)
    ensures |r| == |ports|
    ensures forall i | 0 <= i < |r| :: r[i] == Without(ports[i], {"nodePort"})
  {
    if ports == [] then [] else [Without(ports[0], {"nodePort"})] + PortsReleased(ports[1..])
  }

  function ServiceReleased(obj: Value): Value {
    var spec := Without(At(obj, "spec"), SERVICE_ALLOCATIONS);
    var freed := if At(spec, "ports").List? then With(spec, "ports", List(PortsReleased(At(spec, "ports").items))) else spec;
    Replace(obj, "spec", freed)
  }

  function Sanitized(kind: string, obj: Value): Value {
    if kind == SERVICE then ServiceReleased(obj)
    else if kind == PVC then ClaimUnbound(obj)
    else obj
  }

  // A decoded object, mutated in place by the strip helpers.
  class Manifest {
    var obj: Value

    constructor (obj: Value)
      ensures this.obj == obj
    {
      this.obj := obj;
    }

    method DeleteFrom(section: string, keys: set<string>)
      modifies this
      ensures obj == Replace(old(obj), section, Without(At(old(obj), section), keys))
    {
      if section in Fields(obj) {
        obj := With(obj, section, Without(At(obj, section), keys));
      }
    }

    method StripPVCBinding()
      modifies this
      ensures obj == ClaimUnbound(old(obj))
    {
      DeleteFrom("spec", {"volumeName"});
      var meta := At(obj, "metadata");
      var anns := Without(At(meta, "annotations"), BIND_ANNOTATIONS);
      if |Fields(anns)| == 0 {
        meta := Without(meta, {"annotations"});
      } else {
        meta := With(meta, "annotations", anns);
      }
      if "metadata" in Fields(obj) {
        obj := With(obj, "metadata", meta);
      }
    }

    static method FreePorts(ports: seq<Value>) returns (freed: seq<Value>)
      ensures freed == PortsReleased(ports)
    {
      freed := [];
      for i := 0 to |ports|
        invariant freed == PortsReleased(ports)[..i]
      {
        freed := freed + [Without(ports[i], {"nodePort"})];
      }
    }

    method StripServiceAllocations()
      modifies this
      ensures obj == ServiceReleased(old(obj))
    {
      DeleteFrom("spec", SERVICE_ALLOCATIONS);
      var spec := At(obj, "spec");
      assert spec == Without(At(old(obj), "spec"), SERVICE_ALLOCATIONS);
      if At(spec, "ports").List? {
        var freed := FreePorts(At(spec, "ports").items);
        spec := With(spec, "ports", List(freed));
        obj := With(obj, "spec", spec);
        assert Fields(old(obj))["spec" := spec] == Fields(obj);
      }
    }

    method SetNamespace(ns: string)
      requires obj.Object? && At(obj, "metadata").Object?
      modifies this
      ensures obj == Relocated(old(obj), ns)
    {
      obj := With(obj, "metadata", With(At(obj, "metadata"), "namespace", Str(ns)));
    }
  }

  function Relocated(obj: Value, ns: string): Value {
    With(obj, "metadata", With(At(obj, "metadata"), "namespace", Str(ns)))
  }

  // ---- the document reader (k8s.io/apimachinery/pkg/util/yaml) -----------------------------

  predicate IsSeparator(line: string) {
    HasPrefix(line, "---") && (var rest := TrimSpace(line[3..]); rest == "" || rest[0] == '#')
  }

  // A separator ends the document only once something has been read; otherwise it is kept as content.
  function NextDoc(lines: seq<string>, buffer: seq<string>): (r: (Option<seq<string>>, seq<string>))
    ensures r.0.Some? ==> r.0.value != [] && |r.1| + |r.0.value| <= |lines| + |buffer|
  {
    if lines == [] then (if buffer == [] then None else Some(buffer), [])
    else if IsSeparator(lines[0]) && buffer != [] then (Some(buffer), lines[1..])
    else NextDoc(lines[1..], buffer + [lines[0]])
  }

  // The documents a reader finds in a text.
  function Documents(lines: seq<string>): seq<seq<string>>
    decreases |lines|
  {
    var (doc, rest) := NextDoc(lines, []);
    if doc.None? then [] else [doc.value] + Documents(rest)
  }

  class YamlReader {
    var rest: seq<string>

    constructor (lines: seq<string>)
      ensures rest == lines
    {
      rest := lines;
    }

    method Read() returns (doc: Option<seq<string>>)
      modifies this
      ensures (doc, rest) == NextDoc(old(rest), [])
      ensures doc.Some? ==> |rest| < |old(rest)|
    {
      var buffer: seq<string> := [];
      while rest != []
        invariant NextDoc(rest, buffer) == NextDoc(old(rest), [])
        invariant |rest| + |buffer| == |old(rest)|
        decreases |rest|
      {
        var line := rest[0];
        rest := rest[1..];
        if IsSeparator(line) && buffer != [] {
          return Some(buffer);
        }
        buffer := buffer + [line];
      }
      return if buffer == [] then None else Some(buffer);
    }
  }

  // Empty, comment and separator lines carry no manifest.
  predicate IsBlankLine(line: string) {
    var l := TrimSpace(line);
    l == "" || HasPrefix(l, "---") || HasPrefix(l, "#")
  }

  predicate IsBlankDoc(raw: seq<string>) {
    forall line | line in raw :: IsBlankLine(line)
  }

  // ---- ParseAPIManifests -----------------------------------------------------------------

  // One decoded document: absent when kind or metadata.name is missing.
  function ToDoc(obj: Value, targetNS: string): Option<Doc> {
    var kind := Text(At(obj, "kind"));
    var name := Text(At(At(obj, "metadata"), "name"));
    if kind == "" || name == "" then None
    else
      var placed := if targetNS != "" && kind !in CLUSTER_SCOPED then Relocated(obj, targetNS) else obj;
      var clean := Sanitized(kind, placed);
      Some(Doc(kind, Text(At(At(clean, "metadata"), "namespace")), name, clean))
  }

  function Parse(codec: Codec, lines: seq<string>, targetNS: string, index: nat := 0): ParseResult
    decreases |lines|
  {
    var (doc, rest) := NextDoc(lines, []);
    if doc.None? then Parsed([])
    else if IsBlankDoc(doc.value) then Parse(codec, rest, targetNS, index + 1)
    else
      var obj := codec.decode(doc.value);
      if obj.None? then Rejected(Undecodable(index))
      else
        var d := ToDoc(obj.value, targetNS);
        if d.None? then Rejected(Incomplete(index))
        else
          var tail := Parse(codec, rest, targetNS, index + 1);
          if tail.Rejected? then tail else Parsed([d.value] + tail.docs)
  }

  // The documents read so far, in front of what the rest yields.
  function Prefixed(docs: seq<Doc>, r: ParseResult): ParseResult {
    if r.Rejected? then r else Parsed(docs + r.docs)
  }

  // What one more manifest does to the reading.
  lemma ParseNext(codec: Codec, lines: seq<string>, ns: string, index: nat, raw: seq<string>, rest: seq<string>)
    requires NextDoc(lines, []) == (Some(raw), rest)
    ensures var tail := Parse(codec, rest, ns, index + 1);
            Parse(codec, lines, ns, index) ==
              if IsBlankDoc(raw) then tail
              else if codec.decode(raw).None? then Rejected(Undecodable(index))
              else if ToDoc(codec.decode(raw).value, ns).None? then Rejected(Incomplete(index))
              else Prefixed([ToDoc(codec.decode(raw).value, ns).value], tail)
  {
  }

  lemma PrefixedAgain(docs: seq<Doc>, d: Doc, r: ParseResult)
    ensures Prefixed(docs, Prefixed([d], r)) == Prefixed(docs + [d], r)
  {
    if r.Parsed? { assert docs + ([d] + r.docs) == docs + [d] + r.docs; }
  }

  method DecodeDoc(obj: Value, targetNS: string) returns (d: Option<Doc>)
    ensures d == ToDoc(obj, targetNS)
  {
    var kind, name := Text(At(obj, "kind")), Text(At(At(obj, "metadata"), "name"));
    if kind == "" || name == "" {
      return None;
    }
    var m := new Manifest(obj);
    if targetNS != "" && kind !in CLUSTER_SCOPED {
      m.SetNamespace(targetNS);
    }
    if kind == SERVICE {
      m.StripServiceAllocations();
    } else if kind == PVC {
      m.StripPVCBinding();
    }
    return Some(Doc(kind, Text(At(At(m.obj, "metadata"), "namespace")), name, m.obj));
  }

  method ParseAPIManifests(codec: Codec, lines: seq<string>, targetNS: string) returns (r: ParseResult)
    ensures r == Parse(codec, lines, targetNS)
  {
    var reader := new YamlReader(lines);
    var docs: seq<Doc> := [];
    var i := 0;
    while true
      invariant Parse(codec, lines, targetNS) == Prefixed(docs, Parse(codec, reader.rest, targetNS, i))
      invariant fresh(reader)
      decreases |reader.rest|
    {
      ghost var before := reader.rest;
      var raw := reader.Read();
      if raw.None? {
        break;
      }
      ParseNext(codec, before, targetNS, i, raw.value, reader.rest);
      if !IsBlankDoc(raw.value) {
        var obj := codec.decode(raw.value);
        if obj.None? {
          return Rejected(Undecodable(i));
        }
        var d := DecodeDoc(obj.value, targetNS);
        if d.None? {
          return Rejected(Incomplete(i));
        }
        PrefixedAgain(docs, d.value, Parse(codec, reader.rest, targetNS, i + 1));
        docs := docs + [d.value];
      }
      i := i + 1;
    }
    r := Parsed(docs);
  }

  // ---- facts about stripping -----------------------------------------------------------------

  // Nothing the source cluster allocated is left, and stripping again changes nothing.
  lemma SanitizedIsClean(kind: string, obj: Value)
    ensures Sanitized(kind, Sanitized(kind, obj)) == Sanitized(kind, obj)
    ensures kind == PVC ==> "volumeName" !in Fields(At(Sanitized(kind, obj), "spec"))
    ensures kind == PVC ==> Fields(At(At(Sanitized(kind, obj), "metadata"), "annotations")).Keys !! BIND_ANNOTATIONS
    ensures kind == SERVICE ==> Fields(At(Sanitized(kind, obj), "spec")).Keys !! SERVICE_ALLOCATIONS
    ensures kind == SERVICE ==> forall p | p in Items(At(At(Sanitized(kind, obj), "spec"), "ports")) :: "nodePort" !in Fields(p)
  {
    if kind == PVC {
      ClaimUnboundTwice(obj);
    } else if kind == SERVICE {
      ServiceReleasedTwice(obj);
    }
  }

  lemma ReplaceSame(o: Value, key: string)
    ensures Replace(o, key, At(o, key)) == o
  {
    if key in Fields(o) { assert Fields(o)[key := Fields(o)[key]] == Fields(o); }
  }

  lemma WithoutTwice(v: Value, keys: set<string>)
    ensures Without(Without(v, keys), keys) == Without(v, keys)
  {
    if v.Object? { assert v.fields - keys - keys == v.fields - keys; }
  }

  lemma WithoutAnnotationsTwice(meta: Value, keys: set<string>)
    ensures WithoutAnnotations(WithoutAnnotations(meta, keys), keys) == WithoutAnnotations(meta, keys)
  {
    var anns := Without(At(meta, "annotations"), keys);
    WithoutTwice(At(meta, "annotations"), keys);
    if |Fields(anns)| == 0 {
      WithoutTwice(meta, {"annotations"});
    } else {
      ReplaceSame(Replace(meta, "annotations", anns), "annotations");
    }
  }

  lemma ClaimUnboundTwice(obj: Value)
    ensures ClaimUnbound(ClaimUnbound(obj)) == ClaimUnbound(obj)
  {
    var once := ClaimUnbound(obj);
    WithoutTwice(At(obj, "spec"), {"volumeName"});
    WithoutAnnotationsTwice(At(obj, "metadata"), BIND_ANNOTATIONS);
    ReplaceSame(once, "spec");
    ReplaceSame(once, "metadata");
    assert At(once, "spec") == Without(At(obj, "spec"), {"volumeName"});
    assert "metadata" in Fields(obj) ==> At(once, "metadata") == WithoutAnnotations(At(obj, "metadata"), BIND_ANNOTATIONS);
  }

  lemma {:induction false} PortsReleasedTwice(ports: seq<Value>)
    ensures PortsReleased(PortsReleased(ports)) == PortsReleased(ports)
  {
    if ports != [] {
      PortsReleasedTwice(ports[1..]);
      WithoutTwice(ports[0], {"nodePort"});
    }
  }

  lemma ServiceReleasedTwice(obj: Value)
    ensures ServiceReleased(ServiceReleased(obj)) == ServiceReleased(obj)
  {
    var once := ServiceReleased(obj);
    var spec := Without(At(obj, "spec"), SERVICE_ALLOCATIONS);
    WithoutTwice(At(obj, "spec"), SERVICE_ALLOCATIONS);
    ReplaceSame(once, "spec");
    if "spec" in Fields(obj) {
      if At(spec, "ports").List? {
        var ports := At(spec, "ports").items;
        PortsReleasedTwice(ports);
        var freed := With(spec, "ports", List(PortsReleased(ports)));
        ReplaceSame(freed, "ports");
        assert Fields(freed) - SERVICE_ALLOCATIONS == Fields(freed);
      }
    }
  }

  // ---- buckets ------------------------------------------------------------------------------

  datatype Bucket = Dropped | Namespaces | Definitions | PreVolume | Workloads

  function KindSet(kinds: seq<string>): set<string> {
    set k | k in kinds
  }

  function BucketOf(kind: string, drop: seq<string>, keep: seq<string>): Bucket {
    if kind in DROPPED_KINDS || (kind in KindSet(drop) && kind !in KindSet(keep)) then Dropped
    else if kind == NAMESPACE then Namespaces
    else if kind == CRD then Definitions
    else if kind in WORKLOAD_KINDS then Workloads
    else PreVolume
  }

  function Planned(codec: Codec, d: Doc): PlannedDoc {
    PlannedDoc(d.kind, d.name, codec.encode(d.obj))
  }

  // The documents of one bucket, in source order.
  function InBucket(codec: Codec, docs: seq<Doc>, drop: seq<string>, keep: seq<string>, b: Bucket): seq<PlannedDoc> {
    if docs == [] then []
    else
      var last := docs[|docs| - 1];
      InBucket(codec, docs[..|docs| - 1], drop, keep, b)
      + (if BucketOf(last.kind, drop, keep) == b then [Planned(codec, last)] else [])
  }

  method BucketDocs(codec: Codec, docs: seq<Doc>, drop: seq<string>, keep: seq<string>)
    returns (ns: seq<PlannedDoc>, crds: seq<PlannedDoc>, pre: seq<PlannedDoc>, work: seq<PlannedDoc>)
    ensures ns == InBucket(codec, docs, drop, keep, Namespaces)
    ensures crds == InBucket(codec, docs, drop, keep, Definitions)
    ensures pre == InBucket(codec, docs, drop, keep, PreVolume)
    ensures work == InBucket(codec, docs, drop, keep, Workloads)
  {
    var dropped, kept := KindSet(drop), KindSet(keep);
    ns, crds, pre, work := [], [], [], [];
    for i := 0 to |docs|
      invariant ns == InBucket(codec, docs[..i], drop, keep, Namespaces)
      invariant crds == InBucket(codec, docs[..i], drop, keep, Definitions)
      invariant pre == InBucket(codec, docs[..i], drop, keep, PreVolume)
      invariant work == InBucket(codec, docs[..i], drop, keep, Workloads)
    {
      var d := docs[i];
      assert docs[..i + 1][..i] == docs[..i];
      if d.kind in DROPPED_KINDS || (d.kind in dropped && d.kind !in kept) {
        continue;
      }
      var pd := Planned(codec, d);
      if d.kind == NAMESPACE {
        ns := ns + [pd];
      } else if d.kind == CRD {
        crds := crds + [pd];
      } else if d.kind in WORKLOAD_KINDS {
        work := work + [pd];
      } else {
        pre := pre + [pd];
      }
    }
    assert docs[..|docs|] == docs;
  }

  // The documents the filters keep, in source order.
  function Kept(codec: Codec, docs: seq<Doc>, drop: seq<string>, keep: seq<string>): seq<PlannedDoc> {
    if docs == [] then []
    else
      var last := docs[|docs| - 1];
      Kept(codec, docs[..|docs| - 1], drop, keep)
      + (if BucketOf(last.kind, drop, keep) == Dropped then [] else [Planned(codec, last)])
  }

  // The four buckets hold each kept document exactly once and no dropped one.
  lemma {:induction false} BucketsPartition(codec: Codec, docs: seq<Doc>, drop: seq<string>, keep: seq<string>)
    ensures multiset(Kept(codec, docs, drop, keep))
            == multiset(InBucket(codec, docs, drop, keep, Namespaces))
               + multiset(InBucket(codec, docs, drop, keep, Definitions))
               + multiset(InBucket(codec, docs, drop, keep, PreVolume))
               + multiset(InBucket(codec, docs, drop, keep, Workloads))
  {
    if docs != [] { BucketsPartition(codec, docs[..|docs| - 1], drop, keep); }
  }

  // The filters see the two Kind lists only as sets.
  lemma {:induction false} BucketsSeeSets(codec: Codec, docs: seq<Doc>, drop: seq<string>, keep: seq<string>,
                                          drop': seq<string>, keep': seq<string>, b: Bucket)
    requires KindSet(drop) == KindSet(drop') && KindSet(keep) == KindSet(keep')
    ensures InBucket(codec, docs, drop, keep, b) == InBucket(codec, docs, drop', keep', b)
  {
    if docs != [] { BucketsSeeSets(codec, docs[..|docs| - 1], drop, keep, drop', keep', b); }
  }

  function ClaimNames(pre: seq<PlannedDoc>): seq<string> {
    if pre == [] then []
    else
      var last := pre[|pre| - 1];
      ClaimNames(pre[..|pre| - 1]) + (if last.kind == PVC then [last.name] else [])
  }

  method PVCsFromDocs(pre: seq<PlannedDoc>) returns (out: seq<string>)
    ensures out == ClaimNames(pre)
  {
    out := [];
    for i := 0 to |pre|
      invariant out == ClaimNames(pre[..i])
    {
      assert pre[..i + 1][..i] == pre[..i];
      if pre[i].kind == PVC {
        out := out + [pre[i].name];
      }
    }
    assert pre[..|pre|] == pre;
  }

  // ---- node pins --------------------------------------------------------------------------------

  predicate ClaimsPodVolume(podSpec: Value, pvc: string) {
    exists v | v in Items(At(podSpec, "volumes")) :: Text(At(At(v, "persistentVolumeClaim"), "claimName")) == pvc
  }

  predicate StsClaimTemplate(spec: Value, stsName: string, pvc: string) {
    exists t | t in Items(At(spec, "volumeClaimTemplates")) ::
      var tname := Text(At(At(t, "metadata"), "name"));
      tname != "" && HasPrefix(pvc, tname + "-" + stsName + "-")
  }

  function HostnameSelector(podSpec: Value): string {
    Text(At(At(podSpec, "nodeSelector"), "kubernetes.io/hostname"))
  }

  // The node one document pins the claim to, "" when it does not.
  function PinOf(d: Doc, pvc: string): string {
    var spec := At(d.obj, "spec");
    var podSpec := At(At(spec, "template"), "spec");
    if d.kind in WORKLOAD_KINDS && (ClaimsPodVolume(podSpec, pvc) || StsClaimTemplate(spec, d.name, pvc))
    then HostnameSelector(podSpec)
    else ""
  }

  // First document that pins the claim wins.
  function NodeForPVC(docs: seq<Doc>, pvc: string): string {
    if docs == [] then ""
    else if PinOf(docs[0], pvc) != "" then PinOf(docs[0], pvc)
    else NodeForPVC(docs[1..], pvc)
  }
}
