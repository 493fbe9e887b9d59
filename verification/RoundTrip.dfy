/** RoundTrip: what a namespace's objects keep on their way through api.yaml, field by field: what the serializer takes,
    what the restore side takes from Services and claims, and where a document ends up. */
module RoundTrip {
  import opened Wrappers
  import opened Strings
  import opened Sorting
  import opened Manifests
  import opened Serializer

  // ---- fields ---------------------------------------------------------------------------------------------

  // Both have the field, with one value, or neither has it.
  predicate Same(a: Value, b: Value, key: string) {
    (key in Fields(a) <==> key in Fields(b)) && At(a, key) == At(b, key)
  }

  function Spec(obj: Value): Value { At(obj, "spec") }

  function Meta(obj: Value): Value { At(obj, "metadata") }

  function Annotations(obj: Value): Value { At(Meta(obj), "annotations") }

  function KindOf(obj: Value): string { Manifests.Text(At(obj, "kind")) }

  // What goes, and nothing else: the fields of `after` outside `taken` are those of `before`.
  ghost predicate Keeps(before: Value, after: Value, taken: set<string>) {
    forall key | key !in taken :: Same(after, before, key)
  }

  ghost predicate Gone(v: Value, taken: set<string>) {
    forall key | key in taken :: key !in Fields(v)
  }

  lemma WithoutKeeps(v: Value, taken: set<string>)
    ensures Keeps(v, Without(v, taken), taken) && Gone(Without(v, taken), taken)
  {
  }

  // ---- what the serializer takes -----------------------------------------------------------------------------

  const CHURN: set<string> := {"uid", "resourceVersion", "creationTimestamp", "generation", "managedFields"}
  const APPLIED := "kubectl.kubernetes.io/last-applied-configuration"

  // Only status, the five volatile metadata fields and the last-applied annotation go; an annotation map left empty goes
  // with it.
  ghost predicate Stripping(before: Value, after: Value) {
    && "status" !in Fields(after) && Keeps(before, after, {"status", "metadata"})
    && (if Meta(before).Object? then Meta(after).Object? && StrippingMeta(Meta(before), Meta(after))
        else Same(after, before, "metadata"))
  }

  ghost predicate StrippingMeta(before: Value, after: Value) {
    && Gone(after, CHURN) && Keeps(before, after, CHURN + {"annotations"})
    && StrippingAnnotations(At(before, "annotations"), before, after)
  }

  ghost predicate StrippingAnnotations(anns: Value, before: Value, after: Value) {
    if anns.Object? then
      && Gone(At(after, "annotations"), {APPLIED}) && Keeps(anns, At(after, "annotations"), {APPLIED})
      && ("annotations" in Fields(after) ==> Fields(At(after, "annotations")) != map[])
    else Same(after, before, "annotations")
  }

  lemma SameConstants()
    ensures VOLATILE == CHURN && LAST_APPLIED == APPLIED && "annotations" !in CHURN
  {
  }

  lemma StrippedAnnotations(meta: Value)
    requires meta.Object?
    ensures StrippingAnnotations(At(meta, "annotations"), meta, StrippedMeta(meta))
  {
    SameConstants();
    WithoutKeeps(meta, VOLATILE);
    assert Same(Without(meta, VOLATILE), meta, "annotations");
    WithoutKeeps(At(meta, "annotations"), {LAST_APPLIED});
  }

  lemma StrippedMetaKeeps(meta: Value)
    requires meta.Object?
    ensures StrippingMeta(meta, StrippedMeta(meta))
  {
    SameConstants();
    StrippedAnnotations(meta);
    WithoutKeeps(meta, VOLATILE);
    var m := Without(meta, VOLATILE);
    forall key | key !in CHURN + {"annotations"} ensures Same(StrippedMeta(meta), meta, key) {
      assert Same(m, meta, key);
    }
  }

  /** The serializer takes exactly what it should, and keeps everything else as it is. */
  lemma StripsExactly(obj: Value)
    ensures Stripping(obj, Stripped(obj))
  {
    WithoutKeeps(obj, {"status"});
    var o := Without(obj, {"status"});
    assert Same(o, obj, "metadata");
    if Meta(obj).Object? { StrippedMetaKeeps(Meta(obj)); }
  }

  // ---- what the restore side takes ----------------------------------------------------------------------------

  const ALLOCATIONS: set<string> := {"clusterIP", "clusterIPs", "loadBalancerIP", "healthCheckNodePort"}
  const BINDINGS: set<string> :=
    {"pv.kubernetes.io/bind-completed", "pv.kubernetes.io/bound-by-controller", "volume.kubernetes.io/selected-node"}

  // A Service loses its allocations and the node port of every port.
  ghost predicate Releasing(before: Value, after: Value) {
    && Keeps(before, after, {"spec"}) && ("spec" in Fields(after) <==> "spec" in Fields(before))
    && Gone(Spec(after), ALLOCATIONS) && Keeps(Spec(before), Spec(after), ALLOCATIONS + {"ports"})
    && (if At(Spec(before), "ports").List?
        then At(Spec(after), "ports").List? && ReleasingPorts(At(Spec(before), "ports").items, At(Spec(after), "ports").items)
        else Same(Spec(after), Spec(before), "ports"))
  }

  ghost predicate ReleasingPorts(before: seq<Value>, after: seq<Value>) {
    |after| == |before|
    && forall i | 0 <= i < |before| :: Gone(after[i], {"nodePort"}) && Keeps(before[i], after[i], {"nodePort"})
  }

  // A claim loses its volume and the three binding annotations; an annotation map left empty goes with them.
  ghost predicate Unbinding(before: Value, after: Value) {
    && Keeps(before, after, {"spec", "metadata"})
    && Gone(Spec(after), {"volumeName"}) && Keeps(Spec(before), Spec(after), {"volumeName"})
    && Keeps(Meta(before), Meta(after), {"annotations"})
    && Gone(Annotations(after), BINDINGS) && Keeps(Annotations(before), Annotations(after), BINDINGS)
    && ("annotations" in Fields(Meta(after)) ==> Fields(Annotations(after)) != map[])
  }

  lemma SameBindings()
    ensures BIND_ANNOTATIONS == BINDINGS && SERVICE_ALLOCATIONS == ALLOCATIONS && "ports" !in ALLOCATIONS
  {
  }

  lemma ReplaceKeepsOthers(o: Value, key: string, field: Value)
    ensures Keeps(o, Replace(o, key, field), {key})
    ensures key in Fields(o) ==> At(Replace(o, key, field), key) == field
    ensures key !in Fields(o) ==> Replace(o, key, field) == o
  {
  }

  lemma AnnotationsUnbound(meta: Value)
    ensures var after := WithoutAnnotations(meta, BIND_ANNOTATIONS);
            && Keeps(meta, after, {"annotations"})
            && Gone(At(after, "annotations"), BINDINGS) && Keeps(At(meta, "annotations"), At(after, "annotations"), BINDINGS)
            && ("annotations" in Fields(after) ==> Fields(At(after, "annotations")) != map[])
  {
    SameBindings();
    var anns := Without(At(meta, "annotations"), BIND_ANNOTATIONS);
    WithoutKeeps(At(meta, "annotations"), BIND_ANNOTATIONS);
    WithoutKeeps(meta, {"annotations"});
    ReplaceKeepsOthers(meta, "annotations", anns);
  }

  lemma UnboundExactly(obj: Value)
    ensures Unbinding(obj, ClaimUnbound(obj))
  {
    var unbound := Without(Spec(obj), {"volumeName"});
    var o := Replace(obj, "spec", unbound);
    var meta := WithoutAnnotations(Meta(obj), BIND_ANNOTATIONS);
    WithoutKeeps(Spec(obj), {"volumeName"});
    ReplaceKeepsOthers(obj, "spec", unbound);
    ReplaceKeepsOthers(o, "metadata", meta);
    AnnotationsUnbound(Meta(obj));
    assert Same(o, obj, "metadata");
    assert Same(Replace(o, "metadata", meta), o, "spec");
  }

  lemma PortsReleasedExactly(ports: seq<Value>)
    ensures ReleasingPorts(ports, PortsReleased(ports))
  {
    forall i | 0 <= i < |ports|
      ensures Gone(PortsReleased(ports)[i], {"nodePort"}) && Keeps(ports[i], PortsReleased(ports)[i], {"nodePort"})
    {
      WithoutKeeps(ports[i], {"nodePort"});
    }
  }

  lemma SpecReleased(spec: Value) returns (freed: Value)
    ensures var bare := Without(spec, SERVICE_ALLOCATIONS);
            freed == if At(bare, "ports").List? then With(bare, "ports", List(PortsReleased(At(bare, "ports").items))) else bare
    ensures Gone(freed, ALLOCATIONS) && Keeps(spec, freed, ALLOCATIONS + {"ports"})
    ensures if At(spec, "ports").List?
            then At(freed, "ports").List? && ReleasingPorts(At(spec, "ports").items, At(freed, "ports").items)
            else Same(freed, spec, "ports")
  {
    SameBindings();
    var bare := Without(spec, SERVICE_ALLOCATIONS);
    WithoutKeeps(spec, SERVICE_ALLOCATIONS);
    assert Same(bare, spec, "ports");
    freed := bare;
    if At(bare, "ports").List? {
      freed := With(bare, "ports", List(PortsReleased(At(bare, "ports").items)));
      PortsReleasedExactly(At(bare, "ports").items);
    }
  }

  lemma ReleasedExactly(obj: Value)
    ensures Releasing(obj, ServiceReleased(obj))
  {
    var freed := SpecReleased(Spec(obj));
    ReplaceKeepsOthers(obj, "spec", freed);
  }

  /** The restore side takes from Services and claims exactly what it should, and nothing from any other Kind. */
  lemma SanitizesExactly(kind: string, obj: Value)
    ensures if kind == "Service" then Releasing(obj, Sanitized(kind, obj))
            else if kind == "PersistentVolumeClaim" then Unbinding(obj, Sanitized(kind, obj))
            else Sanitized(kind, obj) == obj
  {
    if kind == "Service" { ReleasedExactly(obj); }
    if kind == "PersistentVolumeClaim" { UnboundExactly(obj); }
  }

  // ---- what a document keeps of the object it was read from -----------------------------------------------

  const UNPLACED: set<string> := {"Namespace", "CustomResourceDefinition"}

  // The document lands in the target namespace, unless none is given or the Kind has none.
  ghost predicate LandsIn(v: Value, ns: string, d: Doc) {
    if ns != "" && KindOf(v) !in UNPLACED then d.namespace == ns && At(Meta(d.obj), "namespace") == Str(ns)
    else d.namespace == Manifests.Text(At(Meta(v), "namespace")) && Same(Meta(d.obj), Meta(v), "namespace")
  }

  // The fields of metadata: all but the namespace stay, and all but the bindings of a claim's annotations.
  ghost predicate MetaKept(kind: string, before: Value, after: Value) {
    if kind == "PersistentVolumeClaim" then
      && Keeps(before, after, {"annotations", "namespace"})
      && Gone(At(after, "annotations"), BINDINGS) && Keeps(At(before, "annotations"), At(after, "annotations"), BINDINGS)
    else Keeps(before, after, {"namespace"})
  }

  // The fields of spec: all but what a Service or a claim loses.
  ghost predicate SpecKept(kind: string, before: Value, after: Value) {
    if kind == "PersistentVolumeClaim" then Gone(after, {"volumeName"}) && Keeps(before, after, {"volumeName"})
    else if kind == "Service" then
      && Gone(after, ALLOCATIONS) && Keeps(before, after, ALLOCATIONS + {"ports"})
      && (if At(before, "ports").List?
          then At(after, "ports").List? && ReleasingPorts(At(before, "ports").items, At(after, "ports").items)
          else Same(after, before, "ports"))
    else before == after
  }

  // What a document is of the object it was read from: only namespaces and definitions, or any but a Service or a claim
  // when no target is given, are left wholly alone.
  ghost predicate ReadFrom(v: Value, ns: string, d: Doc) {
    && d.kind == KindOf(v) && d.name == NameOf(v)
    && LandsIn(v, ns, d)
    && Keeps(v, d.obj, {"spec", "metadata"})
    && MetaKept(d.kind, Meta(v), Meta(d.obj)) && SpecKept(d.kind, Spec(v), Spec(d.obj))
    && (d.kind in UNPLACED || (ns == "" && d.kind != "Service" && d.kind != "PersistentVolumeClaim") ==> d.obj == v)
  }

  // An object is readable if it says what it is and what it is called.
  predicate Readable(v: Value) {
    KindOf(v) != "" && NameOf(v) != ""
  }

  lemma RelocatedExactly(v: Value, ns: string)
    ensures Keeps(v, Relocated(v, ns), {"metadata"}) && Keeps(Meta(v), Meta(Relocated(v, ns)), {"namespace"})
    ensures At(Meta(Relocated(v, ns)), "namespace") == Str(ns)
  {
  }

  lemma KeepsBoth(a: Value, b: Value, c: Value, first: set<string>, second: set<string>)
    requires Keeps(a, b, first) && Keeps(b, c, second)
    ensures Keeps(a, c, first + second)
  {
    forall key | key !in first + second ensures Same(c, a, key) {
      assert Same(b, a, key) && Same(c, b, key);
    }
  }

  // Placed or left where it was.
  ghost predicate Placed(v: Value, placed: Value, ns: string) {
    && Keeps(v, placed, {"metadata"}) && Keeps(Meta(v), Meta(placed), {"namespace"})
    && (if ns != "" && KindOf(v) !in UNPLACED then At(Meta(placed), "namespace") == Str(ns) else placed == v)
  }

  lemma PlacedFields(v: Value, placed: Value, ns: string, clean: Value, taken: set<string>)
    requires Placed(v, placed, ns) && Keeps(placed, clean, taken) && taken <= {"spec", "metadata"}
    ensures Keeps(v, clean, {"spec", "metadata"}) && Spec(placed) == Spec(v)
  {
    KeepsBoth(v, placed, clean, {"metadata"}, taken);
    assert Same(placed, v, "spec");
  }

  lemma CleanClaim(v: Value, placed: Value, ns: string, clean: Value)
    requires Placed(v, placed, ns) && Unbinding(placed, clean)
    ensures Keeps(v, clean, {"spec", "metadata"}) && Same(Meta(clean), Meta(placed), "namespace")
    ensures MetaKept("PersistentVolumeClaim", Meta(v), Meta(clean)) && SpecKept("PersistentVolumeClaim", Spec(v), Spec(clean))
  {
    PlacedFields(v, placed, ns, clean, {"spec", "metadata"});
    KeepsBoth(Meta(v), Meta(placed), Meta(clean), {"namespace"}, {"annotations"});
    assert Same(Meta(placed), Meta(v), "annotations");
  }

  lemma CleanService(v: Value, placed: Value, ns: string, clean: Value)
    requires Placed(v, placed, ns) && Releasing(placed, clean)
    ensures Keeps(v, clean, {"spec", "metadata"}) && Meta(clean) == Meta(placed)
    ensures MetaKept("Service", Meta(v), Meta(clean)) && SpecKept("Service", Spec(v), Spec(clean))
  {
    PlacedFields(v, placed, ns, clean, {"spec"});
    assert Same(clean, placed, "metadata");
  }

  lemma CleanKeeps(v: Value, placed: Value, ns: string, d: Doc)
    requires Placed(v, placed, ns) && d.obj == Sanitized(d.kind, placed)
    requires d.kind == KindOf(v) && d.name == NameOf(v) && d.namespace == Manifests.Text(At(Meta(d.obj), "namespace"))
    ensures ReadFrom(v, ns, d)
  {
    SanitizesExactly(d.kind, placed);
    if d.kind == "PersistentVolumeClaim" {
      CleanClaim(v, placed, ns, d.obj);
    } else if d.kind == "Service" {
      CleanService(v, placed, ns, d.obj);
    } else {
      PlacedFields(v, placed, ns, placed, {});
    }
  }

  /** A decoded object becomes a document if and only if it has a kind and a name; the document lands in the target
      namespace and keeps every field it should. */
  lemma ReadsExactly(v: Value, ns: string)
    ensures ToDoc(v, ns).Some? <==> Readable(v)
    ensures ToDoc(v, ns).Some? ==> ReadFrom(v, ns, ToDoc(v, ns).value)
  {
    if Readable(v) {
      var placed := if ns != "" && KindOf(v) !in CLUSTER_SCOPED then Relocated(v, ns) else v;
      assert CLUSTER_SCOPED == UNPLACED;
      RelocatedExactly(v, ns);
      CleanKeeps(v, placed, ns, ToDoc(v, ns).value);
    }
  }

  // ---- a whole text ---------------------------------------------------------------------------------------------

  // The documents of a text that carry a manifest.
  function Carrying(raws: seq<seq<string>>): seq<seq<string>> {
    if raws == [] then [] else (if IsBlankDoc(raws[0]) then [] else [raws[0]]) + Carrying(raws[1..])
  }

  ghost predicate Decodes(codec: Codec, raw: seq<string>) {
    codec.decode(raw).Some? && Readable(codec.decode(raw).value)
  }

  // The error names the first document, counting blank ones, that cannot be read, and why.
  ghost predicate FirstUnreadable(codec: Codec, raws: seq<seq<string>>, error: ParseError) {
    && error.index < |raws| && !IsBlankDoc(raws[error.index])
    && (if error.Undecodable? then codec.decode(raws[error.index]).None?
        else codec.decode(raws[error.index]).Some? && !Readable(codec.decode(raws[error.index]).value))
    && forall j | 0 <= j < error.index :: IsBlankDoc(raws[j]) || Decodes(codec, raws[j])
  }

  ghost predicate AllRead(codec: Codec, raws: seq<seq<string>>, ns: string, docs: seq<Doc>) {
    && |docs| == |raws|
    && forall i | 0 <= i < |raws| :: Decodes(codec, raws[i]) && ReadFrom(codec.decode(raws[i]).value, ns, docs[i])
  }

  function Shifted(error: ParseError, n: nat): ParseError {
    match error
    case Undecodable(k) => Undecodable(k + n)
    case Incomplete(k) => Incomplete(k + n)
  }

  // What a parse answers for the documents of its text.
  ghost predicate Answers(codec: Codec, raws: seq<seq<string>>, ns: string, index: nat, r: ParseResult) {
    match r
    case Parsed(docs) => AllRead(codec, Carrying(raws), ns, docs)
    case Rejected(error) => exists e: ParseError :: FirstUnreadable(codec, raws, e) && error == Shifted(e, index)
  }

  lemma AnswersLater(codec: Codec, raws: seq<seq<string>>, ns: string, index: nat, error: ParseError)
    requires raws != [] && (IsBlankDoc(raws[0]) || Decodes(codec, raws[0]))
    requires Answers(codec, raws[1..], ns, index + 1, Rejected(error))
    ensures Answers(codec, raws, ns, index, Rejected(error))
  {
    var e: ParseError :| FirstUnreadable(codec, raws[1..], e) && error == Shifted(e, index + 1);
    assert raws[1..][e.index] == raws[e.index + 1];
    forall j | 0 <= j < e.index + 1 ensures IsBlankDoc(raws[j]) || Decodes(codec, raws[j]) {
      if j > 0 { assert raws[1..][j - 1] == raws[j]; }
    }
    assert FirstUnreadable(codec, raws, Shifted(e, 1)) && error == Shifted(Shifted(e, 1), index);
  }

  lemma AllReadMore(codec: Codec, raw: seq<string>, raws: seq<seq<string>>, ns: string, d: Doc, docs: seq<Doc>)
    requires Decodes(codec, raw) && ReadFrom(codec.decode(raw).value, ns, d) && AllRead(codec, raws, ns, docs)
    ensures AllRead(codec, [raw] + raws, ns, [d] + docs)
  {
    var all, out := [raw] + raws, [d] + docs;
    forall i | 0 <= i < |all| ensures Decodes(codec, all[i]) && ReadFrom(codec.decode(all[i]).value, ns, out[i]) {
      if i > 0 { assert all[i] == raws[i - 1] && out[i] == docs[i - 1]; }
    }
  }

  lemma DocumentsFirst(lines: seq<string>)
    ensures var (doc, rest) := NextDoc(lines, []);
            if doc.None? then Documents(lines) == []
            else Documents(lines) != [] && Documents(lines)[0] == doc.value && Documents(lines)[1..] == Documents(rest)
  {
  }

  // One document in front of what the rest answers.
  lemma ReadMore(codec: Codec, raws: seq<seq<string>>, ns: string, docs: seq<Doc>)
    requires raws != [] && (IsBlankDoc(raws[0]) || Decodes(codec, raws[0])) && AllRead(codec, Carrying(raws[1..]), ns, docs)
    ensures IsBlankDoc(raws[0]) ==> AllRead(codec, Carrying(raws), ns, docs)
    ensures !IsBlankDoc(raws[0]) ==>
              var d := ToDoc(codec.decode(raws[0]).value, ns); d.Some? && AllRead(codec, Carrying(raws), ns, [d.value] + docs)
  {
    assert [] + Carrying(raws[1..]) == Carrying(raws[1..]);
    if !IsBlankDoc(raws[0]) {
      ReadsExactly(codec.decode(raws[0]).value, ns);
      AllReadMore(codec, raws[0], Carrying(raws[1..]), ns, ToDoc(codec.decode(raws[0]).value, ns).value, docs);
    }
  }

  lemma AnswersMore(codec: Codec, raws: seq<seq<string>>, ns: string, index: nat, tail: ParseResult)
    requires raws != [] && (IsBlankDoc(raws[0]) || Decodes(codec, raws[0])) && Answers(codec, raws[1..], ns, index + 1, tail)
    ensures IsBlankDoc(raws[0]) ==> Answers(codec, raws, ns, index, tail)
    ensures !IsBlankDoc(raws[0]) ==>
              var d := ToDoc(codec.decode(raws[0]).value, ns);
              d.Some? && Answers(codec, raws, ns, index, Prefixed([d.value], tail))
  {
    if tail.Rejected? {
      AnswersLater(codec, raws, ns, index, tail.error);
      if !IsBlankDoc(raws[0]) { ReadsExactly(codec.decode(raws[0]).value, ns); }
    } else {
      ReadMore(codec, raws, ns, tail.docs);
    }
  }

  lemma AnswersNow(codec: Codec, raws: seq<seq<string>>, ns: string, index: nat)
    requires raws != [] && !IsBlankDoc(raws[0]) && !Decodes(codec, raws[0])
    ensures codec.decode(raws[0]).None? ==> Answers(codec, raws, ns, index, Rejected(Undecodable(index)))
    ensures codec.decode(raws[0]).Some? ==>
              ToDoc(codec.decode(raws[0]).value, ns).None? && Answers(codec, raws, ns, index, Rejected(Incomplete(index)))
  {
    var e := if codec.decode(raws[0]).None? then Undecodable(0) else Incomplete(0);
    assert FirstUnreadable(codec, raws, e);
    if codec.decode(raws[0]).Some? { ReadsExactly(codec.decode(raws[0]).value, ns); }
  }

  lemma {:induction false} ParseAnswers(codec: Codec, lines: seq<string>, ns: string, index: nat)
    ensures Answers(codec, Documents(lines), ns, index, Parse(codec, lines, ns, index))
    decreases |lines|
  {
    var (doc, rest) := NextDoc(lines, []);
    DocumentsFirst(lines);
    if doc.Some? {
      ParseAnswers(codec, rest, ns, index + 1);
      ParseNext(codec, lines, ns, index, doc.value, rest);
      if IsBlankDoc(doc.value) || Decodes(codec, doc.value) {
        AnswersMore(codec, Documents(lines), ns, index, Parse(codec, rest, ns, index + 1));
      } else {
        AnswersNow(codec, Documents(lines), ns, index);
      }
    }
  }

  /** Parsing a text for a target namespace yields one document per manifest it carries, in order, each in the target
      namespace and otherwise as it was decoded; or it names the first manifest that cannot be read. */
  lemma ParsesExactly(codec: Codec, lines: seq<string>, ns: string)
    ensures Answers(codec, Documents(lines), ns, 0, Parse(codec, lines, ns))
  {
    ParseAnswers(codec, lines, ns, 0);
  }

  // ---- which objects go in -------------------------------------------------------------------------------------

  const OWN_GROUP := "pbs.sharifmind.ir"
  const OWN_KINDS: set<string> := {"PBSBackup", "PBSSchedule", "PBSRestore"}
  const OWN_LABEL := "pbs.sharifmind.ir/managed"

  // The API group of "group/version", and the core group of "version".
  ghost predicate InGroup(groupVersion: string, group: string) {
    || ('/' !in groupVersion && group == "")
    || (groupVersion == "/" && group == "")
    || (groupVersion != "/" && exists version :: groupVersion == group + "/" + version && '/' !in group && '/' !in version)
  }

  // Listable namespaced resources, subresources aside; no events, no Jobs, none of the operator's own Kinds.
  predicate Collects(group: string, r: Resource) {
    && r.namespaced && '/' !in r.name && ("list" in r.verbs || "*" in r.verbs)
    && !(r.kind == "Event" && (group == "" || group == "events.k8s.io"))
    && !(r.kind == "Job" && group == "batch")
    && !(r.kind in OWN_KINDS && group == OWN_GROUP)
  }

  // The object does not carry the label of what the operator makes.
  predicate Foreign(obj: Value) {
    var labels := Fields(At(Meta(obj), "labels"));
    OWN_LABEL !in labels || labels[OWN_LABEL] == Str("") || exists k | k in labels :: !labels[k].Str?
  }

  ghost predicate ListedIn(lists: seq<ResourceList>, obj: Value, group: string, kind: string) {
    exists l, r | l in lists && r in l.resources ::
      InGroup(l.groupVersion, group) && r.kind == kind && Collects(group, r) && r.listing.Items? && obj in r.listing.objects
  }

  lemma SplitOnce(group: string, version: string)
    requires '/' !in group && '/' !in version
    ensures Split(group + "/" + version, '/') == [group, version]
  {
    SplitAppend(group, '/', version);
    SplitWithout(group, '/');
    SplitWithout(version, '/');
    assert group + "/" + version == group + ['/'] + version;
  }

  lemma {:induction false} JoinSplit(s: string)
    ensures Join(Split(s, '/'), '/') == s
  {
    if s != "" {
      JoinSplit(s[1..]);
      var rest := Split(s[1..], '/');
      if s[0] == '/' {
        assert Join([""] + rest, '/') == "" + ['/'] + Join(rest, '/');
      } else {
        assert |rest| > 1 ==> ([[s[0]] + rest[0]] + rest[1..])[1..] == rest[1..];
      }
      assert s == [s[0]] + s[1..];
    }
  }

  lemma GroupIs(groupVersion: string, group: string)
    ensures GroupOf(groupVersion) == Some(group) <==> InGroup(groupVersion, group)
  {
    var parts := Split(groupVersion, '/');
    JoinSplit(groupVersion);
    SplitPartsWithout(groupVersion, '/');
    if '/' !in groupVersion { SplitWithout(groupVersion, '/'); }
    if |parts| == 2 {
      assert parts[1..] == [parts[1]];
      assert groupVersion == parts[0] + "/" + parts[1];
      assert parts[0] in parts && parts[1] in parts;
    }
    if |parts| == 1 { assert groupVersion == parts[0] && parts[0] in parts; }
    if version :| groupVersion == group + "/" + version && '/' !in group && '/' !in version { SplitOnce(group, version); }
  }

  lemma CollectsIs(group: string, r: Resource)
    ensures Listable(group, r) <==> Collects(group, r)
  {
  }

  lemma ForeignIs(obj: Value)
    ensures !Managed(obj) <==> Foreign(obj)
  {
  }

  /** The text holds exactly the listed objects, of whatever Kind, that the operator did not make; each under its Kind, its
      group and its name. */
  lemma SerializesExactly(lists: seq<ResourceList>, f: Found)
    requires OfLists(lists).Some?
    ensures f in Sort(ByKey, OfLists(lists).value) <==>
              && f.name == NameOf(f.obj) && Foreign(f.obj)
              && exists group, kind :: ListedIn(lists, f.obj, group, kind) && f.gk == if group == "" then kind else kind + "." + group
  {
    SortPermutes(ByKey, OfLists(lists).value);
    OfListsAre(lists, f);
    ForeignIs(f.obj);
    if Offers(lists, f) {
      var l, r :| l in lists && r in l.resources && GroupOf(l.groupVersion).Some? && OffersIn(GroupOf(l.groupVersion).value, r, f);
      var group := GroupOf(l.groupVersion).value;
      GroupIs(l.groupVersion, group);
      CollectsIs(group, r);
      assert ListedIn(lists, f.obj, group, r.kind);
    }
    if group, kind :| ListedIn(lists, f.obj, group, kind) && f.gk == (if group == "" then kind else kind + "." + group) {
      var l, r :| l in lists && r in l.resources && InGroup(l.groupVersion, group) && r.kind == kind && Collects(group, r)
                  && r.listing.Items? && f.obj in r.listing.objects;
      GroupIs(l.groupVersion, group);
      CollectsIs(group, r);
    }
  }

  // Every group is well-formed, and no resource to collect is refused.
  ghost predicate Readily(l: ResourceList) {
    exists group :: InGroup(l.groupVersion, group) && forall r | r in l.resources && Collects(group, r) :: !r.listing.Refused?
  }

  lemma {:induction false} NoneRefused(group: string, rs: seq<Resource>)
    ensures OfResources(group, rs).Some? <==> forall r | r in rs && Collects(group, r) :: !r.listing.Refused?
  {
    if rs != [] {
      var front, last := rs[..|rs| - 1], rs[|rs| - 1];
      NoneRefused(group, front);
      CollectsIs(group, last);
      assert rs == front + [last];
    }
  }

  lemma ListIs(l: ResourceList)
    ensures OfList(l).Some? <==> Readily(l)
  {
    var found := GroupOf(l.groupVersion);
    if found.Some? {
      GroupIs(l.groupVersion, found.value);
      NoneRefused(found.value, l.resources);
    }
    if group :| InGroup(l.groupVersion, group) && forall r | r in l.resources && Collects(group, r) :: !r.listing.Refused? {
      GroupIs(l.groupVersion, group);
    }
  }

  lemma {:induction false} ListsAre(lists: seq<ResourceList>)
    ensures OfLists(lists).Some? <==> forall l | l in lists :: Readily(l)
  {
    if lists != [] {
      var front, last := lists[..|lists| - 1], lists[|lists| - 1];
      ListsAre(front);
      ListIs(last);
      assert lists == front + [last];
    }
  }

  /** The namespace is serialized if and only if discovery works, every group version is well-formed, and no listing of what
      is to be collected is refused; a listing that may flap is passed over. */
  lemma FailsExactly(codec: Codec, d: Discovery)
    ensures Serialize(codec, d).Text? <==> d.Discovered? && forall l | l in d.lists :: Readily(l)
  {
    if d.Discovered? { ListsAre(d.lists); }
  }

  // ---- out and back -----------------------------------------------------------------------------------------------

  // What comes back of a listed object: its identity, the target namespace, and every field that neither the serializer
  // nor the restore side takes.
  ghost predicate Survives(obj: Value, ns: string, d: Doc) {
    && d.kind == KindOf(obj) && d.name == NameOf(obj) && LandsIn(obj, ns, d)
    && "status" !in Fields(d.obj) && Keeps(obj, d.obj, {"status", "spec", "metadata"})
    && SpecKept(d.kind, Spec(obj), Spec(d.obj))
    && Keeps(Meta(obj), Meta(d.obj), CHURN + {"annotations", "namespace"})
    && Keeps(Annotations(obj), Annotations(d.obj), if d.kind == "PersistentVolumeClaim" then BINDINGS + {APPLIED} else {APPLIED})
  }

  lemma StrippedParts(obj: Value)
    ensures Same(Stripped(obj), obj, "spec") && Same(Stripped(obj), obj, "kind")
    ensures Keeps(Meta(obj), Meta(Stripped(obj)), CHURN + {"annotations"})
    ensures Keeps(Annotations(obj), Annotations(Stripped(obj)), {APPLIED})
    ensures KindOf(Stripped(obj)) == KindOf(obj) && NameOf(Stripped(obj)) == NameOf(obj)
    ensures Same(Meta(Stripped(obj)), Meta(obj), "namespace")
  {
    StripsExactly(obj);
    var s := Stripped(obj);
    assert Same(s, obj, "kind") && Same(s, obj, "spec");
    assert Same(Meta(s), Meta(obj), "name") && Same(Meta(s), Meta(obj), "namespace");
    if Meta(obj).Object? && !Annotations(obj).Object? { assert Same(Meta(s), Meta(obj), "annotations"); }
  }

  lemma SurvivesAnnotations(obj: Value, v: Value, d: Doc)
    requires Keeps(Annotations(obj), Annotations(v), {APPLIED}) && MetaKept(d.kind, Meta(v), Meta(d.obj))
    ensures Keeps(Annotations(obj), Annotations(d.obj), if d.kind == "PersistentVolumeClaim" then BINDINGS + {APPLIED} else {APPLIED})
  {
    if d.kind == "PersistentVolumeClaim" {
      KeepsBoth(Annotations(obj), Annotations(v), Annotations(d.obj), {APPLIED}, BINDINGS);
    } else {
      assert Same(Meta(d.obj), Meta(v), "annotations");
    }
  }

  lemma SurvivesMeta(obj: Value, v: Value, d: Doc)
    requires Keeps(Meta(obj), Meta(v), CHURN + {"annotations"}) && MetaKept(d.kind, Meta(v), Meta(d.obj))
    ensures Keeps(Meta(obj), Meta(d.obj), CHURN + {"annotations", "namespace"})
  {
    var taken := if d.kind == "PersistentVolumeClaim" then {"annotations", "namespace"} else {"namespace"};
    KeepsBoth(Meta(obj), Meta(v), Meta(d.obj), CHURN + {"annotations"}, taken);
  }

  lemma SurvivesFrom(obj: Value, ns: string, d: Doc)
    requires ReadFrom(Stripped(obj), ns, d)
    ensures Survives(obj, ns, d)
  {
    StrippedParts(obj);
    StripsExactly(obj);
    SurvivesAnnotations(obj, Stripped(obj), d);
    SurvivesMeta(obj, Stripped(obj), d);
    KeepsBoth(obj, Stripped(obj), d.obj, {"status", "metadata"}, {"spec", "metadata"});
    assert Same(d.obj, Stripped(obj), "status");
  }

  /** Round trip, for any target namespace: the text of a namespace whose objects all have a kind and a name reads back as
      exactly those objects, in sorted order, each placed in the target and with every field of its own that is not to go. */
  lemma NamespaceRoundTrip(codec: Codec, lists: seq<ResourceList>, ns: string)
    requires OfLists(lists).Some?
    requires forall f | f in OfLists(lists).value :: Faithful(codec, Stripped(f.obj)) && Readable(f.obj)
    ensures Serialize(codec, Discovered(lists)).Text?
    ensures var found, r := Sort(ByKey, OfLists(lists).value), Parse(codec, Serialize(codec, Discovered(lists)).lines, ns);
            && r.Parsed? && |r.docs| == |found|
            && forall i | 0 <= i < |found| :: Survives(found[i].obj, ns, r.docs[i])
  {
    var found := Sort(ByKey, OfLists(lists).value);
    var vs := Contents(found);
    SerializedParses(codec, lists, ns);
    SortPermutes(ByKey, OfLists(lists).value);
    forall i | 0 <= i < |found| ensures ToDoc(vs[i], ns).Some? && ReadFrom(vs[i], ns, ToDoc(vs[i], ns).value) {
      assert found[i] in found;
      StrippedParts(found[i].obj);
      ReadsExactly(vs[i], ns);
    }
    ParsedEachIs(vs, ns, 0);
    forall i | 0 <= i < |found| ensures Survives(found[i].obj, ns, ParsedEach(vs, ns, 0).docs[i]) {
      SurvivesFrom(found[i].obj, ns, ParsedEach(vs, ns, 0).docs[i]);
    }
  }
}
