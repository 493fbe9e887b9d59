/** Serializer: a namespace as one multi-document text. Which objects go in, what is stripped from them, the order,
    and the text; with the round trip through the restore side's parser. */
module Serializer {
  import opened Wrappers
  import opened Strings
  import opened Sorting
  import opened Manifests

  // ---- discovery --------------------------------------------------------------------------------------

  // A per-resource list is skipped for errors an aggregated API may flap with, and fatal otherwise.
  datatype Listing = Skipped | Refused | Items(objects: seq<Value>)
  datatype Resource = Resource(name: string, kind: string, namespaced: bool, verbs: seq<string>, listing: Listing)
  datatype ResourceList = ResourceList(groupVersion: string, resources: seq<Resource>)

  // Partial discovery results count as discovered.
  datatype Discovery = DiscoveryFails | Discovered(lists: seq<ResourceList>)

  datatype Serialized = SerializeFails | Text(lines: seq<string>)

  // The group of "group/version" or "version"; absent when malformed.
  function GroupOf(groupVersion: string): Option<string> {
    var parts := Split(groupVersion, '/');
    if groupVersion == "" || groupVersion == "/" || |parts| == 1 then Some("")
    else if |parts| == 2 then Some(parts[0])
    else None
  }

  function GroupKind(group: string, kind: string): string {
    if group == "" then kind else kind + "." + group
  }

  const PBS_GROUP := "pbs.sharifmind.ir"

  predicate Excluded(group: string, kind: string) {
    || (kind == "Event" && (group == "" || group == "events.k8s.io"))
    || (kind == "Job" && group == "batch")
    || (group == PBS_GROUP && kind in {"PBSBackup", "PBSSchedule", "PBSRestore"})
  }

  predicate HasVerb(verbs: seq<string>, verb: string) {
    verb in verbs || "*" in verbs
  }

  predicate Listable(group: string, r: Resource) {
    r.namespaced && '/' !in r.name && !Excluded(group, r.kind) && HasVerb(r.verbs, "list")
  }

  // ---- objects -------------------------------------------------------------------------------------------

  const MANAGED := "pbs.sharifmind.ir/managed"
  const VOLATILE: set<string> := {"uid", "resourceVersion", "creationTimestamp", "generation", "managedFields"}
  const LAST_APPLIED := "kubectl.kubernetes.io/last-applied-configuration"

  // A labels map with a value that is no string reads as no labels at all.
  function Label(obj: Value, key: string): string {
    var labels := Fields(At(At(obj, "metadata"), "labels"));
    if key in labels && forall k | k in labels :: labels[k].Str? then labels[key].s else ""
  }

  predicate Managed(obj: Value) {
    Label(obj, MANAGED) != ""
  }

  function NameOf(obj: Value): string {
    Manifests.Text(At(At(obj, "metadata"), "name"))
  }

  function StrippedMeta(meta: Value): Value {
    var m := Without(meta, VOLATILE);
    var anns := Without(At(m, "annotations"), {LAST_APPLIED});
    if !anns.Object? then m
    else if |Fields(anns)| == 0 then Without(m, {"annotations"})
    else With(m, "annotations", anns)
  }

  function Stripped(obj: Value): Value {
    var o := Without(obj, {"status"});
    if At(o, "metadata").Object? then With(o, "metadata", StrippedMeta(At(o, "metadata"))) else o
  }

  class Object {
    var obj: Value

    constructor (obj: Value)
      ensures this.obj == obj
    {
      this.obj := obj;
    }

    method StripVolatile()
      modifies this
      ensures obj == Stripped(old(obj))
    {
      obj := Without(obj, {"status"});
      if !At(obj, "metadata").Object? {
        return;
      }
      var meta := Without(At(obj, "metadata"), VOLATILE);
      var anns := At(meta, "annotations");
      if anns.Object? {
        anns := Without(anns, {LAST_APPLIED});
        meta := if |Fields(anns)| == 0 then Without(meta, {"annotations"}) else With(meta, "annotations", anns);
      }
      obj := With(obj, "metadata", meta);
    }
  }

  // ---- what goes in ------------------------------------------------------------------------------------

  datatype Found = Found(gk: string, name: string, obj: Value)

  predicate ByKey(a: Found, b: Found) {
    Less(a.gk, b.gk) || (a.gk == b.gk && Less(a.name, b.name))
  }

  // The unmanaged objects of one listing, in listing order.
  function Unmanaged(gk: string, objects: seq<Value>): seq<Found> {
    if objects == [] then []
    else
      var last := objects[|objects| - 1];
      Unmanaged(gk, objects[..|objects| - 1]) + (if Managed(last) then [] else [Found(gk, NameOf(last), last)])
  }

  function OfResource(group: string, r: Resource): Option<seq<Found>> {
    if !Listable(group, r) then Some([])
    else match r.listing
      case Skipped => Some([])
      case Refused => None
      case Items(objects) => Some(Unmanaged(GroupKind(group, r.kind), objects))
  }

  function Appended<T>(a: Option<seq<T>>, b: Option<seq<T>>): Option<seq<T>> {
    if a.Some? && b.Some? then Some(a.value + b.value) else None
  }

  function OfResources(group: string, rs: seq<Resource>): Option<seq<Found>> {
    if rs == [] then Some([])
    else Appended(OfResources(group, rs[..|rs| - 1]), OfResource(group, rs[|rs| - 1]))
  }

  function OfList(l: ResourceList): Option<seq<Found>> {
    if GroupOf(l.groupVersion).None? then None else OfResources(GroupOf(l.groupVersion).value, l.resources)
  }

  function OfLists(lists: seq<ResourceList>): Option<seq<Found>> {
    if lists == [] then Some([])
    else Appended(OfLists(lists[..|lists| - 1]), OfList(lists[|lists| - 1]))
  }

  // ---- the text ------------------------------------------------------------------------------------------

  // strings.Join(rendered, "\n---\n") + "\n", each rendered document already ending its last line.
  function Joined(blocks: seq<seq<string>>): seq<string> {
    if blocks == [] then []
    else if |blocks| == 1 then blocks[0] + [""]
    else blocks[0] + [""] + ["---"] + Joined(blocks[1..])
  }

  function Blocks(codec: Codec, found: seq<Found>): seq<seq<string>> {
    seq(|found|, i requires 0 <= i < |found| => codec.encode(Stripped(found[i].obj)))
  }

  function Serialize(codec: Codec, d: Discovery): Serialized {
    if d.DiscoveryFails? || OfLists(d.lists).None? then SerializeFails
    else Text(Joined(Blocks(codec, Sort(ByKey, OfLists(d.lists).value))))
  }

  // ---- the method ---------------------------------------------------------------------------------------

  lemma {:induction false} FailureSticks(lists: seq<ResourceList>, i: nat)
    requires i <= |lists| && OfLists(lists[..i]).None?
    ensures OfLists(lists).None?
    decreases |lists| - i
  {
    if i < |lists| {
      assert lists[..i + 1][..i] == lists[..i];
      FailureSticks(lists, i + 1);
    } else {
      assert lists[..i] == lists;
    }
  }

  lemma {:induction false} ResourceFailureSticks(group: string, rs: seq<Resource>, i: nat)
    requires i <= |rs| && OfResources(group, rs[..i]).None?
    ensures OfResources(group, rs).None?
    decreases |rs| - i
  {
    if i < |rs| {
      assert rs[..i + 1][..i] == rs[..i];
      ResourceFailureSticks(group, rs, i + 1);
    } else {
      assert rs[..i] == rs;
    }
  }

  method CollectResource(group: string, r: Resource) returns (found: Option<seq<Found>>)
    ensures found == OfResource(group, r)
  {
    if !r.namespaced || '/' in r.name || Excluded(group, r.kind) || !HasVerb(r.verbs, "list") {
      return Some([]);
    }
    if r.listing.Skipped? {
      return Some([]);
    }
    if r.listing.Refused? {
      return None;
    }
    var objects, gk := r.listing.objects, GroupKind(group, r.kind);
    var out: seq<Found> := [];
    for i := 0 to |objects|
      invariant out == Unmanaged(gk, objects[..i])
    {
      assert objects[..i + 1][..i] == objects[..i];
      if Managed(objects[i]) {
        continue;
      }
      out := out + [Found(gk, NameOf(objects[i]), objects[i])];
    }
    assert objects[..|objects|] == objects;
    return Some(out);
  }

  method CollectList(l: ResourceList) returns (found: Option<seq<Found>>)
    ensures found == OfList(l)
  {
    var group := GroupOf(l.groupVersion);
    if group.None? {
      return None;
    }
    var rs := l.resources;
    var out: seq<Found> := [];
    for i := 0 to |rs|
      invariant OfResources(group.value, rs[..i]) == Some(out)
    {
      var more := CollectResource(group.value, rs[i]);
      assert rs[..i + 1][..i] == rs[..i];
      if more.None? {
        ResourceFailureSticks(group.value, rs, i + 1);
        return None;
      }
      out := out + more.value;
    }
    assert rs[..|rs|] == rs;
    return Some(out);
  }

  // The rendered documents, each stripped in place before it is marshalled.
  method Render(codec: Codec, found: seq<Found>) returns (rendered: seq<seq<string>>)
    ensures rendered == Blocks(codec, found)
  {
    rendered := [];
    for i := 0 to |found|
      invariant rendered == Blocks(codec, found)[..i]
    {
      var o := new Object(found[i].obj);
      o.StripVolatile();
      rendered := rendered + [codec.encode(o.obj)];
    }
  }

  method SerializeNamespace(codec: Codec, d: Discovery) returns (r: Serialized)
    ensures r == Serialize(codec, d)
  {
    if d.DiscoveryFails? {
      return SerializeFails;
    }
    var lists := d.lists;
    var found: seq<Found> := [];
    for i := 0 to |lists|
      invariant OfLists(lists[..i]) == Some(found)
    {
      var more := CollectList(lists[i]);
      assert lists[..i + 1][..i] == lists[..i];
      if more.None? {
        FailureSticks(lists, i + 1);
        return SerializeFails;
      }
      found := found + more.value;
    }
    assert lists[..|lists|] == lists;
    var rendered := Render(codec, Sort(ByKey, found));
    return Text(Joined(rendered));
  }

  // ---- which objects are offered ------------------------------------------------------------------------

  ghost predicate OffersIn(group: string, r: Resource, f: Found) {
    && Listable(group, r) && r.listing.Items?
    && f.obj in r.listing.objects && !Managed(f.obj) && f == Found(GroupKind(group, r.kind), NameOf(f.obj), f.obj)
  }

  // Some listing contains the object, whatever the discovery order.
  ghost predicate Offers(lists: seq<ResourceList>, f: Found) {
    exists l, r | l in lists && r in l.resources :: GroupOf(l.groupVersion).Some? && OffersIn(GroupOf(l.groupVersion).value, r, f)
  }

  lemma {:induction false} UnmanagedAre(gk: string, objects: seq<Value>, f: Found)
    ensures f in Unmanaged(gk, objects) <==> f.obj in objects && !Managed(f.obj) && f == Found(gk, NameOf(f.obj), f.obj)
  {
    if objects != [] { UnmanagedAre(gk, objects[..|objects| - 1], f); }
  }

  lemma OfResourceAre(group: string, r: Resource, f: Found)
    requires OfResource(group, r).Some?
    ensures f in OfResource(group, r).value <==> OffersIn(group, r, f)
  {
    if Listable(group, r) && r.listing.Items? { UnmanagedAre(GroupKind(group, r.kind), r.listing.objects, f); }
  }

  lemma {:induction false} OfResourcesAre(group: string, rs: seq<Resource>, f: Found)
    requires OfResources(group, rs).Some?
    ensures f in OfResources(group, rs).value <==> exists r | r in rs :: OffersIn(group, r, f)
  {
    if rs != [] {
      OfResourcesAre(group, rs[..|rs| - 1], f);
      OfResourceAre(group, rs[|rs| - 1], f);
    }
  }

  lemma {:induction false} OfListsAre(lists: seq<ResourceList>, f: Found)
    requires OfLists(lists).Some?
    ensures f in OfLists(lists).value <==> Offers(lists, f)
  {
    if lists != [] {
      var n := |lists| - 1;
      OfListsAre(lists[..n], f);
      OfResourcesAre(GroupOf(lists[n].groupVersion).value, lists[n].resources, f);
      OffersSnoc(lists, f);
    }
  }

  lemma OffersSnoc(lists: seq<ResourceList>, f: Found)
    requires lists != []
    ensures var last := lists[|lists| - 1];
            Offers(lists, f) <==>
              Offers(lists[..|lists| - 1], f)
              || (GroupOf(last.groupVersion).Some?
                  && exists r | r in last.resources :: OffersIn(GroupOf(last.groupVersion).value, r, f))
  {
    var front, last := lists[..|lists| - 1], lists[|lists| - 1];
    assert lists == front + [last];
  }

  // Different (group-kind, name) pairs throughout.
  ghost predicate UniqueKeys(found: seq<Found>) {
    forall i, j | 0 <= i < j < |found| :: found[i].gk != found[j].gk || found[i].name != found[j].name
  }

  lemma ByKeyIsOrder()
    ensures WeakOrder(ByKey)
  {
    forall x: Found ensures !ByKey(x, x) {
      LessIrreflexive(x.gk);
      LessIrreflexive(x.name);
    }
    forall x: Found, y: Found, z: Found | ByKey(x, y) && ByKey(y, z) ensures ByKey(x, z) {
      if Less(x.gk, y.gk) && Less(y.gk, z.gk) { LessTransitive(x.gk, y.gk, z.gk); }
      if Less(x.name, y.name) && Less(y.name, z.name) { LessTransitive(x.name, y.name, z.name); }
    }
    LessIsOrder();
    forall x: Found, y: Found, z: Found | ByKey(x, z) ensures ByKey(x, y) || ByKey(y, z) {
      ByKeySplits(x, y, z);
    }
  }

  lemma ByKeySplits(x: Found, y: Found, z: Found)
    requires ByKey(x, z)
    ensures ByKey(x, y) || ByKey(y, z)
  {
    LessTotal(x.gk, y.gk);
    LessTotal(y.gk, z.gk);
    LessTotal(x.name, y.name);
    LessTotal(y.name, z.name);
    if Less(y.gk, x.gk) && Less(x.gk, z.gk) { LessTransitive(y.gk, x.gk, z.gk); }
    if Less(y.name, x.name) && Less(x.name, z.name) { LessTransitive(y.name, x.name, z.name); }
  }

  lemma UniqueAscends(found: seq<Found>)
    requires UniqueKeys(found)
    ensures Ascending(ByKey, Sort(ByKey, found))
  {
    ByKeyIsOrder();
    forall i, j | 0 <= i < j < |found| ensures ByKey(found[i], found[j]) || ByKey(found[j], found[i]) {
      LessTotal(found[i].gk, found[j].gk);
      LessTotal(found[i].name, found[j].name);
    }
    SortAscends(ByKey, found);
  }

  /** Order independence. Two discoveries that offer the same objects, however grouped and ordered, give the same
      text, as long as no two objects share group-kind and name. */
  lemma TextIgnoresOrder(codec: Codec, a: seq<ResourceList>, b: seq<ResourceList>)
    requires OfLists(a).Some? && OfLists(b).Some?
    requires UniqueKeys(OfLists(a).value) && UniqueKeys(OfLists(b).value)
    requires forall f :: Offers(a, f) <==> Offers(b, f)
    ensures Serialize(codec, Discovered(a)) == Serialize(codec, Discovered(b))
  {
    var xs, ys := OfLists(a).value, OfLists(b).value;
    ByKeyIsOrder();
    UniqueAscends(xs);
    UniqueAscends(ys);
    SortPermutes(ByKey, xs);
    SortPermutes(ByKey, ys);
    forall f ensures f in Sort(ByKey, xs) <==> f in Sort(ByKey, ys) {
      OfListsAre(a, f);
      OfListsAre(b, f);
    }
    AscendingUnique(ByKey, Sort(ByKey, xs), Sort(ByKey, ys));
  }

  // ---- server-side churn leaves no trace -----------------------------------------------------------

  // Writing status, or a volatile metadata field, of a stored object does not change what is serialized of it.
  lemma ChurnIsStripped(obj: Value, key: string, v: Value)
    requires obj.Object? && At(obj, "metadata").Object? && key in VOLATILE
    ensures Stripped(With(obj, "status", v)) == Stripped(obj)
    ensures Stripped(With(obj, "metadata", With(At(obj, "metadata"), key, v))) == Stripped(obj)
  {
    assert Without(With(obj, "status", v), {"status"}) == Without(obj, {"status"});
    var meta := At(obj, "metadata");
    var churned := With(obj, "metadata", With(meta, key, v));
    assert Without(With(meta, key, v), VOLATILE) == Without(meta, VOLATILE);
    var o, o' := Without(obj, {"status"}), Without(churned, {"status"});
    assert At(o', "metadata") == With(meta, key, v);
    assert Fields(o')["metadata" := StrippedMeta(meta)] == Fields(o)["metadata" := StrippedMeta(meta)];
  }

  // ---- managed objects leave no trace --------------------------------------------------------------

  // `b` lists what `a` lists, and objects of excluded kinds or with the managed label besides.
  ghost predicate OnlyManagedMore(group: string, a: Resource, b: Resource) {
    && b.(listing := a.listing) == a
    && (Excluded(group, a.kind)
        || a.listing == b.listing
        || (a.listing.Items? && b.listing.Items?
            && forall gk :: Unmanaged(gk, b.listing.objects) == Unmanaged(gk, a.listing.objects)))
  }

  ghost predicate SameButManaged(a: seq<ResourceList>, b: seq<ResourceList>) {
    && |a| == |b|
    && forall i | 0 <= i < |a| ::
         && a[i].groupVersion == b[i].groupVersion && |a[i].resources| == |b[i].resources|
         && forall j | 0 <= j < |a[i].resources| ::
              GroupOf(a[i].groupVersion).Some? ==>
                OnlyManagedMore(GroupOf(a[i].groupVersion).value, a[i].resources[j], b[i].resources[j])
  }

  lemma {:induction false} UnmanagedAppend(gk: string, objects: seq<Value>, more: seq<Value>)
    requires forall v | v in more :: Managed(v)
    ensures Unmanaged(gk, objects + more) == Unmanaged(gk, objects)
  {
    if more == [] {
      assert objects + more == objects;
    } else {
      assert (objects + more)[..|objects + more| - 1] == objects + more[..|more| - 1];
      UnmanagedAppend(gk, objects, more[..|more| - 1]);
    }
  }

  lemma {:induction false} SameResources(group: string, a: seq<Resource>, b: seq<Resource>)
    requires |a| == |b| && forall j | 0 <= j < |a| :: OnlyManagedMore(group, a[j], b[j])
    ensures OfResources(group, a) == OfResources(group, b)
  {
    if a != [] {
      SameResources(group, a[..|a| - 1], b[..|b| - 1]);
      assert OnlyManagedMore(group, a[|a| - 1], b[|b| - 1]);
    }
  }

  lemma {:induction false} SameLists(a: seq<ResourceList>, b: seq<ResourceList>)
    requires SameButManaged(a, b)
    ensures OfLists(a) == OfLists(b)
  {
    if a != [] {
      var n := |a| - 1;
      SameLists(a[..n], b[..n]);
      if GroupOf(a[n].groupVersion).Some? {
        SameResources(GroupOf(a[n].groupVersion).value, a[n].resources, b[n].resources);
      }
    }
  }

  /** Objects of excluded kinds and managed-labelled ones never change the text. */
  lemma ManagedLeavesNoTrace(codec: Codec, a: seq<ResourceList>, b: seq<ResourceList>)
    requires SameButManaged(a, b)
    ensures Serialize(codec, Discovered(a)) == Serialize(codec, Discovered(b))
  {
    SameLists(a, b);
  }

  // ---- the restore side reads it back ------------------------------------------------------------------

  // What the round trip asks of the YAML library for one object: it reads back what it wrote, also with a blank
  // line after it, writes no line starting with "---", and something that is not blank.
  ghost predicate Faithful(codec: Codec, v: Value) {
    && codec.decode(codec.encode(v) + [""]) == Some(v)
    && (forall line | line in codec.encode(v) :: !HasPrefix(line, "---"))
    && !IsBlankDoc(codec.encode(v))
  }

  // Parsing each document on its own.
  function ParsedEach(vs: seq<Value>, targetNS: string, index: nat): ParseResult {
    if vs == [] then Parsed([])
    else
      var d := ToDoc(vs[0], targetNS);
      if d.None? then Rejected(Incomplete(index))
      else Prefixed([d.value], ParsedEach(vs[1..], targetNS, index + 1))
  }

  // The reader takes whole a block without separators.
  lemma {:induction false} ReadsBlock(block: seq<string>, rest: seq<string>, buffer: seq<string>)
    requires forall line | line in block :: !IsSeparator(line)
    ensures NextDoc(block + rest, buffer) == NextDoc(rest, buffer + block)
  {
    if block == [] {
      assert block + rest == rest && buffer + block == buffer;
    } else {
      assert (block + rest)[0] == block[0] && (block + rest)[1..] == block[1..] + rest;
      ReadsBlock(block[1..], rest, buffer + [block[0]]);
      assert buffer + [block[0]] + block[1..] == buffer + block;
    }
  }

  lemma SeparatorIs()
    ensures IsSeparator("---") && !IsSeparator("")
  {
    assert "---"[3..] == "";
    TrimSpaceFacts("");
    assert TrimSpace("") == "";
  }

  lemma NotBlank(block: seq<string>)
    requires !IsBlankDoc(block)
    ensures !IsBlankDoc(block + [""])
  {
    var line :| line in block && !IsBlankLine(line);
    assert line in block + [""];
  }

  // One document of the text, and what follows it.
  lemma ReadsFirst(codec: Codec, v: Value, rest: seq<string>)
    requires Faithful(codec, v) && (rest == [] || rest[0] == "---")
    ensures var block := codec.encode(v) + [""];
            && NextDoc(block + rest, []) == (Some(block), if rest == [] then [] else rest[1..])
            && !IsBlankDoc(block) && codec.decode(block) == Some(v)
  {
    var block := codec.encode(v) + [""];
    SeparatorIs();
    ReadsBlock(block, rest, []);
    assert [] + block == block;
    NotBlank(codec.encode(v));
  }

  // Parsing one document and what follows it.
  lemma ParsesFirst(codec: Codec, v: Value, rest: seq<string>, targetNS: string, index: nat)
    requires Faithful(codec, v) && (rest == [] || rest[0] == "---")
    ensures Parse(codec, codec.encode(v) + [""] + rest, targetNS, index) ==
            if ToDoc(v, targetNS).None? then Rejected(Incomplete(index))
            else Prefixed([ToDoc(v, targetNS).value], Parse(codec, if rest == [] then [] else rest[1..], targetNS, index + 1))
  {
    ReadsFirst(codec, v, rest);
  }

  lemma JoinedFirst(blocks: seq<seq<string>>)
    requires blocks != []
    ensures Joined(blocks) == (blocks[0] + [""]) + (if |blocks| == 1 then [] else ["---"] + Joined(blocks[1..]))
  {
  }

  /** Round trip. Parsing the serialized text yields exactly the serialized objects, in order, each read as the
      restore side reads a document: without the allocations of Services and the bindings of claims. */
  lemma {:induction false} ParseJoined(codec: Codec, vs: seq<Value>, blocks: seq<seq<string>>, targetNS: string, index: nat)
    requires |blocks| == |vs| && forall i | 0 <= i < |vs| :: blocks[i] == codec.encode(vs[i]) && Faithful(codec, vs[i])
    ensures Parse(codec, Joined(blocks), targetNS, index) == ParsedEach(vs, targetNS, index)
    decreases |vs|
  {
    if vs != [] {
      var rest := if |blocks| == 1 then [] else ["---"] + Joined(blocks[1..]);
      JoinedFirst(blocks);
      ParsesFirst(codec, vs[0], rest, targetNS, index);
      ParseJoined(codec, vs[1..], blocks[1..], targetNS, index + 1);
      assert |blocks| > 1 ==> rest[1..] == Joined(blocks[1..]);
      assert |blocks| == 1 ==> Joined(blocks[1..]) == [];
    }
  }

  function Contents(found: seq<Found>): seq<Value> {
    seq(|found|, i requires 0 <= i < |found| => Stripped(found[i].obj))
  }

  lemma SerializedParses(codec: Codec, lists: seq<ResourceList>, targetNS: string)
    requires OfLists(lists).Some?
    requires forall f | f in OfLists(lists).value :: Faithful(codec, Stripped(f.obj))
    ensures Serialize(codec, Discovered(lists)).Text?
    ensures Parse(codec, Serialize(codec, Discovered(lists)).lines, targetNS)
            == ParsedEach(Contents(Sort(ByKey, OfLists(lists).value)), targetNS, 0)
  {
    var found := Sort(ByKey, OfLists(lists).value);
    SortPermutes(ByKey, OfLists(lists).value);
    forall i | 0 <= i < |found| ensures Faithful(codec, Contents(found)[i]) {
      assert found[i] in found;
    }
    ParseJoined(codec, Contents(found), Blocks(codec, found), targetNS, 0);
  }

  ghost predicate AllReadable(vs: seq<Value>, targetNS: string) {
    forall i | 0 <= i < |vs| :: ToDoc(vs[i], targetNS).Some?
  }

  lemma ReadableTail(vs: seq<Value>, targetNS: string)
    requires vs != []
    ensures AllReadable(vs, targetNS) <==> ToDoc(vs[0], targetNS).Some? && AllReadable(vs[1..], targetNS)
  {
    assert forall i | 1 <= i < |vs| :: vs[i] == vs[1..][i - 1];
  }

  lemma {:induction false} ParsedEachSucceeds(vs: seq<Value>, targetNS: string, index: nat)
    ensures ParsedEach(vs, targetNS, index).Parsed? <==> AllReadable(vs, targetNS)
    decreases |vs|
  {
    if vs != [] {
      ReadableTail(vs, targetNS);
      ParsedEachSucceeds(vs[1..], targetNS, index + 1);
    }
  }

  lemma {:induction false} ParsedEachKeeps(vs: seq<Value>, targetNS: string, index: nat, i: nat)
    requires ParsedEach(vs, targetNS, index).Parsed? && i < |vs|
    ensures var docs := ParsedEach(vs, targetNS, index).docs; |docs| == |vs| && ToDoc(vs[i], targetNS) == Some(docs[i])
    decreases |vs|
  {
    if i > 0 {
      ParsedEachKeeps(vs[1..], targetNS, index + 1, i - 1);
    } else if |vs| > 1 {
      ParsedEachKeeps(vs[1..], targetNS, index + 1, 0);
    }
  }

  // The parse succeeds exactly when every document has a kind and a name, and then keeps all of them in order.
  lemma ParsedEachIs(vs: seq<Value>, targetNS: string, index: nat)
    ensures ParsedEach(vs, targetNS, index).Parsed? <==> AllReadable(vs, targetNS)
    ensures var r := ParsedEach(vs, targetNS, index);
            r.Parsed? ==> |r.docs| == |vs| && forall i | 0 <= i < |vs| :: ToDoc(vs[i], targetNS) == Some(r.docs[i])
  {
    ParsedEachSucceeds(vs, targetNS, index);
    var r := ParsedEach(vs, targetNS, index);
    if r.Parsed? {
      forall i | 0 <= i < |vs| ensures |r.docs| == |vs| && ToDoc(vs[i], targetNS) == Some(r.docs[i]) {
        ParsedEachKeeps(vs, targetNS, index, i);
      }
    }
  }
}
