/** VolumeAgent: the restore-volume subcommand over a file system. Each target is emptied before the client extracts
    into it, so a successful run replaces every target's contents by its archive's, as long as no target lies inside
    another. */
module VolumeAgent {
  import opened Wrappers
  import opened Strings
  import opened Sorting
  import opened Int64
  import opened CommandLines

  // ---- a file system --------------------------------------------------------------------------------

  type Path = seq<string>
  datatype Node = Dir | File(content: string)
  type FS = map<Path, Node>

  // What an archive holds, by path relative to its root.
  type Tree = map<Path, Node>

  predicate Inside(p: Path, dir: Path) {
    |dir| < |p| && p[..|dir|] == dir
  }

  predicate AtOrInside(p: Path, dir: Path) {
    |dir| <= |p| && p[..|dir|] == dir
  }

  // Everything below a directory.
  function Contents(fs: FS, dir: Path): FS {
    map p | p in fs && Inside(p, dir) :: fs[p]
  }

  function RemoveTree(fs: FS, path: Path): FS {
    map p | p in fs && !AtOrInside(p, path) :: fs[p]
  }

  function Emptied(fs: FS, dir: Path): FS {
    map p | p in fs && !Inside(p, dir) :: fs[p]
  }

  // An archive's entries below a directory.
  function PlacedAt(tree: Tree, dir: Path): FS {
    map p | p in (set r | r in tree :: dir + r) :: if AtOrInside(p, dir) && p[|dir|..] in tree then tree[p[|dir|..]] else Dir
  }

  // The client writes each archive entry below the target; entries the archive does not name stay.
  function Extracted(fs: FS, dir: Path, tree: Tree): FS {
    fs + PlacedAt(tree, dir)
  }

  // Archive entries lie strictly below the root.
  predicate IsTree(tree: Tree) {
    [] !in tree
  }

  // ---- sizes -------------------------------------------------------------------------------------------

  function SizeOf(n: Node): nat {
    if n.File? then |n.content| else 0
  }

  // The sizes of all files, in whatever order they are visited.
  ghost function Size(tree: map<Path, Node>): nat {
    if tree == map[] then 0
    else
      var p :| p in tree;
      SizeOf(tree[p]) + Size(tree - {p})
  }

  lemma {:induction false} SizeWithout(tree: map<Path, Node>, q: Path)
    requires q in tree
    ensures Size(tree) == SizeOf(tree[q]) + Size(tree - {q})
    decreases |tree|
  {
    var p :| p in tree && Size(tree) == SizeOf(tree[p]) + Size(tree - {p});
    if p != q {
      SizeWithout(tree - {p}, q);
      SizeWithout(tree - {q}, p);
      assert tree - {p} - {q} == tree - {q} - {p};
    }
  }

  // ---- one run ------------------------------------------------------------------------------------------

  datatype ClientAnswer = Extracts | ClientFails(code: int, partial: Tree)

  // What the world answers: paths that cannot be removed, the snapshot's archives, the client's n-th exit, and kubectl's.
  datatype World = World(stuck: set<Path>, snapshot: string -> Tree, client: nat -> ClientAnswer, upload: int)

  datatype Pair = Pair(archive: string, target: Path)

  datatype Failure = MissingEnv | Keyfile | CannotEmpty(target: Path) | ClientFailed | TooManyPairs | UploadFailed
  datatype Termlog = Silent | ErrorLog(failure: Failure) | RestoredLog(archives: seq<string>, bytes: int)

  ghost function Children(fs: FS, dir: Path): set<string> {
    set p | p in fs && Inside(p, dir) :: p[|dir|]
  }

  // The entries in directory order, removed until one cannot be.
  function Removing(fs: FS, stuck: set<Path>, dir: Path, names: seq<string>): FS {
    if names == [] || dir + [names[0]] in stuck then fs
    else Removing(RemoveTree(fs, dir + [names[0]]), stuck, dir, names[1..])
  }

  predicate Removes(stuck: set<Path>, dir: Path, names: seq<string>) {
    forall n | n in names :: dir + [n] !in stuck
  }

  ghost predicate CanEmpty(fs: FS, stuck: set<Path>, dir: Path) {
    dir in fs && fs[dir].Dir? && Removes(stuck, dir, InOrder(Children(fs, dir)))
  }

  ghost function AfterEmpty(fs: FS, stuck: set<Path>, dir: Path): FS {
    if dir in fs && fs[dir].Dir? then Removing(fs, stuck, dir, InOrder(Children(fs, dir))) else fs
  }

  // The file system, how often the client ran, the archives restored and the bytes counted for each.
  datatype State = State(fs: FS, runs: nat, restored: seq<string>, counted: seq<int>)

  // What the client's n-th run extracts: the archive, or on failure whatever it got to.
  function ClientTree(w: World, n: nat, archive: string): Tree {
    if w.client(n).Extracts? then w.snapshot(archive) else w.client(n).partial
  }

  // The client on an emptied target.
  ghost function ExtractOne(w: World, s: State, pair: Pair): State {
    var fs := Extracted(s.fs, pair.target, ClientTree(w, s.runs, pair.archive));
    if w.client(s.runs).Extracts?
    then State(fs, s.runs + 1, s.restored + [pair.archive], s.counted + [Size(Contents(fs, pair.target))])
    else s.(fs := fs, runs := s.runs + 1)
  }

  // One archive into one target.
  ghost function RestoreOne(w: World, s: State, pair: Pair): State {
    var emptied := s.(fs := AfterEmpty(s.fs, w.stuck, pair.target));
    if CanEmpty(s.fs, w.stuck, pair.target) then ExtractOne(w, emptied, pair) else emptied
  }

  ghost predicate Restores(w: World, s: State, pair: Pair) {
    CanEmpty(s.fs, w.stuck, pair.target) && w.client(s.runs).Extracts?
  }

  // The exit code of a pair that is not restored.
  ghost function FailCode(w: World, s: State, pair: Pair): int {
    if CanEmpty(s.fs, w.stuck, pair.target) && w.client(s.runs).ClientFails? then w.client(s.runs).code else 1
  }

  // All pairs in order, up to the first that fails.
  ghost function RestoreAll(w: World, s: State, pairs: seq<Pair>): State
    decreases |pairs|
  {
    if pairs == [] then s
    else if Restores(w, s, pairs[0]) then RestoreAll(w, RestoreOne(w, s, pairs[0]), pairs[1..])
    else RestoreOne(w, s, pairs[0])
  }

  ghost predicate AllRestored(w: World, s: State, pairs: seq<Pair>)
    decreases |pairs|
  {
    pairs == [] || (Restores(w, s, pairs[0]) && AllRestored(w, RestoreOne(w, s, pairs[0]), pairs[1..]))
  }

  // The exit code of the first pair that is not restored, 0 if all are.
  ghost function ExitCode(w: World, s: State, pairs: seq<Pair>): int
    decreases |pairs|
  {
    if pairs == [] then 0
    else if Restores(w, s, pairs[0]) then ExitCode(w, RestoreOne(w, s, pairs[0]), pairs[1..])
    else FailCode(w, s, pairs[0])
  }

  // kubectl's exit code for the upload; it fails when there is no file to upload.
  function UploadCode(w: World, fs: FS, source: Path): int {
    if source !in fs && w.upload == 0 then 1 else w.upload
  }

  // ---- emptying -----------------------------------------------------------------------------------------

  lemma {:induction false} RemovingAll(fs: FS, stuck: set<Path>, dir: Path, names: seq<string>)
    requires Removes(stuck, dir, names)
    ensures Removing(fs, stuck, dir, names) == map p | p in fs && !(Inside(p, dir) && p[|dir|] in names) :: fs[p]
  {
    if names == [] {
      assert Removing(fs, stuck, dir, names) == fs;
    } else {
      assert names == [names[0]] + names[1..];
      var one := RemoveTree(fs, dir + [names[0]]);
      RemovingAll(one, stuck, dir, names[1..]);
      forall p ensures AtOrInside(p, dir + [names[0]]) <==> Inside(p, dir) && p[|dir|] == names[0] {
        ChildPrefix(p, dir, names[0]);
      }
    }
  }

  lemma ChildPrefix(p: Path, dir: Path, name: string)
    ensures AtOrInside(p, dir + [name]) <==> Inside(p, dir) && p[|dir|] == name
  {
    if Inside(p, dir) { assert p[..|dir| + 1] == p[..|dir|] + [p[|dir|]]; }
    if AtOrInside(p, dir + [name]) {
      assert p[..|dir|] == p[..|dir| + 1][..|dir|];
      assert p[|dir|] == (dir + [name])[|dir|];
    }
  }

  // Removing every entry empties the directory and touches nothing else, the directory itself included.
  lemma EmptiesExactly(fs: FS, stuck: set<Path>, dir: Path)
    requires CanEmpty(fs, stuck, dir)
    ensures AfterEmpty(fs, stuck, dir) == Emptied(fs, dir)
    ensures Contents(AfterEmpty(fs, stuck, dir), dir) == map[]
  {
    var names := InOrder(Children(fs, dir));
    RemovingAll(fs, stuck, dir, names);
    forall p | p in fs && Inside(p, dir) ensures p[|dir|] in names {
      assert p[|dir|] in Children(fs, dir);
    }
  }

  // ---- the agent ----------------------------------------------------------------------------------------

  class Agent {
    const world: World
    var fs: FS
    var runs: nat
    var restored: seq<string>
    var total: int
    ghost var counted: seq<int>
    var termlog: Termlog
    var uploaded: Option<Node>

    constructor (world: World, fs: FS)
      ensures this.world == world && Progress() == State(fs, 0, [], []) && Valid() && termlog == Silent && uploaded == None
    {
      this.world, this.fs := world, fs;
      runs, restored, total, counted, termlog, uploaded := 0, [], 0, [], Silent, None;
    }

    ghost predicate Valid()
      reads this
    {
      total == RunningTotal(counted)
    }

    ghost function Progress(): State
      reads this
    {
      State(fs, runs, restored, counted)
    }

    method ReadDir(dir: Path) returns (names: Option<seq<string>>)
      ensures names == if dir in fs && fs[dir].Dir? then Some(InOrder(Children(fs, dir))) else None
    {
      if dir !in fs || !fs[dir].Dir? {
        return None;
      }
      var left := fs.Keys;
      var found: seq<string> := [];
      while left != {}
        invariant left <= fs.Keys
        invariant forall n :: n in found <==> exists p :: p in fs.Keys - left && Inside(p, dir) && p[|dir|] == n
        invariant forall i, j | 0 <= i < j < |found| :: found[i] != found[j]
        decreases |left|
      {
        var p :| p in left;
        if Inside(p, dir) && p[|dir|] !in found {
          found := found + [p[|dir|]];
        }
        left := left - {p};
      }
      forall n ensures n in found <==> n in Children(fs, dir) {
        assert n in Children(fs, dir) <==> exists p :: p in fs && Inside(p, dir) && p[|dir|] == n;
      }
      SortEnumeration(found, Children(fs, dir));
      return Some(SortStrings(found));
    }

    // Every entry of the directory, never the directory itself.
    method EmptyDir(dir: Path) returns (ok: bool)
      modifies this`fs
      ensures ok == CanEmpty(old(fs), world.stuck, dir)
      ensures fs == AfterEmpty(old(fs), world.stuck, dir)
    {
      var names := ReadDir(dir);
      if names.None? {
        return false;
      }
      var all := names.value;
      for i := 0 to |all|
        invariant Removing(fs, world.stuck, dir, all[i..]) == Removing(old(fs), world.stuck, dir, all)
        invariant forall k | 0 <= k < i :: dir + [all[k]] !in world.stuck
      {
        assert all[i..][0] == all[i] && all[i..][1..] == all[i + 1..];
        if dir + [all[i]] in world.stuck {
          assert all[i] in all;
          return false;
        }
        fs := RemoveTree(fs, dir + [all[i]]);
      }
      assert all[|all|..] == [];
      return true;
    }

    // The sizes of the files below a directory, entry by entry.
    method DirSize(dir: Path) returns (size: nat)
      ensures size == Size(Contents(fs, dir))
    {
      size := 0;
      var left := Contents(fs, dir);
      while left != map[]
        invariant size + Size(left) == Size(Contents(fs, dir))
        decreases |left|
      {
        var p :| p in left;
        SizeWithout(left, p);
        size := size + SizeOf(left[p]);
        left := left - {p};
      }
    }

    method RunClient(pair: Pair) returns (ok: bool)
      modifies this`fs, this`runs
      ensures ok == world.client(old(runs)).Extracts? && runs == old(runs) + 1
      ensures fs == Extracted(old(fs), pair.target, ClientTree(world, old(runs), pair.archive))
    {
      var tree := ClientTree(world, runs, pair.archive);
      ok := world.client(runs).Extracts?;
      runs := runs + 1;
      fs := Extracted(fs, pair.target, tree);
    }

    // One client run, and what a success adds to the report.
    method Extract(pair: Pair) returns (ok: bool)
      requires Valid()
      modifies this
      ensures Valid() && uploaded == old(uploaded) && ok == world.client(old(runs)).Extracts?
      ensures Progress() == ExtractOne(world, old(Progress()), pair)
      ensures termlog == if ok then old(termlog) else ErrorLog(ClientFailed)
    {
      ok := RunClient(pair);
      if !ok {
        termlog := ErrorLog(ClientFailed);
        return;
      }
      restored := restored + [pair.archive];
      var size := DirSize(pair.target);
      RunningStep(counted, size);
      total := Wrap64(total + size);
      counted := counted + [size];
    }

    method RestorePair(pair: Pair) returns (ok: bool, code: int)
      requires Valid()
      modifies this
      ensures Valid() && uploaded == old(uploaded)
      ensures ok == Restores(world, old(Progress()), pair)
      ensures Progress() == RestoreOne(world, old(Progress()), pair)
      ensures ok ==> termlog == old(termlog)
      ensures !ok ==> termlog.ErrorLog? && code == FailCode(world, old(Progress()), pair)
    {
      var emptied := EmptyDir(pair.target);
      if !emptied {
        termlog := ErrorLog(CannotEmpty(pair.target));
        return false, 1;
      }
      var n := runs;
      ok := Extract(pair);
      code := if ok then 0 else world.client(n).code;
    }

    // kubectl create and apply of the restored api.yaml.
    method Upload(source: Path) returns (code: int)
      modifies this`uploaded
      ensures code == UploadCode(world, fs, source)
      ensures uploaded == if code == 0 then Some(fs[source]) else old(uploaded)
    {
      if source !in fs {
        return if world.upload == 0 then 1 else world.upload;
      }
      if world.upload == 0 {
        uploaded := Some(fs[source]);
      }
      return world.upload;
    }

    // All pairs in order, up to the first that fails.
    method RestorePairs(pairs: seq<Pair>) returns (ok: bool, code: int)
      requires Valid() && termlog == Silent
      modifies this
      ensures Valid() && uploaded == old(uploaded)
      ensures Progress() == RestoreAll(world, old(Progress()), pairs)
      ensures ok == AllRestored(world, old(Progress()), pairs)
      ensures if ok then termlog == Silent else termlog.ErrorLog? && code == ExitCode(world, old(Progress()), pairs)
    {
      ghost var start := Progress();
      for i := 0 to |pairs|
        invariant Valid() && uploaded == old(uploaded) && termlog == Silent
        invariant RestoreAll(world, Progress(), pairs[i..]) == RestoreAll(world, start, pairs)
        invariant AllRestored(world, Progress(), pairs[i..]) == AllRestored(world, start, pairs)
        invariant ExitCode(world, Progress(), pairs[i..]) == ExitCode(world, start, pairs)
      {
        assert pairs[i..][0] == pairs[i] && pairs[i..][1..] == pairs[i + 1..];
        ok, code := RestorePair(pairs[i]);
        if !ok {
          return;
        }
      }
      assert pairs[|pairs|..] == [];
      return true, 0;
    }

    // The restored api.yaml becomes the ConfigMap, when one is asked for.
    method UploadIfAsked(pairs: seq<Pair>, configMap: string) returns (code: int)
      requires Valid() && uploaded == None && termlog == Silent
      modifies this`uploaded, this`termlog
      ensures code == if configMap == "" then 0 else if |pairs| != 1 then 2
                      else UploadCode(world, fs, pairs[0].target + ["api.yaml"])
      ensures termlog == if configMap == "" || code == 0 then Silent
                         else ErrorLog(if |pairs| != 1 then TooManyPairs else UploadFailed)
      ensures uploaded == if configMap != "" && code == 0 then Some(fs[pairs[0].target + ["api.yaml"]]) else None
    {
      if configMap == "" {
        return 0;
      }
      if |pairs| != 1 {
        termlog := ErrorLog(TooManyPairs);
        return 2;
      }
      code := Upload(pairs[0].target + ["api.yaml"]);
      if code != 0 {
        termlog := ErrorLog(UploadFailed);
      }
    }

    method RunRestoreVolume(missingEnv: bool, keyfileFails: bool, pairs: seq<Pair>, configMap: string) returns (code: int)
      requires Valid() && uploaded == None && termlog == Silent
      modifies this
      ensures Valid()
      ensures missingEnv || keyfileFails ==> Progress() == old(Progress()) && code == if missingEnv then 2 else 1
      ensures !missingEnv && !keyfileFails ==>
                && Progress() == RestoreAll(world, old(Progress()), pairs)
                && code == (if !AllRestored(world, old(Progress()), pairs) then ExitCode(world, old(Progress()), pairs)
                            else if configMap == "" then 0
                            else if |pairs| != 1 then 2
                            else UploadCode(world, fs, pairs[0].target + ["api.yaml"]))
      ensures !missingEnv && !keyfileFails && AllRestored(world, old(Progress()), pairs) && configMap != "" && |pairs| == 1 ==>
                && (code == 0 <==> world.upload == 0 && pairs[0].target + ["api.yaml"] in fs)
                && (code != 0 ==> code == if world.upload != 0 then world.upload else 1)
      ensures termlog.RestoredLog? <==>
                !missingEnv && !keyfileFails && AllRestored(world, old(Progress()), pairs) && (configMap == "" || uploaded.Some?)
      ensures termlog.RestoredLog? ==> code == 0 && termlog == RestoredLog(restored, total)
      ensures uploaded.Some? ==>
                |pairs| == 1 && pairs[0].target + ["api.yaml"] in fs && uploaded.value == fs[pairs[0].target + ["api.yaml"]]
    {
      if missingEnv {
        termlog := ErrorLog(MissingEnv);
        return 2;
      }
      if keyfileFails {
        termlog := ErrorLog(Keyfile);
        return 1;
      }
      var ok;
      ok, code := RestorePairs(pairs);
      if !ok {
        return;
      }
      code := UploadIfAsked(pairs, configMap);
      if termlog.ErrorLog? {
        return;
      }
      termlog := RestoredLog(restored, total);
    }
  }

  // ---- replacing contents ------------------------------------------------------------------------------

  predicate Nested(a: Path, b: Path) {
    AtOrInside(a, b) || AtOrInside(b, a)
  }

  // Different pairs may share a target only if they are the same restore.
  ghost predicate Separate(pairs: seq<Pair>) {
    forall i, j | 0 <= i < j < |pairs| :: pairs[i] == pairs[j] || !Nested(pairs[i].target, pairs[j].target)
  }

  lemma PathJoin(dir: Path, r: Path)
    ensures AtOrInside(dir + r, dir) && (dir + r)[|dir|..] == r && (Inside(dir + r, dir) <==> r != [])
  {
  }

  // An archive placed at a directory: each entry at its own place, all inside.
  lemma PlacedIs(tree: Tree, dir: Path, r: Path)
    ensures dir + r in PlacedAt(tree, dir) <==> r in tree
    ensures r in tree ==> PlacedAt(tree, dir)[dir + r] == tree[r]
  {
    PathJoin(dir, r);
    if dir + r in PlacedAt(tree, dir) {
      var q :| q in tree && dir + q == dir + r;
      PathJoin(dir, q);
    }
  }

  lemma PlacedInside(tree: Tree, dir: Path, p: Path)
    requires IsTree(tree) && p in PlacedAt(tree, dir)
    ensures Inside(p, dir)
  {
    var r :| r in tree && dir + r == p;
    PathJoin(dir, r);
  }

  // Extracting into an empty directory leaves exactly the archive's tree there, and changes nothing outside.
  lemma ExtractsExactly(fs: FS, dir: Path, tree: Tree)
    requires IsTree(tree) && Contents(fs, dir) == map[]
    ensures Contents(Extracted(fs, dir, tree), dir) == PlacedAt(tree, dir)
    ensures forall p | !Inside(p, dir) :: (p in Extracted(fs, dir, tree) <==> p in fs) && (p in fs ==> Extracted(fs, dir, tree)[p] == fs[p])
  {
    forall p | p in PlacedAt(tree, dir) ensures Inside(p, dir) {
      PlacedInside(tree, dir, p);
    }
    assert forall p | p in fs :: Inside(p, dir) <==> p in Contents(fs, dir);
  }

  // A restore leaves its target with exactly the archive's tree, whatever was there before, and nothing else changes.
  lemma ReplacesContents(w: World, s: State, pair: Pair)
    requires Restores(w, s, pair) && IsTree(w.snapshot(pair.archive))
    ensures var after := RestoreOne(w, s, pair).fs;
            && Contents(after, pair.target) == PlacedAt(w.snapshot(pair.archive), pair.target)
            && forall p | !Inside(p, pair.target) :: (p in after <==> p in s.fs) && (p in s.fs ==> after[p] == s.fs[p])
  {
    EmptiesExactly(s.fs, w.stuck, pair.target);
    ExtractsExactly(Emptied(s.fs, pair.target), pair.target, w.snapshot(pair.archive));
  }

  // A restore elsewhere leaves a directory's contents alone.
  lemma ElsewhereKeeps(w: World, s: State, pair: Pair, dir: Path)
    requires Restores(w, s, pair) && IsTree(w.snapshot(pair.archive)) && !Nested(dir, pair.target)
    ensures Contents(RestoreOne(w, s, pair).fs, dir) == Contents(s.fs, dir)
  {
    var after := RestoreOne(w, s, pair).fs;
    ReplacesContents(w, s, pair);
    forall p | Inside(p, dir) ensures !Inside(p, pair.target) {
      if Inside(p, pair.target) { BothPrefixes(p, dir, pair.target); }
    }
  }

  lemma BothPrefixes(p: Path, a: Path, b: Path)
    requires AtOrInside(p, a) && AtOrInside(p, b)
    ensures Nested(a, b)
  {
    if |a| <= |b| { assert b[..|a|] == p[..|b|][..|a|] == p[..|a|]; } else { assert a[..|b|] == p[..|a|][..|b|] == p[..|b|]; }
  }

  ghost predicate ArchivesAreTrees(w: World, pairs: seq<Pair>) {
    forall p | p in pairs :: IsTree(w.snapshot(p.archive))
  }

  // Restoring some pairs keeps a directory that none of them touches.
  lemma {:induction false} OthersKeep(w: World, s: State, pairs: seq<Pair>, dir: Path)
    requires AllRestored(w, s, pairs) && ArchivesAreTrees(w, pairs)
    requires forall p | p in pairs :: !Nested(dir, p.target)
    ensures Contents(RestoreAll(w, s, pairs).fs, dir) == Contents(s.fs, dir)
    decreases |pairs|
  {
    if pairs != [] {
      assert pairs[0] in pairs;
      ElsewhereKeeps(w, s, pairs[0], dir);
      OthersKeep(w, RestoreOne(w, s, pairs[0]), pairs[1..], dir);
    }
  }

  // Pairs equal to one already restored, or elsewhere, keep its target at its archive.
  lemma {:induction false} StaysReplaced(w: World, s: State, pairs: seq<Pair>, done: Pair)
    requires AllRestored(w, s, pairs) && ArchivesAreTrees(w, pairs)
    requires forall p | p in pairs :: p == done || !Nested(done.target, p.target)
    requires Contents(s.fs, done.target) == PlacedAt(w.snapshot(done.archive), done.target)
    ensures Contents(RestoreAll(w, s, pairs).fs, done.target) == PlacedAt(w.snapshot(done.archive), done.target)
    decreases |pairs|
  {
    if pairs != [] {
      assert pairs[0] in pairs;
      if pairs[0] == done { ReplacesContents(w, s, done); } else { ElsewhereKeeps(w, s, pairs[0], done.target); }
      StaysReplaced(w, RestoreOne(w, s, pairs[0]), pairs[1..], done);
    }
  }

  /** Replace contents. After a successful run each target holds exactly its archive's tree, whatever was there
      before. */
  lemma {:induction false} TargetsHoldArchives(w: World, s: State, pairs: seq<Pair>, i: nat)
    requires AllRestored(w, s, pairs) && ArchivesAreTrees(w, pairs) && Separate(pairs) && i < |pairs|
    ensures Contents(RestoreAll(w, s, pairs).fs, pairs[i].target) == PlacedAt(w.snapshot(pairs[i].archive), pairs[i].target)
    decreases |pairs|
  {
    var next := RestoreOne(w, s, pairs[0]);
    assert pairs[0] in pairs;
    if i == 0 {
      ReplacesContents(w, s, pairs[0]);
      forall p | p in pairs[1..] ensures p == pairs[0] || !Nested(pairs[0].target, p.target) {
        var j :| 0 < j < |pairs| && pairs[j] == p;
      }
      StaysReplaced(w, next, pairs[1..], pairs[0]);
    } else {
      TargetsHoldArchives(w, next, pairs[1..], i - 1);
    }
  }

  // Nothing outside the targets changes.
  lemma {:induction false} OutsideKept(w: World, s: State, pairs: seq<Pair>, p: Path)
    requires AllRestored(w, s, pairs) && ArchivesAreTrees(w, pairs)
    requires forall pair | pair in pairs :: !Inside(p, pair.target)
    ensures var after := RestoreAll(w, s, pairs).fs;
            (p in after <==> p in s.fs) && (p in s.fs ==> after[p] == s.fs[p])
    decreases |pairs|
  {
    if pairs != [] {
      assert pairs[0] in pairs;
      ReplacesContents(w, s, pairs[0]);
      OutsideKept(w, RestoreOne(w, s, pairs[0]), pairs[1..], p);
    }
  }

  /** Restoring again, or from any file system that agrees outside the targets, ends in the same file system. */
  lemma RestoringIsIdempotent(w: World, v: World, s: State, t: State, pairs: seq<Pair>)
    requires w.snapshot == v.snapshot && ArchivesAreTrees(w, pairs) && Separate(pairs)
    requires AllRestored(w, s, pairs) && AllRestored(v, t, pairs)
    requires forall p | (forall pair | pair in pairs :: !Inside(p, pair.target)) ::
               (p in s.fs <==> p in t.fs) && (p in s.fs ==> s.fs[p] == t.fs[p])
    ensures RestoreAll(w, s, pairs).fs == RestoreAll(v, t, pairs).fs
  {
    var a, b := RestoreAll(w, s, pairs).fs, RestoreAll(v, t, pairs).fs;
    forall p ensures (p in a <==> p in b) && (p in a ==> a[p] == b[p]) {
      if pair :| pair in pairs && Inside(p, pair.target) {
        var i :| 0 <= i < |pairs| && pairs[i] == pair;
        TargetsHoldArchives(w, s, pairs, i);
        TargetsHoldArchives(v, t, pairs, i);
        assert p in a <==> p in Contents(a, pair.target);
        assert p in b <==> p in Contents(b, pair.target);
      } else {
        OutsideKept(w, s, pairs, p);
        OutsideKept(v, t, pairs, p);
      }
    }
  }

  // Placing an archive somewhere keeps its size.
  lemma {:induction false} PlacedSize(tree: Tree, dir: Path)
    ensures Size(PlacedAt(tree, dir)) == Size(tree)
    decreases |tree|
  {
    if tree == map[] {
      assert PlacedAt(tree, dir) == map[];
    } else {
      var r :| r in tree && Size(tree) == SizeOf(tree[r]) + Size(tree - {r});
      PlacedIs(tree, dir, r);
      SizeWithout(PlacedAt(tree, dir), dir + r);
      PlacedWithout(tree, dir, r);
      PlacedSize(tree - {r}, dir);
    }
  }

  lemma PlacedWithout(tree: Tree, dir: Path, r: Path)
    ensures PlacedAt(tree - {r}, dir) == PlacedAt(tree, dir) - {dir + r}
  {
    var a, b := PlacedAt(tree - {r}, dir), PlacedAt(tree, dir) - {dir + r};
    forall q ensures (dir + q in a <==> dir + q in b) && (dir + q in a ==> a[dir + q] == b[dir + q]) {
      PlacedIs(tree - {r}, dir, q);
      PlacedIs(tree, dir, q);
      PathJoin(dir, q);
      PathJoin(dir, r);
    }
  }

  function Archives(pairs: seq<Pair>): seq<string> {
    seq(|pairs|, i requires 0 <= i < |pairs| => pairs[i].archive)
  }

  // The bytes of each archive.
  ghost function Sizes(w: World, pairs: seq<Pair>): seq<int> {
    seq(|pairs|, i requires 0 <= i < |pairs| => Size(w.snapshot(pairs[i].archive)))
  }

  lemma ReportsOne(w: World, s: State, pair: Pair)
    requires Restores(w, s, pair) && IsTree(w.snapshot(pair.archive))
    ensures RestoreOne(w, s, pair).restored == s.restored + [pair.archive]
    ensures RestoreOne(w, s, pair).counted == s.counted + [Size(w.snapshot(pair.archive))]
  {
    ReplacesContents(w, s, pair);
    PlacedSize(w.snapshot(pair.archive), pair.target);
  }

  // The states a successful run goes through.
  ghost predicate Through(w: World, states: seq<State>, pairs: seq<Pair>) {
    && |states| == |pairs| + 1
    && forall i | 0 <= i < |pairs| :: Restores(w, states[i], pairs[i]) && states[i + 1] == RestoreOne(w, states[i], pairs[i])
  }

  lemma {:induction false} GoesThrough(w: World, s: State, pairs: seq<Pair>) returns (states: seq<State>)
    requires AllRestored(w, s, pairs)
    ensures Through(w, states, pairs) && states[0] == s && states[|pairs|] == RestoreAll(w, s, pairs)
    decreases |pairs|
  {
    if pairs == [] {
      states := [s];
    } else {
      var rest := GoesThrough(w, RestoreOne(w, s, pairs[0]), pairs[1..]);
      states := [s] + rest;
      forall i | 0 <= i < |pairs|
        ensures Restores(w, states[i], pairs[i]) && states[i + 1] == RestoreOne(w, states[i], pairs[i])
      {
        if i > 0 { assert states[i] == rest[i - 1] && pairs[i] == pairs[1..][i - 1] && states[i + 1] == rest[i]; }
      }
    }
  }

  // Appending one report per state.
  lemma {:induction false} Accumulates(states: seq<State>, archives: seq<string>, sizes: seq<int>, n: nat)
    requires |states| == |archives| + 1 && |sizes| == |archives| && n <= |archives|
    requires forall i | 0 <= i < |archives| ::
               states[i + 1].restored == states[i].restored + [archives[i]] && states[i + 1].counted == states[i].counted + [sizes[i]]
    ensures states[n].restored == states[0].restored + archives[..n]
    ensures states[n].counted == states[0].counted + sizes[..n]
  {
    if n > 0 {
      Accumulates(states, archives, sizes, n - 1);
      assert archives[..n] == archives[..n - 1] + [archives[n - 1]] && sizes[..n] == sizes[..n - 1] + [sizes[n - 1]];
    }
  }

  lemma ReportsEach(w: World, states: seq<State>, pairs: seq<Pair>)
    requires Through(w, states, pairs) && ArchivesAreTrees(w, pairs)
    ensures states[|pairs|].restored == states[0].restored + Archives(pairs)
    ensures states[|pairs|].counted == states[0].counted + Sizes(w, pairs)
  {
    forall i | 0 <= i < |pairs|
      ensures states[i + 1].restored == states[i].restored + [Archives(pairs)[i]]
      ensures states[i + 1].counted == states[i].counted + [Sizes(w, pairs)[i]]
    {
      assert pairs[i] in pairs;
      ReportsOne(w, states[i], pairs[i]);
    }
    Accumulates(states, Archives(pairs), Sizes(w, pairs), |pairs|);
    assert Archives(pairs)[..|pairs|] == Archives(pairs) && Sizes(w, pairs)[..|pairs|] == Sizes(w, pairs);
  }

  /** The report of a successful run: the archives in order, and a byte total that is the sum of the restored trees'
      sizes, wrapped to 64 bits. */
  lemma ReportsWhatWasRestored(w: World, fs: FS, pairs: seq<Pair>)
    requires AllRestored(w, State(fs, 0, [], []), pairs) && ArchivesAreTrees(w, pairs)
    ensures var end := RestoreAll(w, State(fs, 0, [], []), pairs);
            && end.restored == Archives(pairs)
            && RunningTotal(end.counted) == Wrap64(Plain(Sizes(w, pairs)))
  {
    var states := GoesThrough(w, State(fs, 0, [], []), pairs);
    ReportsEach(w, states, pairs);
    WrapsOnce(Sizes(w, pairs));
    assert [] + Archives(pairs) == Archives(pairs) && [] + Sizes(w, pairs) == Sizes(w, pairs);
  }

  // ---- the targets the controller writes ---------------------------------------------------------------

  // The components of an absolute path.
  function PathOf(path: string): Path {
    Components(Split(path, '/'))
  }

  function Components(parts: seq<string>): Path {
    if parts == [] then [] else (if parts[0] == "" then [] else [parts[0]]) + Components(parts[1..])
  }

  lemma MountIsTwoLevels(pvc: string)
    requires pvc != "" && '/' !in pvc
    ensures PathOf(MountPath(pvc)) == ["backup", pvc]
  {
    var path := MountPath(pvc);
    SplitWithout("", '/');
    SplitWithout("backup", '/');
    SplitWithout(pvc, '/');
    SplitAppend("", '/', "backup/" + pvc);
    SplitAppend("backup", '/', pvc);
    assert path == "" + ['/'] + ("backup" + ['/'] + pvc);
    assert Split(path, '/') == ["", "backup", pvc];
    assert [pvc][1..] == [] && Components([pvc]) == [pvc];
    assert ["backup", pvc][1..] == [pvc] && Components(["backup", pvc]) == ["backup"] + [pvc];
    assert ["", "backup", pvc][1..] == ["backup", pvc];
  }

  // The parsed archive and target flags as pairs to restore.
  function PairsOf(parsed: seq<(string, string)>): seq<Pair> {
    seq(|parsed|, i requires 0 <= i < |parsed| => Pair(parsed[i].0, PathOf(parsed[i].1)))
  }

  // What the agent restores when started by a volume Job.
  function VolumePairs(pvcs: seq<string>): seq<Pair> {
    PairsOf(RestorePairs(pvcs))
  }

  /** The pairs of a volume Job never nest: claim names have no slash. */
  lemma VolumePairsSeparate(pvcs: seq<string>)
    requires forall p | p in pvcs :: p != "" && '/' !in p
    ensures Separate(VolumePairs(pvcs))
  {
    var pairs := VolumePairs(pvcs);
    forall i, j | 0 <= i < j < |pairs| ensures pairs[i] == pairs[j] || !Nested(pairs[i].target, pairs[j].target) {
      assert pvcs[i] in pvcs && pvcs[j] in pvcs;
      MountIsTwoLevels(pvcs[i]);
      MountIsTwoLevels(pvcs[j]);
      if Nested(pairs[i].target, pairs[j].target) {
        assert pairs[i].target[..2] == pairs[i].target && pairs[j].target[..2] == pairs[j].target;
        assert pvcs[i] == pairs[i].target[1] == pairs[j].target[1] == pvcs[j];
      }
    }
  }

  // ---- nested targets ----------------------------------------------------------------------------------

  /** Nesting loses data: restoring an outer directory after an inner one leaves there only what the outer archive
      itself holds. */
  lemma OuterAfterInnerLoses(w: World, s: State, inner: Pair, outer: Pair, p: Path)
    requires AllRestored(w, s, [inner, outer]) && ArchivesAreTrees(w, [inner, outer])
    requires Inside(inner.target, outer.target) && Inside(p, inner.target)
    ensures p in RestoreAll(w, s, [inner, outer]).fs <==> p in PlacedAt(w.snapshot(outer.archive), outer.target)
  {
    TwoRestores(w, s, inner, outer);
    assert outer in [inner, outer];
    LosesInside(w, RestoreOne(w, s, inner), outer, inner.target, p);
  }

  lemma TwoRestores(w: World, s: State, a: Pair, b: Pair)
    requires AllRestored(w, s, [a, b])
    ensures Restores(w, RestoreOne(w, s, a), b)
    ensures RestoreAll(w, s, [a, b]) == RestoreOne(w, RestoreOne(w, s, a), b)
  {
    assert [a, b][1..] == [b] && [b][1..] == [];
    assert RestoreAll(w, RestoreOne(w, s, a), [b]) == RestoreAll(w, RestoreOne(w, RestoreOne(w, s, a), b), []);
  }

  lemma LosesInside(w: World, s: State, outer: Pair, dir: Path, p: Path)
    requires Restores(w, s, outer) && IsTree(w.snapshot(outer.archive)) && Inside(dir, outer.target) && Inside(p, dir)
    ensures p in RestoreOne(w, s, outer).fs <==> p in PlacedAt(w.snapshot(outer.archive), outer.target)
  {
    ReplacesContents(w, s, outer);
    assert p[..|outer.target|] == p[..|dir|][..|outer.target|];
    assert p in RestoreOne(w, s, outer).fs <==> p in Contents(RestoreOne(w, s, outer).fs, outer.target);
  }
}
