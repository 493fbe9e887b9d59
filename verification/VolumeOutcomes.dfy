/** VolumeOutcomes: how a volume restore that fails ends, told from the file system, the client and kubectl alone. */
module VolumeOutcomes {
  import opened Sorting
  import opened VolumeAgent

  // The directory is there and none of its entries is stuck.
  predicate Emptiable(fs: FS, stuck: set<Path>, dir: Path) {
    dir in fs && fs[dir].Dir? && forall p | p in fs && Inside(p, dir) :: p[..|dir| + 1] !in stuck
  }

  lemma CanEmptyExactly(fs: FS, stuck: set<Path>, dir: Path)
    ensures CanEmpty(fs, stuck, dir) <==> Emptiable(fs, stuck, dir)
  {
    var names := InOrder(Children(fs, dir));
    forall p | p in fs && Inside(p, dir) ensures p[|dir|] in names && p[..|dir| + 1] == dir + [p[|dir|]] {
      assert p[|dir|] in Children(fs, dir);
      assert p[..|dir| + 1] == p[..|dir|] + [p[|dir|]];
    }
    forall n | n in names ensures exists p :: p in fs && Inside(p, dir) && p[|dir|] == n {
      assert n in Children(fs, dir);
    }
  }

  // Why a pair is not restored, and with what code: its directory cannot be emptied, or the client fails on it.
  ghost predicate FailsThere(w: World, s: State, pair: Pair, code: int) {
    if !Emptiable(s.fs, w.stuck, pair.target) then code == 1
    else w.client(s.runs).ClientFails? && code == w.client(s.runs).code
  }

  // Every pair before the k-th is restored, and the k-th is not.
  ghost predicate FailsAt(w: World, s: State, pairs: seq<Pair>, k: nat, code: int) {
    && k < |pairs| && AllRestored(w, s, pairs[..k])
    && var at := RestoreAll(w, s, pairs[..k]);
       FailsThere(w, at, pairs[k], code)
       && RestoreAll(w, s, pairs).restored == at.restored && RestoreAll(w, s, pairs).counted == at.counted
  }

  lemma NotRestoredFails(w: World, s: State, pair: Pair)
    requires !Restores(w, s, pair)
    ensures FailsThere(w, s, pair, FailCode(w, s, pair))
    ensures RestoreOne(w, s, pair).restored == s.restored && RestoreOne(w, s, pair).counted == s.counted
  {
    CanEmptyExactly(s.fs, w.stuck, pair.target);
  }

  lemma FailsLater(w: World, s: State, pairs: seq<Pair>, j: nat, code: int)
    requires pairs != [] && Restores(w, s, pairs[0]) && FailsAt(w, RestoreOne(w, s, pairs[0]), pairs[1..], j, code)
    ensures FailsAt(w, s, pairs, j + 1, code)
  {
    var front := pairs[..j + 1];
    assert front[0] == pairs[0] && front[1..] == pairs[1..][..j];
    assert pairs[1..][j] == pairs[j + 1];
    assert RestoreAll(w, s, front) == RestoreAll(w, RestoreOne(w, s, pairs[0]), pairs[1..][..j]);
    assert RestoreAll(w, s, pairs) == RestoreAll(w, RestoreOne(w, s, pairs[0]), pairs[1..]);
  }

  lemma FailsNow(w: World, s: State, pairs: seq<Pair>)
    requires pairs != [] && !Restores(w, s, pairs[0])
    ensures FailsAt(w, s, pairs, 0, FailCode(w, s, pairs[0]))
  {
    NotRestoredFails(w, s, pairs[0]);
    assert pairs[..0] == [];
  }

  /** A run that is not through stops at the first pair that cannot be restored, with 1 for a directory it cannot empty and
      the client's own code otherwise, and reports nothing of that pair. */
  lemma {:induction false} StopsAtFirstFailure(w: World, s: State, pairs: seq<Pair>) returns (k: nat)
    requires !AllRestored(w, s, pairs)
    ensures FailsAt(w, s, pairs, k, ExitCode(w, s, pairs))
    decreases |pairs|
  {
    if Restores(w, s, pairs[0]) {
      var j := StopsAtFirstFailure(w, RestoreOne(w, s, pairs[0]), pairs[1..]);
      FailsLater(w, s, pairs, j, ExitCode(w, s, pairs));
      k := j + 1;
    } else {
      FailsNow(w, s, pairs);
      k := 0;
    }
  }

  /** The byte count is that of the files' contents: directories count nothing, and every file its length. */
  lemma SizeExactly(tree: map<Path, Node>, p: Path)
    ensures Size(map[]) == 0
    ensures p in tree ==> Size(tree) == Size(tree - {p}) + match tree[p] case Dir => 0 case File(content) => |content|
  {
    if p in tree { SizeWithout(tree, p); }
  }
}
