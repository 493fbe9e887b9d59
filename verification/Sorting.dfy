/** Sorting: insertion sort as the reference for `sort.Slice` / `sort.Strings`, and the uniqueness
    lemmas that make the result independent of the order in which Go ranged over a map. */
module Sorting {
  import opened Strings

  // Strictly ascending: no two elements tie.
  ghost predicate Ascending<T>(less: (T, T) -> bool, xs: seq<T>) {
    forall i, j | 0 <= i < j < |xs| :: less(xs[i], xs[j])
  }

  // Ascending with ties allowed.
  ghost predicate NonDescending<T>(less: (T, T) -> bool, xs: seq<T>) {
    forall i, j | 0 <= i < j < |xs| :: !less(xs[j], xs[i])
  }

  ghost predicate StrictOrder<T(!new)>(less: (T, T) -> bool) {
    && (forall x :: !less(x, x))
    && (forall x, y, z :: less(x, y) && less(y, z) ==> less(x, z))
  }

  // Elements of xs that differ are comparable.
  ghost predicate Comparable<T>(less: (T, T) -> bool, xs: seq<T>) {
    forall i, j | 0 <= i < j < |xs| :: less(xs[i], xs[j]) || less(xs[j], xs[i])
  }

  // Incomparability is transitive, so the order ranks elements by a key.
  ghost predicate WeakOrder<T(!new)>(less: (T, T) -> bool) {
    && StrictOrder(less)
    && (forall x, y, z :: less(x, z) ==> less(x, y) || less(y, z))
  }

  function Insert<T>(less: (T, T) -> bool, x: T, xs: seq<T>): seq<T> {
    if xs == [] then [x]
    else if less(xs[0], x) then [xs[0]] + Insert(less, x, xs[1..])
    else [x] + xs
  }

  function Sort<T>(less: (T, T) -> bool, xs: seq<T>): seq<T> {
    if xs == [] then [] else Insert(less, xs[0], Sort(less, xs[1..]))
  }

  lemma {:induction false} InsertPermutes<T>(less: (T, T) -> bool, x: T, xs: seq<T>)
    ensures multiset(Insert(less, x, xs)) == multiset{x} + multiset(xs)
  {
    if xs != [] {
      assert xs == [xs[0]] + xs[1..];
      InsertPermutes(less, x, xs[1..]);
    }
  }

  lemma {:induction false} SortPermutes<T>(less: (T, T) -> bool, xs: seq<T>)
    ensures multiset(Sort(less, xs)) == multiset(xs)
    ensures |Sort(less, xs)| == |xs|
    ensures forall x :: x in Sort(less, xs) <==> x in xs
  {
    if xs != [] {
      assert xs == [xs[0]] + xs[1..];
      SortPermutes(less, xs[1..]);
      InsertPermutes(less, xs[0], Sort(less, xs[1..]));
    }
    assert |multiset(Sort(less, xs))| == |multiset(xs)|;
    forall x ensures x in Sort(less, xs) <==> x in xs {
      assert x in Sort(less, xs) <==> x in multiset(Sort(less, xs));
      assert x in xs <==> x in multiset(xs);
    }
  }

  lemma {:induction false} InsertSorts<T(!new)>(less: (T, T) -> bool, x: T, xs: seq<T>)
    requires WeakOrder(less) && NonDescending(less, xs)
    ensures NonDescending(less, Insert(less, x, xs))
  {
    if xs != [] {
      if less(xs[0], x) {
        InsertSorts(less, x, xs[1..]);
        var rest := Insert(less, x, xs[1..]);
        InsertPermutes(less, x, xs[1..]);
        forall k | 0 <= k < |rest| ensures !less(rest[k], xs[0]) {
          assert rest[k] in multiset(rest);
          assert rest[k] == x || rest[k] in xs[1..];
        }
      } else {
        forall j | 0 <= j < |xs| ensures !less(xs[j], x) {
          var first, other := xs[0], xs[j];
          assert less(other, x) ==> less(other, first) || less(first, x);
        }
      }
    }
  }

  lemma {:induction false} SortSorts<T(!new)>(less: (T, T) -> bool, xs: seq<T>)
    requires WeakOrder(less)
    ensures NonDescending(less, Sort(less, xs))
  {
    if xs != [] {
      SortSorts(less, xs[1..]);
      InsertSorts(less, xs[0], Sort(less, xs[1..]));
    }
  }

  // Distinct keys make the sorted list strictly ascending.
  lemma SortAscends<T(!new)>(less: (T, T) -> bool, xs: seq<T>)
    requires WeakOrder(less) && Comparable(less, xs)
    ensures Ascending(less, Sort(less, xs))
  {
    SortSorts(less, xs);
    SortPermutes(less, xs);
    var ys := Sort(less, xs);
    forall i, j | 0 <= i < j < |ys| ensures less(ys[i], ys[j]) {
      var a, b := DistinctSources(xs, ys, i, j);
    }
  }

  // Two positions of a permutation come from two positions of the original.
  lemma DistinctSources<T>(xs: seq<T>, ys: seq<T>, i: nat, j: nat) returns (a: nat, b: nat)
    requires multiset(xs) == multiset(ys) && i < j < |ys|
    ensures a < |xs| && b < |xs| && a != b && xs[a] == ys[i] && xs[b] == ys[j]
  {
    assert ys[i] in multiset(ys) && ys[j] in multiset(ys);
    assert ys[i] in xs && ys[j] in xs;
    a :| 0 <= a < |xs| && xs[a] == ys[i];
    if ys[i] == ys[j] {
      assert ys == ys[..i] + [ys[i]] + ys[i + 1..];
      assert ys[j] == ys[i + 1..][j - i - 1];
      assert multiset(ys)[ys[i]] >= 2;
      assert xs == xs[..a] + [xs[a]] + xs[a + 1..];
      assert xs[a] in multiset(xs[..a] + xs[a + 1..]);
      var c :| 0 <= c < |xs| - 1 && (xs[..a] + xs[a + 1..])[c] == xs[a];
      b := if c < a then c else c + 1;
    } else {
      b :| 0 <= b < |xs| && xs[b] == ys[j];
    }
  }

  // Two strictly ascending lists with the same elements are the same list.
  lemma {:induction false} AscendingUnique<T(!new)>(less: (T, T) -> bool, xs: seq<T>, ys: seq<T>)
    requires StrictOrder(less)
    requires Ascending(less, xs) && Ascending(less, ys)
    requires forall x :: x in xs <==> x in ys
    ensures xs == ys
  {
    assert |ys| > 0 ==> ys[0] in ys;
    if |xs| > 0 {
      assert xs[0] in ys;
      assert ys[0] in xs;
      assert xs[0] == ys[0];
      forall x ensures x in xs[1..] <==> x in ys[1..] {
        assert x in xs[1..] <==> x in xs && x != xs[0];
        assert x in ys[1..] <==> x in ys && x != ys[0];
      }
      AscendingUnique(less, xs[1..], ys[1..]);
    }
  }

  lemma {:induction false} AscendingDistinct<T(!new)>(less: (T, T) -> bool, xs: seq<T>)
    requires StrictOrder(less) && Ascending(less, xs)
    ensures forall i, j | 0 <= i < j < |xs| :: xs[i] != xs[j]
  {
  }

  // ---- strings ----------------------------------------------------------------

  lemma LessIsOrder()
    ensures WeakOrder(Less)
  {
    forall x ensures !Less(x, x) { LessIrreflexive(x); }
    forall x, y, z | Less(x, y) && Less(y, z) ensures Less(x, z) { LessTransitive(x, y, z); }
    forall x, y, z | Less(x, z) ensures Less(x, y) || Less(y, z) {
      LessTotal(x, y);
      LessTotal(y, z);
      if Less(y, x) { LessTransitive(y, x, z); }
    }
  }

  // sort.Strings
  function SortStrings(xs: seq<string>): seq<string> {
    Sort(Less, xs)
  }

  // The members of a set in ascending order.
  ghost function InOrder(names: set<string>): (xs: seq<string>)
    ensures Ascending(Less, xs)
    ensures forall x :: x in xs <==> x in names
    ensures |xs| == |names|
  {
    if names == {} then []
    else
      var x :| x in names;
      var rest := InOrder(names - {x});
      InsertsNew(x, rest);
      Insert(Less, x, rest)
  }

  lemma InsertsNew(x: string, xs: seq<string>)
    requires Ascending(Less, xs) && x !in xs
    ensures Ascending(Less, Insert(Less, x, xs))
    ensures |Insert(Less, x, xs)| == |xs| + 1
    ensures forall y :: y in Insert(Less, x, xs) <==> y == x || y in xs
  {
    LessIsOrder();
    InsertAscends(x, xs);
    InsertPermutes(Less, x, xs);
    var out := Insert(Less, x, xs);
    assert |multiset(out)| == 1 + |multiset(xs)|;
    forall y ensures y in out <==> y == x || y in xs {
      assert y in out <==> y in multiset(out);
    }
  }

  lemma {:induction false} InsertAscends(x: string, xs: seq<string>)
    requires WeakOrder(Less) && Ascending(Less, xs) && x !in xs
    ensures Ascending(Less, Insert(Less, x, xs))
  {
    if xs != [] {
      LessTotal(xs[0], x);
      if Less(xs[0], x) {
        InsertAscends(x, xs[1..]);
        var rest := Insert(Less, x, xs[1..]);
        InsertPermutes(Less, x, xs[1..]);
        forall k | 0 <= k < |rest| ensures Less(xs[0], rest[k]) {
          assert rest[k] in multiset(rest);
          assert rest[k] == x || rest[k] in xs[1..];
        }
      }
    }
  }

  // Sorting any duplicate-free enumeration of a set gives the set in order.
  lemma SortEnumeration(xs: seq<string>, names: set<string>)
    requires forall x :: x in xs <==> x in names
    requires forall i, j | 0 <= i < j < |xs| :: xs[i] != xs[j]
    ensures SortStrings(xs) == InOrder(names)
  {
    LessIsOrder();
    forall i, j | 0 <= i < j < |xs| ensures Less(xs[i], xs[j]) || Less(xs[j], xs[i]) {
      LessTotal(xs[i], xs[j]);
    }
    SortAscends(Less, xs);
    SortPermutes(Less, xs);
    AscendingUnique(Less, SortStrings(xs), InOrder(names));
  }

  // `for node := range groups`, then sort.Strings: the order of the range does not show.
  method SortedKeys(groups: map<string, seq<string>>) returns (nodes: seq<string>)
    ensures nodes == InOrder(groups.Keys)
  {
    nodes := [];
    var left := groups.Keys;
    while left != {}
      invariant left <= groups.Keys
      invariant forall n :: n in nodes <==> n in groups.Keys - left
      invariant forall i, j | 0 <= i < j < |nodes| :: nodes[i] != nodes[j]
      decreases |left|
    {
      var node :| node in left;
      assert node !in nodes;
      nodes := nodes + [node];
      left := left - {node};
    }
    SortEnumeration(nodes, groups.Keys);
    nodes := SortStrings(nodes);
  }
}
