/** Groups: splitting a list by a key. The groups of all keys together hold every occurrence exactly once. */
module Groups {

  // The elements with one key, in order.
  function Group(xs: seq<string>, keys: seq<string>, key: string): seq<string>
    requires |keys| == |xs|
  {
    if xs == [] then []
    else
      var n := |xs| - 1;
      Group(xs[..n], keys[..n], key) + (if keys[n] == key then [xs[n]] else [])
  }

  // Everything in the groups of the listed keys, with multiplicity.
  function Gathered(xs: seq<string>, keys: seq<string>, order: seq<string>): multiset<string>
    requires |keys| == |xs|
  {
    if order == [] then multiset{}
    else Gathered(xs, keys, order[..|order| - 1]) + multiset(Group(xs, keys, order[|order| - 1]))
  }

  predicate Distinct(order: seq<string>) {
    forall i, j | 0 <= i < j < |order| :: order[i] != order[j]
  }

  lemma GroupSnoc(xs: seq<string>, keys: seq<string>, x: string, k: string, key: string)
    requires |keys| == |xs|
    ensures Group(xs + [x], keys + [k], key) == Group(xs, keys, key) + (if k == key then [x] else [])
    ensures multiset(Group(xs + [x], keys + [k], key))
            == multiset(Group(xs, keys, key)) + (if k == key then multiset{x} else multiset{})
  {
    assert (xs + [x])[..|xs|] == xs && (keys + [k])[..|keys|] == keys;
  }

  lemma GatheredLast(xs: seq<string>, keys: seq<string>, order: seq<string>, last: string)
    requires |keys| == |xs|
    ensures Gathered(xs, keys, order + [last]) == Gathered(xs, keys, order) + multiset(Group(xs, keys, last))
  {
    assert (order + [last])[..|order|] == order;
  }

  // One more element lands in exactly one group.
  lemma {:induction false} GatheredSnoc(xs: seq<string>, keys: seq<string>, x: string, k: string, order: seq<string>)
    requires |keys| == |xs| && Distinct(order)
    ensures Gathered(xs + [x], keys + [k], order) == Gathered(xs, keys, order) + (if k in order then multiset{x} else multiset{})
  {
    if order != [] {
      var front, last := order[..|order| - 1], order[|order| - 1];
      assert order == front + [last] && last !in front;
      GatheredSnoc(xs, keys, x, k, front);
      GroupSnoc(xs, keys, x, k, last);
      GatheredLast(xs, keys, front, last);
      GatheredLast(xs + [x], keys + [k], front, last);
      assert k in order <==> k in front || k == last;
    }
  }

  lemma {:induction false} GatheredEmpty(order: seq<string>)
    ensures Gathered([], [], order) == multiset{}
  {
    if order != [] { GatheredEmpty(order[..|order| - 1]); }
  }

  // Distinct keys that cover all: the groups partition the occurrences.
  lemma {:induction false} GroupsPartition(xs: seq<string>, keys: seq<string>, order: seq<string>)
    requires |keys| == |xs| && Distinct(order) && forall k | k in keys :: k in order
    ensures Gathered(xs, keys, order) == multiset(xs)
  {
    if xs == [] {
      GatheredEmpty(order);
    } else {
      var n := |xs| - 1;
      assert xs == xs[..n] + [xs[n]] && keys == keys[..n] + [keys[n]];
      GroupsPartition(xs[..n], keys[..n], order);
      GatheredSnoc(xs[..n], keys[..n], xs[n], keys[n], order);
    }
  }

  // A group holds exactly the occurrences with its key.
  lemma {:induction false} GroupHolds(xs: seq<string>, keys: seq<string>, key: string, x: string)
    requires |keys| == |xs|
    ensures x in Group(xs, keys, key) <==> exists i | 0 <= i < |xs| :: xs[i] == x && keys[i] == key
  {
    if xs != [] {
      var n := |xs| - 1;
      GroupHolds(xs[..n], keys[..n], key, x);
      assert xs == xs[..n] + [xs[n]] && keys == keys[..n] + [keys[n]];
    }
  }
}
