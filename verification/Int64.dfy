/** Int64: the wrap-around of Go's int64 totals. */
module Int64 {

  // int64 arithmetic wraps around.
  function Wrap64(x: int): int {
    (x + 0x8000_0000_0000_0000) % 0x1_0000_0000_0000_0000 - 0x8000_0000_0000_0000
  }

  predicate FitsInt64(x: int) {
    -0x8000_0000_0000_0000 <= x < 0x8000_0000_0000_0000
  }

  lemma WrapAdds(a: int, b: int)
    ensures Wrap64(Wrap64(a) + b) == Wrap64(a + b)
  {
    var m := 0x1_0000_0000_0000_0000;
    var h := 0x8000_0000_0000_0000;
    var q := (a + h) / m;
    assert Wrap64(a) == a - q * m;
    assert Wrap64(a) + b + h == (a + b + h) + (-q) * m;
    ModShift(a + b + h, -q, m);
  }

  lemma {:induction false} ModShift(x: int, k: int, m: nat)
    requires m > 0
    ensures (x + k * m) % m == x % m
    decreases if k < 0 then -k else k
  {
    if k > 0 {
      ModShift(x, k - 1, m);
      ModOnce(x + (k - 1) * m, m);
      assert x + k * m == x + (k - 1) * m + m;
    } else if k < 0 {
      ModShift(x, k + 1, m);
      ModOnce(x + k * m, m);
      assert x + (k + 1) * m == x + k * m + m;
    }
  }

  lemma ModOnce(x: int, m: nat)
    requires m > 0
    ensures (x + m) % m == x % m
  {
    var q, r := x / m, x % m;
    assert x + m == (q + 1) * m + r;
    Quotient(x + m, q + 1, r, m);
  }

  lemma Quotient(x: int, q: int, r: nat, m: nat)
    requires 0 <= r < m && x == q * m + r
    ensures x % m == r
  {
    var d := x / m - q;
    assert x == (x / m) * m + x % m;
    assert d * m == r - x % m;
    assert d >= 1 ==> d * m >= 1 * m;
    assert d <= -1 ==> d * m <= -1 * m;
  }

  // A running total, wrapped at every step, and the true sum.
  function RunningTotal(xs: seq<int>): int {
    if xs == [] then 0 else Wrap64(RunningTotal(xs[..|xs| - 1]) + xs[|xs| - 1])
  }

  function Plain(xs: seq<int>): int {
    if xs == [] then 0 else Plain(xs[..|xs| - 1]) + xs[|xs| - 1]
  }

  // Wrapping at every step is wrapping once.
  lemma {:induction false} WrapsOnce(xs: seq<int>)
    ensures RunningTotal(xs) == Wrap64(Plain(xs))
    ensures RunningTotal(xs) == Plain(xs) <==> FitsInt64(Plain(xs))
  {
    if xs != [] {
      var n := |xs| - 1;
      WrapsOnce(xs[..n]);
      WrapAdds(Plain(xs[..n]), xs[n]);
    }
  }

  lemma RunningStep(xs: seq<int>, x: int)
    ensures RunningTotal(xs + [x]) == Wrap64(RunningTotal(xs) + x)
  {
    assert (xs + [x])[..|xs|] == xs;
  }
}
