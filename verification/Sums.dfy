/** Sums over sequences, and how they change when one element does. */
module Sums {

  function SumBy<T>(xs: seq<T>, f: T -> int): (n: int) {
    if xs == [] then 0 else SumBy(xs[..|xs| - 1], f) + f(xs[|xs| - 1])
  }

  function Itself(n: nat): (r: int) {
    n
  }

  lemma {:induction false} SumUpdate<T>(xs: seq<T>, k: nat, x: T, f: T -> int)
    requires k < |xs|
    ensures SumBy(xs[k := x], f) == SumBy(xs, f) - f(xs[k]) + f(x)
  {
    var n := |xs| - 1;
    if k == n {
      assert xs[k := x][..n] == xs[..n];
    } else {
      assert xs[k := x][..n] == xs[..n][k := x];
      SumUpdate(xs[..n], k, x, f);
    }
  }

  lemma SumAppend<T>(xs: seq<T>, x: T, f: T -> int)
    ensures SumBy(xs + [x], f) == SumBy(xs, f) + f(x)
  {
    assert (xs + [x])[..|xs|] == xs;
  }

  lemma {:induction false} SumZero<T>(xs: seq<T>, f: T -> int)
    requires forall k | 0 <= k < |xs| :: f(xs[k]) == 0
    ensures SumBy(xs, f) == 0
  {
    if xs != [] {
      SumZero(xs[..|xs| - 1], f);
    }
  }

  lemma {:induction false} SumFirst<T>(xs: seq<T>, f: T -> int)
    requires xs != []
    ensures SumBy(xs, f) == f(xs[0]) + SumBy(xs[1..], f)
  {
    var n := |xs| - 1;
    if n > 0 {
      SumFirst(xs[..n], f);
      assert xs[..n][1..] == xs[1..][..n - 1];
    }
  }

  lemma {:induction false} SumCovers<T>(xs: seq<T>, k: nat, f: T -> int)
    requires k < |xs| && forall j | 0 <= j < |xs| :: f(xs[j]) >= 0
    ensures SumBy(xs, f) >= f(xs[k])
  {
    var front := xs[..|xs| - 1];
    if k < |xs| - 1 {
      SumCovers(front, k, f);
    } else if front != [] {
      SumCovers(front, 0, f);
    }
  }
}
