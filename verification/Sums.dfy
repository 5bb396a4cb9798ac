/** Adding up a weight over the goroutines of a state. */
module Sums {

  function Total<T>(xs: seq<T>, weight: T -> nat): nat {
    if xs == [] then 0 else Total(xs[..|xs| - 1], weight) + weight(xs[|xs| - 1])
  }

  lemma {:induction false} TotalUpdate<T>(xs: seq<T>, weight: T -> nat, i: nat, x: T)
    requires i < |xs|
    ensures Total(xs[i := x], weight) + weight(xs[i]) == Total(xs, weight) + weight(x)
  {
    var last := |xs| - 1;
    var updated := xs[i := x];
    if i == last {
      assert updated[..last] == xs[..last];
    } else {
      TotalUpdate(xs[..last], weight, i, x);
      assert updated[..last] == xs[..last][i := x];
    }
  }

  lemma TotalAppend<T>(xs: seq<T>, weight: T -> nat, x: T)
    ensures Total(xs + [x], weight) == Total(xs, weight) + weight(x)
  {
    assert (xs + [x])[..|xs|] == xs;
  }

  lemma {:induction false} TotalZero<T>(xs: seq<T>, weight: T -> nat)
    requires forall i :: 0 <= i < |xs| ==> weight(xs[i]) == 0
    ensures Total(xs, weight) == 0
  {
    if xs != [] { TotalZero(xs[..|xs| - 1], weight); }
  }

  lemma {:induction false} TotalSame<T>(xs: seq<T>, weight: T -> nat, other: T -> nat)
    requires forall i :: 0 <= i < |xs| ==> weight(xs[i]) == other(xs[i])
    ensures Total(xs, weight) == Total(xs, other)
  {
    if xs != [] { TotalSame(xs[..|xs| - 1], weight, other); }
  }

  lemma {:induction false} TotalAtLeast<T>(xs: seq<T>, weight: T -> nat, i: nat)
    requires i < |xs|
    ensures Total(xs, weight) >= weight(xs[i])
  {
    if i < |xs| - 1 { TotalAtLeast(xs[..|xs| - 1], weight, i); }
  }

  lemma {:induction false} TotalAtLeastBoth<T>(xs: seq<T>, weight: T -> nat, i: nat, j: nat)
    requires i < j < |xs|
    ensures Total(xs, weight) >= weight(xs[i]) + weight(xs[j])
  {
    if j < |xs| - 1 {
      TotalAtLeastBoth(xs[..|xs| - 1], weight, i, j);
    } else {
      TotalAtLeast(xs[..|xs| - 1], weight, i);
    }
  }
}
