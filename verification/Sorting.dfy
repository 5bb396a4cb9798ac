/**
 String order and sorting by a string key, standing for sort.Strings and sort.Slice: the
 result is sorted, holds the same elements, and is the only such sequence when equal keys
 mean equal elements.  FilterMap keeps only what a function selects.
 */
module Sorting {
  import opened Wrappers

  predicate StringLe(a: string, b: string) {
    a == "" || (b != "" && (a[0] < b[0] || (a[0] == b[0] && StringLe(a[1..], b[1..]))))
  }

  lemma {:induction false} StringLeTotal(a: string, b: string)
    ensures StringLe(a, b) || StringLe(b, a)
    ensures StringLe(a, a)
  {
    if a != "" {
      StringLeTotal(a[1..], a[1..]);
      if b != "" { StringLeTotal(a[1..], b[1..]); }
    }
  }

  lemma {:induction false} StringLeTransitive(a: string, b: string, c: string)
    requires StringLe(a, b) && StringLe(b, c)
    ensures StringLe(a, c)
  {
    if a != "" && a[0] == b[0] == c[0] { StringLeTransitive(a[1..], b[1..], c[1..]); }
  }

  lemma {:induction false} StringLeAntisymmetric(a: string, b: string)
    requires StringLe(a, b) && StringLe(b, a)
    ensures a == b
  {
    if a != "" {
      StringLeAntisymmetric(a[1..], b[1..]);
      assert a == [a[0]] + a[1..] && b == [b[0]] + b[1..];
    }
  }

  ghost predicate SortedBy<T>(xs: seq<T>, key: T -> string) {
    forall i, j :: 0 <= i < j < |xs| ==> StringLe(key(xs[i]), key(xs[j]))
  }

  function InsertBy<T>(x: T, xs: seq<T>, key: T -> string): seq<T> {
    if xs == [] || StringLe(key(x), key(xs[0])) then [x] + xs else [xs[0]] + InsertBy(x, xs[1..], key)
  }

  function SortBy<T>(xs: seq<T>, key: T -> string): seq<T> {
    if xs == [] then [] else InsertBy(xs[0], SortBy(xs[1..], key), key)
  }

  lemma {:induction false} InsertBySorts<T>(x: T, xs: seq<T>, key: T -> string)
    requires SortedBy(xs, key)
    ensures SortedBy(InsertBy(x, xs, key), key)
    ensures multiset(InsertBy(x, xs, key)) == multiset(xs) + multiset{x}
  {
    if xs == [] {
    } else if StringLe(key(x), key(xs[0])) {
      forall j | 0 <= j < |xs| ensures StringLe(key(x), key(xs[j])) {
        if j > 0 { StringLeTransitive(key(x), key(xs[0]), key(xs[j])); }
      }
    } else {
      StringLeTotal(key(x), key(xs[0]));
      var rest := InsertBy(x, xs[1..], key);
      InsertBySorts(x, xs[1..], key);
      assert xs == [xs[0]] + xs[1..];
      forall j | 0 <= j < |rest| ensures StringLe(key(xs[0]), key(rest[j])) {
        assert rest[j] in multiset(rest);
        if rest[j] != x {
          assert rest[j] in multiset(xs[1..]) && rest[j] in xs[1..];
        }
      }
    }
  }

  lemma {:induction false} SortBySorts<T>(xs: seq<T>, key: T -> string)
    ensures SortedBy(SortBy(xs, key), key)
    ensures multiset(SortBy(xs, key)) == multiset(xs)
    ensures |SortBy(xs, key)| == |xs|
  {
    if xs != [] {
      SortBySorts(xs[1..], key);
      InsertBySorts(xs[0], SortBy(xs[1..], key), key);
      assert xs == [xs[0]] + xs[1..];
    }
    assert |multiset(SortBy(xs, key))| == |multiset(xs)|;
  }

  ghost predicate KeysIdentify<T>(xs: seq<T>, key: T -> string) {
    forall x, y :: x in xs && y in xs && key(x) == key(y) ==> x == y
  }

  lemma HeadsAgree<T>(xs: seq<T>, ys: seq<T>, key: T -> string)
    requires xs != [] && ys != [] && SortedBy(xs, key) && SortedBy(ys, key)
    requires multiset(xs) == multiset(ys) && KeysIdentify(xs, key)
    ensures xs[0] == ys[0]
  {
    assert xs[0] in multiset(ys) && ys[0] in multiset(xs);
    var i :| 0 <= i < |ys| && ys[i] == xs[0];
    var j :| 0 <= j < |xs| && xs[j] == ys[0];
    StringLeTotal(key(xs[0]), key(ys[0]));
    assert StringLe(key(ys[0]), key(xs[0])) by { if i > 0 { assert StringLe(key(ys[0]), key(ys[i])); } }
    assert StringLe(key(xs[0]), key(ys[0])) by { if j > 0 { assert StringLe(key(xs[0]), key(xs[j])); } }
    StringLeAntisymmetric(key(xs[0]), key(ys[0]));
    assert ys[0] in xs;
  }

  lemma TailsAgree<T>(xs: seq<T>, ys: seq<T>)
    requires xs != [] && ys != [] && xs[0] == ys[0] && multiset(xs) == multiset(ys)
    ensures multiset(xs[1..]) == multiset(ys[1..])
  {
    assert xs == [xs[0]] + xs[1..] && ys == [ys[0]] + ys[1..];
    assert multiset(xs[1..]) == multiset(xs) - multiset{xs[0]};
    assert multiset(ys[1..]) == multiset(ys) - multiset{ys[0]};
  }

  lemma {:induction false} SortedIsUnique<T>(xs: seq<T>, ys: seq<T>, key: T -> string)
    requires SortedBy(xs, key) && SortedBy(ys, key) && multiset(xs) == multiset(ys) && KeysIdentify(xs, key)
    ensures xs == ys
  {
    assert |xs| == |multiset(xs)| == |multiset(ys)| == |ys|;
    if xs != [] {
      HeadsAgree(xs, ys, key);
      TailsAgree(xs, ys);
      assert KeysIdentify(xs[1..], key);
      SortedIsUnique(xs[1..], ys[1..], key);
      assert xs == [xs[0]] + xs[1..] && ys == [ys[0]] + ys[1..];
    }
  }

  /** Sorting forgets the order of its input. */
  lemma SortIsCanonical<T>(xs: seq<T>, ys: seq<T>, key: T -> string)
    requires multiset(xs) == multiset(ys) && KeysIdentify(xs, key)
    ensures SortBy(xs, key) == SortBy(ys, key)
  {
    SortBySorts(xs, key);
    SortBySorts(ys, key);
    forall x | x in SortBy(xs, key) ensures x in xs { assert x in multiset(SortBy(xs, key)); }
    SortedIsUnique(SortBy(xs, key), SortBy(ys, key), key);
  }

  function Self(s: string): string {
    s
  }

  function SortStrings(xs: seq<string>): seq<string> {
    SortBy(xs, Self)
  }

  // ---------- selecting ----------

  function FilterMap<A, B>(xs: seq<A>, f: A -> Option<B>): seq<B> {
    if xs == [] then []
    else
      FilterMap(xs[..|xs| - 1], f) +
      match f(xs[|xs| - 1]) { case None => [] case Some(y) => [y] }
  }

  lemma FilterMapSnoc<A, B>(xs: seq<A>, x: A, f: A -> Option<B>)
    ensures FilterMap(xs + [x], f) == FilterMap(xs, f) + match f(x) { case None => [] case Some(y) => [y] }
  {
    assert (xs + [x])[..|xs|] == xs;
  }

  lemma {:induction false} FilterMapConcat<A, B>(xs: seq<A>, ys: seq<A>, f: A -> Option<B>)
    ensures FilterMap(xs + ys, f) == FilterMap(xs, f) + FilterMap(ys, f)
  {
    if ys == [] {
      assert xs + ys == xs;
    } else {
      var front := ys[..|ys| - 1];
      FilterMapConcat(xs, front, f);
      assert xs + ys == (xs + front) + [ys[|ys| - 1]];
      FilterMapSnoc(xs + front, ys[|ys| - 1], f);
    }
  }

  /** Where a selected element sits does not change the selected multiset. */
  lemma FilterMapMiddle<A, B>(left: seq<A>, x: A, right: seq<A>, f: A -> Option<B>)
    ensures multiset(FilterMap(left + [x] + right, f)) == multiset(FilterMap(left + right + [x], f))
  {
    FilterMapConcat(left + [x], right, f);
    FilterMapConcat(left, right, f);
    FilterMapSnoc(left, x, f);
    FilterMapSnoc(left + right, x, f);
  }

  lemma TakeOut<A>(xs: seq<A>, x: A) returns (left: seq<A>, right: seq<A>)
    requires x in xs
    ensures xs == left + [x] + right && multiset(left + right) == multiset(xs) - multiset{x}
  {
    var j :| 0 <= j < |xs| && xs[j] == x;
    left, right := xs[..j], xs[j + 1..];
    assert xs == left + [x] + right;
    assert multiset(xs) == multiset(left) + multiset{x} + multiset(right);
  }

  lemma {:induction false} FilterMapPermutes<A, B>(xs: seq<A>, ys: seq<A>, f: A -> Option<B>)
    requires multiset(xs) == multiset(ys)
    ensures multiset(FilterMap(xs, f)) == multiset(FilterMap(ys, f))
    decreases |xs|, 1
  {
    if xs == [] {
      assert |multiset(ys)| == 0;
    } else {
      var front, x := xs[..|xs| - 1], xs[|xs| - 1];
      assert xs == front + [x];
      assert x in multiset(ys);
      var left, right := TakeOut(ys, x);
      FilterMapPermutesStep(front, x, left, right, f);
    }
  }

  lemma FilterMapPermutesStep<A, B>(front: seq<A>, x: A, left: seq<A>, right: seq<A>, f: A -> Option<B>)
    requires multiset(front + [x]) == multiset(left + [x] + right)
    ensures multiset(FilterMap(front + [x], f)) == multiset(FilterMap(left + [x] + right, f))
    decreases |front| + 1, 0
  {
    assert multiset(front) == multiset(front + [x]) - multiset{x};
    assert multiset(left + right) == multiset(left + [x] + right) - multiset{x};
    FilterMapPermutes(front, left + right, f);
    FilterMapMiddle(left, x, right, f);
    FilterMapSnoc(front, x, f);
    FilterMapSnoc(left + right, x, f);
  }

  /** What is selected comes from the input, and everything that qualifies is selected. */
  lemma {:induction false} FilterMapMembers<A, B>(xs: seq<A>, f: A -> Option<B>)
    ensures forall y :: y in FilterMap(xs, f) <==> exists x :: x in xs && f(x) == Some(y)
  {
    if xs != [] {
      var front, last := xs[..|xs| - 1], xs[|xs| - 1];
      FilterMapMembers(front, f);
      assert xs == front + [last];
      assert forall x :: x in xs <==> x in front || x == last;
    }
  }
}
