/** What `sort.Slice` and `slices.Sort` promise: an ordered permutation. Both are unstable, so the
    rest of the project relies on nothing but the two postconditions of `Sort`. */
module Sorting {

  ghost predicate Ascending<T>(xs: seq<T>, key: T -> int) {
    forall i, j :: 0 <= i < j < |xs| ==> key(xs[i]) <= key(xs[j])
  }

  lemma AppendGreatest<T>(xs: seq<T>, last: T, key: T -> int)
    requires Ascending(xs, key)
    requires forall x :: x in multiset(xs) ==> key(x) <= key(last)
    ensures Ascending(xs + [last], key)
    ensures multiset(xs + [last]) == multiset(xs) + multiset{last}
  {
    forall i, j | 0 <= i < j < |xs| + 1 ensures key((xs + [last])[i]) <= key((xs + [last])[j]) {
      assert xs[i] in multiset(xs);
    }
  }

  lemma GreatestIsLast<T>(xs: seq<T>, key: T -> int)
    requires Ascending(xs, key) && |xs| > 0
    ensures Ascending(xs[..|xs| - 1], key)
    ensures forall x :: x in multiset(xs) ==> key(x) <= key(xs[|xs| - 1])
    ensures multiset(xs) == multiset(xs[..|xs| - 1]) + multiset{xs[|xs| - 1]}
  {
    assert xs == xs[..|xs| - 1] + [xs[|xs| - 1]];
    forall x | x in multiset(xs) ensures key(x) <= key(xs[|xs| - 1]) {
      var i :| 0 <= i < |xs| && xs[i] == x;
    }
  }

  function Insert<T>(x: T, xs: seq<T>, key: T -> int): (r: seq<T>)
    requires Ascending(xs, key)
    ensures Ascending(r, key)
    ensures multiset(r) == multiset(xs) + multiset{x}
  {
    if |xs| == 0 then [x] else
      GreatestIsLast(xs, key);
      var front, last := xs[..|xs| - 1], xs[|xs| - 1];
      if key(last) <= key(x) then
        AppendGreatest(xs, x, key);
        xs + [x]
      else
        var r := Insert(x, front, key);
        AppendGreatest(r, last, key);
        r + [last]
  }

  function Sort<T>(xs: seq<T>, key: T -> int): (r: seq<T>)
    ensures Ascending(r, key)
    ensures multiset(r) == multiset(xs)
  {
    if |xs| == 0 then [] else
      assert xs == xs[..|xs| - 1] + [xs[|xs| - 1]];
      Insert(xs[|xs| - 1], Sort(xs[..|xs| - 1], key), key)
  }

  /** There is only one ascending order of the same numbers. */
  lemma {:induction false} AscendingUnique(xs: seq<int>, ys: seq<int>, key: int -> int)
    requires Ascending(xs, key) && Ascending(ys, key) && multiset(xs) == multiset(ys)
    requires forall x :: key(x) == x
    ensures xs == ys
    decreases |xs|
  {
    if |xs| == 0 {
      assert |multiset(ys)| == 0;
    } else {
      SameGreatest(xs, ys, key);
      SameRest(xs, ys, key);
      AscendingUnique(xs[..|xs| - 1], ys[..|ys| - 1], key);
      assert xs == xs[..|xs| - 1] + [xs[|xs| - 1]];
      assert ys == ys[..|ys| - 1] + [ys[|ys| - 1]];
    }
  }

  lemma SameRest<T>(xs: seq<T>, ys: seq<T>, key: T -> int)
    requires Ascending(xs, key) && Ascending(ys, key) && multiset(xs) == multiset(ys)
    requires |xs| > 0 && |ys| > 0 && xs[|xs| - 1] == ys[|ys| - 1]
    ensures Ascending(xs[..|xs| - 1], key) && Ascending(ys[..|ys| - 1], key)
    ensures multiset(xs[..|xs| - 1]) == multiset(ys[..|ys| - 1])
  {
    GreatestIsLast(xs, key);
    GreatestIsLast(ys, key);
    assert multiset(xs[..|xs| - 1]) == multiset(xs) - multiset{xs[|xs| - 1]};
  }

  lemma SameGreatest(xs: seq<int>, ys: seq<int>, key: int -> int)
    requires Ascending(xs, key) && Ascending(ys, key) && multiset(xs) == multiset(ys) && |xs| > 0
    requires forall x :: key(x) == x
    ensures |ys| > 0 && xs[|xs| - 1] == ys[|ys| - 1]
  {
    assert |ys| == |multiset(ys)| == |multiset(xs)| == |xs|;
    GreatestIsLast(xs, key);
    GreatestIsLast(ys, key);
    var x, y := xs[|xs| - 1], ys[|ys| - 1];
    assert x in multiset(ys) && y in multiset(xs);
    assert key(x) <= key(y) <= key(x);
  }

  function Without<T>(xs: seq<T>, k: nat): (r: seq<T>)
    requires k < |xs|
    ensures |r| == |xs| - 1
    ensures forall i :: 0 <= i < |r| ==> r[i] == xs[if i < k then i else i + 1]
    ensures multiset(r) == multiset(xs) - multiset{xs[k]}
  {
    assert xs == xs[..k] + [xs[k]] + xs[k + 1..];
    xs[..k] + xs[k + 1..]
  }

  function Map<A, B>(xs: seq<A>, f: A -> B): (r: seq<B>)
    ensures |r| == |xs|
    ensures forall i :: 0 <= i < |xs| ==> r[i] == f(xs[i])
  {
    seq(|xs|, i requires 0 <= i < |xs| => f(xs[i]))
  }

  /** Mapping two orderings of the same elements gives two orderings of the same images. */
  lemma {:induction false} MapPermutation<A, B>(xs: seq<A>, ys: seq<A>, f: A -> B)
    requires multiset(xs) == multiset(ys)
    ensures multiset(Map(xs, f)) == multiset(Map(ys, f))
  {
    if |xs| == 0 {
      assert |multiset(ys)| == 0;
    } else {
      assert xs[0] in multiset(ys);
      var j :| 0 <= j < |ys| && ys[j] == xs[0];
      MapPermutation(Without(xs, 0), Without(ys, j), f);
      MapWithout(xs, 0, f);
      MapWithout(ys, j, f);
    }
  }

  lemma MapWithout<A, B>(xs: seq<A>, k: nat, f: A -> B)
    requires k < |xs|
    ensures multiset(Map(xs, f)) == multiset(Map(Without(xs, k), f)) + multiset{f(xs[k])}
  {
    assert Map(Without(xs, k), f) == Without(Map(xs, f), k);
  }
}
