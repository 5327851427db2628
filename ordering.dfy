/** The ordering and de-duplication the booking views get from the database:
    `order_by(...)` on a query set and the distinct rows of a `pk__in`
    filter.  The database's order among rows with equal keys is not
    specified; the model fixes one. */
module Ordering {

  predicate SortedBy<T>(xs: seq<T>, key: T -> int)
  {
    forall i, j :: 0 <= i < j < |xs| ==> key(xs[i]) <= key(xs[j])
  }

  /** Every element occurs at most once. */
  ghost predicate Distinct<T(!new)>(xs: seq<T>)
  {
    forall x :: multiset(xs)[x] <= 1
  }

  /** Puts `x` into a sorted sequence after every element with a smaller or
      equal key. */
  function Insert<T>(x: T, xs: seq<T>, key: T -> int): (r: seq<T>)
    requires SortedBy(xs, key)
    ensures SortedBy(r, key)
    ensures multiset(r) == multiset(xs) + multiset{x}
    ensures |r| == |xs| + 1 && (r[0] == x || (xs != [] && r[0] == xs[0]))
    decreases |xs|
  {
    if xs == [] then [x]
    else if key(x) <= key(xs[0]) then [x] + xs
    else
      assert xs == [xs[0]] + xs[1..];
      [xs[0]] + Insert(x, xs[1..], key)
  }

  /** `order_by(key)`: a sorted permutation of `xs`. */
  function SortBy<T>(xs: seq<T>, key: T -> int): (r: seq<T>)
    ensures SortedBy(r, key)
    ensures multiset(r) == multiset(xs)
    decreases |xs|
  {
    if xs == [] then []
    else
      assert xs == [xs[0]] + xs[1..];
      Insert(xs[0], SortBy(xs[1..], key), key)
  }

  /** Sorting neither adds, drops nor repeats an element. */
  lemma SortByKeepsElements<T(!new)>(xs: seq<T>, key: T -> int)
    ensures |SortBy(xs, key)| == |xs|
    ensures forall x :: x in SortBy(xs, key) <==> x in xs
    ensures Distinct(xs) ==> Distinct(SortBy(xs, key))
  {
    var r := SortBy(xs, key);
    assert multiset(r) == multiset(xs);
    assert |r| == |multiset(r)| == |multiset(xs)| == |xs|;
    forall x ensures x in r <==> x in xs {
      assert x in r <==> multiset(r)[x] > 0;
      assert x in xs <==> multiset(xs)[x] > 0;
    }
  }

  /** The distinct elements of `xs` that lie in `allowed`, each once
      (`Model.objects.filter(pk__in=xs)`). */
  function DistinctIn(xs: seq<nat>, allowed: set<nat>): (r: seq<nat>)
    ensures Distinct(r)
    ensures forall x :: x in r <==> x in xs && x in allowed
    decreases |xs|
  {
    if xs == [] then []
    else
      var rest := DistinctIn(xs[1..], allowed);
      assert forall x :: x in xs <==> x == xs[0] || x in xs[1..];
      if xs[0] in allowed && xs[0] !in rest then
        assert forall x :: multiset([xs[0]] + rest)[x] == multiset(rest)[x] + (if x == xs[0] then 1 else 0);
        [xs[0]] + rest
      else rest
  }
}
