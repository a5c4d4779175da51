/** std::sort and Array.sort as used here: some permutation in descending order of a rate. */
module Sorting {

  ghost predicate Descending<T>(xs: seq<T>, rate: T -> real) {
    forall i, j :: 0 <= i < j < |xs| ==> rate(xs[i]) >= rate(xs[j])
  }

  lemma {:induction false} DescendingCons<T>(x: T, xs: seq<T>, rate: T -> real)
    requires Descending(xs, rate) && forall y :: y in multiset(xs) ==> rate(x) >= rate(y)
    ensures Descending([x] + xs, rate)
    ensures multiset([x] + xs) == multiset{x} + multiset(xs)
  {
    forall i, j | 0 <= i < j < |[x] + xs| ensures rate(([x] + xs)[i]) >= rate(([x] + xs)[j]) {
      assert ([x] + xs)[j] == xs[j - 1] && xs[j - 1] in multiset(xs);
    }
  }

  lemma {:induction false} HeadIsLargest<T>(xs: seq<T>, rate: T -> real)
    requires Descending(xs, rate) && xs != []
    ensures forall y :: y in multiset(xs) ==> rate(xs[0]) >= rate(y)
    ensures Descending(xs[1..], rate)
    ensures multiset(xs) == multiset{xs[0]} + multiset(xs[1..])
  {
    assert xs == [xs[0]] + xs[1..];
    forall y | y in multiset(xs) ensures rate(xs[0]) >= rate(y) {
      var i :| 0 <= i < |xs| && xs[i] == y;
    }
  }

  function InsertDescending<T>(x: T, xs: seq<T>, rate: T -> real): (r: seq<T>)
    requires Descending(xs, rate)
    ensures Descending(r, rate)
    ensures multiset(r) == multiset{x} + multiset(xs)
    ensures |r| == |xs| + 1
  {
    if xs == [] then [x]
    else
      HeadIsLargest(xs, rate);
      if rate(x) >= rate(xs[0]) then
        DescendingCons(x, xs, rate);
        [x] + xs
      else
        var rest := InsertDescending(x, xs[1..], rate);
        DescendingCons(xs[0], rest, rate);
        [xs[0]] + rest
  }

  function SortDescending<T>(xs: seq<T>, rate: T -> real): (r: seq<T>)
    ensures Descending(r, rate)
    ensures multiset(r) == multiset(xs)
    ensures |r| == |xs|
  {
    if xs == [] then []
    else
      assert xs == [xs[0]] + xs[1..];
      InsertDescending(xs[0], SortDescending(xs[1..], rate), rate)
  }

  function Sum<T>(xs: seq<T>, value: T -> real): real {
    if xs == [] then 0.0 else value(xs[0]) + Sum(xs[1..], value)
  }

  lemma {:induction false} SumAppend<T>(xs: seq<T>, ys: seq<T>, value: T -> real)
    ensures Sum(xs + ys, value) == Sum(xs, value) + Sum(ys, value)
  {
    if xs == [] {
      assert xs + ys == ys;
    } else {
      assert (xs + ys)[1..] == xs[1..] + ys;
      SumAppend(xs[1..], ys, value);
    }
  }

  lemma {:induction false} SumNonNegative<T>(xs: seq<T>, value: T -> real)
    requires forall x :: x in xs ==> value(x) >= 0.0
    ensures Sum(xs, value) >= 0.0
  {
    if xs != [] {
      SumNonNegative(xs[1..], value);
    }
  }
}
