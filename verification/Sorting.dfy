/** Python's sorted(xs, key=...): a stable sort, as a function, with what characterises it. */
module Sorting {
  ghost predicate SortedBy<T>(xs: seq<T>, key: T -> real) {
    forall i, j :: 0 <= i < j < |xs| ==> key(xs[i]) <= key(xs[j])
  }

  /** Puts `x` behind everything that is not larger. */
  function InsertBy<T>(xs: seq<T>, x: T, key: T -> real): (r: seq<T>)
    ensures |r| == |xs| + 1
  {
    if |xs| == 0 || key(xs[|xs| - 1]) <= key(x) then xs + [x]
    else InsertBy(xs[..|xs| - 1], x, key) + [xs[|xs| - 1]]
  }

  function SortBy<T>(xs: seq<T>, key: T -> real): (r: seq<T>)
    ensures |r| == |xs|
  {
    if |xs| == 0 then [] else InsertBy(SortBy(xs[..|xs| - 1], key), xs[|xs| - 1], key)
  }

  lemma {:induction false} InsertIsPermutation<T>(xs: seq<T>, x: T, key: T -> real)
    ensures multiset(InsertBy(xs, x, key)) == multiset(xs) + multiset{x}
  {
    if |xs| == 0 || key(xs[|xs| - 1]) <= key(x) {
    } else {
      var front, last := xs[..|xs| - 1], xs[|xs| - 1];
      assert xs == front + [last];
      InsertIsPermutation(front, x, key);
    }
  }

  ghost predicate AtMost<T>(xs: seq<T>, key: T -> real, bound: real) {
    forall i :: 0 <= i < |xs| ==> key(xs[i]) <= bound
  }

  lemma {:induction false} InsertIsBounded<T>(xs: seq<T>, x: T, key: T -> real, bound: real)
    requires AtMost(xs, key, bound) && key(x) <= bound
    ensures AtMost(InsertBy(xs, x, key), key, bound)
  {
    if |xs| == 0 || key(xs[|xs| - 1]) <= key(x) {
    } else {
      InsertIsBounded(xs[..|xs| - 1], x, key, bound);
    }
  }

  lemma {:induction false} InsertIsSorted<T>(xs: seq<T>, x: T, key: T -> real)
    requires SortedBy(xs, key)
    ensures SortedBy(InsertBy(xs, x, key), key)
  {
    if |xs| == 0 || key(xs[|xs| - 1]) <= key(x) {
    } else {
      InsertIsSorted(xs[..|xs| - 1], x, key);
      InsertIsBounded(xs[..|xs| - 1], x, key, key(xs[|xs| - 1]));
    }
  }

  /** The result is an ordered permutation of the input. */
  lemma {:induction false} SortIsSorted<T>(xs: seq<T>, key: T -> real)
    ensures SortedBy(SortBy(xs, key), key)
    ensures multiset(SortBy(xs, key)) == multiset(xs)
  {
    if |xs| == 0 {
    } else {
      var front, last := xs[..|xs| - 1], xs[|xs| - 1];
      assert xs == front + [last];
      SortIsSorted(front, key);
      InsertIsSorted(SortBy(front, key), last, key);
      InsertIsPermutation(SortBy(front, key), last, key);
    }
  }

  /** The elements with one key, in order. */
  ghost function WithKey<T>(xs: seq<T>, key: T -> real, k: real): seq<T> {
    if |xs| == 0 then []
    else WithKey(xs[..|xs| - 1], key, k) + if key(xs[|xs| - 1]) == k then [xs[|xs| - 1]] else []
  }

  lemma {:induction false} InsertKeepsOrder<T>(xs: seq<T>, x: T, key: T -> real, k: real)
    requires SortedBy(xs, key)
    ensures WithKey(InsertBy(xs, x, key), key, k) == WithKey(xs, key, k) + if key(x) == k then [x] else []
  {
    if |xs| == 0 || key(xs[|xs| - 1]) <= key(x) {
      assert (xs + [x])[..|xs|] == xs;
    } else {
      var front, last := xs[..|xs| - 1], xs[|xs| - 1];
      var r := InsertBy(front, x, key);
      assert (r + [last])[..|r|] == r;
      InsertKeepsOrder(front, x, key, k);
      if key(x) == k {
        assert key(last) != k;
      }
    }
  }

  /** The sort is stable: elements with equal keys keep their order. */
  lemma {:induction false} SortIsStable<T>(xs: seq<T>, key: T -> real, k: real)
    ensures WithKey(SortBy(xs, key), key, k) == WithKey(xs, key, k)
  {
    if |xs| == 0 {
    } else {
      var front, last := xs[..|xs| - 1], xs[|xs| - 1];
      SortIsSorted(front, key);
      SortIsStable(front, key, k);
      InsertKeepsOrder(SortBy(front, key), last, key, k);
    }
  }

  /** The last element with a key is the last one in the list that has it. */
  lemma {:induction false} LastWithKey<T>(xs: seq<T>, key: T -> real, k: real, i: nat)
    requires i < |xs| && key(xs[i]) == k && forall j :: i < j < |xs| ==> key(xs[j]) != k
    ensures |WithKey(xs, key, k)| > 0 && WithKey(xs, key, k)[|WithKey(xs, key, k)| - 1] == xs[i]
  {
    if i == |xs| - 1 {
    } else {
      LastWithKey(xs[..|xs| - 1], key, k, i);
    }
  }
}
