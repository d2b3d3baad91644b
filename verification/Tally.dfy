/** Totals of natural numbers over sequences. */
module Tally {
  ghost function Total<T>(xs: seq<T>, f: T -> nat): nat {
    if xs == [] then 0 else f(xs[0]) + Total(xs[1..], f)
  }

  lemma {:induction false} TotalAppend<T>(xs: seq<T>, x: T, f: T -> nat)
    ensures Total(xs + [x], f) == Total(xs, f) + f(x)
  {
    if xs == [] {
      assert ([x])[1..] == [];
    } else {
      assert (xs + [x])[1..] == xs[1..] + [x];
      TotalAppend(xs[1..], x, f);
    }
  }

  lemma {:induction false} TotalUpdate<T>(xs: seq<T>, i: nat, x: T, f: T -> nat)
    requires i < |xs|
    ensures Total(xs[i := x], f) + f(xs[i]) == Total(xs, f) + f(x)
  {
    if i == 0 {
      assert xs[0 := x][1..] == xs[1..];
    } else {
      assert xs[i := x][1..] == xs[1..][i - 1 := x];
      TotalUpdate(xs[1..], i - 1, x, f);
    }
  }

  lemma {:induction false} TotalPositive<T>(xs: seq<T>, i: nat, f: T -> nat)
    requires i < |xs| && f(xs[i]) > 0
    ensures Total(xs, f) > 0
  {
    if i == 0 {
    } else {
      TotalPositive(xs[1..], i - 1, f);
    }
  }

  lemma {:induction false} TotalTwo<T>(xs: seq<T>, i: nat, j: nat, f: T -> nat)
    requires i < j < |xs| && f(xs[i]) > 0 && f(xs[j]) > 0
    ensures Total(xs, f) > 1
  {
    if i == 0 {
      TotalPositive(xs[1..], j - 1, f);
    } else {
      TotalTwo(xs[1..], i - 1, j - 1, f);
    }
  }

  lemma {:induction false} TotalZero<T>(xs: seq<T>, f: T -> nat)
    requires forall i :: 0 <= i < |xs| ==> f(xs[i]) == 0
    ensures Total(xs, f) == 0
  {
    if xs == [] {
    } else {
      TotalZero(xs[1..], f);
    }
  }

  /** A total of zeros and ones is at most the length, and only ones reach it. */
  lemma {:induction false} TotalOfFlags<T>(xs: seq<T>, f: T -> nat)
    requires forall i :: 0 <= i < |xs| ==> f(xs[i]) <= 1
    ensures Total(xs, f) <= |xs|
    ensures Total(xs, f) == |xs| <==> forall i :: 0 <= i < |xs| ==> f(xs[i]) == 1
  {
    if xs == [] {
    } else {
      TotalOfFlags(xs[1..], f);
      assert (forall i :: 0 <= i < |xs| ==> f(xs[i]) == 1)
        <==> f(xs[0]) == 1 && (forall i :: 0 <= i < |xs[1..]| ==> f(xs[1..][i]) == 1) by {
        if f(xs[0]) == 1 && (forall i :: 0 <= i < |xs[1..]| ==> f(xs[1..][i]) == 1) {
          forall i | 0 <= i < |xs| ensures f(xs[i]) == 1 {
            assert i > 0 ==> xs[i] == xs[1..][i - 1];
          }
        }
      }
    }
  }
}
