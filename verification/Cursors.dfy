/** What a cursor in a list reads off the element it passed last. */
module Cursors {
  import opened Wrappers

  /** The last element that counts as passed. */
  function LastPassed<T>(xs: seq<T>, passed: T -> bool): Option<T> {
    if |xs| == 0 then None
    else if passed(xs[|xs| - 1]) then Some(xs[|xs| - 1])
    else LastPassed(xs[..|xs| - 1], passed)
  }

  /** A cursor that stands behind the last passed element reads it off, wherever in the list that is. */
  lemma {:induction false} CursorReads<T>(xs: seq<T>, passed: T -> bool, i: nat)
    requires i <= |xs| && (i > 0 ==> passed(xs[i - 1]))
    requires forall j :: i <= j < |xs| ==> !passed(xs[j])
    ensures LastPassed(xs, passed) == if i == 0 then None else Some(xs[i - 1])
  {
    if i == |xs| {
    } else {
      CursorReads(xs[..|xs| - 1], passed, i);
    }
  }

  /** Where the last passed element is, given that x at position n has been passed. */
  lemma {:induction false} LastPassedAt<T>(xs: seq<T>, passed: T -> bool, n: nat) returns (m: nat)
    requires n < |xs| && passed(xs[n])
    ensures n <= m < |xs| && passed(xs[m]) && LastPassed(xs, passed) == Some(xs[m])
    ensures forall j :: m < j < |xs| ==> !passed(xs[j])
  {
    if passed(xs[|xs| - 1]) {
      m := |xs| - 1;
    } else {
      m := LastPassedAt(xs[..|xs| - 1], passed, n);
    }
  }
}
