/** Lists that keep some elements of another list, in order. */
module Selection {
  /** `out` has one element for each element of xs that is to be kept, in order, and that is what it becomes. */
  ghost predicate Selects<T, U>(out: seq<U>, xs: seq<T>, keep: T -> bool, becomes: (T, U) -> bool) {
    if |xs| == 0 then |out| == 0
    else if keep(xs[|xs| - 1]) then
      && |out| > 0 && becomes(xs[|xs| - 1], out[|out| - 1])
      && Selects(out[..|out| - 1], xs[..|xs| - 1], keep, becomes)
    else Selects(out, xs[..|xs| - 1], keep, becomes)
  }

  lemma NoneSelected<T, U>(keep: T -> bool, becomes: (T, U) -> bool)
    ensures Selects<T, U>([], [], keep, becomes)
  {
  }

  lemma OneMoreSelected<T, U>(out: seq<U>, xs: seq<T>, more: seq<U>, x: T, keep: T -> bool, becomes: (T, U) -> bool)
    requires Selects(out, xs, keep, becomes)
    requires if keep(x) then |more| == 1 && becomes(x, more[0]) else |more| == 0
    ensures Selects(out + more, xs + [x], keep, becomes)
  {
    assert (xs + [x])[..|xs|] == xs;
    if keep(x) {
      assert (out + more)[..|out|] == out;
    } else {
      assert out + more == out;
    }
  }

  /** The list 0, 1, ... of length n, to select from. */
  function Indices(n: nat): seq<int> {
    if n == 0 then [] else Indices(n - 1) + [n - 1]
  }

  // ---------- In terms of positions ----------

  /** Exactly the positions in xs whose elements are to be kept, in order. */
  ghost predicate Picks<T>(picked: seq<nat>, xs: seq<T>, keep: T -> bool) {
    && (forall i, j :: 0 <= i < j < |picked| ==> picked[i] < picked[j])
    && (forall x: nat :: x in picked <==> x < |xs| && keep(xs[x]))
  }

  lemma OneMorePicked<T>(picked: seq<nat>, xs: seq<T>, x: T, keep: T -> bool)
    requires Picks(picked, xs, keep)
    ensures Picks(if keep(x) then picked + [|xs|] else picked, xs + [x], keep)
  {
    forall i | 0 <= i < |picked| ensures picked[i] < |xs| {
      assert picked[i] in picked;
    }
  }

  /** A selection is given by the increasing list of exactly the positions it keeps. */
  lemma {:induction false} SelectionPicks<T, U>(out: seq<U>, xs: seq<T>, keep: T -> bool, becomes: (T, U) -> bool)
    returns (picked: seq<nat>)
    requires Selects(out, xs, keep, becomes)
    ensures Picks(picked, xs, keep) && |out| == |picked|
    ensures forall i :: 0 <= i < |out| ==> picked[i] < |xs| && becomes(xs[picked[i]], out[i])
  {
    if |xs| == 0 {
      picked := [];
    } else {
      var front, last := xs[..|xs| - 1], xs[|xs| - 1];
      if keep(last) {
        var before := SelectionPicks(out[..|out| - 1], front, keep, becomes);
        picked := before + [|front|];
        OneMorePicked(before, front, last, keep);
      } else {
        picked := SelectionPicks(out, front, keep, becomes);
        OneMorePicked(picked, front, last, keep);
      }
      assert front + [last] == xs;
    }
  }
}
