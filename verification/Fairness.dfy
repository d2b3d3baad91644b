/** Jain's fairness index (scripts/plot_bitrate_playback.py, 2821-2841 and 3696-3698). */
module Fairness {
  import opened Wrappers
  import opened Reals
  import opened Selection

  function Sum(xs: seq<real>): real {
    if |xs| == 0 then 0.0 else Sum(xs[..|xs| - 1]) + xs[|xs| - 1]
  }

  function SquareSum(xs: seq<real>): real {
    if |xs| == 0 then 0.0 else SquareSum(xs[..|xs| - 1]) + Times(xs[|xs| - 1], xs[|xs| - 1])
  }

  /** (sum x)^2 / (n * sum x^2), undefined for no values and for all zeros. */
  function Jain(xs: seq<real>): Option<real> {
    if |xs| == 0 || SquareSum(xs) <= 0.0 then None
    else
      ProductPositive(|xs| as real, SquareSum(xs));
      Some(Times(Sum(xs), Sum(xs)) / Times(|xs| as real, SquareSum(xs)))
  }

  // ---------- The sums ----------

  ghost predicate AllAre(xs: seq<real>, y: real) {
    forall i :: 0 <= i < |xs| ==> xs[i] == y
  }

  lemma AllAreSplit(xs: seq<real>, y: real)
    requires |xs| > 0
    ensures AllAre(xs, y) <==> AllAre(xs[..|xs| - 1], y) && xs[|xs| - 1] == y
  {
    var front := xs[..|xs| - 1];
    assert forall i :: 0 <= i < |front| ==> front[i] == xs[i];
    if AllAre(front, y) && xs[|xs| - 1] == y {
      forall i | 0 <= i < |xs| ensures xs[i] == y {
        assert i < |front| ==> front[i] == y;
      }
    }
  }

  /** Sum of the squared distances of the values from y. */
  function Spread(xs: seq<real>, y: real): real {
    if |xs| == 0 then 0.0 else Spread(xs[..|xs| - 1], y) + Times(xs[|xs| - 1] - y, xs[|xs| - 1] - y)
  }

  lemma {:induction false} SpreadExpands(xs: seq<real>, y: real)
    ensures Spread(xs, y) == SquareSum(xs) - 2.0 * Times(y, Sum(xs)) + Times(|xs| as real, Times(y, y))
  {
    if |xs| == 0 {
      ZeroTimes(y);
      ZeroTimes(Times(y, y));
    } else {
      var front, x := xs[..|xs| - 1], xs[|xs| - 1];
      SpreadExpands(front, y);
      SquareOfDifference(x, y);
      Distribute(y, Sum(front), x, Sum(xs));
      OneMore(|front| as real, |xs| as real, Times(y, y));
    }
  }

  lemma {:induction false} SpreadZero(xs: seq<real>, y: real)
    ensures Spread(xs, y) >= 0.0
    ensures Spread(xs, y) == 0.0 <==> AllAre(xs, y)
  {
    if |xs| == 0 {
    } else {
      SpreadZero(xs[..|xs| - 1], y);
      AllAreSplit(xs, y);
      SquareZeroTimes(xs[|xs| - 1] - y);
    }
  }

  lemma SquareSumZero(xs: seq<real>)
    ensures SquareSum(xs) >= 0.0
    ensures SquareSum(xs) == 0.0 <==> AllAre(xs, 0.0)
  {
    SpreadExpands(xs, 0.0);
    SpreadZero(xs, 0.0);
  }

  ghost predicate AllEqual(xs: seq<real>) {
    forall i, j :: 0 <= i < |xs| && 0 <= j < |xs| ==> xs[i] == xs[j]
  }

  /** The slack in Cauchy-Schwarz: n * sum x^2 - (sum x)^2. */
  function Slack(xs: seq<real>): real {
    Times(|xs| as real, SquareSum(xs)) - Times(Sum(xs), Sum(xs))
  }

  lemma SlackGrows(xs: seq<real>)
    requires |xs| > 0
    ensures Slack(xs) == Slack(xs[..|xs| - 1]) + Spread(xs[..|xs| - 1], xs[|xs| - 1])
  {
    var front, y := xs[..|xs| - 1], xs[|xs| - 1];
    SpreadExpands(front, y);
    OneMore(|front| as real, |xs| as real, SquareSum(xs));
    Distribute(|front| as real, SquareSum(front), Times(y, y), SquareSum(xs));
    SquareOfSum(Sum(front), y, Sum(xs));
  }

  lemma AllEqualSplit(xs: seq<real>)
    requires |xs| > 0
    ensures AllEqual(xs) <==> AllEqual(xs[..|xs| - 1]) && AllAre(xs[..|xs| - 1], xs[|xs| - 1])
  {
    var front, y := xs[..|xs| - 1], xs[|xs| - 1];
    if AllEqual(xs) {
      forall i | 0 <= i < |front| ensures front[i] == y {
        assert xs[i] == xs[|front|];
      }
    }
    if AllAre(front, y) {
      AllAreSplit(xs, y);
    }
  }

  /** Cauchy-Schwarz against the constant sequence, with its equality case. */
  lemma {:induction false} SlackZero(xs: seq<real>)
    ensures Slack(xs) >= 0.0
    ensures Slack(xs) == 0.0 <==> AllEqual(xs)
  {
    if |xs| == 0 {
      ZeroTimes(0.0);
    } else {
      SlackGrows(xs);
      SlackZero(xs[..|xs| - 1]);
      SpreadZero(xs[..|xs| - 1], xs[|xs| - 1]);
      AllEqualSplit(xs);
    }
  }

  ghost predicate NonNegative(xs: seq<real>) {
    forall i :: 0 <= i < |xs| ==> xs[i] >= 0.0
  }

  lemma {:induction false} SumNonNegative(xs: seq<real>)
    requires NonNegative(xs)
    ensures Sum(xs) >= 0.0
    ensures Sum(xs) == 0.0 <==> AllAre(xs, 0.0)
  {
    if |xs| == 0 {
    } else {
      SumNonNegative(xs[..|xs| - 1]);
      AllAreSplit(xs, 0.0);
    }
  }

  ghost predicate AtMostOnePositive(xs: seq<real>) {
    forall i, j :: 0 <= i < j < |xs| ==> xs[i] == 0.0 || xs[j] == 0.0
  }

  /** For values that are not negative the cross terms only add, and vanish when at most one is positive. */
  lemma {:induction false} SquaresAtMostSquareOfSum(xs: seq<real>)
    requires NonNegative(xs)
    ensures SquareSum(xs) <= Times(Sum(xs), Sum(xs))
    ensures SquareSum(xs) == Times(Sum(xs), Sum(xs)) <==> AtMostOnePositive(xs)
  {
    if |xs| == 0 {
      ZeroTimes(0.0);
    } else {
      var front, y := xs[..|xs| - 1], xs[|xs| - 1];
      SquaresAtMostSquareOfSum(front);
      SumNonNegative(front);
      CrossTerms(front, y);
      assert xs == front + [y];
      SquareOfTwo(Sum(xs), Sum(front), y);
    }
  }

  lemma SquareOfTwo(t: real, s: real, y: real)
    requires s >= 0.0 && y >= 0.0 && t == s + y
    ensures Times(t, t) >= Times(s, s) + Times(y, y)
    ensures Times(t, t) == Times(s, s) + Times(y, y) <==> s == 0.0 || y == 0.0
  {
    SquareOfSum(s, y, t);
    if s == 0.0 || y == 0.0 {
      ZeroTimes(s);
      ZeroTimes(y);
    } else {
      ProductPositive(y, s);
    }
  }

  lemma CrossTerms(front: seq<real>, y: real)
    requires NonNegative(front) && y >= 0.0
    ensures AtMostOnePositive(front + [y]) <==> AtMostOnePositive(front) && (Sum(front) == 0.0 || y == 0.0)
  {
    SumNonNegative(front);
    var xs := front + [y];
    assert xs[|front|] == y;
    assert forall i :: 0 <= i < |front| ==> xs[i] == front[i];
  }

  // ---------- The index ----------

  lemma QuotientAgainst(a: real, b: real, c: real)
    requires b > 0.0
    ensures a / b <= c <==> a <= Times(c, b)
    ensures a / b == c <==> a == Times(c, b)
  {
    var q := a / b;
    assert Times(q, b) == a;
    if q < c {
      ScaleStrict(q, c, b);
    } else if c < q {
      ScaleStrict(c, q, b);
    }
  }

  /** Index, number, square sum and sum go together as the definition says. */
  lemma JainIsQuotient(xs: seq<real>)
    requires Jain(xs).Some?
    ensures Times(Jain(xs).value, Times(|xs| as real, SquareSum(xs))) == Times(Sum(xs), Sum(xs))
  {
    ProductPositive(|xs| as real, SquareSum(xs));
  }

  /** The index of any values, negative ones too, is at most 1, and 1 exactly when they are all equal. */
  lemma JainAtMostOne(xs: seq<real>)
    requires Jain(xs).Some?
    ensures 0.0 <= Jain(xs).value <= 1.0
    ensures Jain(xs).value == 1.0 <==> AllEqual(xs)
  {
    ProductPositive(|xs| as real, SquareSum(xs));
    SlackZero(xs);
    SquareZeroTimes(Sum(xs));
    UnitBound(Times(Sum(xs), Sum(xs)), Times(|xs| as real, SquareSum(xs)));
  }

  lemma UnitBound(a: real, b: real)
    requires 0.0 <= a <= b && b > 0.0
    ensures 0.0 <= a / b <= 1.0
    ensures a / b == 1.0 <==> a == b
  {
    QuotientAgainst(a, b, 1.0);
    OneTimes(b);
    DivideMonotone(0.0, a, b);
  }

  lemma ShareBound(n: real, q: real, t: real)
    requires n > 0.0 && q > 0.0 && Times(n, q) > 0.0
    ensures 1.0 / n <= t / Times(n, q) <==> q <= t
    ensures t / Times(n, q) == 1.0 / n <==> t == q
  {
    var share, b := 1.0 / n, Times(n, q);
    assert Times(share, b) == q by {
      assert share * n == 1.0;
      assert share * (n * q) == (share * n) * q;
    }
    QuotientAgainst(t, b, share);
    if q <= t {
      DivideMonotone(q, t, b);
      QuotientAgainst(q, b, share);
    }
  }

  /** For values that are not negative it is at least 1/n, and 1/n exactly when one user gets everything. */
  lemma JainAtLeastShare(xs: seq<real>)
    requires Jain(xs).Some? && NonNegative(xs)
    ensures 1.0 / |xs| as real <= Jain(xs).value
    ensures Jain(xs).value == 1.0 / |xs| as real <==> AtMostOnePositive(xs)
  {
    ProductPositive(|xs| as real, SquareSum(xs));
    SquaresAtMostSquareOfSum(xs);
    ShareBound(|xs| as real, SquareSum(xs), Times(Sum(xs), Sum(xs)));
  }

  function Scaled(xs: seq<real>, c: real): (r: seq<real>)
    ensures |r| == |xs|
  {
    if |xs| == 0 then [] else Scaled(xs[..|xs| - 1], c) + [Times(c, xs[|xs| - 1])]
  }

  lemma {:induction false} ScaledSums(xs: seq<real>, c: real)
    ensures Sum(Scaled(xs, c)) == Times(c, Sum(xs))
    ensures SquareSum(Scaled(xs, c)) == Times(Times(c, c), SquareSum(xs))
  {
    if |xs| == 0 {
      ZeroTimes(c);
      ZeroTimes(Times(c, c));
    } else {
      var front, y := xs[..|xs| - 1], xs[|xs| - 1];
      ScaledSums(front, c);
      assert Scaled(xs, c)[..|front|] == Scaled(front, c);
      Distribute(c, Sum(front), y, Sum(xs));
      Distribute(Times(c, c), SquareSum(front), Times(y, y), SquareSum(xs));
      SquareOfProduct(c, y);
    }
  }

  lemma ScaleQuotient(a: real, b: real, k: real)
    requires b > 0.0 && k > 0.0
    ensures Times(k, b) > 0.0 && Times(k, a) / Times(k, b) == a / b
  {
    ProductPositive(k, b);
    var x := a / b;
    assert Times(x, b) == a;
    Reorder(x, k, b);
    QuotientAgainst(Times(k, a), Times(k, b), x);
  }

  lemma IndexScales(n: real, q: real, s: real, c: real)
    requires n > 0.0 && q > 0.0 && c != 0.0
    ensures Times(Times(c, c), q) > 0.0 && Times(n, q) > 0.0 && Times(n, Times(Times(c, c), q)) > 0.0
    ensures Times(Times(c, s), Times(c, s)) / Times(n, Times(Times(c, c), q)) == Times(s, s) / Times(n, q)
  {
    var k := Times(c, c);
    SquarePositive(c);
    ProductPositive(k, q);
    ProductPositive(n, q);
    ProductPositive(n, Times(k, q));
    SquareOfProduct(c, s);
    Reorder(n, k, q);
    ScaleQuotient(Times(s, s), Times(n, q), k);
  }

  /** The unit of the values does not matter. */
  lemma JainScaleFree(xs: seq<real>, c: real)
    requires c != 0.0
    ensures Jain(Scaled(xs, c)) == Jain(xs)
  {
    ScaledSums(xs, c);
    SquareSumZero(xs);
    if |xs| > 0 && SquareSum(xs) > 0.0 {
      IndexScales(|xs| as real, SquareSum(xs), Sum(xs), c);
    } else {
      ZeroTimes(Times(c, c));
    }
  }

  // ---------- Cleaning ----------

  /** What a CSV cell can hold: text that is no number, a number that is not finite, or a number. */
  datatype Cell = Unreadable | NotFinite | Number(value: real)

  function Cleaned(cells: seq<Cell>): seq<real> {
    if |cells| == 0 then []
    else
      var last := cells[|cells| - 1];
      Cleaned(cells[..|cells| - 1]) + if last.Number? && last.value >= 0.0 then [last.value] else []
  }

  lemma {:induction false} CleanedIsNonNegative(cells: seq<Cell>)
    ensures NonNegative(Cleaned(cells))
  {
    if |cells| == 0 {
    } else {
      CleanedIsNonNegative(cells[..|cells| - 1]);
    }
  }

  function Usable(): Cell -> bool {
    (c: Cell) => c.Number? && c.value >= 0.0
  }

  ghost predicate IsValue(c: Cell, value: real) {
    c == Number(value)
  }

  /** Cleaning keeps exactly the numbers that are not negative, in order. */
  lemma {:induction false} CleanedSelects(cells: seq<Cell>)
    ensures Selects(Cleaned(cells), cells, Usable(), IsValue)
  {
    if |cells| == 0 {
      NoneSelected(Usable(), IsValue);
    } else {
      var front, last := cells[..|cells| - 1], cells[|cells| - 1];
      CleanedSelects(front);
      var more := if last.Number? && last.value >= 0.0 then [last.value] else [];
      OneMoreSelected(Cleaned(front), front, more, last, Usable(), IsValue);
      assert front + [last] == cells;
    }
  }

  method CleanCells(cells: seq<Cell>) returns (cleaned: seq<real>)
    ensures cleaned == Cleaned(cells) && Selects(cleaned, cells, Usable(), IsValue)
  {
    CleanedSelects(cells);
    cleaned := [];
    for i := 0 to |cells|
      invariant cleaned == Cleaned(cells[..i])
    {
      assert cells[..i + 1][..i] == cells[..i];
      var v := cells[i];
      if v.Unreadable? {
        continue;
      }
      if v.NotFinite? || v.value < 0.0 {
        continue;
      }
      cleaned := cleaned + [v.value];
    }
    assert cells[..|cells|] == cells;
  }

  /** _jain_fairness_index: cells that are no number, not finite or negative are skipped; what is left gives an
      index in [1/n, 1], or none when nothing but zeros is left. */
  method JainFairnessIndex(cells: seq<Cell>) returns (index: Option<real>)
    ensures index == Jain(Cleaned(cells)) && Selects(Cleaned(cells), cells, Usable(), IsValue)
    ensures index.None? <==> AllAre(Cleaned(cells), 0.0)
    ensures index.Some? ==> 1.0 / |Cleaned(cells)| as real <= index.value <= 1.0
  {
    var cleaned := CleanCells(cells);
    index := Jain(cleaned);
    SquareSumZero(cleaned);
    if index.Some? {
      CleanedIsNonNegative(cells);
      JainAtMostOne(cleaned);
      JainAtLeastShare(cleaned);
    }
  }
}
