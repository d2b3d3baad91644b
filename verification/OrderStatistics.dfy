/** np.percentile and np.median, and the order they preserve. */
module OrderStatistics {
  import opened Sorting
  import opened Reals

  function Identity(x: real): real { x }

  function Sorted(xs: seq<real>): (r: seq<real>)
    ensures |r| == |xs|
  {
    SortBy(xs, Identity)
  }

  ghost predicate Nondecreasing(xs: seq<real>) {
    forall i, j :: 0 <= i < j < |xs| ==> xs[i] <= xs[j]
  }

  lemma SortedIsNondecreasing(xs: seq<real>)
    ensures Nondecreasing(Sorted(xs))
  {
    SortIsSorted(xs, Identity);
    var s := Sorted(xs);
    forall i, j | 0 <= i < j < |s| ensures s[i] <= s[j] {
      assert Identity(s[i]) <= Identity(s[j]);
    }
  }

  // ---------- Counting ----------

  /** How many values are at most v. */
  function CountLe(xs: seq<real>, v: real): (n: nat)
    ensures n <= |xs|
  {
    if |xs| == 0 then 0 else CountLe(xs[..|xs| - 1], v) + if xs[|xs| - 1] <= v then 1 else 0
  }

  lemma CountAppend(xs: seq<real>, x: real, v: real)
    ensures CountLe(xs + [x], v) == CountLe(xs, v) + if x <= v then 1 else 0
  {
    assert (xs + [x])[..|xs|] == xs;
  }

  lemma {:induction false} CountOfInsert(xs: seq<real>, x: real, v: real)
    ensures CountLe(InsertBy(xs, x, Identity), v) == CountLe(xs, v) + if x <= v then 1 else 0
  {
    if |xs| == 0 || xs[|xs| - 1] <= x {
      CountAppend(xs, x, v);
    } else {
      CountOfInsert(xs[..|xs| - 1], x, v);
      CountAppend(InsertBy(xs[..|xs| - 1], x, Identity), xs[|xs| - 1], v);
    }
  }

  lemma {:induction false} CountOfSorted(xs: seq<real>, v: real)
    ensures CountLe(Sorted(xs), v) == CountLe(xs, v)
  {
    if |xs| == 0 {
    } else {
      CountOfSorted(xs[..|xs| - 1], v);
      CountOfInsert(Sorted(xs[..|xs| - 1]), xs[|xs| - 1], v);
    }
  }

  lemma {:induction false} CountAll(xs: seq<real>, v: real)
    requires forall i :: 0 <= i < |xs| ==> xs[i] <= v
    ensures CountLe(xs, v) == |xs|
  {
    if |xs| == 0 {
    } else {
      CountAll(xs[..|xs| - 1], v);
    }
  }

  /** In sorted order the j-th value is at most v exactly when more than j values are. */
  lemma {:induction false} RankByCount(xs: seq<real>, v: real, j: nat)
    requires Nondecreasing(xs) && j < |xs|
    ensures xs[j] <= v <==> CountLe(xs, v) > j
  {
    var n := |xs| - 1;
    if xs[n] <= v {
      assert xs[j] <= v;
      CountAll(xs, v);
    } else if j < n {
      RankByCount(xs[..n], v, j);
    }
  }

  lemma {:induction false} CountPointwise(xs: seq<real>, ys: seq<real>, v: real)
    requires |xs| == |ys| && forall i :: 0 <= i < |xs| ==> xs[i] <= ys[i]
    ensures CountLe(ys, v) <= CountLe(xs, v)
  {
    if |xs| == 0 {
    } else {
      CountPointwise(xs[..|xs| - 1], ys[..|ys| - 1], v);
    }
  }

  lemma {:induction false} CountMonotone(xs: seq<real>, v: real, w: real)
    requires v <= w
    ensures CountLe(xs, v) <= CountLe(xs, w)
  {
    if |xs| == 0 {
    } else {
      CountMonotone(xs[..|xs| - 1], v, w);
    }
  }

  /** Sorting preserves a pointwise order: smaller values have smaller order statistics. */
  lemma SortPointwise(xs: seq<real>, ys: seq<real>, j: nat)
    requires |xs| == |ys| && j < |xs| && forall i :: 0 <= i < |xs| ==> xs[i] <= ys[i]
    ensures Sorted(xs)[j] <= Sorted(ys)[j]
  {
    var v := Sorted(ys)[j];
    SortedIsNondecreasing(xs);
    SortedIsNondecreasing(ys);
    RankByCount(Sorted(ys), v, j);
    CountOfSorted(xs, v);
    CountOfSorted(ys, v);
    CountPointwise(xs, ys, v);
    RankByCount(Sorted(xs), v, j);
  }

  // ---------- Percentiles ----------

  /** Linear interpolation between neighbours at a fractional position of a list. */
  function Interpolate(s: seq<real>, pos: real): real
    requires |s| > 0 && 0.0 <= pos <= (|s| - 1) as real
  {
    var lo := pos.Floor;
    if lo + 1 < |s| then s[lo] + Times(pos - lo as real, s[lo + 1] - s[lo]) else s[lo]
  }

  /** np.percentile(xs, 100 * q), by linear interpolation. */
  function Percentile(xs: seq<real>, q: real): real
    requires |xs| > 0 && 0.0 <= q <= 1.0
  {
    Interpolate(Sorted(xs), Position(|xs|, q))
  }

  /** The fractional position of a percentile in a sorted list of n values. */
  function Position(n: nat, q: real): (pos: real)
    requires n > 0 && 0.0 <= q <= 1.0
    ensures 0.0 <= pos <= (n - 1) as real
  {
    var last := (n - 1) as real;
    ProductNonNegative(q, last);
    ScaleMonotone(q, 1.0, last);
    OneTimes(last);
    Times(q, last)
  }

  /** At position k + f between order statistics, 0 <= f <= 1, the percentile is that far between the two; at the
      position of an order statistic it is that one. */
  lemma PercentileInterpolates(xs: seq<real>, q: real, k: nat, f: real)
    requires k < |xs| && 0.0 <= q <= 1.0 && 0.0 <= f <= 1.0 && Times(q, (|xs| - 1) as real) == k as real + f
    ensures f == 0.0 ==> Percentile(xs, q) == Sorted(xs)[k]
    ensures k + 1 < |xs| ==> Percentile(xs, q) == Sorted(xs)[k] + Times(f, Sorted(xs)[k + 1] - Sorted(xs)[k])
  {
    var pos := Position(|xs|, q);
    if f < 1.0 {
      assert pos.Floor == k;
      if k + 1 < |xs| {
        OneTimes(Sorted(xs)[k + 1] - Sorted(xs)[k]);
      }
    } else {
      assert pos.Floor == k + 1;
      if k + 1 < |xs| {
        OneTimes(Sorted(xs)[k + 1] - Sorted(xs)[k]);
        if k + 2 < |xs| {
          OneTimes(Sorted(xs)[k + 2] - Sorted(xs)[k + 1]);
        }
      }
    }
  }

  lemma PositionMonotone(n: nat, p: real, q: real)
    requires n > 0 && 0.0 <= p <= q <= 1.0
    ensures Position(n, p) <= Position(n, q)
  {
    ScaleMonotone(p, q, (n - 1) as real);
  }

  /** np.median(xs). */
  function Median(xs: seq<real>): real
    requires |xs| > 0
  {
    var s, n := Sorted(xs), |xs|;
    if n % 2 == 1 then s[n / 2] else (s[n / 2 - 1] + s[n / 2]) / 2.0
  }

  /** The median is the 50th percentile. */
  lemma MedianIsPercentile(xs: seq<real>)
    requires |xs| > 0
    ensures Median(xs) == Percentile(xs, 0.5)
  {
    var n := |xs|;
    var pos := Position(n, 0.5);
    if n % 2 == 1 {
      assert pos == ((n - 1) / 2) as real && pos.Floor == n / 2;
    } else {
      assert pos == (n / 2 - 1) as real + 0.5 && pos.Floor == n / 2 - 1;
    }
  }

  lemma InterpolateBetween(s: seq<real>, pos: real)
    requires |s| > 0 && 0.0 <= pos <= (|s| - 1) as real && Nondecreasing(s)
    ensures var lo := pos.Floor;
            s[lo] <= Interpolate(s, pos) <= s[if lo + 1 < |s| then lo + 1 else lo]
  {
    var lo := pos.Floor;
    if lo + 1 < |s| {
      Between(s[lo], s[lo + 1], pos - lo as real);
    }
  }

  lemma InterpolateMonotone(s: seq<real>, p: real, q: real)
    requires |s| > 0 && 0.0 <= p <= q <= (|s| - 1) as real && Nondecreasing(s)
    ensures Interpolate(s, p) <= Interpolate(s, q)
  {
    var lo, hi := p.Floor, q.Floor;
    InterpolateBetween(s, p);
    InterpolateBetween(s, q);
    if lo == hi {
      if lo + 1 < |s| {
        ScaleMonotone(p - lo as real, q - lo as real, s[lo + 1] - s[lo]);
      }
    } else {
      assert lo + 1 <= hi < |s| && s[lo + 1] <= s[hi];
    }
  }

  /** A higher percentile of the same values is at least as large. */
  lemma PercentileMonotone(xs: seq<real>, p: real, q: real)
    requires |xs| > 0 && 0.0 <= p <= q <= 1.0
    ensures Percentile(xs, p) <= Percentile(xs, q)
  {
    PositionMonotone(|xs|, p, q);
    SortedIsNondecreasing(xs);
    InterpolateMonotone(Sorted(xs), Position(|xs|, p), Position(|xs|, q));
  }

  /** Interpolation at one position preserves a pointwise order. */
  lemma InterpolatePointwise(s: seq<real>, t: seq<real>, pos: real)
    requires |s| == |t| > 0 && 0.0 <= pos <= (|s| - 1) as real && forall i :: 0 <= i < |s| ==> s[i] <= t[i]
    ensures Interpolate(s, pos) <= Interpolate(t, pos)
  {
    var lo := pos.Floor;
    if lo + 1 < |s| {
      WeightedMonotone(s[lo], s[lo + 1], t[lo], t[lo + 1], pos - lo as real);
    }
  }

  /** The same percentile of pointwise larger values is at least as large. */
  lemma PercentilePointwise(xs: seq<real>, ys: seq<real>, q: real)
    requires |xs| == |ys| > 0 && 0.0 <= q <= 1.0 && forall i :: 0 <= i < |xs| ==> xs[i] <= ys[i]
    ensures Percentile(xs, q) <= Percentile(ys, q)
  {
    forall j | 0 <= j < |xs| ensures Sorted(xs)[j] <= Sorted(ys)[j] {
      SortPointwise(xs, ys, j);
    }
    InterpolatePointwise(Sorted(xs), Sorted(ys), Position(|xs|, q));
  }

  lemma MedianPointwise(xs: seq<real>, ys: seq<real>)
    requires |xs| == |ys| > 0 && forall i :: 0 <= i < |xs| ==> xs[i] <= ys[i]
    ensures Median(xs) <= Median(ys)
  {
    MedianIsPercentile(xs);
    MedianIsPercentile(ys);
    PercentilePointwise(xs, ys, 0.5);
  }

  lemma SortedInBounds(xs: seq<real>, low: real, high: real)
    requires forall i :: 0 <= i < |xs| ==> low <= xs[i] <= high
    ensures forall i :: 0 <= i < |xs| ==> low <= Sorted(xs)[i] <= high
  {
    SortIsSorted(xs, Identity);
    var s := Sorted(xs);
    forall i | 0 <= i < |s| ensures low <= s[i] <= high {
      assert s[i] in multiset(s);
      assert s[i] in multiset(xs);
    }
  }

  /** Every percentile lies between the bounds of the values. */
  lemma PercentileInBounds(xs: seq<real>, q: real, low: real, high: real)
    requires |xs| > 0 && 0.0 <= q <= 1.0 && forall i :: 0 <= i < |xs| ==> low <= xs[i] <= high
    ensures low <= Percentile(xs, q) <= high
  {
    SortedIsNondecreasing(xs);
    SortedInBounds(xs, low, high);
    InterpolateBetween(Sorted(xs), Position(|xs|, q));
  }
}
