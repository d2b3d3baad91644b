/** np.arange and rounding, over exact reals. */
module Grid {
  import opened Reals

  function Ceil(x: real): (n: int)
    ensures x <= n as real < x + 1.0
  {
    -(-x).Floor
  }

  /** The length of np.arange(a, b, d). */
  function ArangeLength(a: real, b: real, d: real): nat
    requires d > 0.0
  {
    if Ceil((b - a) / d) < 0 then 0 else Ceil((b - a) / d)
  }

  /** np.arange(a, b, d): a, a + d, ... up to but not including b. */
  function Arange(a: real, b: real, d: real): (r: seq<real>)
    requires d > 0.0
    ensures |r| == ArangeLength(a, b, d)
    ensures forall i :: 0 <= i < |r| ==> r[i] == a + Times(i as real, d)
  {
    seq(ArangeLength(a, b, d), i requires i >= 0 => a + Times(i as real, d))
  }

  lemma ArangeStep(a: real, b: real, d: real, i: nat)
    requires d > 0.0 && i + 1 < ArangeLength(a, b, d)
    ensures Arange(a, b, d)[i + 1] == Arange(a, b, d)[i] + d
  {
    OneMore(i as real, (i + 1) as real, d);
  }

  lemma ArangeIncreases(a: real, b: real, d: real)
    requires d > 0.0
    ensures forall i, j :: 0 <= i < j < ArangeLength(a, b, d) ==> Arange(a, b, d)[i] < Arange(a, b, d)[j]
  {
    forall i, j | 0 <= i < j < ArangeLength(a, b, d) ensures Arange(a, b, d)[i] < Arange(a, b, d)[j] {
      ScaleStrict(i as real, j as real, d);
    }
  }

  /** The centres of the bins between consecutive edges np.arange(a, b, d). */
  function BinCentres(a: real, b: real, d: real): (r: seq<real>)
    requires d > 0.0
    ensures |r| == if ArangeLength(a, b, d) == 0 then 0 else ArangeLength(a, b, d) - 1
    ensures forall i :: 0 <= i < |r| ==> r[i] == Arange(a, b, d)[i] + d / 2.0
    ensures forall i :: 0 < i < |r| ==> r[i - 1] < r[i]
  {
    var edges := Arange(a, b, d);
    ArangeIncreases(a, b, d);
    seq(if |edges| == 0 then 0 else |edges| - 1, i requires 0 <= i < |edges| => edges[i] + d / 2.0)
  }

  lemma QuotientTimes(x: real, d: real)
    requires d > 0.0
    ensures Times(x / d, d) == x
  {
  }

  /** The length is the number of steps that stay below b. */
  lemma ArangeStopsAtEnd(a: real, b: real, d: real, i: nat)
    requires d > 0.0
    ensures i < ArangeLength(a, b, d) <==> a + Times(i as real, d) < b
  {
    var q := (b - a) / d;
    QuotientTimes(b - a, d);
    if (i as real) < q {
      ScaleStrict(i as real, q, d);
    } else {
      ScaleMonotone(q, i as real, d);
    }
  }

  /** x is a whole number of steps d. */
  predicate Whole(x: real, d: real)
    requires d > 0.0
  {
    (x / d).Floor as real == x / d
  }

  /** Of the edges np.arange(a, m + d, d) the last is the first one not below m; it is m when m - a is a whole
      number of steps. */
  lemma LastStep(a: real, m: real, d: real)
    requires d > 0.0 && a <= m
    ensures ArangeLength(a, m + d, d) > 0
    ensures var last := a + Times((ArangeLength(a, m + d, d) - 1) as real, d);
            m <= last < m + d && (last == m <==> Whole(m - a, d))
  {
    ArangeStopsAtEnd(a, m + d, d, 0);
    OneTimes(d);
    var n := ArangeLength(a, m + d, d) - 1;
    ArangeStopsAtEnd(a, m + d, d, n);
    ArangeStopsAtEnd(a, m + d, d, n + 1);
    OneMore(n as real, (n + 1) as real, d);
    QuotientTimes(m - a, d);
    StepsReach(n, (m - a) / d, d);
  }

  /** n steps of length d reach from q steps to less than q + 1: they end at q exactly when q is whole. */
  lemma StepsReach(n: nat, q: real, d: real)
    requires d > 0.0 && Times(q, d) <= Times(n as real, d) < Times(q, d) + d
    ensures Times(n as real, d) == Times(q, d) <==> q.Floor as real == q
  {
    OneMore(q, q + 1.0, d);
    ScaleOrder(q, n as real, d);
    ScaleOrder(q + 1.0, n as real, d);
    CeilingOfWhole(n, q);
  }

  lemma CeilingOfWhole(n: int, q: real)
    requires q <= n as real < q + 1.0
    ensures n as real == q <==> q.Floor as real == q
  {
    if q.Floor as real == q {
      assert q.Floor <= n < q.Floor + 1;
    }
  }
}
