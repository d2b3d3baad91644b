/** Timed samples, as the trace files give them. */
module Trace {
  import opened Sorting

  datatype Sample<V> = Sample(time: real, value: V)

  function SampleTime<V>(s: Sample<V>): real { s.time }

  function InOrder<V>(samples: seq<Sample<V>>): (r: seq<Sample<V>>)
    ensures |r| == |samples|
  {
    SortBy(samples, SampleTime<V>)
  }

  ghost predicate InTimeOrder<V>(samples: seq<Sample<V>>) {
    forall i, j :: 0 <= i < j < |samples| ==> samples[i].time <= samples[j].time
  }

  lemma InOrderIsOrdered<V>(samples: seq<Sample<V>>)
    ensures InTimeOrder(InOrder(samples))
    ensures multiset(InOrder(samples)) == multiset(samples)
  {
    SortIsSorted(samples, SampleTime<V>);
    var r := InOrder(samples);
    forall i, j | 0 <= i < j < |r| ensures r[i].time <= r[j].time {
      assert SampleTime(r[i]) <= SampleTime(r[j]);
    }
  }

  /** `sorted` has the samples in time order, those of the same time in the order they came. */
  ghost predicate InTimeOrderFrom<V>(samples: seq<Sample<V>>, sorted: seq<Sample<V>>) {
    && InTimeOrder(sorted) && multiset(sorted) == multiset(samples)
    && forall t :: WithKey(sorted, SampleTime<V>, t) == WithKey(samples, SampleTime<V>, t)
  }

  lemma InOrderIsFrom<V>(samples: seq<Sample<V>>)
    ensures InTimeOrderFrom(samples, InOrder(samples))
  {
    InOrderIsOrdered(samples);
    forall t ensures WithKey(InOrder(samples), SampleTime<V>, t) == WithKey(samples, SampleTime<V>, t) {
      SortIsStable(samples, SampleTime<V>, t);
    }
  }

  function UpTo(t: real): Sample<real> -> bool {
    (s: Sample<real>) => s.time <= t
  }

  function Before(t: real): Sample<real> -> bool {
    (s: Sample<real>) => s.time < t
  }
}
