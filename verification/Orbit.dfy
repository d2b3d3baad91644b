/** The satellite track and the handover schedule of scratch/ntn-iab-quic-dash.cc (936-948, 1149-1162). */
module Orbit {
  import opened Reals

  datatype Vector = Vector(x: real, y: real, z: real)

  /** `posWired` is the scene centre at satellite height, `velocity` in m/s along +X. */
  datatype Track = Track(posWired: Vector, velocity: real, hoTime: real, stopTime: real)

  function SatSpacing(o: Track): real {
    Times(o.velocity, if o.hoTime > 0.0 then o.hoTime else o.stopTime)
  }

  /** The two waypoints of donor i: at time 0 and at stopTime. */
  function StartPosition(o: Track, i: nat): Vector {
    Vector(o.posWired.x - Times(i as real, SatSpacing(o)), o.posWired.y, o.posWired.z)
  }

  function EndPosition(o: Track, i: nat): Vector {
    var p := StartPosition(o, i);
    Vector(p.x + Times(o.velocity, o.stopTime), o.posWired.y, o.posWired.z)
  }

  /** How long the donors have been moving at time t: from the last waypoint on they stand still. */
  function Flown(o: Track, t: real): real {
    if t < o.stopTime then t else o.stopTime
  }

  /** The waypoint model moves on the straight line between the two, at constant speed, and rests at the last. */
  function PositionAt(o: Track, i: nat, t: real): Vector
    requires o.stopTime > 0.0
  {
    var p, q := StartPosition(o, i), EndPosition(o, i);
    Vector(p.x + Times(q.x - p.x, Flown(o, t) / o.stopTime), p.y, p.z)
  }

  function SquaredDistance(p: Vector, q: Vector): real {
    Times(p.x - q.x, p.x - q.x) + Times(p.y - q.y, p.y - q.y) + Times(p.z - q.z, p.z - q.z)
  }

  /** Donor i is at least as close to `iab` as every donor of the constellation. */
  ghost predicate Nearest(o: Track, donors: nat, iab: Vector, i: nat, t: real)
    requires o.stopTime > 0.0
  {
    i < donors && forall j: nat :: j < donors ==>
      SquaredDistance(PositionAt(o, i, t), iab) <= SquaredDistance(PositionAt(o, j, t), iab)
  }

  /** Handover k (from donor k-1 to donor k) is scheduled at this time. */
  function HandoverTime(o: Track, k: nat): real {
    Times(k as real - 0.5, o.hoTime)
  }

  /** Time t lies between the handover to donor i and the handover away from it. */
  predicate Scheduled(o: Track, donors: nat, i: nat, t: real) {
    && i < donors
    && (i > 0 ==> HandoverTime(o, i) <= t)
    && (i + 1 < donors ==> t <= HandoverTime(o, i + 1))
  }

  lemma Cancel(v: real, s: real, t: real)
    requires s != 0.0
    ensures Times(Times(v, s), t / s) == Times(v, t)
  {
    assert s * (t / s) == t;
    assert (v * s) * (t / s) == v * (s * (t / s));
  }

  lemma OffsetFromZenith(o: Track, i: nat, t: real)
    requires o.stopTime > 0.0 && o.hoTime > 0.0
    ensures PositionAt(o, i, t).x - o.posWired.x == Times(o.velocity, Flown(o, t) - Times(i as real, o.hoTime))
  {
    var s, late := Flown(o, t), Times(i as real, o.hoTime);
    Cancel(o.velocity, o.stopTime, s);
    Reorder(i as real, o.velocity, o.hoTime);
    Distribute(o.velocity, s - late, late, s);
  }

  /** The sign of this product decides which of two donors is closer. */
  function Lead(hoTime: real, i: nat, j: nat, t: real): real {
    Times(Times((j - i) as real, hoTime), Times((i + j) as real, hoTime) - 2.0 * t)
  }

  lemma DifferenceOfSquares(t: real, a: real, b: real, d: real, g: real)
    requires d == b - a && g == a + b - 2.0 * t
    ensures Times(t - b, t - b) - Times(t - a, t - a) == Times(d, g)
  {
  }

  lemma LeadIsDifference(h: real, i: nat, j: nat, t: real)
    ensures var a, b := Times(i as real, h), Times(j as real, h);
            Times(t - b, t - b) - Times(t - a, t - a) == Lead(h, i, j, t)
  {
    var a, b := Times(i as real, h), Times(j as real, h);
    TimesCommutes(h, i as real, j as real, (i + j) as real);
    TimesCommutes(h, i as real, (j - i) as real, j as real);
    DifferenceOfSquares(t, a, b, Times((j - i) as real, h), Times((i + j) as real, h) - 2.0 * t);
  }

  lemma TimesCommutes(h: real, b: real, c: real, sum: real)
    requires sum == b + c
    ensures Times(sum, h) == Times(b, h) + Times(c, h)
  {
  }

  /** How much farther donor j is than donor i. */
  lemma DistanceGap(o: Track, iab: Vector, i: nat, j: nat, t: real)
    requires o.stopTime > 0.0 && o.hoTime > 0.0 && iab.x == o.posWired.x
    ensures SquaredDistance(PositionAt(o, j, t), iab) - SquaredDistance(PositionAt(o, i, t), iab)
            == Times(Times(o.velocity, o.velocity), Lead(o.hoTime, i, j, Flown(o, t)))
  {
    OffsetFromZenith(o, i, t);
    OffsetFromZenith(o, j, t);
    var v, s := o.velocity, Flown(o, t);
    var a, b := s - Times(i as real, o.hoTime), s - Times(j as real, o.hoTime);
    SquareOfProduct(v, a);
    SquareOfProduct(v, b);
    LeadIsDifference(o.hoTime, i, j, s);
    Distribute(Times(v, v), Times(a, a), Lead(o.hoTime, i, j, s), Times(b, b));
  }

  lemma CompareDistances(o: Track, iab: Vector, i: nat, j: nat, t: real)
    requires o.stopTime > 0.0 && o.hoTime > 0.0 && o.velocity != 0.0 && iab.x == o.posWired.x
    ensures var di, dj := SquaredDistance(PositionAt(o, i, t), iab), SquaredDistance(PositionAt(o, j, t), iab);
            && (di <= dj <==> 0.0 <= Lead(o.hoTime, i, j, Flown(o, t)))
            && (di == dj <==> Lead(o.hoTime, i, j, Flown(o, t)) == 0.0)
  {
    DistanceGap(o, iab, i, j, t);
    SquarePositive(o.velocity);
    PositiveScales(Times(o.velocity, o.velocity), Lead(o.hoTime, i, j, Flown(o, t)));
  }

  /** For two donors, the earlier one is at most as far until half-way between their zenith times. */
  lemma LeadSign(h: real, i: nat, j: nat, t: real)
    requires h > 0.0 && i < j
    ensures 0.0 <= Lead(h, i, j, t) <==> 2.0 * t <= Times((i + j) as real, h)
    ensures Lead(h, i, j, t) == 0.0 <==> 2.0 * t == Times((i + j) as real, h)
    ensures Lead(h, j, i, t) == -Lead(h, i, j, t)
  {
    ProductPositive((j - i) as real, h);
    PositiveScales(Times((j - i) as real, h), Times((i + j) as real, h) - 2.0 * t);
    LeadIsDifference(h, i, j, t);
    LeadIsDifference(h, j, i, t);
  }

  lemma TwiceHandoverTime(o: Track, k: nat)
    requires k > 0
    ensures 2.0 * HandoverTime(o, k) == Times(((k - 1) + k) as real, o.hoTime)
  {
    TimesCommutes(o.hoTime, k as real - 0.5, k as real - 0.5, ((k - 1) + k) as real);
  }

  /** Two adjacent donors are equally far exactly when they have been moving until the scheduled handover time
      between them; when that is later than the last waypoint, they never are. */
  lemma TieAtHandover(o: Track, iab: Vector, k: nat, t: real)
    requires o.stopTime > 0.0 && o.hoTime > 0.0 && o.velocity != 0.0 && iab.x == o.posWired.x && k > 0
    ensures SquaredDistance(PositionAt(o, k - 1, t), iab) == SquaredDistance(PositionAt(o, k, t), iab)
            <==> Flown(o, t) == HandoverTime(o, k)
  {
    CompareDistances(o, iab, k - 1, k, t);
    LeadSign(o.hoTime, k - 1, k, Flown(o, t));
    TwiceHandoverTime(o, k);
  }

  lemma ScheduledLeads(o: Track, donors: nat, i: nat, j: nat, t: real)
    requires o.hoTime > 0.0 && Scheduled(o, donors, i, t) && j < donors
    ensures 0.0 <= Lead(o.hoTime, i, j, t)
  {
    var h := o.hoTime;
    if i < j {
      LeadSign(h, i, j, t);
      TwiceHandoverTime(o, i + 1);
      ScaleMonotone((i + (i + 1)) as real, (i + j) as real, h);
    } else if j < i {
      LeadSign(h, j, i, t);
      TwiceHandoverTime(o, i);
      ScaleMonotone((j + i) as real, ((i - 1) + i) as real, h);
    }
  }

  /** At every time a donor is a nearest one exactly when the donors have been moving for a time between the
      handover to it and the handover away from it. */
  lemma ScheduledIsNearest(o: Track, donors: nat, iab: Vector, i: nat, t: real)
    requires o.stopTime > 0.0 && o.hoTime > 0.0 && o.velocity != 0.0 && iab.x == o.posWired.x
    ensures Scheduled(o, donors, i, Flown(o, t)) <==> Nearest(o, donors, iab, i, t)
  {
    if Scheduled(o, donors, i, Flown(o, t)) {
      forall j: nat | j < donors
        ensures SquaredDistance(PositionAt(o, i, t), iab) <= SquaredDistance(PositionAt(o, j, t), iab)
      {
        ScheduledLeads(o, donors, i, j, Flown(o, t));
        CompareDistances(o, iab, i, j, t);
      }
    }
    if Nearest(o, donors, iab, i, t) {
      NearestIsScheduled(o, donors, iab, i, t);
    }
  }

  lemma NearestIsScheduled(o: Track, donors: nat, iab: Vector, i: nat, t: real)
    requires o.stopTime > 0.0 && o.hoTime > 0.0 && o.velocity != 0.0 && iab.x == o.posWired.x
    requires Nearest(o, donors, iab, i, t)
    ensures Scheduled(o, donors, i, Flown(o, t))
  {
    if i > 0 {
      CompareDistances(o, iab, i, i - 1, t);
      LeadSign(o.hoTime, i - 1, i, Flown(o, t));
      TwiceHandoverTime(o, i);
    }
    if i + 1 < donors {
      CompareDistances(o, iab, i, i + 1, t);
      LeadSign(o.hoTime, i, i + 1, Flown(o, t));
      TwiceHandoverTime(o, i + 1);
    }
  }

  /** A donor is a nearest one at some time exactly when the handover to it is not scheduled after the last
      waypoint: a later handover leads to a donor that never is. */
  lemma EverNearest(o: Track, donors: nat, iab: Vector, k: nat)
    requires o.stopTime > 0.0 && o.hoTime > 0.0 && o.velocity != 0.0 && iab.x == o.posWired.x && k < donors
    ensures (exists t :: t >= 0.0 && Nearest(o, donors, iab, k, t)) <==> (k == 0 || HandoverTime(o, k) <= o.stopTime)
  {
    ProductPositive(0.5, o.hoTime);
    if k == 0 || HandoverTime(o, k) <= o.stopTime {
      var t := if k == 0 then 0.0 else HandoverTime(o, k);
      ScaleMonotone(0.5, (if k == 0 then 1 else k) as real - 0.5, o.hoTime);
      ScaleMonotone((if k == 0 then 1 else k) as real - 0.5, (k + 1) as real - 0.5, o.hoTime);
      ScheduledIsNearest(o, donors, iab, k, t);
    } else {
      forall t ensures !Nearest(o, donors, iab, k, t) {
        ScheduledIsNearest(o, donors, iab, k, t);
      }
    }
  }

  /** 60 s of simulation, a handover every 24.5 s, four donors: handover 3 comes at 61.25 s, within the 2 s that
      the simulation runs on. Donor 3 is never a nearest one; donor 2 still is at the end. */
  lemma LastHandoverTooLate(o: Track, iab: Vector)
    requires o.stopTime == 60.0 && o.hoTime == 24.5 && o.velocity != 0.0 && iab.x == o.posWired.x
    ensures o.stopTime < HandoverTime(o, 3) == 61.25 < o.stopTime + 2.0
    ensures forall t :: t >= 0.0 ==> !Nearest(o, 4, iab, 3, t)
    ensures Nearest(o, 4, iab, 2, o.stopTime + 2.0)
  {
    EverNearest(o, 4, iab, 3);
    ScheduledIsNearest(o, 4, iab, 2, o.stopTime + 2.0);
  }

  /** Where donor i is, with and without handovers: donors trail one spacing behind each other on the track of the
      first, which starts above the scene centre. The spacing is what they fly between two handovers, or in the
      whole simulation where there are none. */
  lemma TrackOf(o: Track, i: nat, t: real)
    requires o.stopTime > 0.0
    ensures var spacing := Times(o.velocity, if o.hoTime > 0.0 then o.hoTime else o.stopTime);
            var x := o.posWired.x + Times(o.velocity, Flown(o, t)) - Times(i as real, spacing);
            PositionAt(o, i, t) == Vector(x, o.posWired.y, o.posWired.z)
  {
    Cancel(o.velocity, o.stopTime, Flown(o, t));
  }
}
