/** The random-waypoint tracks of the UEs and their split over the clusters
    (scratch/ntn-iab-quic-dash.cc, 968-1034). */
module UeTracks {
  import opened Reals
  import Grid

  datatype Point = Point(x: real, y: real)

  datatype Waypoint = Waypoint(t: real, at: Point)

  /** The scene is [0, xMax] x [0, yMax]; `dist` is the square root the program takes. */
  datatype Motion = Motion(xMax: real, yMax: real, radius: real, speed: real, stopTime: real,
                           dist: (Point, Point) -> real)

  function SquaredDistance(p: Point, q: Point): real {
    Times(p.x - q.x, p.x - q.x) + Times(p.y - q.y, p.y - q.y)
  }

  ghost predicate IsDistance(dist: (Point, Point) -> real) {
    forall p, q :: dist(p, q) >= 0.0 && Times(dist(p, q), dist(p, q)) == SquaredDistance(p, q)
  }

  /** What the program aborts on, and the scene. */
  ghost predicate Valid(m: Motion) {
    m.speed >= 0.0 && m.radius > 0.0 && m.xMax >= 0.0 && m.yMax >= 0.0 && IsDistance(m.dist)
  }

  predicate InScene(m: Motion, p: Point) {
    0.0 <= p.x <= m.xMax && 0.0 <= p.y <= m.yMax
  }

  predicate InDisc(p: Point, center: Point, radius: real) {
    SquaredDistance(p, center) <= Times(radius, radius)
  }

  /** The draws are offsets (r cos a, r sin a) with r at most the radius. */
  ghost predicate DrawnInDisc(draws: nat -> Point, radius: real) {
    forall i: nat :: InDisc(draws(i), Point(0.0, 0.0), radius)
  }

  function Clamp(v: real, max: real): real {
    var low := if v < 0.0 then 0.0 else v;
    if max < low then max else low
  }

  function Target(m: Motion, center: Point, offset: Point): Point {
    Point(Clamp(center.x + offset.x, m.xMax), Clamp(center.y + offset.y, m.yMax))
  }

  function LegTime(m: Motion, p: Point, q: Point): (dt: real)
    ensures dt >= 0.001
  {
    var dt := if m.speed > 0.0 then m.dist(q, p) / m.speed else m.stopTime;
    if dt < 0.001 then 0.001 else dt
  }

  // ---------- Generating a track ----------

  /** Every leg takes its leg time. */
  ghost predicate Route(m: Motion, track: seq<Waypoint>) {
    |track| > 0 && forall i :: 0 < i < |track| ==>
      track[i].t == track[i - 1].t + LegTime(m, track[i - 1].at, track[i].at)
  }

  /** The track goes through the targets of the draws from `first` on, and stops at the first time not
      before the end of the simulation. */
  ghost predicate IsTrack(m: Motion, center: Point, draws: nat -> Point, first: nat, track: seq<Waypoint>) {
    && Route(m, track) && track[0].t == 0.0
    && (forall i :: 0 <= i < |track| ==> track[i].at == Target(m, center, draws(first + i)))
    && (forall i :: 0 <= i < |track| - 1 ==> track[i].t < m.stopTime)
    && m.stopTime <= track[|track| - 1].t
  }

  /** p is the point of the scene nearest to `goal`, which is `goal` itself where that lies in the scene. */
  ghost predicate NearestInScene(m: Motion, p: Point, goal: Point) {
    && InScene(m, p) && (InScene(m, goal) ==> p == goal)
    && forall q :: InScene(m, q) ==> SquaredDistance(p, goal) <= SquaredDistance(q, goal)
  }

  lemma ClampNearest(v: real, max: real, q: real)
    requires 0.0 <= q <= max
    ensures 0.0 <= Clamp(v, max) <= max && (0.0 <= v <= max ==> Clamp(v, max) == v)
    ensures Times(Clamp(v, max) - v, Clamp(v, max) - v) <= Times(q - v, q - v)
  {
    if v < 0.0 {
      SquareMonotone(Clamp(v, max) - v, q - v);
    } else if max < v {
      SquareMonotone(v - max, v - q);
      SquareOfNegative(v - max);
      SquareOfNegative(v - q);
    } else {
      SquareZeroTimes(q - v);
      ZeroTimes(0.0);
    }
  }

  /** A UE heads for the point of the scene nearest to where it drew to go. */
  lemma TargetIsNearest(m: Motion, center: Point, offset: Point)
    requires m.xMax >= 0.0 && m.yMax >= 0.0
    ensures NearestInScene(m, Target(m, center, offset), Point(center.x + offset.x, center.y + offset.y))
  {
    var goal := Point(center.x + offset.x, center.y + offset.y);
    ClampNearest(goal.x, m.xMax, 0.0);
    ClampNearest(goal.y, m.yMax, 0.0);
    forall q | InScene(m, q) ensures SquaredDistance(Target(m, center, offset), goal) <= SquaredDistance(q, goal) {
      ClampNearest(goal.x, m.xMax, q.x);
      ClampNearest(goal.y, m.yMax, q.y);
    }
  }

  /** Waypoint i is where draw i of the track leads. */
  ghost predicate FollowsDraws(m: Motion, center: Point, draws: nat -> Point, first: nat, track: seq<Waypoint>) {
    forall i :: 0 <= i < |track| ==>
      NearestInScene(m, track[i].at, Point(center.x + draws(first + i).x, center.y + draws(first + i).y))
  }

  lemma TrackFollowsDraws(m: Motion, center: Point, draws: nat -> Point, first: nat, track: seq<Waypoint>)
    requires m.xMax >= 0.0 && m.yMax >= 0.0 && IsTrack(m, center, draws, first, track)
    ensures FollowsDraws(m, center, draws, first, track)
  {
    forall i | 0 <= i < |track|
      ensures NearestInScene(m, track[i].at, Point(center.x + draws(first + i).x, center.y + draws(first + i).y))
    {
      TargetIsNearest(m, center, draws(first + i));
    }
  }

  /** The track of one UE: it goes where the draws lead, and on until the end of the simulation. */
  method GenerateTrack(m: Motion, center: Point, draws: nat -> Point, first: nat) returns (track: seq<Waypoint>)
    ensures IsTrack(m, center, draws, first, track)
    ensures m.xMax >= 0.0 && m.yMax >= 0.0 ==> FollowsDraws(m, center, draws, first, track)
  {
    track := WalkLegs(m, center, draws, first);
    if m.xMax >= 0.0 && m.yMax >= 0.0 {
      TrackFollowsDraws(m, center, draws, first, track);
    }
  }

  method WalkLegs(m: Motion, center: Point, draws: nat -> Point, first: nat) returns (track: seq<Waypoint>)
    ensures IsTrack(m, center, draws, first, track)
  {
    var at := Target(m, center, draws(first));
    var t := 0.0;
    track := [Waypoint(t, at)];
    while t < m.stopTime
      invariant |track| > 0 && track[|track| - 1] == Waypoint(t, at)
      invariant Route(m, track) && track[0].t == 0.0
      invariant forall i :: 0 <= i < |track| ==> track[i].at == Target(m, center, draws(first + i))
      invariant forall i :: 0 <= i < |track| - 1 ==> track[i].t < m.stopTime
      decreases Grid.Ceil(1000.0 * (m.stopTime - t))
    {
      var next := Target(m, center, draws(first + |track|));
      t := t + LegTime(m, at, next);
      track := track + [Waypoint(t, next)];
      at := next;
    }
  }

  /** Times strictly increase, by at least a millisecond a leg; so there are at most
      ceil(stopTime / 0.001) legs, and the last one reaches the end of the simulation. */
  lemma TrackTimes(m: Motion, center: Point, draws: nat -> Point, first: nat, track: seq<Waypoint>)
    requires IsTrack(m, center, draws, first, track)
    ensures forall i, j :: 0 <= i < j < |track| ==> track[i].t < track[j].t
    ensures m.stopTime <= track[|track| - 1].t
    ensures |track| - 1 <= if m.stopTime > 0.0 then Grid.Ceil(m.stopTime / 0.001) else 0
  {
    forall i, j | 0 <= i < j < |track| ensures track[i].t < track[j].t {
      LegsTakeTime(m, track, i, j);
    }
    if |track| > 1 {
      LegsTakeTime(m, track, 0, |track| - 2);
    }
  }

  lemma {:induction false} LegsTakeTime(m: Motion, track: seq<Waypoint>, i: nat, j: nat)
    requires Route(m, track) && i <= j < |track|
    ensures track[j].t >= track[i].t + 0.001 * (j - i) as real
  {
    if i == j {
    } else {
      LegsTakeTime(m, track, i, j - 1);
    }
  }

  /** A leg is no faster than the configured speed exactly when that speed is positive or the leg stays where
      it is: at speed 0 a UE that draws a new target still goes there. */
  lemma LegSpeed(m: Motion, p: Point, q: Point)
    requires Valid(m)
    ensures m.dist(q, p) <= Times(m.speed, LegTime(m, p, q)) <==> m.speed > 0.0 || m.dist(q, p) == 0.0
  {
    var d := m.dist(q, p);
    if m.speed > 0.0 {
      var dt := d / m.speed;
      assert Times(m.speed, dt) == d;
      Distribute(m.speed, dt, LegTime(m, p, q) - dt, LegTime(m, p, q));
      ProductNonNegative(m.speed, LegTime(m, p, q) - dt);
    } else {
      OneTimes(LegTime(m, p, q));
    }
  }

  /** A leg is walked at exactly the configured speed, unless it takes less than a millisecond: then it takes a
      millisecond. At speed 0 it takes the whole simulation, or a millisecond if that is longer. */
  lemma LegAtFullSpeed(m: Motion, p: Point, q: Point)
    requires Valid(m)
    ensures var dt, d := LegTime(m, p, q), m.dist(q, p);
            && (m.speed > 0.0 && Times(m.speed, 0.001) <= d ==> Times(m.speed, dt) == d)
            && (m.speed > 0.0 && d <= Times(m.speed, 0.001) ==> dt == 0.001)
            && (m.speed == 0.0 ==> dt == if m.stopTime < 0.001 then 0.001 else m.stopTime)
  {
    var d := m.dist(q, p);
    if m.speed > 0.0 {
      assert Times(d / m.speed, m.speed) == d;
      ScaleOrder(d / m.speed, 0.001, m.speed);
      assert Times(0.001, m.speed) == Times(m.speed, 0.001);
    }
  }

  /** At speed 0 the one leg takes the whole simulation. */
  lemma ZeroSpeedOneLeg(m: Motion, center: Point, draws: nat -> Point, first: nat, track: seq<Waypoint>)
    requires m.speed == 0.0 && m.stopTime >= 0.001 && IsTrack(m, center, draws, first, track)
    ensures |track| == 2 && track[1].t == m.stopTime
  {
    assert track[|track| - 1].t > track[0].t;
    assert LegTime(m, track[0].at, track[1].at) == m.stopTime;
  }

  // ---------- Staying inside ----------

  /** The point a fraction f of the way from p to q. */
  function Along(p: Point, q: Point, f: real): Point {
    Point(p.x + Times(f, q.x - p.x), p.y + Times(f, q.y - p.y))
  }

  /** The waypoint model moves straight from one waypoint to the next, and rests at the last. */
  function PositionAt(track: seq<Waypoint>, t: real): Point
    requires |track| > 0
  {
    var last := track[|track| - 1];
    if |track| == 1 || last.t <= t then last.at
    else
      var from := track[|track| - 2];
      if from.t <= t && from.t < last.t then Along(from.at, last.at, (t - from.t) / (last.t - from.t))
      else PositionAt(track[..|track| - 1], t)
  }

  ghost predicate TimesIncrease(track: seq<Waypoint>) {
    forall i :: 0 < i < |track| ==> track[i - 1].t < track[i].t
  }

  /** A fraction `part` / `whole` of the way from a to b. */
  ghost predicate PartWay(p: Point, a: Point, b: Point, part: real, whole: real) {
    Times(whole, p.x - a.x) == Times(part, b.x - a.x) && Times(whole, p.y - a.y) == Times(part, b.y - a.y)
  }

  lemma AlongPartWay(a: Point, b: Point, part: real, whole: real)
    requires whole > 0.0
    ensures PartWay(Along(a, b, part / whole), a, b, part, whole)
  {
    var f := part / whole;
    assert Times(whole, f) == part;
    assert Times(whole, Times(f, b.x - a.x)) == Times(Times(whole, f), b.x - a.x);
    assert Times(whole, Times(f, b.y - a.y)) == Times(Times(whole, f), b.y - a.y);
  }

  /** On its way from one waypoint to the next a UE is where a steady straight walk has taken it. */
  lemma {:induction false} WalksStraight(track: seq<Waypoint>, i: nat, t: real)
    requires TimesIncrease(track) && i + 1 < |track| && track[i].t <= t <= track[i + 1].t
    ensures PartWay(PositionAt(track, t), track[i].at, track[i + 1].at, t - track[i].t, track[i + 1].t - track[i].t)
  {
    var n := |track|;
    var from, last := track[n - 2], track[n - 1];
    if i + 2 == n {
      if t < last.t {
        AlongPartWay(from.at, last.at, t - from.t, last.t - from.t);
      }
    } else {
      TimesReach(track, i + 1, n - 2);
      var shorter := track[..n - 1];
      WalksStraight(shorter, i, t);
      if from.t <= t {
        AtStart(from, last);
        assert PositionAt(track, t) == from.at == PositionAt(shorter, t);
      }
    }
  }

  lemma {:induction false} TimesReach(track: seq<Waypoint>, i: nat, j: nat)
    requires TimesIncrease(track) && i <= j < |track|
    ensures track[i].t <= track[j].t
  {
    if i == j {
    } else {
      TimesReach(track, i, j - 1);
    }
  }

  /** From the last waypoint on a UE rests. */
  lemma RestsAtEnd(track: seq<Waypoint>, t: real)
    requires |track| > 0 && track[|track| - 1].t <= t
    ensures PositionAt(track, t) == track[|track| - 1].at
  {
  }

  lemma Fraction(x: real, y: real)
    requires 0.0 <= x < y
    ensures 0.0 <= x / y < 1.0 && Times(x / y, y) == x
  {
  }

  lemma SquareMonotone(x: real, y: real)
    requires -y <= x <= y
    ensures Times(x, x) <= Times(y, y)
  {
    ProductNonNegative(y - x, y + x);
    assert (y - x) * (y + x) == y * y - x * x;
  }

  /** Clamping to a range that holds c never takes a value further from c. */
  lemma ClampCloser(c: real, v: real, max: real)
    requires 0.0 <= c <= max
    ensures 0.0 <= Clamp(v, max) <= max
    ensures Times(Clamp(v, max) - c, Clamp(v, max) - c) <= Times(v - c, v - c)
  {
    if c <= v {
      SquareMonotone(Clamp(v, max) - c, v - c);
    } else {
      SquareMonotone(Clamp(v, max) - c, c - v);
      SquareOfNegative(c - v);
    }
  }

  lemma TargetInside(m: Motion, center: Point, offset: Point)
    requires InScene(m, center) && InDisc(offset, Point(0.0, 0.0), m.radius)
    ensures InScene(m, Target(m, center, offset)) && InDisc(Target(m, center, offset), center, m.radius)
  {
    ClampCloser(center.x, center.x + offset.x, m.xMax);
    ClampCloser(center.y, center.y + offset.y, m.yMax);
    assert center.x + offset.x - center.x == offset.x - 0.0;
    assert center.y + offset.y - center.y == offset.y - 0.0;
  }

  lemma ConvexSquare(u: real, v: real, f: real, w: real)
    requires 0.0 <= f <= 1.0 && w == u + Times(f, v - u)
    ensures Times(w, w) <= Times(u, u) + Times(f, Times(v, v) - Times(u, u))
  {
    SquareZeroTimes(v - u);
    ProductNonNegative(f, 1.0 - f);
    ProductNonNegative(Times(f, 1.0 - f), Times(v - u, v - u));
    assert u * u + f * (v * v - u * u) - w * w == (f * (1.0 - f)) * ((v - u) * (v - u));
  }

  /** Scene and disc are convex. */
  lemma AlongInside(m: Motion, center: Point, p: Point, q: Point, f: real)
    requires 0.0 <= f <= 1.0
    requires InScene(m, p) && InDisc(p, center, m.radius) && InScene(m, q) && InDisc(q, center, m.radius)
    ensures InScene(m, Along(p, q, f)) && InDisc(Along(p, q, f), center, m.radius)
  {
    AxisInside(p.x, q.x, m.xMax, f);
    AxisInside(p.y, q.y, m.yMax, f);
    AlongNearer(center, p, q, f);
    var from, to, r := SquaredDistance(p, center), SquaredDistance(q, center), Times(m.radius, m.radius);
    WeightedMonotone(from, to, r, r, f);
    ZeroTimes(f);
    assert r - r == 0.0;
  }

  lemma AxisInside(a: real, b: real, max: real, f: real)
    requires 0.0 <= f <= 1.0 && 0.0 <= a <= max && 0.0 <= b <= max
    ensures 0.0 <= a + Times(f, b - a) <= max
  {
    if a <= b {
      Between(a, b, f);
    } else {
      Between(b, a, 1.0 - f);
      assert a + Times(f, b - a) == b + Times(1.0 - f, a - b);
    }
  }

  lemma AlongNearer(center: Point, p: Point, q: Point, f: real)
    requires 0.0 <= f <= 1.0
    ensures var from, to := SquaredDistance(p, center), SquaredDistance(q, center);
            SquaredDistance(Along(p, q, f), center) <= from + Times(f, to - from)
  {
    var a := Along(p, q, f);
    var px, py, qx, qy := p.x - center.x, p.y - center.y, q.x - center.x, q.y - center.y;
    assert qx - px == q.x - p.x && qy - py == q.y - p.y;
    ConvexSquare(px, qx, f, a.x - center.x);
    ConvexSquare(py, qy, f, a.y - center.y);
    Distribute(f, Times(qx, qx) - Times(px, px), Times(qy, qy) - Times(py, py),
               Times(qx, qx) + Times(qy, qy) - (Times(px, px) + Times(py, py)));
  }

  /** At every time, on the legs as well as at the waypoints, the UE is in the scene and in the disc. */
  lemma StaysInside(m: Motion, center: Point, draws: nat -> Point, first: nat, track: seq<Waypoint>, t: real)
    requires InScene(m, center) && DrawnInDisc(draws, m.radius) && IsTrack(m, center, draws, first, track)
    ensures InScene(m, PositionAt(track, t)) && InDisc(PositionAt(track, t), center, m.radius)
  {
    forall i | 0 <= i < |track| ensures InScene(m, track[i].at) && InDisc(track[i].at, center, m.radius) {
      TargetInside(m, center, draws(first + i));
    }
    PositionInside(m, center, track, t);
  }

  lemma {:induction false} PositionInside(m: Motion, center: Point, track: seq<Waypoint>, t: real)
    requires |track| > 0
    requires forall i :: 0 <= i < |track| ==> InScene(m, track[i].at) && InDisc(track[i].at, center, m.radius)
    ensures InScene(m, PositionAt(track, t)) && InDisc(PositionAt(track, t), center, m.radius)
  {
    var last := track[|track| - 1];
    if |track| > 1 && t < last.t {
      var from := track[|track| - 2];
      if from.t <= t {
        Fraction(t - from.t, last.t - from.t);
        AlongInside(m, center, from.at, last.at, (t - from.t) / (last.t - from.t));
      } else {
        PositionInside(m, center, track[..|track| - 1], t);
      }
    }
  }

  // ---------- How far a UE gets ----------

  predicate AtMostApart(p: Point, q: Point, d: real) {
    d >= 0.0 && SquaredDistance(p, q) <= Times(d, d)
  }

  lemma DotProduct(ux: real, uy: real, vx: real, vy: real, a: real, b: real)
    requires a >= 0.0 && b >= 0.0
    requires Times(ux, ux) + Times(uy, uy) <= Times(a, a) && Times(vx, vx) + Times(vy, vy) <= Times(b, b)
    ensures Times(ux, vx) + Times(uy, vy) <= Times(a, b)
  {
    var dot, cross := Times(ux, vx) + Times(uy, vy), Times(ux, vy) - Times(uy, vx);
    var u, v := Times(ux, ux) + Times(uy, uy), Times(vx, vx) + Times(vy, vy);
    Lagrange(ux, uy, vx, vy);
    SquareZeroTimes(cross);
    SquareZeroTimes(vx);
    SquareZeroTimes(vy);
    SquareZeroTimes(a);
    ScaleMonotone(u, Times(a, a), v);
    ScaleMonotone(v, Times(b, b), Times(a, a));
    SquareOfProduct(a, b);
    ProductNonNegative(a, b);
    assert Times(Times(a, a), v) == Times(v, Times(a, a));
    assert Times(dot, dot) <= Times(Times(a, b), Times(a, b));
    if Times(a, b) < dot {
      SquareStrict(Times(a, b), dot);
    }
  }

  lemma SquareStrict(x: real, y: real)
    requires 0.0 <= x < y
    ensures Times(x, x) < Times(y, y)
  {
    ScaleMonotone(x, y, x);
    ScaleStrict(x, y, y);
  }

  lemma Lagrange(ux: real, uy: real, vx: real, vy: real)
    ensures var dot, cross := Times(ux, vx) + Times(uy, vy), Times(ux, vy) - Times(uy, vx);
            Times(dot, dot) + Times(cross, cross) ==
              Times(Times(ux, ux) + Times(uy, uy), Times(vx, vx) + Times(vy, vy))
  {
  }

  lemma Triangle(p: Point, q: Point, r: Point, a: real, b: real, sum: real)
    requires AtMostApart(p, q, a) && AtMostApart(q, r, b) && sum == a + b
    ensures AtMostApart(p, r, sum)
  {
    DotProduct(p.x - q.x, p.y - q.y, q.x - r.x, q.y - r.y, a, b);
    SquareOfSum(p.x - q.x, q.x - r.x, p.x - r.x);
    SquareOfSum(p.y - q.y, q.y - r.y, p.y - r.y);
    SquareOfSum(a, b, sum);
    assert Times(b, a) == Times(a, b);
    assert Times(q.x - r.x, p.x - q.x) == Times(p.x - q.x, q.x - r.x);
    assert Times(q.y - r.y, p.y - q.y) == Times(p.y - q.y, q.y - r.y);
  }

  lemma AlongApart(p: Point, q: Point, f: real, g: real, d: real)
    requires 0.0 <= f <= g && AtMostApart(p, q, d)
    ensures AtMostApart(Along(p, q, f), Along(p, q, g), Times(g - f, d))
  {
    var h := g - f;
    ProductNonNegative(h, d);
    SquareOfProduct(h, d);
    ScaledDifference(p.x, q.x, f, g);
    ScaledDifference(p.y, q.y, f, g);
    var dx, dy := Times(p.x - q.x, p.x - q.x), Times(p.y - q.y, p.y - q.y);
    Distribute(Times(h, h), dx, dy, dx + dy);
    SquareZeroTimes(h);
    ScaleMonotone(dx + dy, Times(d, d), Times(h, h));
    assert Times(Times(h, h), dx + dy) == Times(dx + dy, Times(h, h));
    assert Times(Times(h, h), Times(d, d)) == Times(Times(d, d), Times(h, h));
  }

  lemma ScaledDifference(a: real, b: real, f: real, g: real)
    ensures var u := a + Times(f, b - a) - (a + Times(g, b - a));
            Times(u, u) == Times(Times(g - f, g - f), Times(a - b, a - b))
  {
  }

  /** Between any two times a UE gets no further than its speed allows, across however many legs. */
  lemma {:induction false} MovesAtMost(m: Motion, track: seq<Waypoint>, s: real, t: real)
    requires Valid(m) && m.speed > 0.0 && Route(m, track) && track[0].t <= s <= t
    ensures AtMostApart(PositionAt(track, s), PositionAt(track, t), Times(m.speed, t - s))
  {
    var last := track[|track| - 1];
    ProductNonNegative(m.speed, t - s);
    SquareZeroTimes(Times(m.speed, t - s));
    if |track| > 1 && s < last.t {
      var shorter, from := track[..|track| - 1], track[|track| - 2];
      assert Route(m, shorter);
      var end := if t < last.t then t else last.t;
      if s < from.t {
        if t <= from.t {
          MovesAtMost(m, shorter, s, t);
          assert t == from.t ==> PositionAt(track, t) == from.at by { AtStart(from, last); }
        } else {
          MovesAtMost(m, shorter, s, from.t);
          OnLeg(m, from, last, from.t, end);
          AtStart(from, last);
          SlowerTime(m.speed, end - from.t, t - from.t, PositionAt(shorter, from.t), PositionAt(track, t));
          Distribute(m.speed, from.t - s, t - from.t, t - s);
          Triangle(PositionAt(track, s), from.at, PositionAt(track, t),
                   Times(m.speed, from.t - s), Times(m.speed, t - from.t), Times(m.speed, t - s));
        }
      } else {
        OnLeg(m, from, last, s, end);
        SlowerTime(m.speed, end - s, t - s, PositionAt(track, s), PositionAt(track, t));
      }
    }
  }

  lemma SlowerTime(speed: real, d: real, e: real, p: Point, q: Point)
    requires speed > 0.0 && 0.0 <= d <= e && AtMostApart(p, q, Times(speed, d))
    ensures AtMostApart(p, q, Times(speed, e))
  {
    ProductNonNegative(speed, e);
    Distribute(speed, d, e - d, e);
    ProductNonNegative(speed, e - d);
    SquareMonotone(Times(speed, d), Times(speed, e));
  }

  function OnLegAt(from: Waypoint, to: Waypoint, t: real): Point
    requires from.t < to.t
  {
    if to.t <= t then to.at else Along(from.at, to.at, (t - from.t) / (to.t - from.t))
  }

  lemma AtStart(from: Waypoint, to: Waypoint)
    requires from.t < to.t
    ensures OnLegAt(from, to, from.t) == from.at
  {
    OneTimes(to.at.x - from.at.x);
    OneTimes(to.at.y - from.at.y);
    assert (from.t - from.t) / (to.t - from.t) == 0.0;
  }

  lemma OnLeg(m: Motion, from: Waypoint, to: Waypoint, s: real, t: real)
    requires Valid(m) && m.speed > 0.0 && to.t == from.t + LegTime(m, from.at, to.at)
    requires from.t <= s <= t <= to.t
    ensures AtMostApart(OnLegAt(from, to, s), OnLegAt(from, to, t), Times(m.speed, t - s))
  {
    var dt := to.t - from.t;
    var d := m.dist(to.at, from.at);
    LegSpeed(m, from.at, to.at);
    SquareOfNegative(to.at.x - from.at.x);
    SquareOfNegative(to.at.y - from.at.y);
    assert AtMostApart(from.at, to.at, d);
    var f, g := (s - from.t) / dt, (t - from.t) / dt;
    LegFractions(s - from.t, t - from.t, dt);
    AtEnd(from, to);
    AlongApart(from.at, to.at, f, g, d);
    PaceBound(g - f, d, m.speed, dt, t - s);
    SquareMonotone(Times(g - f, d), Times(m.speed, t - s));
  }

  lemma LegFractions(x: real, y: real, dt: real)
    requires 0.0 <= x <= y && dt > 0.0
    ensures 0.0 <= x / dt <= y / dt && Times(y / dt - x / dt, dt) == y - x
  {
    DivideMonotone(x, y, dt);
    DivideMonotone(0.0, x, dt);
    QuotientTimes(x, y, dt);
  }

  lemma QuotientTimes(x: real, y: real, dt: real)
    requires dt > 0.0
    ensures Times(y / dt - x / dt, dt) == y - x
  {
    var f, g := x / dt, y / dt;
    assert f * dt == x && g * dt == y;
    assert (g - f) * dt == g * dt - f * dt;
  }

  lemma PaceBound(h: real, d: real, speed: real, dt: real, elapsed: real)
    requires h >= 0.0 && d >= 0.0 && d <= Times(speed, dt) && Times(h, dt) == elapsed
    ensures 0.0 <= Times(h, d) <= Times(speed, elapsed)
  {
    ProductNonNegative(h, d);
    ScaleMonotone(d, Times(speed, dt), h);
    Reorder(h, speed, dt);
    assert Times(d, h) == Times(h, d) && Times(Times(speed, dt), h) == Times(h, Times(speed, dt));
  }

  lemma AtEnd(from: Waypoint, to: Waypoint)
    requires from.t < to.t
    ensures Along(from.at, to.at, (to.t - from.t) / (to.t - from.t)) == to.at
  {
    OneTimes(to.at.x - from.at.x);
    OneTimes(to.at.y - from.at.y);
    assert (to.t - from.t) / (to.t - from.t) == 1.0;
  }

  // ---------- One track for every UE ----------

  const SCENE_SIZE: real := 1000.0
  const IAB_OFFSET: real := 200.0

  /** The IABs in use, or the donor's place when there are none; always inside the scene. */
  function ClusterCenters(relays: nat): (r: seq<Point>)
    ensures 0 < |r| <= 6
    ensures forall p :: p in r ==> 0.0 < p.x < SCENE_SIZE && 0.0 < p.y < SCENE_SIZE
  {
    var mid := SCENE_SIZE / 2.0;
    var low, high := mid - IAB_OFFSET, mid + IAB_OFFSET;
    var all := [Point(mid, mid), Point(high, low), Point(low, high),
                Point(low, low), Point(high, high), Point(high, high)];
    if relays == 0 then [Point(mid, mid)] else if relays < 6 then all[..relays] else all
  }

  /** Where the IABs are: the middle, and the corners of a square around it, the last corner twice. */
  lemma CentersAre(relays: nat)
    ensures ClusterCenters(relays) ==
            [Point(500.0, 500.0), Point(700.0, 300.0), Point(300.0, 700.0), Point(300.0, 300.0), Point(700.0, 700.0),
             Point(700.0, 700.0)][..if relays == 0 then 1 else if relays < 6 then relays else 6]
  {
  }

  /** Cluster c of k gets this many of the UEs. */
  function Share(ues: nat, k: nat, c: nat): nat
    requires k > 0
  {
    ues / k + if c < ues % k then 1 else 0
  }

  /** The first UE of cluster c. */
  function FirstOf(ues: nat, k: nat, c: nat): nat
    requires k > 0
  {
    if c == 0 then 0 else FirstOf(ues, k, c - 1) + Share(ues, k, c - 1)
  }

  lemma {:induction false} FirstOfClosed(ues: nat, k: nat, c: nat, base: nat, extra: nat)
    requires 0 < k && base == ues / k && extra == ues % k
    ensures FirstOf(ues, k, c) == c * base + if c < extra then c else extra
  {
    if c == 0 {
    } else {
      FirstOfClosed(ues, k, c - 1, base, extra);
      assert c * base == (c - 1) * base + base;
    }
  }

  /** The shares add up to all the UEs. */
  lemma SharesAddUp(ues: nat, k: nat)
    requires 0 < k
    ensures FirstOf(ues, k, k) == ues
  {
    FirstOfClosed(ues, k, k, ues / k, ues % k);
  }

  /** No cluster gets more than one UE more than another, and the first ones get the extra ones. */
  lemma SharesEven(ues: nat, k: nat, b: nat, c: nat)
    requires b <= c < k
    ensures Share(ues, k, c) <= Share(ues, k, b) <= Share(ues, k, c) + 1
  {
  }

  lemma {:induction false} FirstOfIncreases(ues: nat, k: nat, b: nat, c: nat)
    requires 0 < k && b <= c
    ensures FirstOf(ues, k, b) <= FirstOf(ues, k, c)
  {
    if b == c {
    } else {
      FirstOfIncreases(ues, k, b, c - 1);
    }
  }

  /** A UE of cluster c with a track of its own, from the draws start, start + 1, ... up to next. */
  ghost predicate HasTrack(m: Motion, centers: seq<Point>, draws: nat -> Point,
                           track: seq<Waypoint>, c: nat, start: nat, next: nat) {
    c < |centers| && next == start + |track| && IsTrack(m, centers[c], draws, start, track)
  }

  /** Every UE i has its track in cluster clusters[i]; the draws are used in order, without gaps. */
  ghost predicate Tracked(m: Motion, centers: seq<Point>, draws: nat -> Point,
                          tracks: seq<seq<Waypoint>>, clusters: seq<nat>, starts: seq<nat>) {
    && |clusters| == |tracks| && |starts| == |tracks| + 1 && starts[0] == 0
    && forall i :: 0 <= i < |tracks| ==> HasTrack(m, centers, draws, tracks[i], clusters[i], starts[i], starts[i + 1])
  }

  lemma OneMoreTracked(m: Motion, centers: seq<Point>, draws: nat -> Point, tracks: seq<seq<Waypoint>>,
                       clusters: seq<nat>, starts: seq<nat>, track: seq<Waypoint>, c: nat, next: nat)
    requires Tracked(m, centers, draws, tracks, clusters, starts)
    requires HasTrack(m, centers, draws, track, c, starts[|tracks|], next)
    ensures Tracked(m, centers, draws, tracks + [track], clusters + [c], starts + [next])
  {
    var ts, cs, ss := tracks + [track], clusters + [c], starts + [next];
    forall i | 0 <= i < |ts| ensures HasTrack(m, centers, draws, ts[i], cs[i], ss[i], ss[i + 1]) {
      if i < |tracks| {
        assert HasTrack(m, centers, draws, tracks[i], clusters[i], starts[i], starts[i + 1]);
      }
    }
  }

  /** Cluster c holds exactly the UEs from FirstOf(c) up to FirstOf(c + 1). */
  ghost predicate Blocks(ues: nat, k: nat, clusters: seq<nat>)
    requires k > 0
  {
    forall i, c :: 0 <= i < |clusters| && 0 <= c < k ==>
      (clusters[i] == c <==> FirstOf(ues, k, c) <= i < FirstOf(ues, k, c + 1))
  }

  /** The clusters are taken in order; the guard against running out of UEs never cuts one short. */
  method PlaceUes(m: Motion, centers: seq<Point>, draws: nat -> Point, ues: nat)
    returns (tracks: seq<seq<Waypoint>>, clusters: seq<nat>, starts: seq<nat>)
    requires |centers| > 0
    ensures |tracks| == ues && Tracked(m, centers, draws, tracks, clusters, starts)
    ensures Blocks(ues, |centers|, clusters)
  {
    var k := |centers|;
    tracks, clusters, starts := [], [], [0];
    for c := 0 to k
      invariant Tracked(m, centers, draws, tracks, clusters, starts)
      invariant |tracks| == FirstOf(ues, k, c) && InOrder(ues, k, clusters)
    {
      FirstOfIncreases(ues, k, c + 1, k);
      SharesAddUp(ues, k);
      var u := 0;
      while u < Share(ues, k, c) && |tracks| < ues
        invariant 0 <= u <= Share(ues, k, c)
        invariant Tracked(m, centers, draws, tracks, clusters, starts)
        invariant |tracks| == FirstOf(ues, k, c) + u && InOrder(ues, k, clusters)
      {
        var track := GenerateTrack(m, centers[c], draws, starts[|tracks|]);
        var next := starts[|tracks|] + |track|;
        OneMoreTracked(m, centers, draws, tracks, clusters, starts, track, c, next);
        tracks, clusters, starts := tracks + [track], clusters + [c], starts + [next];
        u := u + 1;
      }
    }
    SharesAddUp(ues, k);
    InOrderBlocks(ues, k, clusters);
  }

  ghost predicate InOrder(ues: nat, k: nat, clusters: seq<nat>)
    requires k > 0
  {
    forall i :: 0 <= i < |clusters| ==> FirstOf(ues, k, clusters[i]) <= i < FirstOf(ues, k, clusters[i] + 1)
  }

  lemma InOrderBlocks(ues: nat, k: nat, clusters: seq<nat>)
    requires k > 0 && InOrder(ues, k, clusters)
    ensures Blocks(ues, k, clusters)
  {
    forall i, c | 0 <= i < |clusters| && 0 <= c < k && FirstOf(ues, k, c) <= i < FirstOf(ues, k, c + 1)
      ensures clusters[i] == c
    {
      if clusters[i] < c {
        FirstOfIncreases(ues, k, clusters[i] + 1, c);
      } else if c < clusters[i] {
        FirstOfIncreases(ues, k, c + 1, clusters[i]);
      }
    }
  }

  // ---------- All UEs ----------

  ghost predicate InsideAt(m: Motion, center: Point, track: seq<Waypoint>, t: real) {
    |track| > 0 && InScene(m, PositionAt(track, t)) && InDisc(PositionAt(track, t), center, m.radius)
  }

  /** Every UE that is placed stays in the scene and in the disc of its own cluster, at every time. */
  lemma EveryUeStaysInside(m: Motion, relays: nat, draws: nat -> Point, tracks: seq<seq<Waypoint>>,
                           clusters: seq<nat>, starts: seq<nat>, ue: nat, t: real)
    requires m.xMax == m.yMax == SCENE_SIZE && DrawnInDisc(draws, m.radius)
    requires Tracked(m, ClusterCenters(relays), draws, tracks, clusters, starts) && ue < |tracks|
    ensures clusters[ue] < |ClusterCenters(relays)|
    ensures InsideAt(m, ClusterCenters(relays)[clusters[ue]], tracks[ue], t)
  {
    var centers := ClusterCenters(relays);
    assert HasTrack(m, centers, draws, tracks[ue], clusters[ue], starts[ue], starts[ue + 1]);
    assert centers[clusters[ue]] in centers;
    StaysInside(m, centers[clusters[ue]], draws, starts[ue], tracks[ue], t);
  }
}
