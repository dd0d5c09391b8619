/** Land probes against water rings, internal/ingest/water.go and rings.go: the two bounding-box
    rejections of landProbeIndex never change the plain ray-casting count. */
module LandProbes {
  import opened RealMath
  import opened RingStitching

  // -------------------------------------------------------- ray casting

  /** Index of the vertex before i, cyclically. */
  function Before(n: nat, i: nat): nat
    requires i < n
  {
    if i == 0 then n - 1 else i - 1
  }

  /** The edge from a to b passes height y. */
  predicate Straddles(a: Point, b: Point, y: real) {
    (b.y > y) != (a.y > y)
  }

  /** The horizontal run at rise `part` of an edge with the given run and rise. */
  function RunAt(run: real, part: real, rise: real): real
    requires rise != 0.0
  {
    run * part / rise
  }

  /** Where the line from b to a meets height y. */
  function CrossingX(a: Point, b: Point, y: real): real
    requires a.y != b.y
  {
    RunAt(a.x - b.x, y - b.y, a.y - b.y) + b.x
  }

  /** The ray from p towards larger x crosses the edge from a to b. */
  predicate Crosses(p: Point, a: Point, b: Point) {
    Straddles(a, b, p.y) && p.x < CrossingX(a, b, p.y)
  }

  /** Crossings of the first n edges; edge i runs from the vertex before i to i. */
  function Crossings(p: Point, ring: seq<Point>, n: nat): nat
    requires n <= |ring|
  {
    if n == 0 then 0
    else Crossings(p, ring, n - 1) + (if Crosses(p, ring[Before(|ring|, n - 1)], ring[n - 1]) then 1 else 0)
  }

  predicate IsInside(p: Point, ring: seq<Point>) {
    |ring| >= 4 && Crossings(p, ring, |ring|) % 2 == 1
  }

  /** pointInRing: toggles on every crossed edge. */
  method PointInRing(p: Point, ring: seq<Point>) returns (inside: bool)
    ensures inside == IsInside(p, ring)
  {
    if |ring| < 4 {
      return false;
    }
    hide RunAt;
    inside := false;
    var i, j := 0, |ring| - 1;
    while i < |ring|
      invariant 0 <= i <= |ring| && (i < |ring| ==> j == Before(|ring|, i))
      invariant inside == (Crossings(p, ring, i) % 2 == 1)
    {
      var a, b := ring[j], ring[i];
      if (b.y > p.y) != (a.y > p.y) && p.x < RunAt(a.x - b.x, p.y - b.y, a.y - b.y) + b.x {
        inside := !inside;
      }
      j, i := i, i + 1;
    }
  }

  /** The edge from a to b leaves the height of p, upwards or downwards, at a point further right than p; an
      end at that height counts as below it. */
  ghost predicate PassesRight(p: Point, a: Point, b: Point) {
    && (a.y > p.y) != (b.y > p.y)
    && exists t: real :: OnEdgeRight(p, a, b, t)
  }

  ghost predicate OnEdgeRight(p: Point, a: Point, b: Point, t: real) {
    0.0 <= t <= 1.0 && a.y + Part(t, b.y - a.y) == p.y && a.x + Part(t, b.x - a.x) > p.x
  }

  lemma CrossesIff(p: Point, a: Point, b: Point)
    ensures Crosses(p, a, b) <==> PassesRight(p, a, b)
  {
    hide Crosses, CrossingX, Part;
    if Straddles(a, b, p.y) {
      var t := AtHeight(a, b, p.y);
      CrossingAt(a, b, p.y, t);
      if u: real :| OnEdgeRight(p, a, b, u) {
        OneAtHeight(a, b, p.y, t, u);
      }
      CrossesAt(p, a, b);
      assert Crosses(p, a, b) ==> OnEdgeRight(p, a, b, t);
    } else {
      CrossesAt(p, a, b);
    }
  }

  lemma CrossesAt(p: Point, a: Point, b: Point)
    ensures Crosses(p, a, b) <==> Straddles(a, b, p.y) && p.x < CrossingX(a, b, p.y)
  {
  }

  /** The parameter at which a straddling edge meets the height. */
  lemma AtHeight(a: Point, b: Point, y: real) returns (t: real)
    requires Straddles(a, b, y)
    ensures 0.0 <= t <= 1.0 && a.y + Part(t, b.y - a.y) == y
  {
    var rise := b.y - a.y;
    t := (y - a.y) / rise;
    assert t * rise == y - a.y;
    FractionOfSpan(y - a.y, rise);
  }

  lemma OneAtHeight(a: Point, b: Point, y: real, t: real, u: real)
    requires a.y != b.y && a.y + Part(t, b.y - a.y) == y == a.y + Part(u, b.y - a.y)
    ensures t == u
  {
    var rise := b.y - a.y;
    assert (t - u) * rise == 0.0;
    Cancel(t - u, rise, 0.0);
  }

  lemma CrossingAt(a: Point, b: Point, y: real, t: real)
    requires a.y != b.y && a.y + Part(t, b.y - a.y) == y
    ensures CrossingX(a, b, y) == a.x + Part(t, b.x - a.x)
  {
    var run, rise, u := a.x - b.x, a.y - b.y, 1.0 - t;
    assert y - b.y == u * rise by {
      assert t * (b.y - a.y) == -(t * rise);
    }
    assert run * (u * rise) == (run * u) * rise;
    Cancel(run * u, rise, run * (y - b.y));
    assert run * u == run - run * t;
    assert run * t == -(t * (b.x - a.x));
  }

  /** Edge i of a ring runs to vertex i from the one before it, and edge 0 from the last. */
  ghost predicate EdgeRight(p: Point, ring: seq<Point>, i: int)
    requires 0 <= i < |ring|
  {
    PassesRight(p, ring[if i == 0 then |ring| - 1 else i - 1], ring[i])
  }

  /** The edges of a ring that pass to the right of p. */
  ghost function EdgesRight(p: Point, ring: seq<Point>, n: nat): set<int>
    requires n <= |ring|
  {
    set i | 0 <= i < n && EdgeRight(p, ring, i)
  }

  lemma {:induction false} CrossingsCount(p: Point, ring: seq<Point>, n: nat)
    requires n <= |ring|
    ensures Crossings(p, ring, n) == |EdgesRight(p, ring, n)|
  {
    hide EdgeRight, Crosses;
    if n > 0 {
      CrossingsCount(p, ring, n - 1);
      EdgeRightIff(p, ring, n - 1);
      assert EdgesRight(p, ring, n) ==
             EdgesRight(p, ring, n - 1) + if EdgeRight(p, ring, n - 1) then {n - 1} else {};
    } else {
      assert EdgesRight(p, ring, 0) == {};
    }
  }

  lemma EdgeRightIff(p: Point, ring: seq<Point>, i: nat)
    requires i < |ring|
    ensures EdgeRight(p, ring, i) <==> Crosses(p, ring[Before(|ring|, i)], ring[i])
  {
    hide PassesRight, Crosses;
    CrossesIff(p, ring[Before(|ring|, i)], ring[i]);
  }

  /** A point is inside a ring of at least four vertices when an odd number of its edges pass to the right. */
  lemma InsideIff(p: Point, ring: seq<Point>)
    ensures IsInside(p, ring) <==> |ring| >= 4 && |EdgesRight(p, ring, |ring|)| % 2 == 1
  {
    CrossingsCount(p, ring, |ring|);
  }

  // ------------------------------------------------------ bounding boxes

  datatype Box = Box(minX: real, minY: real, maxX: real, maxY: real)

  predicate InBox(p: Point, b: Box) {
    b.minX <= p.x <= b.maxX && b.minY <= p.y <= b.maxY
  }

  ghost predicate Bounds(b: Box, ps: seq<Point>) {
    forall i :: 0 <= i < |ps| ==> InBox(ps[i], b)
  }

  /** Each side of the box passes through some point. */
  ghost predicate Tight(b: Box, ps: seq<Point>) {
    && (exists i :: 0 <= i < |ps| && ps[i].x == b.minX) && (exists i :: 0 <= i < |ps| && ps[i].x == b.maxX)
    && (exists i :: 0 <= i < |ps| && ps[i].y == b.minY) && (exists i :: 0 <= i < |ps| && ps[i].y == b.maxY)
  }

  /** Both box scans of the source (ringBBox and newLandProbeIndex). */
  method BoxOf(ps: seq<Point>) returns (b: Box)
    requires |ps| > 0
    ensures Bounds(b, ps) && Tight(b, ps)
  {
    hide Bounds, Tight;
    var minX, minY, maxX, maxY := ps[0].x, ps[0].y, ps[0].x, ps[0].y;
    OnePointBox(ps[0]);
    assert ps[..1] == [ps[0]];
    for i := 1 to |ps|
      invariant minX <= maxX && minY <= maxY
      invariant Bounds(Box(minX, minY, maxX, maxY), ps[..i])
      invariant Tight(Box(minX, minY, maxX, maxY), ps[..i])
    {
      var p := ps[i];
      ghost var was := Box(minX, minY, maxX, maxY);
      if p.x < minX {
        minX := p.x;
      } else if p.x > maxX {
        maxX := p.x;
      }
      if p.y < minY {
        minY := p.y;
      } else if p.y > maxY {
        maxY := p.y;
      }
      assert ps[..i + 1] == ps[..i] + [p];
      Widen(was, ps[..i], p, Box(minX, minY, maxX, maxY));
    }
    assert ps[..|ps|] == ps;
    b := Box(minX, minY, maxX, maxY);
  }

  lemma OnePointBox(p: Point)
    ensures Bounds(Box(p.x, p.y, p.x, p.y), [p]) && Tight(Box(p.x, p.y, p.x, p.y), [p])
  {
    assert [p][0] == p;
  }

  lemma Widen(b: Box, ps: seq<Point>, p: Point, w: Box)
    requires |ps| > 0 && Bounds(b, ps) && Tight(b, ps)
    requires w == Box(Min(p.x, b.minX), Min(p.y, b.minY), Max(p.x, b.maxX), Max(p.y, b.maxY))
    ensures Bounds(w, ps + [p]) && Tight(w, ps + [p])
  {
    var all := ps + [p];
    assert all[|ps|] == p;
    var i :| 0 <= i < |ps| && ps[i].x == b.minX;
    var j :| 0 <= j < |ps| && ps[j].x == b.maxX;
    var k :| 0 <= k < |ps| && ps[k].y == b.minY;
    var l :| 0 <= l < |ps| && ps[l].y == b.maxY;
    assert all[i].x == b.minX && all[j].x == b.maxX && all[k].y == b.minY && all[l].y == b.maxY;
  }

  // ------------------------------------------- the box rejections are sound

  lemma RunWithin(d: real, a: real, b: real)
    requires (b > 0.0 && 0.0 <= a <= b) || (b < 0.0 && b <= a <= 0.0)
    ensures d >= 0.0 ==> 0.0 <= RunAt(d, a, b) <= d
    ensures d <= 0.0 ==> d <= RunAt(d, a, b) <= 0.0
  {
    hide RunAt;
    FractionOfSpan(a, b);
    RunIsShare(d, a, b, a / b);
    ShareRange(d, a / b, RunAt(d, a, b));
  }

  lemma RunIsShare(d: real, a: real, b: real, t: real)
    requires b != 0.0 && t == a / b
    ensures RunAt(d, a, b) == d * t
  {
    assert t * b == a;
    assert d * a == (d * t) * b;
    Cancel(d * t, b, d * a);
  }

  lemma ShareRange(d: real, t: real, dt: real)
    requires 0.0 <= t <= 1.0 && dt == d * t
    ensures d >= 0.0 ==> 0.0 <= dt <= d
    ensures d <= 0.0 ==> d <= dt <= 0.0
  {
    if d >= 0.0 {
      UnitShare(d, t, dt);
    } else {
      UnitShare(-d, t, -dt);
    }
  }

  lemma FractionOfSpan(a: real, b: real)
    requires (b > 0.0 && 0.0 <= a <= b) || (b < 0.0 && b <= a <= 0.0)
    ensures 0.0 <= a / b <= 1.0
  {
    var t := a / b;
    assert t * b == a;
    if b > 0.0 {
      DivMonotone(a, b, b);
    } else {
      Cancel(t, -b, -a);
      DivMonotone(-a, -b, -b);
    }
  }

  /** A straddling edge meets the height between its ends' x coordinates. */
  lemma CrossingBetween(a: Point, b: Point, y: real)
    requires Straddles(a, b, y)
    ensures Min(a.x, b.x) <= CrossingX(a, b, y) <= Max(a.x, b.x)
  {
    hide RunAt;
    RunWithin(a.x - b.x, y - b.y, a.y - b.y);
  }

  function StraddleCount(y: real, ring: seq<Point>, n: nat): nat
    requires n <= |ring|
  {
    if n == 0 then 0
    else StraddleCount(y, ring, n - 1) + (if Straddles(ring[Before(|ring|, n - 1)], ring[n - 1], y) then 1 else 0)
  }

  /** Walking a closed ring changes sides of any height an even number of times. */
  lemma {:induction false} StraddlesEvenly(y: real, ring: seq<Point>, n: nat)
    requires 0 < n <= |ring|
    ensures (StraddleCount(y, ring, n) % 2 == 1) <==> ((ring[n - 1].y > y) != (ring[|ring| - 1].y > y))
    ensures n == |ring| ==> StraddleCount(y, ring, n) % 2 == 0
  {
    if n > 1 {
      StraddlesEvenly(y, ring, n - 1);
    } else {
      assert StraddleCount(y, ring, 1) == StraddleCount(y, ring, 0) +
             (if Straddles(ring[|ring| - 1], ring[0], y) then 1 else 0);
    }
  }

  lemma {:induction false} CrossingsOutside(p: Point, ring: seq<Point>, b: Box, n: nat)
    requires n <= |ring| && Bounds(b, ring) && !InBox(p, b)
    ensures Crossings(p, ring, n) == (if p.x < b.minX then StraddleCount(p.y, ring, n) else 0)
    ensures p.y < b.minY || p.y > b.maxY ==> StraddleCount(p.y, ring, n) == 0
  {
    if n > 0 {
      CrossingsOutside(p, ring, b, n - 1);
      var u, v := ring[Before(|ring|, n - 1)], ring[n - 1];
      assert InBox(u, b) && InBox(v, b);
      if Straddles(u, v, p.y) {
        CrossingBetween(u, v, p.y);
      }
    }
  }

  /** A point outside a box around the ring is not inside the ring. */
  lemma OutsideBoxNotInside(p: Point, ring: seq<Point>, b: Box)
    requires Bounds(b, ring) && !InBox(p, b)
    ensures !IsInside(p, ring)
  {
    if |ring| >= 4 {
      CrossingsOutside(p, ring, b, |ring|);
      StraddlesEvenly(p.y, ring, |ring|);
    }
  }

  /** Whole-box rejection: no probe is in a ring whose box misses the probes' box. */
  lemma DisjointBoxes(p: Point, ring: seq<Point>, r: Box, l: Box)
    requires Bounds(r, ring) && InBox(p, l)
    requires r.maxX < l.minX || r.minX > l.maxX || r.maxY < l.minY || r.minY > l.maxY
    ensures !IsInside(p, ring)
  {
    OutsideBoxNotInside(p, ring, r);
  }

  // ------------------------------------------------------- the probe index

  /** The plain count: probes inside the ring. */
  function RingCount(probes: seq<Point>, ring: seq<Point>, n: nat): nat
    requires n <= |probes|
  {
    if n == 0 then 0 else RingCount(probes, ring, n - 1) + (if IsInside(probes[n - 1], ring) then 1 else 0)
  }

  datatype Polygon = Polygon(outer: seq<Point>, holes: seq<seq<Point>>)

  /** In the outer ring and in no hole. */
  predicate InPolygon(p: Point, w: Polygon) {
    IsInside(p, w.outer) && forall h :: 0 <= h < |w.holes| ==> !IsInside(p, w.holes[h])
  }

  function PolygonCount(probes: seq<Point>, w: Polygon, n: nat): nat
    requires n <= |probes|
  {
    if n == 0 then 0 else PolygonCount(probes, w, n - 1) + (if InPolygon(probes[n - 1], w) then 1 else 0)
  }

  lemma {:induction false} RingCountIs(probes: seq<Point>, ring: seq<Point>, n: nat)
    requires n <= |probes|
    ensures RingCount(probes, ring, n) == |set i | 0 <= i < n && IsInside(probes[i], ring)|
  {
    hide IsInside;
    var now := set i | 0 <= i < n && IsInside(probes[i], ring);
    if n > 0 {
      RingCountIs(probes, ring, n - 1);
      var before := set i | 0 <= i < n - 1 && IsInside(probes[i], ring);
      assert now == before + if IsInside(probes[n - 1], ring) then {n - 1} else {};
    } else {
      assert now == {};
    }
  }

  lemma {:induction false} PolygonCountIs(probes: seq<Point>, w: Polygon, n: nat)
    requires n <= |probes|
    ensures PolygonCount(probes, w, n) == |set i | 0 <= i < n && InPolygon(probes[i], w)|
  {
    hide InPolygon;
    var now := set i | 0 <= i < n && InPolygon(probes[i], w);
    if n > 0 {
      PolygonCountIs(probes, w, n - 1);
      var before := set i | 0 <= i < n - 1 && InPolygon(probes[i], w);
      assert now == before + if InPolygon(probes[n - 1], w) then {n - 1} else {};
    } else {
      assert now == {};
    }
  }

  lemma {:induction false} NoneInRing(probes: seq<Point>, ring: seq<Point>, n: nat)
    requires n <= |probes| && forall i :: 0 <= i < n ==> !IsInside(probes[i], ring)
    ensures RingCount(probes, ring, n) == 0
  {
    if n > 0 {
      NoneInRing(probes, ring, n - 1);
    }
  }

  lemma {:induction false} NoneInPolygon(probes: seq<Point>, w: Polygon, n: nat)
    requires n <= |probes| && forall i :: 0 <= i < n ==> !IsInside(probes[i], w.outer)
    ensures PolygonCount(probes, w, n) == 0
  {
    if n > 0 {
      NoneInPolygon(probes, w, n - 1);
    }
  }

  class LandProbeIndex {
    const probes: seq<Point>
    const box: Box

    ghost predicate Valid()
      reads this
    {
      |probes| > 0 ==> Bounds(box, probes)
    }

    constructor (probes: seq<Point>)
      ensures Valid() && this.probes == probes
    {
      var b := Box(0.0, 0.0, 0.0, 0.0);
      if |probes| > 0 {
        b := BoxOf(probes);
      }
      this.probes := probes;
      this.box := b;
    }

    predicate Misses(r: Box) {
      r.maxX < box.minX || r.minX > box.maxX || r.maxY < box.minY || r.minY > box.maxY
    }

    lemma MissedRing(ring: seq<Point>, r: Box)
      requires Valid() && Bounds(r, ring) && Misses(r)
      ensures forall i :: 0 <= i < |probes| ==> !IsInside(probes[i], ring)
    {
      forall i | 0 <= i < |probes|
        ensures !IsInside(probes[i], ring)
      {
        DisjointBoxes(probes[i], ring, r, box);
      }
    }

    /** RingHits: equal to the unfiltered count for every ring. */
    method RingHits(ring: seq<Point>) returns (hits: nat)
      requires Valid()
      ensures hits == |set i | 0 <= i < |probes| && IsInside(probes[i], ring)|
    {
      hide IsInside;
      RingCountIs(probes, ring, |probes|);
      if |ring| == 0 || |probes| == 0 {
        EmptyRingHoldsNothing(ring);
        NoneInRing(probes, ring, |probes|);
        return 0;
      }
      var r := BoxOf(ring);
      if Misses(r) {
        MissedRing(ring, r);
        NoneInRing(probes, ring, |probes|);
        return 0;
      }
      hits := 0;
      for i := 0 to |probes|
        invariant hits == RingCount(probes, ring, i)
      {
        var p := probes[i];
        if p.x < r.minX || p.x > r.maxX || p.y < r.minY || p.y > r.maxY {
          OutsideBoxNotInside(p, ring, r);
          continue;
        }
        var inside := PointInRing(p, ring);
        if inside {
          hits := hits + 1;
        }
      }
    }

    /** PolygonHits: equal to the unfiltered count of probes in the outer ring and in no hole. */
    method PolygonHits(w: Polygon) returns (hits: nat)
      requires Valid()
      ensures hits == |set i | 0 <= i < |probes| && IsInside(probes[i], w.outer) &&
                               !(exists hole :: hole in w.holes && IsInside(probes[i], hole))|
    {
      hide IsInside;
      assert (set i | 0 <= i < |probes| && InPolygon(probes[i], w)) ==
             set i | 0 <= i < |probes| && IsInside(probes[i], w.outer) &&
                     !(exists hole :: hole in w.holes && IsInside(probes[i], hole));
      PolygonCountIs(probes, w, |probes|);
      if |w.outer| == 0 || |probes| == 0 {
        EmptyRingHoldsNothing(w.outer);
        NoneInPolygon(probes, w, |probes|);
        return 0;
      }
      var r := BoxOf(w.outer);
      if Misses(r) {
        MissedRing(w.outer, r);
        NoneInPolygon(probes, w, |probes|);
        return 0;
      }
      hits := 0;
      for i := 0 to |probes|
        invariant hits == PolygonCount(probes, w, i)
      {
        var p := probes[i];
        if p.x < r.minX || p.x > r.maxX || p.y < r.minY || p.y > r.maxY {
          OutsideBoxNotInside(p, w.outer, r);
          continue;
        }
        var inside := PointInRing(p, w.outer);
        if !inside {
          continue;
        }
        var inHole := false;
        for h := 0 to |w.holes|
          invariant !inHole
          invariant forall k :: 0 <= k < h ==> !IsInside(p, w.holes[k])
        {
          inHole := PointInRing(p, w.holes[h]);
          if inHole {
            break;
          }
        }
        if inHole {
          continue;
        }
        hits := hits + 1;
      }
    }
  }

  lemma EmptyRingHoldsNothing(ring: seq<Point>)
    ensures |ring| == 0 ==> forall p :: !IsInside(p, ring)
  {
  }
}
