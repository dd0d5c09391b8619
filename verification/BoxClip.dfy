/** Parametric clipping of polylines to a bounding box, internal/ingest/water.go: Liang-Barsky is
    exact, and clipping a chain keeps every in-box piece of it once and nothing else. */
module BoxClip {
  import opened RealMath
  import opened RingStitching

  datatype BBox = BBox(south: real, west: real, north: real, east: real)

  predicate InBBox(p: Point, b: BBox) {
    b.west <= p.x <= b.east && b.south <= p.y <= b.north
  }

  predicate OnEdge(p: Point, b: BBox) {
    InBBox(p, b) && (p.x == b.west || p.x == b.east || p.y == b.south || p.y == b.north)
  }

  /** The point of the segment from a to b at parameter t. */
  function PointAt(a: Point, b: Point, t: real): Point {
    Point(a.x + Part(t, b.x - a.x), a.y + Part(t, b.y - a.y))
  }

  // ------------------------------------------------------------- one half-plane

  /** One side of the box, as denom * t >= num. */
  datatype Side = Side(num: real, denom: real)

  ghost predicate Meets(c: Side, t: real) {
    Part(t, c.denom) >= c.num
  }

  lemma MeetsIff(c: Side, t: real)
    ensures c.denom > 0.0 ==> (Meets(c, t) <==> t >= c.num / c.denom)
    ensures c.denom < 0.0 ==> (Meets(c, t) <==> t <= c.num / c.denom)
    ensures c.denom == 0.0 ==> (Meets(c, t) <==> c.num <= 0.0)
    ensures c.denom != 0.0 ==> Part(c.num / c.denom, c.denom) == c.num
  {
    if c.denom != 0.0 {
      var u := c.num / c.denom;
      assert u * c.denom == c.num;
      if c.denom > 0.0 {
        Ordered(u, t, c.denom);
      } else {
        var d := -c.denom;
        Ordered(t, u, d);
        assert t * d == -(t * c.denom) && u * d == -(u * c.denom);
      }
    }
  }

  lemma Ordered(u: real, t: real, d: real)
    requires d > 0.0
    ensures u <= t <==> u * d <= t * d
  {
    if u <= t {
      MulMonotone(u, t, d, u * d, t * d);
    } else {
      MulMonotone(t, u, d, t * d, u * d);
    }
  }

  /** The window [t0, t1] is exactly what the sides cut out of [0, 1]. */
  ghost predicate Window(sides: seq<Side>, t0: real, t1: real) {
    && 0.0 <= t0 <= t1 <= 1.0
    && (forall t :: 0.0 <= t <= 1.0 ==> (AllMeet(sides, t) <==> t0 <= t <= t1))
    && (t0 > 0.0 ==> exists k :: 0 <= k < |sides| && Part(t0, sides[k].denom) == sides[k].num)
    && (t1 < 1.0 ==> exists k :: 0 <= k < |sides| && Part(t1, sides[k].denom) == sides[k].num)
  }

  ghost predicate AllMeet(sides: seq<Side>, t: real) {
    forall k :: 0 <= k < |sides| ==> Meets(sides[k], t)
  }

  ghost predicate Empty(sides: seq<Side>) {
    forall t :: 0.0 <= t <= 1.0 ==> !AllMeet(sides, t)
  }

  /** clipEdge: narrows the window by one side, or reports that nothing is left. */
  method ClipEdge(c: Side, t0: real, t1: real, ghost done: seq<Side>) returns (ok: bool, u0: real, u1: real)
    requires Window(done, t0, t1)
    ensures ok ==> Window(done + [c], u0, u1)
    ensures !ok ==> Empty(done + [c])
  {
    hide Meets, AllMeet;
    u0, u1 := t0, t1;
    if c.denom == 0.0 {
      ok := c.num <= 0.0;
    } else {
      var t := c.num / c.denom;
      if c.denom > 0.0 {
        ok := t <= t1;
        u0 := if t > t0 then t else t0;
      } else {
        ok := t >= t0;
        u1 := if t < t1 then t else t1;
      }
    }
    if ok {
      Narrowed(c, t0, t1, u0, u1, done);
    } else {
      Emptied(c, t0, t1, done);
    }
  }

  lemma AllMeetGrows(done: seq<Side>, c: Side, t: real)
    ensures AllMeet(done + [c], t) <==> AllMeet(done, t) && Meets(c, t)
  {
    var all := done + [c];
    assert all[|done|] == c;
    if AllMeet(all, t) {
      forall k | 0 <= k < |done|
        ensures Meets(done[k], t)
      {
        assert all[k] == done[k];
      }
    }
  }

  lemma Narrowed(c: Side, t0: real, t1: real, u0: real, u1: real, done: seq<Side>)
    requires Window(done, t0, t1)
    requires c.denom == 0.0 ==> c.num <= 0.0 && u0 == t0 && u1 == t1
    requires c.denom > 0.0 ==> c.num / c.denom <= t1 && u0 == Max(t0, c.num / c.denom) && u1 == t1
    requires c.denom < 0.0 ==> c.num / c.denom >= t0 && u1 == Min(t1, c.num / c.denom) && u0 == t0
    ensures Window(done + [c], u0, u1)
  {
    hide Meets, AllMeet, Part;
    var all := done + [c];
    assert all[|done|] == c;
    MeetsIff(c, 0.0);
    forall t | 0.0 <= t <= 1.0
      ensures AllMeet(all, t) <==> u0 <= t <= u1
    {
      AllMeetGrows(done, c, t);
      MeetsIff(c, t);
    }
    if u0 > 0.0 && u0 == t0 {
      var k :| 0 <= k < |done| && Part(t0, done[k].denom) == done[k].num;
      assert all[k] == done[k];
    }
    if u1 < 1.0 && u1 == t1 {
      var k :| 0 <= k < |done| && Part(t1, done[k].denom) == done[k].num;
      assert all[k] == done[k];
    }
  }

  lemma Emptied(c: Side, t0: real, t1: real, done: seq<Side>)
    requires Window(done, t0, t1)
    requires c.denom == 0.0 ==> c.num > 0.0
    requires c.denom > 0.0 ==> c.num / c.denom > t1
    requires c.denom < 0.0 ==> c.num / c.denom < t0
    ensures Empty(done + [c])
  {
    hide Meets, AllMeet;
    forall t | 0.0 <= t <= 1.0
      ensures !AllMeet(done + [c], t)
    {
      AllMeetGrows(done, c, t);
      MeetsIff(c, t);
    }
  }

  // ---------------------------------------------------------------- segments

  function Sides(a: Point, b: Point, box: BBox): seq<Side> {
    var dx, dy := b.x - a.x, b.y - a.y;
    [Side(box.west - a.x, dx), Side(a.x - box.east, -dx), Side(box.south - a.y, dy), Side(a.y - box.north, -dy)]
  }

  lemma NegatedPart(t: real, d: real)
    ensures Part(t, -d) == -Part(t, d)
  {
  }

  lemma SidesAreTheBox(a: Point, b: Point, box: BBox, t: real)
    ensures AllMeet(Sides(a, b, box), t) <==> InBBox(PointAt(a, b, t), box)
  {
    hide Part;
    NegatedPart(t, b.x - a.x);
    NegatedPart(t, b.y - a.y);
    var s := Sides(a, b, box);
    assert AllMeet(s, t) <==> Meets(s[0], t) && Meets(s[1], t) && Meets(s[2], t) && Meets(s[3], t);
  }

  lemma SideIsEdge(a: Point, b: Point, box: BBox, t: real, k: nat)
    requires k < 4 && Part(t, Sides(a, b, box)[k].denom) == Sides(a, b, box)[k].num
    requires InBBox(PointAt(a, b, t), box)
    ensures OnEdge(PointAt(a, b, t), box)
  {
    hide Part;
    NegatedPart(t, b.x - a.x);
    NegatedPart(t, b.y - a.y);
  }

  /** [t0, t1] is exactly the set of in-box parameters of the segment. */
  ghost predicate ExactClip(a: Point, b: Point, box: BBox, t0: real, t1: real) {
    && 0.0 <= t0 <= t1 <= 1.0
    && forall t :: 0.0 <= t <= 1.0 ==> (InBBox(PointAt(a, b, t), box) <==> t0 <= t <= t1)
  }

  /** No point of the segment is in the box. */
  ghost predicate Outside(a: Point, b: Point, box: BBox) {
    forall t :: 0.0 <= t <= 1.0 ==> !InBBox(PointAt(a, b, t), box)
  }

  lemma EndPoints(a: Point, b: Point)
    ensures PointAt(a, b, 0.0) == a && PointAt(a, b, 1.0) == b
  {
  }

  /** liangBarsky: succeeds exactly when the segment meets the box; its parameters are exactly the
      in-box ones, and an endpoint that moved lies on an edge of the box. */
  method LiangBarsky(a: Point, b: Point, box: BBox)
    returns (p: Point, q: Point, ok: bool, ghost t0: real, ghost t1: real)
    ensures ok <==> !Outside(a, b, box)
    ensures ok ==> ExactClip(a, b, box, t0, t1) && p == PointAt(a, b, t0) && q == PointAt(a, b, t1)
    ensures ok && p != a ==> OnEdge(p, box)
    ensures ok && q != b ==> OnEdge(q, box)
  {
    hide AllMeet, Part, OnEdge;
    var dx, dy := b.x - a.x, b.y - a.y;
    var sides := [Side(box.west - a.x, dx), Side(a.x - box.east, -dx), Side(box.south - a.y, dy),
                  Side(a.y - box.north, -dy)];
    var lo, hi := 0.0, 1.0;
    WholeWindow();
    p, q, t0, t1 := a, b, 0.0, 1.0;
    for i := 0 to 4
      invariant Window(sides[..i], lo, hi)
    {
      var fine, u0, u1 := ClipEdge(sides[i], lo, hi, sides[..i]);
      assert sides[..i] + [sides[i]] == sides[..i + 1];
      if !fine {
        MissedBox(a, b, box, i + 1);
        ok := false;
        return;
      }
      lo, hi := u0, u1;
    }
    assert sides[..4] == sides;
    if lo == 0.0 {
      p := a;
    } else {
      p := Point(a.x + Part(lo, dx), a.y + Part(lo, dy));
    }
    if hi == 1.0 {
      q := b;
    } else {
      q := Point(a.x + Part(hi, dx), a.y + Part(hi, dy));
    }
    ok, t0, t1 := true, lo, hi;
    EndPoints(a, b);
    ClippedExactly(a, b, box, lo, hi);
  }

  lemma WholeWindow()
    ensures Window([], 0.0, 1.0)
  {
  }

  lemma MissedBox(a: Point, b: Point, box: BBox, n: nat)
    requires n <= 4 && Empty(Sides(a, b, box)[..n])
    ensures Outside(a, b, box)
  {
    hide Part, PointAt, InBBox;
    var s := Sides(a, b, box);
    forall t | 0.0 <= t <= 1.0
      ensures !InBBox(PointAt(a, b, t), box)
    {
      SidesAreTheBox(a, b, box, t);
      assert !AllMeet(s[..n], t);
    }
  }

  lemma ClippedExactly(a: Point, b: Point, box: BBox, t0: real, t1: real)
    requires Window(Sides(a, b, box), t0, t1)
    ensures ExactClip(a, b, box, t0, t1) && !Outside(a, b, box)
    ensures t0 > 0.0 ==> OnEdge(PointAt(a, b, t0), box)
    ensures t1 < 1.0 ==> OnEdge(PointAt(a, b, t1), box)
  {
    hide Part, AllMeet, PointAt, InBBox, OnEdge;
    var s := Sides(a, b, box);
    forall t | 0.0 <= t <= 1.0
      ensures InBBox(PointAt(a, b, t), box) <==> t0 <= t <= t1
    {
      SidesAreTheBox(a, b, box, t);
    }
    assert InBBox(PointAt(a, b, t0), box) && InBBox(PointAt(a, b, t1), box);
    if t0 > 0.0 {
      var k :| 0 <= k < |s| && Part(t0, s[k].denom) == s[k].num;
      SideIsEdge(a, b, box, t0, k);
    }
    if t1 < 1.0 {
      var k :| 0 <= k < |s| && Part(t1, s[k].denom) == s[k].num;
      SideIsEdge(a, b, box, t1, k);
    }
  }

  // ------------------------------------------------------------------ chains

  /** Segment i of a chain runs from From to To. */
  function From(chain: seq<Point>, i: nat): Point
    requires 0 < i < |chain|
  {
    chain[i - 1]
  }

  function To(chain: seq<Point>, i: nat): Point
    requires 0 < i < |chain|
  {
    chain[i]
  }

  /** The exact clip of one segment of a chain: segment i from parameter t0 to t1. */
  datatype Piece = Piece(i: nat, t0: real, t1: real)

  ghost predicate GoodPiece(chain: seq<Point>, box: BBox, g: Piece) {
    0 < g.i < |chain| && ExactClip(From(chain, g.i), To(chain, g.i), box, g.t0, g.t1)
  }

  /** A sub-chain: its edges are, in order, the exact clips of consecutive segments. */
  ghost predicate GoodRun(chain: seq<Point>, box: BBox, run: seq<Point>, pieces: seq<Piece>) {
    && |run| == |pieces| + 1 && |pieces| > 0
    && (forall k :: 0 <= k < |pieces| ==> GoodPiece(chain, box, pieces[k]) && Traces(chain, run, pieces, k))
    && (forall k :: 0 < k < |pieces| ==> pieces[k].i == pieces[k - 1].i + 1)
  }

  /** Edge k of the run goes from the piece's first to its last in-box point. */
  ghost predicate Traces(chain: seq<Point>, run: seq<Point>, pieces: seq<Piece>, k: nat)
    requires k < |pieces| && k + 1 < |run|
  {
    var g := pieces[k];
    && 0 < g.i < |chain|
    && run[k] == PointAt(From(chain, g.i), To(chain, g.i), g.t0)
    && run[k + 1] == PointAt(From(chain, g.i), To(chain, g.i), g.t1)
  }

  function Flatten(groups: seq<seq<Piece>>): seq<Piece> {
    if groups == [] then [] else Flatten(groups[..|groups| - 1]) + groups[|groups| - 1]
  }

  lemma FlattenGrows(groups: seq<seq<Piece>>, g: seq<Piece>)
    ensures Flatten(groups + [g]) == Flatten(groups) + g
  {
    assert (groups + [g])[..|groups + [g]| - 1] == groups;
  }

  /** The pieces name, in increasing order and once each, exactly the segments before n that meet
      the box. */
  ghost predicate Covers(chain: seq<Point>, box: BBox, pieces: seq<Piece>, n: nat) {
    && n <= |chain|
    && (forall k :: 0 <= k < |pieces| ==> 0 < pieces[k].i < n)
    && (forall j, k :: 0 <= j < k < |pieces| ==> pieces[j].i < pieces[k].i)
    && (forall i :: 0 < i < n && !Outside(From(chain, i), To(chain, i), box) ==>
          exists k :: 0 <= k < |pieces| && pieces[k].i == i)
  }

  lemma CoversMissed(chain: seq<Point>, box: BBox, pieces: seq<Piece>, n: nat)
    requires Covers(chain, box, pieces, n) && 0 < n < |chain| && Outside(From(chain, n), To(chain, n), box)
    ensures Covers(chain, box, pieces, n + 1)
  {
    hide Outside;
  }

  lemma CoversHit(chain: seq<Point>, box: BBox, pieces: seq<Piece>, n: nat, g: Piece)
    requires Covers(chain, box, pieces, n) && 0 < n < |chain| && g.i == n
    ensures Covers(chain, box, pieces + [g], n + 1)
  {
    hide Outside;
    var all := pieces + [g];
    forall i | 0 < i < n + 1 && !Outside(From(chain, i), To(chain, i), box)
      ensures exists k :: 0 <= k < |all| && all[k].i == i
    {
      if i == n {
        assert all[|pieces|].i == i;
      } else {
        var k :| 0 <= k < |pieces| && pieces[k].i == i;
        assert all[k].i == i;
      }
    }
  }

  /** All runs so far, with the pieces they trace. */
  ghost predicate GoodRuns(chain: seq<Point>, box: BBox, runs: seq<seq<Point>>, pieces: seq<seq<Piece>>) {
    |runs| == |pieces| && forall k :: 0 <= k < |runs| ==> GoodRun(chain, box, runs[k], pieces[k])
  }

  lemma StartRun(chain: seq<Point>, box: BBox, g: Piece, p: Point, q: Point)
    requires GoodPiece(chain, box, g)
    requires p == PointAt(From(chain, g.i), To(chain, g.i), g.t0) &&
             q == PointAt(From(chain, g.i), To(chain, g.i), g.t1)
    ensures GoodRun(chain, box, [p, q], [g])
  {
    hide ExactClip, PointAt;
    assert [p, q][0] == p && [p, q][0 + 1] == q && [g][0] == g;
  }

  lemma ExtendRun(chain: seq<Point>, box: BBox, run: seq<Point>, pieces: seq<Piece>, g: Piece, q: Point)
    requires GoodRun(chain, box, run, pieces) && GoodPiece(chain, box, g)
    requires g.i == pieces[|pieces| - 1].i + 1
    requires Last(run) == PointAt(From(chain, g.i), To(chain, g.i), g.t0) &&
             q == PointAt(From(chain, g.i), To(chain, g.i), g.t1)
    ensures GoodRun(chain, box, run + [q], pieces + [g])
  {
    hide ExactClip, PointAt;
    var r, ps := run + [q], pieces + [g];
    assert r[|run|] == q && r[|run| - 1] == Last(run) && ps[|pieces|] == g;
    forall k | 0 <= k < |ps|
      ensures GoodPiece(chain, box, ps[k]) && Traces(chain, r, ps, k)
    {
      if k < |pieces| {
        assert ps[k] == pieces[k] && r[k] == run[k] && r[k + 1] == run[k + 1];
        assert Traces(chain, run, pieces, k);
      }
    }
  }

  // ------------------------------------------------------- where runs begin

  ghost predicate Begins(chain: seq<Point>, box: BBox, p: Point)
    requires chain != []
  {
    p == chain[0] || OnEdge(p, box)
  }

  /** A run begins at the chain's first point or on the box, and stops at its last or on the box. */
  ghost predicate Bounded(chain: seq<Point>, box: BBox, run: seq<Point>)
    requires chain != []
  {
    run != [] && Begins(chain, box, run[0]) && (Last(run) == Last(chain) || OnEdge(Last(run), box))
  }

  /** Between segments, a run is open exactly when the vertex reached is in the box, and ends there. */
  ghost predicate Joined(chain: seq<Point>, box: BBox, current: seq<Point>, i: nat)
    requires 0 < i <= |chain|
  {
    && (current != [] ==> Last(current) == chain[i - 1] && InBBox(chain[i - 1], box) && Begins(chain, box, current[0]))
    && (current == [] && i > 1 ==> !InBBox(chain[i - 1], box))
  }

  /** The next piece continues an open run; where none is open, it enters through the box. */
  lemma Continues(chain: seq<Point>, box: BBox, current: seq<Point>, i: nat, p: Point, q: Point, t0: real, t1: real)
    requires 0 < i < |chain| && Joined(chain, box, current, i)
    requires ExactClip(From(chain, i), To(chain, i), box, t0, t1)
    requires p == PointAt(From(chain, i), To(chain, i), t0) && q == PointAt(From(chain, i), To(chain, i), t1)
    requires p != From(chain, i) ==> OnEdge(p, box)
    ensures current != [] ==> p == Last(current)
    ensures current == [] ==> Begins(chain, box, p)
    ensures q == chain[i] <==> InBBox(chain[i], box)
  {
    hide PointAt;
    var a, b := From(chain, i), To(chain, i);
    EndPoints(a, b);
    assert InBBox(PointAt(a, b, 0.0), box) <==> t0 <= 0.0;
    assert InBBox(PointAt(a, b, 1.0), box) <==> t1 >= 1.0;
    assert InBBox(PointAt(a, b, t0), box) && InBBox(PointAt(a, b, t1), box);
  }

  /** A segment that misses the box leaves from and arrives at vertices outside it. */
  lemma Misses(chain: seq<Point>, box: BBox, current: seq<Point>, i: nat)
    requires 0 < i < |chain| && Joined(chain, box, current, i) && Outside(From(chain, i), To(chain, i), box)
    ensures current == [] && Joined(chain, box, [], i + 1)
  {
    hide PointAt;
    EndPoints(From(chain, i), To(chain, i));
    assert !InBBox(PointAt(From(chain, i), To(chain, i), 0.0), box);
    assert !InBBox(PointAt(From(chain, i), To(chain, i), 1.0), box);
  }

  /** The pieces account for a clipping: each run traces its own, and together they cover the chain. */
  ghost predicate Clips(chain: seq<Point>, box: BBox, runs: seq<seq<Point>>, pieces: seq<seq<Piece>>) {
    GoodRuns(chain, box, runs, pieces) && (|chain| > 0 ==> Covers(chain, box, Flatten(pieces), |chain|))
  }

  /** clipChainToBBox: every emitted edge is the exact in-box part of one segment, and every
      segment that meets the box contributes its part exactly once, in order; so the runs are the
      part of the polyline that lies in the box, broken only where the polyline leaves the box. */
  method ClipChainToBBox(chain: seq<Point>, box: BBox) returns (runs: seq<seq<Point>>)
    ensures exists pieces: seq<seq<Piece>> :: Clips(chain, box, runs, pieces)
    ensures forall p :: OnRuns(runs, p) <==>
                        OnPolyline(chain, p) && box.west <= p.x <= box.east && box.south <= p.y <= box.north
    ensures chain != [] ==> forall run :: run in runs ==> Bounded(chain, box, run)
  {
    hide ExactClip, Outside, PointAt, GoodRun, GoodPiece, Covers, Flatten, OnRuns, OnPolyline, OnEdge, InBBox;
    runs := [];
    ghost var pieces: seq<seq<Piece>> := [];
    InBoxIs(box);
    NothingCovered(chain, box);
    if |chain| < 2 {
      assert Clips(chain, box, runs, pieces);
      RunsAreTheBoxPart(chain, box, runs, pieces);
      return;
    }
    var current: seq<Point> := [];
    ghost var open: seq<Piece> := [];
    for i := 1 to |chain|
      invariant GoodRuns(chain, box, runs, pieces) && Joined(chain, box, current, i)
      invariant forall run :: run in runs ==> Bounded(chain, box, run)
      invariant current == [] <==> open == []
      invariant current != [] ==> GoodRun(chain, box, current, open) && open[|open| - 1].i == i - 1
      invariant Covers(chain, box, Flatten(pieces) + open, i)
    {
      var p, q, ok, t0, t1 := LiangBarsky(From(chain, i), To(chain, i), box);
      if !ok {
        Misses(chain, box, current, i);
        CoversMissed(chain, box, Flatten(pieces) + open, i);
        runs, pieces := Flush(chain, box, runs, current, pieces, open, i + 1);
        current, open := [], [];
        continue;
      }
      ghost var g := Piece(i, t0, t1);
      Continues(chain, box, current, i, p, q, t0, t1);
      PieceIsGood(chain, box, g);
      CoversHit(chain, box, Flatten(pieces) + open, i, g);
      assert Flatten(pieces) + open + [g] == Flatten(pieces) + (open + [g]);
      if |current| == 0 {
        current := [p];
      } else if p != current[|current| - 1] {
        // The source starts a new run here; without rounding a piece always starts where the open run ends.
        assert false;
      }
      if open == [] {
        StartRun(chain, box, g, p, q);
        assert [p] + [q] == [p, q] && open + [g] == [g];
      } else {
        ExtendRun(chain, box, current, open, g, q);
      }
      current := current + [q];
      open := open + [g];
      if q != chain[i] {
        runs, pieces := Flush(chain, box, runs, current, pieces, open, i + 1);
        current, open := [], [];
      }
    }
    runs, pieces := Flush(chain, box, runs, current, pieces, open, |chain|);
    assert Clips(chain, box, runs, pieces);
    RunsAreTheBoxPart(chain, box, runs, pieces);
  }

  /** flush: closes the current run, which has an edge whenever it is not empty. */
  method Flush(chain: seq<Point>, box: BBox, runs: seq<seq<Point>>, current: seq<Point>, ghost pieces: seq<seq<Piece>>,
               ghost open: seq<Piece>, ghost n: nat)
    returns (runs': seq<seq<Point>>, ghost pieces': seq<seq<Piece>>)
    requires GoodRuns(chain, box, runs, pieces) && (current == [] <==> open == [])
    requires current != [] ==> GoodRun(chain, box, current, open)
    requires Covers(chain, box, Flatten(pieces) + open, n)
    ensures GoodRuns(chain, box, runs', pieces')
    ensures Covers(chain, box, Flatten(pieces') + [], n) && Covers(chain, box, Flatten(pieces'), n)
    ensures runs' == if current == [] then runs else runs + [current]
  {
    hide GoodPiece, Traces, Covers, Flatten;
    if |current| >= 2 {
      FlattenGrows(pieces, open);
      runs', pieces' := runs + [current], pieces + [open];
    } else {
      runs', pieces' := runs, pieces;
    }
    assert Flatten(pieces') + [] == Flatten(pieces');
    assert Flatten(pieces') == Flatten(pieces) + open;
  }

  lemma InBoxIs(box: BBox)
    ensures forall p :: InBBox(p, box) <==> box.west <= p.x <= box.east && box.south <= p.y <= box.north
  {
  }

  lemma NothingCovered(chain: seq<Point>, box: BBox)
    ensures |chain| > 0 ==> Covers(chain, box, Flatten([]) + [], 1)
    ensures |chain| == 1 ==> Covers(chain, box, Flatten([]), 1)
  {
    assert Flatten([]) + [] == [];
  }

  lemma PieceIsGood(chain: seq<Point>, box: BBox, g: Piece)
    requires 0 < g.i < |chain| && ExactClip(From(chain, g.i), To(chain, g.i), box, g.t0, g.t1)
    ensures GoodPiece(chain, box, g)
  {
  }

  /** Some emitted edge is the part of segment i that holds parameter t. */
  ghost predicate Emitted(pieces: seq<seq<Piece>>, i: nat, t: real) {
    exists r, k :: 0 <= r < |pieces| && 0 <= k < |pieces[r]| && Holds(pieces[r][k], i, t)
  }

  ghost predicate Holds(g: Piece, i: nat, t: real) {
    g.i == i && g.t0 <= t && t <= g.t1
  }

  /** Hence a point of the polyline is in the box exactly when an emitted edge carries it. */
  lemma EmittedIsInBoxPart(chain: seq<Point>, box: BBox, runs: seq<seq<Point>>, pieces: seq<seq<Piece>>, i: nat,
                           t: real)
    requires |chain| > 0 && GoodRuns(chain, box, runs, pieces) && Covers(chain, box, Flatten(pieces), |chain|)
    requires 0 < i < |chain| && 0.0 <= t <= 1.0
    ensures InBBox(PointAt(From(chain, i), To(chain, i), t), box) <==> Emitted(pieces, i, t)
  {
    hide InBBox;
    var a, b := From(chain, i), To(chain, i);
    if InBBox(PointAt(a, b, t), box) {
      assert !Outside(a, b, box);
      var flat := Flatten(pieces);
      var m :| 0 <= m < |flat| && flat[m].i == i;
      var r, k := Unflatten(pieces, m);
      assert GoodRun(chain, box, runs[r], pieces[r]);
      assert GoodPiece(chain, box, pieces[r][k]);
      assert Holds(pieces[r][k], i, t);
    }
    if Emitted(pieces, i, t) {
      var r, k :| 0 <= r < |pieces| && 0 <= k < |pieces[r]| && Holds(pieces[r][k], i, t);
      assert GoodRun(chain, box, runs[r], pieces[r]);
      assert GoodPiece(chain, box, pieces[r][k]);
    }
  }

  lemma {:induction false} Unflatten(groups: seq<seq<Piece>>, m: nat) returns (r: nat, k: nat)
    requires m < |Flatten(groups)|
    ensures r < |groups| && k < |groups[r]| && groups[r][k] == Flatten(groups)[m]
  {
    var front := groups[..|groups| - 1];
    if m < |Flatten(front)| {
      r, k := Unflatten(front, m);
    } else {
      r, k := |groups| - 1, m - |Flatten(front)|;
    }
  }

  // ------------------------------------------------------------- as point sets

  /** p lies on the polyline, at parameter t of segment i. */
  ghost predicate At(chain: seq<Point>, i: nat, t: real, p: Point) {
    0 < i < |chain| && 0.0 <= t <= 1.0 && p == PointAt(From(chain, i), To(chain, i), t)
  }

  /** In coordinates: p divides the stretch from one vertex to the next. */
  lemma AtIs(chain: seq<Point>, i: nat, t: real, p: Point)
    ensures At(chain, i, t, p) <==>
            && 0 < i < |chain| && 0.0 <= t <= 1.0
            && p.x == (1.0 - t) * chain[i - 1].x + t * chain[i].x
            && p.y == (1.0 - t) * chain[i - 1].y + t * chain[i].y
  {
    if 0 < i < |chain| {
      Divides(chain[i - 1].x, chain[i].x, t);
      Divides(chain[i - 1].y, chain[i].y, t);
    }
  }

  lemma Divides(a: real, b: real, t: real)
    ensures a + Part(t, b - a) == (1.0 - t) * a + t * b
  {
  }

  ghost predicate OnPolyline(chain: seq<Point>, p: Point) {
    exists i: nat, t: real :: At(chain, i, t, p)
  }

  ghost predicate OnRuns(runs: seq<seq<Point>>, p: Point) {
    exists r :: 0 <= r < |runs| && OnPolyline(runs[r], p)
  }

  /** A point of a segment's sub-segment, by the parameter of either. */
  lemma Reparametrized(a: Point, b: Point, t0: real, t1: real, u: real, t: real)
    requires t == t0 + Part(t1 - t0, u)
    ensures PointAt(PointAt(a, b, t0), PointAt(a, b, t1), u) == PointAt(a, b, t)
  {
    Affine(a.x, b.x - a.x, t0, t1, u, t);
    Affine(a.y, b.y - a.y, t0, t1, u, t);
  }

  lemma Affine(a: real, d: real, t0: real, t1: real, u: real, t: real)
    requires t == t0 + Part(t1 - t0, u)
    ensures (a + Part(t0, d)) + Part(u, (a + Part(t1, d)) - (a + Part(t0, d))) == a + Part(t, d)
  {
    var w := t1 - t0;
    assert Part(t1, d) - Part(t0, d) == w * d;
    assert u * (w * d) == (w * u) * d;
    assert t * d == t0 * d + (w * u) * d;
  }

  lemma UnitOf(t0: real, t1: real, t: real) returns (u: real)
    requires t0 <= t <= t1
    ensures 0.0 <= u <= 1.0 && t == t0 + Part(t1 - t0, u)
  {
    if t1 == t0 {
      u := 0.0;
    } else {
      u := FractionOf(t - t0, t1 - t0);
    }
  }

  lemma FractionOf(part: real, whole: real) returns (u: real)
    requires 0.0 <= part <= whole && whole > 0.0
    ensures 0.0 <= u <= 1.0 && Part(whole, u) == part
  {
    u := part / whole;
    assert u * whole == part;
    if u > 1.0 {
      MulMonotone(1.0, u, whole, whole, u * whole);
    }
    if u < 0.0 {
      MulMonotone(u, 0.0, whole, u * whole, 0.0);
    }
  }

  lemma UnitRange(t0: real, t1: real, u: real)
    requires t0 <= t1 && 0.0 <= u <= 1.0
    ensures t0 <= t0 + Part(t1 - t0, u) <= t1
  {
    UnitShare(t1 - t0, u, Part(t1 - t0, u));
  }

  /** A point on a run is on the polyline and in the box. */
  lemma RunPointIsInBox(chain: seq<Point>, box: BBox, run: seq<Point>, pieces: seq<Piece>, i: nat, u: real, p: Point)
    requires GoodRun(chain, box, run, pieces) && At(run, i, u, p)
    ensures OnPolyline(chain, p) && InBBox(p, box)
  {
    hide PointAt, Part, InBBox;
    var g := pieces[i - 1];
    assert GoodPiece(chain, box, g) && Traces(chain, run, pieces, i - 1);
    UnitRange(g.t0, g.t1, u);
    var t := g.t0 + Part(g.t1 - g.t0, u);
    Reparametrized(From(chain, g.i), To(chain, g.i), g.t0, g.t1, u, t);
    assert At(chain, g.i, t, p);
  }

  /** A point of the polyline that lies in the box is on a run. */
  lemma BoxPointIsOnRun(chain: seq<Point>, box: BBox, runs: seq<seq<Point>>, pieces: seq<seq<Piece>>, i: nat, t: real,
                        p: Point)
    requires Clips(chain, box, runs, pieces) && At(chain, i, t, p) && InBBox(p, box)
    ensures OnRuns(runs, p)
  {
    hide PointAt, Part, InBBox, Covers;
    EmittedIsInBoxPart(chain, box, runs, pieces, i, t);
    var r, k :| 0 <= r < |pieces| && 0 <= k < |pieces[r]| && Holds(pieces[r][k], i, t);
    var g := pieces[r][k];
    assert GoodRun(chain, box, runs[r], pieces[r]);
    assert GoodPiece(chain, box, g) && Traces(chain, runs[r], pieces[r], k);
    var u := UnitOf(g.t0, g.t1, t);
    Reparametrized(From(chain, i), To(chain, i), g.t0, g.t1, u, t);
    assert At(runs[r], k + 1, u, p);
  }

  /** The runs are exactly the part of the polyline in the closed box. */
  lemma RunsAreTheBoxPart(chain: seq<Point>, box: BBox, runs: seq<seq<Point>>, pieces: seq<seq<Piece>>)
    requires Clips(chain, box, runs, pieces)
    ensures forall p :: OnRuns(runs, p) <==> OnPolyline(chain, p) && InBBox(p, box)
  {
    hide At, Covers, Flatten, GoodRun, InBBox;
    forall p
      ensures OnRuns(runs, p) <==> OnPolyline(chain, p) && InBBox(p, box)
    {
      if OnRuns(runs, p) {
        var r :| 0 <= r < |runs| && OnPolyline(runs[r], p);
        var i: nat, u: real :| At(runs[r], i, u, p);
        RunPointIsInBox(chain, box, runs[r], pieces[r], i, u, p);
      }
      if OnPolyline(chain, p) && InBBox(p, box) {
        var i: nat, t: real :| At(chain, i, t, p);
        BoxPointIsOnRun(chain, box, runs, pieces, i, t, p);
      }
    }
  }
}
