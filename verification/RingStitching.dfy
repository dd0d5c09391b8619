/** Ring stitching of internal/ingest/rings.go: open ways are chained end to end into closed rings,
    growing at the tail only (water) or at both ends with a final snap (admin boundaries). */
module RingStitching {

  datatype Point = Point(x: real, y: real)

  datatype Way = Way(id: int, coords: seq<Point>)

  const BoundaryCloseTolDeg := 0.001

  // ------------------------------------------------------------ chains

  /** A chain of ways: the indices consumed, in order, and the polyline they make. */
  datatype Chain = Chain(ways: seq<nat>, coords: seq<Point>)

  predicate Usable(w: Way) {
    |w.coords| >= 2
  }

  function Last(c: seq<Point>): Point
    requires |c| > 0
  {
    c[|c| - 1]
  }

  function Reverse(c: seq<Point>): (r: seq<Point>)
    ensures |r| == |c|
  {
    seq(|c|, i requires 0 <= i < |c| => c[|c| - 1 - i])
  }

  /** a followed by b, dropping the node they share. */
  function Join(a: seq<Point>, b: seq<Point>): seq<Point>
    requires |b| > 0
  {
    a + b[1..]
  }

  /** The linear-ring rule of section 3.1.6 of RFC 7946. */
  predicate IsClosedRing(c: seq<Point>) {
    |c| >= 4 && c[0] == Last(c)
  }

  ghost predicate IsOpen(c: seq<Point>) {
    |c| > 0 && c[0] != Last(c)
  }

  function SqDistDeg(a: Point, b: Point): real {
    (a.x - b.x) * (a.x - b.x) + (a.y - b.y) * (a.y - b.y)
  }

  /** Snaps an almost-closed chain shut with one edge. */
  predicate Snaps(c: seq<Point>) {
    && !IsClosedRing(c) && |c| >= 4
    && SqDistDeg(c[0], Last(c)) <= BoundaryCloseTolDeg * BoundaryCloseTolDeg
  }

  function Snapped(c: seq<Point>): seq<Point> {
    if Snaps(c) then c + [c[0]] else c
  }

  // ------------------------------------------------------ undirected edges

  ghost function Edges(c: seq<Point>): multiset<set<Point>> {
    if |c| < 2 then multiset{}
    else Edges(c[..|c| - 1]) + multiset{{c[|c| - 2], c[|c| - 1]}}
  }

  ghost function WayEdges(ways: seq<Way>, idx: seq<nat>): multiset<set<Point>>
    requires forall k :: 0 <= k < |idx| ==> idx[k] < |ways|
  {
    if idx == [] then multiset{}
    else WayEdges(ways, idx[..|idx| - 1]) + Edges(ways[idx[|idx| - 1]].coords)
  }

  lemma LastEdge(c: seq<Point>, front: seq<Point>, p: Point, q: Point)
    requires |front| > 0 && c == front + [q] && Last(front) == p
    ensures Edges(c) == Edges(front) + multiset{{p, q}}
  {
    assert c[..|c| - 1] == front;
  }

  lemma {:induction false} EdgesOfJoin(a: seq<Point>, b: seq<Point>)
    requires |a| > 0 && |b| > 0 && Last(a) == b[0]
    ensures Edges(Join(a, b)) == Edges(a) + Edges(b)
  {
    hide Edges;
    if |b| == 1 {
      assert Join(a, b) == a;
      SinglePoint(b);
    } else {
      var front := b[..|b| - 1];
      EdgesOfJoin(a, front);
      LastEdge(Join(a, b), Join(a, front), b[|b| - 2], b[|b| - 1]);
      LastEdge(b, front, b[|b| - 2], b[|b| - 1]);
    }
  }

  lemma SinglePoint(c: seq<Point>)
    requires |c| == 1
    ensures Edges(c) == multiset{}
  {
  }

  lemma {:induction false} EdgesFromFront(c: seq<Point>)
    requires |c| >= 2
    ensures Edges(c) == multiset{{c[0], c[1]}} + Edges(c[1..])
  {
    var pair := [c[0], c[1]];
    assert c == Join(pair, c[1..]);
    EdgesOfJoin(pair, c[1..]);
    assert Edges(pair) == Edges(pair[..1]) + multiset{{c[0], c[1]}};
  }

  lemma ReverseFromFront(c: seq<Point>)
    requires |c| >= 2
    ensures Reverse(c) == Reverse(c[1..]) + [c[0]]
    ensures |Reverse(c[1..])| > 0 && Last(Reverse(c[1..])) == c[1]
  {
  }

  lemma ReverseShort(c: seq<Point>)
    requires |c| < 2
    ensures Reverse(c) == c
  {
  }

  lemma {:induction false} EdgesOfReverse(c: seq<Point>)
    ensures Edges(Reverse(c)) == Edges(c)
  {
    hide Edges, Reverse;
    if |c| < 2 {
      ReverseShort(c);
    } else {
      EdgesOfReverse(c[1..]);
      EdgesFromFront(c);
      ReverseFromFront(c);
      LastEdge(Reverse(c), Reverse(c[1..]), c[1], c[0]);
      assert {c[1], c[0]} == {c[0], c[1]};
    }
  }

  // ------------------------------------------------------------ degrees

  /** How many of w's two ends lie at v. */
  function Ends(w: Way, v: Point): nat {
    if !Usable(w) then 0
    else (if w.coords[0] == v then 1 else 0) + (if Last(w.coords) == v then 1 else 0)
  }

  /** The number of way ends at v among the first n ways that are not used. */
  function Degree(ways: seq<Way>, used: seq<bool>, v: Point, n: nat): nat
    requires n <= |ways| == |used|
  {
    if n == 0 then 0
    else Degree(ways, used, v, n - 1) + (if used[n - 1] then 0 else Ends(ways[n - 1], v))
  }

  ghost predicate AllEven(ways: seq<Way>, used: seq<bool>)
    requires |ways| == |used|
  {
    forall v :: Degree(ways, used, v, |ways|) % 2 == 0
  }

  function NoneUsed(n: nat): seq<bool> {
    seq(n, i => false)
  }

  /** Every point is an end of an even number of usable ways. */
  ghost predicate EvenEndpoints(ways: seq<Way>) {
    AllEven(ways, NoneUsed(|ways|))
  }

  lemma {:induction false} DegreeAfterUse(ways: seq<Way>, used: seq<bool>, j: nat, v: Point, n: nat)
    requires n <= |ways| == |used| && j < |used| && !used[j]
    ensures Degree(ways, used, v, n) == Degree(ways, used[j := true], v, n) + (if j < n then Ends(ways[j], v) else 0)
  {
    if n > 0 {
      DegreeAfterUse(ways, used, j, v, n - 1);
    }
  }

  lemma {:induction false} DegreeOfUntouched(ways: seq<Way>, used: seq<bool>, v: Point, n: nat)
    requires n <= |ways| == |used|
    requires forall j :: 0 <= j < n && !used[j] ==> Ends(ways[j], v) == 0
    ensures Degree(ways, used, v, n) == 0
  {
    if n > 0 {
      DegreeOfUntouched(ways, used, v, n - 1);
    }
  }

  /** The ends still to be matched: those of free ways, and the two ends of the growing chain. */
  ghost predicate EvenWithChain(ways: seq<Way>, used: seq<bool>, chain: seq<Point>)
    requires |ways| == |used| && |chain| > 0
  {
    forall v :: (Degree(ways, used, v, |ways|) + Ends(Way(0, [chain[0], Last(chain)]), v)) % 2 == 0
  }

  lemma StartChain(ways: seq<Way>, used: seq<bool>, i: nat)
    requires |ways| == |used| && i < |ways| && !used[i] && Usable(ways[i]) && AllEven(ways, used)
    ensures EvenWithChain(ways, used[i := true], ways[i].coords)
  {
    forall v
      ensures (Degree(ways, used[i := true], v, |ways|) +
               Ends(Way(0, [ways[i].coords[0], Last(ways[i].coords)]), v)) % 2 == 0
    {
      DegreeAfterUse(ways, used, i, v, |ways|);
    }
  }

  /** Splicing a way onto one end of the chain keeps every parity. */
  lemma GrowKeepsEven(ways: seq<Way>, used: seq<bool>, j: nat, chain: seq<Point>, next: seq<Point>)
    requires |ways| == |used| && j < |ways| && !used[j] && |chain| > 0 && |next| > 0
    requires EvenWithChain(ways, used, chain) && Links(chain, ways[j], next)
    ensures EvenWithChain(ways, used[j := true], next)
  {
    hide Degree, Ends, LinksAtTail, LinksAtHead;
    forall v
      ensures (Degree(ways, used[j := true], v, |ways|) + Ends(Way(0, [next[0], Last(next)]), v)) % 2 == 0
    {
      DegreeAfterUse(ways, used, j, v, |ways|);
      assert (Degree(ways, used, v, |ways|) + Ends(Way(0, [chain[0], Last(chain)]), v)) % 2 == 0;
      LinkEnds(chain, ways[j], next, v);
    }
  }

  lemma ClosedChainKeepsEven(ways: seq<Way>, used: seq<bool>, chain: seq<Point>)
    requires |ways| == |used| && |chain| > 0 && EvenWithChain(ways, used, chain) && chain[0] == Last(chain)
    ensures AllEven(ways, used)
  {
    forall v
      ensures Degree(ways, used, v, |ways|) % 2 == 0
    {
      assert (Degree(ways, used, v, |ways|) + Ends(Way(0, [chain[0], Last(chain)]), v)) % 2 == 0;
    }
  }

  /** With even parities an open chain can always grow at its tail. */
  lemma OpenTailIsTouched(ways: seq<Way>, used: seq<bool>, chain: seq<Point>)
    requires |ways| == |used| && IsOpen(chain) && EvenWithChain(ways, used, chain)
    ensures exists j :: 0 <= j < |ways| && !used[j] && Ends(ways[j], Last(chain)) > 0
  {
    var v := Last(chain);
    if forall j :: 0 <= j < |ways| && !used[j] ==> Ends(ways[j], v) == 0 {
      DegreeOfUntouched(ways, used, v, |ways|);
      assert false;
    }
  }

  // -------------------------------------------------------------- growth

  /** next is chain with w spliced onto its tail, w reversed if need be. */
  predicate LinksAtTail(chain: seq<Point>, w: Way, next: seq<Point>) {
    && |chain| > 0 && Usable(w)
    && if Last(chain) == w.coords[0] then next == Join(chain, w.coords)
       else Last(chain) == Last(w.coords) && next == Join(chain, Reverse(w.coords))
  }

  /** next is chain with w spliced onto its head, w reversed if need be. */
  predicate LinksAtHead(chain: seq<Point>, w: Way, next: seq<Point>) {
    && |chain| > 0 && Usable(w)
    && if chain[0] == Last(w.coords) then next == Join(w.coords, chain)
       else chain[0] == w.coords[0] && next == Join(Reverse(w.coords), chain)
  }

  predicate Links(chain: seq<Point>, w: Way, next: seq<Point>) {
    LinksAtTail(chain, w, next) || LinksAtHead(chain, w, next)
  }

  lemma LinkEnds(chain: seq<Point>, w: Way, next: seq<Point>, v: Point)
    requires Links(chain, w, next) && |next| > 0
    ensures (Ends(Way(0, [next[0], Last(next)]), v) + Ends(w, v)) % 2 ==
            Ends(Way(0, [chain[0], Last(chain)]), v) % 2
  {
    var r := Reverse(w.coords);
    assert r[0] == Last(w.coords) && Last(r) == w.coords[0];
  }

  lemma LinkEdges(chain: seq<Point>, w: Way, next: seq<Point>)
    requires Links(chain, w, next)
    ensures Edges(next) == Edges(chain) + Edges(w.coords) && |next| > |chain|
  {
    var r := Reverse(w.coords);
    assert r[0] == Last(w.coords) && Last(r) == w.coords[0];
    EdgesOfReverse(w.coords);
    if LinksAtTail(chain, w, next) {
      EdgesOfJoin(chain, if Last(chain) == w.coords[0] then w.coords else r);
    } else {
      EdgesOfJoin(if chain[0] == Last(w.coords) then w.coords else r, chain);
    }
  }

  /** Appends w, walked backwards from its last node, dropping that shared node. */
  method AppendReversed(ring: seq<Point>, w: seq<Point>) returns (next: seq<Point>)
    requires |w| >= 2
    ensures next == Join(ring, Reverse(w))
  {
    next := ring;
    var k := |w| - 2;
    while k >= 0
      invariant -1 <= k <= |w| - 2
      invariant next == ring + Reverse(w)[1..|w| - 1 - k]
    {
      next := next + [w[k]];
      k := k - 1;
    }
  }

  /** extendRing: splices the first free way that touches the tail. */
  method ExtendRing(ring: seq<Point>, ways: seq<Way>, used: array<bool>)
    returns (extended: bool, next: seq<Point>, idx: int)
    requires |ring| > 0 && used.Length == |ways|
    modifies used
    ensures !extended ==> next == ring && idx == -1 && used[..] == old(used[..])
    ensures !extended ==> forall j :: 0 <= j < |ways| && !old(used[j]) ==> Ends(ways[j], Last(ring)) == 0
    ensures extended ==> 0 <= idx < |ways| && !old(used[idx]) && used[..] == old(used[..])[idx := true]
    ensures extended ==> LinksAtTail(ring, ways[idx], next)
    ensures extended ==> forall j :: 0 <= j < idx && !old(used[j]) ==> Ends(ways[j], Last(ring)) == 0
  {
    var tail := Last(ring);
    for j := 0 to |ways|
      invariant used[..] == old(used[..])
      invariant forall k :: 0 <= k < j && !old(used[k]) ==> Ends(ways[k], tail) == 0
    {
      if used[j] || |ways[j].coords| < 2 {
        continue;
      }
      var w := ways[j].coords;
      if tail == w[0] {
        next := ring + w[1..];
      } else if tail == w[|w| - 1] {
        next := AppendReversed(ring, w);
      } else {
        continue;
      }
      used[j] := true;
      return true, next, j;
    }
    return false, ring, -1;
  }

  /** growRing: splices the first free way that touches either end. */
  method GrowRing(ring: seq<Point>, ways: seq<Way>, used: array<bool>)
    returns (grew: bool, next: seq<Point>, idx: int)
    requires |ring| > 0 && used.Length == |ways|
    modifies used
    ensures !grew ==> next == ring && idx == -1 && used[..] == old(used[..])
    ensures !grew ==> forall j :: 0 <= j < |ways| && !old(used[j]) ==>
      Ends(ways[j], Last(ring)) == 0 && Ends(ways[j], ring[0]) == 0
    ensures grew ==> 0 <= idx < |ways| && !old(used[idx]) && used[..] == old(used[..])[idx := true]
    ensures grew ==> LinksAtTail(ring, ways[idx], next) ||
                     (Ends(ways[idx], Last(ring)) == 0 && LinksAtHead(ring, ways[idx], next))
    ensures grew ==> forall j :: 0 <= j < idx && !old(used[j]) ==>
      Ends(ways[j], Last(ring)) == 0 && Ends(ways[j], ring[0]) == 0
  {
    var head, tail := ring[0], Last(ring);
    for j := 0 to |ways|
      invariant used[..] == old(used[..])
      invariant forall k :: 0 <= k < j && !old(used[k]) ==> Ends(ways[k], tail) == 0 && Ends(ways[k], head) == 0
    {
      if used[j] || |ways[j].coords| < 2 {
        continue;
      }
      var w := ways[j].coords;
      var last := |w| - 1;
      if tail == w[0] {
        next := ring + w[1..];
      } else if tail == w[last] {
        next := AppendReversed(ring, w);
      } else if head == w[last] {
        next := w[..last] + ring;
        assert next == Join(w, ring);
      } else if head == w[0] {
        var rev: seq<Point> := [];
        var k := last;
        while k >= 1
          invariant 0 <= k <= last
          invariant rev == Reverse(w)[..last - k]
        {
          rev := rev + [w[k]];
          k := k - 1;
        }
        next := rev + ring;
        assert next == Join(Reverse(w), ring);
      } else {
        continue;
      }
      used[j] := true;
      return true, next, j;
    }
    return false, ring, -1;
  }

  // ------------------------------------------------------------ bookkeeping

  /** All ways consumed by the chains, in order. */
  function AllWays(chains: seq<Chain>): seq<nat> {
    if chains == [] then [] else AllWays(chains[..|chains| - 1]) + chains[|chains| - 1].ways
  }

  function Ids(ways: seq<Way>, idx: seq<nat>): seq<int>
    requires forall k :: 0 <= k < |idx| ==> idx[k] < |ways|
  {
    seq(|idx|, k requires 0 <= k < |idx| => ways[idx[k]].id)
  }

  predicate InRange(ways: seq<Way>, c: Chain) {
    forall k :: 0 <= k < |c.ways| ==> c.ways[k] < |ways|
  }

  ghost predicate Distinct(s: seq<nat>) {
    forall i, j :: 0 <= i < j < |s| ==> s[i] != s[j]
  }

  /** A chain of ways whose polyline has exactly the ways' undirected edges. */
  ghost predicate Sound(ways: seq<Way>, c: Chain) {
    && |c.ways| > 0 && |c.coords| > 0
    && InRange(ways, c)
    && Edges(c.coords) == WayEdges(ways, c.ways)
  }

  /** The rings kept from the chains, in order. */
  function Kept(chains: seq<Chain>, snap: bool): seq<seq<Point>> {
    if chains == [] then []
    else
      var c := chains[|chains| - 1];
      var finished := if snap then Snapped(c.coords) else c.coords;
      Kept(chains[..|chains| - 1], snap) + (if IsClosedRing(finished) then [finished] else [])
  }

  /** The ids of the ways of the chains that are not kept, in order. */
  function DroppedIds(ways: seq<Way>, chains: seq<Chain>, snap: bool): seq<int>
    requires forall i :: 0 <= i < |chains| ==> InRange(ways, chains[i])
  {
    if chains == [] then []
    else
      var c := chains[|chains| - 1];
      assert InRange(ways, c);
      var finished := if snap then Snapped(c.coords) else c.coords;
      DroppedIds(ways, chains[..|chains| - 1], snap) + (if IsClosedRing(finished) then [] else Ids(ways, c.ways))
  }

  /** The way flags agree with the list of consumed ways. */
  ghost predicate Taken(ways: seq<Way>, used: seq<bool>, taken: seq<nat>) {
    && |used| == |ways| && Distinct(taken)
    && (forall j :: 0 <= j < |ways| ==> (used[j] <==> j in taken))
    && (forall k :: 0 <= k < |taken| ==> taken[k] < |ways| && Usable(ways[taken[k]]))
  }

  lemma Take(ways: seq<Way>, used: seq<bool>, taken: seq<nat>, j: nat)
    requires Taken(ways, used, taken) && j < |ways| && !used[j] && Usable(ways[j])
    ensures Taken(ways, used[j := true], taken + [j])
  {
  }

  lemma WayEdgesGrow(ways: seq<Way>, idx: seq<nat>, j: nat)
    requires forall k :: 0 <= k < |idx| ==> idx[k] < |ways|
    requires j < |ways|
    ensures WayEdges(ways, idx + [j]) == WayEdges(ways, idx) + Edges(ways[j].coords)
  {
    assert (idx + [j])[..|idx + [j]| - 1] == idx;
  }

  /** No end of a way consumed by a later chain lies at point v. */
  ghost predicate Untouched(ways: seq<Way>, chains: seq<Chain>, from: nat, v: Point) {
    forall l :: from < l < |chains| ==>
      forall k :: 0 <= k < |chains[l].ways| ==> chains[l].ways[k] < |ways| && Ends(ways[chains[l].ways[k]], v) == 0
  }

  // ------------------------------------------------------------- stitching

  /** What holds of one finished chain, given the ways that were free when it started. */
  ghost predicate ChainDone(ways: seq<Way>, before: seq<bool>, after: seq<bool>, c: Chain, bothEnds: bool)
    requires |before| == |after| == |ways|
  {
    && Sound(ways, c)
    && (forall k :: 0 <= k < |c.ways| ==> !before[c.ways[k]])
    && (AllEven(ways, before) ==> c.coords[0] == Last(c.coords) && AllEven(ways, after))
    && (IsOpen(c.coords) ==> forall j :: 0 <= j < |ways| && !after[j] ==> Ends(ways[j], Last(c.coords)) == 0)
    && (IsOpen(c.coords) && bothEnds ==> forall j :: 0 <= j < |ways| && !after[j] ==> Ends(ways[j], c.coords[0]) == 0)
  }

  lemma StartSound(ways: seq<Way>, i: nat)
    requires i < |ways| && Usable(ways[i])
    ensures Sound(ways, Chain([i], ways[i].coords))
  {
    WayEdgesGrow(ways, [], i);
    assert [i] == [] + [i];
  }

  lemma GrowSound(ways: seq<Way>, c: Chain, j: nat, next: seq<Point>)
    requires Sound(ways, c) && j < |ways| && Links(c.coords, ways[j], next)
    ensures Sound(ways, Chain(c.ways + [j], next))
  {
    LinkEdges(c.coords, ways[j], next);
    WayEdgesGrow(ways, c.ways, j);
  }

  /** The inner loops' invariant: chain c is being grown from the ways free in before. */
  ghost predicate Growing(ways: seq<Way>, before: seq<bool>, now: seq<bool>, taken: seq<nat>, c: Chain) {
    && |before| == |now| == |ways| && Sound(ways, c)
    && Taken(ways, now, taken + c.ways)
    && (forall k :: 0 <= k < |c.ways| ==> !before[c.ways[k]])
    && (forall j :: 0 <= j < |ways| && before[j] ==> now[j])
    && (AllEven(ways, before) ==> EvenWithChain(ways, now, c.coords))
  }

  lemma StartGrowing(ways: seq<Way>, before: seq<bool>, taken: seq<nat>, i: nat)
    requires Taken(ways, before, taken) && i < |ways| && !before[i] && Usable(ways[i])
    ensures Growing(ways, before, before[i := true], taken, Chain([i], ways[i].coords))
  {
    hide Sound, EvenWithChain, AllEven;
    Take(ways, before, taken, i);
    StartSound(ways, i);
    if AllEven(ways, before) {
      StartChain(ways, before, i);
    }
  }

  lemma KeepGrowing(ways: seq<Way>, before: seq<bool>, now: seq<bool>, taken: seq<nat>, c: Chain, j: nat,
                    next: seq<Point>)
    requires Growing(ways, before, now, taken, c)
    requires j < |ways| && !now[j] && Links(c.coords, ways[j], next)
    ensures Growing(ways, before, now[j := true], taken, Chain(c.ways + [j], next))
  {
    hide AllEven, WayEdges, Edges, EvenWithChain, Join;
    GrowSound(ways, c, j, next);
    Take(ways, now, taken + c.ways, j);
    assert taken + (c.ways + [j]) == taken + c.ways + [j];
    if AllEven(ways, before) {
      GrowKeepsEven(ways, now, j, c.coords, next);
    }
  }

  lemma StopGrowing(ways: seq<Way>, before: seq<bool>, now: seq<bool>, taken: seq<nat>, c: Chain, bothEnds: bool)
    requires Growing(ways, before, now, taken, c)
    requires IsOpen(c.coords) ==> forall j :: 0 <= j < |ways| && !now[j] ==> Ends(ways[j], Last(c.coords)) == 0
    requires IsOpen(c.coords) && bothEnds ==> forall j :: 0 <= j < |ways| && !now[j] ==> Ends(ways[j], c.coords[0]) == 0
    ensures ChainDone(ways, before, now, c, bothEnds)
  {
    hide AllEven, EvenWithChain, Edges, WayEdges;
    if AllEven(ways, before) {
      if IsOpen(c.coords) {
        OpenTailIsTouched(ways, now, c.coords);
        assert false;
      }
      ClosedChainKeepsEven(ways, now, c.coords);
    }
  }

  ghost function FreeWays(used: seq<bool>): set<int> {
    set j | 0 <= j < |used| && !used[j]
  }

  lemma FewerFree(used: seq<bool>, j: nat)
    requires j < |used| && !used[j]
    ensures FreeWays(used[j := true]) < FreeWays(used)
  {
    assert j in FreeWays(used) && j !in FreeWays(used[j := true]);
  }

  /** The inner loop of stitchRings: grow way i's chain at its tail until it closes or sticks. */
  method TailChain(ways: seq<Way>, used: array<bool>, i: nat, ghost taken: seq<nat>) returns (c: Chain)
    requires used.Length == |ways| && i < |ways| && !used[i] && Usable(ways[i])
    requires Taken(ways, used[..], taken)
    modifies used
    ensures Growing(ways, old(used[..]), used[..], taken, c) && |c.ways| > 0 && c.ways[0] == i
    ensures ChainDone(ways, old(used[..]), used[..], c, false)
  {
    hide Growing, ChainDone, LinksAtHead, LinksAtTail;
    ghost var before := used[..];
    used[i] := true;
    var ring := ways[i].coords;
    var consumed: seq<nat> := [i];
    StartGrowing(ways, before, taken, i);
    while ring[0] != ring[|ring| - 1]
      invariant |ring| > 0 && |consumed| > 0 && consumed[0] == i
      invariant Growing(ways, before, used[..], taken, Chain(consumed, ring))
      decreases FreeWays(used[..])
    {
      ghost var was := used[..];
      var extended, next, nextIdx := ExtendRing(ring, ways, used);
      if !extended {
        break;
      }
      KeepGrowing(ways, before, was, taken, Chain(consumed, ring), nextIdx, next);
      LinkEdges(ring, ways[nextIdx], next);
      FewerFree(was, nextIdx);
      ring := next;
      consumed := consumed + [nextIdx];
    }
    c := Chain(consumed, ring);
    StopGrowing(ways, before, used[..], taken, c, false);
  }

  /** The inner loop of stitchRingsBidi: the same, growing at either end. */
  method BidiChain(ways: seq<Way>, used: array<bool>, i: nat, ghost taken: seq<nat>) returns (c: Chain)
    requires used.Length == |ways| && i < |ways| && !used[i] && Usable(ways[i])
    requires Taken(ways, used[..], taken)
    modifies used
    ensures Growing(ways, old(used[..]), used[..], taken, c) && |c.ways| > 0 && c.ways[0] == i
    ensures ChainDone(ways, old(used[..]), used[..], c, true)
  {
    hide Growing, ChainDone, LinksAtHead, LinksAtTail;
    ghost var before := used[..];
    used[i] := true;
    var ring := ways[i].coords;
    var consumed: seq<nat> := [i];
    StartGrowing(ways, before, taken, i);
    while ring[0] != ring[|ring| - 1]
      invariant |ring| > 0 && |consumed| > 0 && consumed[0] == i
      invariant Growing(ways, before, used[..], taken, Chain(consumed, ring))
      decreases FreeWays(used[..])
    {
      ghost var was := used[..];
      var grew, next, idx := GrowRing(ring, ways, used);
      if !grew {
        break;
      }
      KeepGrowing(ways, before, was, taken, Chain(consumed, ring), idx, next);
      LinkEdges(ring, ways[idx], next);
      FewerFree(was, idx);
      ring := next;
      consumed := consumed + [idx];
    }
    c := Chain(consumed, ring);
    StopGrowing(ways, before, used[..], taken, c, true);
  }

  /** Every open chain was stuck for good at its tail (and, growing both ways, at its head). */
  ghost predicate OpenAbandoned(ways: seq<Way>, used: seq<bool>, chains: seq<Chain>, bothEnds: bool) {
    forall k :: 0 <= k < |chains| && IsOpen(chains[k].coords) ==>
      Abandoned(ways, used, chains, k, Last(chains[k].coords)) &&
      (bothEnds ==> Abandoned(ways, used, chains, k, chains[k].coords[0]))
  }

  ghost predicate NoneOpen(chains: seq<Chain>) {
    forall k :: 0 <= k < |chains| ==> !IsOpen(chains[k].coords)
  }

  /** What both stitchers guarantee of the chains they form. */
  ghost predicate Stitched(ways: seq<Way>, used: seq<bool>, chains: seq<Chain>, bothEnds: bool) {
    && |used| == |ways|
    && (forall k :: 0 <= k < |chains| ==> Sound(ways, chains[k]))
    && Taken(ways, used, AllWays(chains))
    && (EvenEndpoints(ways) ==> AllEven(ways, used) && NoneOpen(chains))
    && OpenAbandoned(ways, used, chains, bothEnds)
  }

  /** No way that was still free when chain k stuck has an end at v. */
  ghost predicate Abandoned(ways: seq<Way>, used: seq<bool>, chains: seq<Chain>, k: nat, v: Point) {
    && Untouched(ways, chains, k, v) && |used| == |ways|
    && forall j :: 0 <= j < |ways| && !used[j] ==> Ends(ways[j], v) == 0
  }

  lemma AbandonedStays(ways: seq<Way>, before: seq<bool>, now: seq<bool>, taken: seq<nat>, chains: seq<Chain>, c: Chain,
                       k: nat, v: Point)
    requires k < |chains| && Abandoned(ways, before, chains, k, v) && Growing(ways, before, now, taken, c)
    ensures Abandoned(ways, now, chains + [c], k, v)
  {
  }

  lemma JustAbandoned(ways: seq<Way>, now: seq<bool>, chains: seq<Chain>, c: Chain, v: Point)
    requires |now| == |ways| && forall j :: 0 <= j < |ways| && !now[j] ==> Ends(ways[j], v) == 0
    ensures Abandoned(ways, now, chains + [c], |chains|, v)
  {
  }

  lemma AddAbandoned(ways: seq<Way>, before: seq<bool>, now: seq<bool>, chains: seq<Chain>, c: Chain, bothEnds: bool)
    requires |before| == |now| == |ways| && OpenAbandoned(ways, before, chains, bothEnds)
    requires Growing(ways, before, now, AllWays(chains), c) && ChainDone(ways, before, now, c, bothEnds)
    ensures OpenAbandoned(ways, now, chains + [c], bothEnds)
  {
    hide Growing, AllEven, Sound, Abandoned;
    var all := chains + [c];
    if IsOpen(c.coords) {
      JustAbandoned(ways, now, chains, c, Last(c.coords));
      if bothEnds {
        JustAbandoned(ways, now, chains, c, c.coords[0]);
      }
    }
    forall k | 0 <= k < |chains| && IsOpen(chains[k].coords)
      ensures Abandoned(ways, now, all, k, Last(chains[k].coords))
      ensures bothEnds ==> Abandoned(ways, now, all, k, chains[k].coords[0])
    {
      AbandonedStays(ways, before, now, AllWays(chains), chains, c, k, Last(chains[k].coords));
      if bothEnds {
        AbandonedStays(ways, before, now, AllWays(chains), chains, c, k, chains[k].coords[0]);
      }
    }
  }

  lemma AllWaysGrow(chains: seq<Chain>, c: Chain)
    ensures AllWays(chains + [c]) == AllWays(chains) + c.ways
  {
    assert (chains + [c])[..|chains + [c]| - 1] == chains;
  }

  lemma AddChain(ways: seq<Way>, before: seq<bool>, now: seq<bool>, chains: seq<Chain>, c: Chain, bothEnds: bool)
    requires Stitched(ways, before, chains, bothEnds)
    requires Growing(ways, before, now, AllWays(chains), c) && ChainDone(ways, before, now, c, bothEnds)
    ensures Stitched(ways, now, chains + [c], bothEnds)
  {
    hide AllEven, EvenEndpoints, Sound, Taken, OpenAbandoned, AllWays;
    AllWaysGrow(chains, c);
    AddAbandoned(ways, before, now, chains, c, bothEnds);
  }

  lemma NothingStitched(ways: seq<Way>, bothEnds: bool)
    ensures Stitched(ways, NoneUsed(|ways|), [], bothEnds)
    ensures Kept([], bothEnds) == [] && DroppedIds(ways, [], bothEnds) == []
  {
  }

  lemma KeepOrDrop(ways: seq<Way>, chains: seq<Chain>, c: Chain, snap: bool)
    requires forall i :: 0 <= i < |chains| ==> InRange(ways, chains[i])
    requires InRange(ways, c)
    ensures forall i :: 0 <= i < |chains + [c]| ==> InRange(ways, (chains + [c])[i])
    ensures var finished := if snap then Snapped(c.coords) else c.coords;
            && Kept(chains + [c], snap) == Kept(chains, snap) + (if IsClosedRing(finished) then [finished] else [])
            && DroppedIds(ways, chains + [c], snap) ==
               DroppedIds(ways, chains, snap) + (if IsClosedRing(finished) then [] else Ids(ways, c.ways))
  {
    assert (chains + [c])[..|chains + [c]| - 1] == chains;
  }

  method AppendIds(dropped: seq<int>, ways: seq<Way>, consumed: seq<nat>) returns (r: seq<int>)
    requires forall k :: 0 <= k < |consumed| ==> consumed[k] < |ways|
    ensures r == dropped + Ids(ways, consumed)
  {
    r := dropped;
    for k := 0 to |consumed|
      invariant r == dropped + Ids(ways, consumed)[..k]
    {
      r := r + [ways[consumed[k]].id];
    }
  }

  /** Every way of at least two vertices has been taken. */
  ghost predicate AllTaken(ways: seq<Way>, chains: seq<Chain>) {
    && Distinct(AllWays(chains))
    && forall j: nat :: j in AllWays(chains) <==> j < |ways| && |ways[j].coords| >= 2
  }

  /** The chains account for a stitching result: each chain's edges are its ways', every usable way is
      in exactly one, the rings are the chains that close (after a snap, if snap) and the dropped ids
      those of the others; even endpoints leave no chain open and drop only ways of closed chains under
      four vertices, and no way of a later chain touches an open chain's tail, nor its head where both
      ends grow. */
  ghost predicate Explains(ways: seq<Way>, chains: seq<Chain>, rings: seq<seq<Point>>, dropped: seq<int>, bidi: bool) {
    && (forall k :: 0 <= k < |chains| ==> Sound(ways, chains[k]) && InRange(ways, chains[k]))
    && AllTaken(ways, chains)
    && rings == Kept(chains, bidi) && dropped == DroppedIds(ways, chains, bidi)
    && (EvenEndpoints(ways) ==>
          && (forall k :: 0 <= k < |chains| ==> !IsOpen(chains[k].coords))
          && (forall id :: id in dropped ==> DroppedTiny(ways, chains, id)))
    && (forall k :: 0 <= k < |chains| && IsOpen(chains[k].coords) ==>
          Untouched(ways, chains, k, Last(chains[k].coords)) &&
            (bidi ==> Untouched(ways, chains, k, chains[k].coords[0])))
  }

  lemma SoundChainsStart(ways: seq<Way>, chains: seq<Chain>)
    requires forall k :: 0 <= k < |chains| ==> Sound(ways, chains[k])
    ensures forall k :: 0 <= k < |chains| ==> InRange(ways, chains[k]) && |chains[k].coords| > 0
  {
  }

  /** A chain of at least four vertices whose ends meet, or with a snap are within a thousandth of a degree. */
  ghost predicate Closes(c: seq<Point>, snap: bool) {
    |c| >= 4 &&
    var dx, dy := c[|c| - 1].x - c[0].x, c[|c| - 1].y - c[0].y;
    (dx == 0.0 && dy == 0.0) || (snap && dx * dx + dy * dy <= 0.000001)
  }

  /** The chain with its first vertex at the end, once. */
  ghost function RingOf(c: seq<Point>): seq<Point> {
    if |c| > 0 && c[|c| - 1] != c[0] then c + [c[0]] else c
  }

  ghost predicate ReturnedFrom(chains: seq<Chain>, ring: seq<Point>, snap: bool) {
    exists k :: 0 <= k < |chains| && Closes(chains[k].coords, snap) && ring == RingOf(chains[k].coords)
  }

  ghost predicate DroppedFrom(ways: seq<Way>, chains: seq<Chain>, id: int, snap: bool) {
    exists k, i :: 0 <= k < |chains| && 0 <= i < |chains[k].ways| && chains[k].ways[i] < |ways| &&
      !Closes(chains[k].coords, snap) && ways[chains[k].ways[i]].id == id
  }

  /** The chain's ring is returned, or all its ways are dropped. */
  ghost predicate SortedOut(ways: seq<Way>, c: Chain, rings: seq<seq<Point>>, dropped: seq<int>, snap: bool) {
    if Closes(c.coords, snap) then RingOf(c.coords) in rings
    else forall i :: 0 <= i < |c.ways| && c.ways[i] < |ways| ==> ways[c.ways[i]].id in dropped
  }

  /** The rings are those of the chains that close, and the ids dropped are those of the ways of the others. */
  ghost predicate Sorts(ways: seq<Way>, chains: seq<Chain>, rings: seq<seq<Point>>, dropped: seq<int>, snap: bool) {
    && (forall k :: 0 <= k < |chains| ==> SortedOut(ways, chains[k], rings, dropped, snap))
    && (forall r :: r in rings ==> ReturnedFrom(chains, r, snap))
    && (forall id :: id in dropped ==> DroppedFrom(ways, chains, id, snap))
  }

  lemma ClosesIff(c: seq<Point>, snap: bool)
    requires |c| > 0
    ensures var finished := if snap then Snapped(c) else c;
            && (IsClosedRing(finished) <==> Closes(c, snap))
            && (Closes(c, snap) ==> finished == RingOf(c))
  {
    hide SqDistDeg;
    var a, b := c[0], c[|c| - 1];
    assert a == b <==> b.x - a.x == 0.0 && b.y - a.y == 0.0;
    Distance(a, b, b.x - a.x, b.y - a.y);
  }

  lemma Distance(a: Point, b: Point, dx: real, dy: real)
    requires dx == b.x - a.x && dy == b.y - a.y
    ensures SqDistDeg(a, b) == dx * dx + dy * dy
  {
  }

  lemma {:induction false} KeptSorts(ways: seq<Way>, chains: seq<Chain>, snap: bool)
    requires forall i :: 0 <= i < |chains| ==> InRange(ways, chains[i]) && |chains[i].coords| > 0
    ensures Sorts(ways, chains, Kept(chains, snap), DroppedIds(ways, chains, snap), snap)
  {
    hide Closes, RingOf, IsClosedRing, Snapped, Sorts, Kept, DroppedIds, Ids;
    if chains != [] {
      var front, c := chains[..|chains| - 1], chains[|chains| - 1];
      assert chains == front + [c];
      KeptSorts(ways, front, snap);
      ClosesIff(c.coords, snap);
      KeepOrDrop(ways, front, c, snap);
      IdsOf(ways, c);
      assert Kept(front, snap) + [] == Kept(front, snap);
      assert DroppedIds(ways, front, snap) + [] == DroppedIds(ways, front, snap);
      SortsMore(ways, front, c, Kept(front, snap), DroppedIds(ways, front, snap), Ids(ways, c.ways), snap);
    } else {
      NothingSorted(ways, snap);
    }
  }

  lemma IdsOf(ways: seq<Way>, c: Chain)
    requires InRange(ways, c)
    ensures |Ids(ways, c.ways)| == |c.ways|
    ensures forall i :: 0 <= i < |c.ways| ==> Ids(ways, c.ways)[i] == ways[c.ways[i]].id
  {
  }

  lemma NothingSorted(ways: seq<Way>, snap: bool)
    ensures Sorts(ways, [], Kept([], snap), DroppedIds(ways, [], snap), snap)
  {
  }

  lemma SortsMore(ways: seq<Way>, front: seq<Chain>, c: Chain, rings: seq<seq<Point>>, dropped: seq<int>, ids: seq<int>,
                  snap: bool)
    requires Sorts(ways, front, rings, dropped, snap) && InRange(ways, c) && |c.coords| > 0
    requires |ids| == |c.ways| && forall i :: 0 <= i < |c.ways| ==> ids[i] == ways[c.ways[i]].id
    ensures var closes := Closes(c.coords, snap);
            Sorts(ways, front + [c], if closes then rings + [RingOf(c.coords)] else rings,
                  if closes then dropped else dropped + ids, snap)
  {
    hide Closes, RingOf;
    var all, closes := front + [c], Closes(c.coords, snap);
    var rings', dropped' := if closes then rings + [RingOf(c.coords)] else rings,
                            if closes then dropped else dropped + ids;
    assert all[|front|] == c;
    assert forall k :: 0 <= k < |front| ==> all[k] == front[k];
    forall r | r in rings'
      ensures ReturnedFrom(all, r, snap)
    {
      if r in rings {
        var k :| 0 <= k < |front| && Closes(front[k].coords, snap) && r == RingOf(front[k].coords);
        assert Closes(all[k].coords, snap);
      } else {
        assert Closes(all[|front|].coords, snap);
      }
    }
    forall id | id in dropped'
      ensures DroppedFrom(ways, all, id, snap)
    {
      if id in dropped {
        var k, i :| 0 <= k < |front| && 0 <= i < |front[k].ways| && front[k].ways[i] < |ways| &&
          !Closes(front[k].coords, snap) && ways[front[k].ways[i]].id == id;
        assert all[k].ways[i] == front[k].ways[i];
      } else {
        var i :| 0 <= i < |ids| && ids[i] == id;
        assert all[|front|].ways[i] == c.ways[i];
      }
    }
    forall k | 0 <= k < |all|
      ensures SortedOut(ways, all[k], rings', dropped', snap)
    {
      if k == |front| {
        assert closes ==> rings'[|rings|] == RingOf(c.coords);
        assert !closes ==> forall i :: 0 <= i < |ids| ==> dropped'[|dropped| + i] == ids[i];
      } else {
        assert SortedOut(ways, front[k], rings, dropped, snap);
      }
    }
  }

  /** Returned rings have four vertices, the last at the first. */
  lemma ReturnedAreRings(ways: seq<Way>, chains: seq<Chain>, rings: seq<seq<Point>>, dropped: seq<int>, snap: bool)
    requires Sorts(ways, chains, rings, dropped, snap)
    ensures forall r :: r in rings ==> |r| >= 4 && r[0] == r[|r| - 1]
  {
    forall r | r in rings
      ensures |r| >= 4 && r[0] == r[|r| - 1]
    {
      assert ReturnedFrom(chains, r, snap);
    }
  }

  /** A snap adds an edge of at most a thousandth of a degree either way. */
  lemma SnapIsShort(c: seq<Point>)
    requires Closes(c, true)
    ensures -0.001 <= c[|c| - 1].x - c[0].x <= 0.001 && -0.001 <= c[|c| - 1].y - c[0].y <= 0.001
  {
    Short(c[|c| - 1].x - c[0].x, c[|c| - 1].y - c[0].y);
    Short(c[|c| - 1].y - c[0].y, c[|c| - 1].x - c[0].x);
  }

  lemma Short(a: real, b: real)
    requires a * a + b * b <= 0.000001
    ensures -0.001 <= a <= 0.001
  {
    Square(a);
    Square(b);
  }

  lemma Square(a: real)
    ensures a * a >= 0.0 && (a > 0.001 || a < -0.001 ==> a * a > 0.000001)
  {
    var d := if a < 0.0 then -a else a;
    assert d * d == a * a;
    if d > 0.001 {
      assert d * d > 0.001 * d > 0.000001;
    }
  }

  /** stitchRings, tail-only. */
  method StitchRings(ways: seq<Way>) returns (rings: seq<seq<Point>>, dropped: seq<int>)
    ensures exists chains: seq<Chain> ::
              Explains(ways, chains, rings, dropped, false) && Sorts(ways, chains, rings, dropped, false)
    ensures forall r :: r in rings ==> |r| >= 4 && r[0] == r[|r| - 1]
  {
    ghost var chains: seq<Chain> := [];
    hide Growing, ChainDone, EvenEndpoints, Sound, Abandoned, Snapped, IsClosedRing, Kept, DroppedIds, Taken, AllEven;
    hide Sorts;
    var used := new bool[|ways|](_ => false);
    rings, dropped := [], [];
    assert used[..] == NoneUsed(|ways|);
    NothingStitched(ways, false);
    for i := 0 to |ways|
      invariant Stitched(ways, used[..], chains, false)
      invariant forall k :: 0 <= k < i && Usable(ways[k]) ==> used[k]
      invariant forall k :: 0 <= k < |chains| ==> Sound(ways, chains[k]) && InRange(ways, chains[k])
      invariant rings == Kept(chains, false) && dropped == DroppedIds(ways, chains, false)
    {
      if used[i] || |ways[i].coords| < 2 {
        continue;
      }
      ghost var before := used[..];
      var c := TailChain(ways, used, i, AllWays(chains));
      GrowingFacts(ways, before, used[..], AllWays(chains), c, i);
      AddChain(ways, before, used[..], chains, c, false);
      KeepOrDrop(ways, chains, c, false);
      if IsClosedRing(c.coords) {
        rings := rings + [c.coords];
      } else {
        dropped := AppendIds(dropped, ways, c.ways);
      }
      chains := chains + [c];
    }
    StitchedFacts(ways, used[..], chains, false);
    SoundChainsStart(ways, chains);
    KeptSorts(ways, chains, false);
    ReturnedAreRings(ways, chains, rings, dropped, false);
    if EvenEndpoints(ways) {
      EvenDropsOnlyTinyChains(ways, chains, false);
    }
    assert Explains(ways, chains, rings, dropped, false);
  }

  method SnapShut(chain: seq<Point>) returns (ring: seq<Point>)
    requires |chain| > 0
    ensures ring == Snapped(chain)
  {
    ring := chain;
    if !IsClosedRing(ring) && |ring| >= 4 &&
       SqDistDeg(ring[0], ring[|ring| - 1]) <= BoundaryCloseTolDeg * BoundaryCloseTolDeg {
      ring := ring + [ring[0]];
    }
  }

  /** stitchRingsBidi: growth at both ends, and a snap of almost-closed chains. */
  method StitchRingsBidi(ways: seq<Way>) returns (rings: seq<seq<Point>>, dropped: seq<int>)
    ensures exists chains: seq<Chain> ::
              Explains(ways, chains, rings, dropped, true) && Sorts(ways, chains, rings, dropped, true)
    ensures forall r :: r in rings ==> |r| >= 4 && r[0] == r[|r| - 1]
  {
    ghost var chains: seq<Chain> := [];
    hide Growing, ChainDone, EvenEndpoints, Sound, Abandoned, Snapped, IsClosedRing, Kept, DroppedIds, Taken, AllEven;
    hide Sorts;
    var used := new bool[|ways|](_ => false);
    rings, dropped := [], [];
    assert used[..] == NoneUsed(|ways|);
    NothingStitched(ways, true);
    for i := 0 to |ways|
      invariant Stitched(ways, used[..], chains, true)
      invariant forall k :: 0 <= k < i && Usable(ways[k]) ==> used[k]
      invariant forall k :: 0 <= k < |chains| ==> Sound(ways, chains[k]) && InRange(ways, chains[k])
      invariant rings == Kept(chains, true) && dropped == DroppedIds(ways, chains, true)
    {
      if used[i] || |ways[i].coords| < 2 {
        continue;
      }
      ghost var before := used[..];
      var c := BidiChain(ways, used, i, AllWays(chains));
      GrowingFacts(ways, before, used[..], AllWays(chains), c, i);
      AddChain(ways, before, used[..], chains, c, true);
      KeepOrDrop(ways, chains, c, true);
      var ring := SnapShut(c.coords);
      if IsClosedRing(ring) {
        rings := rings + [ring];
      } else {
        dropped := AppendIds(dropped, ways, c.ways);
      }
      chains := chains + [c];
    }
    StitchedFacts(ways, used[..], chains, true);
    SoundChainsStart(ways, chains);
    KeptSorts(ways, chains, true);
    ReturnedAreRings(ways, chains, rings, dropped, true);
    if EvenEndpoints(ways) {
      EvenDropsOnlyTinyChains(ways, chains, true);
    }
    assert Explains(ways, chains, rings, dropped, true);
  }

  lemma GrowingFacts(ways: seq<Way>, before: seq<bool>, now: seq<bool>, taken: seq<nat>, c: Chain, i: nat)
    requires Growing(ways, before, now, taken, c) && |c.ways| > 0 && c.ways[0] == i
    ensures |c.coords| > 0 && i < |ways| && now[i] && Sound(ways, c) && InRange(ways, c)
    ensures forall j :: 0 <= j < |ways| && before[j] ==> now[j]
  {
    hide Edges, WayEdges;
    assert (taken + c.ways)[|taken|] == i;
  }

  lemma StitchedFacts(ways: seq<Way>, used: seq<bool>, chains: seq<Chain>, bothEnds: bool)
    requires Stitched(ways, used, chains, bothEnds)
    requires forall k :: 0 <= k < |ways| && Usable(ways[k]) ==> used[k]
    ensures AllTaken(ways, chains)
    ensures forall k :: 0 <= k < |chains| ==> Sound(ways, chains[k])
    ensures EvenEndpoints(ways) ==> forall k :: 0 <= k < |chains| ==> !IsOpen(chains[k].coords)
    ensures forall k :: 0 <= k < |chains| && IsOpen(chains[k].coords) ==>
      Untouched(ways, chains, k, Last(chains[k].coords)) &&
        (bothEnds ==> Untouched(ways, chains, k, chains[k].coords[0]))
  {
    hide Edges, WayEdges, EvenEndpoints, AllEven;
    var taken := AllWays(chains);
    assert forall j :: j in taken ==> exists k :: 0 <= k < |taken| && taken[k] == j;
  }

  // ------------------------------------------------- what the chains imply

  /** A snap adds exactly the one edge that closes the ring. */
  lemma SnapAddsOneEdge(c: seq<Point>)
    requires |c| > 0
    ensures Edges(Snapped(c)) == Edges(c) + (if Snaps(c) then multiset{{Last(c), c[0]}} else multiset{})
    ensures Snaps(c) ==> IsClosedRing(Snapped(c)) && IsOpen(c)
  {
    if Snaps(c) {
      LastEdge(c + [c[0]], c, Last(c), c[0]);
    }
  }

  /** Chain k's ways end in its ring when it closes with four vertices, and are dropped otherwise. */
  lemma {:induction false} RingOrDropped(ways: seq<Way>, chains: seq<Chain>, snap: bool, k: nat)
    requires k < |chains| && forall i :: 0 <= i < |chains| ==> InRange(ways, chains[i])
    ensures var ring := if snap then Snapped(chains[k].coords) else chains[k].coords;
            assert InRange(ways, chains[k]);
            if IsClosedRing(ring) then ring in Kept(chains, snap)
            else forall i :: 0 <= i < |chains[k].ways| ==> ways[chains[k].ways[i]].id in DroppedIds(ways, chains, snap)
  {
    hide Snapped, IsClosedRing;
    var front := chains[..|chains| - 1];
    if k < |front| {
      RingOrDropped(ways, front, snap, k);
    } else {
      var ids := Ids(ways, chains[k].ways);
      assert forall i :: 0 <= i < |chains[k].ways| ==> ids[i] == ways[chains[k].ways[i]].id;
    }
  }

  /** The way with this id was dropped with a chain under four vertices. */
  ghost predicate DroppedTiny(ways: seq<Way>, chains: seq<Chain>, id: int) {
    exists k, i :: 0 <= k < |chains| && 0 <= i < |chains[k].ways| && chains[k].ways[i] < |ways| &&
      ways[chains[k].ways[i]].id == id && |chains[k].coords| < 4
  }

  lemma TinyInLonger(ways: seq<Way>, chains: seq<Chain>, c: Chain, id: int)
    requires DroppedTiny(ways, chains, id)
    ensures DroppedTiny(ways, chains + [c], id)
  {
    var k, i :| 0 <= k < |chains| && 0 <= i < |chains[k].ways| && chains[k].ways[i] < |ways| &&
      ways[chains[k].ways[i]].id == id && |chains[k].coords| < 4;
    assert (chains + [c])[k].ways[i] == chains[k].ways[i];
  }

  lemma TinyLast(ways: seq<Way>, chains: seq<Chain>, c: Chain, id: int)
    requires InRange(ways, c) && |c.coords| < 4 && id in Ids(ways, c.ways)
    ensures DroppedTiny(ways, chains + [c], id)
  {
    var i :| 0 <= i < |c.ways| && Ids(ways, c.ways)[i] == id;
    assert (chains + [c])[|chains|].ways[i] == c.ways[i];
  }

  /** With even endpoints nothing is left open: the only dropped ways are those of closed chains
      under four vertices. */
  lemma {:induction false} EvenDropsOnlyTinyChains(ways: seq<Way>, chains: seq<Chain>, snap: bool)
    requires forall i :: 0 <= i < |chains| ==>
             InRange(ways, chains[i]) && |chains[i].coords| > 0 && !IsOpen(chains[i].coords)
    ensures forall id :: id in DroppedIds(ways, chains, snap) ==> DroppedTiny(ways, chains, id)
  {
    hide DroppedTiny, Ids;
    if chains != [] {
      var front, c := chains[..|chains| - 1], chains[|chains| - 1];
      assert chains == front + [c];
      EvenDropsOnlyTinyChains(ways, front, snap);
      SnapAddsOneEdge(c.coords);
      forall id | id in DroppedIds(ways, chains, snap)
        ensures DroppedTiny(ways, chains, id)
      {
        if id in DroppedIds(ways, front, snap) {
          TinyInLonger(ways, front, c, id);
        } else {
          TinyLast(ways, front, c, id);
        }
      }
    }
  }
}
