/** The PCI-to-cost curve of internal/forecast/cost.go: tier midpoints become anchors, sorted by
    descending PCI, and prices are interpolated linearly between them. */
module CostCurve {
  import opened RealMath

  datatype CostTier = CostTier(minPCI: real, maxPCI: real, costPerSqM: real, tierLabel: string)

  datatype Anchor = Anchor(pci: real, cost: real)

  // ------------------------------------------------------------------ anchors

  /** A tier's midpoint anchor; the MaxPCI sentinel of 101 is capped to 100. */
  function TierAnchor(t: CostTier): Anchor {
    Anchor((t.minPCI + Min(t.maxPCI, 100.0)) / 2.0, t.costPerSqM)
  }

  function TierAnchors(tiers: seq<CostTier>): seq<Anchor> {
    seq(|tiers|, i requires 0 <= i < |tiers| => TierAnchor(tiers[i]))
  }

  ghost predicate SortedByPCI(a: seq<Anchor>) {
    forall i, j :: 0 <= i < j < |a| ==> a[i].pci >= a[j].pci
  }

  ghost predicate CostsRise(a: seq<Anchor>) {
    forall i, j :: 0 <= i < j < |a| ==> a[i].cost <= a[j].cost
  }

  ghost predicate CostsPositive(a: seq<Anchor>) {
    forall i :: 0 <= i < |a| ==> a[i].cost > 0.0
  }

  /** The first position whose anchor is not above pci. */
  function FirstAtMost(a: seq<Anchor>, pci: real): (k: nat)
    ensures k <= |a|
    ensures forall i :: 0 <= i < k ==> a[i].pci > pci
    ensures k < |a| ==> a[k].pci <= pci
  {
    if a == [] || a[0].pci <= pci then 0 else 1 + FirstAtMost(a[1..], pci)
  }

  /** Inserts x, which came before every element of a in the input, keeping the order stable. */
  function Insert(x: Anchor, a: seq<Anchor>): seq<Anchor> {
    var k := FirstAtMost(a, x.pci);
    a[..k] + [x] + a[k..]
  }

  /** The unique stable sort by descending PCI. */
  function StableSort(a: seq<Anchor>): seq<Anchor> {
    if a == [] then [] else Insert(a[0], StableSort(a[1..]))
  }

  lemma InsertSorts(x: Anchor, a: seq<Anchor>)
    requires SortedByPCI(a)
    ensures SortedByPCI(Insert(x, a))
  {
  }

  lemma InsertPermutes(x: Anchor, a: seq<Anchor>)
    ensures multiset(Insert(x, a)) == multiset(a) + multiset{x}
  {
    var k := FirstAtMost(a, x.pci);
    assert a == a[..k] + a[k..];
  }

  /** Sorting orders the anchors and loses none. */
  lemma {:induction false} SortSorts(a: seq<Anchor>)
    ensures SortedByPCI(StableSort(a)) && multiset(StableSort(a)) == multiset(a)
    ensures |StableSort(a)| == |a|
  {
    hide Insert;
    if a != [] {
      SortSorts(a[1..]);
      InsertSorts(a[0], StableSort(a[1..]));
      InsertPermutes(a[0], StableSort(a[1..]));
      assert a == [a[0]] + a[1..];
    }
    assert |multiset(StableSort(a))| == |multiset(a)|;
  }

  /** The anchors at one midpoint, in order. */
  function AtPCI(a: seq<Anchor>, pci: real): seq<Anchor> {
    if a == [] then [] else AtPCI(a[..|a| - 1], pci) + if a[|a| - 1].pci == pci then [a[|a| - 1]] else []
  }

  lemma {:induction false} AtPCIJoin(a: seq<Anchor>, b: seq<Anchor>, pci: real)
    ensures AtPCI(a + b, pci) == AtPCI(a, pci) + AtPCI(b, pci)
  {
    if b == [] {
      assert a + b == a;
    } else {
      assert (a + b)[..|a + b| - 1] == a + b[..|b| - 1];
      AtPCIJoin(a, b[..|b| - 1], pci);
    }
  }

  lemma {:induction false} NoneAtPCI(a: seq<Anchor>, pci: real)
    requires forall i :: 0 <= i < |a| ==> a[i].pci != pci
    ensures AtPCI(a, pci) == []
  {
    if a != [] {
      NoneAtPCI(a[..|a| - 1], pci);
    }
  }

  lemma InsertAtPCI(x: Anchor, a: seq<Anchor>, pci: real)
    ensures AtPCI(Insert(x, a), pci) == AtPCI([x], pci) + AtPCI(a, pci)
  {
    hide AtPCI;
    var k := FirstAtMost(a, x.pci);
    AtPCIJoin(a[..k], [x], pci);
    AtPCIJoin(a[..k] + [x], a[k..], pci);
    AtPCIJoin(a[..k], a[k..], pci);
    assert a == a[..k] + a[k..];
    if x.pci == pci {
      NoneAtPCI(a[..k], pci);
    } else {
      NoneAtPCI([x], pci);
    }
  }

  /** Anchors with one midpoint keep their order. */
  lemma {:induction false} SortIsStable(a: seq<Anchor>, pci: real)
    ensures AtPCI(StableSort(a), pci) == AtPCI(a, pci)
  {
    hide AtPCI, Insert;
    if a != [] {
      SortIsStable(a[1..], pci);
      InsertAtPCI(a[0], StableSort(a[1..]), pci);
      AtPCIJoin([a[0]], a[1..], pci);
      assert [a[0]] + a[1..] == a;
    }
  }

  /** A price order a tier list can be read off for: the tier with the lower midpoint costs at
      least as much, and of two tiers with one midpoint the later costs at least as much. */
  ghost predicate PricesFallWithPCI(a: seq<Anchor>) {
    forall i, j :: 0 <= i < j < |a| ==>
      if a[i].pci >= a[j].pci then a[i].cost <= a[j].cost else a[i].cost >= a[j].cost
  }

  lemma InsertKeepsCostsRising(x: Anchor, a: seq<Anchor>)
    requires SortedByPCI(a) && CostsRise(a)
    requires forall i :: 0 <= i < |a| ==> if x.pci >= a[i].pci then x.cost <= a[i].cost else x.cost >= a[i].cost
    ensures CostsRise(Insert(x, a))
  {
    var k := FirstAtMost(a, x.pci);
    assert forall i :: k <= i < |a| ==> a[i].pci <= a[k].pci;
  }

  lemma {:induction false} SortedCostsRise(a: seq<Anchor>)
    requires PricesFallWithPCI(a)
    ensures CostsRise(StableSort(a))
  {
    hide Insert, FirstAtMost;
    if a != [] {
      var rest := a[1..];
      assert forall i :: 0 <= i < |rest| ==> rest[i] == a[i + 1];
      SortedCostsRise(rest);
      SortSorts(rest);
      var sorted := StableSort(rest);
      forall i | 0 <= i < |sorted|
        ensures if a[0].pci >= sorted[i].pci then a[0].cost <= sorted[i].cost else a[0].cost >= sorted[i].cost
      {
        var y := sorted[i];
        assert y in multiset(sorted);
        assert y in rest;
        var k :| 0 <= k < |rest| && rest[k] == y;
        assert a[k + 1] == y;
      }
      InsertKeepsCostsRising(a[0], sorted);
    }
  }

  lemma SortKeepsPositive(a: seq<Anchor>)
    requires CostsPositive(a)
    ensures CostsPositive(StableSort(a))
  {
    var r := StableSort(a);
    SortSorts(a);
    forall i | 0 <= i < |r|
      ensures r[i].cost > 0.0
    {
      assert r[i] in multiset(r);
      assert r[i] in multiset(a);
    }
  }

  // ------------------------------------------------------------ interpolation

  /** The part of a segment's price difference reached at fraction t. */
  function Rise(t: real, difference: real): real {
    t * difference
  }

  lemma RiseMonotone(t: real, u: real, difference: real)
    requires 0.0 <= t <= u <= 1.0 && difference >= 0.0
    ensures 0.0 <= Rise(t, difference) <= Rise(u, difference) <= difference
  {
    MulMonotone(t, u, difference, t * difference, u * difference);
    UnitShare(difference, t, difference * t);
    UnitShare(difference, u, difference * u);
  }

  lemma FractionOfSpan(a: real, b: real, span: real)
    requires 0.0 <= a <= b <= span && span > 0.0
    ensures 0.0 <= a / span <= b / span <= 1.0
  {
    DivMonotone(a, b, span);
    DivMonotone(b, span, span);
  }

  /** The price on the segment from hi down to lo. */
  function OnSegment(hi: Anchor, lo: Anchor, pci: real): real {
    var span := hi.pci - lo.pci;
    if span == 0.0 then hi.cost else hi.cost + Rise((hi.pci - pci) / span, lo.cost - hi.cost)
  }

  function FromSegment(a: seq<Anchor>, i: nat, pci: real): real
    requires i < |a|
    decreases |a| - i
  {
    if i + 1 == |a| then a[i].cost
    else if a[i].pci >= pci >= a[i + 1].pci then OnSegment(a[i], a[i + 1], pci)
    else FromSegment(a, i + 1, pci)
  }

  /** The curve itself, as a function of PCI. */
  function CostAt(a: seq<Anchor>, pci: real): real {
    if |a| == 0 then 0.0
    else if pci >= a[0].pci then a[0].cost
    else if pci <= a[|a| - 1].pci then a[|a| - 1].cost
    else FromSegment(a, 0, pci)
  }

  /** The source's scan for the bracketing pair. */
  method InterpolateCost(a: seq<Anchor>, pci: real) returns (cost: real)
    ensures cost == CostAt(a, pci)
  {
    if |a| == 0 {
      return 0.0;
    }
    if pci >= a[0].pci {
      return a[0].cost;
    }
    var last := a[|a| - 1];
    if pci <= last.pci {
      return last.cost;
    }
    for i := 0 to |a| - 1
      invariant FromSegment(a, 0, pci) == FromSegment(a, i, pci)
    {
      var hi, lo := a[i], a[i + 1];
      if pci <= hi.pci && pci >= lo.pci {
        var span := hi.pci - lo.pci;
        if span == 0.0 {
          return hi.cost;
        }
        var t := (hi.pci - pci) / span;
        return hi.cost + t * (lo.cost - hi.cost);
      }
    }
    return last.cost;
  }

  /** On one segment the price stays between the two anchors' and rises as PCI falls. */
  lemma SegmentMonotone(hi: Anchor, lo: Anchor, p: real, q: real)
    requires hi.pci >= q >= p >= lo.pci && hi.cost <= lo.cost
    ensures hi.cost <= OnSegment(hi, lo, q) <= OnSegment(hi, lo, p) <= lo.cost
  {
    hide Rise;
    var span := hi.pci - lo.pci;
    if span > 0.0 {
      FractionOfSpan(hi.pci - q, hi.pci - p, span);
      RiseMonotone((hi.pci - q) / span, (hi.pci - p) / span, lo.cost - hi.cost);
    }
  }

  lemma SegmentEnds(hi: Anchor, lo: Anchor)
    requires hi.pci > lo.pci
    ensures OnSegment(hi, lo, hi.pci) == hi.cost && OnSegment(hi, lo, lo.pci) == lo.cost
  {
  }

  /** Inside the anchors' range, the scan stops at the first bracket. */
  lemma {:induction false} BracketAt(a: seq<Anchor>, i: nat, pci: real) returns (k: nat)
    requires SortedByPCI(a) && i + 1 < |a| && a[i].pci >= pci > a[|a| - 1].pci
    ensures i <= k < |a| - 1 && a[k].pci >= pci >= a[k + 1].pci
    ensures FromSegment(a, i, pci) == OnSegment(a[k], a[k + 1], pci)
    ensures forall m :: i < m <= k ==> pci < a[m].pci
    decreases |a| - i
  {
    if pci >= a[i + 1].pci {
      k := i;
    } else {
      k := BracketAt(a, i + 1, pci);
    }
  }

  lemma CostBounds(a: seq<Anchor>, pci: real)
    requires |a| > 0 && SortedByPCI(a) && CostsRise(a)
    ensures a[0].cost <= CostAt(a, pci) <= a[|a| - 1].cost
  {
    if a[|a| - 1].pci < pci < a[0].pci {
      var k := BracketAt(a, 0, pci);
      SegmentMonotone(a[k], a[k + 1], pci, pci);
    }
  }

  /** The curve never charges less for worse pavement. */
  lemma CostNonIncreasing(a: seq<Anchor>, p: real, q: real)
    requires SortedByPCI(a) && CostsRise(a) && p <= q
    ensures CostAt(a, p) >= CostAt(a, q)
  {
    if |a| > 0 {
      CostBounds(a, p);
      CostBounds(a, q);
      if a[|a| - 1].pci < p && q < a[0].pci {
        var kp := BracketAt(a, 0, p);
        var kq := BracketAt(a, 0, q);
        SegmentMonotone(a[kp], a[kp + 1], p, p);
        SegmentMonotone(a[kq], a[kq + 1], q, q);
        if kp == kq {
          SegmentMonotone(a[kp], a[kp + 1], p, q);
        } else if kp < kq {
          assert false;
        }
      }
    }
  }

  lemma CostPositive(a: seq<Anchor>, pci: real)
    requires |a| > 0 && SortedByPCI(a) && CostsRise(a) && CostsPositive(a)
    ensures CostAt(a, pci) > 0.0
  {
    CostBounds(a, pci);
  }

  /** With distinct midpoints, rising anchor costs are also necessary for a non-increasing curve. */
  lemma CurveMonotoneIff(a: seq<Anchor>)
    requires forall i, j :: 0 <= i < j < |a| ==> a[i].pci > a[j].pci
    ensures CostsRise(a) <==> forall p, q :: p <= q ==> CostAt(a, p) >= CostAt(a, q)
  {
    if CostsRise(a) {
      forall p, q | p <= q
        ensures CostAt(a, p) >= CostAt(a, q)
      {
        CostNonIncreasing(a, p, q);
      }
    }
    if forall p, q :: p <= q ==> CostAt(a, p) >= CostAt(a, q) {
      forall i, j | 0 <= i < j < |a|
        ensures a[i].cost <= a[j].cost
      {
        CostAtAnchor(a, i);
        CostAtAnchor(a, j);
        assert a[j].pci <= a[i].pci;
      }
    }
  }

  lemma CostAtAnchor(a: seq<Anchor>, i: nat)
    requires forall m, n :: 0 <= m < n < |a| ==> a[m].pci > a[n].pci
    requires i < |a|
    ensures CostAt(a, a[i].pci) == a[i].cost
  {
    if 0 < i < |a| - 1 {
      var k := BracketAt(a, 0, a[i].pci);
      assert a[k + 1].pci <= a[i].pci <= a[k].pci;
      assert k == i || k + 1 == i;
      SegmentEnds(a[k], a[k + 1]);
    }
  }

  /** The price in full: flat beyond the end anchors, and between two neighbours on the line through them. */
  lemma CurveInFull(a: seq<Anchor>, pci: real)
    requires |a| > 0 && SortedByPCI(a)
    ensures pci >= a[0].pci ==> CostAt(a, pci) == a[0].cost
    ensures pci < a[0].pci && pci <= a[|a| - 1].pci ==> CostAt(a, pci) == a[|a| - 1].cost
    ensures forall k :: 0 <= k < |a| - 1 && a[k].pci > pci > a[k + 1].pci ==>
              (CostAt(a, pci) - a[k].cost) * (a[k].pci - a[k + 1].pci) ==
              (a[k].pci - pci) * (a[k + 1].cost - a[k].cost)
  {
    hide FromSegment, OnSegment;
    forall k | 0 <= k < |a| - 1 && a[k].pci > pci > a[k + 1].pci
      ensures (CostAt(a, pci) - a[k].cost) * (a[k].pci - a[k + 1].pci) ==
              (a[k].pci - pci) * (a[k + 1].cost - a[k].cost)
    {
      var bracket := BracketAt(a, 0, pci);
      assert bracket == k;
      SegmentLine(a[k], a[k + 1], pci);
    }
  }

  lemma SegmentLine(hi: Anchor, lo: Anchor, pci: real)
    requires hi.pci > lo.pci
    ensures (OnSegment(hi, lo, pci) - hi.cost) * (hi.pci - lo.pci) == (hi.pci - pci) * (lo.cost - hi.cost)
  {
    var span, t := hi.pci - lo.pci, (hi.pci - pci) / (hi.pci - lo.pci);
    assert t * span == hi.pci - pci;
    assert (t * (lo.cost - hi.cost)) * span == (t * span) * (lo.cost - hi.cost);
  }

  // ------------------------------------------------------------ the projector

  const DefaultCostTiers: seq<CostTier> := [
    CostTier(70.0, 101.0, 5.0, "preventive"),
    CostTier(40.0, 70.0, 50.0, "rehab"),
    CostTier(0.0, 40.0, 150.0, "reconstruction")]

  function ScaleCosts(a: seq<Anchor>, f: real): seq<Anchor> {
    seq(|a|, i requires 0 <= i < |a| => Anchor(a[i].pci, a[i].cost * f))
  }

  function EffectiveTiers(tiers: seq<CostTier>): seq<CostTier> {
    if |tiers| == 0 then DefaultCostTiers else tiers
  }

  function LoadCosts(a: seq<Anchor>, overhead: real): seq<Anchor> {
    if overhead <= 0.0 || overhead == 1.0 then a else ScaleCosts(a, overhead)
  }

  /** The anchors a projector prices from: its tiers, else the defaults, with overhead folded in. */
  function ProjectorAnchors(tiers: seq<CostTier>, overhead: real): seq<Anchor> {
    LoadCosts(StableSort(TierAnchors(EffectiveTiers(tiers))), overhead)
  }

  /** What a caller checks on its tiers: positive prices that do not fall as PCI falls. */
  ghost predicate SoundTiers(tiers: seq<CostTier>) {
    PricesFallWithPCI(TierAnchors(tiers)) && CostsPositive(TierAnchors(tiers))
  }

  /** What the forecast theorems need of the anchors. */
  ghost predicate SoundCurve(a: seq<Anchor>) {
    |a| > 0 && SortedByPCI(a) && CostsRise(a) && CostsPositive(a)
  }

  lemma DefaultTiersAreSound()
    ensures SoundTiers(DefaultCostTiers)
  {
    assert TierAnchors(DefaultCostTiers) == [Anchor(85.0, 5.0), Anchor(55.0, 50.0), Anchor(20.0, 150.0)];
  }

  /** The anchors in full: one for each tier, at the middle of its band, cut at 100, and at its price, in
      stable order of descending PCI. */
  lemma AnchorsInFull(tiers: seq<CostTier>, pci: real)
    requires tiers != []
    ensures var a := ProjectorAnchors(tiers, 1.0);
            var middles := seq(|tiers|, i requires 0 <= i < |tiers| =>
              Anchor((tiers[i].minPCI + if tiers[i].maxPCI > 100.0 then 100.0 else tiers[i].maxPCI) / 2.0,
                     tiers[i].costPerSqM));
            SortedByPCI(a) && multiset(a) == multiset(middles) && AtPCI(a, pci) == AtPCI(middles, pci)
  {
    hide AtPCI, StableSort;
    var middles := seq(|tiers|, i requires 0 <= i < |tiers| =>
      Anchor((tiers[i].minPCI + if tiers[i].maxPCI > 100.0 then 100.0 else tiers[i].maxPCI) / 2.0,
             tiers[i].costPerSqM));
    assert TierAnchors(tiers) == middles;
    SortSorts(middles);
    SortIsStable(middles, pci);
  }

  /** The default schedule's curve, which is also that of no tiers at all. */
  lemma DefaultCurve()
    ensures ProjectorAnchors(DefaultCostTiers, 1.0) == [Anchor(85.0, 5.0), Anchor(55.0, 50.0), Anchor(20.0, 150.0)]
    ensures ProjectorAnchors([], 1.0) == ProjectorAnchors(DefaultCostTiers, 1.0)
  {
    var a := [Anchor(85.0, 5.0), Anchor(55.0, 50.0), Anchor(20.0, 150.0)];
    assert TierAnchors(DefaultCostTiers) == a;
    assert a[1..] == [a[1], a[2]] && a[1..][1..] == [a[2]] && [a[2]][1..] == [];
    assert StableSort([a[2]]) == [a[2]];
    assert StableSort(a[1..]) == [a[1], a[2]];
  }

  lemma ScalingKeepsSound(a: seq<Anchor>, f: real)
    requires SoundCurve(a) && f > 0.0
    ensures SoundCurve(ScaleCosts(a, f))
  {
    var b := ScaleCosts(a, f);
    forall i, j | 0 <= i <= j < |a|
      ensures 0.0 < b[i].cost <= b[j].cost
    {
      ScaledCosts(a[i].cost, a[j].cost, f, b[i].cost, b[j].cost);
    }
  }

  lemma ScaledCosts(c: real, d: real, f: real, cf: real, df: real)
    requires 0.0 < c <= d && f > 0.0 && cf == c * f && df == d * f
    ensures 0.0 < cf <= df
  {
    MulMonotone(c, d, f, cf, df);
    MulMonotone(0.0, c, f, 0.0, cf);
  }

  lemma SortedSound(a: seq<Anchor>)
    requires |a| > 0 && PricesFallWithPCI(a) && CostsPositive(a)
    ensures SoundCurve(StableSort(a))
  {
    SortSorts(a);
    SortedCostsRise(a);
    SortKeepsPositive(a);
  }

  /** Sound tiers (the defaults among them) give a sound curve at any overhead. */
  lemma SoundTiersGiveSoundCurve(tiers: seq<CostTier>, overhead: real)
    requires SoundTiers(tiers)
    ensures SoundCurve(ProjectorAnchors(tiers, overhead))
  {
    DefaultTiersAreSound();
    var a := TierAnchors(EffectiveTiers(tiers));
    SortedSound(a);
    if overhead > 0.0 {
      ScalingKeepsSound(StableSort(a), overhead);
    }
  }

  lemma ScaledSegment(hi: Anchor, lo: Anchor, high: Anchor, low: Anchor, f: real, pci: real)
    requires high.pci == hi.pci && low.pci == lo.pci && high.cost == hi.cost * f && low.cost == lo.cost * f
    ensures OnSegment(high, low, pci) == Part(OnSegment(hi, lo, pci), f)
  {
    var span := hi.pci - lo.pci;
    if span != 0.0 {
      var t := (hi.pci - pci) / span;
      assert t * (lo.cost * f - hi.cost * f) == t * (lo.cost - hi.cost) * f;
    }
  }

  lemma {:induction false} ScaledFrom(a: seq<Anchor>, f: real, i: nat, pci: real)
    requires i < |a|
    ensures FromSegment(ScaleCosts(a, f), i, pci) == Part(FromSegment(a, i, pci), f)
    decreases |a| - i
  {
    hide OnSegment, Part;
    var b := ScaleCosts(a, f);
    ScaledCost(a[i].cost, f);
    if i + 1 < |a| {
      ScaledSegment(a[i], a[i + 1], b[i], b[i + 1], f, pci);
      ScaledFrom(a, f, i + 1, pci);
    }
  }

  lemma ScaledCost(cost: real, f: real)
    ensures cost * f == Part(cost, f)
    ensures f == 1.0 ==> Part(cost, f) == cost
  {
  }

  /** An overhead multiplies every price; none given is an overhead of 1. */
  lemma OverheadMultiplies(tiers: seq<CostTier>, overhead: real, pci: real)
    ensures CostAt(ProjectorAnchors(tiers, overhead), pci) ==
            Part(CostAt(ProjectorAnchors(tiers, 1.0), pci), if overhead <= 0.0 then 1.0 else overhead)
  {
    hide StableSort, TierAnchors, FromSegment, Part;
    var a := ProjectorAnchors(tiers, 1.0);
    if overhead <= 0.0 || overhead == 1.0 {
      ScaledCost(CostAt(a, pci), 1.0);
    } else if |a| > 0 {
      ScaledFrom(a, overhead, 0, pci);
      ScaledCost(a[0].cost, overhead);
      ScaledCost(a[|a| - 1].cost, overhead);
    } else {
      PartOfSum(0.0, 0.0, overhead);
    }
  }

  predicate InBand(t: CostTier, pci: real) {
    t.minPCI <= pci < t.maxPCI
  }

  /** How far a PCI lies from a tier's band. */
  function BandDistance(t: CostTier, pci: real): real {
    if pci < t.minPCI then t.minPCI - pci else if pci >= t.maxPCI then pci - t.maxPCI else 0.0
  }

  /** The first of the tiers from position i whose band contains the PCI, or |tiers|. */
  function FirstBand(tiers: seq<CostTier>, i: nat, pci: real): (k: nat)
    requires i <= |tiers|
    ensures i <= k <= |tiers| && (k < |tiers| ==> InBand(tiers[k], pci))
    ensures forall j :: i <= j < k ==> !InBand(tiers[j], pci)
    decreases |tiers| - i
  {
    if i == |tiers| || InBand(tiers[i], pci) then i else FirstBand(tiers, i + 1, pci)
  }

  /** The position of the first of the first n tiers that is nearest. */
  function NearestUpTo(tiers: seq<CostTier>, n: nat, pci: real): (k: nat)
    requires 0 < n <= |tiers|
    ensures k < n
  {
    if n == 1 then 0
    else
      var k := NearestUpTo(tiers, n - 1, pci);
      if BandDistance(tiers[n - 1], pci) < BandDistance(tiers[k], pci) then n - 1 else k
  }

  function TierLabel(tiers: seq<CostTier>, pci: real): string {
    var all := EffectiveTiers(tiers);
    var k := FirstBand(all, 0, pci);
    if k < |all| then all[k].tierLabel else all[NearestUpTo(all, |all|, pci)].tierLabel
  }

  lemma {:induction false} NearestIsNearest(tiers: seq<CostTier>, n: nat, pci: real)
    requires 0 < n <= |tiers|
    ensures var k := NearestUpTo(tiers, n, pci);
            forall i :: 0 <= i < n ==> BandDistance(tiers[k], pci) <= BandDistance(tiers[i], pci)
  {
    if n > 1 {
      NearestIsNearest(tiers, n - 1, pci);
    }
  }

  /** A year's label is that of a tier at the least distance from its PCI, and of the first whose band
      contains the PCI where one does. */
  lemma TierLabelIsNearest(tiers: seq<CostTier>, pci: real)
    ensures var all := EffectiveTiers(tiers);
            && (exists k :: 0 <= k < |all| && TierLabel(tiers, pci) == all[k].tierLabel &&
                            forall i :: 0 <= i < |all| ==> BandDistance(all[k], pci) <= BandDistance(all[i], pci))
            && (forall k ::
                  (0 <= k < |all| && InBand(all[k], pci) && forall j :: 0 <= j < k ==> !InBand(all[j], pci)) ==>
                  TierLabel(tiers, pci) == all[k].tierLabel)
  {
    hide BandDistance;
    var all := EffectiveTiers(tiers);
    NearestIsNearest(all, |all|, pci);
    var k := FirstBand(all, 0, pci);
    if k < |all| {
      ContainsIsNearest(all, k, pci);
    }
  }

  lemma ContainsIsNearest(tiers: seq<CostTier>, k: nat, pci: real)
    requires k < |tiers| && InBand(tiers[k], pci)
    ensures forall i :: 0 <= i < |tiers| ==> BandDistance(tiers[k], pci) <= BandDistance(tiers[i], pci)
  {
  }

  /** TieredCostProjector: the anchors are built on first use and memoised. */
  class TieredCostProjector {
    const tiers: seq<CostTier>
    const overhead: real
    var built: bool
    var anchors: seq<Anchor>

    ghost predicate Valid()
      reads this
    {
      built ==> anchors == ProjectorAnchors(tiers, overhead)
    }

    constructor (tiers: seq<CostTier>, overhead: real)
      ensures Valid() && this.tiers == tiers && this.overhead == overhead
    {
      this.tiers := tiers;
      this.overhead := overhead;
      built := false;
      anchors := [];
    }

    method ResolvedAnchors() returns (a: seq<Anchor>)
      requires Valid()
      modifies this
      ensures Valid() && a == ProjectorAnchors(tiers, overhead)
    {
      hide StableSort, TierAnchors, EffectiveTiers;
      if !built {
        anchors := StableSort(TierAnchors(EffectiveTiers(tiers)));
        var load := if overhead <= 0.0 then 1.0 else overhead;
        if load != 1.0 {
          ghost var bare := anchors;
          for i := 0 to |anchors|
            invariant |anchors| == |bare|
            invariant forall k :: 0 <= k < i ==> anchors[k] == Anchor(bare[k].pci, bare[k].cost * load)
            invariant forall k :: i <= k < |bare| ==> anchors[k] == bare[k]
          {
            anchors := anchors[i := Anchor(anchors[i].pci, anchors[i].cost * load)];
          }
          assert forall k :: 0 <= k < |bare| ==> anchors[k] == ScaleCosts(bare, load)[k];
          assert anchors == ScaleCosts(bare, load);
        }
        built := true;
      }
      return anchors;
    }

    method ProjectCost(area: real, pci: real) returns (cost: real)
      requires Valid()
      modifies this
      ensures Valid() && cost == area * CostAt(ProjectorAnchors(tiers, overhead), pci)
    {
      hide CostAt, ProjectorAnchors;
      var a := ResolvedAnchors();
      var unit := InterpolateCost(a, pci);
      cost := area * unit;
    }

    /** TierForPCI: the band's label, or in a coverage gap the nearest band's. */
    method TierForPCI(pci: real) returns (tierLabel: string)
      ensures tierLabel == TierLabel(tiers, pci)
    {
      var all := EffectiveTiers(tiers);
      tierLabel := TierForPCIIn(all, pci);
      if tierLabel == "" {
        tierLabel := NearestTierLabel(all, pci);
      }
    }
  }

  /** The label of the first band that contains the PCI, or "". */
  method TierForPCIIn(tiers: seq<CostTier>, pci: real) returns (tierLabel: string)
    ensures var k := FirstBand(tiers, 0, pci); tierLabel == if k < |tiers| then tiers[k].tierLabel else ""
  {
    for i := 0 to |tiers|
      invariant FirstBand(tiers, 0, pci) == FirstBand(tiers, i, pci)
    {
      if pci >= tiers[i].minPCI && pci < tiers[i].maxPCI {
        return tiers[i].tierLabel;
      }
    }
    return "";
  }

  /** nearestTierLabel. */
  method NearestTierLabel(tiers: seq<CostTier>, pci: real) returns (tierLabel: string)
    ensures tiers == [] ==> tierLabel == ""
    ensures var k := FirstBand(tiers, 0, pci);
            tiers != [] ==> tierLabel == tiers[if k < |tiers| then k else NearestUpTo(tiers, |tiers|, pci)].tierLabel
  {
    var best, bestDist := "", 0.0;
    for i := 0 to |tiers|
      invariant FirstBand(tiers, 0, pci) == FirstBand(tiers, i, pci)
      invariant i == 0 ==> best == ""
      invariant i > 0 ==> best == tiers[NearestUpTo(tiers, i, pci)].tierLabel &&
                          bestDist == BandDistance(tiers[NearestUpTo(tiers, i, pci)], pci)
    {
      if InBand(tiers[i], pci) {
        return tiers[i].tierLabel;
      }
      var d := if pci < tiers[i].minPCI then tiers[i].minPCI - pci else pci - tiers[i].maxPCI;
      if i == 0 || d < bestDist {
        best, bestDist := tiers[i].tierLabel, d;
      }
    }
    return best;
  }
}
