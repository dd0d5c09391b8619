/** Two budgets whose insolvency headlines are out of order, internal/game/game.go: an accepted condition
    so close to 100 that the spread leaves the scale, under the default tiers. Any funding at all
    pulls the last band down to 100, from where it decays into the dearer tiers. */
module HeadlineOrder {
  import opened RealMath
  import opened CostCurve
  import opened Scenario
  import opened ScenarioLaws
  import opened Solvency
  import opened ConditionSpread
  import opened SpreadScale
  import opened GameHeadline

  /** A network of nine units of road that loses half its condition a year, on a cycle of 2.02 years. */
  function NearPerfect(k: real): Outlook {
    Outlook([CohortConfig("road", 9.0, k)], 99.999, 0.0, DefaultCostTiers, 2.02, 3.0)
  }

  function Road(k: real): Cohort {
    Cohort("road", 9.0, k, 99.999)
  }

  /** What the Beta of a mean this close to 1 meets: at the last width below 1 both functions are about
      0.003. */
  ghost predicate Extreme(interior: BetaFn, k: real) {
    Saturated(interior, Road(k), 1) && 0.0 <= MomentCdf(interior, Road(k), SaturatedBound) <= 0.01
  }

  // ----------------------------------------------------------- nine equal bands

  /** Nine cohorts of one unit each, priced by the default tiers, halving every year. */
  ghost predicate NineBands(m: Model) {
    && |m.cohorts| == 9 && (forall j :: 0 <= j < 9 ==> m.cohorts[j].area == 1.0 && Halving(m, j))
    && m.anchors == [Anchor(85.0, 5.0), Anchor(55.0, 50.0), Anchor(20.0, 150.0)]
    && m.growthRate == 0.0 && m.cycleYears == 2.02
  }

  ghost predicate Halving(m: Model, j: nat) {
    j < |m.cohorts| && m.cohorts[j].decayRate > 0.0 && m.exp(-m.cohorts[j].decayRate) == 0.5
  }

  /** The first band's condition is low, the last one's is y, and the others are at 0. */
  ghost predicate Barbell(pcis: seq<real>, y: real) {
    && |pcis| == 9 && 0.0 <= pcis[0] <= 20.0 && pcis[8] == y && y > 0.0
    && forall j :: 0 < j < 8 ==> pcis[j] == 0.0
  }

  lemma {:induction false} UnitAreas(cohorts: seq<Cohort>, n: nat)
    requires n <= |cohorts| && forall j :: 0 <= j < |cohorts| ==> cohorts[j].area == 1.0
    ensures SumUpTo(Areas(cohorts), n) == n as real
  {
    if n > 0 {
      UnitAreas(cohorts, n - 1);
    }
  }

  lemma BandArea(m: Model, year: nat, j: nat)
    requires NineBands(m) && j < 9
    ensures GrownArea(TotalArea(m.cohorts), m.growthRate, year) == 9.0 && AreaFraction(m.cohorts, j) == 1.0 / 9.0
  {
    hide CostAt;
    UnitAreas(m.cohorts, 9);
    NoGrowth(TotalArea(m.cohorts), year);
  }

  lemma NoGrowth(area: real, year: nat)
    ensures GrownArea(area, 0.0, year) == area
  {
  }

  /** A year's share of the full price on a cycle of 2.02 years. */
  function Slice(price: real): real {
    Part(price, 1.0 / 2.02)
  }

  lemma BandDecays(m: Model, j: nat, pci: real)
    requires NineBands(m) && j < 9 && pci >= 0.0
    ensures Decayed(m, j, pci) == pci / 2.0
  {
    hide CostAt;
    assert Halving(m, j);
  }

  lemma NinthOf(price: real, cycle: real)
    requires cycle == 2.02
    ensures 9.0 * (1.0 / 9.0) * price * (1.0 / cycle) == Slice(price)
  {
  }

  lemma BandNeed(m: Model, year: nat, j: nat, pci: real)
    requires NineBands(m) && j < 9 && pci >= 0.0
    ensures Need(m, year, j, pci) == Slice(CostAt(m.anchors, pci / 2.0))
  {
    hide CostAt, GrownArea, TotalArea, AreaFraction, Decayed, Slice, ResolveCycleYears;
    BandArea(m, year, j);
    BandDecays(m, j, pci);
    CycleStands(m);
    NinthOf(CostAt(m.anchors, pci / 2.0), ResolveCycleYears(m.cycleYears));
  }

  lemma CycleStands(m: Model)
    requires NineBands(m)
    ensures ResolveCycleYears(m.cycleYears) == 2.02
  {
  }

  lemma LowPrice(a: seq<Anchor>, pci: real)
    requires a == [Anchor(85.0, 5.0), Anchor(55.0, 50.0), Anchor(20.0, 150.0)] && pci <= 20.0
    ensures CostAt(a, pci) == 150.0
  {
  }

  lemma {:induction false} Repeated(s: seq<real>, v: real, n: nat)
    requires n <= |s| && forall j :: 0 <= j < n ==> s[j] == v
    ensures SumUpTo(s, n) == Part(v, n as real)
  {
    if n > 0 {
      Repeated(s, v, n - 1);
    }
  }

  /** Eight bands at the dearest price and the last at its own. */
  lemma BarbellNeeds(m: Model, year: nat, pcis: seq<real>, y: real)
    requires NineBands(m) && Barbell(pcis, y)
    ensures var needs := Needs(m, year, pcis);
            && (forall j :: 0 <= j < 8 ==> needs[j] == Slice(150.0))
            && needs[8] == Slice(CostAt(m.anchors, y / 2.0))
            && Sum(needs) == Slice(1200.0 + CostAt(m.anchors, y / 2.0))
  {
    hide CostAt, Need, Slice, NineBands;
    NineFacts(m);
    var needs := Needs(m, year, pcis);
    forall j: nat | j < 9
      ensures needs[j] == Slice(if j < 8 then 150.0 else CostAt(m.anchors, y / 2.0))
    {
      BandNeed(m, year, j, pcis[j]);
      if j < 8 {
        LowPrice(m.anchors, pcis[j] / 2.0);
      }
    }
    Repeated(needs, Slice(150.0), 8);
    assert SumUpTo(needs, 9) == SumUpTo(needs, 8) + needs[8];
    EightSlices(CostAt(m.anchors, y / 2.0));
  }

  lemma NineFacts(m: Model)
    requires NineBands(m)
    ensures |m.cohorts| == 9 && m.anchors == [Anchor(85.0, 5.0), Anchor(55.0, 50.0), Anchor(20.0, 150.0)]
  {
  }

  lemma EightSlices(last: real)
    ensures Part(Slice(150.0), 8.0) + Slice(last) == Slice(1200.0 + last)
  {
  }

  // ------------------------------------------------------------- one year each

  lemma SpentNothing(os: seq<Outcome>)
    requires forall j :: 0 <= j < |os| ==> os[j].spent == 0.0
    ensures Sum(Spent(os)) == 0.0
  {
    SumOfZeros(Spent(os), |os|);
  }

  lemma NothingOf(total: real, need: real)
    ensures CohortSpend(total, 0.0, false, need) == 0.0
  {
  }

  /** Left alone, the barbell halves, and the whole need is deferred. */
  lemma IdleBarbell(m: Model, year: nat, st: State, y: real)
    requires NineBands(m) && Fits(m, st) && Barbell(st.pcis, y)
    ensures var r := Step(m, Worst(0.0), year, st);
            && Barbell(r.pcis, y / 2.0)
            && r.backlog == st.backlog + Max(0.0, Slice(1200.0 + CostAt(m.anchors, y / 2.0)))
  {
    hide Needs, CostAt, Slice, NineBands, Decayed, Step;
    var s := Worst(0.0);
    NineFacts(m);
    StepAt(m, s, year, st);
    OutcomesAt(m, s, year, st.pcis);
    BarbellNeeds(m, year, st.pcis, y);
    var os := Outcomes(m, s, year, st.pcis);
    forall j: nat | j < 9
      ensures os[j] == Outcome(st.pcis[j] / 2.0, 0.0)
    {
      NothingOf(Sum(Needs(m, year, st.pcis)), Needs(m, year, st.pcis)[j]);
      BandDecays(m, j, st.pcis[j]);
    }
    SpentNothing(os);
  }

  /** A share of a budget short of the total is positive and short of the need. */
  lemma ShortShare(budget: real, need: real, total: real)
    requires 0.0 < budget < total && need > 0.0
    ensures 0.0 < CohortSpend(total, budget, false, need) < need
    ensures CohortSpend(total, budget, false, need) == Part(need, budget / total)
  {
    var r := budget / total;
    assert r * total == budget;
    assert 0.0 < r < 1.0 by {
      if r <= 0.0 {
        MulMonotone(r, 0.0, total, budget, 0.0);
      }
      if r >= 1.0 {
        MulMonotone(1.0, r, total, total, budget);
      }
    }
    var q := need / total;
    assert q * total == need;
    assert budget * q == need * r;
    MulMonotone(r, 1.0, need, r * need, need);
    MulMonotone(0.0, r, need, 0.0, r * need);
  }

  lemma BudgetOfShares(total: real, budget: real)
    requires total > 0.0
    ensures Part(total, budget / total) == budget
  {
  }

  /** Partly funded, a low band stays low, a failed one stays at 0, and one far off the scale drops to
      100. */
  lemma PartlyFunded(pci: real, ratio: real)
    requires 0.0 <= ratio <= 1.0 && pci >= 0.0
    ensures pci <= 20.0 ==> 0.0 <= Recovered(WorstFirst, pci, pci / 2.0, ratio) <= 20.0
    ensures pci == 0.0 ==> Recovered(WorstFirst, pci, pci / 2.0, ratio) == 0.0
    ensures pci >= 200.0 ==> Recovered(WorstFirst, pci, pci / 2.0, ratio) == 100.0
  {
    UnitShare(pci - pci / 2.0, ratio, Part(pci - pci / 2.0, ratio));
  }

  lemma ShareRatio(need: real, spend: real)
    requires 0.0 < spend < need
    ensures 0.0 <= spend / need <= 1.0
  {
    DivMonotone(0.0, spend, need);
    DivMonotone(spend, need, need);
  }

  /** One band of a partly funded year. */
  lemma FundedBand(m: Model, year: nat, pcis: seq<real>, budget: real, j: nat)
    requires NineBands(m) && |pcis| == |m.cohorts| && j < |pcis| && pcis[j] >= 0.0 && Needs(m, year, pcis)[j] > 0.0
    requires 0.0 < budget < Sum(Needs(m, year, pcis))
    ensures var needs, os := Needs(m, year, pcis), Outcomes(m, Worst(budget), year, pcis);
            && os[j].spent == Part(needs[j], budget / Sum(needs))
            && (pcis[j] <= 20.0 ==> 0.0 <= os[j].pci <= 20.0) && (pcis[j] == 0.0 ==> os[j].pci == 0.0)
            && (pcis[j] >= 200.0 ==> os[j].pci == 100.0)
  {
    hide Needs, NineBands, Decayed, Recovered, Part, CohortSpend, Sum;
    NineFacts(m);
    OutcomesAt(m, Worst(budget), year, pcis);
    var needs := Needs(m, year, pcis);
    ShortShare(budget, needs[j], Sum(needs));
    BandDecays(m, j, pcis[j]);
    var spend := CohortSpend(Sum(needs), budget, false, needs[j]);
    ShareRatio(needs[j], spend);
    PartlyFunded(pcis[j], spend / needs[j]);
  }

  /** The parts of the budget add up to it. */
  lemma SpentBudget(needs: seq<real>, os: seq<Outcome>, budget: real)
    requires |os| == |needs| && Sum(needs) > 0.0
    requires forall j :: 0 <= j < |os| ==> os[j].spent == Part(needs[j], budget / Sum(needs))
    ensures Sum(Spent(os)) == budget
  {
    hide Part;
    SumScale(Spent(os), needs, budget / Sum(needs), |needs|);
    BudgetOfShares(Sum(needs), budget);
  }

  /** Funded short of the need, the barbell's last band drops to 100 and the rest of the need is
      deferred. */
  lemma FundedBarbell(m: Model, year: nat, st: State, y: real, budget: real)
    requires NineBands(m) && Fits(m, st) && Barbell(st.pcis, y) && CostAt(m.anchors, y / 2.0) > 0.0
    requires 0.0 < budget < Slice(1200.0 + CostAt(m.anchors, y / 2.0))
    ensures var r := Step(m, Worst(budget), year, st);
            && (y >= 200.0 ==> Barbell(r.pcis, 100.0))
            && r.backlog == st.backlog + (Slice(1200.0 + CostAt(m.anchors, y / 2.0)) - budget)
  {
    hide Needs, CostAt, Slice, NineBands, Outcomes, Step, Part, Sum, Spent;
    NineFacts(m);
    StepAt(m, Worst(budget), year, st);
    BarbellNeeds(m, year, st.pcis, y);
    PositiveSlices(CostAt(m.anchors, y / 2.0));
    forall j: nat | j < 9
      ensures var needs, os := Needs(m, year, st.pcis), Outcomes(m, Worst(budget), year, st.pcis);
              && os[j].spent == Part(needs[j], budget / Sum(needs))
              && (j < 8 ==> 0.0 <= os[j].pci <= 20.0) && (0 < j < 8 ==> os[j].pci == 0.0)
              && (j == 8 && y >= 200.0 ==> os[j].pci == 100.0)
    {
      FundedBand(m, year, st.pcis, budget, j);
    }
    SpentBudget(Needs(m, year, st.pcis), Outcomes(m, Worst(budget), year, st.pcis), budget);
  }

  lemma PositiveSlices(last: real)
    requires last > 0.0
    ensures Slice(150.0) > 0.0 && Slice(last) > 0.0
  {
  }

  // ------------------------------------------------------------ the two runs

  /** The spread of the road: its first band low, its last far off the scale. */
  lemma RoadBands(interior: BetaFn, k: real) returns (y: real)
    requires Extreme(interior, k)
    ensures var bands := SpreadOne(interior, Road(k));
            && 890.0 <= y <= 900.0 && |bands| == 9
            && (forall j :: 0 <= j < 9 ==> bands[j].area == 1.0 && bands[j].decayRate == k)
            && 0.0 <= bands[0].initialPCI <= 20.0 && bands[8].initialPCI == y
            && forall j :: 0 < j < 8 ==> bands[j].initialPCI == 0.0
  {
    hide SpreadOne, MomentCdf, Saturated, SaturatedBound;
    var c := Road(k);
    AllBandsSaturate(interior, c);
    var g := MomentCdf(interior, c, SaturatedBound);
    y := 900.0 * Part(Mean(c), 1.0 - g);
    Spans(g);
  }

  lemma Spans(g: real)
    requires 0.0 <= g <= 0.01
    ensures 0.0 <= 900.0 * Part(99.999 / 100.0, g) <= 20.0 && 890.0 <= 900.0 * Part(99.999 / 100.0, 1.0 - g) <= 900.0
  {
  }

  lemma NetworkOfOne(interior: BetaFn, exp: ExpFn, k: real)
    ensures MacroModel(NearPerfect(k), interior, exp).cohorts == SpreadOne(interior, Road(k))
  {
    hide SpreadOne;
    var c := Road(k);
    assert MacroCohorts(NearPerfect(k)) == [c];
    assert [c][..0] == [];
    assert Spread(interior, [c][..0]) == [];
    assert Spread(interior, [c]) == SpreadOne(interior, c);
  }

  lemma RoadSpreads(interior: BetaFn, exp: ExpFn, k: real) returns (y: real)
    requires Extreme(interior, k) && k > 0.0 && exp(-k) == 0.5
    ensures var m := MacroModel(NearPerfect(k), interior, exp);
            NineBands(m) && 890.0 <= y <= 900.0 && forall s :: Barbell(After(m, s, 0).pcis, y)
  {
    hide SpreadOne, ProjectorAnchors, Extreme;
    DefaultCurve();
    NetworkOfOne(interior, exp, k);
    y := RoadBands(interior, k);
  }

  lemma TopPrice(a: seq<Anchor>, pci: real)
    requires a == [Anchor(85.0, 5.0), Anchor(55.0, 50.0), Anchor(20.0, 150.0)]
    ensures pci >= 85.0 ==> CostAt(a, pci) == 5.0
    ensures pci == 50.0 ==> CostAt(a, pci) == 50.0 + 100.0 / 7.0
  {
    if pci == 50.0 {
      assert FromSegment(a, 0, pci) == FromSegment(a, 1, pci) == OnSegment(a[1], a[2], pci);
    }
  }

  /** The first year's need and the price of the whole network, which a backlog must reach. */
  lemma FullPrice(m: Model, s: Scenario, y: real)
    requires NineBands(m) && Barbell(After(m, s, 0).pcis, y) && y >= 200.0
    ensures AnnualNeed(m, s, 0) == Slice(1205.0) && Threshold(m, s) == 1205.0
  {
    hide CostAt, NineBands, After;
    NineFacts(m);
    BarbellNeeds(m, 0, After(m, s, 0).pcis, y);
    TopPrice(m.anchors, y / 2.0);
    CycleStands(m);
  }

  lemma Bills()
    ensures 2.0 * Slice(1205.0) < 1205.0 <= 3.0 * Slice(1205.0)
    ensures Slice(1205.0) - 5.0 < 1205.0 <= Slice(1205.0) - 5.0 + (Slice(1250.0 + 100.0 / 7.0) - 5.0)
    ensures 5.0 < Slice(1205.0) && 5.0 < Slice(1250.0 + 100.0 / 7.0)
  {
  }

  lemma IdleRun(m: Model, y: real)
    requires NineBands(m) && Barbell(After(m, Worst(0.0), 0).pcis, y) && 890.0 <= y <= 900.0
    ensures Backlog(m, Worst(0.0), 1) == Slice(1205.0) && Backlog(m, Worst(0.0), 2) == 2.0 * Slice(1205.0)
    ensures Backlog(m, Worst(0.0), 3) == 3.0 * Slice(1205.0)
  {
    hide CostAt, NineBands, Step, Barbell, Slice;
    var s := Worst(0.0);
    NineFacts(m);
    NoBacklogYet(m, s);
    Bills();
    IdleBarbell(m, 0, After(m, s, 0), y);
    IdleBarbell(m, 1, After(m, s, 1), y / 2.0);
    IdleBarbell(m, 2, After(m, s, 2), y / 4.0);
    TopPrice(m.anchors, y / 2.0);
    TopPrice(m.anchors, y / 4.0);
    TopPrice(m.anchors, y / 8.0);
  }

  lemma FundedRun(m: Model, y: real)
    requires NineBands(m) && Barbell(After(m, Worst(5.0), 0).pcis, y) && 890.0 <= y <= 900.0
    ensures Backlog(m, Worst(5.0), 1) == Slice(1205.0) - 5.0
    ensures Backlog(m, Worst(5.0), 2) == Slice(1205.0) - 5.0 + (Slice(1250.0 + 100.0 / 7.0) - 5.0)
  {
    hide CostAt, NineBands, Step, Barbell, Slice;
    var s := Worst(5.0);
    NineFacts(m);
    NoBacklogYet(m, s);
    Bills();
    TopPrice(m.anchors, y / 2.0);
    TopPrice(m.anchors, 50.0);
    FundedBarbell(m, 0, After(m, s, 0), y, 5.0);
    FundedBarbell(m, 1, After(m, s, 1), 100.0, 5.0);
  }

  /** With no budget the network is insolvent in year 3; with a budget, already in year 2. */
  lemma HeadlinesOutOfOrder(interior: BetaFn, exp: ExpFn, k: real)
    requires Extreme(interior, k) && k > 0.0 && exp(-k) == 0.5
    ensures Forecastable(NearPerfect(k)) && SoundTiers(NearPerfect(k).tiers)
    ensures Headline(NearPerfect(k), interior, exp, 0.0) == (3, true)
    ensures Headline(NearPerfect(k), interior, exp, 5.0) == (2, true)
  {
    hide NineBands, Barbell, After, Backlog, AnnualNeed, Threshold, InsolvencyOf, Extreme, MacroModel;
    DefaultTiersAreSound();
    var m := MacroModel(NearPerfect(k), interior, exp);
    var y := RoadSpreads(interior, exp, k);
    IdleRun(m, y);
    FundedRun(m, y);
    FullPrice(m, Worst(0.0), y);
    FullPrice(m, Worst(5.0), y);
    Bills();
    InsolvencyIsFirstAndFinal(m, Worst(0.0), 3);
    InsolvencyIsFirstAndFinal(m, Worst(5.0), 3);
    BacklogNeverShrinks(m, Worst(5.0), 2, 3);
    BacklogNeverShrinks(m, Worst(0.0), 1, 2);
  }

  /** The hypotheses can be met: a distribution with all its weight at 1 is one that does. */
  lemma WeightAtOneIsExtreme(k: real)
    ensures Extreme((x, a, b) => 0.0, k)
  {
    var interior: BetaFn := (x, a, b) => 0.0;
    assert SaturatedBound < 1.0 && 1.0 - Width(Halvings) < 1.0;
    assert Rising(interior, Alpha(Road(k)), Beta(Road(k)));
    assert MomentCdf(interior, Road(k), SaturatedBound) == 0.0;
  }
}
