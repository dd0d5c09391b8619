/** Two preventive-first runs of internal/forecast/scenario.go out of order: the exception to budget
    monotonicity that internal/forecast/solvency.go warns of, with its budgets and its years. */
module PreventiveRuns {
  import opened RealMath
  import opened CostCurve
  import opened Scenario
  import opened ScenarioLaws

  /** One growing cohort that loses half its condition in a year, priced by the default tiers. */
  function Road(exp: ExpFn, k: real): Model {
    Model([Cohort("road", 8.0, k, 82.0)], ProjectorAnchors(DefaultCostTiers, 1.0), 0.125, 1.0, exp, DefaultCostTiers)
  }

  const DefaultAnchors := [Anchor(85.0, 5.0), Anchor(55.0, 50.0), Anchor(20.0, 150.0)]

  ghost predicate Halves(exp: ExpFn, k: real) {
    k > 0.0 && exp(-k) == 0.5
  }

  function Preventive(budget: real): Scenario {
    Funded(budget, PreventiveFirst)
  }

  lemma RoadIsSound(exp: ExpFn, k: real)
    ensures SoundModel(Road(exp, k)) && |Road(exp, k).cohorts| == 1
  {
    hide ProjectorAnchors, SoundTiers, SoundCurve;
    DefaultTiersAreSound();
    SoundTiersGiveSoundCurve(DefaultCostTiers, 1.0);
  }

  /** The default curve between 20 and 55: 50 dollars at 55, rising by 100 over 35 points. */
  lemma RoadPrice(d: real)
    requires 20.0 < d < 55.0
    ensures CostAt(ProjectorAnchors(DefaultCostTiers, 1.0), d) == 50.0 + (55.0 - d) / 35.0 * 100.0
  {
    DefaultCurve();
    var a := DefaultAnchors;
    assert FromSegment(a, 0, d) == FromSegment(a, 1, d) == OnSegment(a[1], a[2], d);
  }

  lemma RoadShare(exp: ExpFn, k: real)
    ensures TotalArea(Road(exp, k).cohorts) == 8.0 && AreaFraction(Road(exp, k).cohorts, 0) == 1.0
  {
    var areas := Areas(Road(exp, k).cohorts);
    assert SumUpTo(areas, 1) == SumUpTo(areas, 0) + areas[0];
  }

  lemma RoadDecay(exp: ExpFn, k: real, p: real)
    requires Halves(exp, k) && p > 0.0
    ensures Decayed(Road(exp, k), 0, p) == p / 2.0
  {
    hide ProjectorAnchors;
    assert p * 0.5 == p / 2.0;
  }

  function YearArea(year: nat): real {
    9.0 + year as real
  }

  lemma RoadArea(year: nat)
    requires year <= 1
    ensures GrownArea(8.0, 0.125, year) == YearArea(year)
  {
  }

  function RoadBill(year: nat, p: real): real {
    Part(YearArea(year), 50.0 + (55.0 - p / 2.0) / 35.0 * 100.0)
  }

  lemma UnitFactors(area: real, frac: real, price: real, cycle: real)
    requires frac == 1.0 && cycle == 1.0
    ensures area * frac * price * (1.0 / cycle) == Part(area, price)
  {
  }

  lemma RoadNeedAt(exp: ExpFn, k: real, year: nat, p: real)
    requires Halves(exp, k) && year <= 1 && 40.0 < p <= 100.0
    ensures Need(Road(exp, k), year, 0, p) == RoadBill(year, p)
  {
    hide CostAt, Decayed, TotalArea, AreaFraction, GrownArea, YearArea, Part, ProjectorAnchors;
    var m := Road(exp, k);
    RoadShare(exp, k);
    RoadDecay(exp, k, p);
    RoadPrice(p / 2.0);
    RoadArea(year);
    UnitFactors(YearArea(year), AreaFraction(m.cohorts, 0), CostAt(m.anchors, Decayed(m, 0, p)),
                ResolveCycleYears(m.cycleYears));
  }

  /** The need of a year that starts at condition p: 9 and then 10 units of area at the price
      of p / 2. */
  lemma RoadNeed(exp: ExpFn, k: real, year: nat, p: real)
    requires Halves(exp, k) && year <= 1 && 40.0 < p <= 100.0
    ensures Needs(Road(exp, k), year, [p]) == [RoadBill(year, p)] &&
            Sum(Needs(Road(exp, k), year, [p])) == RoadBill(year, p)
  {
    hide Need, RoadBill;
    var needs := Needs(Road(exp, k), year, [p]);
    RoadNeedAt(exp, k, year, p);
    assert needs[0] == Need(Road(exp, k), year, 0, p);
    assert SumUpTo(needs, 1) == SumUpTo(needs, 0) + needs[0];
  }

  /** Partial and exact funding of one year. */
  lemma RoadRatio(p: real, ratio: real)
    requires 0.0 < ratio <= 1.0
    ensures ByRatio(PreventiveFirst, p, p / 2.0, ratio) ==
            if ratio == 1.0 then p else Min(100.0, p / 2.0 + p / 2.0 * ratio * 1.2)
  {
  }

  /** One year of a single cohort in need. */
  lemma SingleYear(m: Model, s: Scenario, year: nat, st: State, p: real, need: real)
    requires SoundModel(m) && |m.cohorts| == 1 && !FullFunds(s) && Fits(m, st) && st.pcis == [p] && OnScale([p])
    requires Needs(m, year, [p]) == [need] && Sum([need]) == need && need > 0.0
    ensures var r := Step(m, s, year, st);
            && r.pcis == [ByRatio(s.strategy, p, Decayed(m, 0, p), PlannedSpend(s, need) / need)]
            && r.backlog == st.backlog + Max(0.0, need - Max(0.0, PlannedSpend(s, need)))
  {
    hide Need, Needs, Decayed, Outcomes, Step, ByRatio, SpentShare, Part, SoundModel, Sum, PlannedSpend;
    StepAt(m, s, year, st);
    ProportionalYear(m, s, year, [p]);
    ProportionalShortfall(m, s, year, [p]);
    assert Needs(m, year, [p])[0] == need;
  }

  /** One funded year of the road. */
  lemma RoadYear(exp: ExpFn, k: real, year: nat, st: State, p: real, budget: real)
    requires Halves(exp, k) && year <= 1 && 40.0 < p <= 100.0 && Fits(Road(exp, k), st) && st.pcis == [p]
    requires 0.0 < budget && RoadBill(year, p) > 0.0
    ensures var r := Step(Road(exp, k), Preventive(budget), year, st);
            && r.pcis == [ByRatio(PreventiveFirst, p, p / 2.0, budget / RoadBill(year, p))]
            && r.backlog == st.backlog + Max(0.0, RoadBill(year, p) - budget)
  {
    hide Road, Needs, Decayed, Step, ByRatio, RoadBill, SoundModel, Halves, Sum;
    RoadIsSound(exp, k);
    RoadNeed(exp, k, year, p);
    RoadDecay(exp, k, p);
    SingleYear(Road(exp, k), Preventive(budget), year, st, p, RoadBill(year, p));
  }

  /** From condition 82, budget 801.9 funds 99 percent of the first year and overshoots: the road ends
      the year above that of the larger budget 810, and the second year's need is within the smaller
      budget but not within the larger one. */
  lemma PreventiveRunsOutOfOrder(exp: ExpFn, k: real)
    requires Halves(exp, k)
    ensures var m := Road(exp, k);
            var less, more := Preventive(801.9), Preventive(810.0);
            && SoundModel(m) && SoundTiers(m.tiers) && less.annualBudget < more.annualBudget
            && After(m, less, 1).pcis == [89.708] && After(m, more, 1).pcis == [82.0]
            && Backlog(m, less, 2) == 8.1 && Backlog(m, more, 2) == 90.0
  {
    hide Road, Step, Halves, RoadBill, SoundModel, ByRatio;
    RoadStart(exp, k, Preventive(801.9));
    RoadStart(exp, k, Preventive(810.0));
    var m := Road(exp, k);
    var less, more := Preventive(801.9), Preventive(810.0);
    RoadIsSound(exp, k);
    DefaultTiersAreSound();
    RoadBills();
    RoadRatio(82.0, 0.99);
    RoadRatio(82.0, 1.0);
    RoadYear(exp, k, 0, After(m, less, 0), 82.0, 801.9);
    RoadYear(exp, k, 0, After(m, more, 0), 82.0, 810.0);
    RoadYear(exp, k, 1, After(m, less, 1), 89.708, 801.9);
    RoadYear(exp, k, 1, After(m, more, 1), 82.0, 810.0);
  }

  lemma RoadStart(exp: ExpFn, k: real, s: Scenario)
    ensures After(Road(exp, k), s, 0).pcis == [82.0] && Backlog(Road(exp, k), s, 0) == 0.0
    ensures Road(exp, k).tiers == DefaultCostTiers
  {
  }

  lemma RoadBills()
    ensures RoadBill(0, 82.0) == 810.0 && RoadBill(1, 82.0) == 900.0 && 0.0 < RoadBill(1, 89.708) <= 801.9
    ensures 41.0 + 41.0 * 0.99 * 1.2 == 89.708
  {
  }
}
