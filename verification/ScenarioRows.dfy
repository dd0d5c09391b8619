/** What the rows of a simulation say (internal/forecast/scenario.go), cohort by cohort and year by year:
    each cohort counts by its own area, decays at its own rate and is funded by the year's ratio. */
module ScenarioRows {
  import opened RealMath
  import opened CostCurve
  import opened Scenario
  import opened ScenarioLaws

  // ------------------------------------------------------------- own amounts

  /** What an area is multiplied by over a number of years, never less than zero. */
  function Growth(rate: real, years: nat): real {
    Max(0.0, 1.0 + rate * years as real)
  }

  /** Cohort j's own area after a number of years of growth. */
  function OwnArea(m: Model, j: nat, years: nat): real
    requires j < |m.cohorts|
  {
    Part(m.cohorts[j].area, Growth(m.growthRate, years))
  }

  /** Cohort j's condition after one more year without any money. */
  function Faded(m: Model, j: nat, pci: real): real
    requires j < |m.cohorts|
  {
    var k := m.cohorts[j].decayRate;
    Max(0.0, pci * m.exp(-(if k <= 0.0 then 0.035 else k)))
  }

  /** Cohort j's own need in year i + 1: its area at the price of its faded condition, over the cycle. */
  function OwnNeed(m: Model, j: nat, i: nat, pci: real): real
    requires j < |m.cohorts|
  {
    Part(OwnArea(m, j, i + 1), CostAt(m.anchors, Faded(m, j, pci))) /
    if m.cycleYears <= 0.0 then 12.0 else m.cycleYears
  }

  /** What a run of i years reports of cohort j. */
  function EndRow(m: Model, s: Scenario, i: nat, j: nat): CohortSummary
    requires j < |m.cohorts|
  {
    Result(m, s, i).finalCohorts[j]
  }

  function OwnAreas(m: Model, years: nat): seq<real> {
    seq(|m.cohorts|, j requires 0 <= j < |m.cohorts| => OwnArea(m, j, years))
  }

  function OwnNeeds(m: Model, s: Scenario, i: nat): seq<real> {
    seq(|m.cohorts|, j requires 0 <= j < |m.cohorts| => OwnNeed(m, j, i, EndRow(m, s, i, j).endPCI))
  }

  /** Each cohort's condition after i years, times its area at the start. */
  function OwnConditions(m: Model, s: Scenario, i: nat): seq<real> {
    seq(|m.cohorts|, j requires 0 <= j < |m.cohorts| => Part(EndRow(m, s, i, j).endPCI, m.cohorts[j].area))
  }

  function FinalAreas(rows: seq<CohortSummary>): seq<real> {
    seq(|rows|, j requires 0 <= j < |rows| => rows[j].area)
  }

  lemma EndRowIs(m: Model, s: Scenario, i: nat, j: nat)
    requires j < |m.cohorts|
    ensures |Result(m, s, i).finalCohorts| == |m.cohorts| && |Result(m, s, i).years| == i
    ensures var row, st := EndRow(m, s, i, j), After(m, s, i);
            && row.endPCI == st.pcis[j] && row.totalSpend == st.spent[j] && row.totalDeficit == st.deficit[j]
            && row.area == FinalArea(m, i, j)
  {
    hide After, FinalArea, YearRow;
  }

  lemma RowIs(m: Model, s: Scenario, years: nat, i: nat)
    requires i < years
    ensures |Result(m, s, years).years| == years && Result(m, s, years).years[i] == YearRow(m, s, i)
  {
    hide After, FinalArea, YearRow;
  }

  // ------------------------------------------------- area counts where it is

  lemma StartingAreas(m: Model)
    ensures Sum(OwnAreas(m, 0)) == TotalArea(m.cohorts)
    ensures forall j :: 0 <= j < |m.cohorts| ==> OwnAreas(m, 0)[j] == m.cohorts[j].area
  {
    forall j | 0 <= j < |m.cohorts|
      ensures OwnAreas(m, 0)[j] == m.cohorts[j].area
    {
      assert m.growthRate * 0.0 == 0.0;
    }
    assert OwnAreas(m, 0) == Areas(m.cohorts);
  }

  /** A share of the grown total is the share's own amount, grown. */
  lemma ShareOfGrown(total: real, area: real, f: real)
    requires total > 0.0
    ensures (total * f) * (area / total) == Part(area, f)
  {
    var share := area / total;
    assert share * total == area;
    assert (total * f) * share == (share * total) * f;
  }

  lemma GrownShare(m: Model, i: nat, j: nat)
    requires TotalArea(m.cohorts) > 0.0 && j < |m.cohorts|
    ensures GrownArea(TotalArea(m.cohorts), m.growthRate, i) * AreaFraction(m.cohorts, j) == OwnArea(m, j, i + 1)
  {
    hide TotalArea;
    assert (i + 1) as real == i as real + 1.0;
    ShareOfGrown(TotalArea(m.cohorts), m.cohorts[j].area, Max(0.0, 1.0 + m.growthRate * (i as real + 1.0)));
  }

  lemma FadedIs(m: Model, j: nat, pci: real)
    requires j < |m.cohorts|
    ensures Faded(m, j, pci) == Decayed(m, j, pci)
  {
  }

  lemma OwnShareOfNeed(m: Model, i: nat, j: nat, pci: real)
    requires TotalArea(m.cohorts) > 0.0 && j < |m.cohorts|
    ensures Need(m, i, j, pci) == OwnNeed(m, j, i, pci)
  {
    hide TotalArea, GrownArea, AreaFraction, CostAt, OwnArea, Part, Decayed, Faded, ResolveCycleYears, Need;
    GrownShare(m, i, j);
    FadedIs(m, j, pci);
    CycleIs(m.cycleYears);
    NeedIsWeighted(m, i, j, pci);
    PricedShare(OwnArea(m, j, i + 1), CostAt(m.anchors, Faded(m, j, pci)), ResolveCycleYears(m.cycleYears),
                Weight(m, i, j), Need(m, i, j, pci));
  }

  lemma CycleIs(years: real)
    ensures ResolveCycleYears(years) == if years <= 0.0 then 12.0 else years
  {
  }

  lemma PricedShare(own: real, price: real, cycle: real, weight: real, need: real)
    requires cycle > 0.0 && weight == own * (1.0 / cycle) && need == weight * price
    ensures need == Part(own, price) / cycle
  {
    assert weight * cycle == own;
    assert need * cycle == own * price;
  }

  lemma ConditionShare(pci: real, area: real, total: real, share: real, weighted: real)
    requires total > 0.0 && share == area / total && weighted == pci * share
    ensures Part(pci, area) == Part(weighted, total)
  {
    assert share * total == area;
    assert (pci * share) * total == pci * (share * total);
  }

  /** Where the network has an area: a year's need is the sum of the cohorts' own needs, its condition the
      mean of theirs by area, and its area and the final areas are the cohorts' own, grown. */
  lemma RowsByOwnArea(m: Model, s: Scenario, years: nat, i: nat)
    requires i < years && Sum(OwnAreas(m, 0)) > 0.0
    ensures var row := Result(m, s, years).years[i];
            && row.year == i + 1
            && row.area == Sum(OwnAreas(m, i + 1))
            && row.annualNeed == Sum(OwnNeeds(m, s, i))
            && Part(row.pci, Sum(OwnAreas(m, 0))) == Sum(OwnConditions(m, s, i + 1))
            && row.costTier == TierLabel(m.tiers, row.pci)
    ensures FinalAreas(Result(m, s, years).finalCohorts) == OwnAreas(m, years)
    ensures Sum(FinalAreas(Result(m, s, years).finalCohorts)) == Result(m, s, years).years[years - 1].area
  {
    hide After, FinalArea, TotalArea, Need, OwnNeed, OwnArea, TierLabel, Sum, Part, GrownArea, OwnAreas;
    hide OwnConditions, OwnNeeds, Weighted, FinalAreas, AnnualNeed, AnnualSpend, Backlog, Summary;
    StartingAreas(m);
    RowIs(m, s, years, i);
    RowIs(m, s, years, years - 1);
    NeedIsOwn(m, s, i);
    ConditionIsOwn(m, s, i + 1);
    AreaIsOwn(m, i);
    AreaIsOwn(m, years - 1);
    FinalIsOwn(m, s, years);
  }

  lemma NeedIsOwn(m: Model, s: Scenario, i: nat)
    requires TotalArea(m.cohorts) > 0.0
    ensures AnnualNeed(m, s, i) == Sum(OwnNeeds(m, s, i))
  {
    hide After, Need, OwnNeed, TotalArea, FinalArea;
    var needs := Needs(m, i, After(m, s, i).pcis);
    forall j | 0 <= j < |m.cohorts|
      ensures needs[j] == OwnNeeds(m, s, i)[j]
    {
      OwnShareOfNeed(m, i, j, After(m, s, i).pcis[j]);
    }
    assert needs == OwnNeeds(m, s, i);
  }

  lemma ConditionIsOwn(m: Model, s: Scenario, i: nat)
    requires TotalArea(m.cohorts) > 0.0
    ensures Part(Sum(Weighted(m, After(m, s, i).pcis)), TotalArea(m.cohorts)) == Sum(OwnConditions(m, s, i))
  {
    hide After, TotalArea, FinalArea, Part;
    var total, pcis := TotalArea(m.cohorts), After(m, s, i).pcis;
    forall j | 0 <= j < |m.cohorts|
      ensures OwnConditions(m, s, i)[j] == Part(Weighted(m, pcis)[j], total)
    {
      ConditionShare(pcis[j], m.cohorts[j].area, total, AreaFraction(m.cohorts, j), Weighted(m, pcis)[j]);
    }
    SumScale(OwnConditions(m, s, i), Weighted(m, pcis), total, |m.cohorts|);
  }

  lemma GrownIs(total: real, rate: real, i: nat)
    ensures GrownArea(total, rate, i) == Part(total, Growth(rate, i + 1))
  {
    var year := i as real + 1.0;
    assert (i + 1) as real == year;
  }

  lemma AreaIsOwn(m: Model, i: nat)
    ensures GrownArea(TotalArea(m.cohorts), m.growthRate, i) == Sum(OwnAreas(m, i + 1))
  {
    StartingAreas(m);
    GrownIs(TotalArea(m.cohorts), m.growthRate, i);
    hide TotalArea, Part, GrownArea, Growth;
    SumScale(OwnAreas(m, i + 1), OwnAreas(m, 0), Growth(m.growthRate, i + 1), |m.cohorts|);
  }

  lemma PartIs(a: real, f: real)
    ensures Part(a, f) == a * f
  {
  }

  lemma FinalIsOwn(m: Model, s: Scenario, years: nat)
    requires TotalArea(m.cohorts) > 0.0 && years > 0
    ensures FinalAreas(Result(m, s, years).finalCohorts) == OwnAreas(m, years)
  {
    hide After, TotalArea, OwnArea;
    forall j | 0 <= j < |m.cohorts|
      ensures Result(m, s, years).finalCohorts[j].area == OwnArea(m, j, years)
    {
      GrownShare(m, years - 1, j);
    }
  }

  /** A network without area has no condition, no need and no final area. */
  lemma RowsWithoutArea(m: Model, s: Scenario, years: nat, i: nat)
    requires i < years && Sum(OwnAreas(m, 0)) <= 0.0
    ensures Result(m, s, years).years[i].pci == Result(m, s, years).years[i].annualNeed == 0.0
    ensures forall j :: 0 <= j < |m.cohorts| ==> EndRow(m, s, years, j).area == 0.0
  {
    hide After, TotalArea, GrownArea, CostAt, TierLabel;
    StartingAreas(m);
    RowIs(m, s, years, i);
    SumOfZeros(Needs(m, i, After(m, s, i).pcis), |m.cohorts|);
    SumOfZeros(Weighted(m, After(m, s, i + 1).pcis), |m.cohorts|);
  }

  // ----------------------------------------------------- one cohort, one year

  /** What a scenario means to spend in a year of the given need. */
  function Budget(s: Scenario, need: real): real {
    if s.strategy == DoNothing then 0.0 else if s.fullFunding then need else s.annualBudget
  }

  /** A run of no years reports every cohort as it starts. */
  lemma StartRow(m: Model, s: Scenario, j: nat)
    requires j < |m.cohorts|
    ensures var c := m.cohorts[j];
            EndRow(m, s, 0, j) == CohortSummary(c.classification, c.initialPCI, c.area, c.decayRate, 0.0, 0.0)
  {
  }

  /** One more year of one cohort, at the year's ratio of budget to need: it fades, wins back a part of
      the year's decay, holds, or gains on the headroom up to twice its need; and what it gets and what
      it lacks are the ratio's parts of its own need. A cohort without need only fades. */
  lemma CohortYear(m: Model, s: Scenario, i: nat, j: nat)
    requires SoundModel(m) && j < |m.cohorts|
    ensures var before, after := EndRow(m, s, i, j), EndRow(m, s, i + 1, j);
            var p, q, faded, need := before.endPCI, after.endPCI, Faded(m, j, before.endPCI),
                                     OwnNeed(m, j, i, before.endPCI);
            var total := Result(m, s, i + 1).years[i].annualNeed;
            var gain, lack := after.totalSpend - before.totalSpend, after.totalDeficit - before.totalDeficit;
            && 0.0 <= need <= total
            && (need == 0.0 ==> q == faded && gain == lack == 0.0)
            && (need > 0.0 ==>
                  var r := Budget(s, total) / total;
                  && (r <= 0.0 ==> q == faded && gain == 0.0 && lack == need)
                  && (0.0 < r < 1.0 ==>
                        && gain == Part(need, r) && lack == need - Part(need, r)
                        && q == Min(100.0, faded + Part(Part(p - faded, r),
                                                        if s.strategy == WorstFirst then 0.8 else 1.2)))
                  && (r == 1.0 ==> q == p && gain == need && lack == 0.0)
                  && (1.0 < r < 2.0 ==> q == p + Part(100.0 - p, r - 1.0) && gain == Part(need, r) && lack == 0.0)
                  && (r >= 2.0 ==> q == 100.0 && gain == 2.0 * need && lack == 0.0))
  {
    hide After, AnnualSpend, FinalArea, Weighted, OwnNeed, Need, Step, Outcomes, Needs, Faded, Decayed, TierLabel;
    hide Backlog, GrownArea, ByRatio, SpentShare, Part, CostAt, TotalArea;
    EndRowIs(m, s, i, j);
    EndRowIs(m, s, i + 1, j);
    RowIs(m, s, i + 1, i);
    RunOnScale(m, s, i);
    var st := After(m, s, i);
    NextState(m, s, i);
    StepAt(m, s, i, st);
    OwnNeedIs(m, i, j, st.pcis[j]);
    FadedIs(m, j, st.pcis[j]);
    DecayedIsKept(m, j, st.pcis[j]);
    OutcomeInFull(m, s, i, st.pcis, j);
  }

  lemma NextState(m: Model, s: Scenario, i: nat)
    ensures After(m, s, i + 1) == Step(m, s, i, After(m, s, i))
    ensures AnnualNeed(m, s, i) == Sum(Needs(m, i, After(m, s, i).pcis))
  {
    hide Step, Needs;
  }

  lemma OwnNeedIs(m: Model, i: nat, j: nat, pci: real)
    requires SoundModel(m) && j < |m.cohorts|
    ensures OwnNeed(m, j, i, pci) == Need(m, i, j, pci)
  {
    hide CostAt, GrownArea, Faded;
    if TotalArea(m.cohorts) > 0.0 {
      OwnShareOfNeed(m, i, j, pci);
    } else {
      SumOfNonNegatives(Areas(m.cohorts), |m.cohorts|);
      assert Areas(m.cohorts)[j] == 0.0;
    }
  }

  lemma OutcomeInFull(m: Model, s: Scenario, year: nat, pcis: seq<real>, j: nat)
    requires SoundModel(m) && |pcis| == |m.cohorts| && OnScale(pcis) && j < |m.cohorts|
    ensures var needs, o := Needs(m, year, pcis), Outcomes(m, s, year, pcis)[j];
            var need, total, p, faded := needs[j], Sum(needs), pcis[j], Decayed(m, j, pcis[j]);
            var lack := Max(0.0, need - o.spent);
            && need == Need(m, year, j, p) && 0.0 <= need <= total
            && (need == 0.0 ==> o == Outcome(faded, 0.0) && lack == 0.0)
            && (need > 0.0 ==>
                  var r := Budget(s, total) / total;
                  && (r <= 0.0 ==> o == Outcome(faded, 0.0) && lack == need)
                  && (0.0 < r < 1.0 ==>
                        && o.spent == Part(need, r) && lack == need - Part(need, r)
                        && o.pci == Min(100.0, faded + Part(Part(p - faded, r),
                                                            if s.strategy == WorstFirst then 0.8 else 1.2)))
                  && (r == 1.0 ==> o == Outcome(p, need) && lack == 0.0)
                  && (1.0 < r < 2.0 ==> o == Outcome(p + Part(100.0 - p, r - 1.0), Part(need, r)) && lack == 0.0)
                  && (r >= 2.0 ==> o == Outcome(100.0, 2.0 * need) && lack == 0.0))
  {
    hide Need, Decayed, Outcomes, ByRatio, SpentShare, Part;
    var needs := Needs(m, year, pcis);
    if FullFunds(s) {
      FullyFundedYear(m, s, year, pcis);
      SumOfNonNegatives(needs, |needs|);
      FundedInFull(m, s, year, pcis, j);
      if needs[j] > 0.0 {
        Cancel(1.0, Sum(needs), Sum(needs));
      }
    } else {
      ProportionalYear(m, s, year, pcis);
      DecayedIsKept(m, j, pcis[j]);
      if needs[j] > 0.0 {
        var r := PlannedSpend(s, Sum(needs)) / Sum(needs);
        NothingNoRatio(s, Sum(needs));
        RatioInFull(s.strategy, pcis[j], Decayed(m, j, pcis[j]), r);
        ShareInFull(needs[j], r);
      }
    }
  }

  lemma NothingNoRatio(s: Scenario, total: real)
    requires total > 0.0
    ensures s.strategy == DoNothing ==> PlannedSpend(s, total) / total == 0.0
  {
  }

  lemma FundedInFull(m: Model, s: Scenario, year: nat, pcis: seq<real>, j: nat)
    requires SoundModel(m) && |pcis| == |m.cohorts| && OnScale(pcis) && FullFunds(s) && j < |m.cohorts|
    ensures var need := Needs(m, year, pcis)[j];
            Outcomes(m, s, year, pcis)[j] == (if need > 0.0 then Outcome(pcis[j], need)
                                              else Outcome(Decayed(m, j, pcis[j]), 0.0))
  {
    hide Need, Decayed;
    OutcomesAt(m, s, year, pcis);
  }

  lemma RatioInFull(strategy: Strategy, p: real, faded: real, r: real)
    requires 0.0 <= faded <= p <= 100.0 && (strategy == DoNothing ==> r <= 0.0)
    ensures var q := ByRatio(strategy, p, faded, r);
            && (r <= 0.0 ==> q == faded)
            && (0.0 < r < 1.0 ==>
                  q == Min(100.0, faded + Part(Part(p - faded, r), if strategy == WorstFirst then 0.8 else 1.2)))
            && (r == 1.0 ==> q == p)
            && (1.0 < r < 2.0 ==> q == p + Part(100.0 - p, r - 1.0))
            && (r >= 2.0 ==> q == 100.0)
  {
    hide Part, Restored;
    if r > 1.0 {
      RestoredBounds(p, Min(r - 1.0, 1.0));
      PartIs(100.0 - p, 1.0);
    }
  }

  lemma ShareInFull(need: real, r: real)
    requires need > 0.0
    ensures var spent := Part(need, SpentShare(r));
            && (r <= 0.0 ==> spent == 0.0)
            && (0.0 < r <= 1.0 ==> spent == Part(need, r) <= need)
            && (r == 1.0 ==> spent == need)
            && (r > 1.0 ==> spent >= need)
            && (1.0 < r < 2.0 ==> spent == Part(need, r))
            && (r >= 2.0 ==> spent == 2.0 * need)
  {
    if 0.0 < r <= 1.0 {
      UnitShare(need, r, need * r);
    } else if r > 1.0 {
      MulMonotone(1.0, SpentShare(r), need, need, SpentShare(r) * need);
    }
  }

  // --------------------------------------------------------- the year's totals

  /** A year spends its budget, up to twice the need, and adds what the budget misses to the backlog. */
  lemma YearTotals(m: Model, s: Scenario, years: nat, i: nat)
    requires SoundModel(m) && i < years
    ensures var rows := Result(m, s, years).years;
            var need, before := rows[i].annualNeed, if i == 0 then 0.0 else rows[i - 1].deferredBacklog;
            && rows[i].annualSpend == Min(Max(0.0, Budget(s, need)), 2.0 * need)
            && rows[i].deferredBacklog == before + Max(0.0, need - Max(0.0, Budget(s, need)))
  {
    hide After, Needs, Outcomes, Step, Weighted, GrownArea, TierLabel;
    RowIs(m, s, years, i);
    if i > 0 {
      RowIs(m, s, years, i - 1);
    } else {
      NoBacklogYet(m, s);
    }
    RunOnScale(m, s, i);
    var st := After(m, s, i);
    NextState(m, s, i);
    StepAt(m, s, i, st);
    YearSpend(m, s, i, st.pcis);
  }

  lemma YearSpend(m: Model, s: Scenario, year: nat, pcis: seq<real>)
    requires SoundModel(m) && |pcis| == |m.cohorts| && OnScale(pcis)
    ensures var total, spent := Sum(Needs(m, year, pcis)), Sum(Spent(Outcomes(m, s, year, pcis)));
            && spent == Min(Max(0.0, Budget(s, total)), 2.0 * total)
            && Max(0.0, total - spent) == Max(0.0, total - Max(0.0, Budget(s, total)))
  {
    hide Need, Decayed, ByRatio, Outcomes, Part, SpentShare;
    var needs, os := Needs(m, year, pcis), Outcomes(m, s, year, pcis);
    if FullFunds(s) {
      FullyFundedYear(m, s, year, pcis);
      SumOfNonNegatives(needs, |needs|);
    } else {
      ProportionalYear(m, s, year, pcis);
      ProportionalShortfall(m, s, year, pcis);
      var total, plan := Sum(needs), PlannedSpend(s, Sum(needs));
      if total == 0.0 {
        SumOfZeros(Spent(os), |needs|);
      } else {
        YearShare(needs, os, SpentShare(plan / total));
        SpentInFull(plan, total);
      }
    }
  }

  lemma SpentInFull(plan: real, total: real)
    requires total > 0.0
    ensures Part(total, SpentShare(plan / total)) == Min(Max(0.0, plan), 2.0 * total)
  {
    hide Part;
    var r := plan / total;
    assert Part(total, r) == plan by { PartIs(total, r); }
    ShareInFull(total, r);
    RatioSide(r, total, plan);
    RatioSide(r - 1.0, total, plan - total);
  }

  // --------------------------------------------------------- rows in order

  /** More budget is never worse, in the rows of two worst-first runs. */
  lemma MoreBudgetBetterRows(m: Model, b1: real, b2: real, years: nat, i: nat)
    requires SoundModel(m) && b1 <= b2 && i < years
    ensures var less, more := Result(m, Worst(b1), years), Result(m, Worst(b2), years);
            && less.years[i].pci <= more.years[i].pci
            && more.years[i].annualNeed <= less.years[i].annualNeed
            && more.years[i].deferredBacklog <= less.years[i].deferredBacklog
            && (forall j :: 0 <= j < |m.cohorts| ==>
                  && less.finalCohorts[j].endPCI <= more.finalCohorts[j].endPCI
                  && more.finalCohorts[j].totalDeficit <= less.finalCohorts[j].totalDeficit)
  {
    hide After, Needs, GrownArea, TierLabel, AreaFraction, FinalArea, AnnualSpend, Weighted, Sum, SoundModel;
    MoreBudgetNeverWorse(m, b1, b2, i);
    MoreBudgetNeverWorse(m, b1, b2, i + 1);
    MoreBudgetNeverWorse(m, b1, b2, years);
    RowIs(m, Worst(b1), years, i);
    RowIs(m, Worst(b2), years, i);
    BlendRises(m, After(m, Worst(b1), i + 1).pcis, After(m, Worst(b2), i + 1).pcis);
  }

  lemma BlendRises(m: Model, p: seq<real>, q: seq<real>)
    requires SoundModel(m) && |p| == |m.cohorts| && Below(p, q)
    ensures Sum(Weighted(m, p)) <= Sum(Weighted(m, q))
  {
    hide AreaFraction;
    forall j | 0 <= j < |m.cohorts|
      ensures Weighted(m, p)[j] <= Weighted(m, q)[j]
    {
      FractionNonNegative(m, j);
      MulMonotone(p[j], q[j], AreaFraction(m.cohorts, j), p[j] * AreaFraction(m.cohorts, j),
                  q[j] * AreaFraction(m.cohorts, j));
    }
    SumMonotone(Weighted(m, p), Weighted(m, q), |m.cohorts|);
  }
}
