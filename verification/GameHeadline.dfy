/** The game's macro insolvency headline, internal/game/game.go: the forecast engine run worst-first
    over the spread cohorts, behind its own guards. */
module GameHeadline {
  import opened RealMath
  import opened CostCurve
  import opened Scenario
  import opened ScenarioLaws
  import opened Solvency
  import opened ConditionSpread
  import opened SpreadScale

  datatype CohortConfig = CohortConfig(classification: string, area: real, decayRate: real)

  /** What the headline is computed from, apart from the budget. */
  datatype Outlook = Outlook(cohorts: seq<CohortConfig>, initialPCI: real, growthRate: real, tiers: seq<CostTier>,
                             cycleYears: real, horizon: real)

  const MaxForecastHorizon := 1000.0

  /** The guards before the forecast core. */
  predicate Forecastable(o: Outlook) {
    && o.cohorts != [] && 0.0 < o.horizon <= MaxForecastHorizon
    && 0.0 <= o.initialPCI <= 100.0 && 1.0 <= o.cycleYears <= 40.0
    && (forall i :: 0 <= i < |o.tiers| ==> o.tiers[i].costPerSqM >= 0.0)
    && (forall i :: 0 <= i < |o.cohorts| ==> o.cohorts[i].area >= 0.0 && o.cohorts[i].decayRate >= 0.0)
  }

  function MacroCohort(c: CohortConfig, initialPCI: real): Cohort {
    Cohort(c.classification, c.area, c.decayRate, initialPCI)
  }

  function MacroCohorts(o: Outlook): seq<Cohort> {
    seq(|o.cohorts|, i requires 0 <= i < |o.cohorts| => MacroCohort(o.cohorts[i], o.initialPCI))
  }

  function MacroModel(o: Outlook, interior: BetaFn, exp: ExpFn): Model {
    Model(Spread(interior, MacroCohorts(o)), ProjectorAnchors(o.tiers, 1.0), o.growthRate, o.cycleYears, exp, o.tiers)
  }

  function Headline(o: Outlook, interior: BetaFn, exp: ExpFn, budget: real): (int, bool) {
    if !Forecastable(o) then (0, false)
    else InsolvencyOf(MacroModel(o, interior, exp), Worst(budget), o.horizon.Floor)
  }

  /** insolvencyFromForecast. */
  method InsolvencyFromForecast(o: Outlook, interior: BetaFn, exp: ExpFn, budget: real) returns (year: int, ok: bool)
    ensures (year, ok) == Headline(o, interior, exp, budget)
  {
    hide ProjectorAnchors, Spread, Result, Insolvency;
    if !Forecastable(o) {
      return 0, false;
    }
    var cohorts: seq<Cohort> := [];
    for i := 0 to |o.cohorts|
      invariant cohorts == MacroCohorts(o)[..i]
    {
      cohorts := cohorts + [MacroCohort(o.cohorts[i], o.initialPCI)];
    }
    assert MacroCohorts(o)[..|o.cohorts|] == MacroCohorts(o);
    cohorts := ApplyConditionSpread(interior, cohorts);
    var cost := new TieredCostProjector(o.tiers, 1.0);
    var result := Simulate(Worst(budget), cohorts, o.horizon.Floor, cost, o.growthRate, o.cycleYears, exp);
    year, ok := InsolvencyYear(result, o.cycleYears);
  }

  /** The inputs that the forecast refuses. */
  ghost predicate OutOfBounds(o: Outlook) {
    || o.cohorts == [] || o.horizon <= 0.0 || o.horizon > 1000.0
    || o.initialPCI < 0.0 || o.initialPCI > 100.0 || o.cycleYears < 1.0 || o.cycleYears > 40.0
    || (exists t :: t in o.tiers && t.costPerSqM < 0.0)
    || (exists c :: c in o.cohorts && (c.area < 0.0 || c.decayRate < 0.0))
  }

  lemma ForecastableIff(o: Outlook)
    ensures Forecastable(o) <==> !OutOfBounds(o)
  {
    assert (forall i :: 0 <= i < |o.tiers| ==> o.tiers[i].costPerSqM >= 0.0) <==>
           forall t :: t in o.tiers ==> t.costPerSqM >= 0.0;
    assert (forall i :: 0 <= i < |o.cohorts| ==> o.cohorts[i].area >= 0.0 && o.cohorts[i].decayRate >= 0.0) <==>
           forall c :: c in o.cohorts ==> c.area >= 0.0 && c.decayRate >= 0.0;
  }

  /** The headline in full: within its bounds, it is the first year up to the whole years of the horizon in
      which a worst-first run of the spread cohorts has a backlog of a full cycle of its first year's need. */
  lemma HeadlineInFull(o: Outlook, interior: BetaFn, exp: ExpFn, budget: real, years: nat)
    requires years as real <= o.horizon < (years + 1) as real
    ensures var (y, ok) := Headline(o, interior, exp, budget);
            var cohorts := seq(|o.cohorts|, i requires 0 <= i < |o.cohorts| =>
              Cohort(o.cohorts[i].classification, o.cohorts[i].area, o.cohorts[i].decayRate, o.initialPCI));
            var run := Result(Model(Spread(interior, cohorts), ProjectorAnchors(o.tiers, 1.0), o.growthRate,
                                    o.cycleYears, exp, o.tiers), Worst(budget), years).years;
            && (OutOfBounds(o) ==> (y, ok) == (0, false))
            && (!OutOfBounds(o) && years == 0 ==> !ok)
            && (!OutOfBounds(o) && years > 0 ==>
                  |run| == years &&
                  var owed := Part(run[0].annualNeed, o.cycleYears);
                  && (ok <==> owed > 0.0 && exists i :: 0 <= i < years && run[i].deferredBacklog >= owed)
                  && (ok ==> 1 <= y <= years &&
                             forall i :: 0 <= i < years ==> (run[i].deferredBacklog >= owed <==> y <= run[i].year)))
  {
    hide ProjectorAnchors, Spread, Result, InsolvencyOf, Part, OutOfBounds;
    var cohorts := seq(|o.cohorts|, i requires 0 <= i < |o.cohorts| =>
      Cohort(o.cohorts[i].classification, o.cohorts[i].area, o.cohorts[i].decayRate, o.initialPCI));
    assert cohorts == MacroCohorts(o);
    ForecastableIff(o);
    assert o.horizon.Floor == years;
    InsolvencyByRows(MacroModel(o, interior, exp), Worst(budget), years);
  }

  /** With sound tiers and a spread that stays on the scale, a larger budget never brings the headline
      forward. */
  lemma LargerBudgetLaterHeadline(o: Outlook, interior: BetaFn, exp: ExpFn, b1: real, b2: real)
    requires SoundTiers(o.tiers) && b1 <= b2
    requires forall c :: c in MacroCohorts(o) ==> RisingMoment(interior, c) && SharesFit(interior, c)
    ensures var (y1, ok1) := Headline(o, interior, exp, b1);
            var (y2, ok2) := Headline(o, interior, exp, b2);
            ok2 ==> ok1 && y1 <= y2
  {
    hide ProjectorAnchors, Spread, InsolvencyOf, RisingMoment, SharesFit, SoundTiers, SoundCurve;
    if Forecastable(o) {
      var bare := Model(MacroCohorts(o), ProjectorAnchors(o.tiers, 1.0), o.growthRate, o.cycleYears, exp, o.tiers);
      SoundTiersGiveSoundCurve(o.tiers, 1.0);
      assert SoundModel(bare);
      SpreadIsSoundIff(bare, interior);
      MoreBudgetInsolvesNoEarlier(MacroModel(o, interior, exp), b1, b2, o.horizon.Floor);
    }
  }
}
