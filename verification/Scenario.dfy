/** The year-by-year funding simulation of internal/forecast/scenario.go, over exact reals.
    The pure functions give one year's transition; class Simulator is the source's loop over
    mutable per-cohort slices, proved to compute exactly that transition system. */
module Scenario {
  import opened RealMath
  import opened CostCurve

  datatype Strategy = DoNothing | WorstFirst | PreventiveFirst

  datatype Scenario = Scenario(annualBudget: real, fullFunding: bool, strategy: Strategy)

  datatype Cohort = Cohort(classification: string, area: real, decayRate: real, initialPCI: real)

  datatype ScenarioYear = ScenarioYear(year: int, pci: real, area: real, annualNeed: real, annualSpend: real,
                                       deferredBacklog: real, costTier: string)

  datatype CohortSummary = CohortSummary(classification: string, endPCI: real, area: real, decayRate: real,
                                         totalSpend: real, totalDeficit: real)

  datatype ScenarioResult = ScenarioResult(years: seq<ScenarioYear>, finalCohorts: seq<CohortSummary>)

  /** The exponential, of which the forecast uses only that e^x lies in (0, 1) for x < 0. */
  type ExpFn = f: real -> real | forall x: real :: x < 0.0 ==> 0.0 < f(x) < 1.0 witness (x: real) => 0.5

  /** A forecast's fixed inputs: cohorts, the priced curve, growth, cycle, exponential and labelled tiers. */
  datatype Model = Model(cohorts: seq<Cohort>, anchors: seq<Anchor>, growthRate: real, cycleYears: real, exp: ExpFn,
                         tiers: seq<CostTier>)

  const MaxPCI := 100.0
  const DefaultTreatmentCycleYears := 12.0
  const DefaultDecayRate := 0.035

  // ------------------------------------------------------------ fixed inputs

  function Areas(cohorts: seq<Cohort>): seq<real> {
    seq(|cohorts|, j requires 0 <= j < |cohorts| => cohorts[j].area)
  }

  function TotalArea(cohorts: seq<Cohort>): real {
    Sum(Areas(cohorts))
  }

  function AreaFraction(cohorts: seq<Cohort>, j: nat): real
    requires j < |cohorts|
  {
    var total := TotalArea(cohorts);
    if total > 0.0 then cohorts[j].area / total else 0.0
  }

  function ResolveCycleYears(years: real): (r: real)
    ensures r > 0.0
  {
    if years <= 0.0 then DefaultTreatmentCycleYears else years
  }

  /** LinearGrowthEstimator: a fixed yearly increment, floored at zero area. */
  function GrownArea(currentArea: real, rate: real, i: nat): real {
    currentArea * Max(0.0, 1.0 + rate * (i as real + 1.0))
  }

  function DecayOneStep(exp: ExpFn, rate: real, pci: real): real {
    var k := if rate <= 0.0 then DefaultDecayRate else rate;
    Max(0.0, pci * exp(-k))
  }

  // ---------------------------------------------------------------- one year

  /** One year's money and condition for one cohort. */
  datatype Outcome = Outcome(pci: real, spent: real)

  function Efficiency(strategy: Strategy): real {
    match strategy
    case DoNothing => 1.0
    case PreventiveFirst => 1.2
    case WorstFirst => 0.8
  }

  /** Condition after a funded year with `usable` dollars of surplus. */
  function Restored(pci: real, usable: real, need: real): real
    requires need != 0.0
  {
    Min(MaxPCI, pci + Part(MaxPCI - pci, usable / need))
  }

  /** Condition after an underfunded year: a part of the year's decay is won back. */
  function Recovered(strategy: Strategy, pci: real, decayed: real, spendRatio: real): real {
    Min(MaxPCI, decayed + Part(Part(pci - decayed, spendRatio), Efficiency(strategy)))
  }

  /** applyCohortSpend: nothing, a funded year with capped surplus, or a partial recovery. */
  function ApplySpend(strategy: Strategy, pci: real, decayed: real, spend: real, need: real): Outcome {
    if spend <= 0.0 || need <= 0.0 then Outcome(decayed, 0.0)
    else if spend < need then Outcome(Recovered(strategy, pci, decayed, spend / need), spend)
    else if spend > need then
      var usable := Min(spend - need, need);
      Outcome(Restored(pci, usable, need), need + usable)
    else Outcome(pci, need)
  }

  function CohortSpend(totalNeed: real, totalSpend: real, fullFund: bool, need: real): real {
    if fullFund then need
    else if totalNeed > 0.0 then Part(totalSpend, need / totalNeed)
    else 0.0
  }

  function FullFunds(s: Scenario): bool {
    s.strategy != DoNothing && s.fullFunding
  }

  function PlannedSpend(s: Scenario, totalNeed: real): real {
    if s.strategy == DoNothing then 0.0
    else if s.fullFunding then totalNeed
    else s.annualBudget
  }

  function Decayed(m: Model, j: nat, pci: real): real
    requires j < |m.cohorts|
  {
    DecayOneStep(m.exp, m.cohorts[j].decayRate, pci)
  }

  /** One cohort's slice of the annual need, priced at its decayed condition. */
  function Need(m: Model, year: nat, j: nat, pci: real): real
    requires j < |m.cohorts|
  {
    var area := GrownArea(TotalArea(m.cohorts), m.growthRate, year);
    area * AreaFraction(m.cohorts, j) * CostAt(m.anchors, Decayed(m, j, pci)) * (1.0 / ResolveCycleYears(m.cycleYears))
  }

  function Needs(m: Model, year: nat, pcis: seq<real>): seq<real>
    requires |pcis| == |m.cohorts|
  {
    seq(|m.cohorts|, j requires 0 <= j < |m.cohorts| => Need(m, year, j, pcis[j]))
  }

  function Outcomes(m: Model, s: Scenario, year: nat, pcis: seq<real>): seq<Outcome>
    requires |pcis| == |m.cohorts|
  {
    var needs := Needs(m, year, pcis);
    var total := Sum(needs);
    seq(|m.cohorts|, j requires 0 <= j < |m.cohorts| =>
      ApplySpend(s.strategy, pcis[j], Decayed(m, j, pcis[j]),
                 CohortSpend(total, PlannedSpend(s, total), FullFunds(s), needs[j]), needs[j]))
  }

  function Spent(os: seq<Outcome>): seq<real> {
    seq(|os|, j requires 0 <= j < |os| => os[j].spent)
  }

  /** Each cohort's unmet need this year. */
  function Unmet(needs: seq<real>, os: seq<Outcome>): seq<real>
    requires |needs| == |os|
  {
    seq(|os|, j requires 0 <= j < |os| => Max(0.0, needs[j] - os[j].spent))
  }

  function Plus(a: seq<real>, b: seq<real>): seq<real>
    requires |a| == |b|
  {
    seq(|a|, j requires 0 <= j < |a| => a[j] + b[j])
  }

  /** Everything a run carries from one year to the next. */
  datatype State = State(pcis: seq<real>, spent: seq<real>, deficit: seq<real>, backlog: real)

  ghost predicate Fits(m: Model, st: State) {
    |st.pcis| == |st.spent| == |st.deficit| == |m.cohorts|
  }

  function Step(m: Model, s: Scenario, year: nat, st: State): (r: State)
    requires Fits(m, st)
    ensures Fits(m, r)
  {
    var needs := Needs(m, year, st.pcis);
    var os := Outcomes(m, s, year, st.pcis);
    State(seq(|os|, j requires 0 <= j < |os| => os[j].pci),
          Plus(st.spent, Spent(os)),
          Plus(st.deficit, Unmet(needs, os)),
          st.backlog + Max(0.0, Sum(needs) - Sum(Spent(os))))
  }

  function Zeros(n: nat): seq<real> {
    seq(n, j => 0.0)
  }

  /** The run after its first i years. */
  function After(m: Model, s: Scenario, i: nat): (st: State)
    ensures Fits(m, st)
  {
    if i == 0 then
      State(seq(|m.cohorts|, j requires 0 <= j < |m.cohorts| => m.cohorts[j].initialPCI),
            Zeros(|m.cohorts|), Zeros(|m.cohorts|), 0.0)
    else
      Step(m, s, i - 1, After(m, s, i - 1))
  }

  function AnnualNeed(m: Model, s: Scenario, i: nat): real {
    Sum(Needs(m, i, After(m, s, i).pcis))
  }

  function AnnualSpend(m: Model, s: Scenario, i: nat): real {
    Sum(Spent(Outcomes(m, s, i, After(m, s, i).pcis)))
  }

  /** Cumulative deferred backlog after i years. */
  function Backlog(m: Model, s: Scenario, i: nat): real {
    After(m, s, i).backlog
  }

  function Weighted(m: Model, pcis: seq<real>): seq<real>
    requires |pcis| == |m.cohorts|
  {
    seq(|pcis|, j requires 0 <= j < |pcis| => pcis[j] * AreaFraction(m.cohorts, j))
  }

  function YearRow(m: Model, s: Scenario, i: nat): ScenarioYear {
    var blended := Sum(Weighted(m, After(m, s, i + 1).pcis));
    ScenarioYear(i + 1, blended, GrownArea(TotalArea(m.cohorts), m.growthRate, i),
                 AnnualNeed(m, s, i), AnnualSpend(m, s, i), Backlog(m, s, i + 1), TierLabel(m.tiers, blended))
  }

  function FinalArea(m: Model, years: nat, j: nat): real
    requires j < |m.cohorts|
  {
    if years == 0 then m.cohorts[j].area
    else GrownArea(TotalArea(m.cohorts), m.growthRate, years - 1) * AreaFraction(m.cohorts, j)
  }

  function Summary(m: Model, s: Scenario, years: nat, j: nat): CohortSummary
    requires j < |m.cohorts|
  {
    var st := After(m, s, years);
    var c := m.cohorts[j];
    CohortSummary(c.classification, st.pcis[j], FinalArea(m, years, j), c.decayRate, st.spent[j], st.deficit[j])
  }

  function Result(m: Model, s: Scenario, years: nat): ScenarioResult {
    ScenarioResult(seq(years, i requires 0 <= i < years => YearRow(m, s, i)),
                   seq(|m.cohorts|, j requires 0 <= j < |m.cohorts| => Summary(m, s, years, j)))
  }

  lemma OutcomesAt(m: Model, s: Scenario, year: nat, pcis: seq<real>)
    requires |pcis| == |m.cohorts|
    ensures |Outcomes(m, s, year, pcis)| == |Needs(m, year, pcis)| == |pcis|
    ensures var needs := Needs(m, year, pcis);
            var total := Sum(needs);
            forall j :: 0 <= j < |pcis| ==>
              Outcomes(m, s, year, pcis)[j] ==
              ApplySpend(s.strategy, pcis[j], Decayed(m, j, pcis[j]),
                         CohortSpend(total, PlannedSpend(s, total), FullFunds(s), needs[j]), needs[j])
  {
  }

  lemma StepAt(m: Model, s: Scenario, year: nat, st: State)
    requires Fits(m, st)
    ensures var needs := Needs(m, year, st.pcis);
            var os := Outcomes(m, s, year, st.pcis);
            var r := Step(m, s, year, st);
            && Fits(m, r) && |needs| == |os| == |m.cohorts|
            && (forall j :: 0 <= j < |m.cohorts| ==>
              && r.pcis[j] == os[j].pci
              && r.spent[j] == st.spent[j] + os[j].spent
              && r.deficit[j] == st.deficit[j] + Max(0.0, needs[j] - os[j].spent))
            && r.backlog == st.backlog + Max(0.0, Sum(needs) - Sum(Spent(os)))
  {
  }

  // ----------------------------------------------------------- the simulator

  datatype CohortState = CohortState(decayRate: real, currentPCI: real, areaFrac: real)

  /** Per-cohort state, per-year scratch and the accumulators of one run. */
  class Simulator {
    const states: array<CohortState>
    const decayed: array<real>
    const need: array<real>
    const spendAcc: array<real>
    const deficitAcc: array<real>

    ghost predicate Valid()
      reads this
    {
      && states.Length == decayed.Length == need.Length == spendAcc.Length == deficitAcc.Length
      && decayed != need && decayed != spendAcc && decayed != deficitAcc
      && need != spendAcc && need != deficitAcc && spendAcc != deficitAcc
    }

    ghost predicate Tracks(m: Model, st: State)
      requires Valid()
      reads this, states, spendAcc, deficitAcc
    {
      && Fits(m, st) && states.Length == |m.cohorts|
      && (forall j :: 0 <= j < states.Length ==>
            states[j] == CohortState(m.cohorts[j].decayRate, st.pcis[j], AreaFraction(m.cohorts, j)))
      && spendAcc[..] == st.spent && deficitAcc[..] == st.deficit
    }

    constructor (m: Model, ghost s: Scenario)
      ensures Valid() && Tracks(m, After(m, s, 0))
      ensures fresh(states) && fresh(decayed) && fresh(need) && fresh(spendAcc) && fresh(deficitAcc)
    {
      var n := |m.cohorts|;
      states := new CohortState[n](j requires 0 <= j < n =>
        CohortState(m.cohorts[j].decayRate, m.cohorts[j].initialPCI, AreaFraction(m.cohorts, j)));
      decayed := new real[n](_ => 0.0);
      need := new real[n](_ => 0.0);
      spendAcc := new real[n](_ => 0.0);
      deficitAcc := new real[n](_ => 0.0);
      new;
      assert spendAcc[..] == Zeros(n) && deficitAcc[..] == Zeros(n);
    }

    /** applyCohortSpend, updating cohort j's PCI in place. */
    method ApplyCohortSpend(j: nat, decayedPCI: real, spend: real, need: real, strategy: Strategy)
      returns (actual: real)
      requires Valid() && j < states.Length
      modifies states
      ensures states[j] == old(states[j]).(currentPCI :=
        ApplySpend(strategy, old(states[j].currentPCI), decayedPCI, spend, need).pci)
      ensures actual == ApplySpend(strategy, old(states[j].currentPCI), decayedPCI, spend, need).spent
      ensures forall k :: 0 <= k < states.Length && k != j ==> states[k] == old(states[k])
    {
      hide Restored, Recovered;
      if spend <= 0.0 || need <= 0.0 {
        states[j] := states[j].(currentPCI := decayedPCI);
        return 0.0;
      }
      if spend >= need {
        actual := need;
        var surplus := spend - need;
        if surplus > 0.0 {
          var usableSurplus := Min(surplus, need);
          states[j] := states[j].(currentPCI := Restored(states[j].currentPCI, usableSurplus, need));
          actual := actual + usableSurplus;
        }
        return actual;
      }
      var spendRatio := spend / need;
      states[j] := states[j].(currentPCI := Recovered(strategy, states[j].currentPCI, decayedPCI, spendRatio));
      return spend;
    }

    ghost function OutcomeOf(j: nat, totalNeed: real, totalSpend: real, strategy: Strategy, fullFund: bool): Outcome
      requires Valid() && j < states.Length
      reads this, states, decayed, need
    {
      ApplySpend(strategy, states[j].currentPCI, decayed[j], CohortSpend(totalNeed, totalSpend, fullFund, need[j]),
                 need[j])
    }

    /** One cohort's share of distribute. */
    method FundCohort(j: nat, totalNeed: real, totalSpend: real, strategy: Strategy, fullFund: bool)
      returns (actual: real)
      requires Valid() && j < states.Length
      modifies states, spendAcc, deficitAcc
      ensures var o := old(OutcomeOf(j, totalNeed, totalSpend, strategy, fullFund));
              && actual == o.spent
              && states[j] == old(states[j]).(currentPCI := o.pci)
              && spendAcc[j] == old(spendAcc[j]) + o.spent
              && deficitAcc[j] == old(deficitAcc[j]) + Max(0.0, need[j] - o.spent)
      ensures forall k :: 0 <= k < states.Length && k != j ==>
        states[k] == old(states[k]) && spendAcc[k] == old(spendAcc[k]) && deficitAcc[k] == old(deficitAcc[k])
    {
      hide ApplySpend, Part;
      var cohortSpend := 0.0;
      if fullFund {
        cohortSpend := need[j];
      } else if totalNeed > 0.0 {
        cohortSpend := Part(totalSpend, need[j] / totalNeed);
      }
      actual := ApplyCohortSpend(j, decayed[j], cohortSpend, need[j], strategy);
      spendAcc[j] := spendAcc[j] + actual;
      deficitAcc[j] := deficitAcc[j] + Max(0.0, need[j] - actual);
    }

    /** distribute: spreads totalSpend in proportion to need and accumulates spend and deficit. */
    method Distribute(totalNeed: real, totalSpend: real, strategy: Strategy, fullFund: bool, ghost os: seq<Outcome>)
      returns (actualSpend: real)
      requires Valid() && |os| == states.Length
      requires forall j :: 0 <= j < |os| ==> os[j] == OutcomeOf(j, totalNeed, totalSpend, strategy, fullFund)
      modifies states, spendAcc, deficitAcc
      ensures forall j :: 0 <= j < |os| ==> states[j] == old(states[j]).(currentPCI := os[j].pci)
      ensures forall j :: 0 <= j < |os| ==> spendAcc[j] == old(spendAcc[j]) + os[j].spent
      ensures forall j :: 0 <= j < |os| ==> deficitAcc[j] == old(deficitAcc[j]) + Max(0.0, need[j] - os[j].spent)
      ensures actualSpend == Sum(Spent(os))
    {
      hide ApplySpend, CohortSpend, Max;
      actualSpend := 0.0;
      for j := 0 to states.Length
        invariant actualSpend == SumUpTo(Spent(os), j)
        invariant forall k :: 0 <= k < j ==> states[k] == old(states[k]).(currentPCI := os[k].pci)
        invariant forall k :: 0 <= k < j ==> spendAcc[k] == old(spendAcc[k]) + os[k].spent
        invariant forall k :: 0 <= k < j ==> deficitAcc[k] == old(deficitAcc[k]) + Max(0.0, need[k] - os[k].spent)
        invariant forall k :: j <= k < states.Length ==>
          states[k] == old(states[k]) && spendAcc[k] == old(spendAcc[k]) && deficitAcc[k] == old(deficitAcc[k])
      {
        var actual := FundCohort(j, totalNeed, totalSpend, strategy, fullFund);
        actualSpend := actualSpend + actual;
      }
    }

    /** Decays and prices cohort j. */
    method PriceCohort(m: Model, year: nat, j: nat, area: real, eligibleFrac: real, cost: TieredCostProjector,
                       ghost pci: real)
      requires Valid() && states.Length == |m.cohorts| && j < |m.cohorts|
      requires states[j] == CohortState(m.cohorts[j].decayRate, pci, AreaFraction(m.cohorts, j))
      requires area == GrownArea(TotalArea(m.cohorts), m.growthRate, year)
      requires eligibleFrac == 1.0 / ResolveCycleYears(m.cycleYears)
      requires cost.Valid() && m.anchors == ProjectorAnchors(cost.tiers, cost.overhead)
      modifies decayed, need, cost
      ensures cost.Valid()
      ensures decayed[j] == Decayed(m, j, pci) && need[j] == Need(m, year, j, pci)
      ensures forall k :: 0 <= k < decayed.Length && k != j ==> decayed[k] == old(decayed[k]) && need[k] == old(need[k])
    {
      hide CostAt, DecayOneStep, GrownArea, AreaFraction, ResolveCycleYears, ProjectorAnchors;
      decayed[j] := DecayOneStep(m.exp, states[j].decayRate, states[j].currentPCI);
      var fullNeed := cost.ProjectCost(area * states[j].areaFrac, decayed[j]);
      need[j] := fullNeed * eligibleFrac;
    }

    /** The decay-and-price half of a simulated year. */
    method PriceYear(m: Model, year: nat, cost: TieredCostProjector, ghost st: State) returns (totalNeed: real)
      requires Valid() && Tracks(m, st)
      requires cost.Valid() && m.anchors == ProjectorAnchors(cost.tiers, cost.overhead)
      modifies decayed, need, cost
      ensures cost.Valid()
      ensures forall j :: 0 <= j < states.Length ==> decayed[j] == Decayed(m, j, st.pcis[j])
      ensures forall j :: 0 <= j < states.Length ==> need[j] == Needs(m, year, st.pcis)[j]
      ensures totalNeed == Sum(Needs(m, year, st.pcis))
    {
      hide Decayed, Need, GrownArea, AreaFraction, ResolveCycleYears, ProjectorAnchors;
      var area := GrownArea(TotalArea(m.cohorts), m.growthRate, year);
      var eligibleFrac := 1.0 / ResolveCycleYears(m.cycleYears);
      ghost var needs := Needs(m, year, st.pcis);
      totalNeed := 0.0;
      for j := 0 to states.Length
        invariant cost.Valid()
        invariant totalNeed == SumUpTo(needs, j)
        invariant forall k :: 0 <= k < j ==> decayed[k] == Decayed(m, k, st.pcis[k])
        invariant forall k :: 0 <= k < j ==> need[k] == needs[k]
      {
        PriceCohort(m, year, j, area, eligibleFrac, cost, st.pcis[j]);
        totalNeed := totalNeed + need[j];
      }
    }

    method BlendedPCI(m: Model, ghost st: State) returns (pci: real)
      requires Valid() && Tracks(m, st)
      ensures pci == Sum(Weighted(m, st.pcis))
    {
      hide AreaFraction;
      pci := 0.0;
      ghost var weighted := Weighted(m, st.pcis);
      for j := 0 to states.Length
        invariant pci == SumUpTo(weighted, j)
      {
        assert weighted[j] == states[j].currentPCI * states[j].areaFrac;
        pci := pci + states[j].currentPCI * states[j].areaFrac;
      }
    }

    /** The terminal per-cohort rows, on the grown final-year area. */
    method Summaries(m: Model, s: Scenario, years: nat) returns (rows: seq<CohortSummary>)
      requires Valid() && Tracks(m, After(m, s, years))
      ensures rows == Result(m, s, years).finalCohorts
    {
      hide GrownArea, AreaFraction, TotalArea, After;
      rows := [];
      for j := 0 to states.Length
        invariant |rows| == j
        invariant forall k :: 0 <= k < j ==> rows[k] == Summary(m, s, years, k)
      {
        var c := m.cohorts[j];
        var area :=
          if years == 0 then c.area
          else GrownArea(TotalArea(m.cohorts), m.growthRate, years - 1) * states[j].areaFrac;
        rows := rows + [CohortSummary(c.classification, states[j].currentPCI, area, c.decayRate, spendAcc[j],
                                      deficitAcc[j])];
      }
    }

    /** One iteration of Simulate's year loop. */
    method RunYear(m: Model, s: Scenario, year: nat, cost: TieredCostProjector, backlog: real, ghost st: State)
      returns (row: ScenarioYear, backlog': real)
      requires Valid() && Tracks(m, st) && st == After(m, s, year) && backlog == Backlog(m, s, year)
      requires cost.Valid() && m.anchors == ProjectorAnchors(cost.tiers, cost.overhead) && m.tiers == cost.tiers
      modifies states, decayed, need, spendAcc, deficitAcc, cost
      ensures cost.Valid() && Tracks(m, After(m, s, year + 1))
      ensures row == YearRow(m, s, year) && backlog' == Backlog(m, s, year + 1)
    {
      hide Decayed, Needs, Outcomes, Step, ApplySpend, CohortSpend;
      hide GrownArea, AreaFraction, ResolveCycleYears, ProjectorAnchors, Sum, Spent, Weighted, TierLabel;
      OutcomesAt(m, s, year, st.pcis);
      StepAt(m, s, year, st);
      var totalNeed := PriceYear(m, year, cost, st);
      var totalSpend := 0.0;
      var fullFund := false;
      if s.strategy != DoNothing {
        if s.fullFunding {
          totalSpend := totalNeed;
          fullFund := true;
        } else {
          totalSpend := s.annualBudget;
        }
      }
      ghost var os := Outcomes(m, s, year, st.pcis);
      totalSpend := Distribute(totalNeed, totalSpend, s.strategy, fullFund, os);
      backlog' := backlog + Max(0.0, totalNeed - totalSpend);
      ghost var st' := After(m, s, year + 1);
      assert st' == Step(m, s, year, st);
      assert spendAcc[..] == st'.spent;
      assert deficitAcc[..] == st'.deficit;
      var blended := BlendedPCI(m, st');
      var costTier := cost.TierForPCI(blended);
      row := ScenarioYear(year + 1, blended, GrownArea(TotalArea(m.cohorts), m.growthRate, year),
                          totalNeed, totalSpend, backlog', costTier);
    }
  }

  lemma NoBacklogYet(m: Model, s: Scenario)
    ensures Backlog(m, s, 0) == 0.0
  {
  }

  /** Simulate: the whole run, equal to the transition system's result. */
  method Simulate(s: Scenario, cohorts: seq<Cohort>, years: int, cost: TieredCostProjector, growthRate: real,
                  cycleYears: real, exp: ExpFn)
    returns (result: ScenarioResult)
    requires cost.Valid()
    modifies cost
    ensures cost.Valid()
    ensures result == Result(Model(cohorts, ProjectorAnchors(cost.tiers, cost.overhead), growthRate, cycleYears, exp,
                                   cost.tiers), s, if years < 0 then 0 else years)
  {
    hide After, YearRow, Summary, ProjectorAnchors;
    var n := if years < 0 then 0 else years;
    var anchors := cost.ResolvedAnchors();
    var m := Model(cohorts, anchors, growthRate, cycleYears, exp, cost.tiers);
    var sim := new Simulator(m, s);
    var rows: seq<ScenarioYear> := [];
    var backlog := 0.0;
    NoBacklogYet(m, s);
    for i := 0 to n
      invariant cost.Valid() && sim.Valid() && sim.Tracks(m, After(m, s, i))
      invariant fresh(sim.states) && fresh(sim.decayed) && fresh(sim.need) && fresh(sim.spendAcc) &&
                fresh(sim.deficitAcc)
      invariant backlog == Backlog(m, s, i)
      invariant |rows| == i && forall k :: 0 <= k < i ==> rows[k] == YearRow(m, s, k)
    {
      var row, backlog' := sim.RunYear(m, s, i, cost, backlog, After(m, s, i));
      rows := rows + [row];
      backlog := backlog';
    }
    var summaries := sim.Summaries(m, s, n);
    result := ScenarioResult(rows, summaries);
  }
}
