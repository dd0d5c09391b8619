/** Break-even budget and insolvency year, internal/forecast/solvency.go: methods with the source's
    loops, proved equal to specification functions, and what the source promises of those. */
module Solvency {
  import opened RealMath
  import opened CostCurve
  import opened Scenario
  import opened ScenarioLaws

  const BreakEvenEpsilonFraction := 0.001
  const BreakEvenRelTol := 0.0001

  // ----------------------------------------------------------- specification

  /** The largest do-nothing annual need over the first i years, or zero. */
  function PeakNeed(m: Model, i: nat): real {
    if i == 0 then 0.0 else Max(PeakNeed(m, i - 1), AnnualNeed(m, Nothing, i - 1))
  }

  lemma {:induction false} PeakIsPeak(m: Model, i: nat)
    ensures PeakNeed(m, i) >= 0.0
    ensures forall k :: 0 <= k < i ==> AnnualNeed(m, Nothing, k) <= PeakNeed(m, i)
  {
    hide AnnualNeed;
    if i > 0 {
      PeakIsPeak(m, i - 1);
    }
  }

  function Tolerance(m: Model): real {
    BreakEvenEpsilonFraction * AnnualNeed(m, Nothing, 0)
  }

  function FinalBacklog(m: Model, strategy: Strategy, years: nat, budget: real): real {
    Backlog(m, Funded(budget, strategy), years)
  }

  /** The bisection, with the number of halvings left made explicit. */
  function Bisect(m: Model, strategy: Strategy, years: nat, tol: real, lo: real, hi: real, halvings: nat): real
    decreases halvings
  {
    if hi - lo <= tol || halvings == 0 then hi
    else
      var mid := lo + (hi - lo) / 2.0;
      if FinalBacklog(m, strategy, years, mid) <= Tolerance(m)
      then Bisect(m, strategy, years, tol, lo, mid, halvings - 1)
      else Bisect(m, strategy, years, tol, mid, hi, halvings - 1)
  }

  /** The width at which bisection stops. */
  function StopWidth(upper: real): real {
    BreakEvenRelTol * upper
  }

  const MaxHalvings: nat := 14

  function BreakEven(m: Model, strategy: Strategy, years: nat): real {
    var upper := PeakNeed(m, years);
    if years == 0 || upper <= 0.0 || FinalBacklog(m, strategy, years, 0.0) <= Tolerance(m) then 0.0
    else Bisect(m, strategy, years, StopWidth(upper), 0.0, upper, MaxHalvings)
  }

  // ------------------------------------------------------------------ method

  function Pow2(n: nat): (p: nat)
    ensures p >= 1
  {
    if n == 0 then 1 else 2 * Pow2(n - 1)
  }

  lemma FourteenHalvings(lo: real, hi: real, upper: real, n: nat)
    requires upper > 0.0 && HasWidth(lo, hi, upper, n) && hi - lo > StopWidth(upper)
    ensures n < MaxHalvings
  {
    if n >= MaxHalvings {
      var width := hi - lo;
      PowersGrow(MaxHalvings, n);
      assert Pow2(MaxHalvings) == 16384;
      MulMonotone(16384.0, Pow2(n) as real, width, 16384.0 * width, (Pow2(n) as real) * width);
    }
  }

  lemma {:induction false} PowersGrow(a: nat, b: nat)
    requires a <= b
    ensures Pow2(a) <= Pow2(b)
  {
    if a < b {
      PowersGrow(a, b - 1);
    }
  }

  lemma LastRow(m: Model, s: Scenario, years: nat)
    requires years > 0
    ensures |Result(m, s, years).years| == years
    ensures Result(m, s, years).years[years - 1].deferredBacklog == Backlog(m, s, years)
  {
    hide After, AnnualNeed, AnnualSpend, TierLabel, FinalArea;
  }

  /** One evaluation of the source's final-backlog closure. */
  method FinalBacklogOf(m: Model, strategy: Strategy, years: nat, cost: TieredCostProjector, budget: real)
    returns (b: real)
    requires years > 0 && cost.Valid() && m.anchors == ProjectorAnchors(cost.tiers, cost.overhead) &&
             m.tiers == cost.tiers
    modifies cost
    ensures cost.Valid() && b == FinalBacklog(m, strategy, years, budget)
    ensures b == Result(m, Funded(budget, strategy), years).years[years - 1].deferredBacklog
  {
    hide ProjectorAnchors, Result, Backlog;
    LastRow(m, Funded(budget, strategy), years);
    var r := Simulate(Funded(budget, strategy), m.cohorts, years, cost, m.growthRate, m.cycleYears, m.exp);
    assert r == Result(m, Funded(budget, strategy), years);
    b := r.years[|r.years| - 1].deferredBacklog;
  }

  /** The peak scan over the do-nothing run's rows. */
  method PeakOf(m: Model, rows: seq<ScenarioYear>) returns (upper: real)
    requires forall i :: 0 <= i < |rows| ==> rows[i].annualNeed == AnnualNeed(m, Nothing, i)
    ensures upper == PeakNeed(m, |rows|)
  {
    hide AnnualNeed;
    upper := 0.0;
    for i := 0 to |rows|
      invariant upper == PeakNeed(m, i)
    {
      if rows[i].annualNeed > upper {
        upper := rows[i].annualNeed;
      }
    }
  }

  lemma NothingRows(m: Model, years: nat)
    ensures var rows := Result(m, Nothing, years).years;
            |rows| == years && forall i :: 0 <= i < years ==> rows[i].annualNeed == AnnualNeed(m, Nothing, i)
  {
    hide AnnualNeed, AnnualSpend, Backlog, After;
  }

  /** BreakEvenBudget: the peak scan and the bisection, which ends within 14 halvings. */
  method BreakEvenBudget(cohorts: seq<Cohort>, years: int, cost: TieredCostProjector, growthRate: real,
                         cycleYears: real, exp: ExpFn, strategy: Strategy) returns (budget: real)
    requires cost.Valid()
    modifies cost
    ensures cost.Valid()
    ensures budget == BreakEven(Model(cohorts, ProjectorAnchors(cost.tiers, cost.overhead), growthRate, cycleYears, exp,
                                      cost.tiers), strategy, if years < 0 then 0 else years)
  {
    hide ProjectorAnchors, FinalBacklog, AnnualNeed, Result, PeakNeed, Bisect, StopWidth;
    if years <= 0 {
      return 0.0;
    }
    var anchors := cost.ResolvedAnchors();
    var m := Model(cohorts, anchors, growthRate, cycleYears, exp, cost.tiers);
    var doNothing := Simulate(Nothing, cohorts, years, cost, growthRate, cycleYears, exp);
    NothingRows(m, years);
    var upper := PeakOf(m, doNothing.years);
    if upper <= 0.0 {
      return 0.0;
    }
    var eps := BreakEvenEpsilonFraction * doNothing.years[0].annualNeed;
    var atZero := FinalBacklogOf(m, strategy, years, cost, 0.0);
    if atZero <= eps {
      return 0.0;
    }
    budget := BisectBudget(m, strategy, years, cost, eps, upper);
  }

  method BisectBudget(m: Model, strategy: Strategy, years: nat, cost: TieredCostProjector, eps: real, upper: real)
    returns (budget: real)
    requires years > 0 && cost.Valid() && m.anchors == ProjectorAnchors(cost.tiers, cost.overhead) &&
             m.tiers == cost.tiers
    requires eps == Tolerance(m) && upper > 0.0
    modifies cost
    ensures cost.Valid() && budget == Bisect(m, strategy, years, StopWidth(upper), 0.0, upper, MaxHalvings)
  {
    hide ProjectorAnchors, FinalBacklog, Tolerance, StopWidth, Pow2, Result;
    var lo, hi := 0.0, upper;
    var tol := StopWidth(upper);
    ghost var n: nat := 0;
    WholeWidth(upper);
    while hi - lo > tol
      invariant cost.Valid()
      invariant HasWidth(lo, hi, upper, n) && n <= MaxHalvings
      invariant Bisect(m, strategy, years, tol, 0.0, upper, MaxHalvings) ==
                Bisect(m, strategy, years, tol, lo, hi, MaxHalvings - n)
      decreases MaxHalvings - n
    {
      FourteenHalvings(lo, hi, upper, n);
      HalvingKeepsWidth(lo, hi, upper, n);
      var mid := lo + (hi - lo) / 2.0;
      var final := FinalBacklogOf(m, strategy, years, cost, mid);
      if final <= eps {
        hi := mid;
      } else {
        lo := mid;
      }
      n := n + 1;
    }
    budget := hi;
  }

  /** The interval is what n halvings leave of [0, upper]. */
  ghost predicate HasWidth(lo: real, hi: real, upper: real, n: nat) {
    (hi - lo) * (Pow2(n) as real) == upper
  }

  lemma WholeWidth(upper: real)
    ensures HasWidth(0.0, upper, upper, 0)
  {
  }

  lemma HalvingKeepsWidth(lo: real, hi: real, upper: real, n: nat)
    requires HasWidth(lo, hi, upper, n)
    ensures var mid := lo + (hi - lo) / 2.0;
            HasWidth(lo, mid, upper, n + 1) && HasWidth(mid, hi, upper, n + 1)
  {
    var half, p := (hi - lo) / 2.0, Pow2(n) as real;
    assert Pow2(n + 1) as real == 2.0 * p;
    assert half * (2.0 * p) == (hi - lo) * p;
  }

  // ------------------------------------------------------- the peak suffices

  /** Doing nothing is the worst-first run with no money: the two states agree throughout. */
  lemma {:induction false} NothingIsUnfunded(m: Model, i: nat)
    ensures After(m, Nothing, i) == After(m, Worst(0.0), i)
  {
    hide Step;
    if i > 0 {
      NothingIsUnfunded(m, i - 1);
      UnfundedYear(m, i - 1, After(m, Nothing, i - 1));
    }
  }

  lemma UnfundedYear(m: Model, year: nat, st: State)
    requires Fits(m, st)
    ensures Step(m, Nothing, year, st) == Step(m, Worst(0.0), year, st)
  {
    hide Needs, Decayed, CohortSpend;
    OutcomesAt(m, Nothing, year, st.pcis);
    OutcomesAt(m, Worst(0.0), year, st.pcis);
    var total := Sum(Needs(m, year, st.pcis));
    assert Outcomes(m, Nothing, year, st.pcis) == Outcomes(m, Worst(0.0), year, st.pcis) by {
      forall j | 0 <= j < |st.pcis|
        ensures CohortSpend(total, 0.0, false, Needs(m, year, st.pcis)[j]) == 0.0
      {
        NoSpend(total, Needs(m, year, st.pcis)[j]);
      }
    }
  }

  lemma NoSpend(total: real, need: real)
    ensures CohortSpend(total, 0.0, false, need) == 0.0
  {
  }

  /** Funding at least each year's do-nothing need keeps every cohort in at least its starting
      condition of the year, hence above the do-nothing run. */
  lemma FundedYearAbove(m: Model, s: Scenario, year: nat, p: seq<real>, q: seq<real>)
    requires SoundModel(m) && s.strategy != DoNothing && !s.fullFunding
    requires |p| == |m.cohorts| && OnScale(p) && OnScale(q) && Below(p, q)
    requires s.annualBudget >= Sum(Needs(m, year, p))
    ensures Sum(Needs(m, year, q)) <= Sum(Needs(m, year, p))
    ensures forall j :: 0 <= j < |p| ==> Outcomes(m, Worst(0.0), year, p)[j].pci <= Outcomes(m, s, year, q)[j].pci
  {
    hide Need, Decayed, ByRatio, SpentShare, Outcomes;
    YearMonotone(m, 0.0, 0.0, year, p, q);
    ProportionalYear(m, Worst(0.0), year, p);
    ProportionalYear(m, s, year, q);
    var np, nq := Needs(m, year, p), Needs(m, year, q);
    forall j | 0 <= j < |p|
      ensures Outcomes(m, Worst(0.0), year, p)[j].pci <= Outcomes(m, s, year, q)[j].pci
    {
      NeedFalls(m, year, j, p[j], q[j]);
      DecayOrder(m, j, p[j], q[j]);
      DecayedIsKept(m, j, p[j]);
      DecayedIsKept(m, j, q[j]);
      if np[j] > 0.0 {
        NonPositiveRatio(p[j], Decayed(m, j, p[j]), 0.0, Sum(np));
        DivMonotone(Sum(nq), s.annualBudget, Sum(nq));
        ByRatioBounds(s.strategy, q[j], Decayed(m, j, q[j]), s.annualBudget / Sum(nq));
      }
    }
  }

  lemma PeakYear(m: Model, s: Scenario, year: nat, idle: State, st: State)
    requires SoundModel(m) && s.strategy != DoNothing && !s.fullFunding
    requires Fits(m, idle) && Fits(m, st) && OnScale(idle.pcis) && OnScale(st.pcis) && Below(idle.pcis, st.pcis)
    requires s.annualBudget >= Sum(Needs(m, year, idle.pcis)) && st.backlog == 0.0
    ensures Below(Step(m, Worst(0.0), year, idle).pcis, Step(m, s, year, st).pcis)
    ensures Step(m, s, year, st).backlog == 0.0
  {
    hide Needs, Outcomes, Step, SoundModel, OnScale;
    FundedYearAbove(m, s, year, idle.pcis, st.pcis);
    StepAt(m, s, year, st);
    StepAt(m, Worst(0.0), year, idle);
    ProportionalShortfall(m, s, year, st.pcis);
  }

  /** A budget of every year's do-nothing need leaves no backlog in any year, whatever the strategy. */
  lemma {:induction false} PeakLeavesNoBacklog(m: Model, s: Scenario, years: nat, i: nat)
    requires SoundModel(m) && s.strategy != DoNothing && !s.fullFunding
    requires i <= years && forall k :: 0 <= k < years ==> s.annualBudget >= AnnualNeed(m, Nothing, k)
    ensures Below(After(m, Worst(0.0), i).pcis, After(m, s, i).pcis)
    ensures Backlog(m, s, i) == 0.0
  {
    hide Needs, Step, SoundModel, OnScale;
    if i == 0 {
      SameStart(m, s, Worst(0.0));
    } else {
      PeakLeavesNoBacklog(m, s, years, i - 1);
      NothingIsUnfunded(m, i - 1);
      RunOnScale(m, Worst(0.0), i - 1);
      RunOnScale(m, s, i - 1);
      assert AnnualNeed(m, Nothing, i - 1) <= s.annualBudget;
      PeakYear(m, s, i - 1, After(m, Worst(0.0), i - 1), After(m, s, i - 1));
    }
  }

  // -------------------------------------------------- break-even is correct

  /** Bisection keeps its invariant: hi meets the tolerance, and some budget within tol below the
      result does not. */
  lemma {:induction false} BisectInvariant(m: Model, strategy: Strategy, years: nat, tol: real, lo: real, hi: real,
                                           halvings: nat) returns (below: real)
    requires lo <= hi && (hi - lo) <= tol * (Pow2(halvings) as real)
    requires FinalBacklog(m, strategy, years, lo) > Tolerance(m) >= FinalBacklog(m, strategy, years, hi)
    ensures var r := Bisect(m, strategy, years, tol, lo, hi, halvings);
            && lo <= below <= r <= hi && r - below <= tol
            && FinalBacklog(m, strategy, years, below) > Tolerance(m) >= FinalBacklog(m, strategy, years, r)
    decreases halvings
  {
    hide FinalBacklog, Tolerance;
    if hi - lo <= tol || halvings == 0 {
      below := lo;
    } else {
      var mid := lo + (hi - lo) / 2.0;
      var p := Pow2(halvings - 1) as real;
      assert Pow2(halvings) as real == 2.0 * p;
      assert tol * (2.0 * p) == 2.0 * (tol * p);
      if FinalBacklog(m, strategy, years, mid) <= Tolerance(m) {
        below := BisectInvariant(m, strategy, years, tol, lo, mid, halvings - 1);
      } else {
        below := BisectInvariant(m, strategy, years, tol, mid, hi, halvings - 1);
      }
    }
  }

  /** The budget holds the network steady: the run's last backlog is at most a thousandth of the first
      year's need when nothing is done. */
  ghost predicate HoldsSteady(m: Model, strategy: Strategy, years: nat, budget: real)
    requires years > 0
  {
    Result(m, Funded(budget, strategy), years).years[years - 1].deferredBacklog <=
      0.001 * Result(m, Nothing, years).years[0].annualNeed
  }

  /** No year's need is above u when nothing is done. */
  ghost predicate CoversNeeds(m: Model, years: nat, u: real) {
    u >= 0.0 && forall i :: 0 <= i < years ==> Result(m, Nothing, years).years[i].annualNeed <= u
  }

  lemma SteadyIff(m: Model, strategy: Strategy, years: nat, budget: real)
    requires years > 0
    ensures HoldsSteady(m, strategy, years, budget) <==> FinalBacklog(m, strategy, years, budget) <= Tolerance(m)
  {
    hide After, AnnualSpend, Backlog, AnnualNeed, TierLabel, FinalArea;
  }

  lemma {:induction false} PeakIsLeast(m: Model, years: nat, u: real, i: nat)
    requires CoversNeeds(m, years, u) && i <= years
    ensures PeakNeed(m, i) <= u
  {
    hide After, AnnualSpend, Backlog, AnnualNeed, TierLabel, FinalArea;
    NothingRows(m, years);
    if i > 0 {
      PeakIsLeast(m, years, u, i - 1);
    }
  }

  /** For every funding strategy the result holds the network steady and is at most any bound on the
      do-nothing needs, and unless it is zero some budget at most a ten-thousandth of that below it does
      not. */
  lemma BreakEvenMeetsTolerance(m: Model, strategy: Strategy, years: nat) returns (below: real)
    requires SoundModel(m) && strategy != DoNothing && years > 0
    ensures var r := BreakEven(m, strategy, years);
            && r >= 0.0 && HoldsSteady(m, strategy, years, r)
            && (forall u :: CoversNeeds(m, years, u) ==> r <= u)
            && (r > 0.0 ==>
                  && 0.0 <= below <= r && !HoldsSteady(m, strategy, years, below)
                  && forall u :: CoversNeeds(m, years, u) ==> r - below <= 0.0001 * u)
  {
    hide After, AnnualNeed, HoldsSteady, CoversNeeds, FinalBacklog, Tolerance;
    var upper, r := PeakNeed(m, years), BreakEven(m, strategy, years);
    PeakIsPeak(m, years);
    NeedsNonNegative(m, Nothing, 0);
    PeakSuffices(m, strategy, years);
    below := 0.0;
    if upper > 0.0 && FinalBacklog(m, strategy, years, 0.0) > Tolerance(m) {
      assert Pow2(MaxHalvings) == 16384;
      below := BisectInvariant(m, strategy, years, StopWidth(upper), 0.0, upper, MaxHalvings);
    }
    SteadyIff(m, strategy, years, r);
    SteadyIff(m, strategy, years, below);
    forall u | CoversNeeds(m, years, u)
      ensures upper <= u
    {
      PeakIsLeast(m, years, u, years);
    }
  }

  lemma PeakSuffices(m: Model, strategy: Strategy, years: nat)
    requires SoundModel(m) && strategy != DoNothing && years > 0
    ensures FinalBacklog(m, strategy, years, PeakNeed(m, years)) == 0.0 <= Tolerance(m)
  {
    hide After, AnnualNeed;
    PeakIsPeak(m, years);
    NeedsNonNegative(m, Nothing, 0);
    PeakLeavesNoBacklog(m, Funded(PeakNeed(m, years), strategy), years, years);
  }

  lemma NeedsNonNegative(m: Model, s: Scenario, i: nat)
    requires SoundModel(m)
    ensures AnnualNeed(m, s, i) >= 0.0
  {
    RunOnScale(m, s, i);
    forall j | 0 <= j < |m.cohorts|
      ensures Needs(m, i, After(m, s, i).pcis)[j] >= 0.0
    {
      NeedFalls(m, i, j, After(m, s, i).pcis[j], After(m, s, i).pcis[j]);
    }
    SumOfNonNegatives(Needs(m, i, After(m, s, i).pcis), |m.cohorts|);
  }

  /** Worst-first break-even is the smallest sufficient budget to within the bisection tolerance: every
      budget from it up holds the network steady, and none does that lies below it by a ten-thousandth of
      any bound on the do-nothing needs. */
  lemma BreakEvenIsSmallest(m: Model, years: nat)
    requires SoundModel(m) && years > 0
    ensures var r := BreakEven(m, WorstFirst, years);
            && (forall b :: b >= r ==> HoldsSteady(m, WorstFirst, years, b))
            && (r > 0.0 ==> forall b, u :: HoldsSteady(m, WorstFirst, years, b) && CoversNeeds(m, years, u) ==>
                                         b > r - 0.0001 * u)
  {
    hide After, AnnualNeed, BreakEven, HoldsSteady, CoversNeeds;
    var r := BreakEven(m, WorstFirst, years);
    var below := BreakEvenMeetsTolerance(m, WorstFirst, years);
    forall b | b >= r
      ensures HoldsSteady(m, WorstFirst, years, b)
    {
      SteadyUpwards(m, years, r, b);
    }
    if r > 0.0 {
      forall b, u | HoldsSteady(m, WorstFirst, years, b) && CoversNeeds(m, years, u)
        ensures b > r - 0.0001 * u
      {
        if b <= below {
          SteadyUpwards(m, years, b, below);
        }
      }
    }
  }

  lemma SteadyUpwards(m: Model, years: nat, b: real, c: real)
    requires SoundModel(m) && years > 0 && b <= c && HoldsSteady(m, WorstFirst, years, b)
    ensures HoldsSteady(m, WorstFirst, years, c)
  {
    hide HoldsSteady, Tolerance;
    SteadyIff(m, WorstFirst, years, b);
    SteadyIff(m, WorstFirst, years, c);
    hide After;
    MoreBudgetNeverWorse(m, b, c, years);
  }

  // --------------------------------------------------------- break-even scales

  lemma FinalBacklogScales(m: Model, n: real, strategy: Strategy, years: nat, budget: real)
    requires n > 0.0
    ensures FinalBacklog(OnCycle(m, n), strategy, years, Part(budget, 1.0 / n)) ==
            Part(FinalBacklog(OnCycle(m, 1.0), strategy, years, budget), 1.0 / n)
  {
    hide After, Part;
    CycleScaling(m, n, Funded(budget, strategy), years);
  }

  lemma NothingScales(m: Model, n: real, i: nat)
    requires n > 0.0
    ensures AnnualNeed(OnCycle(m, n), Nothing, i) == Part(AnnualNeed(OnCycle(m, 1.0), Nothing, i), 1.0 / n)
  {
    CycleScaling(m, n, Nothing, i);
    assert WithBudgetPart(Nothing, 1.0 / n) == Nothing;
  }

  lemma {:induction false} PeakScales(m: Model, n: real, i: nat)
    requires n > 0.0
    ensures PeakNeed(OnCycle(m, n), i) == Part(PeakNeed(OnCycle(m, 1.0), i), 1.0 / n)
  {
    hide AnnualNeed, Part;
    if i == 0 {
      PartOfSum(0.0, 0.0, 1.0 / n);
    } else {
      PeakScales(m, n, i - 1);
      NothingScales(m, n, i - 1);
      MaxScales(PeakNeed(OnCycle(m, 1.0), i - 1), AnnualNeed(OnCycle(m, 1.0), Nothing, i - 1), 1.0 / n);
    }
  }

  lemma MaxScales(x: real, y: real, f: real)
    requires f > 0.0
    ensures Max(Part(x, f), Part(y, f)) == Part(Max(x, y), f)
  {
    hide Part;
    ScaleSign(x - y, f);
    PartOfSum(x, y, f);
  }

  lemma ToleranceScales(m: Model, n: real)
    requires n > 0.0
    ensures Tolerance(OnCycle(m, n)) == Part(Tolerance(OnCycle(m, 1.0)), 1.0 / n)
  {
    hide AnnualNeed, Part;
    NothingScales(m, n, 0);
    FixedMultiple(AnnualNeed(OnCycle(m, 1.0), Nothing, 0), BreakEvenEpsilonFraction, 1.0 / n);
  }

  lemma FixedMultiple(x: real, k: real, f: real)
    ensures k * Part(x, f) == Part(k * x, f)
  {
  }

  lemma WithinTolerance(m: Model, n: real, strategy: Strategy, years: nat, budget: real)
    requires n > 0.0
    ensures FinalBacklog(OnCycle(m, n), strategy, years, Part(budget, 1.0 / n)) <= Tolerance(OnCycle(m, n)) <==>
            FinalBacklog(OnCycle(m, 1.0), strategy, years, budget) <= Tolerance(OnCycle(m, 1.0))
  {
    hide FinalBacklog, Tolerance, Part;
    FinalBacklogScales(m, n, strategy, years, budget);
    ToleranceScales(m, n);
    var a, b := FinalBacklog(OnCycle(m, 1.0), strategy, years, budget), Tolerance(OnCycle(m, 1.0));
    ScaleSign(a - b, 1.0 / n);
    PartOfSum(a, b, 1.0 / n);
  }

  lemma {:induction false} BisectScales(m: Model, n: real, strategy: Strategy, years: nat, tol: real, lo: real,
                                        hi: real, halvings: nat)
    requires n > 0.0
    ensures var f := 1.0 / n;
            Bisect(OnCycle(m, n), strategy, years, Part(tol, f), Part(lo, f), Part(hi, f), halvings) ==
            Part(Bisect(OnCycle(m, 1.0), strategy, years, tol, lo, hi, halvings), f)
    decreases halvings
  {
    hide FinalBacklog, Tolerance, Part;
    var f := 1.0 / n;
    PartOfSum(hi, lo, f);
    ScaleSign(hi - lo - tol, f);
    PartOfSum(hi - lo, tol, f);
    if hi - lo > tol && halvings > 0 {
      var mid := lo + (hi - lo) / 2.0;
      MidScales(lo, hi, f);
      WithinTolerance(m, n, strategy, years, mid);
      BisectScales(m, n, strategy, years, tol, lo, mid, halvings - 1);
      BisectScales(m, n, strategy, years, tol, mid, hi, halvings - 1);
    }
  }

  lemma MidScales(lo: real, hi: real, f: real)
    ensures Part(lo, f) + (Part(hi, f) - Part(lo, f)) / 2.0 == Part(lo + (hi - lo) / 2.0, f)
  {
  }

  /** break_even(N) == break_even(1) / N, exactly, through the whole bisection. */
  lemma BreakEvenScales(m: Model, n: real, strategy: Strategy, years: nat)
    requires n > 0.0
    ensures BreakEven(OnCycle(m, n), strategy, years) == BreakEven(OnCycle(m, 1.0), strategy, years) / n
  {
    hide FinalBacklog, Tolerance, Part, Bisect, StopWidth, PeakNeed, OnCycle;
    var f := 1.0 / n;
    var upper := PeakNeed(OnCycle(m, 1.0), years);
    PeakScales(m, n, years);
    ScaleSign(upper, f);
    PartOfSum(0.0, 0.0, f);
    WithinTolerance(m, n, strategy, years, 0.0);
    StopWidthScales(upper, f);
    BisectScales(m, n, strategy, years, StopWidth(upper), 0.0, upper, MaxHalvings);
    OverN(BreakEven(OnCycle(m, 1.0), strategy, years), n);
  }

  lemma StopWidthScales(upper: real, f: real)
    ensures StopWidth(Part(upper, f)) == Part(StopWidth(upper), f)
  {
  }

  lemma OverN(x: real, n: real)
    requires n > 0.0
    ensures Part(x, 1.0 / n) == x / n
  {
  }

  // --------------------------------------------------------- insolvency year

  /** The first of rows[i..] whose backlog reaches the threshold, as its 1-based year. */
  function FirstCrossing(rows: seq<ScenarioYear>, threshold: real, i: nat): (int, bool)
    requires i <= |rows|
    decreases |rows| - i
  {
    if i == |rows| then (0, false)
    else if rows[i].deferredBacklog >= threshold then (rows[i].year, true)
    else FirstCrossing(rows, threshold, i + 1)
  }

  function Insolvency(rows: seq<ScenarioYear>, cycleYears: real): (int, bool) {
    if |rows| == 0 then (0, false)
    else
      var threshold := Part(rows[0].annualNeed, ResolveCycleYears(cycleYears));
      if threshold <= 0.0 then (0, false) else FirstCrossing(rows, threshold, 0)
  }

  method InsolvencyYear(result: ScenarioResult, cycleYears: real) returns (year: int, ok: bool)
    ensures (year, ok) == Insolvency(result.years, cycleYears)
  {
    hide Part, ResolveCycleYears;
    if |result.years| == 0 {
      return 0, false;
    }
    var threshold := Part(result.years[0].annualNeed, ResolveCycleYears(cycleYears));
    if threshold <= 0.0 {
      return 0, false;
    }
    for i := 0 to |result.years|
      invariant FirstCrossing(result.years, threshold, 0) == FirstCrossing(result.years, threshold, i)
    {
      if result.years[i].deferredBacklog >= threshold {
        return result.years[i].year, true;
      }
    }
    return 0, false;
  }

  /** A full treatment cycle of year-1 need. */
  function Threshold(m: Model, s: Scenario): real {
    Part(AnnualNeed(m, s, 0), ResolveCycleYears(m.cycleYears))
  }

  function InsolvencyOf(m: Model, s: Scenario, years: nat): (int, bool) {
    Insolvency(Result(m, s, years).years, m.cycleYears)
  }

  lemma {:induction false} FirstCrossingIs(rows: seq<ScenarioYear>, threshold: real, i: nat)
    requires i <= |rows| && forall k :: 0 <= k < |rows| ==> rows[k].year == k + 1
    ensures var (y, ok) := FirstCrossing(rows, threshold, i);
            && (ok ==> i < y <= |rows| && rows[y - 1].deferredBacklog >= threshold
                       && forall k :: i <= k < y - 1 ==> rows[k].deferredBacklog < threshold)
            && (!ok ==> y == 0 && forall k :: i <= k < |rows| ==> rows[k].deferredBacklog < threshold)
    decreases |rows| - i
  {
    if i < |rows| && rows[i].deferredBacklog < threshold {
      FirstCrossingIs(rows, threshold, i + 1);
    }
  }

  /** Backlog never shrinks, in any scenario. */
  lemma {:induction false} BacklogNeverShrinks(m: Model, s: Scenario, i: nat, k: nat)
    requires i <= k
    ensures Backlog(m, s, i) <= Backlog(m, s, k)
  {
    hide Needs, Outcomes, Step;
    if i < k {
      BacklogNeverShrinks(m, s, i, k - 1);
      StepAt(m, s, k - 1, After(m, s, k - 1));
    }
  }

  /** InsolvencyYear answers the first year whose backlog reaches the threshold; before it the
      backlog is below, and from it on the backlog never recovers. */
  lemma InsolvencyIsFirstAndFinal(m: Model, s: Scenario, years: nat)
    ensures var (y, ok) := InsolvencyOf(m, s, years);
            var t := Threshold(m, s);
            && (ok <==> years > 0 && t > 0.0 && Backlog(m, s, years) >= t)
            && (ok ==> 1 <= y <= years
                       && (forall i: nat :: y <= i ==> Backlog(m, s, i) >= t)
                       && (forall i: nat :: 1 <= i < y ==> Backlog(m, s, i) < t))
            && (!ok ==> y == 0)
  {
    hide Backlog, AnnualNeed, AnnualSpend, After;
    var rows := Result(m, s, years).years;
    var (y, ok) := InsolvencyOf(m, s, years);
    var t := Threshold(m, s);
    if years > 0 && t > 0.0 {
      FirstCrossingIs(rows, t, 0);
      assert forall k :: 0 <= k < years ==> rows[k].deferredBacklog == Backlog(m, s, k + 1);
      if ok {
        forall i: nat | y <= i
          ensures Backlog(m, s, i) >= t
        {
          BacklogNeverShrinks(m, s, y, i);
        }
        BacklogNeverShrinks(m, s, y, years);
        forall i: nat | 1 <= i < y
          ensures Backlog(m, s, i) < t
        {
          assert rows[i - 1].deferredBacklog < t;
        }
      } else {
        assert rows[years - 1].deferredBacklog < t;
      }
    }
  }

  /** In the rows: a run is insolvent from the first year, if any, whose backlog is at least a full cycle of
      the first year's need, where there is any need. */
  lemma InsolvencyByRows(m: Model, s: Scenario, years: nat)
    ensures var (y, ok) := InsolvencyOf(m, s, years);
            var rows := Result(m, s, years).years;
            && |rows| == years
            && (years == 0 ==> !ok)
            && (years > 0 ==>
                  var t := Part(rows[0].annualNeed, if m.cycleYears <= 0.0 then 12.0 else m.cycleYears);
                  && (ok <==> t > 0.0 && exists i :: 0 <= i < years && rows[i].deferredBacklog >= t)
                  && (ok ==> 1 <= y <= years &&
                             forall i :: 0 <= i < years ==> (rows[i].deferredBacklog >= t <==> y <= rows[i].year)))
  {
    hide Backlog, AnnualNeed, AnnualSpend, After, Part, TierLabel, FinalArea, Insolvency;
    InsolvencyIsFirstAndFinal(m, s, years);
    var rows := Result(m, s, years).years;
    assert forall i :: 0 <= i < years ==> rows[i].deferredBacklog == Backlog(m, s, i + 1) && rows[i].year == i + 1;
    if years > 0 && Threshold(m, s) > 0.0 {
      var last := rows[years - 1];
      forall i | 0 <= i < years
        ensures rows[i].deferredBacklog <= last.deferredBacklog
      {
        BacklogNeverShrinks(m, s, i + 1, years);
      }
    }
  }

  /** More budget never brings insolvency forward. */
  lemma MoreBudgetInsolvesNoEarlier(m: Model, b1: real, b2: real, years: nat)
    requires SoundModel(m) && b1 <= b2
    ensures var (y1, ok1) := InsolvencyOf(m, Worst(b1), years);
            var (y2, ok2) := InsolvencyOf(m, Worst(b2), years);
            ok2 ==> ok1 && y1 <= y2
  {
    hide Backlog, InsolvencyOf;
    assert Threshold(m, Worst(b1)) == Threshold(m, Worst(b2));
    InsolvencyIsFirstAndFinal(m, Worst(b1), years);
    InsolvencyIsFirstAndFinal(m, Worst(b2), years);
    var (y1, ok1) := InsolvencyOf(m, Worst(b1), years);
    var (y2, ok2) := InsolvencyOf(m, Worst(b2), years);
    if ok2 {
      MoreBudgetNeverWorse(m, b1, b2, years);
      MoreBudgetNeverWorse(m, b1, b2, y2);
    }
  }

  // ------------------------------------------------ doing nothing goes broke

  lemma IdleYear(m: Model, year: nat, st: State)
    requires SoundModel(m) && Fits(m, st) && OnScale(st.pcis)
    ensures var r := Step(m, Nothing, year, st);
            && Below(r.pcis, st.pcis)
            && r.backlog == st.backlog + Sum(Needs(m, year, st.pcis))
  {
    hide Need, Needs, Decayed, Outcomes, Step, ByRatio;
    UnfundedYear(m, year, st);
    StepAt(m, Worst(0.0), year, st);
    ProportionalYear(m, Worst(0.0), year, st.pcis);
    ProportionalShortfall(m, Worst(0.0), year, st.pcis);
    var needs := Needs(m, year, st.pcis);
    forall j | 0 <= j < |st.pcis|
      ensures Step(m, Worst(0.0), year, st).pcis[j] <= st.pcis[j]
    {
      DecayedIsKept(m, j, st.pcis[j]);
      if needs[j] > 0.0 {
        NonPositiveRatio(st.pcis[j], Decayed(m, j, st.pcis[j]), 0.0, Sum(needs));
      }
    }
  }

  lemma WeightGrows(m: Model, i: nat, j: nat)
    requires SoundModel(m) && m.growthRate >= 0.0 && j < |m.cohorts|
    ensures 0.0 <= Weight(m, 0, j) <= Weight(m, i, j)
  {
    hide ResolveCycleYears, TotalArea, AreaFraction;
    AreaGrows(m, i);
    FractionNonNegative(m, j);
    GrownAreaNonNegative(m, 0);
    var a0, a1 := GrownArea(TotalArea(m.cohorts), m.growthRate, 0), GrownArea(TotalArea(m.cohorts), m.growthRate, i);
    var f, c := AreaFraction(m.cohorts, j), 1.0 / ResolveCycleYears(m.cycleYears);
    hide GrownArea;
    MulOrder(a0, a1, f, f, a0 * f, a1 * f);
    MulOrder(a0 * f, a1 * f, c, c, a0 * f * c, a1 * f * c);
  }

  lemma AreaGrows(m: Model, i: nat)
    requires SoundModel(m) && m.growthRate >= 0.0
    ensures GrownArea(TotalArea(m.cohorts), m.growthRate, 0) <= GrownArea(TotalArea(m.cohorts), m.growthRate, i)
  {
    var total := TotalArea(m.cohorts);
    SumOfNonNegatives(Areas(m.cohorts), |m.cohorts|);
    var r, x := m.growthRate, i as real + 1.0;
    MulOrder(r, r, 1.0, x, r, r * x);
    var f0, f1 := 1.0 + r, 1.0 + r * x;
    MulOrder(total, total, f0, f1, total * f0, total * f1);
  }

  /** Left alone, no cohort is ever in better condition than at the start. */
  lemma {:induction false} IdleWorsens(m: Model, i: nat)
    requires SoundModel(m)
    ensures Below(After(m, Nothing, i).pcis, After(m, Nothing, 0).pcis)
  {
    hide Step;
    if i > 0 {
      IdleWorsens(m, i - 1);
      RunOnScale(m, Nothing, i - 1);
      IdleYear(m, i - 1, After(m, Nothing, i - 1));
    }
  }

  /** With non-negative growth the do-nothing need never falls below year 1's. */
  lemma IdleNeedGrows(m: Model, i: nat)
    requires SoundModel(m) && m.growthRate >= 0.0
    ensures AnnualNeed(m, Nothing, 0) <= AnnualNeed(m, Nothing, i)
  {
    hide Need, Decayed, Weight, CostAt, Step;
    IdleWorsens(m, i);
    RunOnScale(m, Nothing, i);
    RunOnScale(m, Nothing, 0);
    var p, q := After(m, Nothing, i).pcis, After(m, Nothing, 0).pcis;
    var early, late := Needs(m, 0, q), Needs(m, i, p);
    forall j | 0 <= j < |m.cohorts|
      ensures early[j] <= late[j]
    {
      NeedIsWeighted(m, 0, j, q[j]);
      NeedIsWeighted(m, i, j, p[j]);
      WeightGrows(m, i, j);
      DecayOrder(m, j, p[j], q[j]);
      CostNonIncreasing(m.anchors, Decayed(m, j, p[j]), Decayed(m, j, q[j]));
      CostPositive(m.anchors, Decayed(m, j, q[j]));
      var w0, w1 := Weight(m, 0, j), Weight(m, i, j);
      var c0, c1 := CostAt(m.anchors, Decayed(m, j, q[j])), CostAt(m.anchors, Decayed(m, j, p[j]));
      MulOrder(w0, w1, c0, c1, w0 * c0, w1 * c1);
    }
    SumMonotone(early, late, |m.cohorts|);
  }

  /** Doing nothing defers at least a full year-1 slice every year. */
  lemma {:induction false} IdleBacklogGrows(m: Model, i: nat)
    requires SoundModel(m) && m.growthRate >= 0.0
    ensures Backlog(m, Nothing, i) >= Part(AnnualNeed(m, Nothing, 0), i as real)
  {
    hide Step, Needs;
    if i > 0 {
      IdleBacklogGrows(m, i - 1);
      RunOnScale(m, Nothing, i - 1);
      IdleYear(m, i - 1, After(m, Nothing, i - 1));
      IdleNeedGrows(m, i - 1);
    }
  }

  /** A do-nothing run with non-negative growth is insolvent by year ceil(N), whenever it has any
      need at all and the horizon reaches that year. */
  lemma DoingNothingIsInsolvent(m: Model, years: nat, ceiling: nat)
    requires SoundModel(m) && m.growthRate >= 0.0 && AnnualNeed(m, Nothing, 0) > 0.0
    requires ResolveCycleYears(m.cycleYears) <= ceiling as real && ceiling <= years
    ensures var (y, ok) := InsolvencyOf(m, Nothing, years);
            ok && 1 <= y <= ceiling
  {
    hide After, AnnualNeed, Backlog, InsolvencyOf, ResolveCycleYears;
    var need, n := AnnualNeed(m, Nothing, 0), ResolveCycleYears(m.cycleYears);
    InsolvencyIsFirstAndFinal(m, Nothing, years);
    IdleBacklogGrows(m, ceiling);
    MulNonNegative(need, n, need * n);
    MulMonotone(n, ceiling as real, need, n * need, ceiling as real * need);
    BacklogNeverShrinks(m, Nothing, ceiling, years);
  }
}
