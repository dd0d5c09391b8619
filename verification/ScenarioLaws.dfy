/** Laws of whole simulation runs: the relational claim behind break-even (more budget is never
    worse), conservation of spend and deficit, and exact cycle scaling. */
module ScenarioLaws {
  import opened RealMath
  import opened CostCurve
  import opened Scenario

  /** The inputs the source promises solvency results for: a sound price curve, non-negative areas
      and starting conditions on the 0-100 scale. */
  ghost predicate SoundModel(m: Model) {
    && SoundCurve(m.anchors)
    && forall j :: 0 <= j < |m.cohorts| ==> m.cohorts[j].area >= 0.0 && 0.0 <= m.cohorts[j].initialPCI <= 100.0
  }

  function Funded(budget: real, strategy: Strategy): Scenario {
    Scenario(budget, false, strategy)
  }

  function Worst(budget: real): Scenario {
    Funded(budget, WorstFirst)
  }

  const Nothing := Scenario(0.0, false, DoNothing)

  // --------------------------------------------------- one cohort, by ratio

  /** Condition after a year funded at ratio r = spend / need: the same ratio for every cohort. */
  function ByRatio(strategy: Strategy, pci: real, decayed: real, r: real): real {
    if r <= 0.0 then decayed
    else if r < 1.0 then Recovered(strategy, pci, decayed, r)
    else if r > 1.0 then Restored(pci, Min(r - 1.0, 1.0), 1.0)
    else pci
  }

  /** The share of need actually spent at ratio r: surplus beyond twice the need buys nothing. */
  function SpentShare(r: real): real {
    if r <= 0.0 then 0.0 else if r < 1.0 then r else 1.0 + Min(r - 1.0, 1.0)
  }

  lemma ApplySpendByRatio(strategy: Strategy, pci: real, decayed: real, spend: real, r: real, need: real, spent: real)
    requires need > 0.0 && spend == r * need && spent == Part(need, SpentShare(r))
    ensures ApplySpend(strategy, pci, decayed, spend, need) == Outcome(ByRatio(strategy, pci, decayed, r), spent)
  {
    hide Recovered, Restored;
    RatioSide(r, need, spend);
    Cancel(r, need, spend);
    if r > 1.0 {
      var u := Min(r - 1.0, 1.0);
      SurplusByRatio(r, need, spend, u * need, spent);
      RestoredByRatio(pci, u, need, u * need);
    }
  }

  lemma RatioSide(r: real, need: real, spend: real)
    requires need > 0.0 && spend == r * need
    ensures r <= 0.0 <==> spend <= 0.0
    ensures r < 1.0 <==> spend < need
    ensures r > 1.0 <==> spend > need
  {
    if r <= 0.0 {
      MulMonotone(r, 0.0, need, spend, 0.0);
    } else {
      MulMonotone(0.0, r, need, 0.0, spend);
    }
    if r < 1.0 {
      MulMonotone(r, 1.0, need, spend, need);
    } else if r == 1.0 {
      assert spend == need;
    } else {
      MulMonotone(1.0, r, need, need, spend);
    }
  }

  lemma SurplusByRatio(r: real, need: real, spend: real, usable: real, spent: real)
    requires r > 1.0 && need > 0.0 && spend == r * need
    requires usable == Min(r - 1.0, 1.0) * need && spent == need * (1.0 + Min(r - 1.0, 1.0))
    ensures Min(spend - need, need) == usable && need + usable == spent
  {
    RatioSide(r - 1.0, need, (r - 1.0) * need);
  }

  lemma RestoredByRatio(pci: real, u: real, need: real, usable: real)
    requires need > 0.0 && usable == u * need
    ensures Restored(pci, usable, need) == Restored(pci, u, 1.0)
  {
    Cancel(u, need, usable);
    Cancel(u, 1.0, u);
  }

  /** The factor e^-k that cohort j's condition is multiplied by each year. */
  function Keep(m: Model, j: nat): (e: real)
    requires j < |m.cohorts|
    ensures 0.0 < e < 1.0
  {
    m.exp(-(if m.cohorts[j].decayRate <= 0.0 then DefaultDecayRate else m.cohorts[j].decayRate))
  }

  lemma DecayedIsKept(m: Model, j: nat, pci: real)
    requires j < |m.cohorts| && pci >= 0.0
    ensures 0.0 <= Decayed(m, j, pci) <= pci
    ensures Decayed(m, j, pci) == pci * Keep(m, j)
  {
    UnitShare(pci, Keep(m, j), pci * Keep(m, j));
  }

  lemma PartBounds(amount: real, fraction: real)
    requires 0.0 <= amount && 0.0 <= fraction
    ensures 0.0 <= Part(amount, fraction)
    ensures fraction <= 1.0 ==> Part(amount, fraction) <= amount
  {
    MulNonNegative(amount, fraction, amount * fraction);
    if fraction <= 1.0 {
      UnitShare(amount, fraction, amount * fraction);
    }
  }

  lemma EfficiencyRange(strategy: Strategy)
    ensures 0.0 <= Efficiency(strategy)
    ensures strategy != PreventiveFirst ==> Efficiency(strategy) <= 1.0
  {
  }

  lemma RecoveredBounds(strategy: Strategy, pci: real, decayed: real, r: real)
    requires decayed <= pci <= 100.0 && 0.0 <= r <= 1.0
    ensures decayed <= Recovered(strategy, pci, decayed, r) <= 100.0
    ensures strategy != PreventiveFirst ==> Recovered(strategy, pci, decayed, r) <= pci
  {
    hide Part, Efficiency;
    EfficiencyRange(strategy);
    PartBounds(pci - decayed, r);
    PartBounds(Part(pci - decayed, r), Efficiency(strategy));
  }

  lemma RestoredBounds(pci: real, u: real)
    requires pci <= 100.0 && 0.0 <= u <= 1.0
    ensures pci <= Restored(pci, u, 1.0) <= 100.0
    ensures Restored(pci, u, 1.0) == pci + Part(100.0 - pci, u)
  {
    hide Part;
    Cancel(u, 1.0, u);
    PartBounds(100.0 - pci, u);
  }

  lemma ByRatioBounds(strategy: Strategy, pci: real, decayed: real, r: real)
    requires 0.0 <= decayed <= pci <= 100.0
    ensures decayed <= ByRatio(strategy, pci, decayed, r) <= 100.0
    ensures r >= 1.0 ==> ByRatio(strategy, pci, decayed, r) >= pci
    ensures r < 1.0 && strategy != PreventiveFirst ==> ByRatio(strategy, pci, decayed, r) <= pci
  {
    hide Recovered, Restored;
    if 0.0 < r < 1.0 {
      RecoveredBounds(strategy, pci, decayed, r);
    } else if r > 1.0 {
      RestoredBounds(pci, Min(r - 1.0, 1.0));
    }
  }

  lemma RecoveredMonotone(p: real, q: real, dp: real, dq: real, e: real, r: real, t: real)
    requires 0.0 <= p <= q <= 100.0 && 0.0 < e < 1.0 && 0.0 <= r <= t <= 1.0
    requires dp == p * e && dq == q * e
    ensures Recovered(WorstFirst, p, dp, r) <= Recovered(WorstFirst, q, dq, t)
  {
    var lossP, lossQ := 1.0 - e, 1.0 - e;
    MulOrder(lossP, lossQ, r, t, lossP * r, lossQ * t);
    var f, g := e + 0.8 * (lossP * r), e + 0.8 * (lossQ * t);
    MulOrder(p, q, f, g, p * f, q * g);
    RecoveryFactor(p, dp, e, r, p * f);
    RecoveryFactor(q, dq, e, t, q * g);
  }

  /** Worst-first recovery is one factor applied to the year's starting condition. */
  lemma RecoveryFactor(p: real, dp: real, e: real, r: real, result: real)
    requires dp == p * e && result == p * (e + 0.8 * ((1.0 - e) * r))
    ensures Recovered(WorstFirst, p, dp, r) == Min(100.0, result)
  {
    assert p - dp == p * (1.0 - e);
    assert Part(Part(p - dp, r), Efficiency(WorstFirst)) == (p * (1.0 - e)) * r * 0.8;
  }

  lemma RestoredMonotone(p: real, q: real, s: real, t: real)
    requires 0.0 <= p <= q <= 100.0 && 0.0 <= s <= t <= 1.0
    ensures Restored(p, s, 1.0) <= Restored(q, t, 1.0)
  {
    hide Restored, Part;
    RestoredBounds(p, s);
    RestoredBounds(q, t);
    HeadroomMonotone(p, q, s);
    PartMonotone(100.0 - q, s, t);
  }

  lemma PartMonotone(amount: real, s: real, t: real)
    requires 0.0 <= amount && s <= t
    ensures Part(amount, s) <= Part(amount, t)
  {
  }

  lemma HeadroomMonotone(p: real, q: real, s: real)
    requires p <= q && 0.0 <= s <= 1.0
    ensures p + Part(100.0 - p, s) <= q + Part(100.0 - q, s)
  {
    UnitShare(q - p, s, (q - p) * s);
    assert Part(100.0 - p, s) - Part(100.0 - q, s) == (q - p) * s;
  }

  /** Worst-first: better condition and a larger ratio never give worse condition, across the
      0.8-efficiency branch, the jump to full funding and the capped surplus. */
  lemma ByRatioMonotone(p: real, q: real, dp: real, dq: real, e: real, r: real, t: real)
    requires 0.0 <= dp <= p <= q <= 100.0 && dp <= dq <= q && 0.0 < e < 1.0 && r <= t
    requires dp == p * e && dq == q * e
    ensures ByRatio(WorstFirst, p, dp, r) <= ByRatio(WorstFirst, q, dq, t)
  {
    hide Recovered, Restored;
    ByRatioBounds(WorstFirst, p, dp, r);
    ByRatioBounds(WorstFirst, q, dq, t);
    if 0.0 < r && t < 1.0 {
      RecoveredMonotone(p, q, dp, dq, e, r, t);
    } else if r > 1.0 {
      RestoredMonotone(p, q, Min(r - 1.0, 1.0), Min(t - 1.0, 1.0));
    }
  }

  // ------------------------------------------------------------- one year

  ghost predicate OnScale(pcis: seq<real>) {
    forall j :: 0 <= j < |pcis| ==> 0.0 <= pcis[j] <= 100.0
  }

  ghost predicate Below(a: seq<real>, b: seq<real>) {
    |a| == |b| && forall j :: 0 <= j < |a| ==> a[j] <= b[j]
  }

  /** The area-and-cycle weight that a cohort's unit price is multiplied by. */
  function Weight(m: Model, year: nat, j: nat): real
    requires j < |m.cohorts|
  {
    var area := GrownArea(TotalArea(m.cohorts), m.growthRate, year);
    area * AreaFraction(m.cohorts, j) * (1.0 / ResolveCycleYears(m.cycleYears))
  }

  lemma WeightNonNegative(m: Model, year: nat, j: nat)
    requires SoundModel(m) && j < |m.cohorts|
    ensures Weight(m, year, j) >= 0.0
  {
    GrownAreaNonNegative(m, year);
    FractionNonNegative(m, j);
    var a := GrownArea(TotalArea(m.cohorts), m.growthRate, year);
    var f, c := AreaFraction(m.cohorts, j), 1.0 / ResolveCycleYears(m.cycleYears);
    MulNonNegative(a, f, a * f);
    MulNonNegative(a * f, c, a * f * c);
  }

  lemma GrownAreaNonNegative(m: Model, year: nat)
    requires SoundModel(m)
    ensures GrownArea(TotalArea(m.cohorts), m.growthRate, year) >= 0.0
  {
    var total := TotalArea(m.cohorts);
    SumOfNonNegatives(Areas(m.cohorts), |m.cohorts|);
    var f := Max(0.0, 1.0 + m.growthRate * (year as real + 1.0));
    MulNonNegative(total, f, total * f);
  }

  lemma FractionNonNegative(m: Model, j: nat)
    requires SoundModel(m) && j < |m.cohorts|
    ensures AreaFraction(m.cohorts, j) >= 0.0
  {
  }

  lemma NeedIsWeighted(m: Model, year: nat, j: nat, pci: real)
    requires j < |m.cohorts|
    ensures Need(m, year, j, pci) == Weight(m, year, j) * CostAt(m.anchors, Decayed(m, j, pci))
  {
    hide CostAt, Decayed, GrownArea, AreaFraction, ResolveCycleYears;
  }

  /** Better pavement needs no more money, and a cohort needs money or not whatever its condition. */
  lemma NeedFalls(m: Model, year: nat, j: nat, p: real, q: real)
    requires SoundModel(m) && j < |m.cohorts| && 0.0 <= p <= q
    ensures 0.0 <= Need(m, year, j, q) <= Need(m, year, j, p)
    ensures Need(m, year, j, q) == 0.0 <==> Need(m, year, j, p) == 0.0
  {
    hide CostAt, Need, Weight, Decayed;
    WeightNonNegative(m, year, j);
    NeedIsWeighted(m, year, j, p);
    NeedIsWeighted(m, year, j, q);
    DecayOrder(m, j, p, q);
    var dp, dq := Decayed(m, j, p), Decayed(m, j, q);
    CostNonIncreasing(m.anchors, dp, dq);
    CostPositive(m.anchors, dp);
    CostPositive(m.anchors, dq);
    var w, cp, cq := Weight(m, year, j), CostAt(m.anchors, dp), CostAt(m.anchors, dq);
    MulOrder(w, w, cq, cp, w * cq, w * cp);
    MulNonNegative(w, cp, w * cp);
    MulNonNegative(w, cq, w * cq);
  }

  lemma DecayOrder(m: Model, j: nat, p: real, q: real)
    requires j < |m.cohorts| && 0.0 <= p <= q
    ensures Decayed(m, j, p) <= Decayed(m, j, q)
  {
    hide Decayed, Keep;
    DecayedIsKept(m, j, p);
    DecayedIsKept(m, j, q);
    var e := Keep(m, j);
    MulMonotone(p, q, e, p * e, q * e);
  }

  /** How one year's outcomes look when spend is split in proportion to need. */
  lemma ProportionalYear(m: Model, s: Scenario, year: nat, pcis: seq<real>)
    requires SoundModel(m) && |pcis| == |m.cohorts| && OnScale(pcis) && !FullFunds(s)
    ensures var needs := Needs(m, year, pcis);
            var os := Outcomes(m, s, year, pcis);
            var total := Sum(needs);
            && |os| == |needs| == |pcis| && total >= 0.0
            && (forall j :: 0 <= j < |needs| ==> needs[j] == Need(m, year, j, pcis[j]) && 0.0 <= needs[j] <= total)
            && (forall j :: 0 <= j < |needs| && needs[j] == 0.0 ==> os[j] == Outcome(Decayed(m, j, pcis[j]), 0.0))
            && (forall j :: 0 <= j < |needs| && needs[j] > 0.0 ==>
                  var r := PlannedSpend(s, total) / total;
                  os[j] == Outcome(ByRatio(s.strategy, pcis[j], Decayed(m, j, pcis[j]), r),
                                   Part(needs[j], SpentShare(r))))
  {
    hide Need, Decayed, ByRatio, SpentShare, ApplySpend, CohortSpend;
    var needs := Needs(m, year, pcis);
    forall j | 0 <= j < |needs|
      ensures needs[j] >= 0.0
    {
      NeedFalls(m, year, j, pcis[j], pcis[j]);
    }
    SumOfNonNegatives(needs, |needs|);
    OutcomesAt(m, s, year, pcis);
    var os := Outcomes(m, s, year, pcis);
    var total := Sum(needs);
    forall j | 0 <= j < |needs|
      ensures needs[j] == 0.0 ==> os[j] == Outcome(Decayed(m, j, pcis[j]), 0.0)
      ensures needs[j] > 0.0 ==>
        var r := PlannedSpend(s, total) / total;
        os[j] == Outcome(ByRatio(s.strategy, pcis[j], Decayed(m, j, pcis[j]), r), Part(needs[j], SpentShare(r)))
    {
      if needs[j] > 0.0 {
        RatioSpend(PlannedSpend(s, total), total, needs[j]);
        var r := PlannedSpend(s, total) / total;
        ApplySpendByRatio(s.strategy, pcis[j], Decayed(m, j, pcis[j]),
          CohortSpend(total, PlannedSpend(s, total), false, needs[j]), r, needs[j], Part(needs[j], SpentShare(r)));
      } else {
        NoNeedNoSpend(s.strategy, pcis[j], Decayed(m, j, pcis[j]),
                      CohortSpend(total, PlannedSpend(s, total), false, needs[j]));
      }
    }
  }

  lemma RatioSpend(totalSpend: real, total: real, need: real)
    requires total > 0.0
    ensures CohortSpend(total, totalSpend, false, need) == (totalSpend / total) * need
  {
    var x, y := need / total, totalSpend / total;
    assert x * total == need && y * total == totalSpend;
    assert totalSpend * x == y * total * x == y * need;
  }

  lemma NoNeedNoSpend(strategy: Strategy, pci: real, decayed: real, spend: real)
    ensures ApplySpend(strategy, pci, decayed, spend, 0.0) == Outcome(decayed, 0.0)
  {
  }

  // -------------------------------------------------------- whole runs: order

  /** One year keeps two ordered worst-first runs ordered. */
  lemma YearMonotone(m: Model, b1: real, b2: real, year: nat, p: seq<real>, q: seq<real>)
    requires SoundModel(m) && b1 <= b2
    requires |p| == |m.cohorts| && OnScale(p) && OnScale(q) && Below(p, q)
    ensures Below(Needs(m, year, q), Needs(m, year, p)) && Sum(Needs(m, year, q)) <= Sum(Needs(m, year, p))
    ensures forall j :: 0 <= j < |p| ==>
      Outcomes(m, Worst(b1), year, p)[j].pci <= Outcomes(m, Worst(b2), year, q)[j].pci
  {
    hide Need, Decayed, ByRatio, SpentShare, Outcomes;
    ProportionalYear(m, Worst(b1), year, p);
    ProportionalYear(m, Worst(b2), year, q);
    var np, nq := Needs(m, year, p), Needs(m, year, q);
    forall j | 0 <= j < |p|
      ensures nq[j] <= np[j] && (nq[j] == 0.0 <==> np[j] == 0.0)
    {
      NeedFalls(m, year, j, p[j], q[j]);
    }
    SumMonotone(nq, np, |p|);
    forall j | 0 <= j < |p|
      ensures Outcomes(m, Worst(b1), year, p)[j].pci <= Outcomes(m, Worst(b2), year, q)[j].pci
    {
      CohortMonotone(m, j, p[j], q[j], b1, b2, Sum(np), Sum(nq), np[j] > 0.0);
    }
  }

  lemma CohortMonotone(m: Model, j: nat, p: real, q: real, b1: real, b2: real, t1: real, t2: real, needy: bool)
    requires j < |m.cohorts| && 0.0 <= p <= q <= 100.0 && b1 <= b2 && 0.0 <= t2 <= t1
    requires needy ==> t2 > 0.0
    ensures Decayed(m, j, p) <= Decayed(m, j, q)
    ensures needy ==>
              ByRatio(WorstFirst, p, Decayed(m, j, p), b1 / t1) <= ByRatio(WorstFirst, q, Decayed(m, j, q), b2 / t2)
  {
    hide Decayed, ByRatio, Keep;
    DecayOrder(m, j, p, q);
    DecayedIsKept(m, j, p);
    DecayedIsKept(m, j, q);
    if needy {
      ByRatioBounds(WorstFirst, q, Decayed(m, j, q), b2 / t2);
      if b1 > 0.0 {
        RatioMonotone(b1, t1, b2, t2);
        ByRatioMonotone(p, q, Decayed(m, j, p), Decayed(m, j, q), Keep(m, j), b1 / t1, b2 / t2);
      } else {
        NonPositiveRatio(p, Decayed(m, j, p), b1, t1);
      }
    }
  }

  lemma NonPositiveRatio(p: real, dp: real, b: real, t: real)
    requires b <= 0.0 && t > 0.0
    ensures ByRatio(WorstFirst, p, dp, b / t) == dp
  {
    DivMonotone(b, 0.0, t);
  }

  /** What a year adds to the backlog: the need that the (non-negative part of the) budget misses. */
  lemma ProportionalShortfall(m: Model, s: Scenario, year: nat, pcis: seq<real>)
    requires SoundModel(m) && |pcis| == |m.cohorts| && OnScale(pcis) && !FullFunds(s)
    ensures var total := Sum(Needs(m, year, pcis));
            var spent := Sum(Spent(Outcomes(m, s, year, pcis)));
            Max(0.0, total - spent) == Max(0.0, total - Max(0.0, PlannedSpend(s, total)))
  {
    hide Need, Decayed, ByRatio, Outcomes, PlannedSpend;
    ProportionalYear(m, s, year, pcis);
    var needs, os := Needs(m, year, pcis), Outcomes(m, s, year, pcis);
    var total, plan := Sum(needs), PlannedSpend(s, Sum(needs));
    if total == 0.0 {
      SumOfZeros(Spent(os), |needs|);
    } else {
      var share := SpentShare(plan / total);
      YearShare(needs, os, share);
      ShareOfTotal(plan, total, share, Part(total, share));
    }
  }

  /** When every needy cohort spends the same share of its need, so does the year. */
  lemma YearShare(needs: seq<real>, os: seq<Outcome>, share: real)
    requires |needs| == |os|
    requires forall j :: 0 <= j < |needs| && needs[j] == 0.0 ==> os[j].spent == 0.0
    requires forall j :: 0 <= j < |needs| && needs[j] != 0.0 ==> os[j].spent == Part(needs[j], share)
    ensures Sum(Spent(os)) == Part(Sum(needs), share)
  {
    hide Part;
    PartOfSum(0.0, 0.0, share);
    SumScale(Spent(os), needs, share, |needs|);
  }

  lemma ShareOfTotal(plan: real, total: real, share: real, spent: real)
    requires total > 0.0 && share == SpentShare(plan / total) && spent == Part(total, share)
    ensures Max(0.0, total - spent) == Max(0.0, total - Max(0.0, plan))
    ensures share <= 1.0 <==> spent <= total
    ensures share >= 0.0
  {
    var r := plan / total;
    RatioSide(r, total, plan);
    RatioSide(share, total, spent);
  }

  lemma YearStaysOnScale(m: Model, s: Scenario, year: nat, st: State)
    requires SoundModel(m) && Fits(m, st) && OnScale(st.pcis)
    ensures OnScale(Step(m, s, year, st).pcis)
  {
    hide Decayed, ApplySpend, CohortSpend, Step, Outcomes, Needs;
    StepAt(m, s, year, st);
    OutcomesAt(m, s, year, st.pcis);
    forall j | 0 <= j < |st.pcis|
      ensures 0.0 <= Outcomes(m, s, year, st.pcis)[j].pci <= 100.0
    {
      DecayedIsKept(m, j, st.pcis[j]);
      var need := Needs(m, year, st.pcis)[j];
      var total := Sum(Needs(m, year, st.pcis));
      ApplySpendOnScale(s.strategy, st.pcis[j], Decayed(m, j, st.pcis[j]),
        CohortSpend(total, PlannedSpend(s, total), FullFunds(s), need), need);
    }
  }

  lemma ApplySpendOnScale(strategy: Strategy, pci: real, decayed: real, spend: real, need: real)
    requires 0.0 <= decayed <= pci <= 100.0
    ensures 0.0 <= ApplySpend(strategy, pci, decayed, spend, need).pci <= 100.0
  {
    if need > 0.0 {
      var r := spend / need;
      hide ByRatio;
      ApplySpendByRatio(strategy, pci, decayed, spend, r, need, Part(need, SpentShare(r)));
      ByRatioBounds(strategy, pci, decayed, r);
    }
  }

  lemma StartOnScale(m: Model, s: Scenario)
    requires SoundModel(m)
    ensures OnScale(After(m, s, 0).pcis)
  {
  }

  /** Every condition stays on the 0-100 scale in every run. */
  lemma {:induction false} RunOnScale(m: Model, s: Scenario, i: nat)
    requires SoundModel(m)
    ensures OnScale(After(m, s, i).pcis)
  {
    hide Step, SoundModel, OnScale;
    if i == 0 {
      StartOnScale(m, s);
    } else {
      RunOnScale(m, s, i - 1);
      YearStaysOnScale(m, s, i - 1, After(m, s, i - 1));
    }
  }

  /** No cohort's unmet need is larger under the larger budget. */
  lemma UnmetFalls(m: Model, b1: real, b2: real, year: nat, p: seq<real>, q: seq<real>)
    requires SoundModel(m) && b1 <= b2
    requires |p| == |m.cohorts| && OnScale(p) && OnScale(q) && Below(p, q)
    ensures Below(Unmet(Needs(m, year, q), Outcomes(m, Worst(b2), year, q)),
                  Unmet(Needs(m, year, p), Outcomes(m, Worst(b1), year, p)))
  {
    hide Need, Decayed, ByRatio, SpentShare, Outcomes, Part;
    ProportionalYear(m, Worst(b1), year, p);
    ProportionalYear(m, Worst(b2), year, q);
    YearMonotone(m, b1, b2, year, p, q);
    var np, nq := Needs(m, year, p), Needs(m, year, q);
    var t1, t2 := Sum(np), Sum(nq);
    forall j | 0 <= j < |p|
      ensures Max(0.0, nq[j] - Outcomes(m, Worst(b2), year, q)[j].spent) <=
              Max(0.0, np[j] - Outcomes(m, Worst(b1), year, p)[j].spent)
    {
      NeedFalls(m, year, j, p[j], q[j]);
      if np[j] > 0.0 {
        ShareRises(b1, t1, b2, t2);
        UnmetOrder(np[j], SpentShare(b1 / t1), nq[j], SpentShare(b2 / t2));
      }
    }
  }

  lemma ShareRises(b1: real, t1: real, b2: real, t2: real)
    requires b1 <= b2 && 0.0 < t2 <= t1
    ensures SpentShare(b1 / t1) <= SpentShare(b2 / t2)
  {
    if b1 > 0.0 {
      RatioMonotone(b1, t1, b2, t2);
    } else {
      DivMonotone(b1, 0.0, t1);
    }
  }

  lemma UnmetOrder(n1: real, s1: real, n2: real, s2: real)
    requires 0.0 <= n2 <= n1 && s1 <= s2
    ensures Max(0.0, n2 - Part(n2, s2)) <= Max(0.0, n1 - Part(n1, s1))
  {
    UnmetShare(n1, s1);
    UnmetShare(n2, s2);
    var c, d := Max(0.0, 1.0 - s2), Max(0.0, 1.0 - s1);
    MulOrder(n2, n1, c, d, Part(n2, c), Part(n1, d));
  }

  lemma OrderedYear(m: Model, b1: real, b2: real, year: nat, s1: State, s2: State)
    requires SoundModel(m) && b1 <= b2 && Fits(m, s1) && Fits(m, s2)
    requires OnScale(s1.pcis) && OnScale(s2.pcis) && Below(s1.pcis, s2.pcis)
    requires s2.backlog <= s1.backlog && Below(s2.deficit, s1.deficit)
    ensures var r1, r2 := Step(m, Worst(b1), year, s1), Step(m, Worst(b2), year, s2);
            Below(r1.pcis, r2.pcis) && r2.backlog <= r1.backlog && Below(r2.deficit, r1.deficit)
  {
    hide Needs, Outcomes, Step, SoundModel, OnScale;
    UnmetFalls(m, b1, b2, year, s1.pcis, s2.pcis);
    YearMonotone(m, b1, b2, year, s1.pcis, s2.pcis);
    StepAt(m, Worst(b1), year, s1);
    StepAt(m, Worst(b2), year, s2);
    ProportionalShortfall(m, Worst(b1), year, s1.pcis);
    ProportionalShortfall(m, Worst(b2), year, s2.pcis);
    var u1 := Unmet(Needs(m, year, s1.pcis), Outcomes(m, Worst(b1), year, s1.pcis));
    var u2 := Unmet(Needs(m, year, s2.pcis), Outcomes(m, Worst(b2), year, s2.pcis));
    forall j | 0 <= j < |m.cohorts|
      ensures Step(m, Worst(b2), year, s2).deficit[j] <= Step(m, Worst(b1), year, s1).deficit[j]
    {
      assert u2[j] <= u1[j];
    }
  }

  lemma SameStart(m: Model, s1: Scenario, s2: Scenario)
    ensures After(m, s1, 0) == After(m, s2, 0)
  {
  }

  /** More budget is never worse: at every year of two worst-first runs, every cohort is in no
      worse condition, needs no more and has fallen no further behind, and the backlog is no larger. */
  lemma {:induction false} MoreBudgetNeverWorse(m: Model, b1: real, b2: real, i: nat)
    requires SoundModel(m) && b1 <= b2
    ensures Below(After(m, Worst(b1), i).pcis, After(m, Worst(b2), i).pcis)
    ensures Below(Needs(m, i, After(m, Worst(b2), i).pcis), Needs(m, i, After(m, Worst(b1), i).pcis))
    ensures AnnualNeed(m, Worst(b2), i) <= AnnualNeed(m, Worst(b1), i)
    ensures Backlog(m, Worst(b2), i) <= Backlog(m, Worst(b1), i)
    ensures Below(After(m, Worst(b2), i).deficit, After(m, Worst(b1), i).deficit)
  {
    hide Needs, Step, SoundModel, OnScale;
    RunOnScale(m, Worst(b1), i);
    RunOnScale(m, Worst(b2), i);
    if i == 0 {
      hide After;
      SameStart(m, Worst(b1), Worst(b2));
    } else {
      MoreBudgetNeverWorse(m, b1, b2, i - 1);
      RunOnScale(m, Worst(b1), i - 1);
      RunOnScale(m, Worst(b2), i - 1);
      OrderedYear(m, b1, b2, i - 1, After(m, Worst(b1), i - 1), After(m, Worst(b2), i - 1));
    }
    YearMonotone(m, b1, b2, i, After(m, Worst(b1), i).pcis, After(m, Worst(b2), i).pcis);
  }

  /** Preventive-first is the documented exception: its 1.2 efficiency overshoots the fully funded
      year exactly when the funded ratio lies above 5/6 and short of 1. */
  lemma PreventiveOvershoots(p: real, dp: real, r: real)
    requires 0.0 <= dp < p < 100.0 && 0.0 < r < 1.0
    ensures ByRatio(PreventiveFirst, p, dp, r) > ByRatio(PreventiveFirst, p, dp, 1.0) <==> r > 5.0 / 6.0
  {
    var gap := p - dp;
    assert Recovered(PreventiveFirst, p, dp, r) == Min(100.0, dp + gap * r * 1.2);
    if r > 5.0 / 6.0 {
      MulMonotone(5.0 / 6.0, r, gap, (5.0 / 6.0) * gap, r * gap);
    } else {
      MulMonotone(r, 5.0 / 6.0, gap, r * gap, (5.0 / 6.0) * gap);
    }
  }

  // -------------------------------------------------- whole runs: conservation

  function SpendOverYears(m: Model, s: Scenario, years: nat): real {
    if years == 0 then 0.0 else SpendOverYears(m, s, years - 1) + AnnualSpend(m, s, years - 1)
  }

  /** A fully funded year spends each cohort's need exactly. */
  lemma FullyFundedYear(m: Model, s: Scenario, year: nat, pcis: seq<real>)
    requires SoundModel(m) && |pcis| == |m.cohorts| && OnScale(pcis) && FullFunds(s)
    ensures Spent(Outcomes(m, s, year, pcis)) == Needs(m, year, pcis)
    ensures forall j :: 0 <= j < |pcis| ==> Needs(m, year, pcis)[j] >= 0.0
  {
    hide Need, Decayed;
    forall j | 0 <= j < |pcis|
      ensures Needs(m, year, pcis)[j] >= 0.0
    {
      NeedFalls(m, year, j, pcis[j], pcis[j]);
    }
  }

  lemma UnmetShare(need: real, share: real)
    requires need >= 0.0
    ensures Part(need, Max(0.0, 1.0 - share)) == Max(0.0, need - Part(need, share))
  {
    if share <= 1.0 {
      MulMonotone(share, 1.0, need, share * need, need);
    } else {
      MulMonotone(1.0, share, need, need, share * need);
    }
  }

  lemma UnmetOfShares(needs: seq<real>, os: seq<Outcome>, share: real)
    requires |needs| == |os| && (forall j :: 0 <= j < |needs| ==> needs[j] >= 0.0)
    requires forall j :: 0 <= j < |needs| && needs[j] == 0.0 ==> os[j].spent == 0.0
    requires forall j :: 0 <= j < |needs| && needs[j] != 0.0 ==> os[j].spent == Part(needs[j], share)
    ensures Sum(Unmet(needs, os)) == Max(0.0, Sum(needs) - Sum(Spent(os)))
  {
    hide Part;
    YearShare(needs, os, share);
    PartOfSum(0.0, 0.0, share);
    forall j | 0 <= j < |needs|
      ensures Unmet(needs, os)[j] == Part(needs[j], Max(0.0, 1.0 - share))
    {
      UnmetShare(needs[j], share);
    }
    SumScale(Unmet(needs, os), needs, Max(0.0, 1.0 - share), |needs|);
    SumOfNonNegatives(needs, |needs|);
    UnmetShare(Sum(needs), share);
  }

  /** Unmet need sums to exactly what the year adds to the backlog, in every strategy. */
  lemma UnmetIsShortfall(m: Model, s: Scenario, year: nat, pcis: seq<real>)
    requires SoundModel(m) && |pcis| == |m.cohorts| && OnScale(pcis)
    ensures var needs := Needs(m, year, pcis);
            var os := Outcomes(m, s, year, pcis);
            Sum(Unmet(needs, os)) == Max(0.0, Sum(needs) - Sum(Spent(os)))
  {
    hide Need, Decayed, ByRatio, Outcomes, PlannedSpend, Part, SpentShare;
    var needs, os := Needs(m, year, pcis), Outcomes(m, s, year, pcis);
    OutcomesAt(m, s, year, pcis);
    if FullFunds(s) {
      FullyFundedYear(m, s, year, pcis);
      assert forall j :: 0 <= j < |needs| ==> Spent(os)[j] == needs[j];
      SumOfZeros(Unmet(needs, os), |needs|);
    } else {
      ProportionalYear(m, s, year, pcis);
      var total := Sum(needs);
      UnmetOfShares(needs, os, if total == 0.0 then 0.0 else SpentShare(PlannedSpend(s, total) / total));
    }
  }

  lemma ConservedYear(m: Model, s: Scenario, year: nat, st: State)
    requires SoundModel(m) && Fits(m, st) && OnScale(st.pcis)
    ensures var r := Step(m, s, year, st);
            && Sum(r.spent) == Sum(st.spent) + Sum(Spent(Outcomes(m, s, year, st.pcis)))
            && Sum(r.deficit) - r.backlog == Sum(st.deficit) - st.backlog
  {
    hide Needs, Outcomes, Step;
    StepAt(m, s, year, st);
    UnmetIsShortfall(m, s, year, st.pcis);
    var needs, os, r := Needs(m, year, st.pcis), Outcomes(m, s, year, st.pcis), Step(m, s, year, st);
    SumAdd(st.spent, Spent(os), r.spent, |m.cohorts|);
    SumAdd(st.deficit, Unmet(needs, os), r.deficit, |m.cohorts|);
  }

  /** Conservation over a whole run: cohort spends sum to the yearly spends, and cohort deficits to
      the deferred backlog. */
  lemma {:induction false} Conservation(m: Model, s: Scenario, i: nat)
    requires SoundModel(m)
    ensures Sum(After(m, s, i).spent) == SpendOverYears(m, s, i)
    ensures Sum(After(m, s, i).deficit) == Backlog(m, s, i)
  {
    hide Outcomes, Step, Sum;
    if i == 0 {
      NoSpendYet(m, s);
    } else {
      Conservation(m, s, i - 1);
      RunOnScale(m, s, i - 1);
      ConservedYear(m, s, i - 1, After(m, s, i - 1));
    }
  }

  lemma NoSpendYet(m: Model, s: Scenario)
    ensures Sum(After(m, s, 0).spent) == Sum(After(m, s, 0).deficit) == 0.0
  {
    SumOfZeros(Zeros(|m.cohorts|), |m.cohorts|);
  }

  // ------------------------------------------------- whole runs: cycle scaling

  lemma ScaleSign(x: real, f: real)
    requires f > 0.0
    ensures (x > 0.0 <==> Part(x, f) > 0.0) && (x < 0.0 <==> Part(x, f) < 0.0)
  {
  }

  lemma RatioScales(a: real, b: real, f: real)
    requires f > 0.0 && b != 0.0
    ensures Part(b, f) != 0.0 && a / b == Part(a, f) / Part(b, f)
  {
    var r := a / b;
    assert r * b == a;
    assert r * (b * f) == a * f;
    Cancel(r, b * f, a * f);
  }

  lemma MinMaxScale(x: real, y: real, f: real)
    requires f > 0.0
    ensures Min(Part(x, f), Part(y, f)) == Part(Min(x, y), f)
    ensures Max(0.0, Part(x, f)) == Part(Max(0.0, x), f)
  {
    hide Part;
    ScaleSign(x - y, f);
    ScaleSign(x, f);
    PartOfSum(x, y, f);
  }

  lemma ApplySpendScales(strategy: Strategy, pci: real, decayed: real, spend: real, need: real, f: real)
    requires f > 0.0
    ensures var o := ApplySpend(strategy, pci, decayed, spend, need);
            ApplySpend(strategy, pci, decayed, Part(spend, f), Part(need, f)) == Outcome(o.pci, Part(o.spent, f))
  {
    hide Part;
    ScaleSign(spend, f);
    ScaleSign(need, f);
    ScaleSign(spend - need, f);
    PartOfSum(spend, need, f);
    if spend > 0.0 && need > 0.0 {
      RatioScales(spend, need, f);
      MinMaxScale(spend - need, need, f);
      RatioScales(Min(spend - need, need), need, f);
      PartOfSum(need, Min(spend - need, need), f);
    }
  }

  lemma CohortSpendScales(total: real, spend: real, full: bool, need: real, f: real)
    requires f > 0.0
    ensures CohortSpend(Part(total, f), Part(spend, f), full, Part(need, f)) ==
            Part(CohortSpend(total, spend, full, need), f)
  {
    hide Part;
    ScaleSign(total, f);
    PartOfSum(0.0, 0.0, f);
    if total > 0.0 {
      RatioScales(need, total, f);
      PartsCommute(spend, f, need / total);
    }
  }

  lemma PartsCommute(a: real, f: real, g: real)
    ensures Part(Part(a, f), g) == Part(Part(a, g), f)
  {
  }

  function OnCycle(m: Model, n: real): Model {
    m.(cycleYears := n)
  }

  function WithBudgetPart(s: Scenario, f: real): Scenario {
    s.(annualBudget := Part(s.annualBudget, f))
  }

  lemma NeedScales(m: Model, n: real, year: nat, j: nat, pci: real)
    requires n > 0.0 && j < |m.cohorts|
    ensures Need(OnCycle(m, n), year, j, pci) == Part(Need(OnCycle(m, 1.0), year, j, pci), 1.0 / n)
    ensures Decayed(OnCycle(m, n), j, pci) == Decayed(OnCycle(m, 1.0), j, pci)
  {
    hide GrownArea, AreaFraction, CostAt, DecayOneStep;
  }

  lemma PlanScales(s: Scenario, total: real, f: real)
    ensures PlannedSpend(WithBudgetPart(s, f), Part(total, f)) == Part(PlannedSpend(s, total), f)
  {
  }

  /** One year of an n-year cycle is the one-year cycle's year with every dollar divided by n. */
  lemma YearScales(m: Model, n: real, s: Scenario, year: nat, pcis: seq<real>)
    requires n > 0.0 && |pcis| == |m.cohorts|
    ensures var f := 1.0 / n;
            var mn, m1 := OnCycle(m, n), OnCycle(m, 1.0);
            && Sum(Needs(mn, year, pcis)) == Part(Sum(Needs(m1, year, pcis)), f)
            && (forall j :: 0 <= j < |pcis| ==> Needs(mn, year, pcis)[j] == Part(Needs(m1, year, pcis)[j], f))
            && (forall j :: 0 <= j < |pcis| ==>
                  var o := Outcomes(m1, s, year, pcis)[j];
                  Outcomes(mn, WithBudgetPart(s, f), year, pcis)[j] == Outcome(o.pci, Part(o.spent, f)))
  {
    hide Need, Decayed, ApplySpend, CohortSpend, Outcomes, Part, PlannedSpend;
    var f := 1.0 / n;
    var mn, m1, sn := OnCycle(m, n), OnCycle(m, 1.0), WithBudgetPart(s, f);
    forall j | 0 <= j < |pcis|
      ensures Needs(mn, year, pcis)[j] == Part(Needs(m1, year, pcis)[j], f)
      ensures Decayed(mn, j, pcis[j]) == Decayed(m1, j, pcis[j])
    {
      NeedScales(m, n, year, j, pcis[j]);
    }
    var needs, needsN := Needs(m1, year, pcis), Needs(mn, year, pcis);
    SumScale(needsN, needs, f, |pcis|);
    OutcomesAt(m1, s, year, pcis);
    OutcomesAt(mn, sn, year, pcis);
    var total, plan := Sum(needs), PlannedSpend(s, Sum(needs));
    PlanScales(s, total, f);
    forall j | 0 <= j < |pcis|
      ensures var o := Outcomes(m1, s, year, pcis)[j];
              Outcomes(mn, sn, year, pcis)[j] == Outcome(o.pci, Part(o.spent, f))
    {
      CohortSpendScales(total, plan, FullFunds(s), needs[j], f);
      var spend := CohortSpend(total, plan, FullFunds(s), needs[j]);
      ApplySpendScales(s.strategy, pcis[j], Decayed(m1, j, pcis[j]), spend, needs[j], f);
    }
  }

  /** Every dollar of state a is the fraction f of state b's, over the same conditions. */
  ghost predicate DollarsScaled(a: State, b: State, f: real) {
    && a.pcis == b.pcis && |a.spent| == |b.spent| && |a.deficit| == |b.deficit|
    && a.backlog == Part(b.backlog, f)
    && (forall j :: 0 <= j < |a.spent| ==> a.spent[j] == Part(b.spent[j], f))
    && (forall j :: 0 <= j < |a.deficit| ==> a.deficit[j] == Part(b.deficit[j], f))
  }

  lemma StepScales(m: Model, n: real, s: Scenario, year: nat, a: State, b: State)
    requires n > 0.0 && Fits(m, a) && Fits(m, b) && DollarsScaled(a, b, 1.0 / n)
    ensures DollarsScaled(Step(OnCycle(m, n), WithBudgetPart(s, 1.0 / n), year, a), Step(OnCycle(m, 1.0), s, year, b),
                          1.0 / n)
  {
    hide Needs, Outcomes, Step, Part, Sum, Max, WithBudgetPart, Spent;
    var f := 1.0 / n;
    var mn, m1, sn := OnCycle(m, n), OnCycle(m, 1.0), WithBudgetPart(s, f);
    YearScales(m, n, s, year, b.pcis);
    StepAt(mn, sn, year, a);
    StepAt(m1, s, year, b);
    var os, osN := Outcomes(m1, s, year, b.pcis), Outcomes(mn, sn, year, b.pcis);
    var needs := Needs(m1, year, b.pcis);
    SpentScales(os, osN, f);
    LedgerScales(b.backlog, Sum(needs), Sum(Spent(os)), f);
    forall j | 0 <= j < |m.cohorts|
      ensures Step(mn, sn, year, a).spent[j] == Part(Step(m1, s, year, b).spent[j], f)
      ensures Step(mn, sn, year, a).deficit[j] == Part(Step(m1, s, year, b).deficit[j], f)
    {
      PartOfSum(b.spent[j], os[j].spent, f);
      LedgerScales(b.deficit[j], needs[j], os[j].spent, f);
    }
    assert Step(mn, sn, year, a).pcis == Step(m1, s, year, b).pcis;
  }

  lemma SpentScales(os: seq<Outcome>, osN: seq<Outcome>, f: real)
    requires |os| == |osN| && forall j :: 0 <= j < |os| ==> osN[j].spent == Part(os[j].spent, f)
    ensures Sum(Spent(osN)) == Part(Sum(Spent(os)), f)
  {
    SumScale(Spent(osN), Spent(os), f, |os|);
  }

  lemma LedgerScales(owed: real, need: real, spent: real, f: real)
    requires f > 0.0
    ensures Part(owed, f) + Max(0.0, Part(need, f) - Part(spent, f)) == Part(owed + Max(0.0, need - spent), f)
  {
    hide Part;
    PartOfSum(need, spent, f);
    MinMaxScale(need - spent, 0.0, f);
    PartOfSum(owed, Max(0.0, need - spent), f);
  }

  /** Cycle scaling is exact over the reals: an n-year cycle with budget B/n follows the one-year
      cycle's conditions, with every dollar divided by n. */
  lemma {:induction false} CycleScaling(m: Model, n: real, s: Scenario, i: nat)
    requires n > 0.0
    ensures DollarsScaled(After(OnCycle(m, n), WithBudgetPart(s, 1.0 / n), i), After(OnCycle(m, 1.0), s, i), 1.0 / n)
    ensures AnnualNeed(OnCycle(m, n), WithBudgetPart(s, 1.0 / n), i) == Part(AnnualNeed(OnCycle(m, 1.0), s, i), 1.0 / n)
  {
    hide Needs, Step, Part;
    if i > 0 {
      CycleScaling(m, n, s, i - 1);
      StepScales(m, n, s, i - 1, After(OnCycle(m, n), WithBudgetPart(s, 1.0 / n), i - 1),
                 After(OnCycle(m, 1.0), s, i - 1));
    } else {
      PartOfSum(0.0, 0.0, 1.0 / n);
    }
    YearScales(m, n, s, i, After(OnCycle(m, 1.0), s, i).pcis);
  }
}
