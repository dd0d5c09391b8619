/** When the condition spread of internal/forecast/condition.go stays on the PCI scale: the exact
    condition, band by band; the facts of a Beta distribution that meet it; and how close to 100 a mean
    must be for the bisection to saturate and the last band to leave the scale. */
module SpreadScale {
  import opened RealMath
  import opened Scenario
  import opened ScenarioLaws
  import opened ConditionSpread

  /** The distribution function of a cohort's Beta, and that of its first moment. */
  function Cdf(interior: BetaFn, c: Cohort, x: real): real {
    RegIncBeta(interior, x, Alpha(c), Beta(c))
  }

  function MomentCdf(interior: BetaFn, c: Cohort, x: real): real {
    RegIncBeta(interior, x, Alpha(c) + 1.0, Beta(c))
  }

  /** Band i of the cohort reaches up to Bound i + 1. */
  function Bound(interior: BetaFn, c: Cohort, i: nat): real
    requires i <= ConditionBands
  {
    BoundAt(interior, Alpha(c), Beta(c), ConditionBands, i)
  }

  function Mean(c: Cohort): real {
    c.initialPCI / 100.0
  }

  /** What band i contributes to the cohort's mean. */
  function BandShare(interior: BetaFn, c: Cohort, i: nat): real
    requires i < ConditionBands
  {
    Part(Mean(c), MomentCdf(interior, c, Bound(interior, c, i + 1)) - MomentCdf(interior, c, Bound(interior, c, i)))
  }

  ghost predicate OnNetwork(c: Cohort) {
    c.area >= 0.0 && 0.0 <= c.initialPCI <= 100.0
  }

  ghost predicate RisingMoment(interior: BetaFn, c: Cohort) {
    Degenerate(c) || Rising(interior, Alpha(c) + 1.0, Beta(c))
  }

  /** No band contributes more to the mean than its ninth of the probability can. */
  ghost predicate SharesFit(interior: BetaFn, c: Cohort) {
    Degenerate(c) || forall i: nat :: i < ConditionBands ==> BandShare(interior, c, i) <= 1.0 / 9.0
  }

  // ------------------------------------------------------- the exact condition

  lemma ParametersPositive(c: Cohort)
    requires OnNetwork(c) && !Degenerate(c)
    ensures Alpha(c) >= 0.0 && Beta(c) >= 0.0
  {
  }

  /** A band's condition is nine times its share of the mean, on the scale of 100. */
  lemma BandCondition(interior: BetaFn, c: Cohort, i: nat)
    requires !Degenerate(c) && i < ConditionBands
    ensures |SpreadOne(interior, c)| == ConditionBands
    ensures SpreadOne(interior, c)[i] == c.(area := c.area / 9.0, initialPCI := 900.0 * BandShare(interior, c, i))
  {
    hide RegIncBeta, BoundAt, BetaMean;
    MeanIsCohorts(c);
    var means := BandMeans(interior, Alpha(c), Beta(c), ConditionBands);
    assert means[i] == MeanAt(interior, Alpha(c), Beta(c), ConditionBands, i) == Part(BandShare(interior, c, i), 9.0);
    assert SpreadOne(interior, c)[i] == Band(c, means[i]);
  }

  /** x is the middle of an interval of [0, 1], 2^-100 wide, over which the distribution passes p. */
  ghost predicate IsQuantile(interior: BetaFn, a: real, b: real, p: real, x: real) {
    exists lo: real, hi: real :: Passes(interior, a, b, p, lo, hi) && x == (lo + hi) / 2.0
  }

  ghost predicate Passes(interior: BetaFn, a: real, b: real, p: real, lo: real, hi: real) {
    && 0.0 <= lo < hi <= 1.0 && hi - lo == Width(100)
    && RegIncBeta(interior, lo, a, b) < p <= RegIncBeta(interior, hi, a, b)
  }

  lemma BoundIsQuantile(interior: BetaFn, c: Cohort, i: nat)
    requires 0 < i < 9
    ensures IsQuantile(interior, Alpha(c), Beta(c), i as real / 9.0, Bound(interior, c, i))
  {
    hide RegIncBeta, Bracket;
    BracketStraddles(interior, Level(i, 9), Alpha(c), Beta(c), 100);
    var it := Bracket(interior, Level(i, 9), Alpha(c), Beta(c), 100);
    assert Passes(interior, Alpha(c), Beta(c), i as real / 9.0, it.lo, it.hi);
  }

  /** Spreading in full: a mean within a ten-thousandth of 0 or 100 stays as it is; any other cohort becomes
      nine of its class and decay rate, each with a ninth of its area, cut at the ninths of a Beta with its
      mean and concentration 4, and each at nine times what its band adds to the mean. */
  lemma SpreadInFull(interior: BetaFn, c: Cohort) returns (x: seq<real>)
    ensures c.initialPCI <= 0.0001 || c.initialPCI >= 99.9999 ==> SpreadOne(interior, c) == [c]
    ensures 0.0001 < c.initialPCI < 99.9999 ==>
              var m := c.initialPCI / 100.0;
              var a, b := m * 4.0, (1.0 - m) * 4.0;
              && |SpreadOne(interior, c)| == 9 && |x| == 10 && x[0] == 0.0 && x[9] == 1.0
              && (forall i :: 0 < i < 9 ==> IsQuantile(interior, a, b, i as real / 9.0, x[i]))
              && forall i :: 0 <= i < 9 ==>
                   var share := Part(m, RegIncBeta(interior, x[i + 1], a + 1.0, b) -
                                        RegIncBeta(interior, x[i], a + 1.0, b));
                   SpreadOne(interior, c)[i] == c.(area := c.area / 9.0, initialPCI := 900.0 * share)
  {
    hide RegIncBeta, IsQuantile, BoundAt, Part, BetaMean;
    x := seq(10, i requires 0 <= i < 10 => Bound(interior, c, i));
    DegenerateIff(c);
    BoundEnds(interior, c);
    if !Degenerate(c) {
      forall i: nat | 0 < i < 9
        ensures IsQuantile(interior, Alpha(c), Beta(c), i as real / 9.0, x[i])
      {
        BoundIsQuantile(interior, c, i);
      }
      forall i: nat | i < 9
        ensures |SpreadOne(interior, c)| == 9
        ensures SpreadOne(interior, c)[i] ==
                c.(area := c.area / 9.0, initialPCI := 900.0 * BandShare(interior, c, i))
      {
        BandCondition(interior, c, i);
      }
      BandCondition(interior, c, 0);
    }
  }

  lemma DegenerateIff(c: Cohort)
    ensures Degenerate(c) <==> c.initialPCI <= 0.0001 || c.initialPCI >= 99.9999
  {
  }

  lemma BoundEnds(interior: BetaFn, c: Cohort)
    ensures Bound(interior, c, 0) == 0.0 && Bound(interior, c, 9) == 1.0
  {
  }

  /** A cohort's bands are on the scale if and only if each band's share fits. */
  lemma OneOnScaleIff(interior: BetaFn, c: Cohort)
    requires OnNetwork(c) && RisingMoment(interior, c)
    ensures (forall b :: b in SpreadOne(interior, c) ==> OnNetwork(b)) <==> SharesFit(interior, c)
  {
    hide BandShare, Rising;
    if !Degenerate(c) {
      MeanIsCohorts(c);
      ParametersPositive(c);
      var bands := SpreadOne(interior, c);
      forall i: nat | i < ConditionBands
        ensures bands[i] in bands && (OnNetwork(bands[i]) <==> BandShare(interior, c, i) <= 1.0 / 9.0)
      {
        BandCondition(interior, c, i);
        ShareNotNegative(interior, c, i);
      }
    }
  }

  lemma ShareNotNegative(interior: BetaFn, c: Cohort, i: nat)
    requires OnNetwork(c) && !Degenerate(c) && Rising(interior, Alpha(c) + 1.0, Beta(c)) && i < ConditionBands
    ensures BandShare(interior, c, i) >= 0.0
  {
    hide Rising, RegIncBeta, BoundAt;
    MomentsRise(interior, Alpha(c), Beta(c), ConditionBands, i);
    PartNotNegative(Mean(c), Moment(interior, Alpha(c), Beta(c), ConditionBands, i + 1) -
                             Moment(interior, Alpha(c), Beta(c), ConditionBands, i));
  }

  lemma {:induction false} SpreadOnScaleIff(interior: BetaFn, cohorts: seq<Cohort>)
    requires forall c :: c in cohorts ==> OnNetwork(c) && RisingMoment(interior, c)
    ensures (forall b :: b in Spread(interior, cohorts) ==> OnNetwork(b)) <==>
            (forall c :: c in cohorts ==> SharesFit(interior, c))
  {
    hide SpreadOne, OnNetwork, RisingMoment, SharesFit;
    if cohorts != [] {
      var front, last := cohorts[..|cohorts| - 1], cohorts[|cohorts| - 1];
      SpreadOnScaleIff(interior, front);
      OneOnScaleIff(interior, last);
      assert cohorts == front + [last];
    }
  }

  /** Where the first-moment functions rise, a spread network is as sound a model as the bare one if and
      only if every cohort's bands fit. */
  lemma SpreadIsSoundIff(m: Model, interior: BetaFn)
    requires SoundModel(m) && forall c :: c in m.cohorts ==> RisingMoment(interior, c)
    ensures SoundModel(m.(cohorts := Spread(interior, m.cohorts))) <==>
            (forall c :: c in m.cohorts ==> SharesFit(interior, c))
  {
    hide Spread, RisingMoment, SharesFit;
    assert forall c :: c in m.cohorts ==> OnNetwork(c);
    SpreadOnScaleIff(interior, m.cohorts);
    var spread := Spread(interior, m.cohorts);
    assert (forall b :: b in spread ==> OnNetwork(b)) <==> forall j :: 0 <= j < |spread| ==> OnNetwork(spread[j]);
  }

  /** Where they fit, more budget is never worse on a spread network either. */
  lemma SpreadMoreBudgetNeverWorse(m: Model, interior: BetaFn, b1: real, b2: real, i: nat)
    requires SoundModel(m) && b1 <= b2
    requires forall c :: c in m.cohorts ==> RisingMoment(interior, c) && SharesFit(interior, c)
    ensures var n := m.(cohorts := Spread(interior, m.cohorts));
            && Below(After(n, Worst(b1), i).pcis, After(n, Worst(b2), i).pcis)
            && Backlog(n, Worst(b2), i) <= Backlog(n, Worst(b1), i)
  {
    hide Spread, RisingMoment, SharesFit, SoundModel;
    SpreadIsSoundIff(m, interior);
    MoreBudgetNeverWorse(m.(cohorts := Spread(interior, m.cohorts)), b1, b2, i);
  }

  // -------------------------------------------------------- what a Beta meets

  /** The upper end of the bracket from which the last bound is taken. */
  function Top(interior: BetaFn, c: Cohort): real {
    Bracket(interior, Level(8, 9), Alpha(c), Beta(c), Halvings).hi
  }

  /** Over any interval the first moment is at most the upper end for each unit of probability. */
  ghost predicate MomentBound(interior: BetaFn, c: Cohort) {
    forall x: real, y: real :: 0.0 <= x <= y <= 1.0 ==>
      Part(Mean(c), MomentCdf(interior, c, y) - MomentCdf(interior, c, x)) <=
      Part(y, Cdf(interior, c, y) - Cdf(interior, c, x))
  }

  /** Over an interval as wide as a bracket after its last halving, up to the top, at most d of the
      probability. */
  ghost predicate Slow(interior: BetaFn, c: Cohort, d: real) {
    forall x: real, y: real :: 0.0 <= x <= y <= Top(interior, c) && y - x <= Width(Halvings) ==>
      Cdf(interior, c, y) - Cdf(interior, c, x) <= d
  }

  /** The facts of a Beta distribution, with the last two as what a caller checks of its mean: the last
      bound leaves room for the bisection's error, and the last band's share fits. */
  ghost predicate BetaLike(interior: BetaFn, c: Cohort, d: real) {
    && Rising(interior, Alpha(c), Beta(c)) && MomentBound(interior, c) && d >= 0.0 && Slow(interior, c, d)
    && Bound(interior, c, 8) * (1.0 + 18.0 * d) <= 1.0
    && BandShare(interior, c, 8) <= 1.0 / 9.0
  }

  /** Each bound's probability is within d of its level. */
  lemma NearLevel(interior: BetaFn, c: Cohort, d: real, i: nat)
    requires Rising(interior, Alpha(c), Beta(c)) && d >= 0.0 && Slow(interior, c, d) && i <= 8
    ensures Level(i, 9) - d <= Cdf(interior, c, Bound(interior, c, i)) <= Level(i, 9) + d
  {
    hide Bracket, RegIncBeta, Level;
    LevelOrder(i, 8);
    if i > 0 {
      var p := Level(i, 9);
      var it := Bracket(interior, p, Alpha(c), Beta(c), Halvings);
      BracketStraddles(interior, p, Alpha(c), Beta(c), Halvings);
      BracketStraddles(interior, Level(8, 9), Alpha(c), Beta(c), Halvings);
      BracketsInOrder(interior, p, Level(8, 9), Alpha(c), Beta(c), Halvings);
      assert it.hi <= Top(interior, c);
      assert Cdf(interior, c, it.hi) - Cdf(interior, c, it.lo) <= d;
      assert it.lo <= Bound(interior, c, i) <= it.hi;
    } else {
      AtZero(interior, c);
    }
  }

  lemma AtZero(interior: BetaFn, c: Cohort)
    ensures Bound(interior, c, 0) == 0.0 && Cdf(interior, c, 0.0) == 0.0 && Level(0, 9) == 0.0
  {
  }

  lemma LevelOrder(i: nat, j: nat)
    requires i <= j <= 8
    ensures 0.0 <= Level(i, 9) <= Level(j, 9) < 1.0 && (i > 0 ==> Level(i, 9) > 0.0)
    ensures i < j ==> Level(i + 1, 9) == Level(i, 9) + 1.0 / 9.0
  {
  }

  lemma BoundOrder(interior: BetaFn, c: Cohort, i: nat)
    requires i <= 8
    ensures 0.0 <= Bound(interior, c, i) <= Bound(interior, c, 8) <= 1.0
    ensures i < 8 ==> Bound(interior, c, i) <= Bound(interior, c, i + 1)
  {
    hide BetaQuantile, Level;
    LevelOrder(i, 8);
    QuantilesRise(interior, Level(i, 9), Level(8, 9), Alpha(c), Beta(c));
    if i < 8 {
      QuantilesRise(interior, Level(i, 9), Level(i + 1, 9), Alpha(c), Beta(c));
    }
  }

  lemma RoomForError(x: real, y: real, rise: real, d: real)
    requires 0.0 <= x <= y && y * (1.0 + 18.0 * d) <= 1.0 && d >= 0.0 && rise <= 1.0 / 9.0 + 2.0 * d
    ensures Part(x, rise) <= 1.0 / 9.0
  {
    var most := 1.0 / 9.0 + 2.0 * d;
    MulMonotone(rise, most, x, rise * x, most * x);
    MulMonotone(x, y, most, x * most, y * most);
    assert y * most == y * (1.0 + 18.0 * d) / 9.0;
  }

  /** A Beta whose last bound and last band pass their checks spreads on the scale. */
  lemma BetaFits(interior: BetaFn, c: Cohort, d: real)
    requires BetaLike(interior, c, d)
    ensures SharesFit(interior, c)
  {
    hide BandShare, Slow, MomentBound, Cdf, Bound, Rising, Level;
    forall i: nat | i < ConditionBands
      ensures BandShare(interior, c, i) <= 1.0 / 9.0
    {
      if i < 8 {
        InnerBandFits(interior, c, d, i);
      }
    }
  }

  lemma InnerBandFits(interior: BetaFn, c: Cohort, d: real, i: nat)
    requires BetaLike(interior, c, d) && i < 8
    ensures BandShare(interior, c, i) <= 1.0 / 9.0
  {
    hide Slow, Cdf, MomentCdf, Bound, Rising, Level, Part, Mean;
    NearLevel(interior, c, d, i);
    NearLevel(interior, c, d, i + 1);
    LevelOrder(i, 8);
    BoundOrder(interior, c, i);
    BoundOrder(interior, c, i + 1);
    var x, y := Bound(interior, c, i), Bound(interior, c, i + 1);
    RoomForError(y, Bound(interior, c, 8), Cdf(interior, c, y) - Cdf(interior, c, x), d);
  }

  // -------------------------------------------------------------- saturation

  lemma {:induction false} WidthFalls(n: nat, m: nat)
    requires n <= m
    ensures Width(m) <= Width(n)
  {
    if n < m {
      WidthFalls(n, m - 1);
    }
  }

  /** Where the distribution has not reached p one last width below 1, the bisection runs up against 1. */
  lemma {:induction false} BracketSaturates(interior: BetaFn, p: real, a: real, b: real, n: nat)
    requires 0.0 < p < 1.0 && n <= Halvings
    requires Rising(interior, a, b) && RegIncBeta(interior, 1.0 - Width(Halvings), a, b) < p
    ensures Bracket(interior, p, a, b, n) == Interval(1.0 - Width(n), 1.0)
  {
    hide RegIncBeta;
    if n > 0 {
      BracketSaturates(interior, p, a, b, n - 1);
      WidthFalls(n, Halvings);
      assert RegIncBeta(interior, 1.0 - Width(n), a, b) <= RegIncBeta(interior, 1.0 - Width(Halvings), a, b);
    }
  }

  /** Half a last width below 1: the bound that every saturated bisection returns. */
  const SaturatedBound := 1.0 - Width(Halvings) / 2.0

  /** The distribution of the cohort has not reached level i before the bisection's resolution ends. */
  ghost predicate Saturated(interior: BetaFn, c: Cohort, i: nat) {
    !Degenerate(c) && Rising(interior, Alpha(c), Beta(c)) && Cdf(interior, c, 1.0 - Width(Halvings)) < Level(i, 9)
  }

  lemma BoundSaturates(interior: BetaFn, c: Cohort, i: nat)
    requires 0 < i <= 8 && Saturated(interior, c, i)
    ensures Bound(interior, c, i) == SaturatedBound
  {
    hide Bracket, RegIncBeta, Rising;
    LevelOrder(i, 8);
    BracketSaturates(interior, Level(i, 9), Alpha(c), Beta(c), Halvings);
  }

  /** The last band leaves the scale if and only if its share exceeds a ninth. Where the last bound is
      saturated, that share is the mean times what the first moment still lacks there. */
  lemma LastBandLeavesIff(interior: BetaFn, c: Cohort)
    requires !Degenerate(c)
    ensures SpreadOne(interior, c)[8].initialPCI > 100.0 <==> BandShare(interior, c, 8) > 1.0 / 9.0
    ensures Saturated(interior, c, 8) ==>
              BandShare(interior, c, 8) == Part(Mean(c), 1.0 - MomentCdf(interior, c, SaturatedBound))
  {
    hide Rising, BoundAt, Cdf;
    BandCondition(interior, c, 8);
    LastMoment(interior, c);
    if Saturated(interior, c, 8) {
      BoundSaturates(interior, c, 8);
    }
  }

  lemma LastMoment(interior: BetaFn, c: Cohort)
    ensures Bound(interior, c, 9) == 1.0 && MomentCdf(interior, c, 1.0) == 1.0
  {
  }

  /** An accepted condition at which the code leaves the scale. For the Beta of a mean of 99.5 the two
      values asked for are about 0.741 and 0.743, and the band is about 230. */
  lemma NearPerfectLeavesScale(interior: BetaFn, c: Cohort)
    requires c.initialPCI == 99.5 && Rising(interior, Alpha(c), Beta(c))
    requires Cdf(interior, c, 1.0 - Width(Halvings)) < 8.0 / 9.0 && MomentCdf(interior, c, SaturatedBound) <= 0.8
    ensures SpreadOne(interior, c)[8].initialPCI > 100.0 && (RisingMoment(interior, c) ==> !SharesFit(interior, c))
  {
    hide Rising, RegIncBeta;
    LastBandLeavesIff(interior, c);
    MulMonotone(0.2, 1.0 - MomentCdf(interior, c, SaturatedBound), 0.995, 0.2 * 0.995,
                Part(0.995, 1.0 - MomentCdf(interior, c, SaturatedBound)));
  }

  /** Closer still to 100 every bound saturates: seven bands are at condition 0, and the first and the
      last share the mean. */
  lemma AllBandsSaturate(interior: BetaFn, c: Cohort)
    requires Saturated(interior, c, 1)
    ensures var g := MomentCdf(interior, c, SaturatedBound);
            && |SpreadOne(interior, c)| == 9
            && SpreadOne(interior, c)[0] == c.(area := c.area / 9.0, initialPCI := 900.0 * Part(Mean(c), g))
            && SpreadOne(interior, c)[8] == c.(area := c.area / 9.0, initialPCI := 900.0 * Part(Mean(c), 1.0 - g))
            && forall i :: 0 < i < 8 ==> SpreadOne(interior, c)[i] == c.(area := c.area / 9.0, initialPCI := 0.0)
  {
    hide RegIncBeta, BoundAt, Rising, Part;
    forall i: nat | 0 < i <= 8
      ensures Bound(interior, c, i) == SaturatedBound
    {
      LevelOrder(1, i);
      BoundSaturates(interior, c, i);
    }
    FirstMoment(interior, c);
    LastMoment(interior, c);
    ScaleOfSum(Mean(c), 0.0, 0.0);
    forall i: nat | i < 9
      ensures SpreadOne(interior, c)[i] == c.(area := c.area / 9.0, initialPCI := 900.0 * BandShare(interior, c, i))
    {
      BandCondition(interior, c, i);
    }
    BandCondition(interior, c, 0);
  }

  lemma FirstMoment(interior: BetaFn, c: Cohort)
    ensures Bound(interior, c, 0) == 0.0 && MomentCdf(interior, c, 0.0) == 0.0
  {
  }
}
