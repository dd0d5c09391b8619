/** The condition spread, internal/forecast/condition.go: cohorts split into equal-probability bands of
    a Beta distribution, and summary rows collapsed by class. */
module ConditionSpread {
  import opened RealMath
  import opened Scenario
  import opened ScenarioLaws

  const ConditionConcentration := 4.0
  const ConditionBands: nat := 9
  const ConditionEps := 0.000001
  const Halvings: nat := 100

  /** The interior of the regularized incomplete beta function, at x, a, b. */
  type BetaFn = (real, real, real) -> real

  /** regIncBeta: its two end branches are all that the bands' mean rests on. */
  function RegIncBeta(interior: BetaFn, x: real, a: real, b: real): real {
    if x <= 0.0 then 0.0 else if x >= 1.0 then 1.0 else interior(x, a, b)
  }

  // --------------------------------------------------------------- quantiles

  datatype Interval = Interval(lo: real, hi: real)

  /** The bracket for probability p after n halvings of [0, 1]. */
  function Bracket(interior: BetaFn, p: real, a: real, b: real, n: nat): Interval {
    if n == 0 then Interval(0.0, 1.0)
    else
      var it := Bracket(interior, p, a, b, n - 1);
      var mid := (it.lo + it.hi) / 2.0;
      if RegIncBeta(interior, mid, a, b) < p then Interval(mid, it.hi) else Interval(it.lo, mid)
  }

  function Width(n: nat): (w: real)
    ensures w > 0.0
  {
    if n == 0 then 1.0 else Width(n - 1) / 2.0
  }

  function BetaQuantile(interior: BetaFn, p: real, a: real, b: real): real {
    if p <= 0.0 then 0.0
    else if p >= 1.0 then 1.0
    else (Bracket(interior, p, a, b, Halvings).lo + Bracket(interior, p, a, b, Halvings).hi) / 2.0
  }

  /** betaQuantile's bisection. */
  method BisectQuantile(interior: BetaFn, p: real, a: real, b: real) returns (x: real)
    ensures x == BetaQuantile(interior, p, a, b)
  {
    if p <= 0.0 {
      return 0.0;
    }
    if p >= 1.0 {
      return 1.0;
    }
    var lo, hi := 0.0, 1.0;
    for n := 0 to Halvings
      invariant Interval(lo, hi) == Bracket(interior, p, a, b, n)
    {
      var mid := (lo + hi) / 2.0;
      if RegIncBeta(interior, mid, a, b) < p {
        lo := mid;
      } else {
        hi := mid;
      }
    }
    return (lo + hi) / 2.0;
  }

  /** The bracket always straddles p, halves each time, and stays within [0, 1]. */
  lemma {:induction false} BracketStraddles(interior: BetaFn, p: real, a: real, b: real, n: nat)
    requires 0.0 < p < 1.0
    ensures var it := Bracket(interior, p, a, b, n);
            && RegIncBeta(interior, it.lo, a, b) < p <= RegIncBeta(interior, it.hi, a, b)
            && 0.0 <= it.lo < it.hi <= 1.0 && it.hi - it.lo == Width(n)
  {
    if n > 0 {
      BracketStraddles(interior, p, a, b, n - 1);
    }
  }

  /** Brackets for two probabilities agree until they part, and then lie in order. */
  lemma {:induction false} BracketsInOrder(interior: BetaFn, p: real, q: real, a: real, b: real, n: nat)
    requires 0.0 < p <= q < 1.0
    ensures var x, y := Bracket(interior, p, a, b, n), Bracket(interior, q, a, b, n); x == y || x.hi <= y.lo
  {
    hide RegIncBeta;
    if n > 0 {
      BracketsInOrder(interior, p, q, a, b, n - 1);
      BracketStraddles(interior, p, a, b, n - 1);
      BracketStraddles(interior, q, a, b, n - 1);
    }
  }

  /** Quantiles rise with the probability, whatever the distribution. */
  lemma QuantilesRise(interior: BetaFn, p: real, q: real, a: real, b: real)
    requires p <= q
    ensures 0.0 <= BetaQuantile(interior, p, a, b) <= BetaQuantile(interior, q, a, b) <= 1.0
  {
    hide Bracket, RegIncBeta;
    if 0.0 < p < 1.0 {
      BracketStraddles(interior, p, a, b, Halvings);
    }
    if 0.0 < q < 1.0 {
      BracketStraddles(interior, q, a, b, Halvings);
    }
    if 0.0 < p && q < 1.0 {
      BracketsInOrder(interior, p, q, a, b, Halvings);
    }
  }

  // -------------------------------------------------------------- band means

  function Level(i: nat, k: nat): real
    requires k > 0
  {
    i as real / k as real
  }

  /** Bound i of k bands. */
  function BoundAt(interior: BetaFn, a: real, b: real, k: nat, i: nat): real
    requires i <= k
  {
    if i == 0 then 0.0 else if i == k then 1.0 else BetaQuantile(interior, Level(i, k), a, b)
  }

  function BetaMean(a: real, b: real): real
    requires a + b != 0.0
  {
    a / (a + b)
  }

  /** The first moment up to bound i, as a share of the mean. */
  function Moment(interior: BetaFn, a: real, b: real, k: nat, i: nat): real
    requires i <= k
  {
    RegIncBeta(interior, BoundAt(interior, a, b, k, i), a + 1.0, b)
  }

  lemma MomentEnds(interior: BetaFn, a: real, b: real, k: nat)
    requires k > 0
    ensures Moment(interior, a, b, k, 0) == 0.0 && Moment(interior, a, b, k, k) == 1.0
  {
  }

  /** The conditional mean over a band that reaches from lo to hi in the first-moment distribution. */
  function BandMean(m: real, lo: real, hi: real, k: nat): real {
    Part(Part(m, hi - lo), k as real)
  }

  function MeanAt(interior: BetaFn, a: real, b: real, k: nat, i: nat): real
    requires a + b != 0.0 && i < k
  {
    BandMean(BetaMean(a, b), Moment(interior, a, b, k, i), Moment(interior, a, b, k, i + 1), k)
  }

  function BandMeans(interior: BetaFn, a: real, b: real, k: nat): (means: seq<real>)
    requires a + b != 0.0
    ensures |means| == k
  {
    seq(k, i requires 0 <= i < k => MeanAt(interior, a, b, k, i))
  }

  /** betaBandMeans. */
  method BetaBandMeans(interior: BetaFn, a: real, b: real, k: nat) returns (means: seq<real>)
    requires a + b != 0.0 && k > 0
    ensures means == BandMeans(interior, a, b, k)
  {
    hide RegIncBeta, BetaQuantile, BandMean, BetaMean, Level;
    var m := BetaMean(a, b);
    var bounds := [0.0];
    for i := 1 to k
      invariant |bounds| == i && forall j :: 0 <= j < i ==> bounds[j] == BoundAt(interior, a, b, k, j)
    {
      var x := BisectQuantile(interior, Level(i, k), a, b);
      bounds := bounds + [x];
    }
    bounds := bounds + [1.0];
    means := [];
    for i := 0 to k
      invariant |means| == i && forall j :: 0 <= j < i ==> means[j] == MeanAt(interior, a, b, k, j)
    {
      var hi := RegIncBeta(interior, bounds[i + 1], a + 1.0, b);
      var lo := RegIncBeta(interior, bounds[i], a + 1.0, b);
      means := means + [BandMean(m, lo, hi, k)];
    }
  }

  /** The band means telescope: their sum is k times the distribution's mean. */
  lemma {:induction false} MeansTelescope(interior: BetaFn, a: real, b: real, k: nat, n: nat)
    requires a + b != 0.0 && 0 < n <= k
    ensures SumUpTo(BandMeans(interior, a, b, k), n) == BandMean(BetaMean(a, b), 0.0, Moment(interior, a, b, k, n), k)
  {
    hide Part, BetaMean, Moment, BandMean;
    var means := BandMeans(interior, a, b, k);
    MomentEnds(interior, a, b, k);
    if n == 1 {
      assert SumUpTo(means, 1) == SumUpTo(means, 0) + means[0];
    } else {
      MeansTelescope(interior, a, b, k, n - 1);
      MeansAdd(BetaMean(a, b), Moment(interior, a, b, k, n - 1), Moment(interior, a, b, k, n), k);
    }
  }

  lemma MeansAdd(m: real, lo: real, hi: real, k: nat)
    ensures BandMean(m, 0.0, lo, k) + BandMean(m, lo, hi, k) == BandMean(m, 0.0, hi, k)
  {
    hide Part;
    ScaleOfSum(m, lo, hi - lo);
    PartOfSum(Part(m, lo), Part(m, hi - lo), k as real);
    assert lo - 0.0 == lo && hi - 0.0 == hi && lo + (hi - lo) == hi;
  }

  lemma ScaleOfSum(m: real, x: real, y: real)
    ensures Part(m, x) + Part(m, y) == Part(m, x + y)
    ensures Part(m, 1.0) == m
  {
  }

  lemma MeansSum(interior: BetaFn, a: real, b: real, k: nat)
    requires a + b != 0.0 && k > 0
    ensures Sum(BandMeans(interior, a, b, k)) == Part(BetaMean(a, b), k as real)
  {
    hide BandMeans, BetaMean, Part, Moment;
    MeansTelescope(interior, a, b, k, k);
    MomentEnds(interior, a, b, k);
    ScaleOfSum(BetaMean(a, b), 1.0, 0.0);
  }

  ghost predicate Rising(interior: BetaFn, a: real, b: real) {
    forall x: real, y: real :: x <= y ==> RegIncBeta(interior, x, a, b) <= RegIncBeta(interior, y, a, b)
  }

  /** With a rising first-moment distribution, no band mean is negative. */
  lemma MeansNotNegative(interior: BetaFn, a: real, b: real, k: nat, i: nat)
    requires a >= 0.0 && b >= 0.0 && a + b > 0.0 && i < k
    requires Rising(interior, a + 1.0, b)
    ensures BandMeans(interior, a, b, k)[i] >= 0.0
  {
    hide Rising, Moment, BetaMean, Part;
    MomentsRise(interior, a, b, k, i);
    MeanNotNegative(a, b);
    var rise := Moment(interior, a, b, k, i + 1) - Moment(interior, a, b, k, i);
    PartNotNegative(BetaMean(a, b), rise);
    PartNotNegative(Part(BetaMean(a, b), rise), k as real);
  }

  lemma MomentsRise(interior: BetaFn, a: real, b: real, k: nat, i: nat)
    requires i < k && Rising(interior, a + 1.0, b)
    ensures Moment(interior, a, b, k, i) <= Moment(interior, a, b, k, i + 1)
  {
    hide RegIncBeta, BoundAt;
    BoundsRise(interior, a, b, k, i);
  }

  lemma BoundsRise(interior: BetaFn, a: real, b: real, k: nat, i: nat)
    requires i < k
    ensures BoundAt(interior, a, b, k, i) <= BoundAt(interior, a, b, k, i + 1)
  {
    hide BetaQuantile;
    DivMonotone(i as real, (i + 1) as real, k as real);
    QuantilesRise(interior, i as real / k as real, (i + 1) as real / k as real, a, b);
  }

  lemma PartNotNegative(x: real, f: real)
    requires x >= 0.0 && f >= 0.0
    ensures Part(x, f) >= 0.0
  {
  }

  lemma MeanNotNegative(a: real, b: real)
    requires a >= 0.0 && a + b > 0.0
    ensures BetaMean(a, b) >= 0.0
  {
    DivMonotone(0.0, a, a + b);
  }

  // ------------------------------------------------------------------ spread

  /** A mean this close to either end has no meaningful spread. */
  predicate Degenerate(c: Cohort) {
    var m := c.initialPCI / 100.0;
    m <= ConditionEps || m >= 1.0 - ConditionEps
  }

  function Alpha(c: Cohort): real {
    c.initialPCI / 100.0 * ConditionConcentration
  }

  function Beta(c: Cohort): real {
    (1.0 - c.initialPCI / 100.0) * ConditionConcentration
  }

  function Band(c: Cohort, mean: real): Cohort {
    c.(area := c.area / ConditionBands as real, initialPCI := mean * 100.0)
  }

  function SpreadOne(interior: BetaFn, c: Cohort): seq<Cohort> {
    if Degenerate(c) then [c]
    else
      var means := BandMeans(interior, Alpha(c), Beta(c), ConditionBands);
      seq(ConditionBands, i requires 0 <= i < ConditionBands => Band(c, means[i]))
  }

  function Spread(interior: BetaFn, cohorts: seq<Cohort>): seq<Cohort> {
    if cohorts == [] then []
    else Spread(interior, cohorts[..|cohorts| - 1]) + SpreadOne(interior, cohorts[|cohorts| - 1])
  }

  /** ApplyConditionSpread. */
  method ApplyConditionSpread(interior: BetaFn, cohorts: seq<Cohort>) returns (spread: seq<Cohort>)
    ensures spread == Spread(interior, cohorts)
  {
    hide BandMeans;
    spread := [];
    for j := 0 to |cohorts|
      invariant spread == Spread(interior, cohorts[..j])
    {
      assert cohorts[..j + 1][..j] == cohorts[..j];
      var c := cohorts[j];
      if Degenerate(c) {
        spread := spread + [c];
        continue;
      }
      var means := BetaBandMeans(interior, Alpha(c), Beta(c), ConditionBands);
      ghost var before := spread;
      for i := 0 to |means|
        invariant spread == before + SpreadOne(interior, c)[..i]
      {
        spread := spread + [Band(c, means[i])];
      }
      assert SpreadOne(interior, c)[..ConditionBands] == SpreadOne(interior, c);
    }
    assert cohorts[..|cohorts|] == cohorts;
  }

  // ----------------------------------------------------------- what it keeps

  /** The sum of a quantity over rows. */
  function Tally<T>(rows: seq<T>, quantity: T -> real): real {
    if rows == [] then 0.0 else Tally(rows[..|rows| - 1], quantity) + quantity(rows[|rows| - 1])
  }

  lemma {:induction false} TallyJoin<T>(a: seq<T>, b: seq<T>, quantity: T -> real)
    ensures Tally(a + b, quantity) == Tally(a, quantity) + Tally(b, quantity)
  {
    if b == [] {
      assert a + b == a;
    } else {
      assert (a + b)[..|a + b| - 1] == a + b[..|b| - 1];
      TallyJoin(a, b[..|b| - 1], quantity);
    }
  }

  /** A class's area, and its area times condition; any set of classes and decay rates will do. */
  function AreaOf(picks: (string, real) -> bool): Cohort -> real {
    (c: Cohort) => if picks(c.classification, c.decayRate) then c.area else 0.0
  }

  function ConditionOf(picks: (string, real) -> bool): Cohort -> real {
    (c: Cohort) => if picks(c.classification, c.decayRate) then Part(c.area, c.initialPCI) else 0.0
  }

  /** Bands that each carry share of a total, and condition share times twice-scaled means. */
  lemma {:induction false} TallyBands(bands: seq<Cohort>, c: Cohort, means: seq<real>, n: nat,
                                      picks: (string, real) -> bool)
    requires n <= |means| == |bands| && forall i :: 0 <= i < n ==> bands[i] == Band(c, means[i])
    requires picks(c.classification, c.decayRate)
    ensures Tally(bands[..n], AreaOf(picks)) == Part(c.area / ConditionBands as real, n as real)
    ensures Tally(bands[..n], ConditionOf(picks)) == Part(c.area / ConditionBands as real, SumUpTo(means, n) * 100.0)
  {
    hide Part;
    var share := c.area / ConditionBands as real;
    if n == 0 {
      ScaleOfSum(share, 0.0, 0.0);
    } else {
      TallyBands(bands, c, means, n - 1, picks);
      assert bands[..n][..n - 1] == bands[..n - 1];
      ScaleOfSum(share, (n - 1) as real, 1.0);
      ScaleOfSum(share, SumUpTo(means, n - 1) * 100.0, means[n - 1] * 100.0);
    }
  }

  lemma {:induction false} TallyNothing(rows: seq<Cohort>, quantity: Cohort -> real)
    requires forall i :: 0 <= i < |rows| ==> quantity(rows[i]) == 0.0
    ensures Tally(rows, quantity) == 0.0
  {
    if rows != [] {
      TallyNothing(rows[..|rows| - 1], quantity);
    }
  }

  lemma BandShares(area: real, pci: real)
    ensures Part(area / 9.0, 9.0) == area && Part(area / 9.0, Part(pci / 100.0, 9.0) * 100.0) == Part(area, pci)
  {
    var share := area / 9.0;
    assert share * 9.0 == area;
    assert Part(pci / 100.0, 9.0) * 100.0 == 9.0 * pci;
    assert share * (9.0 * pci) == (share * 9.0) * pci;
  }

  /** Alpha and beta add up to the concentration, so the Beta's mean is the cohort's. */
  lemma MeanIsCohorts(c: Cohort)
    ensures Alpha(c) + Beta(c) == ConditionConcentration && BetaMean(Alpha(c), Beta(c)) == c.initialPCI / 100.0
  {
  }

  lemma OneKeeps(interior: BetaFn, c: Cohort, picks: (string, real) -> bool)
    ensures Tally(SpreadOne(interior, c), AreaOf(picks)) == AreaOf(picks)(c)
    ensures Tally(SpreadOne(interior, c), ConditionOf(picks)) == ConditionOf(picks)(c)
  {
    hide BandMeans, Part, BetaMean;
    var bands := SpreadOne(interior, c);
    if Degenerate(c) {
      assert bands[..0] == [];
    } else if picks(c.classification, c.decayRate) {
      MeanIsCohorts(c);
      var means := BandMeans(interior, Alpha(c), Beta(c), ConditionBands);
      MeansSum(interior, Alpha(c), Beta(c), ConditionBands);
      TallyBands(bands, c, means, ConditionBands, picks);
      assert bands[..ConditionBands] == bands;
      BandShares(c.area, c.initialPCI);
    } else {
      TallyNothing(bands, AreaOf(picks));
      TallyNothing(bands, ConditionOf(picks));
    }
  }

  /** Spreading keeps the area and the area-weighted condition of every class and decay rate, and so
      of the whole network. */
  lemma {:induction false} SpreadKeeps(interior: BetaFn, cohorts: seq<Cohort>, picks: (string, real) -> bool)
    ensures Tally(Spread(interior, cohorts), AreaOf(picks)) == Tally(cohorts, AreaOf(picks))
    ensures Tally(Spread(interior, cohorts), ConditionOf(picks)) == Tally(cohorts, ConditionOf(picks))
  {
    hide SpreadOne;
    if cohorts != [] {
      var front, last := cohorts[..|cohorts| - 1], cohorts[|cohorts| - 1];
      SpreadKeeps(interior, front, picks);
      OneKeeps(interior, last, picks);
      TallyJoin(Spread(interior, front), SpreadOne(interior, last), AreaOf(picks));
      TallyJoin(Spread(interior, front), SpreadOne(interior, last), ConditionOf(picks));
    }
  }

  // -------------------------------------------------------------- aggregation

  /** One output row while it is being summed; weighted is its area times condition. */
  datatype ClassRow = ClassRow(classification: string, decayRate: real, area: real, spend: real, deficit: real,
                               weighted: real)

  function NewRow(s: CohortSummary): ClassRow {
    ClassRow(s.classification, s.decayRate, 0.0, 0.0, 0.0, 0.0)
  }

  function AddTo(row: ClassRow, s: CohortSummary): ClassRow {
    row.(area := row.area + s.area, spend := row.spend + s.totalSpend, deficit := row.deficit + s.totalDeficit,
         weighted := row.weighted + Part(s.area, s.endPCI))
  }

  /** The position of a class, or |rows|. */
  function RowIndex(rows: seq<ClassRow>, name: string): (i: nat)
    ensures i <= |rows| && (i < |rows| ==> rows[i].classification == name)
    ensures forall j :: 0 <= j < i ==> rows[j].classification != name
  {
    if rows == [] || rows[0].classification == name then 0 else 1 + RowIndex(rows[1..], name)
  }

  function AddSummary(rows: seq<ClassRow>, s: CohortSummary): seq<ClassRow> {
    var i := RowIndex(rows, s.classification);
    if i < |rows| then rows[i := AddTo(rows[i], s)] else rows + [AddTo(NewRow(s), s)]
  }

  function RowsOf(summaries: seq<CohortSummary>): seq<ClassRow> {
    if summaries == [] then [] else AddSummary(RowsOf(summaries[..|summaries| - 1]), summaries[|summaries| - 1])
  }

  function FinishRow(row: ClassRow): CohortSummary {
    CohortSummary(row.classification, if row.area > 0.0 then row.weighted / row.area else 0.0, row.area, row.decayRate,
                  row.spend, row.deficit)
  }

  function FinishRows(rows: seq<ClassRow>): seq<CohortSummary> {
    seq(|rows|, i requires 0 <= i < |rows| => FinishRow(rows[i]))
  }

  ghost predicate DistinctRows(rows: seq<ClassRow>) {
    forall i, j :: 0 <= i < j < |rows| ==> rows[i].classification != rows[j].classification
  }

  /** AggregateCohortSummariesByClass. */
  method AggregateCohortSummariesByClass(summaries: seq<CohortSummary>) returns (result: seq<CohortSummary>)
    ensures result == FinishRows(RowsOf(summaries))
  {
    hide AddTo, FinishRow, AddSummary, RowIndex, NewRow;
    var idx: map<string, nat> := map[];
    var rows: seq<ClassRow> := [];
    for n := 0 to |summaries|
      invariant rows == RowsOf(summaries[..n]) && DistinctRows(rows)
      invariant forall c :: c in idx ==> idx[c] < |rows| && rows[idx[c]].classification == c
      invariant forall i :: 0 <= i < |rows| ==> rows[i].classification in idx
    {
      assert summaries[..n + 1][..n] == summaries[..n];
      var s := summaries[n];
      AddToKeepsClass(s);
      AddsOne(rows, s, if s.classification in idx then idx[s.classification] else |rows|);
      if s.classification !in idx {
        idx := idx[s.classification := |rows|];
        rows := rows + [NewRow(s)];
      }
      var i := idx[s.classification];
      rows := rows[i := AddTo(rows[i], s)];
    }
    assert summaries[..|summaries|] == summaries;
    result := [];
    for i := 0 to |rows|
      invariant result == FinishRows(rows)[..i]
    {
      result := result + [FinishRow(rows[i])];
    }
    assert FinishRows(rows)[..|rows|] == FinishRows(rows);
  }

  lemma AddsOne(rows: seq<ClassRow>, s: CohortSummary, i: nat)
    requires DistinctRows(rows) && i <= |rows| && (i < |rows| ==> rows[i].classification == s.classification)
    requires i == |rows| ==> forall j :: 0 <= j < |rows| ==> rows[j].classification != s.classification
    ensures var more := if i < |rows| then rows else rows + [NewRow(s)];
            AddSummary(rows, s) == more[i := AddTo(more[i], s)] && DistinctRows(AddSummary(rows, s))
  {
    hide AddTo, NewRow;
    AddToKeepsClass(s);
  }

  lemma AddToKeepsClass(s: CohortSummary)
    ensures forall row :: AddTo(row, s).classification == row.classification
    ensures NewRow(s).classification == s.classification
  {
  }

  lemma {:induction false} RowsDistinct(summaries: seq<CohortSummary>)
    ensures DistinctRows(RowsOf(summaries))
  {
    if summaries != [] {
      RowsDistinct(summaries[..|summaries| - 1]);
    }
  }

  /** The quantities a row adds up. */
  datatype Measure = Area | Spend | Deficit | Condition

  function OfRow(m: Measure, picks: string -> bool): ClassRow -> real {
    (row: ClassRow) =>
      if !picks(row.classification) then 0.0
      else match m
           case Area => row.area case Spend => row.spend case Deficit => row.deficit case Condition => row.weighted
  }

  function OfSummary(m: Measure, picks: string -> bool): CohortSummary -> real {
    (s: CohortSummary) =>
      if !picks(s.classification) then 0.0
      else match m case Area => s.area case Spend => s.totalSpend case Deficit => s.totalDeficit
           case Condition => Part(s.area, s.endPCI)
  }

  lemma {:induction false} TallyUpdate<T>(rows: seq<T>, i: nat, row: T, quantity: T -> real)
    requires i < |rows|
    ensures Tally(rows[i := row], quantity) == Tally(rows, quantity) - quantity(rows[i]) + quantity(row)
  {
    var n := |rows| - 1;
    if i < n {
      assert rows[i := row][..n] == rows[..n][i := row];
      TallyUpdate(rows[..n], i, row, quantity);
    } else {
      assert rows[i := row][..n] == rows[..n];
    }
  }

  lemma AddMeasures(row: ClassRow, s: CohortSummary, m: Measure, picks: string -> bool)
    requires row.classification == s.classification
    ensures OfRow(m, picks)(AddTo(row, s)) == OfRow(m, picks)(row) + OfSummary(m, picks)(s)
    ensures OfRow(m, picks)(NewRow(s)) == 0.0
  {
    hide Part;
  }

  /** One summary adds its own quantity to the rows. */
  lemma OneMeasures(rows: seq<ClassRow>, s: CohortSummary, m: Measure, picks: string -> bool)
    ensures Tally(AddSummary(rows, s), OfRow(m, picks)) == Tally(rows, OfRow(m, picks)) + OfSummary(m, picks)(s)
  {
    hide AddTo, NewRow, OfRow, OfSummary;
    var i := RowIndex(rows, s.classification);
    if i < |rows| {
      AddMeasures(rows[i], s, m, picks);
      TallyUpdate(rows, i, AddTo(rows[i], s), OfRow(m, picks));
    } else {
      AddToKeepsClass(s);
      AddMeasures(NewRow(s), s, m, picks);
      assert (rows + [AddTo(NewRow(s), s)])[..|rows|] == rows;
    }
  }

  lemma {:induction false} RowsKeep(summaries: seq<CohortSummary>, m: Measure, picks: string -> bool)
    ensures Tally(RowsOf(summaries), OfRow(m, picks)) == Tally(summaries, OfSummary(m, picks))
  {
    hide AddSummary, OfRow, OfSummary;
    if summaries != [] {
      var front, s := summaries[..|summaries| - 1], summaries[|summaries| - 1];
      RowsKeep(front, m, picks);
      OneMeasures(RowsOf(front), s, m, picks);
    }
  }

  ghost predicate NoNegativeArea(summaries: seq<CohortSummary>) {
    forall i :: 0 <= i < |summaries| ==> summaries[i].area >= 0.0
  }

  ghost predicate SoundRow(row: ClassRow) {
    row.area >= 0.0 && (row.area == 0.0 ==> row.weighted == 0.0)
  }

  ghost predicate SoundRows(rows: seq<ClassRow>) {
    forall i :: 0 <= i < |rows| ==> SoundRow(rows[i])
  }

  lemma AddKeepsSound(row: ClassRow, s: CohortSummary)
    requires s.area >= 0.0
    ensures SoundRow(NewRow(s)) && (SoundRow(row) ==> SoundRow(AddTo(row, s)))
  {
    assert s.area == 0.0 ==> Part(s.area, s.endPCI) == 0.0;
  }

  lemma {:induction false} EmptyRowsWeighNothing(summaries: seq<CohortSummary>)
    requires NoNegativeArea(summaries)
    ensures SoundRows(RowsOf(summaries))
  {
    hide SoundRow, AddTo, NewRow;
    if summaries != [] {
      var front, s := summaries[..|summaries| - 1], summaries[|summaries| - 1];
      EmptyRowsWeighNothing(front);
      var rows := RowsOf(front);
      var i := RowIndex(rows, s.classification);
      AddKeepsSound(if i < |rows| then rows[i] else NewRow(s), s);
      var all := RowsOf(summaries);
      assert all == AddSummary(rows, s);
      forall j | 0 <= j < |all|
        ensures SoundRow(all[j])
      {
        assert j != i ==> all[j] == rows[j];
      }
    }
  }

  lemma {:induction false} FinishKeeps(rows: seq<ClassRow>, m: Measure, picks: string -> bool)
    requires m == Condition ==> SoundRows(rows)
    ensures Tally(FinishRows(rows), OfSummary(m, picks)) == Tally(rows, OfRow(m, picks))
  {
    if rows != [] {
      var n := |rows| - 1;
      FinishKeeps(rows[..n], m, picks);
      assert FinishRows(rows)[..n] == FinishRows(rows[..n]);
      if m == Condition {
        FinishOne(rows[n]);
      }
    }
  }

  lemma FinishOne(row: ClassRow)
    requires SoundRow(row)
    ensures Part(row.area, FinishRow(row).endPCI) == row.weighted
  {
  }

  /** Collapsing keeps every class's area, spend, deficit and area-weighted condition, in one row per
      class. */
  lemma CollapseKeeps(summaries: seq<CohortSummary>, m: Measure, picks: string -> bool)
    requires m == Condition ==> NoNegativeArea(summaries)
    ensures var out := FinishRows(RowsOf(summaries));
            && Tally(out, OfSummary(m, picks)) == Tally(summaries, OfSummary(m, picks))
            && forall i, j :: 0 <= i < j < |out| ==> out[i].classification != out[j].classification
  {
    hide FinishRow;
    if m == Condition {
      EmptyRowsWeighNothing(summaries);
    }
    RowsKeep(summaries, m, picks);
    FinishKeeps(RowsOf(summaries), m, picks);
    RowsDistinct(summaries);
    FinishKeepsClass();
  }

  lemma FinishKeepsClass()
    ensures forall row :: FinishRow(row).classification == row.classification
  {
  }

  /** A slice already unique by class is returned as it is, except that a class without area gets
      condition 0: so collapsing twice is collapsing once. */
  lemma UniqueIsKept(summaries: seq<CohortSummary>)
    requires NoNegativeArea(summaries)
    requires forall i, j :: 0 <= i < j < |summaries| ==> summaries[i].classification != summaries[j].classification
    ensures var out := FinishRows(RowsOf(summaries));
            && |out| == |summaries|
            && forall i :: 0 <= i < |out| ==>
                 out[i] == summaries[i].(endPCI := if summaries[i].area > 0.0 then summaries[i].endPCI else 0.0)
  {
    hide AddTo, NewRow, FinishRow;
    UniqueRows(summaries, |summaries|);
    assert summaries[..|summaries|] == summaries;
    forall i | 0 <= i < |summaries|
      ensures FinishRow(AddTo(NewRow(summaries[i]), summaries[i])) ==
              summaries[i].(endPCI := if summaries[i].area > 0.0 then summaries[i].endPCI else 0.0)
    {
      LoneRow(summaries[i]);
    }
  }

  lemma LoneRow(s: CohortSummary)
    ensures FinishRow(AddTo(NewRow(s), s)) == s.(endPCI := if s.area > 0.0 then s.endPCI else 0.0)
  {
    if s.area > 0.0 {
      Cancel(s.endPCI, s.area, Part(s.area, s.endPCI));
    }
  }

  lemma {:induction false} UniqueRows(summaries: seq<CohortSummary>, n: nat)
    requires n <= |summaries|
    requires forall i, j :: 0 <= i < j < |summaries| ==> summaries[i].classification != summaries[j].classification
    ensures var rows := RowsOf(summaries[..n]);
            |rows| == n && forall i :: 0 <= i < n ==> rows[i] == AddTo(NewRow(summaries[i]), summaries[i])
  {
    hide AddTo, NewRow;
    if n > 0 {
      UniqueRows(summaries, n - 1);
      assert summaries[..n][..n - 1] == summaries[..n - 1];
      forall i | 0 <= i < n
        ensures AddTo(NewRow(summaries[i]), summaries[i]).classification == summaries[i].classification
      {
        AddToKeepsClass(summaries[i]);
      }
    }
  }

  /** The summary at position i is the first of its class. */
  ghost predicate FirstOfClass(summaries: seq<CohortSummary>, i: nat)
    requires i < |summaries|
  {
    forall j :: 0 <= j < i ==> summaries[j].classification != summaries[i].classification
  }

  /** The rows are those of the classes first seen at these positions, in order, with the decay rate there. */
  ghost predicate FirstSeen(summaries: seq<CohortSummary>, names: seq<string>, rates: seq<real>, at: seq<nat>) {
    && |at| == |names| == |rates|
    && (forall j, k :: 0 <= j < k < |at| ==> at[j] < at[k])
    && (forall i: nat :: i < |summaries| && FirstOfClass(summaries, i) ==> i in at)
    && (forall k :: 0 <= k < |at| ==>
          && at[k] < |summaries| && FirstOfClass(summaries, at[k])
          && names[k] == summaries[at[k]].classification && rates[k] == summaries[at[k]].decayRate)
  }

  function Names(rows: seq<ClassRow>): seq<string> {
    seq(|rows|, k requires 0 <= k < |rows| => rows[k].classification)
  }

  function Rates(rows: seq<ClassRow>): seq<real> {
    seq(|rows|, k requires 0 <= k < |rows| => rows[k].decayRate)
  }

  lemma FirstBefore(front: seq<CohortSummary>, s: CohortSummary)
    ensures forall i: nat :: i < |front| ==> (FirstOfClass(front + [s], i) <==> FirstOfClass(front, i))
  {
    var all := front + [s];
    assert forall i :: 0 <= i < |front| ==> all[i] == front[i];
  }

  /** A row of a class already seen changes nothing. */
  lemma SeenAgain(front: seq<CohortSummary>, s: CohortSummary, names: seq<string>, rates: seq<real>, at: seq<nat>)
    requires FirstSeen(front, names, rates, at) && !FirstOfClass(front + [s], |front|)
    ensures FirstSeen(front + [s], names, rates, at)
  {
    FirstBefore(front, s);
    hide FirstOfClass;
    var all := front + [s];
    forall i: nat | i < |all| && FirstOfClass(all, i)
      ensures i in at
    {
      assert i < |front| && FirstOfClass(front, i);
    }
    forall k | 0 <= k < |at|
      ensures at[k] < |all| && FirstOfClass(all, at[k]) && all[at[k]] == front[at[k]]
    {
      assert FirstOfClass(front, at[k]);
    }
  }

  /** The first row of a class goes last. */
  lemma SeenFirst(front: seq<CohortSummary>, s: CohortSummary, names: seq<string>, rates: seq<real>, at: seq<nat>,
                  to: seq<nat>)
    requires FirstSeen(front, names, rates, at) && FirstOfClass(front + [s], |front|) && to == at + [|front|]
    ensures FirstSeen(front + [s], names + [s.classification], rates + [s.decayRate], to)
  {
    FirstBefore(front, s);
    hide FirstOfClass;
    var all := front + [s];
    assert all[|front|] == s && to[|at|] == |front|;
    forall i: nat | i < |all| && FirstOfClass(all, i)
      ensures i in to
    {
      if i < |front| {
        assert FirstOfClass(front, i);
        StillIn(at, to, i);
      }
    }
    forall k | 0 <= k < |at|
      ensures to[k] == at[k] && FirstOfClass(all, at[k]) && all[at[k]] == front[at[k]]
    {
      assert FirstOfClass(front, at[k]);
    }
  }

  lemma StillIn(a: seq<nat>, b: seq<nat>, i: nat)
    requires i in a && |a| <= |b| && b[..|a|] == a
    ensures i in b
  {
    var k :| 0 <= k < |a| && a[k] == i;
    assert b[k] == b[..|a|][k];
  }

  /** A class without a row is one not seen before. */
  lemma NewClassIff(front: seq<CohortSummary>, s: CohortSummary, names: seq<string>, rates: seq<real>, at: seq<nat>)
    requires FirstSeen(front, names, rates, at)
    ensures s.classification !in names <==> FirstOfClass(front + [s], |front|)
  {
    var all, n := front + [s], |front|;
    assert all[n] == s && forall i :: 0 <= i < n ==> all[i] == front[i];
    if s.classification in names {
      var k :| 0 <= k < |names| && names[k] == s.classification;
      assert all[at[k]].classification == s.classification;
    } else if !FirstOfClass(all, n) {
      var j: nat :| j < n && all[j].classification == s.classification;
      var i := EarliestOf(front, j);
    }
  }

  lemma {:induction false} RowsInOrder(summaries: seq<CohortSummary>) returns (at: seq<nat>)
    ensures FirstSeen(summaries, Names(RowsOf(summaries)), Rates(RowsOf(summaries)), at)
  {
    hide FirstSeen, AddSummary;
    if summaries == [] {
      at := [];
      NothingSeen();
    } else {
      var n := |summaries| - 1;
      var before := RowsInOrder(summaries[..n]);
      var rows := RowsOf(summaries[..n]);
      AddedNames(rows, summaries[n]);
      NewClassIff(summaries[..n], summaries[n], Names(rows), Rates(rows), before);
      assert summaries[..n] + [summaries[n]] == summaries;
      if summaries[n].classification !in Names(rows) {
        at := before + [n];
        SeenFirst(summaries[..n], summaries[n], Names(rows), Rates(rows), before, at);
      } else {
        at := before;
        SeenAgain(summaries[..n], summaries[n], Names(rows), Rates(rows), before);
      }
    }
  }

  lemma NothingSeen()
    ensures FirstSeen([], Names([]), Rates([]), [])
  {
  }

  lemma AddedNames(rows: seq<ClassRow>, s: CohortSummary)
    ensures var isNew := s.classification !in Names(rows);
            && Names(AddSummary(rows, s)) == (if isNew then Names(rows) + [s.classification] else Names(rows))
            && Rates(AddSummary(rows, s)) == (if isNew then Rates(rows) + [s.decayRate] else Rates(rows))
  {
    var i := RowIndex(rows, s.classification);
    if i < |rows| {
      assert Names(rows)[i] == s.classification;
    } else {
      assert forall k :: 0 <= k < |rows| ==> Names(rows)[k] != s.classification;
    }
  }

  lemma {:induction false} EarliestOf(front: seq<CohortSummary>, j: nat) returns (i: nat)
    requires j < |front|
    ensures i <= j && front[i].classification == front[j].classification && FirstOfClass(front, i)
    decreases j
  {
    if k: nat :| k < j && front[k].classification == front[j].classification {
      i := EarliestOf(front, k);
    } else {
      i := j;
    }
  }

  function ClassesOf(rows: seq<CohortSummary>): seq<string> {
    seq(|rows|, k requires 0 <= k < |rows| => rows[k].classification)
  }

  function RatesOf(rows: seq<CohortSummary>): seq<real> {
    seq(|rows|, k requires 0 <= k < |rows| => rows[k].decayRate)
  }

  /** The collapsed rows come in first-seen order, each with the decay rate of its class's first row. */
  lemma CollapsedInOrder(summaries: seq<CohortSummary>) returns (at: seq<nat>)
    ensures var out := FinishRows(RowsOf(summaries)); FirstSeen(summaries, ClassesOf(out), RatesOf(out), at)
  {
    hide RowsOf, FirstSeen;
    at := RowsInOrder(summaries);
    var rows := RowsOf(summaries);
    assert ClassesOf(FinishRows(rows)) == Names(rows) && RatesOf(FinishRows(rows)) == Rates(rows);
  }

  // -------------------------------------------------------------- end to end

  lemma {:induction false} TallyIsSum<T>(rows: seq<T>, quantity: T -> real, column: seq<real>, n: nat)
    requires n <= |rows| && n <= |column| && forall j :: 0 <= j < n ==> column[j] == quantity(rows[j])
    ensures Tally(rows[..n], quantity) == SumUpTo(column, n)
  {
    if n > 0 {
      TallyIsSum(rows, quantity, column, n - 1);
      assert rows[..n][..n - 1] == rows[..n - 1];
    }
  }

  /** Over a whole run, the displayed rows, collapsed by class, account for every dollar spent in
      every year and for the whole deferred backlog. */
  lemma CollapsedRunConserves(m: Model, s: Scenario, years: nat)
    requires SoundModel(m)
    ensures var shown := FinishRows(RowsOf(Result(m, s, years).finalCohorts));
            && Tally(shown, OfSummary(Spend, _ => true)) == SpendOverYears(m, s, years)
            && Tally(shown, OfSummary(Deficit, _ => true)) == Backlog(m, s, years)
  {
    hide RowsOf, FinishRows, FinalArea, OfRow, YearRow, Tally, SpendOverYears, Backlog;
    var rows, st := Result(m, s, years).finalCohorts, After(m, s, years);
    CollapseKeeps(rows, Spend, _ => true);
    CollapseKeeps(rows, Deficit, _ => true);
    TallyIsSum(rows, OfSummary(Spend, _ => true), st.spent, |rows|);
    TallyIsSum(rows, OfSummary(Deficit, _ => true), st.deficit, |rows|);
    assert rows[..|rows|] == rows;
    Conservation(m, s, years);
  }
}
