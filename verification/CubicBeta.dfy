/** The exact Beta(3, 1), the spread's distribution at a mean PCI of 75: its distribution function is
    x^3 and its first moment's x^4, and its bands stay on the scale under the code's own bisection. */
module CubicBeta {
  import opened RealMath
  import opened Scenario
  import opened ConditionSpread
  import opened SpreadScale

  function Cube(x: real): real {
    x * x * x
  }

  function Fourth(x: real): real {
    x * x * x * x
  }

  /** The interior of the incomplete beta function, where the spread of a mean of 75 asks for it. */
  ghost predicate IsCubic(interior: BetaFn) {
    (forall x: real :: interior(x, 3.0, 1.0) == Cube(x)) && (forall x: real :: interior(x, 4.0, 1.0) == Fourth(x))
  }

  lemma PowersRise(x: real, y: real)
    requires 0.0 <= x <= y
    ensures 0.0 <= Cube(x) <= Cube(y) && 0.0 <= Fourth(x) <= Fourth(y)
  {
    MulOrder(x, y, x, y, x * x, y * y);
    MulOrder(x * x, y * y, x, y, Cube(x), Cube(y));
    MulOrder(Cube(x), Cube(y), x, y, Fourth(x), Fourth(y));
  }

  lemma Parameters(c: Cohort)
    requires c.initialPCI == 75.0
    ensures Alpha(c) == 3.0 && Beta(c) == 1.0 && Mean(c) == 0.75 && !Degenerate(c)
  {
  }

  /** Within [0, 1] both functions are the powers, ends included. */
  lemma CubicFunctions(interior: BetaFn, c: Cohort, x: real)
    requires IsCubic(interior) && c.initialPCI == 75.0 && 0.0 <= x <= 1.0
    ensures Cdf(interior, c, x) == Cube(x) && MomentCdf(interior, c, x) == Fourth(x)
  {
    Parameters(c);
  }

  lemma CubicRises(interior: BetaFn, c: Cohort)
    requires IsCubic(interior) && c.initialPCI == 75.0
    ensures Rising(interior, Alpha(c), Beta(c)) && Rising(interior, Alpha(c) + 1.0, Beta(c))
  {
    hide Cube, Fourth;
    Parameters(c);
    forall x: real, y: real | x <= y
      ensures RegIncBeta(interior, x, 3.0, 1.0) <= RegIncBeta(interior, y, 3.0, 1.0)
      ensures RegIncBeta(interior, x, 4.0, 1.0) <= RegIncBeta(interior, y, 4.0, 1.0)
    {
      var u, v := Min(1.0, Max(0.0, x)), Min(1.0, Max(0.0, y));
      PowersRise(u, v);
      PowersAtEnds();
    }
  }

  lemma PowersAtEnds()
    ensures Cube(0.0) == Fourth(0.0) == 0.0 && Cube(1.0) == Fourth(1.0) == 1.0
  {
  }

  /** 3/4 (y^4 - x^4) <= y (y^3 - x^3): the gap is a quarter of (y - x)^2 (y^2 + 2 x y + 3 x^2). */
  lemma PowerMoment(x: real, y: real)
    requires 0.0 <= x <= y
    ensures 0.75 * (Fourth(y) - Fourth(x)) <= y * (Cube(y) - Cube(x))
  {
    var square, sum := (y - x) * (y - x), y * y + 2.0 * (x * y) + 3.0 * (x * x);
    MulNonNegative(y - x, y - x, square);
    MulNonNegative(x, y, x * y);
    MulNonNegative(x, x, x * x);
    MulNonNegative(y, y, y * y);
    MulNonNegative(square, sum, square * sum);
    assert square * sum == Fourth(y) - 4.0 * (Cube(x) * y) + 3.0 * Fourth(x) by {
      Expanded(x, y);
    }
    assert y * Cube(y) == Fourth(y);
  }

  lemma Expanded(x: real, y: real)
    ensures ((y - x) * (y - x)) * (y * y + 2.0 * (x * y) + 3.0 * (x * x)) ==
            Fourth(y) - 4.0 * (Cube(x) * y) + 3.0 * Fourth(x)
  {
    var p, q, r := y * y, x * y, x * x;
    assert (y - x) * (y - x) == p - 2.0 * q + r;
    assert p * r == q * q;
    assert (p - 2.0 * q + r) * (p + 2.0 * q + 3.0 * r) ==
           p * p + 4.0 * (p * r) - 4.0 * (q * q) - 4.0 * (q * r) + 3.0 * (r * r);
    assert p * p == Fourth(y) && r * r == Fourth(x) && q * r == Cube(x) * y;
  }

  lemma CubicMomentBound(interior: BetaFn, c: Cohort)
    requires IsCubic(interior) && c.initialPCI == 75.0
    ensures MomentBound(interior, c)
  {
    hide Cdf, MomentCdf, Cube, Fourth, IsCubic;
    Parameters(c);
    forall x: real, y: real | 0.0 <= x <= y <= 1.0
      ensures Part(Mean(c), MomentCdf(interior, c, y) - MomentCdf(interior, c, x)) <=
              Part(y, Cdf(interior, c, y) - Cdf(interior, c, x))
    {
      CubicFunctions(interior, c, x);
      CubicFunctions(interior, c, y);
      PowerMoment(x, y);
    }
  }

  // ------------------------------------------------------------- resolution

  lemma {:induction false} WidthSum(a: nat, b: nat)
    ensures Width(a + b) == Width(a) * Width(b)
  {
    if b > 0 {
      WidthSum(a, b - 1);
    }
  }

  /** The bisection's last width is less than a millionth. */
  lemma WidthIsSmall()
    ensures 0.0 < Width(Halvings) <= 0.000001
  {
    assert Width(1) == 0.5;
    WidthSum(1, 1);
    WidthSum(2, 2);
    WidthSum(4, 1);
    WidthSum(5, 5);
    WidthSum(10, 10);
    assert Width(20) <= 0.000001;
    WidthFalls(20, Halvings);
  }

  /** Over a short step a cube in [0, 1] rises at most three times as much. */
  lemma CubeIsSlow(x: real, y: real, w: real)
    requires 0.0 <= x <= y <= 1.0 && y - x <= w
    ensures Cube(y) - Cube(x) <= 3.0 * w
  {
    var sum := y * y + x * y + x * x;
    MulOrder(x, y, x, y, x * x, y * y);
    MulOrder(y, 1.0, y, 1.0, y * y, 1.0);
    MulOrder(x, y, y, y, x * y, y * y);
    assert Cube(y) - Cube(x) == (y - x) * sum;
    MulOrder(y - x, w, sum, 3.0, (y - x) * sum, w * 3.0);
  }

  lemma CubicIsSlow(interior: BetaFn, c: Cohort)
    requires IsCubic(interior) && c.initialPCI == 75.0
    ensures Slow(interior, c, 3.0 * Width(Halvings))
  {
    hide Cdf, Cube, Fourth, IsCubic, Bracket;
    LevelOrder(8, 8);
    BracketStraddles(interior, Level(8, 9), Alpha(c), Beta(c), Halvings);
    forall x: real, y: real | 0.0 <= x <= y <= Top(interior, c) && y - x <= Width(Halvings)
      ensures Cdf(interior, c, y) - Cdf(interior, c, x) <= 3.0 * Width(Halvings)
    {
      CubicFunctions(interior, c, x);
      CubicFunctions(interior, c, y);
      CubeIsSlow(x, y, Width(Halvings));
    }
  }

  /** The last bound lies where a cube is 8/9. */
  lemma LastBound(interior: BetaFn, c: Cohort)
    requires IsCubic(interior) && c.initialPCI == 75.0
    ensures 0.961 <= Bound(interior, c, 8) <= 0.963
  {
    hide Cube, Fourth, IsCubic, Bracket, Cdf, RegIncBeta;
    Parameters(c);
    LevelOrder(8, 8);
    WidthIsSmall();
    var it := Bracket(interior, Level(8, 9), Alpha(c), Beta(c), Halvings);
    BracketStraddles(interior, Level(8, 9), Alpha(c), Beta(c), Halvings);
    AtEnds(interior, c, it.lo);
    AtEnds(interior, c, it.hi);
    Cubes();
    EightNinths();
    if it.lo > 0.9626 {
      PowersRise(0.9626, it.lo);
    }
    if it.hi < 0.9611 {
      PowersRise(it.hi, 0.9611);
    }
  }

  lemma AtEnds(interior: BetaFn, c: Cohort, x: real)
    requires IsCubic(interior) && c.initialPCI == 75.0 && 0.0 <= x <= 1.0
    ensures RegIncBeta(interior, x, Alpha(c), Beta(c)) == Cube(x)
  {
    CubicFunctions(interior, c, x);
  }

  lemma EightNinths()
    ensures Level(8, 9) == 8.0 / 9.0
  {
  }

  lemma Cubes()
    ensures Cube(0.9611) < 8.0 / 9.0 < Cube(0.9626) && Fourth(0.961) >= 0.852
  {
  }

  lemma LastShare(interior: BetaFn, c: Cohort)
    requires IsCubic(interior) && c.initialPCI == 75.0
    ensures BandShare(interior, c, 8) <= 1.0 / 9.0
  {
    hide Cube, Fourth, IsCubic, Bound, Cdf, MomentCdf;
    Parameters(c);
    LastBound(interior, c);
    LastMoment(interior, c);
    var x := Bound(interior, c, 8);
    CubicFunctions(interior, c, x);
    PowersRise(0.961, x);
    Cubes();
    MulMonotone(1.0 - Fourth(x), 0.148, 0.75, (1.0 - Fourth(x)) * 0.75, 0.148 * 0.75);
  }

  lemma RoomAtLast(x: real, w: real)
    requires 0.0 <= x <= 0.963 && 0.0 < w <= 0.000001
    ensures x * (1.0 + 18.0 * (3.0 * w)) <= 1.0
  {
    var most := 1.0 + 18.0 * (3.0 * w);
    MulMonotone(x, 0.963, most, x * most, 0.963 * most);
  }

  /** At a mean of 75 every band of the code's spread is on the scale. */
  lemma ThreeQuartersFits(interior: BetaFn, c: Cohort)
    requires IsCubic(interior) && c.initialPCI == 75.0
    ensures RisingMoment(interior, c) && SharesFit(interior, c)
  {
    hide IsCubic, MomentBound, Slow, Rising, Bound, BandShare, SharesFit, Width;
    CubicRises(interior, c);
    CubicMomentBound(interior, c);
    CubicIsSlow(interior, c);
    LastBound(interior, c);
    LastShare(interior, c);
    WidthIsSmall();
    RoomAtLast(Bound(interior, c, 8), Width(Halvings));
    BetaFits(interior, c, 3.0 * Width(Halvings));
  }
}
