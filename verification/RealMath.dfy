/** Small facts about exact reals shared by the forecast and game models. */
module RealMath {

  function Min(a: real, b: real): real {
    if a <= b then a else b
  }

  function Max(a: real, b: real): real {
    if a >= b then a else b
  }

  /** The sum of the first n elements of s. */
  function SumUpTo(s: seq<real>, n: nat): real
    requires n <= |s|
  {
    if n == 0 then 0.0 else SumUpTo(s, n - 1) + s[n - 1]
  }

  function Sum(s: seq<real>): real {
    SumUpTo(s, |s|)
  }

  lemma {:induction false} SumMonotone(s: seq<real>, t: seq<real>, n: nat)
    requires n <= |s| && n <= |t|
    requires forall j :: 0 <= j < n ==> s[j] <= t[j]
    ensures SumUpTo(s, n) <= SumUpTo(t, n)
  {
    if n > 0 {
      SumMonotone(s, t, n - 1);
    }
  }

  /** A fraction (or multiple) of an amount: a product that proofs can hide. */
  function Part(amount: real, fraction: real): real {
    amount * fraction
  }

  lemma PartOfSum(a: real, b: real, f: real)
    ensures Part(a + b, f) == Part(a, f) + Part(b, f)
    ensures Part(a - b, f) == Part(a, f) - Part(b, f)
    ensures Part(0.0, f) == 0.0
  {
  }

  lemma {:induction false} SumScale(s: seq<real>, t: seq<real>, f: real, n: nat)
    requires n <= |s| && n <= |t|
    requires forall j :: 0 <= j < n ==> s[j] == Part(t[j], f)
    ensures SumUpTo(s, n) == Part(SumUpTo(t, n), f)
  {
    hide Part;
    if n == 0 {
      PartOfSum(0.0, 0.0, f);
    } else {
      SumScale(s, t, f, n - 1);
      PartOfSum(SumUpTo(t, n - 1), t[n - 1], f);
    }
  }

  lemma SumOfZeros(s: seq<real>, n: nat)
    requires n <= |s| && forall j :: 0 <= j < n ==> s[j] == 0.0
    ensures SumUpTo(s, n) == 0.0
  {
  }

  lemma {:induction false} SumAdd(s: seq<real>, t: seq<real>, u: seq<real>, n: nat)
    requires n <= |s| && n <= |t| && n <= |u|
    requires forall j :: 0 <= j < n ==> u[j] == s[j] + t[j]
    ensures SumUpTo(u, n) == SumUpTo(s, n) + SumUpTo(t, n)
  {
    if n > 0 {
      SumAdd(s, t, u, n - 1);
    }
  }

  lemma {:induction false} SumOfNonNegatives(s: seq<real>, n: nat)
    requires n <= |s|
    requires forall j :: 0 <= j < n ==> s[j] >= 0.0
    ensures SumUpTo(s, n) >= 0.0
    ensures SumUpTo(s, n) == 0.0 ==> forall j :: 0 <= j < n ==> s[j] == 0.0
    ensures forall j :: 0 <= j < n ==> s[j] <= SumUpTo(s, n)
  {
    if n > 0 {
      SumOfNonNegatives(s, n - 1);
    }
  }

  lemma {:induction false} SumPrefix(s: seq<real>, t: seq<real>, n: nat)
    requires n <= |s| && n <= |t|
    requires forall j :: 0 <= j < n ==> s[j] == t[j]
    ensures SumUpTo(s, n) == SumUpTo(t, n)
  {
    if n > 0 {
      SumPrefix(s, t, n - 1);
    }
  }

  // Product facts. Each names its products in the precondition and concludes something linear.

  lemma MulMonotone(a: real, b: real, c: real, ac: real, bc: real)
    requires a <= b && c >= 0.0 && ac == a * c && bc == b * c
    ensures ac <= bc
    ensures c > 0.0 && a < b ==> ac < bc
  {
  }

  /** A share s in [0, 1] of a non-negative amount. */
  lemma UnitShare(d: real, s: real, ds: real)
    requires 0.0 <= d && 0.0 <= s <= 1.0 && ds == d * s
    ensures 0.0 <= ds <= d
  {
  }

  lemma MulOrder(a: real, b: real, c: real, d: real, ac: real, bd: real)
    requires 0.0 <= a <= b && 0.0 <= c <= d && ac == a * c && bd == b * d
    ensures 0.0 <= ac <= bd
  {
    MulMonotone(a, b, c, ac, b * c);
    MulMonotone(c, d, b, c * b, bd);
  }

  lemma MulNonNegative(a: real, b: real, ab: real)
    requires 0.0 <= a && 0.0 <= b && ab == a * b
    ensures 0.0 <= ab && (ab == 0.0 <==> a == 0.0 || b == 0.0)
  {
  }

  lemma Cancel(r: real, d: real, rd: real)
    requires d != 0.0 && rd == r * d
    ensures rd / d == r
  {
  }

  lemma DivMonotone(a: real, b: real, c: real)
    requires a <= b && c > 0.0
    ensures a / c <= b / c
  {
  }

  /** A larger numerator over a smaller positive denominator is a larger ratio. */
  lemma RatioMonotone(a: real, b: real, c: real, d: real)
    requires 0.0 <= a <= c && b >= d > 0.0
    ensures a / b <= c / d
  {
    DivMonotone(a, c, b);
    var x, y := c / b, c / d;
    if x > y {
      MulMonotone(d, b, y, d * y, b * y);
      MulMonotone(y, x, b, y * b, x * b);
    }
  }
}
