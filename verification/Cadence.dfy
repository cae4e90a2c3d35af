/** The cadence regularity score over exact reals: one minus the coefficient of variation of the intervals, not below
    zero. */
module Cadence {
  /** The gaps between neighbouring event times. */
  function Intervals(times: seq<int>): (xs: seq<real>)
    ensures |xs| == if times == [] then 0 else |times| - 1
  {
    if |times| < 2 then [] else [(times[1] - times[0]) as real] + Intervals(times[1..])
  }

  function Sum(xs: seq<real>): real {
    if xs == [] then 0.0 else xs[0] + Sum(xs[1..])
  }

  function Times(x: real, y: real): real {
    x * y
  }

  function Squared(x: real): real {
    Times(x, x)
  }

  /** The sum of squared distances from `m`. */
  function Spread(xs: seq<real>, m: real): real {
    if xs == [] then 0.0 else Squared(xs[0] - m) + Spread(xs[1..], m)
  }

  function Mean(xs: seq<real>): real
    requires xs != []
  {
    Sum(xs) / |xs| as real
  }

  function Variance(xs: seq<real>): real
    requires xs != []
  {
    Spread(xs, Mean(xs)) / |xs| as real
  }

  /** `stddev` is the non-negative square root of the variance. */
  predicate IsDeviation(times: seq<int>, stddev: real) {
    |times| >= 2 ==> stddev >= 0.0 && Squared(stddev) == Variance(Intervals(times))
  }

  function Score(stddev: real, mean: real): real {
    if mean == 0.0 then 0.0
    else
      var score := 1.0 - stddev / mean;
      if score > 0.0 then score else 0.0
  }

  /** `regularity`. */
  function Regularity(times: seq<int>, stddev: real): real
    requires IsDeviation(times, stddev)
  {
    if |times| < 2 then 0.0 else Score(stddev, Mean(Intervals(times)))
  }

  predicate Sorted(times: seq<int>) {
    forall i, j :: 0 <= i < j < |times| ==> times[i] <= times[j]
  }

  // ----- arithmetic -----

  lemma Products(a: real, b: real)
    ensures a > 0.0 && b > 0.0 ==> a * b > 0.0
    ensures a >= 0.0 && b >= 0.0 ==> a * b >= 0.0
    ensures a < 0.0 && b > 0.0 ==> a * b < 0.0
    ensures a < 0.0 && b < 0.0 ==> a * b > 0.0
    ensures a == 0.0 || b == 0.0 ==> a * b == 0.0
  {
  }

  lemma SquareLess(a: real, b: real)
    requires a >= 0.0 && b >= 0.0
    ensures a < b <==> Squared(a) < Squared(b)
  {
    var d, t := b - a, b + a;
    assert d * t == b * b - a * a;
    Products(d, t);
    if t == 0.0 {
      assert a == 0.0 && b == 0.0;
    }
  }

  lemma SquareRootUnique(a: real, b: real)
    requires a >= 0.0 && b >= 0.0 && Squared(a) == Squared(b)
    ensures a == b
  {
    SquareLess(a, b);
    SquareLess(b, a);
  }

  lemma DivideCancel(a: real, b: real)
    requires b != 0.0
    ensures (a / b) * b == a
  {
  }

  lemma Quotient(a: real, b: real, q: real)
    requires b != 0.0 && q * b == a
    ensures a / b == q
  {
    DivideCancel(a, b);
    var d := a / b - q;
    assert d * b == 0.0;
    Products(d, b);
    Products(d, -b);
    assert d * -b == -(d * b);
  }

  lemma QuotientSign(a: real, b: real)
    requires b > 0.0
    ensures a / b < 1.0 <==> a < b
    ensures a / b == 0.0 <==> a == 0.0
    ensures a >= 0.0 ==> a / b >= 0.0
  {
    DivideCancel(a, b);
    var q := a / b;
    Products(1.0 - q, b);
    assert (1.0 - q) * b == b - a;
    Products(q, b);
  }

  /** The score of non-negative moments. */
  lemma ScoreIs(stddev: real, mean: real)
    requires stddev >= 0.0 && mean >= 0.0
    ensures 0.0 <= Score(stddev, mean) <= 1.0
    ensures Score(stddev, mean) == 1.0 <==> mean > 0.0 && stddev == 0.0
    ensures Score(stddev, mean) > 0.0 <==> mean > 0.0 && stddev < mean
  {
    if mean > 0.0 {
      QuotientSign(stddev, mean);
    }
  }

  lemma ScoreScaled(stddev: real, mean: real, k: real)
    requires k > 0.0
    ensures Score(Times(k, stddev), Times(k, mean)) == Score(stddev, mean)
  {
    Products(k, mean);
    Products(k, -mean);
    assert k * -mean == -(k * mean);
    if mean != 0.0 {
      var q := stddev / mean;
      DivideCancel(stddev, mean);
      assert q * (k * mean) == k * (q * mean);
      Quotient(k * stddev, k * mean, q);
    }
  }

  // ----- sums -----

  lemma TimesSign(a: real, b: real)
    ensures (a < 0.0 && b < 0.0) || (a > 0.0 && b > 0.0) ==> Times(a, b) > 0.0
    ensures a == 0.0 || b == 0.0 ==> Times(a, b) == 0.0
  {
    Products(a, b);
  }

  lemma SquareSign(a: real)
    ensures Squared(a) >= 0.0
    ensures Squared(a) == 0.0 <==> a == 0.0
  {
    hide Times;
    TimesSign(a, a);
  }

  lemma {:induction false} SpreadNonNegative(xs: seq<real>, m: real)
    ensures Spread(xs, m) >= 0.0
    ensures Spread(xs, m) == 0.0 <==> forall i :: 0 <= i < |xs| ==> xs[i] == m
  {
    if xs == [] {
      return;
    }
    SpreadNonNegative(xs[1..], m);
    SquareSign(xs[0] - m);
    assert Spread(xs, m) == Squared(xs[0] - m) + Spread(xs[1..], m);
    hide *;
    assert forall i :: 0 <= i < |xs[1..]| ==> xs[1..][i] == xs[i + 1];
    if Spread(xs, m) == 0.0 {
      forall i | 0 <= i < |xs|
        ensures xs[i] == m
      {
        if i > 0 {
          assert xs[i] == xs[1..][i - 1];
        }
      }
    }
  }

  lemma {:induction false} SumEqual(xs: seq<real>, m: real)
    requires forall i :: 0 <= i < |xs| ==> xs[i] == m
    ensures Sum(xs) == |xs| as real * m
  {
    if xs != [] {
      SumEqual(xs[1..], m);
      assert |xs| as real * m == m + (|xs| - 1) as real * m;
    }
  }

  lemma SquareExpanded(x: real, m: real, mm: real)
    requires mm == Squared(m)
    ensures Squared(x - m) == Squared(x) - Times(2.0 * m, x) + mm
  {
  }

  lemma Distribute(a: real, x: real, y: real)
    ensures Times(a, x + y) == Times(a, x) + Times(a, y)
    ensures Times(x + y, a) == Times(x, a) + Times(y, a)
    ensures Times(1.0, a) == a && Times(a, 1.0) == a && Times(a, 0.0) == 0.0 && Times(0.0, a) == 0.0
  {
  }

  /** The sum of squared deviations, expanded. */
  lemma {:induction false} SpreadExpanded(xs: seq<real>, m: real, mm: real)
    requires mm == Squared(m)
    ensures Spread(xs, m) == Spread(xs, 0.0) - Times(2.0 * m, Sum(xs)) + Times(|xs| as real, mm)
  {
    if xs == [] {
      return;
    }
    SpreadExpanded(xs[1..], m, mm);
    SquareExpanded(xs[0], m, mm);
    hide Squared, Times;
    var n := |xs[1..]| as real;
    Distribute(mm, n, 1.0);
    Distribute(2.0 * m, xs[0], Sum(xs[1..]));
    assert xs[0] - 0.0 == xs[0] && |xs| as real == n + 1.0;
  }

  lemma {:induction false} IntervalsSorted(times: seq<int>)
    requires Sorted(times)
    ensures forall i :: 0 <= i < |Intervals(times)| ==> Intervals(times)[i] >= 0.0
    ensures Sum(Intervals(times)) >= 0.0
  {
    if |times| >= 2 {
      IntervalsSorted(times[1..]);
    }
  }

  lemma MeanTimes(xs: seq<real>)
    requires xs != []
    ensures Times(Mean(xs), |xs| as real) == Sum(xs)
  {
    hide Sum;
    DivideCancel(Sum(xs), |xs| as real);
  }

  lemma MeanSign(xs: seq<real>)
    requires xs != []
    ensures Sum(xs) >= 0.0 ==> Mean(xs) >= 0.0
    ensures Mean(xs) == 0.0 <==> Sum(xs) == 0.0
  {
    hide Sum;
    QuotientSign(Sum(xs), |xs| as real);
  }

  lemma VarianceTimes(xs: seq<real>)
    requires xs != []
    ensures Times(Variance(xs), |xs| as real) == Spread(xs, Mean(xs))
  {
    hide Mean, Spread;
    DivideCancel(Spread(xs, Mean(xs)), |xs| as real);
  }

  lemma VarianceSign(xs: seq<real>)
    requires xs != []
    ensures Variance(xs) == 0.0 <==> forall i :: 0 <= i < |xs| ==> xs[i] == Mean(xs)
  {
    SpreadNonNegative(xs, Mean(xs));
    hide Mean, Spread;
    QuotientSign(Spread(xs, Mean(xs)), |xs| as real);
  }

  /** Equal intervals are their own mean. */
  lemma MeanOfEqual(xs: seq<real>, m: real)
    requires xs != [] && forall i :: 0 <= i < |xs| ==> xs[i] == m
    ensures Mean(xs) == m
  {
    SumEqual(xs, m);
    hide Sum;
    var n := |xs| as real;
    assert m * n == n * m;
    Quotient(Sum(xs), n, m);
  }

  // ----- the score -----

  /** For times in order the score lies between zero and one. */
  lemma InUnit(times: seq<int>, stddev: real)
    requires Sorted(times) && IsDeviation(times, stddev)
    ensures 0.0 <= Regularity(times, stddev) <= 1.0
  {
    if |times| >= 2 {
      IntervalsSorted(times);
      MeanSign(Intervals(times));
      hide Mean, Variance, Score, Intervals, Sum, Squared;
      ScoreIs(stddev, Mean(Intervals(times)));
    }
  }

  ghost predicate EvenlySpaced(times: seq<int>) {
    var xs := Intervals(times);
    xs != [] && xs[0] > 0.0 && forall i :: 0 <= i < |xs| ==> xs[i] == xs[0]
  }

  /** A perfect score means at least two events, evenly spaced and not simultaneous; and such events score it. */
  lemma PerfectIff(times: seq<int>, stddev: real)
    requires Sorted(times) && IsDeviation(times, stddev)
    ensures Regularity(times, stddev) == 1.0 <==> EvenlySpaced(times)
  {
    if |times| < 2 {
      return;
    }
    var xs := Intervals(times);
    IntervalsSorted(times);
    MeanSign(xs);
    VarianceSign(xs);
    SquareSign(stddev);
    ScoreIs(stddev, Mean(xs));
    hide Mean, Variance, Score, Intervals, Sum, Squared;
    if EvenlySpaced(times) {
      MeanOfEqual(xs, xs[0]);
    }
  }

  /** n * Q < 2 * S * S, where S and Q are the sums of the intervals and of their squares. */
  predicate LowSpread(xs: seq<real>) {
    Times(|xs| as real, Spread(xs, 0.0)) < 2.0 * Squared(Sum(xs))
  }

  /** The variance condition without square roots or quotients. */
  lemma LowVariance(xs: seq<real>)
    requires xs != []
    ensures Variance(xs) < Squared(Mean(xs)) <==> LowSpread(xs)
  {
    MeanTimes(xs);
    VarianceTimes(xs);
    SpreadExpanded(xs, Mean(xs), Squared(Mean(xs)));
    hide *;
    ScaledVariance(|xs| as real, Sum(xs), Spread(xs, 0.0), Mean(xs), Squared(Mean(xs)), Variance(xs));
    LowSpreadIs(xs);
  }

  lemma LowSpreadIs(xs: seq<real>)
    ensures LowSpread(xs) <==> Times(|xs| as real, Spread(xs, 0.0)) < 2.0 * Squared(Sum(xs))
  {
    hide Spread, Sum, Squared, Times;
  }

  lemma ScaledVariance(n: real, s: real, q: real, m: real, mm: real, v: real)
    requires n > 0.0 && Times(m, n) == s && Times(v, n) == q - Times(2.0 * m, s) + Times(n, mm) && mm == Squared(m)
    ensures v < mm <==> Times(n, q) < 2.0 * Squared(s)
  {
    MeanTimesSum(n, s, m, mm);
    Commute(n, mm);
    TimesLess(n, v, mm);
    TimesLess(n, q, 2.0 * Times(n, mm));
    Double(n, Times(n, mm));
    hide *;
  }

  /** Multiplying by a positive number keeps order. */
  lemma TimesLess(n: real, a: real, b: real)
    requires n > 0.0
    ensures a < b <==> Times(a, n) < Times(b, n)
    ensures a < b <==> Times(n, a) < Times(n, b)
  {
    Products(b - a, n);
    assert (b - a) * n == b * n - a * n;
  }

  lemma Commute(a: real, b: real)
    ensures Times(a, b) == Times(b, a)
  {
  }

  lemma Double(a: real, b: real)
    ensures Times(a, 2.0 * b) == 2.0 * Times(a, b) && Times(2.0 * a, b) == 2.0 * Times(a, b)
  {
  }

  lemma MeanTimesSum(n: real, s: real, m: real, mm: real)
    requires Times(m, n) == s && mm == Squared(m)
    ensures Times(2.0 * m, s) == 2.0 * Times(n, mm)
    ensures Squared(s) == Times(n, Times(n, mm))
  {
    Associate(m, m, n);
    Double(m, s);
    assert m * s == n * mm;
    Associate(n, m, s);
    assert s * s == n * (m * s);
  }

  lemma Associate(a: real, b: real, c: real)
    ensures a * (b * c) == (a * b) * c
    ensures (a * b) * c == c * (a * b)
    ensures a * b == b * a
  {
  }

  /** Any regularity at all: at least two events, not all at once, whose intervals vary by less than their mean. */
  lemma PositiveIff(times: seq<int>, stddev: real)
    requires Sorted(times) && IsDeviation(times, stddev)
    ensures Regularity(times, stddev) > 0.0 <==>
              |times| >= 2 && Sum(Intervals(times)) > 0.0 && LowSpread(Intervals(times))
  {
    if |times| < 2 {
      return;
    }
    var xs := Intervals(times);
    IntervalsSorted(times);
    hide Mean, Variance, Score, Intervals, Sum, Spread, Squared, LowSpread;
    MeanSign(xs);
    LowVariance(xs);
    SquareLess(stddev, Mean(xs));
    ScoreIs(stddev, Mean(xs));
  }

  // ----- what the score does not depend on -----

  function Moved(times: seq<int>, scale: int, shift: int): (r: seq<int>)
    ensures |r| == |times|
  {
    if times == [] then [] else [scale * times[0] + shift] + Moved(times[1..], scale, shift)
  }

  function Scaled(xs: seq<real>, k: real): (r: seq<real>)
    ensures |r| == |xs|
  {
    if xs == [] then [] else [Times(k, xs[0])] + Scaled(xs[1..], k)
  }

  lemma {:induction false} ProductAsReal(a: int, b: int)
    ensures (a * b) as real == Times(a as real, b as real)
    decreases if b < 0 then -b else b
  {
    var r := a as real;
    if b > 0 {
      ProductAsReal(a, b - 1);
      Distribute(r, (b - 1) as real, 1.0);
      OneMore(a, b - 1);
      hide Times;
      assert b as real == (b - 1) as real + 1.0;
    } else if b < 0 {
      ProductAsReal(a, b + 1);
      Distribute(r, b as real, 1.0);
      OneMore(a, b);
      hide Times;
      assert (b + 1) as real == b as real + 1.0;
    }
  }

  lemma OneMore(a: int, b: int)
    ensures a * (b + 1) == a * b + a
  {
  }

  lemma ScaledGap(a: int, b: int, scale: int, shift: int)
    ensures ((scale * b + shift) - (scale * a + shift)) as real == Times(scale as real, (b - a) as real)
  {
    ProductAsReal(scale, b - a);
    hide Times;
    assert (scale * b + shift) - (scale * a + shift) == scale * (b - a);
  }

  lemma {:induction false} IntervalsMoved(times: seq<int>, scale: int, shift: int)
    ensures Intervals(Moved(times, scale, shift)) == Scaled(Intervals(times), scale as real)
  {
    if |times| < 2 {
      return;
    }
    hide Times;
    IntervalsMoved(times[1..], scale, shift);
    var moved := Moved(times, scale, shift);
    assert moved[0] == scale * times[0] + shift;
    assert moved[1..] == Moved(times[1..], scale, shift);
    assert moved[1] == moved[1..][0] == scale * times[1] + shift;
    ScaledGap(times[0], times[1], scale, shift);
    assert Intervals(times)[1..] == Intervals(times[1..]);
  }

  lemma {:induction false} SumScaled(xs: seq<real>, k: real)
    ensures Sum(Scaled(xs, k)) == Times(k, Sum(xs))
  {
    if xs == [] {
      Distribute(k, 0.0, 0.0);
      return;
    }
    SumScaled(xs[1..], k);
    assert Scaled(xs, k)[1..] == Scaled(xs[1..], k);
    Distribute(k, xs[0], Sum(xs[1..]));
    hide Times;
  }

  lemma ProductSquared(k: real, d: real)
    ensures Squared(Times(k, d)) == Times(Squared(k), Squared(d))
  {
    var kk, kd := k * k, k * d;
    Associate(kd, k, d);
    Associate(k, k, d);
    Associate(kk, d, d);
    assert kd * kd == (kd * k) * d;
    assert kd * k == kk * d;
  }

  lemma Spacing(k: real, x: real, m: real)
    ensures Times(k, x) - Times(k, m) == Times(k, x - m)
  {
  }

  lemma {:induction false} SpreadScaled(xs: seq<real>, m: real, k: real)
    ensures Spread(Scaled(xs, k), Times(k, m)) == Times(Squared(k), Spread(xs, m))
  {
    if xs == [] {
      Distribute(Squared(k), 0.0, 0.0);
      return;
    }
    SpreadScaled(xs[1..], m, k);
    assert Scaled(xs, k)[1..] == Scaled(xs[1..], k);
    Spacing(k, xs[0], m);
    ProductSquared(k, xs[0] - m);
    Distribute(Squared(k), Squared(xs[0] - m), Spread(xs[1..], m));
    hide Squared, Times;
  }

  lemma ScaleQuotient(a: real, n: real, k: real)
    requires n != 0.0
    ensures Times(k, a) / n == Times(k, a / n)
  {
    DivideCancel(a, n);
    Associate(k, a / n, n);
    Quotient(k * a, n, k * (a / n));
  }

  lemma MeanScaled(xs: seq<real>, k: real)
    requires xs != []
    ensures Mean(Scaled(xs, k)) == Times(k, Mean(xs))
  {
    SumScaled(xs, k);
    ScaleQuotient(Sum(xs), |xs| as real, k);
    hide Sum, Scaled, Times;
  }

  lemma VarianceScaled(xs: seq<real>, k: real)
    requires xs != []
    ensures Variance(Scaled(xs, k)) == Times(Squared(k), Variance(xs))
  {
    MeanScaled(xs, k);
    SpreadScaled(xs, Mean(xs), k);
    ScaleQuotient(Spread(xs, Mean(xs)), |xs| as real, Squared(k));
    hide Spread, Scaled, Mean, Squared, Times;
  }

  /** Shifting all times, or scaling them by a positive factor, leaves the score as it is. */
  lemma Invariant(times: seq<int>, scale: int, shift: int, stddev: real, moved: real)
    requires scale > 0 && IsDeviation(times, stddev) && IsDeviation(Moved(times, scale, shift), moved)
    ensures Regularity(Moved(times, scale, shift), moved) == Regularity(times, stddev)
  {
    if |times| < 2 {
      return;
    }
    var xs, k := Intervals(times), scale as real;
    IntervalsMoved(times, scale, shift);
    MeanScaled(xs, k);
    VarianceScaled(xs, k);
    Products(k, stddev);
    assert Times(k, stddev) >= 0.0;
    hide Mean, Variance, Intervals, Scaled, Moved, Score, Squared, Times;
    ProductSquared(k, stddev);
    SquareRootUnique(moved, Times(k, stddev));
    ScoreScaled(stddev, Mean(xs), k);
  }
}
