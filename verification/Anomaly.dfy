/** src/domain/analysis/anomaly.py: the z-score of the newest price in its rolling window. */
module Anomaly {
  import opened Models
  import opened Statistics

  const WINDOW: nat := 64
  const NOISE_FLOOR: real := 0.000000001

  /** `|last - mu| / (sigma or NOISE_FLOOR)`, with sigma the pstdev of `prices`. */
  function ZScore(prices: seq<real>, sigma: real): real
    requires prices != []
  {
    Abs(Last(prices) - Mean(prices)) / (if sigma == 0.0 then NOISE_FLOOR else sigma)
  }

  /** `squash` stands for tanh and `pstdev` for the standard library's function of that name. */
  function ZscoreAnomaly(ticks: seq<Tick>, pstdev: seq<real> -> real, squash: real -> real): real {
    if |ticks| < 8 then 0.0
    else
      var prices := Prices(LastN(ticks, WINDOW));
      squash(ZScore(prices, pstdev(prices)) / 3.0)
  }

  ghost predicate ComputesPstdev(pstdev: seq<real> -> real) {
    forall xs: seq<real> :: xs != [] ==> IsPstdev(pstdev(xs), xs)
  }

  ghost predicate NonDecreasing(f: real -> real) {
    forall x: real, y: real :: x <= y ==> f(x) <= f(y)
  }

  lemma SquareAbs(x: real)
    ensures Abs(x) >= 0.0 && Square(Abs(x)) == Square(x)
  {
  }

  lemma SquareOfQuotient(d: real, s: real)
    requires s > 0.0
    ensures Square(d / s) * Square(s) == Square(d)
  {
    var q := d / s;
    assert d == q * s;
    SquareOfProduct(q, s);
  }

  /** The newest ticks that the score looks at. */
  function Newest(ticks: seq<Tick>): seq<Tick> {
    if |ticks| <= 64 then ticks else ticks[|ticks| - 64..]
  }

  /** What the score is: nothing below eight ticks; else a third of the z-score of the newest price
      among the newest 64, squashed; and for a flat window the z-score is 0. */
  lemma ScoreMeans(ticks: seq<Tick>, pstdev: seq<real> -> real, squash: real -> real, z: real)
    requires ComputesPstdev(pstdev)
    requires |ticks| >= 8 ==>
               var prices := Prices(Newest(ticks));
               z * pstdev(prices) == Abs(Last(prices) - Mean(prices)) && (pstdev(prices) == 0.0 ==> z == 0.0)
    ensures ZscoreAnomaly(ticks, pstdev, squash) == if |ticks| < 8 then 0.0 else squash(z / 3.0)
  {
    if |ticks| >= 8 {
      var prices := Prices(Newest(ticks));
      assert Newest(ticks) == LastN(ticks, WINDOW);
      ZScoreIs(prices, pstdev(prices), z);
    }
  }

  lemma ZScoreIs(prices: seq<real>, sigma: real, z: real)
    requires prices != [] && IsPstdev(sigma, prices)
    requires z * sigma == Abs(Last(prices) - Mean(prices)) && (sigma == 0.0 ==> z == 0.0)
    ensures ZScore(prices, sigma) == z
  {
    if sigma != 0.0 {
      assert z == (z * sigma) / sigma;
    }
  }

  /** So a score is positive exactly if there are eight ticks and the newest price is not the mean
      of the window, whatever increasing function squashes it. */
  lemma AnomalyIff(ticks: seq<Tick>, pstdev: seq<real> -> real, squash: real -> real)
    requires ComputesPstdev(pstdev)
    requires forall x: real :: x >= 0.0 ==> (squash(x) > 0.0 <==> x > 0.0)
    ensures ZscoreAnomaly(ticks, pstdev, squash) > 0.0
            <==> |ticks| >= 8 && Last(ticks).price != Mean(Prices(Newest(ticks)))
  {
    if |ticks| >= 8 {
      var prices := Prices(Newest(ticks));
      var sigma := pstdev(prices);
      assert Newest(ticks) == LastN(ticks, WINDOW);
      assert Last(prices) == Last(ticks).price;
      PositiveIff(prices, sigma);
      ZScoreBound(prices, sigma, |prices| as real);
    }
  }

  lemma PositiveIff(prices: seq<real>, sigma: real)
    requires prices != [] && IsPstdev(sigma, prices)
    ensures ZScore(prices, sigma) > 0.0 <==> Last(prices) != Mean(prices)
  {
    var d, s := Abs(Last(prices) - Mean(prices)), if sigma == 0.0 then NOISE_FLOOR else sigma;
    assert ZScore(prices, sigma) * s == d;
  }

  /** Samuelson's bound for the z-score the code computes, flat windows included:
      in a window of n prices the newest one is at most sqrt(n-1) sigmas out. */
  lemma ZScoreBound(prices: seq<real>, sigma: real, n: real)
    requires prices != [] && n == |prices| as real && IsPstdev(sigma, prices)
    ensures ZScore(prices, sigma) >= 0.0
    ensures Square(ZScore(prices, sigma)) <= n - 1.0
  {
    var d := Last(prices) - Mean(prices);
    LastWithinSpread(prices, n);
    SquareAbs(d);
    if sigma == 0.0 {
      assert Square(sigma) == 0.0;
      FlatMeansNoDeviation(prices);
      assert ZScore(prices, sigma) == 0.0 / NOISE_FLOOR == 0.0;
    } else {
      var z, v := Abs(d) / sigma, Square(sigma);
      SquareOfQuotient(Abs(d), sigma);
      SquarePositive(sigma);
      assert Variance(prices) == v;
      assert Square(z) * v == Square(Abs(d)) == Square(d);
      assert Square(d) <= (n - 1.0) * v;
      CancelFactor(Square(z), n - 1.0, v);
      assert z >= 0.0 by { QuotientNonNegative(Abs(d), sigma); }
    }
  }

  /** Hence with at most 64 prices the z-score stays below 8 and the score below
      tanh(8/3): the "6 sigma" band of the documentation is nearly the ceiling. */
  lemma ScoreCeiling(ticks: seq<Tick>, pstdev: seq<real> -> real, squash: real -> real)
    requires ComputesPstdev(pstdev) && NonDecreasing(squash) && squash(0.0) == 0.0
    ensures 0.0 <= ZscoreAnomaly(ticks, pstdev, squash) <= squash(8.0 / 3.0)
    ensures squash(8.0 / 3.0) < 1.0 ==> ZscoreAnomaly(ticks, pstdev, squash) < 1.0
    ensures |ticks| >= 8 ==>
              var prices := Prices(LastN(ticks, WINDOW));
              var z := ZScore(prices, pstdev(prices));
              0.0 <= z < 8.0 && Square(z) <= (Min(|ticks|, WINDOW) - 1) as real
  {
    if |ticks| >= 8 {
      var prices := Prices(LastN(ticks, WINDOW));
      var z := ZScore(prices, pstdev(prices));
      ZScoreBound(prices, pstdev(prices), |prices| as real);
      if z > 8.0 { SquareStrict(8.0, z); }
      assert 0.0 <= z / 3.0 <= 8.0 / 3.0;
      assert squash(0.0) <= squash(z / 3.0) <= squash(8.0 / 3.0);
    } else {
      assert squash(0.0) <= squash(8.0 / 3.0);
    }
  }

  /** tanh, from a given exponential function. */
  function Tanh(exp: real -> real): real -> real
    requires forall x: real :: exp(x) > 0.0
  {
    x => (exp(2.0 * x) - 1.0) / (exp(2.0 * x) + 1.0)
  }

  /** What tanh needs of it. */
  ghost predicate IsExponential(exp: real -> real) {
    && (forall x: real :: exp(x) > 0.0)
    && exp(0.0) == 1.0
    && NonDecreasing(exp)
  }

  lemma TanhOrder(d: real, e: real)
    requires 0.0 < d <= e
    ensures (d - 1.0) / (d + 1.0) <= (e - 1.0) / (e + 1.0) < 1.0
  {
    var p, q := (d - 1.0) / (d + 1.0), (e - 1.0) / (e + 1.0);
    assert p * (d + 1.0) == d - 1.0 && q * (e + 1.0) == e - 1.0;
    assert (1.0 - q) * (e + 1.0) == 2.0 && (1.0 - p) * (d + 1.0) == 2.0;
    if q >= 1.0 {
      ProductNonNegative(q - 1.0, e + 1.0);
      assert (q - 1.0) * (e + 1.0) == -2.0;
    }
    if p > q {
      CancelFactorStrict(1.0 - p, 1.0 - q, d + 1.0, e + 1.0);
    }
  }

  lemma CancelFactorStrict(x: real, y: real, m: real, n: real)
    requires 0.0 < m <= n && 0.0 <= y && x * m == y * n && y > 0.0
    ensures x >= y
  {
    ScaleMonotone(y, m, n);
    CancelFactor(y, x, m);
  }

  /** Hence the score is strictly below 1. */
  lemma ScoreBelowOne(ticks: seq<Tick>, pstdev: seq<real> -> real, exp: real -> real)
    requires ComputesPstdev(pstdev) && IsExponential(exp)
    ensures 0.0 <= ZscoreAnomaly(ticks, pstdev, Tanh(exp)) < 1.0
  {
    var tanh := Tanh(exp);
    forall x: real, y: real | x <= y
      ensures tanh(x) <= tanh(y)
    {
      assert exp(2.0 * x) <= exp(2.0 * y);
      TanhOrder(exp(2.0 * x), exp(2.0 * y));
    }
    assert tanh(0.0) == 0.0 by { assert exp(2.0 * 0.0) == 1.0; }
    var top := exp(2.0 * (8.0 / 3.0));
    TanhOrder(top, top);
    ScoreCeiling(ticks, pstdev, tanh);
  }

  lemma PstdevUnique(s: real, t: real)
    requires s >= 0.0 && t >= 0.0 && Square(s) == Square(t)
    ensures s == t
  {
    SquareMonotone(s, t);
    SquareMonotone(t, s);
  }

  lemma AbsOfProduct(a: real, d: real)
    ensures Abs(a * d) == Abs(a) * Abs(d)
  {
    if a >= 0.0 && d >= 0.0 { assert a * d >= 0.0; }
    else if a >= 0.0 { assert a * (-d) >= 0.0; }
    else if d >= 0.0 { assert (-a) * d >= 0.0; }
    else { assert (-a) * (-d) >= 0.0; }
  }

  lemma PstdevAffine(a: real, b: real, prices: seq<real>, sigma: real, tau: real)
    requires prices != [] && IsPstdev(sigma, prices) && IsPstdev(tau, Affine(a, b, prices))
    ensures tau == Abs(a) * sigma
  {
    VarianceAffine(a, b, prices);
    SquareAbs(a);
    SquareOfProduct(Abs(a), sigma);
    assert Abs(a) * sigma >= 0.0;
    PstdevUnique(tau, Abs(a) * sigma);
  }

  /** The quotient of the score, for a deviation and a standard deviation. */
  function Score(d: real, sigma: real): real {
    Abs(d) / (if sigma == 0.0 then NOISE_FLOOR else sigma)
  }

  lemma ScoreScales(a: real, d: real, sigma: real, e: real, tau: real)
    requires a != 0.0 && sigma >= 0.0 && e == a * d && tau == Abs(a) * sigma
    requires sigma == 0.0 ==> d == 0.0
    ensures Score(e, tau) == Score(d, sigma)
  {
    if sigma != 0.0 {
      AbsOfProduct(a, d);
      ProductMonotone(Abs(a), 0.0, sigma);
      CancelQuotient(Abs(a), Abs(d), sigma);
    }
  }

  lemma FlatMeansNoDeviation(prices: seq<real>)
    requires prices != [] && Variance(prices) == 0.0
    ensures Last(prices) - Mean(prices) == 0.0
  {
    var n, d := |prices| as real, Last(prices) - Mean(prices);
    LastWithinSpread(prices, n);
    assert (n - 1.0) * 0.0 == 0.0;
    if d != 0.0 { SquarePositive(d); }
  }

  lemma DeviationAffine(a: real, b: real, prices: seq<real>)
    requires prices != []
    ensures var ys := Affine(a, b, prices);
            Last(ys) - Mean(ys) == a * (Last(prices) - Mean(prices))
  {
    MeanAffine(a, b, prices);
    InitAffine(a, b, prices);
    DeviationScales(a, b, Last(prices), Mean(prices));
  }

  /** The z-score does not depend on the unit or origin of the prices, and not on
      their direction either: any affine map with a nonzero factor leaves it alone. */
  lemma ZScoreAffine(a: real, b: real, prices: seq<real>, sigma: real, tau: real)
    requires prices != [] && a != 0.0
    requires IsPstdev(sigma, prices) && IsPstdev(tau, Affine(a, b, prices))
    ensures ZScore(Affine(a, b, prices), tau) == ZScore(prices, sigma)
  {
    var ys := Affine(a, b, prices);
    var d, e := Last(prices) - Mean(prices), Last(ys) - Mean(ys);
    assert e == a * d by { DeviationAffine(a, b, prices); }
    assert tau == Abs(a) * sigma by { PstdevAffine(a, b, prices, sigma, tau); }
    assert sigma == 0.0 ==> d == 0.0 by {
      if sigma == 0.0 {
        assert Square(sigma) == 0.0;
        FlatMeansNoDeviation(prices);
      }
    }
    ScoreScales(a, d, sigma, e, tau);
    assert ZScore(prices, sigma) == Score(d, sigma) && ZScore(ys, tau) == Score(e, tau);
  }

  lemma CancelQuotient(c: real, x: real, y: real)
    requires c > 0.0 && y > 0.0 && c * y > 0.0
    ensures (c * x) / (c * y) == x / y
  {
    var q := x / y;
    assert x == q * y;
    assert c * x == q * (c * y);
  }

  /** The ticks with every price mapped by `f`. */
  function Repriced(f: real -> real, ticks: seq<Tick>): (ys: seq<Tick>)
    ensures |ys| == |ticks|
    ensures forall i :: 0 <= i < |ticks| ==> ys[i] == ticks[i].(price := f(ticks[i].price))
  {
    seq(|ticks|, i requires 0 <= i < |ticks| => ticks[i].(price := f(ticks[i].price)))
  }

  lemma RepricedPrices(a: real, b: real, ticks: seq<Tick>)
    ensures Prices(Repriced(x => a * x + b, ticks)) == Affine(a, b, Prices(ticks))
  {
    var xs, ys := Prices(Repriced(x => a * x + b, ticks)), Affine(a, b, Prices(ticks));
    forall i | 0 <= i < |ticks|
      ensures xs[i] == ys[i]
    {
      AffineAt(a, b, Prices(ticks), i);
    }
  }

  lemma LastNRepriced(f: real -> real, ticks: seq<Tick>, n: nat)
    ensures LastN(Repriced(f, ticks), n) == Repriced(f, LastN(ticks, n))
  {
    var kept := LastN(ticks, n);
    var skip := |ticks| - |kept|;
    forall i | 0 <= i < |kept|
      ensures LastN(Repriced(f, ticks), n)[i] == Repriced(f, kept)[i]
    {
      assert kept[i] == ticks[skip + i];
    }
  }

  /** Re-quoting every price by an affine map never changes the anomaly score. */
  lemma AnomalyAffineInvariant(
    a: real, b: real, ticks: seq<Tick>, pstdev: seq<real> -> real, squash: real -> real)
    requires a != 0.0 && ComputesPstdev(pstdev)
    ensures ZscoreAnomaly(Repriced(x => a * x + b, ticks), pstdev, squash) == ZscoreAnomaly(ticks, pstdev, squash)
  {
    if |ticks| >= 8 {
      var window := LastN(ticks, WINDOW);
      var prices := Prices(window);
      LastNRepriced(x => a * x + b, ticks, WINDOW);
      RepricedPrices(a, b, window);
      ZScoreAffine(a, b, prices, pstdev(prices), pstdev(Affine(a, b, prices)));
    }
  }

  /** Prices older than the window have no influence. */
  lemma AnomalyForgetsOldTicks(
    older: seq<Tick>, ticks: seq<Tick>, pstdev: seq<real> -> real, squash: real -> real)
    requires |ticks| >= 64
    ensures ZscoreAnomaly(older + ticks, pstdev, squash) == ZscoreAnomaly(ticks, pstdev, squash)
  {
    assert LastN(older + ticks, WINDOW) == LastN(ticks, WINDOW);
  }
}
