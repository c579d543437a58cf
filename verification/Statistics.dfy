/** The population statistics the scoring and guard code computes over price windows,
    with floats read as reals. */
module Statistics {

  function Last<T>(xs: seq<T>): T
    requires xs != []
  {
    xs[|xs| - 1]
  }

  function Init<T>(xs: seq<T>): seq<T>
    requires xs != []
  {
    xs[..|xs| - 1]
  }

  function Square(x: real): real { x * x }

  function Abs(x: real): real { if x < 0.0 then -x else x }

  function Sum(xs: seq<real>): real {
    if xs == [] then 0.0 else Sum(Init(xs)) + Last(xs)
  }

  /** Sum of squared distances from `m`. */
  function Spread(xs: seq<real>, m: real): real {
    if xs == [] then 0.0 else Spread(Init(xs), m) + Square(Last(xs) - m)
  }

  function Mean(xs: seq<real>): real
    requires xs != []
  {
    Sum(xs) / |xs| as real
  }

  /** The square of `statistics.pstdev`. */
  function Variance(xs: seq<real>): real
    requires xs != []
  {
    Spread(xs, Mean(xs)) / |xs| as real
  }

  /** `sigma` is the population standard deviation of `xs`. */
  ghost predicate IsPstdev(sigma: real, xs: seq<real>)
    requires xs != []
  {
    sigma >= 0.0 && Square(sigma) == Variance(xs)
  }

  /** Every element mapped by x -> a*x + b. */
  function Affine(a: real, b: real, xs: seq<real>): (ys: seq<real>)
    ensures |ys| == |xs|
  {
    if xs == [] then [] else Affine(a, b, Init(xs)) + [a * Last(xs) + b]
  }

  // ----- polynomial facts, one product at a time -----

  lemma SquareNonNegative(x: real)
    ensures Square(x) >= 0.0
  {
    if x < 0.0 {
      assert (-x) * (-x) >= 0.0;
    }
  }

  lemma SquareOfProduct(a: real, d: real)
    ensures Square(a * d) == Square(a) * Square(d)
  {
    assert (a * d) * (a * d) == (a * a) * (d * d);
  }

  lemma ProductNonNegative(a: real, b: real)
    requires a >= 0.0 && b >= 0.0
    ensures a * b >= 0.0
  {
  }

  lemma ScaleMonotone(a: real, x: real, y: real)
    requires a >= 0.0 && x <= y
    ensures a * x <= a * y
  {
    ProductNonNegative(a, y - x);
    assert a * y == a * x + a * (y - x);
  }

  lemma Distribute(a: real, x: real, y: real)
    ensures a * (x + y) == a * x + a * y
  {
  }

  lemma QuotientScales(c: real, x: real, n: real)
    requires n > 0.0
    ensures (c * x) / n == c * (x / n)
  {
    var t := x / n;
    assert x == t * n;
    assert c * x == (c * t) * n;
  }

  lemma ProductSign(n: real, g: real)
    requires n > 0.0 && n * g >= 0.0
    ensures g >= 0.0
  {
  }

  lemma QuotientBound(x: real, n: real, y: real)
    requires n > 0.0 && x <= n * y
    ensures x / n <= y
  {
    var t := x / n;
    assert x == n * t;
    assert n * (y - t) >= 0.0;
    ProductSign(n, y - t);
  }

  lemma ProductMonotone(c: real, x: real, y: real)
    requires c > 0.0 && x < y
    ensures c * x < c * y
  {
  }

  lemma SquareStrict(y: real, x: real)
    requires 0.0 <= y < x
    ensures Square(y) < Square(x)
  {
    ProductMonotone(x - y, 0.0, x + y);
    assert x * x - y * y == (x - y) * (x + y);
  }

  lemma SquareMonotone(x: real, y: real)
    requires x >= 0.0 && y >= 0.0 && Square(x) <= Square(y)
    ensures x <= y
  {
    if x > y { SquareStrict(y, x); }
  }

  lemma SquarePositive(x: real)
    requires x != 0.0
    ensures Square(x) > 0.0
  {
    if x > 0.0 {
      SquareStrict(0.0, x);
    } else {
      SquareStrict(0.0, -x);
      assert (-x) * (-x) == x * x;
    }
  }

  lemma NegatedQuotient(x: real, n: real)
    requires n > 0.0
    ensures (-x) / n == -(x / n)
  {
  }

  lemma CancelFactor(x: real, y: real, v: real)
    requires v > 0.0 && x * v <= y * v
    ensures x <= y
  {
    if y < x { ProductMonotone(v, y, x); }
  }

  lemma QuotientNonNegative(x: real, y: real)
    requires x >= 0.0 && y > 0.0
    ensures x / y >= 0.0
  {
    var q := x / y;
    if q < 0.0 { ProductMonotone(y, q, 0.0); }
  }

  lemma CauchyGap(n: real, s: real, q: real, d: real)
    requires n > 0.0 && s * s <= n * q
    ensures q + n * (d * d) - 2.0 * (s * d) >= 0.0
  {
    var g := q + n * (d * d) - 2.0 * (s * d);
    var e := s - n * d;
    assert e * e >= 0.0 by {
      SquareNonNegative(e);
    }
    assert e * e == s * s + n * (n * (d * d)) - 2.0 * (n * (s * d));
    Distribute(n, q, n * (d * d));
    assert n * g == n * q + n * (n * (d * d)) - 2.0 * (n * (s * d));
    ProductSign(n, g);
  }

  lemma CauchyStep(n: real, s: real, q: real, d: real)
    requires n > 0.0 || (n == 0.0 && s == 0.0 && q == 0.0)
    requires s * s <= n * q
    ensures (s + d) * (s + d) <= (n + 1.0) * (q + d * d)
  {
    if n > 0.0 {
      CauchyGap(n, s, q, d);
      assert (s + d) * (s + d) == s * s + 2.0 * (s * d) + d * d;
      assert (n + 1.0) * (q + d * d) == n * q + n * (d * d) + q + d * d;
    }
  }

  // ----- algebra of sums -----

  lemma {:induction false} SpreadNonNegative(xs: seq<real>, m: real)
    ensures Spread(xs, m) >= 0.0
  {
    if xs != [] {
      SpreadNonNegative(Init(xs), m);
      SquareNonNegative(Last(xs) - m);
    }
  }

  lemma InitAffine(a: real, b: real, xs: seq<real>)
    requires xs != []
    ensures Init(Affine(a, b, xs)) == Affine(a, b, Init(xs))
    ensures Last(Affine(a, b, xs)) == a * Last(xs) + b
  {
  }

  lemma {:induction false} AffineAt(a: real, b: real, xs: seq<real>, i: nat)
    requires i < |xs|
    ensures Affine(a, b, xs)[i] == a * xs[i] + b
  {
    if i < |xs| - 1 {
      AffineAt(a, b, Init(xs), i);
    }
  }

  ghost predicate AffineSum(a: real, b: real, sum: real, n: real, image: real) {
    image == a * sum + b * n
  }

  lemma AffineSumStep(a: real, b: real, sum: real, n: real, image: real, x: real)
    requires AffineSum(a, b, sum, n, image)
    ensures AffineSum(a, b, sum + x, n + 1.0, image + (a * x + b))
  {
    Distribute(a, sum, x);
    Distribute(b, n, 1.0);
  }

  function SumBy(xs: seq<real>, g: real -> real): real {
    if xs == [] then 0.0 else SumBy(Init(xs), g) + g(Last(xs))
  }

  /** The squared distance from `m`, and the affine map, as values. */
  function SquaredFrom(m: real): real -> real { x => Square(x - m) }

  function Line(a: real, b: real): real -> real { x => a * x + b }

  lemma {:induction false} SpreadIsSumBy(xs: seq<real>, m: real)
    ensures Spread(xs, m) == SumBy(xs, SquaredFrom(m))
  {
    if xs != [] {
      SpreadIsSumBy(Init(xs), m);
    }
  }

  /** Through `t`, `h` sees `c` times what `g` sees. */
  ghost predicate Scaled(t: real -> real, g: real -> real, h: real -> real, c: real, x: real) {
    h(t(x)) == c * g(x)
  }

  ghost predicate AllScaled(t: real -> real, g: real -> real, h: real -> real, c: real) {
    forall x: real :: Scaled(t, g, h, c, x)
  }

  /** `ys` is `xs` mapped by `t`. */
  ghost predicate IsMapped(xs: seq<real>, ys: seq<real>, t: real -> real) {
    |xs| == |ys| && (xs != [] ==> Last(ys) == t(Last(xs)) && IsMapped(Init(xs), Init(ys), t))
  }

  lemma {:induction false} SumByMapped(
    xs: seq<real>, ys: seq<real>, t: real -> real, g: real -> real, h: real -> real, c: real)
    requires IsMapped(xs, ys, t) && AllScaled(t, g, h, c)
    ensures SumBy(ys, h) == c * SumBy(xs, g)
  {
    if xs != [] {
      SumByMapped(Init(xs), Init(ys), t, g, h, c);
      assert Scaled(t, g, h, c, Last(xs));
      Distribute(c, SumBy(Init(xs), g), g(Last(xs)));
    }
  }

  lemma {:induction false} AffineIsMapped(a: real, b: real, xs: seq<real>)
    ensures IsMapped(xs, Affine(a, b, xs), Line(a, b))
  {
    if xs != [] {
      AffineIsMapped(a, b, Init(xs));
      InitAffine(a, b, xs);
    }
  }

  ghost predicate IsLine(t: real -> real, a: real, b: real, x: real) {
    t(x) == a * x + b
  }

  lemma {:induction false} SumByLine(xs: seq<real>, t: real -> real, a: real, b: real)
    requires forall x: real :: IsLine(t, a, b, x)
    ensures AffineSum(a, b, Sum(xs), |xs| as real, SumBy(xs, t))
  {
    if xs == [] {
    } else {
      var s, n, image, x := Sum(Init(xs)), |Init(xs)| as real, SumBy(Init(xs), t), Last(xs);
      assert AffineSum(a, b, s + x, n + 1.0, image + t(x)) by {
        SumByLine(Init(xs), t, a, b);
        assert IsLine(t, a, b, x);
        AffineSumStep(a, b, s, n, image, x);
      }
      assert |xs| as real == n + 1.0;
    }
  }

  lemma {:induction false} SumIsSumBy(xs: seq<real>, ys: seq<real>, t: real -> real)
    requires IsMapped(xs, ys, t)
    ensures Sum(ys) == SumBy(xs, t)
  {
    if xs != [] {
      SumIsSumBy(Init(xs), Init(ys), t);
    }
  }

  lemma SumAffine(a: real, b: real, xs: seq<real>)
    ensures AffineSum(a, b, Sum(xs), |xs| as real, Sum(Affine(a, b, xs)))
  {
    var t := Line(a, b);
    forall x: real
      ensures IsLine(t, a, b, x)
    {
    }
    AffineIsMapped(a, b, xs);
    SumIsSumBy(xs, Affine(a, b, xs), t);
    SumByLine(xs, t, a, b);
  }

  lemma DeviationScales(a: real, b: real, x: real, m: real)
    ensures (a * x + b) - (a * m + b) == a * (x - m)
  {
    Distribute(a, x, -m);
  }

  lemma DeviationSquares(a: real, b: real, m: real, x: real, k: real, c: real)
    requires k == a * m + b && c == Square(a)
    ensures Square((a * x + b) - k) == c * Square(x - m)
  {
    DeviationScales(a, b, x, m);
    SquareOfProduct(a, x - m);
  }

  lemma LineScalesDeviation(a: real, b: real, m: real, k: real, c: real, x: real)
    requires k == a * m + b && c == Square(a)
    ensures Scaled(Line(a, b), SquaredFrom(m), SquaredFrom(k), c, x)
  {
    var y := a * x + b;
    assert Square(y - k) == c * Square(x - m) by { DeviationSquares(a, b, m, x, k, c); }
    assert Line(a, b)(x) == y && SquaredFrom(k)(y) == Square(y - k) && SquaredFrom(m)(x) == Square(x - m);
  }

  lemma AllDeviationsScale(a: real, b: real, m: real, k: real, c: real)
    requires k == a * m + b && c == Square(a)
    ensures AllScaled(Line(a, b), SquaredFrom(m), SquaredFrom(k), c)
  {
    forall x: real
      ensures Scaled(Line(a, b), SquaredFrom(m), SquaredFrom(k), c, x)
    {
      LineScalesDeviation(a, b, m, k, c, x);
    }
  }

  function Times(c: real, x: real): real { c * x }

  lemma SumByMappedTimes(
    xs: seq<real>, ys: seq<real>, t: real -> real, g: real -> real, h: real -> real, c: real)
    requires IsMapped(xs, ys, t) && AllScaled(t, g, h, c)
    ensures SumBy(ys, h) == Times(c, SumBy(xs, g))
  {
    SumByMapped(xs, ys, t, g, h, c);
  }

  lemma SpreadMapped(xs: seq<real>, ys: seq<real>, t: real -> real, m: real, k: real, c: real)
    requires IsMapped(xs, ys, t) && AllScaled(t, SquaredFrom(m), SquaredFrom(k), c)
    ensures Spread(ys, k) == Times(c, Spread(xs, m))
  {
    SumByMappedTimes(xs, ys, t, SquaredFrom(m), SquaredFrom(k), c);
    SpreadIsSumBy(xs, m);
    SpreadIsSumBy(ys, k);
  }

  lemma SpreadAffine(a: real, b: real, xs: seq<real>, m: real, k: real, c: real)
    requires k == a * m + b && c == Square(a)
    ensures Spread(Affine(a, b, xs), k) == Times(c, Spread(xs, m))
  {
    AllDeviationsScale(a, b, m, k, c);
    AffineIsMapped(a, b, xs);
    SpreadMapped(xs, Affine(a, b, xs), Line(a, b), m, k, c);
  }

  lemma AverageScales(a: real, b: real, sum: real, n: real, total: real)
    requires n > 0.0 && total == a * sum + b * n
    ensures total / n == a * (sum / n) + b
  {
    var q := sum / n;
    assert sum == q * n;
    assert a * sum == (a * q) * n;
    assert total == (a * q) * n + b * n;
    assert (a * q + b) * n == (a * q) * n + b * n;
    QuotientUnique(total, n, a * q + b);
  }

  lemma QuotientUnique(x: real, n: real, q: real)
    requires n > 0.0 && x == q * n
    ensures x / n == q
  {
  }

  lemma MeanAffine(a: real, b: real, xs: seq<real>)
    requires xs != []
    ensures Mean(Affine(a, b, xs)) == a * Mean(xs) + b
  {
    SumAffine(a, b, xs);
    AverageScales(a, b, Sum(xs), |xs| as real, Sum(Affine(a, b, xs)));
  }

  lemma ScaledQuotient(s: real, p: real, q: real, n: real)
    requires n > 0.0 && p == Times(s, q)
    ensures p / n == Times(s, q / n)
  {
    QuotientScales(s, q, n);
  }

  lemma SpreadQuotient(a: real, b: real, xs: seq<real>, m: real, k: real, c: real, n: real)
    requires k == a * m + b && c == Square(a) && n > 0.0
    ensures Spread(Affine(a, b, xs), k) / n == Times(c, Spread(xs, m) / n)
  {
    SpreadAffine(a, b, xs, m, k, c);
    ScaledQuotient(c, Spread(Affine(a, b, xs), k), Spread(xs, m), n);
  }

  lemma VarianceAffine(a: real, b: real, xs: seq<real>)
    requires xs != []
    ensures Variance(Affine(a, b, xs)) == Square(a) * Variance(xs)
  {
    MeanAffine(a, b, xs);
    SpreadQuotient(a, b, xs, Mean(xs), Mean(Affine(a, b, xs)), Square(a), |xs| as real);
  }

  lemma SumShift(n: real, s: real, x: real, m: real)
    ensures (s + x) - (n + 1.0) * m == (s - n * m) + (x - m)
  {
    assert (n + 1.0) * m == n * m + m;
  }

  ghost predicate Bounded(n: real, total: real, spread: real, m: real) {
    Square(total - n * m) <= n * spread
  }

  lemma DeviationStep(k: real, t: real, p: real, x: real, m: real)
    requires k > 0.0 || (k == 0.0 && t == 0.0 && p == 0.0)
    requires Bounded(k, t, p, m)
    ensures Bounded(k + 1.0, t + x, p + Square(x - m), m)
  {
    CauchyStep(k, t - k * m, p, x - m);
    SumShift(k, t, x, m);
  }

  /** Cauchy-Schwarz for the deviations from `m`. */
  lemma {:induction false} DeviationBound(xs: seq<real>, m: real)
    ensures Bounded(|xs| as real, Sum(xs), Spread(xs, m), m)
  {
    if xs == [] {
    } else {
      var k, t, p, x := |Init(xs)| as real, Sum(Init(xs)), Spread(Init(xs), m), Last(xs);
      assert Bounded(k, t, p, m) by {
        DeviationBound(Init(xs), m);
      }
      assert Bounded(k + 1.0, t + x, p + Square(x - m), m) by {
        DeviationStep(k, t, p, x, m);
      }
      assert |xs| as real == k + 1.0;
    }
  }

  lemma SamuelsonStep(n: real, x: real, m: real, rest: real, v: real)
    requires n > 0.0 && v == (rest + Square(x - m)) / n
    requires Square(m - x) <= (n - 1.0) * rest
    ensures Square(x - m) <= (n - 1.0) * v
  {
    var e := Square(x - m);
    assert Square(m - x) == e by {
      assert (m - x) * (m - x) == (x - m) * (x - m);
    }
    SamuelsonQuotient(n, e, rest);
  }

  lemma SamuelsonQuotient(n: real, e: real, rest: real)
    requires n > 0.0
    requires e <= (n - 1.0) * rest
    ensures e <= (n - 1.0) * ((rest + e) / n)
  {
    var v := (rest + e) / n;
    assert n * v == rest + e;
    assert n * ((n - 1.0) * v) == (n - 1.0) * (n * v);
    Distribute(n - 1.0, rest, e);
    assert (n - 1.0) * e == n * e - e;
    Distribute(n, (n - 1.0) * v, -e);
    ProductSign(n, (n - 1.0) * v - e);
  }

  lemma LastDeviation(k: real, n: real, m: real, t: real, x: real, sum: real)
    requires n == k + 1.0 && sum == t + x && sum == n * m
    ensures t - k * m == m - x
  {
    assert n * m == k * m + m;
  }

  lemma VarianceByLast(xs: seq<real>, n: real, m: real)
    requires xs != [] && n == |xs| as real && m == Mean(xs)
    ensures Variance(xs) == (Spread(Init(xs), m) + Square(Last(xs) - m)) / n
  {
  }

  lemma InitWithinSpread(xs: seq<real>, n: real, m: real)
    requires xs != [] && n == |xs| as real && m == Mean(xs)
    ensures Square(m - Last(xs)) <= (n - 1.0) * Spread(Init(xs), m)
  {
    var k, t := |Init(xs)| as real, Sum(Init(xs));
    assert k == n - 1.0;
    SumIsMeanTimes(xs, n);
    LastDeviation(k, n, m, t, Last(xs), Sum(xs));
    DeviationBound(Init(xs), m);
  }

  /** Samuelson's inequality for the last element: it lies within sqrt(n-1)
      population standard deviations of the mean. */
  lemma LastWithinSpread(xs: seq<real>, n: real)
    requires xs != [] && n == |xs| as real
    ensures Square(Last(xs) - Mean(xs)) <= (n - 1.0) * Variance(xs)
  {
    var m := Mean(xs);
    InitWithinSpread(xs, n, m);
    VarianceByLast(xs, n, m);
    SamuelsonStep(n, Last(xs), m, Spread(Init(xs), m), Variance(xs));
  }

  ghost predicate NonNegative(xs: seq<real>) {
    forall i :: 0 <= i < |xs| ==> xs[i] >= 0.0
  }

  lemma ExpandStep(n: real, m: real, sum: real, squares: real, x: real)
    ensures (squares - 2.0 * (m * sum) + n * (m * m)) + Square(x - m)
         == (squares + Square(x - 0.0)) - 2.0 * (m * (sum + x)) + (n + 1.0) * (m * m)
  {
    assert (x - m) * (x - m) == x * x - 2.0 * (m * x) + m * m;
    Distribute(m, sum, x);
    assert (n + 1.0) * (m * m) == n * (m * m) + m * m;
  }

  /** The right-hand side below, with the length as a real. */
  function Expanded(n: real, m: real, sum: real, squares: real): real {
    squares - 2.0 * (m * sum) + n * (m * m)
  }

  /** Spread around `m`, in terms of the sum and the sum of squares. */
  lemma {:induction false} SpreadExpanded(xs: seq<real>, m: real)
    ensures Spread(xs, m) == Expanded(|xs| as real, m, Sum(xs), Spread(xs, 0.0))
  {
    if xs == [] {
    } else {
      var n := |Init(xs)| as real;
      calc {
        Spread(xs, m);
        Spread(Init(xs), m) + Square(Last(xs) - m);
        { SpreadExpanded(Init(xs), m); }
        Expanded(n, m, Sum(Init(xs)), Spread(Init(xs), 0.0)) + Square(Last(xs) - m);
        { ExpandStep(n, m, Sum(Init(xs)), Spread(Init(xs), 0.0), Last(xs)); }
        Expanded(n + 1.0, m, Sum(xs), Spread(xs, 0.0));
      }
    }
  }

  lemma SquareOfSum(s: real, x: real)
    requires s >= 0.0 && x >= 0.0
    ensures Square(s + x) >= Square(s) + Square(x)
  {
    assert s * x >= 0.0;
    assert (s + x) * (s + x) == s * s + 2.0 * (s * x) + x * x;
  }

  lemma {:induction false} SquaresBelowSquareOfSum(xs: seq<real>)
    requires NonNegative(xs)
    ensures Sum(xs) >= 0.0
    ensures Spread(xs, 0.0) <= Square(Sum(xs))
  {
    if xs != [] {
      assert NonNegative(Init(xs));
      SquaresBelowSquareOfSum(Init(xs));
      SquareOfSum(Sum(Init(xs)), Last(xs));
      assert Last(xs) - 0.0 == Last(xs);
    }
  }

  lemma MeanBoundStep(n: real, m: real, s: real, spread: real, squares: real)
    requires n > 0.0 && s == n * m
    requires spread == Expanded(n, m, s, squares)
    requires squares <= Square(s)
    ensures spread / n <= (n - 1.0) * Square(m)
  {
    var mm := m * m;
    assert m * s == n * mm;
    assert s * s == n * (n * mm);
    Distribute(n, n * mm, -mm);
    assert (n - 1.0) * mm == n * mm - mm;
    QuotientBound(spread, n, (n - 1.0) * mm);
  }

  lemma SumIsMeanTimes(xs: seq<real>, n: real)
    requires xs != [] && n == |xs| as real
    ensures n > 0.0 && Sum(xs) == n * Mean(xs)
  {
  }

  lemma SpreadBelowMean(xs: seq<real>, n: real, m: real, s: real)
    requires NonNegative(xs) && n == |xs| as real > 0.0 && s == Sum(xs) && s == n * m
    ensures Spread(xs, m) / n <= (n - 1.0) * Square(m)
  {
    var spread, squares := Spread(xs, m), Spread(xs, 0.0);
    assert spread == Expanded(n, m, s, squares) by { SpreadExpanded(xs, m); }
    assert squares <= Square(s) by { SquaresBelowSquareOfSum(xs); }
    MeanBoundStep(n, m, s, spread, squares);
  }

  /** Non-negative prices cannot vary more than sqrt(n-1) times their mean. */
  lemma VarianceBelowMean(xs: seq<real>, n: real)
    requires xs != [] && NonNegative(xs) && n == |xs| as real
    ensures Variance(xs) <= (n - 1.0) * Square(Mean(xs))
  {
    SumIsMeanTimes(xs, n);
    SpreadBelowMean(xs, n, Mean(xs), Sum(xs));
  }
}
