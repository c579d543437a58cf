/** src/domain/trading/guardrails.py: how many prices the circuit breaker has to be shown. */
module BreakerMemory {
  import opened Models
  import opened Statistics
  import opened Guardrails

  function Ones(n: nat): (ones: seq<real>)
    ensures |ones| == n && Constant(ones, 1.0)
  {
    seq(n, _ => 1.0)
  }

  /** One price `x`, and then `n` times the price 1. */
  function Spike(x: real, n: nat): seq<real> { [x] + Ones(n) }

  lemma SpikeSnoc(x: real, n: nat)
    requires n > 0
    ensures Init(Spike(x, n)) == Spike(x, n - 1) && Last(Spike(x, n)) == 1.0
  {
  }

  /** `n` times `y`, once more. */
  lemma TimesOnceMore(n: nat, y: real)
    requires n > 0
    ensures n as real * y == (n - 1) as real * y + y
  {
  }

  lemma {:induction false} SpikeSum(x: real, n: nat)
    ensures Sum(Spike(x, n)) == x + n as real
  {
    if n > 0 {
      SpikeSnoc(x, n);
      SpikeSum(x, n - 1);
    } else {
      assert Init(Spike(x, 0)) == [];
    }
  }

  lemma {:induction false} SpikeSpread(x: real, n: nat, m: real, y: real)
    requires y == Square(1.0 - m)
    ensures Spread(Spike(x, n), m) == Square(x - m) + n as real * y
  {
    if n > 0 {
      SpikeSnoc(x, n);
      SpikeSpread(x, n - 1, m, y);
      TimesOnceMore(n, y);
    } else {
      assert Init(Spike(x, 0)) == [];
    }
  }

  lemma SpikeAlgebra(t: real, k: real, size: real)
    requires size == k + 1.0
    ensures 1.0 + t * size + k == (1.0 + t) * size
    ensures t * size - t == t * k
    ensures Square(t * k) + k * Square(t) == (k * Square(t)) * size
  {
    assert t * size == t * k + t;
    assert (1.0 + t) * size == size + t * size;
    var v := Square(t);
    SquareOfProduct(t, k);
    assert Square(t * k) == v * (k * k);
    assert (k * v) * size == (k * v) * k + k * v;
    assert (k * v) * k == v * (k * k);
  }

  lemma SpikeMean(t: real, n: nat, x: real)
    requires x == 1.0 + t * (n + 1) as real
    ensures Mean(Spike(x, n)) == 1.0 + t
  {
    var k, size := n as real, (n + 1) as real;
    assert x + k == (1.0 + t) * size by { SpikeAlgebra(t, k, size); }
    SpikeSum(x, n);
    QuotientUnique(x + k, size, 1.0 + t);
  }

  lemma SpikeDistances(t: real, k: real, size: real, x: real, m: real)
    requires size == k + 1.0 && x == 1.0 + t * size && m == 1.0 + t
    ensures Square(x - m) == Square(t * k) && Square(1.0 - m) == Square(t)
  {
    SpikeAlgebra(t, k, size);
    assert x - m == t * k;
    assert 1.0 - m == -t && Square(-t) == Square(t);
  }

  lemma SpikeVariance(t: real, n: nat, x: real, m: real)
    requires x == 1.0 + t * (n + 1) as real && m == 1.0 + t && m == Mean(Spike(x, n))
    ensures Variance(Spike(x, n)) == n as real * Square(t)
  {
    var k, size, y := n as real, (n + 1) as real, Square(t);
    SpikeDistances(t, k, size, x, m);
    assert Square(t * k) + k * y == (k * y) * size by { SpikeAlgebra(t, k, size); }
    SpikeSpread(x, n, m, y);
    QuotientUnique(Square(t * k) + k * y, size, k * y);
  }

  /** High enough, a spike outweighs any threshold whose square is below `k`. */
  lemma SpikeHeight(r: real, k: real) returns (t: real)
    requires 0.0 <= r < k
    ensures t >= 1.0 && k * Square(t) > r * Square(1.0 + t)
  {
    var d := k - r;
    var q := 3.0 * r / d;
    assert q * d == 3.0 * r;
    QuotientNonNegative(3.0 * r, d);
    t := 1.0 + q;
    HighEnough(r, k, d, t, d * t);
  }

  lemma HighEnough(r: real, k: real, d: real, t: real, dt: real)
    requires r >= 0.0 && d == k - r && d > 0.0 && t >= 1.0 && dt == d * t && dt == d + 3.0 * r
    ensures k * Square(t) > r * Square(1.0 + t)
  {
    var rt := r * t;
    assert rt >= r by { ScaleMonotone(r, 1.0, t); }
    assert dt * t > 3.0 * rt by {
      ScaleMonotone(d, 1.0, t);
      assert dt * t == d * t + 3.0 * rt;
    }
    assert d * Square(t) == dt * t;
    assert k * Square(t) == d * Square(t) + r * Square(t);
    assert r * Square(1.0 + t) == r + 2.0 * rt + r * Square(t);
  }

  lemma SpikeIsChoppy(n: nat, maxCv: real) returns (x: real)
    requires maxCv > 0.0 && Square(maxCv) < n as real
    ensures x >= 1.0 && Choppy(Spike(x, n), maxCv)
  {
    SquareNonNegative(maxCv);
    var t := SpikeHeight(Square(maxCv), n as real);
    x := 1.0 + t * (n + 1) as real;
    assert t * (n + 1) as real >= 0.0;
    SpikeMean(t, n, x);
    SpikeVariance(t, n, x, 1.0 + t);
    SquareOfProduct(maxCv, 1.0 + t);
  }

  // ----- the exact condition -----

  ghost predicate SameVerdict(prices: seq<real>, keep: nat, maxDrop: real, maxCv: real, windowSize: nat)
    requires windowSize >= 2
  {
    Calm(LastN(prices, keep), maxDrop, maxCv, windowSize) <==> Calm(prices, maxDrop, maxCv, windowSize)
  }

  /** Variation can never trip the breaker, and a drop cannot either, or is still in view. */
  ghost predicate TooLoose(keep: nat, maxDrop: real, maxCv: real, windowSize: nat) {
    Square(maxCv) >= windowSize as real - 1.0 && (keep >= 4 || maxDrop >= 1.0)
  }

  lemma NeverChoppy(prices: seq<real>, maxCv: real, windowSize: nat)
    requires windowSize >= 2 && prices != [] && NonNegative(prices)
    requires maxCv > 0.0 && Square(maxCv) >= windowSize as real - 1.0
    ensures !Choppy(LastN(prices, windowSize), maxCv)
  {
    var window := LastN(prices, windowSize);
    assert NonNegative(window);
    LooseCvNeverTrips(window, maxCv, |window| as real);
  }

  /** Where variation never trips only the last two prices count. */
  lemma CalmIsNoDrop(prices: seq<real>, maxDrop: real, maxCv: real, windowSize: nat)
    requires windowSize >= 2 && |prices| >= 4 && !Choppy(LastN(prices, windowSize), maxCv)
    ensures Calm(prices, maxDrop, maxCv, windowSize)
            <==> !Drops(prices[|prices| - 2], prices[|prices| - 1], maxDrop)
  {
    var window := LastN(prices, windowSize);
    assert window[|window| - 2] == prices[|prices| - 2] && window[|window| - 1] == prices[|prices| - 1];
  }

  /** Of enough prices, only the last two count. */
  lemma LooseIsNoDrop(prices: seq<real>, maxDrop: real, maxCv: real, windowSize: nat)
    requires windowSize >= 2 && NonNegative(prices) && |prices| >= 4
    requires maxCv > 0.0 && Square(maxCv) >= windowSize as real - 1.0
    ensures Calm(prices, maxDrop, maxCv, windowSize)
            <==> !Drops(prices[|prices| - 2], prices[|prices| - 1], maxDrop)
  {
    NeverChoppy(prices, maxCv, windowSize);
    CalmIsNoDrop(prices, maxDrop, maxCv, windowSize);
  }

  lemma LastTwoAreKept(prices: seq<real>, keep: nat)
    requires |LastN(prices, keep)| >= 2
    ensures var kept := LastN(prices, keep);
            && |prices| >= |kept|
            && kept[|kept| - 2] == prices[|prices| - 2] && kept[|kept| - 1] == prices[|prices| - 1]
  {
  }

  lemma KeptIsNonNegative(prices: seq<real>, keep: nat)
    requires NonNegative(prices)
    ensures NonNegative(LastN(prices, keep))
  {
  }

  lemma LooseBreakerAgrees(prices: seq<real>, keep: nat, maxDrop: real, maxCv: real, windowSize: nat)
    requires windowSize >= 2 && NonNegative(prices) && maxCv > 0.0
    requires TooLoose(keep, maxDrop, maxCv, windowSize)
    ensures SameVerdict(prices, keep, maxDrop, maxCv, windowSize)
  {
    var kept := LastN(prices, keep);
    KeptIsNonNegative(prices, keep);
    if |kept| >= 4 {
      LastTwoAreKept(prices, keep);
      LooseIsNoDrop(prices, maxDrop, maxCv, windowSize);
      LooseIsNoDrop(kept, maxDrop, maxCv, windowSize);
    } else if |prices| >= 4 {
      LooseIsNoDrop(prices, maxDrop, maxCv, windowSize);
      LooseDropNeverTrips(prices[|prices| - 2], prices[|prices| - 1], maxDrop);
    }
  }

  /** A spike that has just left the shorter view, behind three quiet prices. */
  lemma SpikeIsMissed(keep: nat, maxDrop: real, maxCv: real, windowSize: nat) returns (prices: seq<real>)
    requires windowSize >= 2 && maxDrop > 0.0 && maxCv > 0.0
    requires keep < Max(windowSize, 4) && Square(maxCv) < windowSize as real - 1.0
    ensures NonNegative(prices) && !SameVerdict(prices, keep, maxDrop, maxCv, windowSize)
  {
    var n := windowSize - 1;
    var x := SpikeIsChoppy(n, maxCv);
    prices := Ones(3) + Spike(x, n);
    assert LastN(prices, windowSize) == Spike(x, n);
    if keep >= 4 {
      assert LastN(prices, keep) == Ones(keep);
      ConstantIsCalm(Ones(keep), 1.0, maxDrop, maxCv, windowSize);
    }
  }

  /** The exact memory of the breaker: on every history of non-negative prices a view of the
      newest `keep` of them gives the verdict of the whole history if and only if it holds
      max(window_size, 4) prices, or the thresholds are too loose to notice what is missing. */
  lemma BreakerMemoryIff(keep: nat, maxDrop: real, maxCv: real, windowSize: nat)
    requires Breaker(maxDrop, maxCv, windowSize).WellFormed()
    ensures (forall prices :: NonNegative(prices) ==> SameVerdict(prices, keep, maxDrop, maxCv, windowSize))
            <==> keep >= Max(windowSize, 4) || TooLoose(keep, maxDrop, maxCv, windowSize)
  {
    if keep >= Max(windowSize, 4) {
      forall prices: seq<real>
        ensures SameVerdict(prices, keep, maxDrop, maxCv, windowSize)
      {
        CalmLooksBackOnly(prices, keep, maxDrop, maxCv, windowSize);
      }
    } else if TooLoose(keep, maxDrop, maxCv, windowSize) {
      forall prices: seq<real> | NonNegative(prices)
        ensures SameVerdict(prices, keep, maxDrop, maxCv, windowSize)
      {
        LooseBreakerAgrees(prices, keep, maxDrop, maxCv, windowSize);
      }
    } else if Square(maxCv) < windowSize as real - 1.0 {
      var prices := SpikeIsMissed(keep, maxDrop, maxCv, windowSize);
    } else {
      ShortViewBlindsBreaker(keep, maxDrop, maxCv, windowSize);
      assert !SameVerdict([1.0, 1.0, 1.0, 0.0], keep, maxDrop, maxCv, windowSize);
    }
  }
}
