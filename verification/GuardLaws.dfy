/** What the circuit breaker and the guard pipeline decide, in terms of prices and thresholds. */
module GuardLaws {
  import opened Models
  import opened Statistics
  import opened Guardrails

  lemma RatioAbove(x: real, y: real, d: real)
    requires y > 0.0
    ensures x / y > d <==> x > d * y
  {
    var q := x / y;
    assert q * y == x;
    if q > d { ProductMonotone(y, d, q); } else { ScaleMonotone(y, q, d); }
  }

  /** The newest price lies more than the fraction `d` below the one before. */
  ghost predicate Fell(prices: seq<real>, d: real)
    requires |prices| >= 2
  {
    var prev, last := prices[|prices| - 2], prices[|prices| - 1];
    prev > 0.0 && last < (1.0 - d) * prev
  }

  lemma FallIsDrop(prev: real, last: real, d: real)
    ensures Drops(prev, last, d) <==> prev > 0.0 && last < (1.0 - d) * prev
  {
    if prev > 0.0 {
      RatioAbove(prev - last, prev, d);
      assert (1.0 - d) * prev == prev - d * prev;
    }
  }

  lemma WindowEndsAlike(prices: seq<real>, windowSize: nat)
    requires |prices| >= 2 && windowSize >= 2
    ensures var window := LastN(prices, windowSize);
            && |window| >= 2
            && window[|window| - 2] == prices[|prices| - 2] && window[|window| - 1] == prices[|prices| - 1]
  {
  }

  /** The standard deviation of the newest `windowSize` prices exceeds the fraction `cv` of
      their mean. */
  ghost predicate Scattered(prices: seq<real>, cv: real, windowSize: nat, sigma: real)
    requires prices != [] && windowSize > 0
  {
    var window := prices[|prices| - Min(windowSize, |prices|)..];
    Sum(window) / |window| as real > 0.0 && sigma > cv * (Sum(window) / |window| as real)
  }

  lemma ChoppyMeans(window: seq<real>, cv: real, sigma: real)
    requires window != [] && cv > 0.0 && IsPstdev(sigma, window)
    ensures Choppy(window, cv) <==> Mean(window) > 0.0 && sigma > cv * Mean(window)
  {
    CvTestIsExact(window, cv, sigma);
    if Mean(window) > 0.0 { RatioAbove(sigma, Mean(window), cv); }
  }

  lemma NewestPrices(prices: seq<real>, windowSize: nat)
    ensures LastN(prices, windowSize) == prices[|prices| - Min(windowSize, |prices|)..]
  {
  }

  lemma ScatterIsChoppy(prices: seq<real>, cv: real, windowSize: nat, sigma: real)
    requires prices != [] && windowSize > 0 && cv > 0.0
    requires IsPstdev(sigma, prices[|prices| - Min(windowSize, |prices|)..])
    ensures Choppy(LastN(prices, windowSize), cv) <==> Scattered(prices, cv, windowSize, sigma)
  {
    NewestPrices(prices, windowSize);
    ChoppyMeans(prices[|prices| - Min(windowSize, |prices|)..], cv, sigma);
  }

  /** The breaker refuses exactly if it is shown at least four prices of the symbol, and the newest
      fell by more than the drop threshold, or they scatter by more than the CV threshold. */
  lemma BreakerRefusesIff(
    maxDrop: real, maxCv: real, windowSize: nat, signal: TradeSignal, context: GuardContext, sigma: real)
    requires Breaker(maxDrop, maxCv, windowSize).WellFormed() && signal.symbol in context.recentPrices
    requires var prices := context.recentPrices[signal.symbol];
             prices != [] && IsPstdev(sigma, prices[|prices| - Min(windowSize, |prices|)..])
    ensures var prices := context.recentPrices[signal.symbol];
            !Breaker(maxDrop, maxCv, windowSize).Allows(signal, context)
            <==> |prices| >= 4 && (Fell(prices, maxDrop) || Scattered(prices, maxCv, windowSize, sigma))
  {
    var prices := context.recentPrices[signal.symbol];
    if |prices| >= 4 {
      WindowEndsAlike(prices, windowSize);
      FallIsDrop(prices[|prices| - 2], prices[|prices| - 1], maxDrop);
      ScatterIsChoppy(prices, maxCv, windowSize, sigma);
    }
  }

  /** Of a symbol it is shown no price of, or fewer than four, it allows everything. */
  lemma BreakerDefers(maxDrop: real, maxCv: real, windowSize: nat, signal: TradeSignal, context: GuardContext)
    requires Breaker(maxDrop, maxCv, windowSize).WellFormed()
    requires signal.symbol in context.recentPrices ==> |context.recentPrices[signal.symbol]| < 4
    ensures Breaker(maxDrop, maxCv, windowSize).Allows(signal, context)
  {
  }

  /** A fall that is refused stays refused when the newest price is lower still. */
  lemma LowerIsNoBetter(
    maxDrop: real, maxCv: real, windowSize: nat, signal: TradeSignal, context: GuardContext,
    before: seq<real>, last: real, lower: real)
    requires Breaker(maxDrop, maxCv, windowSize).WellFormed() && |before| >= 3 && lower <= last
    requires Fell(before + [last], maxDrop)
    ensures !Breaker(maxDrop, maxCv, windowSize).Allows(
              signal, context.(recentPrices := map[signal.symbol := before + [lower]]))
  {
    var prices := before + [lower];
    WindowEndsAlike(prices, windowSize);
    FallIsDrop(prices[|prices| - 2], lower, maxDrop);
  }

  /** A refusal names the first guard, in the order of registration, that objects; the others
      before it all allow; and an approval names none. */
  lemma BlockerIsNamed(guards: seq<Guard>, signal: TradeSignal, context: GuardContext)
    requires WellFormedAll(guards)
    ensures var r := Guarded(guards, signal, context);
            && r.signal == signal
            && (r.allowed <==> signal.action == Hold || AllAllow(guards, signal, context))
            && (r.allowed <==> r.blockedBy == None)
            && (!r.allowed ==>
                  exists i :: 0 <= i < |guards| && !guards[i].Allows(signal, context)
                    && (forall j :: 0 <= j < i ==> guards[j].Allows(signal, context))
                    && r.blockedBy == Some(guards[i].Id()))
  {
    var i := FirstObjection(guards, signal, context);
    if i < |guards| {
      assert guards[i] in guards;
      assert !guards[i].Allows(signal, context);
    }
  }
}
