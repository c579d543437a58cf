/** src/domain/trading/guardrails.py: hard limits between a recommendation and an order. */
module Guardrails {
  import opened Models
  import opened Statistics

  /** The frozen snapshot a guard reasons about. */
  datatype GuardContext = GuardContext(
    positions: map<string, int>,
    lastTradeAt: map<string, real>,
    recentPrices: map<string, seq<real>>,
    now: real)

  /** The three guards of the file, and any other object satisfying its protocol. */
  datatype Guard =
    | MaxPosition(maxShares: int)
    | CoolDown(seconds: real)
    | Breaker(maxDrop: real, maxCv: real, windowSize: int)
    | Other(guardId: string, verdict: (TradeSignal, GuardContext) -> bool)
  {
    function Id(): string {
      match this
      case MaxPosition(_) => "max_position_size"
      case CoolDown(_) => "cooldown"
      case Breaker(_, _, _) => "volatility_circuit_breaker"
      case Other(id, _) => id
    }

    /** What the guards' constructors accept. */
    predicate WellFormed() {
      match this
      case MaxPosition(maxShares) => maxShares >= 0
      case CoolDown(seconds) => seconds >= 0.0
      case Breaker(maxDrop, maxCv, windowSize) => maxDrop > 0.0 && maxCv > 0.0 && windowSize >= 2
      case Other(_, _) => true
    }

    predicate Allows(signal: TradeSignal, context: GuardContext)
      requires WellFormed()
    {
      match this
      case MaxPosition(maxShares) =>
        signal.action != Buy || Held(context, signal.symbol) < maxShares
      case CoolDown(seconds) =>
        signal.symbol !in context.lastTradeAt
        || context.now - context.lastTradeAt[signal.symbol] >= seconds
      case Breaker(maxDrop, maxCv, windowSize) =>
        var prices :=
          if signal.symbol in context.recentPrices then context.recentPrices[signal.symbol] else [];
        Calm(prices, maxDrop, maxCv, windowSize)
      case Other(_, verdict) => verdict(signal, context)
    }
  }

  function Held(context: GuardContext, symbol: string): int {
    if symbol in context.positions then context.positions[symbol] else 0
  }

  // ----- the volatility circuit breaker -----

  predicate Drops(prev: real, last: real, maxDrop: real) {
    prev > 0.0 && (prev - last) / prev > maxDrop
  }

  /** `pstdev / mean > maxCv`, squared so that no root is needed; see CvTestIsExact. */
  predicate Choppy(window: seq<real>, maxCv: real)
    requires window != []
  {
    Mean(window) > 0.0 && Variance(window) > Square(maxCv * Mean(window))
  }

  predicate Calm(prices: seq<real>, maxDrop: real, maxCv: real, windowSize: nat)
    requires windowSize >= 2
  {
    |prices| < 4
    || (var window := LastN(prices, windowSize);
        && !Drops(window[|window| - 2], window[|window| - 1], maxDrop)
        && !Choppy(window, maxCv))
  }

  /** The squared test decides the coefficient-of-variation test of the code. */
  lemma CvTestIsExact(window: seq<real>, maxCv: real, sigma: real)
    requires window != [] && maxCv > 0.0 && IsPstdev(sigma, window)
    ensures Choppy(window, maxCv) <==> Mean(window) > 0.0 && sigma / Mean(window) > maxCv
  {
    var mean := Mean(window);
    if mean > 0.0 {
      var limit, cv := maxCv * mean, sigma / mean;
      assert limit > 0.0;
      assert sigma == cv * mean;
      if cv > maxCv {
        assert (cv - maxCv) * mean > 0.0;
        assert cv * mean - maxCv * mean == (cv - maxCv) * mean;
        SquareStrict(limit, sigma);
      } else {
        assert (maxCv - cv) * mean >= 0.0;
        assert maxCv * mean - cv * mean == (maxCv - cv) * mean;
        if sigma < limit { SquareStrict(sigma, limit); }
      }
    }
  }

  /** For non-negative prices the coefficient of variation of n prices is at most
      sqrt(n-1), so a looser threshold can never trip. */
  lemma LooseCvNeverTrips(window: seq<real>, maxCv: real, n: real)
    requires window != [] && NonNegative(window) && n == |window| as real
    requires maxCv > 0.0 && Square(maxCv) >= n - 1.0
    ensures !Choppy(window, maxCv)
  {
    var mean := Mean(window);
    VarianceBelowMean(window, n);
    SquareOfProduct(maxCv, mean);
    SquareNonNegative(mean);
    var gap, mm := Square(maxCv) - (n - 1.0), Square(mean);
    assert gap * mm >= 0.0;
    assert Square(maxCv) * mm - (n - 1.0) * mm == gap * mm;
  }

  /** The single-tick test likewise: non-negative prices never drop by more than 100%. */
  lemma LooseDropNeverTrips(prev: real, last: real, maxDrop: real)
    requires last >= 0.0 && maxDrop >= 1.0
    ensures !Drops(prev, last, maxDrop)
  {
    if prev > 0.0 {
      QuotientBound(prev - last, prev, 1.0);
    }
  }

  /** The breaker's verdict depends only on the newest max(windowSize, 4) prices. */
  lemma CalmLooksBackOnly(prices: seq<real>, keep: nat, maxDrop: real, maxCv: real, windowSize: nat)
    requires windowSize >= 2 && keep >= Max(windowSize, 4)
    ensures Calm(LastN(prices, keep), maxDrop, maxCv, windowSize) <==> Calm(prices, maxDrop, maxCv, windowSize)
  {
    LastNTwice(prices, keep, windowSize);
  }

  /** The prices do not move. */
  ghost predicate Constant(prices: seq<real>, p: real) {
    forall i :: 0 <= i < |prices| ==> prices[i] == p
  }

  lemma ConstantHasNoVariance(window: seq<real>, p: real)
    requires window != [] && Constant(window, p)
    ensures Variance(window) == 0.0
  {
    forall i | 0 <= i < |window|
      ensures Affine(0.0, p, window)[i] == window[i]
    {
      AffineAt(0.0, p, window, i);
    }
    assert Affine(0.0, p, window) == window;
    VarianceAffine(0.0, p, window);
  }

  /** No breaker trips on a price that does not move. */
  lemma ConstantIsCalm(prices: seq<real>, p: real, maxDrop: real, maxCv: real, windowSize: nat)
    requires windowSize >= 2 && maxDrop > 0.0 && Constant(prices, p)
    ensures Calm(prices, maxDrop, maxCv, windowSize)
  {
    if |prices| >= 4 {
      var window := LastN(prices, windowSize);
      assert Constant(window, p);
      ConstantHasNoVariance(window, p);
      SquareNonNegative(maxCv * Mean(window));
    }
  }

  /** Fewer than four visible prices blind it: this history trips every breaker with
      a drop threshold below 100%, but not through a shorter view. */
  lemma ShortViewBlindsBreaker(keep: nat, maxDrop: real, maxCv: real, windowSize: nat)
    requires windowSize >= 2 && keep < 4 && 0.0 < maxDrop < 1.0 && maxCv > 0.0
    ensures !Calm([1.0, 1.0, 1.0, 0.0], maxDrop, maxCv, windowSize)
    ensures Calm(LastN([1.0, 1.0, 1.0, 0.0], keep), maxDrop, maxCv, windowSize)
  {
    var prices := [1.0, 1.0, 1.0, 0.0];
    var window := LastN(prices, windowSize);
    assert window[|window| - 1] == 0.0 && window[|window| - 2] == 1.0;
    assert Drops(1.0, 0.0, maxDrop);
  }

  // ----- the pipeline -----

  /** The verdict, with the original signal kept for audit. */
  datatype GuardedSignal = GuardedSignal(signal: TradeSignal, allowed: bool, blockedBy: Option<string>) {
    /** What the executor acts on. */
    function Effective(): TradeSignal {
      if allowed then signal else signal.(action := Hold)
    }
  }

  ghost predicate AllAllow(guards: seq<Guard>, signal: TradeSignal, context: GuardContext)
    requires WellFormedAll(guards)
  {
    forall g :: g in guards ==> g.Allows(signal, context)
  }

  ghost predicate WellFormedAll(guards: seq<Guard>) {
    forall g :: g in guards ==> g.WellFormed()
  }

  /** Index of the first guard that objects, or |guards|. */
  function FirstObjection(guards: seq<Guard>, signal: TradeSignal, context: GuardContext): (i: nat)
    requires WellFormedAll(guards)
    ensures i <= |guards|
    ensures i < |guards| ==> !guards[i].Allows(signal, context)
    ensures forall j :: 0 <= j < i ==> guards[j].Allows(signal, context)
  {
    if guards == [] then 0
    else if !guards[0].Allows(signal, context) then 0
    else
      assert WellFormedAll(guards[1..]);
      var rest := FirstObjection(guards[1..], signal, context);
      assert forall j :: 1 <= j < 1 + rest ==> guards[j] == guards[1..][j - 1];
      1 + rest
  }

  function Guarded(guards: seq<Guard>, signal: TradeSignal, context: GuardContext): GuardedSignal
    requires WellFormedAll(guards)
  {
    if signal.action == Hold then GuardedSignal(signal, true, None)
    else
      var i := FirstObjection(guards, signal, context);
      if i < |guards| then GuardedSignal(signal, false, Some(guards[i].Id()))
      else GuardedSignal(signal, true, None)
  }

  class GuardrailPipeline {
    var guards: seq<Guard>

    ghost predicate Valid()
      reads this
    {
      WellFormedAll(guards)
    }

    constructor (guards: seq<Guard>)
      requires WellFormedAll(guards)
      ensures Valid() && this.guards == guards
    {
      this.guards := guards;
    }

    method Register(guard: Guard)
      requires Valid() && guard.WellFormed()
      modifies this
      ensures Valid() && guards == old(guards) + [guard]
    {
      guards := guards + [guard];
    }

    /** Fail-fast: the first objection decides, and is the one reported. */
    method Evaluate(signal: TradeSignal, context: GuardContext) returns (r: GuardedSignal)
      requires Valid()
      ensures r == Guarded(guards, signal, context)
    {
      if signal.action == Hold {
        return GuardedSignal(signal, true, None);
      }
      for i := 0 to |guards|
        invariant forall j :: 0 <= j < i ==> guards[j].Allows(signal, context)
      {
        if !guards[i].Allows(signal, context) {
          ghost var first := FirstObjection(guards, signal, context);
          assert first == i;
          return GuardedSignal(signal, false, Some(guards[i].Id()));
        }
      }
      return GuardedSignal(signal, true, None);
    }
  }

  /** What the executor sees of the verdict: a BUY or SELL survives exactly when every
      registered guard allows it, whatever the registration order; otherwise it sees HOLD,
      and everything but the action is preserved. */
  lemma EffectiveMeansAllAllow(guards: seq<Guard>, signal: TradeSignal, context: GuardContext)
    requires WellFormedAll(guards)
    ensures var effective := Guarded(guards, signal, context).Effective();
            && effective == signal.(action := effective.action)
            && (effective.action == signal.action || effective.action == Hold)
            && (effective.action != Hold <==> signal.action != Hold && AllAllow(guards, signal, context))
  {
    var i := FirstObjection(guards, signal, context);
    if i < |guards| {
      assert guards[i] in guards;
    }
  }

  /** Only the reported guard depends on the order of registration. */
  lemma VerdictIgnoresOrder(some: seq<Guard>, others: seq<Guard>, signal: TradeSignal, context: GuardContext)
    requires WellFormedAll(some) && WellFormedAll(others)
    requires forall g :: g in some <==> g in others
    ensures Guarded(some, signal, context).Effective() == Guarded(others, signal, context).Effective()
  {
    EffectiveMeansAllAllow(some, signal, context);
    EffectiveMeansAllAllow(others, signal, context);
  }
}
