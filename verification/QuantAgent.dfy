/** src/domain/trading/quant_agent.py: RSI over the newest prices, and the vote it yields. */
module QuantAgent {
  import opened Models
  import opened Statistics

  // ----- gains and losses of a window -----

  function MoveAt(xs: seq<real>, i: nat): real
    requires 1 <= i < |xs|
  {
    xs[i] - xs[i - 1]
  }

  function Change(xs: seq<real>): real
    requires |xs| >= 2
  {
    MoveAt(xs, |xs| - 1)
  }

  function Up(change: real): real { if change > 0.0 then change else 0.0 }

  function Gains(xs: seq<real>): (g: real)
    ensures g >= 0.0
  {
    if |xs| < 2 then 0.0 else Gains(Init(xs)) + Up(Change(xs))
  }

  function Losses(xs: seq<real>): (l: real)
    ensures l >= 0.0
  {
    if |xs| < 2 then 0.0 else Losses(Init(xs)) + Up(-Change(xs))
  }

  /** The share of the total movement that was upward, in percent; 50 without movement. */
  function Strength(gains: real, losses: real): real
    requires gains >= 0.0 && losses >= 0.0
  {
    if gains + losses == 0.0 then 50.0 else 100.0 * gains / (gains + losses)
  }

  function Rsi(window: seq<real>): real {
    Strength(Gains(window), Losses(window))
  }

  lemma WilderForm(gains: real, losses: real, n: real)
    requires gains > 0.0 && losses > 0.0 && n > 0.0
    ensures losses / n != 0.0
    ensures var rs := (gains / n) / (losses / n);
            1.0 + rs != 0.0 && 100.0 - 100.0 / (1.0 + rs) == Strength(gains, losses)
  {
    var rs, q := (gains / n) / (losses / n), losses / n;
    assert losses == q * n && q > 0.0;
    assert gains == (gains / n) * n;
    assert gains / n == rs * q;
    assert gains == rs * losses by { assert (rs * q) * n == rs * (q * n); }
    WilderRatio(gains, losses, rs);
  }

  lemma WilderRatio(gains: real, losses: real, rs: real)
    requires gains > 0.0 && losses > 0.0 && gains == rs * losses
    ensures 1.0 + rs > 0.0
    ensures 100.0 - 100.0 / (1.0 + rs) == Strength(gains, losses)
  {
    var total := gains + losses;
    if rs <= 0.0 {
      ProductNonNegative(-rs, losses);
    }
    var t := 100.0 / (1.0 + rs);
    assert total == (1.0 + rs) * losses;
    assert t * (1.0 + rs) == 100.0;
    assert t * total == 100.0 * losses by { assert t * ((1.0 + rs) * losses) == (t * (1.0 + rs)) * losses; }
    assert (100.0 - t) * total == 100.0 * gains by { assert (100.0 - t) * total == 100.0 * total - t * total; }
    QuotientUnique(100.0 * gains, total, 100.0 - t);
  }

  lemma ZeroQuotient(x: real, n: real)
    requires n > 0.0
    ensures x / n == 0.0 <==> x == 0.0
  {
    var q := x / n;
    assert x == q * n;
  }

  /** What follows the loop, case by case. */
  lemma CascadeIsStrength(gains: real, losses: real, n: real)
    requires gains >= 0.0 && losses >= 0.0 && n > 0.0
    ensures gains / n == 0.0 && losses / n == 0.0 ==> Strength(gains, losses) == 50.0
    ensures gains / n != 0.0 && losses / n == 0.0 ==> Strength(gains, losses) == 100.0
    ensures gains / n == 0.0 && losses / n != 0.0 ==> Strength(gains, losses) == 0.0
    ensures gains / n != 0.0 && losses / n != 0.0 ==>
              var rs := (gains / n) / (losses / n);
              1.0 + rs != 0.0 && 100.0 - 100.0 / (1.0 + rs) == Strength(gains, losses)
  {
    ZeroQuotient(gains, n);
    ZeroQuotient(losses, n);
    if gains > 0.0 && losses > 0.0 {
      WilderForm(gains, losses, n);
    } else if gains > 0.0 {
      QuotientUnique(100.0 * gains, gains, 100.0);
    } else if losses > 0.0 {
      ZeroQuotient(0.0, losses);
    }
  }

  /** The loop of `_compute_rsi`: averages, the three special cases and Wilder's formula. */
  method ComputeRsi(prices: seq<real>, period: nat) returns (rsi: real)
    requires period >= 2
    ensures rsi == Rsi(LastN(prices, period + 1))
  {
    var window := LastN(prices, period + 1);
    var gains, losses := 0.0, 0.0;
    var i := 1;
    while i < |window|
      invariant 1 <= i <= Max(1, |window|)
      invariant gains == Gains(window[..Min(i, |window|)]) && losses == Losses(window[..Min(i, |window|)])
    {
      assert window[..i + 1][..i] == window[..i];
      var change := window[i] - window[i - 1];
      assert change == Change(window[..i + 1]);
      if change > 0.0 {
        gains := gains + change;
      } else {
        losses := losses - change;
      }
      i := i + 1;
    }
    assert window[..|window|] == window;
    assert gains == Gains(window) && losses == Losses(window);

    var avgGain, avgLoss := gains / period as real, losses / period as real;
    CascadeIsStrength(gains, losses, period as real);
    if avgGain == 0.0 && avgLoss == 0.0 {
      return 50.0;
    }
    if avgLoss == 0.0 {
      return 100.0;
    }
    if avgGain == 0.0 {
      return 0.0;
    }
    var rs := avgGain / avgLoss;
    rsi := 100.0 - 100.0 / (1.0 + rs);
  }

  // ----- laws of the index -----

  /** Gains and losses telescope to the net move of the window. */
  lemma {:induction false} NetMove(xs: seq<real>)
    requires xs != []
    ensures Gains(xs) - Losses(xs) == xs[|xs| - 1] - xs[0]
  {
    if |xs| > 1 {
      NetMove(Init(xs));
    }
  }

  lemma QuotientSum(x: real, y: real, n: real)
    requires n > 0.0
    ensures x / n + y / n == (x + y) / n
  {
    var p, q := x / n, y / n;
    assert x == p * n && y == q * n;
    Distribute(n, p, q);
    QuotientUnique(x + y, n, p + q);
  }

  lemma StrengthRange(gains: real, losses: real)
    requires gains >= 0.0 && losses >= 0.0
    ensures 0.0 <= Strength(gains, losses) <= 100.0
    ensures Strength(gains, losses) + Strength(losses, gains) == 100.0
  {
    var total := gains + losses;
    if total != 0.0 {
      QuotientNonNegative(100.0 * gains, total);
      QuotientNonNegative(100.0 * losses, total);
      QuotientSum(100.0 * gains, 100.0 * losses, total);
      QuotientUnique(100.0 * total, total, 100.0);
    }
  }

  /** The index always lies between 0 and 100. */
  lemma RsiRange(window: seq<real>)
    ensures 0.0 <= Rsi(window) <= 100.0
  {
    StrengthRange(Gains(window), Losses(window));
  }

  lemma ChangeAffine(a: real, b: real, xs: seq<real>)
    requires |xs| >= 2
    ensures Init(Affine(a, b, xs)) == Affine(a, b, Init(xs))
    ensures Change(Affine(a, b, xs)) == a * Change(xs)
  {
    InitAffine(a, b, xs);
    AffineAt(a, b, xs, |xs| - 2);
    DeviationScales(a, b, xs[|xs| - 1], xs[|xs| - 2]);
  }

  /** Adding changes and then scaling is scaling and then adding; moves keep their sign. */
  ghost predicate ScalesAt(f: real -> real, x: real, y: real) {
    f(x + y) == f(x) + f(y) && (y > 0.0 <==> f(y) > 0.0) && f(-y) == -f(y) && f(0.0) == 0.0
  }

  /** `f` behaves like scaling by a positive factor. */
  ghost predicate Rescales(f: real -> real) {
    forall x: real, y: real :: ScalesAt(f, x, y)
  }

  /** The moves of `ys` are those of `xs`, rescaled. */
  ghost predicate MovesLike(f: real -> real, xs: seq<real>, ys: seq<real>) {
    |xs| == |ys| && forall i :: 1 <= i < |xs| ==> MoveAt(ys, i) == f(MoveAt(xs, i))
  }

  lemma UpRescales(f: real -> real, total: real, change: real)
    requires Rescales(f)
    ensures f(total) + Up(f(change)) == f(total + Up(change))
    ensures f(-change) == -f(change)
  {
    assert ScalesAt(f, total, change);
    assert total + 0.0 == total;
  }

  lemma {:induction false} MovesRescale(f: real -> real, xs: seq<real>, ys: seq<real>)
    requires Rescales(f) && MovesLike(f, xs, ys)
    ensures Gains(ys) == f(Gains(xs)) && Losses(ys) == f(Losses(xs))
  {
    if |xs| < 2 {
      assert ScalesAt(f, 0.0, 0.0);
    } else {
      forall i | 1 <= i < |Init(xs)|
        ensures MoveAt(Init(ys), i) == f(MoveAt(Init(xs), i))
      {
        assert MoveAt(ys, i) == f(MoveAt(xs, i));
      }
      MovesRescale(f, Init(xs), Init(ys));
      assert Change(ys) == f(Change(xs));
      UpRescales(f, Gains(Init(xs)), Change(xs));
      UpRescales(f, Losses(Init(xs)), -Change(xs));
    }
  }

  lemma PositiveFactorRescales(a: real)
    requires a > 0.0
    ensures Rescales(x => a * x)
  {
    var f: real -> real := x => a * x;
    forall x: real, y: real
      ensures ScalesAt(f, x, y)
    {
      Distribute(a, x, y);
      if y > 0.0 { ProductMonotone(a, 0.0, y); } else { ProductNonNegative(a, -y); }
    }
  }

  lemma AffineMoves(a: real, b: real, xs: seq<real>)
    ensures MovesLike(x => a * x, xs, Affine(a, b, xs))
  {
    forall i | 1 <= i < |xs|
      ensures MoveAt(Affine(a, b, xs), i) == a * MoveAt(xs, i)
    {
      AffineAt(a, b, xs, i);
      AffineAt(a, b, xs, i - 1);
      DeviationScales(a, b, xs[i], xs[i - 1]);
    }
  }

  lemma StrengthScales(a: real, gains: real, losses: real, g: real, l: real)
    requires a > 0.0 && gains >= 0.0 && losses >= 0.0 && g >= 0.0 && l >= 0.0
    requires g == a * gains && l == a * losses
    ensures Strength(g, l) == Strength(gains, losses)
  {
    Distribute(a, gains, losses);
    var total := gains + losses;
    if total > 0.0 {
      ProductMonotone(a, 0.0, total);
      var q := 100.0 * gains / total;
      assert q * total == 100.0 * gains;
      assert q * (a * total) == 100.0 * g by { assert q * (a * total) == a * (q * total); }
      QuotientUnique(100.0 * g, g + l, q);
    }
  }

  lemma RescaledRsi(f: real -> real, xs: seq<real>, ys: seq<real>)
    requires Rescales(f) && MovesLike(f, xs, ys)
    requires forall g: real, l: real :: g >= 0.0 && l >= 0.0 ==> KeepsStrength(f, g, l)
    ensures Rsi(ys) == Rsi(xs)
  {
    MovesRescale(f, xs, ys);
    assert KeepsStrength(f, Gains(xs), Losses(xs));
  }

  ghost predicate KeepsStrength(f: real -> real, g: real, l: real)
    requires g >= 0.0 && l >= 0.0
  {
    f(g) >= 0.0 && f(l) >= 0.0 && Strength(f(g), f(l)) == Strength(g, l)
  }

  /** The index does not depend on the currency or the origin of the prices. */
  lemma RsiAffineInvariant(a: real, b: real, window: seq<real>)
    requires a > 0.0
    ensures Rsi(Affine(a, b, window)) == Rsi(window)
  {
    var f: real -> real := x => a * x;
    PositiveFactorRescales(a);
    AffineMoves(a, b, window);
    forall g: real, l: real | g >= 0.0 && l >= 0.0
      ensures KeepsStrength(f, g, l)
    {
      ProductNonNegative(a, g);
      ProductNonNegative(a, l);
      StrengthScales(a, g, l, a * g, a * l);
    }
    RescaledRsi(f, window, Affine(a, b, window));
  }

  lemma {:induction false} MirrorSwaps(b: real, xs: seq<real>)
    ensures Gains(Affine(-1.0, b, xs)) == Losses(xs) && Losses(Affine(-1.0, b, xs)) == Gains(xs)
  {
    if |xs| >= 2 {
      MirrorSwaps(b, Init(xs));
      ChangeAffine(-1.0, b, xs);
    }
  }

  /** Turning the price chart upside down turns the index into its complement. */
  lemma RsiMirror(b: real, window: seq<real>)
    ensures Rsi(Affine(-1.0, b, window)) == 100.0 - Rsi(window)
  {
    MirrorSwaps(b, window);
    StrengthRange(Gains(window), Losses(window));
  }

  // ----- the vote -----

  datatype Settings = Settings(agentId: string, period: nat, oversold: real, overbought: real) {
    /** What the constructor accepts. */
    predicate WellFormed() {
      period >= 2 && 0.0 < oversold < overbought < 100.0
    }
  }

  function Clip(x: real): real {
    if x > 1.0 then 1.0 else if x < 0.0 then 0.0 else x
  }

  /** Action and raw confidence for an index value. */
  function Verdict(s: Settings, rsi: real): (Action, real)
    requires s.WellFormed()
  {
    if rsi <= s.oversold then (Buy, (s.oversold - rsi) / s.oversold)
    else if rsi >= s.overbought then (Sell, (rsi - s.overbought) / (100.0 - s.overbought))
    else (Hold, 0.0)
  }

  /** The vote for an index value. */
  function VoteAt(s: Settings, symbol: string, rsi: real): AgentSignal
    requires s.WellFormed()
  {
    var (action, confidence) := Verdict(s, rsi);
    AgentSignal(s.agentId, symbol, action, Clip(confidence))
  }

  /** `evaluate` on the prices the context returned. */
  function Evaluate(s: Settings, symbol: string, prices: seq<real>): AgentSignal
    requires s.WellFormed()
  {
    if |prices| < s.period + 1 then AgentSignal(s.agentId, symbol, Hold, 0.0)
    else VoteAt(s, symbol, Rsi(LastN(prices, s.period + 1)))
  }

  lemma VerdictRange(s: Settings, rsi: real)
    requires s.WellFormed() && 0.0 <= rsi <= 100.0
    ensures 0.0 <= Verdict(s, rsi).1 <= 1.0
  {
    if rsi <= s.oversold {
      QuotientNonNegative(s.oversold - rsi, s.oversold);
      QuotientBound(s.oversold - rsi, s.oversold, 1.0);
    } else if rsi >= s.overbought {
      QuotientNonNegative(rsi - s.overbought, 100.0 - s.overbought);
      QuotientBound(rsi - s.overbought, 100.0 - s.overbought, 1.0);
    }
  }

  /** `_clip` never changes a value, so the vote is a valid signal with the raw confidence. */
  lemma ClipIsIdle(s: Settings, symbol: string, prices: seq<real>)
    requires s.WellFormed()
    ensures 0.0 <= Evaluate(s, symbol, prices).confidence <= 1.0
    ensures |prices| > s.period ==>
              Evaluate(s, symbol, prices).confidence == Verdict(s, Rsi(LastN(prices, s.period + 1))).1
  {
    if |prices| > s.period {
      var window := LastN(prices, s.period + 1);
      RsiRange(window);
      VerdictRange(s, Rsi(window));
    }
  }

  lemma VerdictMirrors(s: Settings, rsi: real)
    requires s.WellFormed() && s.oversold + s.overbought == 100.0
    ensures Verdict(s, 100.0 - rsi) == (Verdict(s, rsi).0.Opposite(), Verdict(s, rsi).1)
  {
  }

  lemma LastNAffine(a: real, b: real, prices: seq<real>, n: nat)
    ensures LastN(Affine(a, b, prices), n) == Affine(a, b, LastN(prices, n))
  {
    var kept := LastN(prices, n);
    var xs, ys := LastN(Affine(a, b, prices), n), Affine(a, b, kept);
    var skip := |prices| - |kept|;
    forall i | 0 <= i < |xs|
      ensures xs[i] == ys[i]
    {
      AffineAt(a, b, prices, skip + i);
      AffineAt(a, b, kept, i);
    }
  }

  lemma VoteAtMirrors(s: Settings, symbol: string, rsi: real)
    requires s.WellFormed() && s.oversold + s.overbought == 100.0
    ensures VoteAt(s, symbol, 100.0 - rsi)
         == VoteAt(s, symbol, rsi).(action := VoteAt(s, symbol, rsi).action.Opposite())
  {
    VerdictMirrors(s, rsi);
  }

  /** In the newest `n` prices the one series has the complementary index of the other. */
  ghost predicate Complementary(some: seq<real>, others: seq<real>, n: nat) {
    |some| == |others| && Rsi(LastN(others, n)) == 100.0 - Rsi(LastN(some, n))
  }

  lemma MirrorIsComplementary(b: real, prices: seq<real>, n: nat)
    ensures Complementary(prices, Affine(-1.0, b, prices), n)
  {
    LastNAffine(-1.0, b, prices, n);
    RsiMirror(b, LastN(prices, n));
  }

  lemma LongVote(s: Settings, symbol: string, prices: seq<real>)
    requires s.WellFormed()
    ensures |prices| > s.period ==> Evaluate(s, symbol, prices) == VoteAt(s, symbol, Rsi(LastN(prices, s.period + 1)))
    ensures |prices| <= s.period ==> Evaluate(s, symbol, prices) == AgentSignal(s.agentId, symbol, Hold, 0.0)
  {
  }

  lemma OppositeVotes(s: Settings, symbol: string, some: seq<real>, others: seq<real>)
    requires s.WellFormed() && s.oversold + s.overbought == 100.0 && Complementary(some, others, s.period + 1)
    ensures Evaluate(s, symbol, others)
         == Evaluate(s, symbol, some).(action := Evaluate(s, symbol, some).action.Opposite())
  {
    LongVote(s, symbol, some);
    LongVote(s, symbol, others);
    VoteAtMirrors(s, symbol, Rsi(LastN(some, s.period + 1)));
  }

  /** With symmetric thresholds, mirrored prices get the opposite vote with the same confidence. */
  lemma VoteMirrors(s: Settings, symbol: string, b: real, prices: seq<real>)
    requires s.WellFormed() && s.oversold + s.overbought == 100.0
    ensures var vote := Evaluate(s, symbol, prices);
            Evaluate(s, symbol, Affine(-1.0, b, prices)) == vote.(action := vote.action.Opposite())
  {
    MirrorIsComplementary(b, prices, s.period + 1);
    OppositeVotes(s, symbol, prices, Affine(-1.0, b, prices));
  }

  /** Re-quoting every price in another currency never changes the vote. */
  lemma VoteAffineInvariant(s: Settings, symbol: string, a: real, b: real, prices: seq<real>)
    requires s.WellFormed() && a > 0.0
    ensures Evaluate(s, symbol, Affine(a, b, prices)) == Evaluate(s, symbol, prices)
  {
    if |prices| > s.period {
      LastNAffine(a, b, prices, s.period + 1);
      RsiAffineInvariant(a, b, LastN(prices, s.period + 1));
    }
  }

  // ----- what the vote says -----

  /** All movement, up or down. */
  function Movement(xs: seq<real>): real {
    if |xs| < 2 then 0.0 else Movement(Init(xs)) + Abs(xs[|xs| - 1] - xs[|xs| - 2])
  }

  /** With the net move, this determines gains and losses. */
  lemma {:induction false} GainsAndLosses(xs: seq<real>)
    ensures Gains(xs) + Losses(xs) == Movement(xs)
  {
    if |xs| >= 2 { GainsAndLosses(Init(xs)); }
  }

  /** 100 times the gains, in relation to all movement; 50 without any. */
  ghost predicate IsRsi(rsi: real, gains: real, losses: real) {
    if gains + losses > 0.0 then rsi * (gains + losses) == 100.0 * gains else rsi == 50.0
  }

  /** What a vote means: oversold is a BUY, overbought a SELL, in proportion to how far. */
  ghost predicate IsVote(s: Settings, vote: AgentSignal, rsi: real) {
    && (vote.action == Buy <==> rsi <= s.oversold)
    && (vote.action == Sell <==> rsi >= s.overbought)
    && (vote.action == Buy ==> vote.confidence * s.oversold == s.oversold - rsi)
    && (vote.action == Sell ==> vote.confidence * (100.0 - s.overbought) == rsi - s.overbought)
    && (vote.action == Hold ==> vote.confidence == 0.0)
  }

  lemma RsiIsRsi(window: seq<real>)
    ensures IsRsi(Rsi(window), Gains(window), Losses(window))
  {
    var g, l := Gains(window), Losses(window);
    if g + l > 0.0 { QuotientGives(100.0 * g, g + l); }
  }

  lemma QuotientGives(x: real, n: real)
    requires n > 0.0
    ensures (x / n) * n == x
  {
  }

  lemma VoteAtIsVote(s: Settings, symbol: string, rsi: real)
    requires s.WellFormed() && 0.0 <= rsi <= 100.0
    ensures IsVote(s, VoteAt(s, symbol, rsi), rsi)
  {
    VerdictRange(s, rsi);
    QuotientGives(s.oversold - rsi, s.oversold);
    QuotientGives(rsi - s.overbought, 100.0 - s.overbought);
  }

  lemma NewestWindow(s: Settings, symbol: string, prices: seq<real>)
    requires s.WellFormed() && |prices| > s.period
    ensures Evaluate(s, symbol, prices) == VoteAt(s, symbol, Rsi(prices[|prices| - s.period - 1..]))
  {
    assert LastN(prices, s.period + 1) == prices[|prices| - s.period - 1..];
  }

  /** A vote taken on this window. */
  ghost predicate VotedOn(s: Settings, vote: AgentSignal, window: seq<real>, rsi: real) {
    IsRsi(rsi, Gains(window), Losses(window)) && IsVote(s, vote, rsi)
  }

  lemma WindowVote(s: Settings, symbol: string, window: seq<real>)
    requires s.WellFormed()
    ensures VotedOn(s, VoteAt(s, symbol, Rsi(window)), window, Rsi(window))
  {
    RsiIsRsi(window);
    RsiRange(window);
    VoteAtIsVote(s, symbol, Rsi(window));
  }

  /** The vote on the newest period+1 prices, for the agent and the symbol asked for; without
      that many it is a HOLD. */
  lemma VoteMeans(s: Settings, symbol: string, prices: seq<real>) returns (rsi: real)
    requires s.WellFormed()
    ensures var vote := Evaluate(s, symbol, prices);
            && vote.agentId == s.agentId && vote.symbol == symbol
            && (|prices| <= s.period ==> vote.action == Hold && vote.confidence == 0.0)
            && (|prices| > s.period ==> VotedOn(s, vote, prices[|prices| - s.period - 1..], rsi))
  {
    rsi := 50.0;
    if |prices| > s.period {
      rsi := Rsi(prices[|prices| - s.period - 1..]);
      NewestWindow(s, symbol, prices);
      WindowVote(s, symbol, prices[|prices| - s.period - 1..]);
    }
  }

  lemma RsiAgainst(rsi: real, gains: real, losses: real, level: real)
    requires gains + losses > 0.0 && IsRsi(rsi, gains, losses)
    ensures rsi <= level <==> 100.0 * gains <= level * (gains + losses)
    ensures rsi >= level <==> 100.0 * gains >= level * (gains + losses)
  {
    var m := gains + losses;
    if rsi <= level { ScaleMonotone(m, rsi, level); } else { ProductMonotone(m, level, rsi); }
    if rsi >= level { ScaleMonotone(m, level, rsi); } else { ProductMonotone(m, rsi, level); }
  }

  /** With movement it is a BUY exactly if the gains are at most the oversold share of it, and a
      SELL exactly if they are at least the overbought one. */
  ghost predicate FollowsGains(s: Settings, vote: AgentSignal, gains: real, moved: real) {
    && (vote.action == Buy <==> 100.0 * gains <= s.oversold * moved)
    && (vote.action == Sell <==> 100.0 * gains >= s.overbought * moved)
  }

  lemma VoteAgainst(s: Settings, vote: AgentSignal, rsi: real, gains: real, losses: real, moved: real)
    requires moved == gains + losses && moved > 0.0 && IsRsi(rsi, gains, losses) && IsVote(s, vote, rsi)
    ensures FollowsGains(s, vote, gains, moved)
  {
    RsiAgainst(rsi, gains, losses, s.oversold);
    RsiAgainst(rsi, gains, losses, s.overbought);
  }

  lemma WindowFollows(s: Settings, vote: AgentSignal, window: seq<real>, rsi: real)
    requires VotedOn(s, vote, window, rsi) && Movement(window) > 0.0
    ensures FollowsGains(s, vote, Gains(window), Movement(window))
  {
    GainsAndLosses(window);
    VoteAgainst(s, vote, rsi, Gains(window), Losses(window), Movement(window));
  }

  /** In terms of gains and losses alone. */
  lemma VoteFollowsGains(s: Settings, symbol: string, prices: seq<real>)
    requires s.WellFormed() && |prices| > s.period
    requires Movement(prices[|prices| - s.period - 1..]) > 0.0
    ensures var window := prices[|prices| - s.period - 1..];
            FollowsGains(s, Evaluate(s, symbol, prices), Gains(window), Movement(window))
  {
    var rsi := VoteMeans(s, symbol, prices);
    WindowFollows(s, Evaluate(s, symbol, prices), prices[|prices| - s.period - 1..], rsi);
  }

  ghost predicate Falls(xs: seq<real>, i: nat)
    requires 1 <= i < |xs|
  {
    xs[i] < xs[i - 1]
  }

  ghost predicate Falling(xs: seq<real>) {
    forall i :: 1 <= i < |xs| ==> Falls(xs, i)
  }

  lemma {:induction false} FallingHasNoGains(xs: seq<real>)
    requires Falling(xs)
    ensures Gains(xs) == 0.0 && (|xs| >= 2 ==> Losses(xs) > 0.0)
  {
    if |xs| >= 2 {
      assert Falls(xs, |xs| - 1);
      forall i | 1 <= i < |Init(xs)|
        ensures Falls(Init(xs), i)
      {
        assert Falls(xs, i);
      }
      FallingHasNoGains(Init(xs));
    }
  }

  lemma OneSidedRsi(rsi: real, gains: real, losses: real)
    requires IsRsi(rsi, gains, losses)
    ensures gains == 0.0 && losses > 0.0 ==> rsi == 0.0
    ensures losses == 0.0 && gains > 0.0 ==> rsi == 100.0
  {
    var m := gains + losses;
    if gains == 0.0 && losses > 0.0 { SameFactor(rsi, 0.0, m); }
    if losses == 0.0 && gains > 0.0 { SameFactor(rsi, 100.0, m); }
  }

  lemma SameFactor(x: real, y: real, n: real)
    requires n > 0.0 && x * n == y * n
    ensures x == y
  {
  }

  lemma FullAt(c: real, n: real, x: real)
    requires n > 0.0 && c * n == x && x == n
    ensures c == 1.0
  {
  }

  /** At either end of the scale the vote has full confidence. */
  lemma FullConfidence(s: Settings, vote: AgentSignal, rsi: real)
    requires s.WellFormed() && IsVote(s, vote, rsi)
    ensures rsi == 0.0 ==> vote.action == Buy && vote.confidence == 1.0
    ensures rsi == 100.0 ==> vote.action == Sell && vote.confidence == 1.0
  {
    if rsi == 0.0 {
      assert vote.action == Buy;
      FullAt(vote.confidence, s.oversold, s.oversold - rsi);
    }
    if rsi == 100.0 {
      assert vote.action == Sell;
      FullAt(vote.confidence, 100.0 - s.overbought, rsi - s.overbought);
    }
  }

  /** A window of which one of gains and losses is nothing. */
  lemma OneSidedVote(s: Settings, vote: AgentSignal, window: seq<real>, rsi: real)
    requires s.WellFormed() && VotedOn(s, vote, window, rsi)
    ensures Gains(window) == 0.0 && Losses(window) > 0.0 ==> vote.action == Buy && vote.confidence == 1.0
    ensures Losses(window) == 0.0 && Gains(window) > 0.0 ==> vote.action == Sell && vote.confidence == 1.0
  {
    OneSidedRsi(rsi, Gains(window), Losses(window));
    FullConfidence(s, vote, rsi);
  }

  /** Prices that only fall are bought with full confidence. */
  lemma FallingIsBought(s: Settings, symbol: string, prices: seq<real>)
    requires s.WellFormed() && |prices| > s.period && Falling(prices[|prices| - s.period - 1..])
    ensures Evaluate(s, symbol, prices) == AgentSignal(s.agentId, symbol, Buy, 1.0)
  {
    var window := prices[|prices| - s.period - 1..];
    FallingHasNoGains(window);
    var rsi := VoteMeans(s, symbol, prices);
    OneSidedVote(s, Evaluate(s, symbol, prices), window, rsi);
  }

  ghost predicate Rises(xs: seq<real>, i: nat)
    requires 1 <= i < |xs|
  {
    xs[i - 1] < xs[i]
  }

  lemma {:induction false} RisingHasOnlyGains(xs: seq<real>)
    requires forall i :: 1 <= i < |xs| ==> Rises(xs, i)
    ensures Losses(xs) == 0.0 && (|xs| >= 2 ==> Gains(xs) > 0.0)
  {
    if |xs| >= 2 {
      assert Rises(xs, |xs| - 1);
      forall i | 1 <= i < |Init(xs)|
        ensures Rises(Init(xs), i)
      {
        assert Rises(xs, i);
      }
      RisingHasOnlyGains(Init(xs));
    }
  }

  /** And prices that only rise are sold with full confidence. */
  lemma RisingIsSold(s: Settings, symbol: string, prices: seq<real>)
    requires s.WellFormed() && |prices| > s.period
    requires var window := prices[|prices| - s.period - 1..];
             forall i :: 1 <= i < |window| ==> Rises(window, i)
    ensures Evaluate(s, symbol, prices) == AgentSignal(s.agentId, symbol, Sell, 1.0)
  {
    var window := prices[|prices| - s.period - 1..];
    RisingHasOnlyGains(window);
    var rsi := VoteMeans(s, symbol, prices);
    OneSidedVote(s, Evaluate(s, symbol, prices), window, rsi);
  }

  // ----- bounded memory -----

  /** Strictly rising prices. */
  function Rising(n: nat): (xs: seq<real>)
    ensures |xs| == n && forall i :: 0 <= i < n ==> xs[i] == i as real
  {
    seq(n, i requires 0 <= i < n => i as real)
  }

  /** A memory of `keep` prices gives the same vote as the whole history, for every
      history, exactly when it holds period+1 of them; a shorter one is silenced for good. */
  lemma VoteNeedsFullWindow(s: Settings, symbol: string, keep: nat)
    requires s.WellFormed()
    ensures (forall prices :: Evaluate(s, symbol, LastN(prices, keep)) == Evaluate(s, symbol, prices))
            <==> keep >= s.period + 1
  {
    if keep >= s.period + 1 {
      forall prices: seq<real>
        ensures Evaluate(s, symbol, LastN(prices, keep)) == Evaluate(s, symbol, prices)
      {
        LongMemory(s, symbol, keep, prices);
      }
    } else {
      RisingIsNoticed(s, symbol, keep);
    }
  }

  lemma LongMemory(s: Settings, symbol: string, keep: nat, prices: seq<real>)
    requires s.WellFormed() && keep >= s.period + 1
    ensures Evaluate(s, symbol, LastN(prices, keep)) == Evaluate(s, symbol, prices)
  {
    LongVote(s, symbol, prices);
    LongVote(s, symbol, LastN(prices, keep));
    LastNTwice(prices, keep, s.period + 1);
  }

  lemma RisingIsNoticed(s: Settings, symbol: string, keep: nat)
    requires s.WellFormed() && keep <= s.period
    ensures var prices := Rising(s.period + 1);
            Evaluate(s, symbol, prices).action == Sell && Evaluate(s, symbol, LastN(prices, keep)).action == Hold
  {
    var prices := Rising(s.period + 1);
    assert prices[|prices| - s.period - 1..] == prices;
    forall i | 1 <= i < |prices|
      ensures Rises(prices, i)
    {
    }
    RisingIsSold(s, symbol, prices);
  }
}
