/** src/domain/trading/coordinator.py: weighted consensus of the agents. */
module Coordinator {
  import opened Models
  import opened Statistics

  /** What `asyncio.gather(..., return_exceptions=True)` yields for one agent. */
  datatype Reply = Failed | Answered(signal: AgentSignal)

  /** A registered agent's weight together with its reply. */
  datatype Ballot = Ballot(weight: real, reply: Reply)

  function ActionScore(action: Action): real {
    match action
    case Buy => 1.0
    case Hold => 0.0
    case Sell => -1.0
  }

  predicate Survives(ballot: Ballot, symbol: string) {
    ballot.reply.Answered? && ballot.reply.signal.symbol == symbol
  }

  /** The replies that take part, in registration order. */
  function Survivors(ballots: seq<Ballot>, symbol: string): (bs: seq<Ballot>)
    ensures forall b :: b in bs <==> b in ballots && Survives(b, symbol)
  {
    if ballots == [] then []
    else
      var last := ballots[|ballots| - 1];
      Survivors(ballots[..|ballots| - 1], symbol) + if Survives(last, symbol) then [last] else []
  }

  function Signals(ballots: seq<Ballot>): (ss: seq<AgentSignal>)
    requires forall b :: b in ballots ==> b.reply.Answered?
    ensures |ss| == |ballots|
    ensures forall i :: 0 <= i < |ballots| ==> ss[i] == ballots[i].reply.signal
  {
    seq(|ballots|, i requires 0 <= i < |ballots| => ballots[i].reply.signal)
  }

  function Weights(ballots: seq<Ballot>): (ws: seq<real>)
    ensures |ws| == |ballots|
    ensures forall i :: 0 <= i < |ballots| ==> ws[i] == ballots[i].weight
  {
    seq(|ballots|, i requires 0 <= i < |ballots| => ballots[i].weight)
  }

  /** One weighted, signed vote. */
  function Vote(weight: real, signal: AgentSignal): real {
    ActionScore(signal.action) * weight * signal.confidence
  }

  function Total(weights: seq<real>): real {
    if weights == [] then 0.0 else Total(Init(weights)) + Last(weights)
  }

  function Raw(signals: seq<AgentSignal>, weights: seq<real>): real
    requires |signals| == |weights|
  {
    if weights == [] then 0.0 else Raw(Init(signals), Init(weights)) + Vote(Last(weights), Last(signals))
  }

  function HoldDefault(symbol: string, contributors: seq<AgentSignal>): TradeSignal {
    TradeSignal(symbol, Hold, 0.0, 0.0, contributors)
  }

  function ClampScore(x: real): real {
    if x > 1.0 then 1.0 else if x < -1.0 then -1.0 else x
  }

  function Decide(score: real, threshold: real): Action {
    if score >= threshold then Buy else if score <= -threshold then Sell else Hold
  }

  function Aggregate(symbol: string, threshold: real, signals: seq<AgentSignal>, weights: seq<real>): (s: TradeSignal)
    requires |signals| == |weights|
    ensures s.symbol == symbol && s.contributors == signals
  {
    if Total(weights) <= 0.0 then HoldDefault(symbol, signals)
    else
      var score := ClampScore(Raw(signals, weights) / Total(weights));
      TradeSignal(symbol, Decide(score, threshold), Abs(score), score, signals)
  }

  /** The whole of `evaluate`, as a function of the replies. */
  function Evaluated(symbol: string, threshold: real, ballots: seq<Ballot>): (s: TradeSignal)
    ensures s.symbol == symbol
  {
    var survivors := Survivors(ballots, symbol);
    Aggregate(symbol, threshold, Signals(survivors), Weights(survivors))
  }

  /** A BUY or SELL has the confidence that the threshold demands. */
  ghost predicate Decided(signal: TradeSignal, threshold: real) {
    signal.action != Hold ==> threshold <= signal.confidence <= 1.0
  }

  lemma EvaluatedIsDecided(symbol: string, threshold: real, ballots: seq<Ballot>)
    ensures Decided(Evaluated(symbol, threshold, ballots), threshold)
  {
    var survivors := Survivors(ballots, symbol);
    AggregateIsDecided(symbol, threshold, Signals(survivors), Weights(survivors));
  }

  lemma AggregateIsDecided(symbol: string, threshold: real, signals: seq<AgentSignal>, weights: seq<real>)
    requires |signals| == |weights|
    ensures Decided(Aggregate(symbol, threshold, signals, weights), threshold)
  {
  }

  class TradingCoordinator {
    const threshold: real
    var weights: seq<real>

    ghost predicate Valid()
      reads this
    {
      0.0 <= threshold <= 1.0 && forall w :: w in weights ==> w >= 0.0
    }

    constructor (threshold: real)
      requires 0.0 <= threshold <= 1.0
      ensures Valid() && this.threshold == threshold && weights == []
    {
      this.threshold := threshold;
      weights := [];
    }

    /** `ok` is false where the source raises ValueError. */
    method Register(weight: real) returns (ok: bool)
      requires Valid()
      modifies this
      ensures Valid() && (ok <==> weight >= 0.0)
      ensures weights == if ok then old(weights) + [weight] else old(weights)
    {
      ok := weight >= 0.0;
      if ok {
        weights := weights + [weight];
      }
    }

    method Evaluate(symbol: string, replies: seq<Reply>) returns (signal: TradeSignal)
      requires Valid() && |replies| == |weights|
      ensures signal == Evaluated(symbol, threshold, Ballots(weights, replies))
    {
      if |weights| == 0 {
        return HoldDefault(symbol, []);
      }
      var contributors: seq<AgentSignal>, activeWeights: seq<real> := [], [];
      ghost var ballots := Ballots(weights, replies);
      for i := 0 to |weights|
        invariant contributors == Signals(Survivors(ballots[..i], symbol))
        invariant activeWeights == Weights(Survivors(ballots[..i], symbol))
      {
        assert ballots[..i + 1][..i] == ballots[..i];
        if replies[i].Answered? && replies[i].signal.symbol == symbol {
          contributors := contributors + [replies[i].signal];
          activeWeights := activeWeights + [weights[i]];
        }
      }
      assert ballots[..|weights|] == ballots;
      signal := Aggregate(symbol, threshold, contributors, activeWeights);
    }
  }

  function Ballots(weights: seq<real>, replies: seq<Reply>): (bs: seq<Ballot>)
    requires |weights| == |replies|
    ensures |bs| == |weights|
    ensures forall i :: 0 <= i < |bs| ==> bs[i] == Ballot(weights[i], replies[i])
  {
    seq(|weights|, i requires 0 <= i < |weights| => Ballot(weights[i], replies[i]))
  }

  // ----- the score as two order-independent sums over all ballots -----

  function WeightOf(ballot: Ballot, symbol: string): real {
    if Survives(ballot, symbol) then ballot.weight else 0.0
  }

  function VoteOf(ballot: Ballot, symbol: string): real {
    if Survives(ballot, symbol) then Vote(ballot.weight, ballot.reply.signal) else 0.0
  }

  function SumOf(ballots: seq<Ballot>, f: Ballot -> real): real {
    if ballots == [] then 0.0 else SumOf(Init(ballots), f) + f(Last(ballots))
  }

  lemma InitOfSnoc<T>(xs: seq<T>, x: T)
    ensures Init(xs + [x]) == xs && Last(xs + [x]) == x
  {
  }

  lemma SumsOfSnoc(rest: seq<Ballot>, last: Ballot)
    requires last.reply.Answered? && forall b :: b in rest ==> b.reply.Answered?
    ensures var s := rest + [last];
            && Total(Weights(s)) == Total(Weights(rest)) + last.weight
            && Raw(Signals(s), Weights(s)) == Raw(Signals(rest), Weights(rest)) + Vote(last.weight, last.reply.signal)
  {
    var s := rest + [last];
    assert Weights(s) == Weights(rest) + [last.weight];
    assert Signals(s) == Signals(rest) + [last.reply.signal];
    InitOfSnoc(Weights(rest), last.weight);
    InitOfSnoc(Signals(rest), last.reply.signal);
  }

  lemma {:induction false} SurvivorSums(ballots: seq<Ballot>, symbol: string)
    ensures var s := Survivors(ballots, symbol);
            && Total(Weights(s)) == SumOf(ballots, b => WeightOf(b, symbol))
            && Raw(Signals(s), Weights(s)) == SumOf(ballots, b => VoteOf(b, symbol))
  {
    if ballots != [] {
      var rest, last := Survivors(Init(ballots), symbol), Last(ballots);
      SurvivorSums(Init(ballots), symbol);
      if Survives(last, symbol) {
        assert Survivors(ballots, symbol) == rest + [last];
        SumsOfSnoc(rest, last);
      } else {
        assert Survivors(ballots, symbol) == rest;
      }
    }
  }

  lemma SumSnoc(ballots: seq<Ballot>, last: Ballot, f: Ballot -> real)
    ensures SumOf(ballots + [last], f) == SumOf(ballots, f) + f(last)
  {
    InitOfSnoc(ballots, last);
  }

  lemma {:induction false} SumConcat(some: seq<Ballot>, others: seq<Ballot>, f: Ballot -> real)
    ensures SumOf(some + others, f) == SumOf(some, f) + SumOf(others, f)
  {
    if others == [] {
      assert some + others == some;
    } else {
      var rest, last := Init(others), Last(others);
      SumConcat(some, rest, f);
      SumSnoc(some + rest, last, f);
      assert some + others == some + rest + [last];
    }
  }

  lemma AroundIndex(ballots: seq<Ballot>, k: nat)
    requires k < |ballots|
    ensures ballots == ballots[..k] + [ballots[k]] + ballots[k + 1..]
  {
  }

  lemma SumRemove(ballots: seq<Ballot>, f: Ballot -> real, k: nat)
    requires k < |ballots|
    ensures SumOf(ballots, f) == SumOf(ballots[..k] + ballots[k + 1..], f) + f(ballots[k])
  {
    AroundIndex(ballots, k);
    var front, x, back := ballots[..k], ballots[k], ballots[k + 1..];
    calc {
      SumOf(ballots, f);
      SumOf(front + [x] + back, f);
      { SumAround(front, x, back, f); }
      SumOf(front + back, f) + f(x);
    }
  }

  lemma SumAround(front: seq<Ballot>, x: Ballot, back: seq<Ballot>, f: Ballot -> real)
    ensures SumOf(front + [x] + back, f) == SumOf(front + back, f) + f(x)
  {
    SumConcat(front + [x], back, f);
    SumSnoc(front, x, f);
    SumConcat(front, back, f);
  }

  lemma Removed(some: seq<Ballot>, others: seq<Ballot>, k: nat)
    requires some != [] && multiset(some) == multiset(others) && k < |others| && others[k] == Last(some)
    ensures multiset(Init(some)) == multiset(others[..k] + others[k + 1..])
  {
    var x, front, back := Last(some), others[..k], others[k + 1..];
    assert some == Init(some) + [x];
    assert others == front + [x] + back;
    assert multiset(some) == multiset(Init(some)) + multiset{x};
    assert multiset(others) == multiset(front) + multiset{x} + multiset(back);
    assert multiset(front + back) == multiset(front) + multiset(back);
    assert multiset(Init(some)) == multiset(some) - multiset{x};
    assert multiset(front + back) == multiset(others) - multiset{x};
  }

  lemma {:induction false} SumPermuted(some: seq<Ballot>, others: seq<Ballot>, f: Ballot -> real)
    requires multiset(some) == multiset(others)
    ensures SumOf(some, f) == SumOf(others, f)
  {
    if some == [] {
      assert |others| == |multiset(others)| == 0;
    } else {
      assert Last(some) in multiset(others);
      var k :| 0 <= k < |others| && others[k] == Last(some);
      Removed(some, others, k);
      SumPermuted(Init(some), others[..k] + others[k + 1..], f);
      SumRemove(others, f, k);
    }
  }

  lemma {:induction false} SumOfZeros(ballots: seq<Ballot>, f: Ballot -> real)
    requires forall b :: b in ballots ==> f(b) == 0.0
    ensures SumOf(ballots, f) == 0.0
  {
    if ballots != [] {
      assert forall b :: b in Init(ballots) ==> b in ballots;
      SumOfZeros(Init(ballots), f);
      assert Last(ballots) in ballots;
    }
  }

  lemma SumIgnoresZeros(ballots: seq<Ballot>, extra: seq<Ballot>, f: Ballot -> real)
    requires forall b :: b in extra ==> f(b) == 0.0
    ensures SumOf(ballots + extra, f) == SumOf(ballots, f)
  {
    SumConcat(ballots, extra, f);
    SumOfZeros(extra, f);
  }

  /** Two rounds decide alike when they hold the same ballots in any order, plus any number
      of ballots that failed or answered for another symbol. */
  lemma DecisionIgnoresOrderAndFailures(
    symbol: string, threshold: real, some: seq<Ballot>, others: seq<Ballot>, dropped: seq<Ballot>)
    requires multiset(some + dropped) == multiset(others)
    requires forall b :: b in dropped ==> b.reply.Failed? || b.reply.signal.symbol != symbol
    ensures var one, two := Evaluated(symbol, threshold, some), Evaluated(symbol, threshold, others);
            one.action == two.action && one.score == two.score && one.confidence == two.confidence
  {
    SurvivorSums(some, symbol);
    SurvivorSums(others, symbol);
    SumPermuted(some + dropped, others, b => WeightOf(b, symbol));
    SumPermuted(some + dropped, others, b => VoteOf(b, symbol));
    SumIgnoresZeros(some, dropped, b => WeightOf(b, symbol));
    SumIgnoresZeros(some, dropped, b => VoteOf(b, symbol));
  }

  // ----- what one evaluation returns, in terms of the replies -----

  /** `picked` names, in order, the replies of which these are the signals. */
  ghost predicate Picks(replies: seq<Reply>, picked: seq<nat>, signals: seq<AgentSignal>) {
    && |picked| == |signals|
    && (forall i, j :: 0 <= i < j < |picked| ==> picked[i] < picked[j])
    && (forall i :: 0 <= i < |picked| ==> picked[i] < |replies| && replies[picked[i]] == Answered(signals[i]))
  }

  lemma BallotsSnoc(weights: seq<real>, replies: seq<Reply>)
    requires |weights| == |replies| > 0
    ensures var n := |replies| - 1;
            && Ballots(weights, replies)[..n] == Ballots(weights[..n], replies[..n])
            && Ballots(weights, replies)[n] == Ballot(weights[n], replies[n])
  {
  }

  lemma PicksMore(replies: seq<Reply>, picked: seq<nat>, signals: seq<AgentSignal>)
    requires replies != [] && Picks(replies[..|replies| - 1], picked, signals)
    ensures Picks(replies, picked, signals)
    ensures replies[|replies| - 1].Answered? ==>
              Picks(replies, picked + [|replies| - 1], signals + [replies[|replies| - 1].signal])
  {
  }

  /** The signals of the survivors, one reply further. */
  lemma SurvivorsSnoc(symbol: string, weights: seq<real>, replies: seq<Reply>)
    requires |weights| == |replies| > 0
    ensures var n := |replies| - 1;
            Signals(Survivors(Ballots(weights, replies), symbol))
            == Signals(Survivors(Ballots(weights[..n], replies[..n]), symbol))
               + (if Survives(Ballot(weights[n], replies[n]), symbol) then [replies[n].signal] else [])
  {
    var n := |replies| - 1;
    BallotsSnoc(weights, replies);
    var before := Survivors(Ballots(weights[..n], replies[..n]), symbol);
    if Survives(Ballot(weights[n], replies[n]), symbol) {
      var all := before + [Ballot(weights[n], replies[n])];
      assert Survivors(Ballots(weights, replies), symbol) == all;
      assert Signals(all) == Signals(before) + [replies[n].signal];
    } else {
      assert Survivors(Ballots(weights, replies), symbol) == before;
    }
  }

  /** All of these replies are for the symbol, and no reply for the symbol is left out. */
  ghost predicate Complete(symbol: string, replies: seq<Reply>, picked: seq<nat>, signals: seq<AgentSignal>) {
    && Picks(replies, picked, signals)
    && (forall i :: 0 <= i < |signals| ==> signals[i].symbol == symbol)
    && (forall j: nat ::
          j < |replies| && replies[j].Answered? && replies[j].signal.symbol == symbol ==> j in picked)
  }

  lemma CompleteSnoc(symbol: string, replies: seq<Reply>, picked: seq<nat>, signals: seq<AgentSignal>)
    requires replies != [] && Complete(symbol, replies[..|replies| - 1], picked, signals)
    ensures var last := replies[|replies| - 1];
            if last.Answered? && last.signal.symbol == symbol
            then Complete(symbol, replies, picked + [|replies| - 1], signals + [last.signal])
            else Complete(symbol, replies, picked, signals)
  {
    PicksMore(replies, picked, signals);
  }

  lemma {:induction false} SurvivorsArePicked(symbol: string, weights: seq<real>, replies: seq<Reply>)
    returns (picked: seq<nat>)
    requires |weights| == |replies|
    ensures Complete(symbol, replies, picked, Signals(Survivors(Ballots(weights, replies), symbol)))
  {
    if replies == [] {
      picked := [];
    } else {
      var n := |replies| - 1;
      picked := SurvivorsArePicked(symbol, weights[..n], replies[..n]);
      CompleteSnoc(symbol, replies, picked, Signals(Survivors(Ballots(weights[..n], replies[..n]), symbol)));
      SurvivorsSnoc(symbol, weights, replies);
      if Survives(Ballot(weights[n], replies[n]), symbol) { picked := picked + [n]; }
    }
  }

  /** The contributors are, in the order of registration, exactly the signals that were answered
      for this symbol: each of them is for the symbol, and none is missing. */
  lemma ContributorsAreTheAnswers(symbol: string, threshold: real, weights: seq<real>, replies: seq<Reply>)
    returns (picked: seq<nat>)
    requires |weights| == |replies|
    ensures var contributors := Evaluated(symbol, threshold, Ballots(weights, replies)).contributors;
            && |picked| == |contributors|
            && (forall i, j :: 0 <= i < j < |picked| ==> picked[i] < picked[j])
            && (forall i :: 0 <= i < |picked| ==>
                  && picked[i] < |replies| && replies[picked[i]] == Answered(contributors[i])
                  && contributors[i].symbol == symbol)
    ensures forall j: nat :: j < |replies| && replies[j].Answered? && replies[j].signal.symbol == symbol ==> j in picked
  {
    picked := SurvivorsArePicked(symbol, weights, replies);
  }

  /** The weight a reply brings in: that of an agent which answered for the symbol. */
  function Stake(symbol: string): Ballot -> real {
    (b: Ballot) => if b.reply.Answered? && b.reply.signal.symbol == symbol then b.weight else 0.0
  }

  /** And what it says: confidence for BUY, against SELL, nothing for HOLD. */
  function Say(symbol: string): Ballot -> real {
    (b: Ballot) =>
      if b.reply.Failed? || b.reply.signal.symbol != symbol || b.reply.signal.action == Hold then 0.0
      else if b.reply.signal.action == Buy then b.weight * b.reply.signal.confidence
      else -(b.weight * b.reply.signal.confidence)
  }

  lemma {:induction false} SumsAgree(ballots: seq<Ballot>, f: Ballot -> real, g: Ballot -> real)
    requires forall b: Ballot :: f(b) == g(b)
    ensures SumOf(ballots, f) == SumOf(ballots, g)
  {
    if ballots != [] { SumsAgree(Init(ballots), f, g); }
  }

  lemma SayIsVote(b: Ballot, symbol: string)
    ensures VoteOf(b, symbol) == Say(symbol)(b) && WeightOf(b, symbol) == Stake(symbol)(b)
  {
    if b.reply.Answered? {
      var w, c := b.weight, b.reply.signal.confidence;
      assert 1.0 * w * c == w * c && -1.0 * w * c == -(w * c) && 0.0 * w * c == 0.0;
    }
  }

  lemma TotalsOfReplies(ballots: seq<Ballot>, symbol: string)
    ensures var s := Survivors(ballots, symbol);
            && Total(Weights(s)) == SumOf(ballots, Stake(symbol))
            && Raw(Signals(s), Weights(s)) == SumOf(ballots, Say(symbol))
  {
    SurvivorSums(ballots, symbol);
    forall b: Ballot
      ensures VoteOf(b, symbol) == Say(symbol)(b) && WeightOf(b, symbol) == Stake(symbol)(b)
    {
      SayIsVote(b, symbol);
    }
    SumsAgree(ballots, b => WeightOf(b, symbol), Stake(symbol));
    SumsAgree(ballots, b => VoteOf(b, symbol), Say(symbol));
  }

  /** Registered weights and model-checked confidences. */
  ghost predicate Proper(ballots: seq<Ballot>) {
    forall b :: b in ballots ==>
      b.weight >= 0.0 && (b.reply.Answered? ==> 0.0 <= b.reply.signal.confidence <= 1.0)
  }

  lemma ProperIsAdmissible(ballots: seq<Ballot>, symbol: string)
    requires Proper(ballots)
    ensures var s := Survivors(ballots, symbol); Admissible(Signals(s), Weights(s), 1.0)
  {
    var s := Survivors(ballots, symbol);
    forall i | 0 <= i < |s|
      ensures Weights(s)[i] >= 0.0 && 0.0 <= Signals(s)[i].confidence <= 1.0
    {
      assert s[i] in s && s[i] in ballots;
    }
  }

  /** The score is the weighted mean of what was said: times the total weight it is the sum of the
      votes.  It is a BUY from the threshold up, else a SELL from minus the threshold down, and
      else a HOLD; its magnitude is the confidence.  Without weight it is a HOLD of score 0. */
  ghost predicate IsMean(r: TradeSignal, threshold: real, total: real, said: real) {
    && (total > 0.0 ==>
          && r.score * total == said
          && (r.action == Buy <==> r.score >= threshold)
          && (r.action == Sell <==> r.score < threshold && r.score <= -threshold))
    && (total <= 0.0 ==> r.action == Hold && r.score == 0.0)
    && r.confidence == (if r.score >= 0.0 then r.score else -r.score)
  }

  lemma AggregateIsMean(symbol: string, threshold: real, signals: seq<AgentSignal>, weights: seq<real>)
    requires Admissible(signals, weights, 1.0)
    ensures IsMean(Aggregate(symbol, threshold, signals, weights), threshold, Total(weights), Raw(signals, weights))
  {
    var r, raw, total := Aggregate(symbol, threshold, signals, weights), Raw(signals, weights), Total(weights);
    assert total > 0.0 ==> r.score == raw / total by { ScoreBound(symbol, threshold, signals, weights, 1.0); }
    if total > 0.0 { QuotientTimes(raw, total); }
  }

  /** Both sums taken over the replies themselves. */
  lemma ScoreIsWeightedMean(symbol: string, threshold: real, ballots: seq<Ballot>)
    requires Proper(ballots)
    ensures var r := Evaluated(symbol, threshold, ballots);
            r.symbol == symbol && IsMean(r, threshold, SumOf(ballots, Stake(symbol)), SumOf(ballots, Say(symbol)))
  {
    var s := Survivors(ballots, symbol);
    TotalsOfReplies(ballots, symbol);
    ProperIsAdmissible(ballots, symbol);
    AggregateIsMean(symbol, threshold, Signals(s), Weights(s));
  }

  lemma QuotientTimes(x: real, n: real)
    requires n > 0.0
    ensures (x / n) * n == x
  {
  }

  // ----- bounds -----

  /** What registration and the signal model guarantee of weights and confidences. */
  ghost predicate Admissible(signals: seq<AgentSignal>, weights: seq<real>, top: real) {
    && |signals| == |weights|
    && forall i :: 0 <= i < |weights| ==> weights[i] >= 0.0 && 0.0 <= signals[i].confidence <= top
  }

  lemma VoteBound(weight: real, signal: AgentSignal, top: real)
    requires weight >= 0.0 && 0.0 <= signal.confidence <= top
    ensures Within(Vote(weight, signal), weight, top)
  {
    ProductNonNegative(weight, signal.confidence);
    ScaleMonotone(weight, signal.confidence, top);
    assert ActionScore(signal.action) * weight * signal.confidence
        == ActionScore(signal.action) * (weight * signal.confidence);
  }

  /** `raw` lies within `top` times `total` of zero. */
  ghost predicate Within(raw: real, total: real, top: real) {
    -(top * total) <= raw <= top * total
  }

  lemma WithinStep(raw: real, total: real, top: real, vote: real, weight: real)
    requires Within(raw, total, top) && Within(vote, weight, top)
    ensures Within(raw + vote, total + weight, top)
  {
    Distribute(top, total, weight);
  }

  lemma {:induction false} RawBound(signals: seq<AgentSignal>, weights: seq<real>, top: real)
    requires Admissible(signals, weights, top)
    ensures Total(weights) >= 0.0 && Within(Raw(signals, weights), Total(weights), top)
  {
    if weights == [] {
    } else {
      var raw, total := Raw(Init(signals), Init(weights)), Total(Init(weights));
      var vote, weight := Vote(Last(weights), Last(signals)), Last(weights);
      assert total >= 0.0 && Within(raw, total, top) by {
        RawBound(Init(signals), Init(weights), top);
      }
      assert Within(raw + vote, total + weight, top) by {
        VoteBound(weight, Last(signals), top);
        WithinStep(raw, total, top, vote, weight);
      }
    }
  }

  /** Hence the normalised score never exceeds the strongest surviving confidence, and the
      clamp to [-1, 1] has nothing to do. */
  lemma ScoreBound(symbol: string, threshold: real, signals: seq<AgentSignal>, weights: seq<real>, top: real)
    requires Admissible(signals, weights, top) && 0.0 <= top <= 1.0
    ensures var s := Aggregate(symbol, threshold, signals, weights);
            && -top <= s.score <= top && s.confidence == Abs(s.score) <= top
            && (Total(weights) > 0.0 ==> s.score == Raw(signals, weights) / Total(weights))
  {
    RawBound(signals, weights, top);
    var total, raw := Total(weights), Raw(signals, weights);
    if total > 0.0 {
      QuotientBound(raw, total, top);
      QuotientBound(-raw, total, top);
      NegatedQuotient(raw, total);
    }
  }

  // ----- symmetry -----

  function Flipped(signals: seq<AgentSignal>): (ss: seq<AgentSignal>)
    ensures |ss| == |signals|
    ensures forall i :: 0 <= i < |ss| ==> ss[i] == signals[i].(action := signals[i].action.Opposite())
  {
    seq(|signals|, i requires 0 <= i < |signals| => signals[i].(action := signals[i].action.Opposite()))
  }

  lemma VoteFlips(weight: real, signal: AgentSignal)
    ensures Vote(weight, signal.(action := signal.action.Opposite())) == -Vote(weight, signal)
  {
  }

  lemma {:induction false} RawFlips(signals: seq<AgentSignal>, weights: seq<real>)
    requires |signals| == |weights|
    ensures Raw(Flipped(signals), weights) == -Raw(signals, weights)
  {
    if weights != [] {
      assert Init(Flipped(signals)) == Flipped(Init(signals));
      RawFlips(Init(signals), Init(weights));
      VoteFlips(Last(weights), Last(signals));
    }
  }

  /** Swapping BUY and SELL in every vote negates the score and keeps the confidence. It
      swaps the decision too, except at exactly one point: threshold 0 and score 0, where a
      perfectly balanced vote counts as BUY both ways. */
  lemma SwapNegates(symbol: string, threshold: real, signals: seq<AgentSignal>, weights: seq<real>)
    requires |signals| == |weights| && threshold >= 0.0
    ensures var one := Aggregate(symbol, threshold, signals, weights);
            var two := Aggregate(symbol, threshold, Flipped(signals), weights);
            && two.score == -one.score && two.confidence == one.confidence
            && (two.action == one.action.Opposite()
                <==> !(threshold == 0.0 && one.score == 0.0 && Total(weights) > 0.0))
  {
    RawFlips(signals, weights);
    var total, raw := Total(weights), Raw(signals, weights);
    if total > 0.0 {
      NegatedQuotient(raw, total);
    }
  }

  lemma VotesSnoc(signals: seq<AgentSignal>, weights: seq<real>, signal: AgentSignal, w: real)
    requires |signals| == |weights|
    ensures Total(weights + [w]) == Total(weights) + w
    ensures Raw(signals + [signal], weights + [w]) == Raw(signals, weights) + Vote(w, signal)
  {
    InitOfSnoc(weights, w);
    InitOfSnoc(signals, signal);
  }

  lemma TwoVotes(w: real, one: AgentSignal, two: AgentSignal)
    ensures Total([w, w]) == w + w && Raw([one, two], [w, w]) == Vote(w, one) + Vote(w, two)
  {
    VotesSnoc([], [], one, w);
    VotesSnoc([one], [w], two, w);
    assert [] + [w] == [w] && [w] + [w] == [w, w] && [] + [one] == [one] && [one] + [two] == [one, two];
  }

  /** At that point: one BUY against one equally confident SELL is a BUY, and so is the swapped
      vote. */
  lemma TiedVoteIsBuy(symbol: string, c: real)
    ensures var buy, sell := AgentSignal("one", symbol, Buy, c), AgentSignal("two", symbol, Sell, c);
            && Aggregate(symbol, 0.0, [buy, sell], [1.0, 1.0]).action == Buy
            && Aggregate(symbol, 0.0, Flipped([buy, sell]), [1.0, 1.0]).action == Buy
  {
    var signals := [AgentSignal("one", symbol, Buy, c), AgentSignal("two", symbol, Sell, c)];
    TwoVotes(1.0, signals[0], signals[1]);
    SwapNegates(symbol, 0.0, signals, [1.0, 1.0]);
  }
}
