/** Concrete runs of the pipeline, used to show that bounds are reached and that
    side conditions are needed. */
module PipelineWitness {
  import opened Models
  import opened Guardrails
  import opened Ledger
  import opened Executor
  import opened Coordinator
  import opened PipelineRuns

  /** A unanimous vote. */
  datatype Wish = Wish(symbol: string, action: Action, confidence: real)

  function WishVotes(w: Wish): seq<Ballot> {
    [Ballot(1.0, Answered(AgentSignal("agent", w.symbol, w.action, w.confidence)))]
  }

  function WishSignal(w: Wish): TradeSignal {
    TradeSignal(
      w.symbol, w.action, w.confidence, if w.action == Buy then w.confidence else -w.confidence,
      [AgentSignal("agent", w.symbol, w.action, w.confidence)])
  }

  /** The vote is confident enough to be followed, and the sizer makes it an order of `quantity`. */
  ghost predicate Trades(cfg: Config, w: Wish, quantity: int) {
    && w.action != Hold && 0.0 <= w.confidence <= 1.0 && cfg.threshold <= w.confidence
    && (w.action == Sell ==> -w.confidence < cfg.threshold)
    && cfg.sizer(WishSignal(w)) == quantity > 0
  }

  lemma VotesDecide(w: Wish, threshold: real)
    requires w.action != Hold && 0.0 <= w.confidence <= 1.0 && threshold <= w.confidence
    requires w.action == Sell ==> -w.confidence < threshold
    ensures Evaluated(w.symbol, threshold, WishVotes(w)) == WishSignal(w)
  {
    var ballots := WishVotes(w);
    var ballot := ballots[0];
    assert ballots[..0] == [];
    assert Survivors(ballots[..0], w.symbol) == [];
    assert Survivors(ballots, w.symbol) == [ballot];
    var signals, weights := Signals([ballot]), Weights([ballot]);
    assert weights == [1.0] && signals == WishSignal(w).contributors;
    assert Total(weights) == 1.0 by { assert weights[..0] == []; }
    assert Raw(signals, weights) == WishSignal(w).score by { assert weights[..0] == [] && signals[..0] == []; }
  }

  /** A call that has arrived takes its order to the broker... */
  function Placing(id: nat, w: Wish): seq<Event> {
    [Collect(id, WishVotes(w)), Judge(id), Enter(id)]
  }

  /** ... and goes on to its end without interruption. */
  function Trading(id: nat, w: Wish): seq<Event> {
    Placing(id, w) + [Take(id), Answer(id, Accepted), Publish(id, true)]
  }

  ghost predicate CanTrade(cfg: Config, s: System, id: nat, w: Wish, quantity: int)
    requires cfg.Valid()
  {
    && cfg.live && Trades(cfg, w, quantity)
    && IsOpen(s, id) && s.calls[id].stage == Polling && s.calls[id].tick.symbol == w.symbol
    && AllAllow(cfg.guards, WishSignal(w), s.calls[id].context)
  }

  function WishFill(w: Wish, quantity: int, ts: real): Fill {
    Fill(w.symbol, w.action, quantity, ts)
  }

  /** The fill is booked on both sides and the call is over. */
  function Recorded(s: System, id: nat, fill: Fill): System {
    s.(desk := s.desk.(holdings := s.desk.holdings.After(fill), executedCount := s.desk.executedCount + 1),
       calls := s.calls - {id},
       fills := s.fills + [fill])
  }

  function Traded(s: System, id: nat, w: Wish, quantity: int): System
    requires IsOpen(s, id)
  {
    var fill := WishFill(w, quantity, s.clock);
    Recorded(s.(placed := s.placed + [PlacementOf(s, id, w, quantity)], accepted := s.accepted + [fill]), id, fill)
  }

  function PlacementOf(s: System, id: nat, w: Wish, quantity: int): Placement
    requires IsOpen(s, id)
  {
    Placement(Order(WishSignal(w), quantity, s.clock), s.calls[id].context)
  }

  lemma RunSnoc(cfg: Config, events: seq<Event>, e: Event)
    requires cfg.Valid()
    ensures Run(cfg, events + [e]) == Apply(cfg, Run(cfg, events), e)
  {
    assert (events + [e])[..|events|] == events;
  }

  /** The state in which the order has just been placed. */
  function Ordered(s: System, id: nat, w: Wish, quantity: int): System
    requires IsOpen(s, id)
  {
    Moved(s.(placed := s.placed + [PlacementOf(s, id, w, quantity)]), id,
          AtBroker(Order(WishSignal(w), quantity, s.clock), false))
  }

  lemma CollectsVotes(cfg: Config, s: System, id: nat, w: Wish, quantity: int)
    requires cfg.Valid() && CanTrade(cfg, s, id, w, quantity)
    ensures Apply(cfg, s, Collect(id, WishVotes(w))) == Moved(s, id, Judging(WishSignal(w)))
  {
    VotesDecide(w, cfg.threshold);
  }

  lemma JudgesWish(cfg: Config, s: System, t: System, id: nat, w: Wish, quantity: int)
    requires cfg.Valid() && CanTrade(cfg, s, id, w, quantity)
    requires t == Moved(s, id, Judging(WishSignal(w)))
    ensures Apply(cfg, t, Judge(id)) == Moved(s, id, Sizing(GuardedSignal(WishSignal(w), true, None)))
  {
    EffectiveMeansAllAllow(cfg.guards, WishSignal(w), s.calls[id].context);
  }

  lemma EntersWish(cfg: Config, s: System, t: System, id: nat, w: Wish, quantity: int)
    requires cfg.Valid() && CanTrade(cfg, s, id, w, quantity)
    requires t == Moved(s, id, Sizing(GuardedSignal(WishSignal(w), true, None)))
    ensures Apply(cfg, t, Enter(id)) == Ordered(s, id, w, quantity)
  {
  }

  lemma PlacingPlaces(cfg: Config, events: seq<Event>, id: nat, w: Wish, quantity: int)
    requires cfg.Valid() && CanTrade(cfg, Run(cfg, events), id, w, quantity)
    ensures Run(cfg, events + Placing(id, w)) == Ordered(Run(cfg, events), id, w, quantity)
  {
    var s, b := Run(cfg, events), Placing(id, w);
    RunThree(cfg, events, b[0], b[1], b[2]);
    CollectsVotes(cfg, s, id, w, quantity);
    var s1 := Apply(cfg, s, b[0]);
    JudgesWish(cfg, s, s1, id, w, quantity);
    EntersWish(cfg, s, Apply(cfg, s1, b[1]), id, w, quantity);
  }

  lemma RunThree(cfg: Config, events: seq<Event>, a: Event, b: Event, c: Event)
    requires cfg.Valid()
    ensures Run(cfg, events + [a, b, c]) == Apply(cfg, Apply(cfg, Apply(cfg, Run(cfg, events), a), b), c)
  {
    RunSnoc(cfg, events, a);
    RunSnoc(cfg, events + [a], b);
    RunSnoc(cfg, events + [a] + [b], c);
    assert events + [a, b, c] == events + [a] + [b] + [c];
  }

  /** The broker takes the order. */
  function TakenBy(s: System, id: nat): System
    requires IsAtBroker(s, id)
  {
    var order := s.calls[id].stage.order;
    Moved(s.(accepted := s.accepted + [OrderFill(order)]), id, AtBroker(order, true))
  }

  /** The accepted order is recorded, and the call goes on through the audit publish, if any. */
  lemma AnswerRecords(cfg: Config, s: System, id: nat)
    requires cfg.Valid() && IsAtBroker(s, id) && s.calls[id].stage.taken && IsFill(OrderFill(s.calls[id].stage.order))
    ensures Apply(cfg, Apply(cfg, s, Answer(id, Accepted)), Publish(id, true))
         == Recorded(s, id, OrderFill(s.calls[id].stage.order))
  {
    assert s.calls[id := s.calls[id].(stage := Auditing)] - {id} == s.calls - {id};
  }

  /** If it is answered by an exception it is lost. */
  lemma RaisingLoses(cfg: Config, s: System, id: nat)
    requires cfg.Valid() && IsAtBroker(s, id) && s.calls[id].stage.taken
    ensures Apply(cfg, Apply(cfg, s, Answer(id, Raised)), Publish(id, true))
         == Closed(Unrecorded(s, OrderFill(s.calls[id].stage.order)), id)
  {
    assert s.calls[id := s.calls[id].(stage := Auditing)] - {id} == s.calls - {id};
  }

  lemma OrderIsTaken(cfg: Config, s: System, id: nat, w: Wish, quantity: int)
    requires cfg.Valid() && IsOpen(s, id)
    ensures Apply(cfg, Ordered(s, id, w, quantity), Take(id)) == TakenBy(Ordered(s, id, w, quantity), id)
    ensures TakenBy(Ordered(s, id, w, quantity), id).calls - {id} == s.calls - {id}
  {
  }

  lemma TradingTrades(cfg: Config, events: seq<Event>, id: nat, w: Wish, quantity: int)
    requires cfg.Valid() && CanTrade(cfg, Run(cfg, events), id, w, quantity)
    ensures Run(cfg, events + Trading(id, w)) == Traded(Run(cfg, events), id, w, quantity)
  {
    var s, placed := Run(cfg, events), events + Placing(id, w);
    PlacingPlaces(cfg, events, id, w, quantity);
    RunThree(cfg, placed, Take(id), Answer(id, Accepted), Publish(id, true));
    assert events + Trading(id, w) == placed + [Take(id), Answer(id, Accepted), Publish(id, true)];
    OrderIsTaken(cfg, s, id, w, quantity);
    AnswerRecords(cfg, TakenBy(Ordered(s, id, w, quantity), id), id);
  }

  /** `n` calls for the same tick open together. */
  function Opening(n: nat, tick: Tick): seq<Event> {
    seq(n, i requires 0 <= i < n => Arrive(i, tick))
  }

  /** A fresh call holding this snapshot of the ledger. */
  ghost predicate Fresh(call: Call, symbol: string, holdings: Holdings, now: real) {
    && call.stage == Polling && call.tick.symbol == symbol
    && call.context.positions == holdings.positions
    && call.context.lastTradeAt == holdings.lastTradeAt
    && call.context.now == now
  }

  /** Exactly the first `n` slots are open, fresh, and hold the same snapshot. */
  ghost predicate AllOpen(s: System, n: nat, symbol: string, holdings: Holdings, now: real) {
    && |s.calls| == n
    && (forall i: nat :: i in s.calls <==> i < n)
    && (forall i: nat :: i in s.calls ==> Fresh(s.calls[i], symbol, holdings, now))
  }

  /** From `s` to `t` `n` calls were opened and the ledger was left alone. */
  ghost predicate Opened(s: System, t: System, n: nat, symbol: string) {
    && AllOpen(t, n, symbol, s.desk.holdings, s.clock)
    && t.desk.holdings == s.desk.holdings && t.clock == s.clock
    && t.fills == s.fills && t.accepted == s.accepted && t.lost == s.lost
  }

  lemma ArriveOpens(cfg: Config, s: System, mid: System, n: nat, tick: Tick)
    requires cfg.Valid() && n < cfg.lanes && Opened(s, mid, n, tick.symbol)
    ensures Opened(s, Apply(cfg, mid, Arrive(n, tick)), n + 1, tick.symbol)
  {
    var t := Apply(cfg, mid, Arrive(n, tick));
    ReplacedSame(mid.calls, n, t.calls[n]);
    assert Fresh(t.calls[n], tick.symbol, s.desk.holdings, s.clock);
  }

  lemma OpeningSnoc(events: seq<Event>, n: nat, tick: Tick)
    ensures events + Opening(n + 1, tick) == events + Opening(n, tick) + [Arrive(n, tick)]
  {
  }

  lemma RunOpening(cfg: Config, events: seq<Event>, n: nat, tick: Tick)
    requires cfg.Valid()
    ensures Run(cfg, events + Opening(n + 1, tick)) == Apply(cfg, Run(cfg, events + Opening(n, tick)), Arrive(n, tick))
  {
    OpeningSnoc(events, n, tick);
    RunSnoc(cfg, events + Opening(n, tick), Arrive(n, tick));
  }

  lemma OneMoreOpens(cfg: Config, events: seq<Event>, s: System, n: nat, tick: Tick)
    requires cfg.Valid() && n < cfg.lanes
    requires Opened(s, Run(cfg, events + Opening(n, tick)), n, tick.symbol)
    ensures Opened(s, Run(cfg, events + Opening(n + 1, tick)), n + 1, tick.symbol)
  {
    RunOpening(cfg, events, n, tick);
    ArriveOpens(cfg, s, Run(cfg, events + Opening(n, tick)), n, tick);
  }

  lemma NoneOpened(s: System, symbol: string)
    requires s.calls == map[]
    ensures Opened(s, s, 0, symbol)
  {
  }

  lemma {:induction false} OpeningOpens(cfg: Config, events: seq<Event>, n: nat, tick: Tick)
    requires cfg.Valid() && Run(cfg, events).calls == map[] && n <= cfg.lanes
    ensures Opened(Run(cfg, events), Run(cfg, events + Opening(n, tick)), n, tick.symbol)
  {
    if n == 0 {
      NoneOpened(Run(cfg, events), tick.symbol);
      assert events + Opening(0, tick) == events;
    } else {
      OpeningOpens(cfg, events, n - 1, tick);
      OneMoreOpens(cfg, events, Run(cfg, events), n - 1, tick);
    }
  }
}
