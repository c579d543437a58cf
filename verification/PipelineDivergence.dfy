/** Runs in which the broker and the portfolio part company. */
module PipelineDivergence {
  import opened Models
  import opened Ledger
  import opened Executor
  import opened PipelineRuns
  import opened PipelineBook
  import opened PipelineWitness
  import opened PipelineMaximum
  import opened PipelineCooldown

  // ----- orders that are lost -----

  /** One call opens, and the broker takes its order. */
  function Ordering(tick: Tick, w: Wish): seq<Event> {
    Opening(1, tick) + Placing(0, w) + [Take(0)]
  }

  /** Nothing is open, nothing was ever recorded, and no time has passed. */
  ghost predicate Untraded(s: System) {
    s.calls == map[] && s.fills == [] && s.desk.holdings == EMPTY && s.clock == 0.0
  }

  /** The same, but for one call, whose order the broker has taken. */
  ghost predicate Hanging(s: System, t: System, fill: Fill) {
    && t.calls.Keys == {0} && IsPending(t, 0) && OrderFill(t.calls[0].stage.order) == fill
    && t.fills == [] && t.desk.holdings == EMPTY && t.clock == 0.0
    && t.accepted == s.accepted + [fill] && t.lost == s.lost
  }

  lemma TakenHangs(s: System, u: System, w: Wish, q: nat)
    requires Untraded(s) && Opened(s, u, 1, w.symbol)
    ensures Hanging(s, TakenBy(Ordered(u, 0, w, q), 0), WishFill(w, q, 0.0))
  {
  }

  lemma OrderingHangs(cfg: Config, events: seq<Event>, tick: Tick, m: nat, cooldown: real, w: Wish, q: nat)
    requires Plain(cfg, m, cooldown) && cfg.lanes > 0 && OnlyTick(events, tick) && Untraded(Run(cfg, events))
    requires Trades(cfg, w, q) && w.symbol == tick.symbol
    ensures Hanging(Run(cfg, events), Run(cfg, events + Ordering(tick, w)), WishFill(w, q, 0.0))
  {
    var mid := events + Opening(1, tick);
    OpeningCanTrade(cfg, events, 1, tick, m, cooldown, w, q);
    PlacingPlaces(cfg, mid, 0, w, q);
    RunSnoc(cfg, mid + Placing(0, w), Take(0));
    OrderIsTaken(cfg, Run(cfg, mid), 0, w, q);
    TakenHangs(Run(cfg, events), Run(cfg, mid), w, q);
    assert events + Ordering(tick, w) == mid + Placing(0, w) + [Take(0)];
  }

  /** The broker holds an order that the portfolio will never know of. */
  ghost predicate Diverged(s: System, fill: Fill) {
    Untraded(s) && s.accepted == [fill] && s.lost == [fill]
  }

  lemma OrderingFromStart(cfg: Config, tick: Tick, m: nat, cooldown: real, w: Wish, q: nat)
    requires Plain(cfg, m, cooldown) && cfg.lanes > 0
    requires Trades(cfg, w, q) && w.symbol == tick.symbol
    ensures Hanging(START, Run(cfg, Ordering(tick, w)), WishFill(w, q, 0.0))
  {
    OrderingHangs(cfg, [], tick, m, cooldown, w, q);
    assert [] + Ordering(tick, w) == Ordering(tick, w);
  }

  /** Cancelling a call after the broker took its order loses the order. */
  lemma CancelledOrderIsLost(cfg: Config, tick: Tick, m: nat, cooldown: real, w: Wish, q: nat)
    requires Plain(cfg, m, cooldown) && cfg.lanes > 0
    requires Trades(cfg, w, q) && w.symbol == tick.symbol
    ensures Diverged(Run(cfg, Ordering(tick, w) + [Cancel(0)]), WishFill(w, q, 0.0))
  {
    OrderingFromStart(cfg, tick, m, cooldown, w, q);
    RunSnoc(cfg, Ordering(tick, w), Cancel(0));
    assert Run(cfg, Ordering(tick, w)).calls - {0} == map[];
  }

  /** Such an order once more, and `place_order` raises: on a timeout, say. */
  function TimedOut(tick: Tick, w: Wish): seq<Event> {
    Ordering(tick, w) + [Answer(0, Raised)] + [Publish(0, true)]
  }

  lemma RaisedLoses(cfg: Config, s: System, t: System, fill: Fill)
    requires cfg.Valid() && Hanging(s, t, fill)
    ensures var u := Apply(cfg, Apply(cfg, t, Answer(0, Raised)), Publish(0, true));
            Untraded(u) && u.accepted == s.accepted + [fill] && u.lost == s.lost + [fill]
  {
    RaisingLoses(cfg, t, 0);
    assert t.calls - {0} == map[];
  }

  lemma TimeOutLoses(cfg: Config, events: seq<Event>, tick: Tick, m: nat, cooldown: real, w: Wish, q: nat)
    requires Plain(cfg, m, cooldown) && cfg.lanes > 0 && OnlyTick(events, tick) && Untraded(Run(cfg, events))
    requires Trades(cfg, w, q) && w.symbol == tick.symbol
    ensures var s, t := Run(cfg, events), Run(cfg, events + TimedOut(tick, w));
            Untraded(t) && t.accepted == s.accepted + [WishFill(w, q, 0.0)] && t.lost == s.lost + [WishFill(w, q, 0.0)]
  {
    var taken := events + Ordering(tick, w);
    OrderingHangs(cfg, events, tick, m, cooldown, w, q);
    RunSnoc(cfg, taken, Answer(0, Raised));
    RunSnoc(cfg, taken + [Answer(0, Raised)], Publish(0, true));
    RaisedLoses(cfg, Run(cfg, events), Run(cfg, taken), WishFill(w, q, 0.0));
    assert events + TimedOut(tick, w) == taken + [Answer(0, Raised)] + [Publish(0, true)];
  }

  lemma TimedOutOrderIsLost(cfg: Config, tick: Tick, m: nat, cooldown: real, w: Wish, q: nat)
    requires Plain(cfg, m, cooldown) && cfg.lanes > 0
    requires Trades(cfg, w, q) && w.symbol == tick.symbol
    ensures Diverged(Run(cfg, TimedOut(tick, w)), WishFill(w, q, 0.0))
  {
    TimeOutLoses(cfg, [], tick, m, cooldown, w, q);
    assert [] + TimedOut(tick, w) == TimedOut(tick, w);
  }

  // ----- they pile up -----

  function TimedOutTimes(n: nat, tick: Tick, w: Wish): seq<Event> {
    if n == 0 then [] else TimedOutTimes(n - 1, tick, w) + TimedOut(tick, w)
  }

  function Same(n: nat, fill: Fill): seq<Fill> {
    if n == 0 then [] else Same(n - 1, fill) + [fill]
  }

  lemma {:induction false} TimedOutIsOnlyTick(n: nat, tick: Tick, w: Wish)
    ensures OnlyTick(TimedOutTimes(n, tick, w), tick)
  {
    if n > 0 {
      TimedOutIsOnlyTick(n - 1, tick, w);
      OpeningIsOnlyTick([], 1, tick);
    }
  }

  /** No guard looks at what the broker did, only at what was recorded: with a single lane, and
      with any limit and cooldown, the broker may be sent any number of orders at one instant
      while the portfolio shows nothing.  What it really holds has no bound. */
  lemma {:induction false} LostOrdersPileUp(
    cfg: Config, n: nat, tick: Tick, m: nat, cooldown: real, w: Wish, q: nat)
    requires Plain(cfg, m, cooldown) && cfg.lanes > 0
    requires Trades(cfg, w, q) && w.symbol == tick.symbol
    ensures var s, fill := Run(cfg, TimedOutTimes(n, tick, w)), WishFill(w, q, 0.0);
            Untraded(s) && s.accepted == Same(n, fill) && s.lost == Same(n, fill)
  {
    if n > 0 {
      LostOrdersPileUp(cfg, n - 1, tick, m, cooldown, w, q);
      TimedOutIsOnlyTick(n - 1, tick, w);
      TimeOutLoses(cfg, TimedOutTimes(n - 1, tick, w), tick, m, cooldown, w, q);
    }
  }

  lemma {:induction false} SameNet(n: nat, w: Wish, q: nat, ts: real)
    requires w.action == Buy
    ensures Net(Same(n, WishFill(w, q, ts)), w.symbol) == n * q
  {
    if n > 0 {
      SameNet(n - 1, w, q, ts);
      assert Same(n, WishFill(w, q, ts))[..|Same(n - 1, WishFill(w, q, ts))|] == Same(n - 1, WishFill(w, q, ts));
      assert n * q == (n - 1) * q + q;
    }
  }

  /** So no limit holds for what the broker holds... */
  lemma BrokerIsUnbounded(cfg: Config, most: nat, tick: Tick, m: nat, cooldown: real, w: Wish, q: nat)
    returns (events: seq<Event>)
    requires Plain(cfg, m, cooldown) && cfg.lanes > 0
    requires Trades(cfg, w, q) && w.symbol == tick.symbol && w.action == Buy
    ensures Net(Run(cfg, events).accepted, tick.symbol) > most && Run(cfg, events).Position(tick.symbol) == 0
  {
    events := TimedOutTimes(most + 1, tick, w);
    PiledUpNet(cfg, most + 1, tick, m, cooldown, w, q);
    OrdersExceed(most, q);
  }

  lemma PiledUpNet(cfg: Config, n: nat, tick: Tick, m: nat, cooldown: real, w: Wish, q: nat)
    requires Plain(cfg, m, cooldown) && cfg.lanes > 0
    requires Trades(cfg, w, q) && w.symbol == tick.symbol && w.action == Buy
    ensures var s := Run(cfg, TimedOutTimes(n, tick, w));
            Net(s.accepted, tick.symbol) == n * q && s.Position(tick.symbol) == 0
  {
    LostOrdersPileUp(cfg, n, tick, m, cooldown, w, q);
    SameNet(n, w, q, 0.0);
  }

  lemma OrdersExceed(n: nat, q: nat)
    requires q > 0
    ensures (n + 1) * q > n
  {
    assert (n + 1) * q == n + 1 + (n + 1) * (q - 1);
  }

  /** ... and no cooldown, though calls are serial. */
  lemma LossDefeatsCooldown(cfg: Config, tick: Tick, m: nat, cooldown: real, w: Wish, q: nat)
    requires Plain(cfg, m, cooldown) && cooldown > 0.0 && cfg.lanes > 0
    requires Trades(cfg, w, q) && w.symbol == tick.symbol
    ensures !Spaced(Run(cfg, TimedOutTimes(2, tick, w)).accepted, cooldown)
  {
    LostOrdersPileUp(cfg, 2, tick, m, cooldown, w, q);
    TwoAtOnce(WishFill(w, q, 0.0), cooldown);
  }

  lemma TwoAtOnce(fill: Fill, cooldown: real)
    requires cooldown > 0.0
    ensures !Spaced(Same(2, fill), cooldown)
  {
    var two := Same(2, fill);
    assert two == Same(1, fill) + [fill] && Same(1, fill) == Same(0, fill) + [fill];
    assert two[0] == fill && two[1] == fill;
  }

  // ----- answers that overtake each other -----

  /** Two calls open; the broker takes the order of the first and then that of the second. */
  function TwoOrders(tick: Tick, one: Wish, two: Wish): seq<Event> {
    Opening(2, tick) + Placing(0, one) + Placing(1, two) + [Take(0)] + [Take(1)]
  }

  /** And the second answer comes first. */
  function Overtaking(tick: Tick, one: Wish, two: Wish): seq<Event> {
    TwoOrders(tick, one, two) + [Answer(1, Accepted)] + [Publish(1, true)] + [Answer(0, Accepted)] + [Publish(0, true)]
  }

  lemma TwoCanTrade(cfg: Config, tick: Tick, m: nat, cooldown: real, i: nat, w: Wish, q: nat)
    requires Plain(cfg, m, cooldown) && cfg.lanes >= 2 && i < 2
    requires Trades(cfg, w, q) && w.symbol == tick.symbol
    ensures CanTrade(cfg, Run(cfg, Opening(2, tick)), i, w, q)
    ensures Opened(START, Run(cfg, Opening(2, tick)), 2, tick.symbol)
  {
    OpeningCanTrade(cfg, [], 2, tick, m, cooldown, w, q);
    assert [] + Opening(2, tick) == Opening(2, tick);
  }

  /** Both orders are taken, in this order, and neither is answered. */
  ghost predicate BothHang(t: System, one: Fill, two: Fill) {
    && t.calls.Keys == {0, 1} && IsPending(t, 0) && IsPending(t, 1)
    && OrderFill(t.calls[0].stage.order) == one && OrderFill(t.calls[1].stage.order) == two
    && t.accepted == [one] + [two] && t.fills == [] && t.lost == [] && t.desk.holdings == EMPTY
  }

  lemma BothAreTaken(u: System, symbol: string, one: Wish, two: Wish, p: nat, q: nat)
    requires Opened(START, u, 2, symbol)
    ensures var t := Ordered(Ordered(u, 0, one, p), 1, two, q);
            && IsAtBroker(t, 0) && IsAtBroker(TakenBy(t, 0), 1)
            && BothHang(TakenBy(TakenBy(t, 0), 1), WishFill(one, p, 0.0), WishFill(two, q, 0.0))
  {
  }

  lemma TwoOrdersHang(cfg: Config, tick: Tick, m: nat, cooldown: real, one: Wish, p: nat, two: Wish, q: nat)
    requires Plain(cfg, m, cooldown) && cfg.lanes >= 2 && one.symbol == two.symbol == tick.symbol
    requires Trades(cfg, one, p) && Trades(cfg, two, q)
    ensures BothHang(Run(cfg, TwoOrders(tick, one, two)), WishFill(one, p, 0.0), WishFill(two, q, 0.0))
  {
    var start, u := Opening(2, tick), Run(cfg, Opening(2, tick));
    TwoCanTrade(cfg, tick, m, cooldown, 0, one, p);
    TwoCanTrade(cfg, tick, m, cooldown, 1, two, q);
    var first := start + Placing(0, one);
    PlacingPlaces(cfg, start, 0, one, p);
    assert CanTrade(cfg, Run(cfg, first), 1, two, q);
    var second := first + Placing(1, two);
    PlacingPlaces(cfg, first, 1, two, q);
    BothAreTaken(u, tick.symbol, one, two, p, q);
    var t := Run(cfg, second);
    RunSnoc(cfg, second, Take(0));
    OrderOfFirst(cfg, t, 0);
    RunSnoc(cfg, second + [Take(0)], Take(1));
    OrderOfFirst(cfg, TakenBy(t, 0), 1);
  }

  lemma OrderOfFirst(cfg: Config, s: System, id: nat)
    requires cfg.Valid() && IsAtBroker(s, id) && !s.calls[id].stage.taken
    ensures Apply(cfg, s, Take(id)) == TakenBy(s, id)
  {
  }

  lemma OvertakingEnds(cfg: Config, t: System, one: Fill, two: Fill)
    requires cfg.Valid() && BothHang(t, one, two) && IsFill(one) && IsFill(two)
    ensures Recorded(Recorded(t, 1, two), 0, one).calls == map[]
    ensures Recorded(Recorded(t, 1, two), 0, one).fills == [two] + [one]
  {
    assert t.calls - {1} - {0} == map[];
  }

  /** The answer of the second order overtakes that of the first: nothing is lost, but the
      portfolio replays the two in the other order. */
  lemma OvertakingRecords(cfg: Config, tick: Tick, m: nat, cooldown: real, one: Wish, p: nat, two: Wish, q: nat)
    requires Plain(cfg, m, cooldown) && cfg.lanes >= 2 && one.symbol == two.symbol == tick.symbol
    requires Trades(cfg, one, p) && Trades(cfg, two, q)
    ensures var s := Run(cfg, Overtaking(tick, one, two));
            && s.calls == map[] && s.lost == []
            && s.accepted == [WishFill(one, p, 0.0)] + [WishFill(two, q, 0.0)]
            && s.desk.holdings == EMPTY.After(WishFill(two, q, 0.0)).After(WishFill(one, p, 0.0))
  {
    var events := TwoOrders(tick, one, two);
    TwoOrdersHang(cfg, tick, m, cooldown, one, p, two, q);
    var t := Run(cfg, events);
    AnswerRecords(cfg, t, 1);
    RunSnoc(cfg, events, Answer(1, Accepted));
    RunSnoc(cfg, events + [Answer(1, Accepted)], Publish(1, true));
    var answered := events + [Answer(1, Accepted)] + [Publish(1, true)];
    AnswerRecords(cfg, Run(cfg, answered), 0);
    RunSnoc(cfg, answered, Answer(0, Accepted));
    RunSnoc(cfg, answered + [Answer(0, Accepted)], Publish(0, true));
    OvertakingEnds(cfg, t, WishFill(one, p, 0.0), WishFill(two, q, 0.0));
  }

  lemma ReplayOfTwo(one: Fill, two: Fill)
    ensures Replay([one] + [two]) == EMPTY.After(one).After(two)
  {
    assert ([one] + [two])[..1] == [one] && [one][..0] == [];
    assert Replay([one]) == EMPTY.After(one);
  }

  /** A SELL answered before the BUY it followed: the clamp makes nothing of it, and the
      portfolio keeps shares that the broker has sold. */
  lemma OvertakenAnswerDiverges(cfg: Config, tick: Tick, m: nat, cooldown: real, buy: Wish, p: nat, sell: Wish, q: nat)
    requires Plain(cfg, m, cooldown) && cfg.lanes >= 2 && buy.symbol == sell.symbol == tick.symbol
    requires Trades(cfg, buy, p) && buy.action == Buy && Trades(cfg, sell, q) && sell.action == Sell
    ensures var events := Overtaking(tick, buy, sell);
            var s := Run(cfg, events);
            && s.calls == map[] && Lossless(cfg, events) && multiset(s.accepted) == multiset(s.fills)
            && Replay(s.accepted).Of(tick.symbol) < s.Position(tick.symbol) == p
  {
    OvertakingRecords(cfg, tick, m, cooldown, buy, p, sell, q);
    LossesIff(cfg, Overtaking(tick, buy, sell));
    SameFillsIff(cfg, Overtaking(tick, buy, sell));
    ReplayOfTwo(WishFill(buy, p, 0.0), WishFill(sell, q, 0.0));
  }

  /** Nothing lost and nothing open: the broker's book, replayed, gives every position. */
  ghost predicate AgreesWhenIdle(cfg: Config, events: seq<Event>)
    requires cfg.Valid()
  {
    Lossless(cfg, events) && Run(cfg, events).calls == map[] ==>
      forall symbol :: SamePosition(Run(cfg, events), symbol)
  }

  /** With any list of the three guards, and a sizer that gives shares to a BUY and to a SELL of
      some symbol, that holds for every run exactly when at most one call can be open. */
  lemma PositionsAgreeIffSerial(cfg: Config, m: nat, cooldown: real, buy: Wish, p: nat, sell: Wish, q: nat)
    requires Plain(cfg, m, cooldown) && buy.symbol == sell.symbol
    requires Trades(cfg, buy, p) && buy.action == Buy && Trades(cfg, sell, q) && sell.action == Sell
    ensures (forall events :: AgreesWhenIdle(cfg, events)) <==> cfg.lanes <= 1
  {
    if cfg.lanes <= 1 {
      forall events
        ensures AgreesWhenIdle(cfg, events)
      {
        if Lossless(cfg, events) && Run(cfg, events).calls == map[] {
          SerialBooksAreEqual(cfg, events);
          RunOk(cfg, events);
        }
      }
    } else {
      var tick := Tick(buy.symbol, 0.0, 1.0, 0, BuySide);
      OvertakenAnswerDiverges(cfg, tick, m, cooldown, buy, p, sell, q);
      assert !SamePosition(Run(cfg, Overtaking(tick, buy, sell)), buy.symbol);
      assert !AgreesWhenIdle(cfg, Overtaking(tick, buy, sell));
    }
  }
}
