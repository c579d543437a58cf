/** How far stale snapshots can carry a position past the limit of its guard. */
module PipelineBounds {
  import opened Models
  import opened Guardrails
  import opened Ledger
  import opened Executor
  import opened Coordinator
  import opened PipelineRuns

  /** The limit M of MaxPositionSizeGuard is in force and no order exceeds Q shares. */
  ghost predicate Limited(cfg: Config, m: nat, q: nat) {
    && cfg.Valid()
    && MaxPosition(m) in cfg.guards
    && forall signal :: cfg.sizer(signal) <= q
  }

  /** The most that k interleaved calls can reach: the last allowed snapshot is M-1, and
      every one of the k calls may still buy Q on top of it. */
  function Cap(m: nat, q: nat, k: nat): int {
    if m == 0 then 0 else m - 1 + k * q
  }

  /** A call that may still buy: it was opened while the position was below M. */
  ghost predicate MayBuy(call: Call, symbol: string, m: nat) {
    call.tick.symbol == symbol && Held(call.context, symbol) < m && !call.stage.Auditing?
  }

  ghost function Armed(s: System, symbol: string, m: nat): set<nat> {
    set id | id in s.calls && MayBuy(s.calls[id], symbol, m)
  }

  ghost predicate Bounded(cfg: Config, s: System, symbol: string, m: nat, q: nat) {
    && s.Position(symbol) >= 0
    && (forall id :: id in s.calls ==> Held(s.calls[id].context, symbol) >= 0)
    && s.Position(symbol) + |Armed(s, symbol, m)| * q <= Cap(m, q, cfg.lanes)
  }

  lemma SubsetProduct(some: set<nat>, others: set<nat>, q: nat)
    requires some <= others
    ensures |some| <= |others| && |some| * q <= |others| * q
  {
    assert others == some + (others - some);
    assert |others| == |some| + |others - some|;
    assert |others| * q == |some| * q + |others - some| * q;
  }

  /** No position grows and no call becomes able to buy. */
  lemma ShrinkingKeepsBound(cfg: Config, s: System, t: System, symbol: string, m: nat, q: nat)
    requires Bounded(cfg, s, symbol, m, q)
    requires 0 <= t.Position(symbol) <= s.Position(symbol)
    requires Armed(t, symbol, m) <= Armed(s, symbol, m)
    requires forall id :: id in t.calls ==> id in s.calls && t.calls[id].context == s.calls[id].context
    ensures Bounded(cfg, t, symbol, m, q)
  {
    SubsetProduct(Armed(t, symbol, m), Armed(s, symbol, m), q);
  }

  lemma ArriveKeepsBound(cfg: Config, s: System, id: nat, tick: Tick, symbol: string, m: nat, q: nat)
    requires Limited(cfg, m, q) && CallsOk(cfg, s) && Bounded(cfg, s, symbol, m, q)
    ensures Bounded(cfg, OnArrive(cfg, s, id, tick), symbol, m, q)
  {
    var t := OnArrive(cfg, s, id, tick);
    if t != s {
      ReplacedSame(s.calls, id, t.calls[id]);
      assert Held(t.calls[id].context, symbol) == s.Position(symbol);
      var after, before := Armed(t, symbol, m), Armed(s, symbol, m);
      if MayBuy(t.calls[id], symbol, m) {
        assert after <= t.calls.Keys && |t.calls.Keys| == |t.calls|;
        SubsetProduct(after, t.calls.Keys, q);
        LanesProduct(|t.calls|, cfg.lanes, q);
      } else {
        assert after <= before;
        SubsetProduct(after, before, q);
      }
    }
  }

  lemma LanesProduct(n: nat, k: nat, q: nat)
    requires n <= k
    ensures n * q <= k * q
  {
    assert k * q == n * q + (k - n) * q;
  }

  lemma BuyKeepsBound(cfg: Config, s: System, t: System, id: nat, symbol: string, quantity: int, m: nat, q: nat)
    requires Bounded(cfg, s, symbol, m, q) && 0 <= quantity <= q
    requires id in Armed(s, symbol, m) && Armed(t, symbol, m) <= Armed(s, symbol, m) - {id}
    requires t.Position(symbol) == s.Position(symbol) + quantity
    requires forall j :: j in t.calls ==> j in s.calls && t.calls[j].context == s.calls[j].context
    ensures Bounded(cfg, t, symbol, m, q)
  {
    var before := Armed(s, symbol, m);
    assert |before - {id}| == |before| - 1;
    SubsetProduct(Armed(t, symbol, m), before - {id}, q);
    assert |before| * q == |before - {id}| * q + q;
  }

  lemma AnswerKeepsBound(cfg: Config, s: System, id: nat, reply: BrokerReply, symbol: string, m: nat, q: nat)
    requires Limited(cfg, m, q) && CallsOk(cfg, s) && Bounded(cfg, s, symbol, m, q)
    requires IsAtBroker(s, id) && Truthful(reply, s.calls[id].stage.taken)
    ensures Bounded(cfg, OnAnswer(cfg, s, id, reply), symbol, m, q)
  {
    var t, call := OnAnswer(cfg, s, id, reply), s.calls[id];
    var order := call.stage.order;
    assert CallOk(cfg, s, call);
    assert id !in Armed(t, symbol, m);
    assert Armed(t, symbol, m) <= Armed(s, symbol, m) - {id};
    if reply == Accepted && order.signal.symbol == symbol && order.signal.action == Buy {
      assert MaxPosition(m).Allows(order.signal, call.context);
      BuyKeepsBound(cfg, s, t, id, symbol, order.quantity, m, q);
    } else {
      ShrinkingKeepsBound(cfg, s, t, symbol, m, q);
    }
  }

  lemma BoundKept(cfg: Config, s: System, e: Event, symbol: string, m: nat, q: nat)
    requires Limited(cfg, m, q) && CallsOk(cfg, s) && Bounded(cfg, s, symbol, m, q)
    ensures Bounded(cfg, Apply(cfg, s, e), symbol, m, q)
  {
    var t := Apply(cfg, s, e);
    if t == s { return; }
    match e
    case Arrive(id, tick) => ArriveKeepsBound(cfg, s, id, tick, symbol, m, q);
    case Answer(id, reply) => AnswerKeepsBound(cfg, s, id, reply, symbol, m, q);
    case _ =>
      QuietStep(cfg, s, e);
      ShrinkingKeepsBound(cfg, s, t, symbol, m, q);
  }

  lemma StartBounded(cfg: Config, symbol: string, m: nat, q: nat)
    ensures Bounded(cfg, START, symbol, m, q)
  {
    assert Armed(START, symbol, m) == {};
    LanesProduct(0, cfg.lanes, q);
  }

  lemma BoundImpliesCap(cfg: Config, s: System, symbol: string, m: nat, q: nat)
    requires Bounded(cfg, s, symbol, m, q)
    ensures 0 <= s.Position(symbol) <= Cap(m, q, cfg.lanes)
  {
    LanesProduct(0, |Armed(s, symbol, m)|, q);
  }

  /** With at most k calls open, whatever else is registered, whatever the agents, broker and
      clock do, and even if calls fail or are cancelled anywhere: every position stays
      between 0 and M-1+k*Q, and at 0 if M is 0. */
  lemma {:induction false} PositionBound(cfg: Config, events: seq<Event>, symbol: string, m: nat, q: nat)
    requires Limited(cfg, m, q)
    ensures Bounded(cfg, Run(cfg, events), symbol, m, q)
    ensures 0 <= Run(cfg, events).Position(symbol) <= Cap(m, q, cfg.lanes)
  {
    if events == [] {
      StartBounded(cfg, symbol, m, q);
    } else {
      var earlier, e := events[..|events| - 1], events[|events| - 1];
      var s := Run(cfg, earlier);
      PositionBound(cfg, earlier, symbol, m, q);
      RunOk(cfg, earlier);
      BoundKept(cfg, s, e, symbol, m, q);
      assert Run(cfg, events) == Apply(cfg, s, e);
    }
    BoundImpliesCap(cfg, Run(cfg, events), symbol, m, q);
  }

  /** A single lane overshoots by less than one order. */
  lemma SerialOvershoot(cfg: Config, events: seq<Event>, symbol: string, m: nat, q: nat)
    requires Limited(cfg, m, q) && cfg.lanes == 1 && m > 0
    ensures Run(cfg, events).Position(symbol) < m + q
  {
    PositionBound(cfg, events, symbol, m, q);
  }

  // ----- orders of one size -----

  /** Every BUY or SELL the coordinator can decide on is an order of `q` shares, or none. */
  ghost predicate OneSize(cfg: Config, q: nat) {
    forall signal: TradeSignal ::
      signal.action != Hold && Decided(signal, cfg.threshold) && cfg.sizer(signal) > 0 ==> cfg.sizer(signal) == q
  }

  lemma FixedFills(cfg: Config, s: System, q: nat)
    requires cfg.Valid() && LedgerOk(cfg, s) && OneSize(cfg, q)
    ensures forall f :: f in s.fills ==> f.quantity == q
  {
    forall f | f in s.fills
      ensures f.quantity == q
    {
      assert InBook(s, f);
      var p :| p in s.placed && f == OrderFill(p.order);
      assert OrderOk(cfg, p.order, p.context);
    }
  }

  /** The position is a whole number of orders. */
  lemma {:induction false} WholeOrders(fills: seq<Fill>, symbol: string, q: nat) returns (n: nat)
    requires q > 0 && AllFills(fills) && forall f :: f in fills ==> f.quantity == q
    ensures Replay(fills).Of(symbol) == n * q
  {
    if fills == [] {
      n := 0;
    } else {
      var last := fills[|fills| - 1];
      assert last in fills;
      var before := WholeOrders(fills[..|fills| - 1], symbol, q);
      n := if last.symbol != symbol then before else if last.action == Buy then before + 1 else Max(0, before - 1);
      assert (before + 1) * q == before * q + q && (before - 1) * q == before * q - q;
    }
  }

  /** The most orders of size q that may be held together: those that fit below M, and k. */
  function MostOrders(m: nat, q: nat, k: nat): nat
    requires m > 0 && q > 0
  {
    (m - 1) / q + k
  }

  lemma MostOrdersFit(n: nat, m: nat, q: nat, k: nat)
    requires m > 0 && q > 0 && n * q <= m - 1 + k * q
    ensures n * q <= MostOrders(m, q, k) * q
  {
    var d, r := (m - 1) / q, (m - 1) % q;
    assert m - 1 == d * q + r;
    assert (d + k) * q == d * q + k * q && (d + k + 1) * q == (d + k) * q + q;
    if n > d + k {
      LanesProduct(d + k + 1, n, q);
    } else {
      LanesProduct(n, d + k, q);
    }
  }

  /** With orders of one size Q, whatever else is registered, every position stays within
      floor((M-1)/Q) + k orders. */
  lemma FixedSizeBound(cfg: Config, events: seq<Event>, symbol: string, m: nat, q: nat)
    requires Limited(cfg, m, q) && m > 0 && q > 0 && OneSize(cfg, q)
    ensures Run(cfg, events).Position(symbol) <= MostOrders(m, q, cfg.lanes) * q
  {
    PositionBound(cfg, events, symbol, m, q);
    RunOk(cfg, events);
    FixedFills(cfg, Run(cfg, events), q);
    var n := WholeOrders(Run(cfg, events).fills, symbol, q);
    MostOrdersFit(n, m, q, cfg.lanes);
  }
}
