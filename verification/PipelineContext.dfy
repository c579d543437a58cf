/** What the guards and the quant agent see of the market, against the full tick history. */
module PipelineContext {
  import opened Models
  import opened Guardrails
  import opened TickWindows
  import opened PipelineRuns
  import Quant = QuantAgent

  /** The call's price view was cut when its own tick was the newest arrival. */
  ghost predicate SeesItsMoment(cfg: Config, s: System, call: Call) {
    && 1 <= call.seen <= |s.arrivals|
    && s.arrivals[call.seen - 1] == call.tick
    && call.context.recentPrices
       == map[call.tick.symbol := Prices(Recent(
                RecordedAll(map[], s.arrivals[..call.seen], cfg.maxWindow),
                call.tick.symbol, Some(cfg.volatilityWindow)))]
  }

  ghost predicate ContextOk(cfg: Config, s: System) {
    && s.desk.windows == RecordedAll(map[], s.arrivals, cfg.maxWindow)
    && forall id :: id in s.calls ==> SeesItsMoment(cfg, s, s.calls[id])
  }

  lemma StillSees(cfg: Config, s: System, t: System, call: Call, arrived: seq<Tick>)
    requires SeesItsMoment(cfg, s, call) && t.arrivals == s.arrivals + arrived
    ensures SeesItsMoment(cfg, t, call)
  {
    assert t.arrivals[..call.seen] == s.arrivals[..call.seen];
  }

  /** The windows after one more tick are those of the longer history. */
  lemma OneMoreTick(ticks: seq<Tick>, tick: Tick, maxWindow: nat)
    requires maxWindow >= 2
    ensures RecordedAll(map[], ticks + [tick], maxWindow)
            == Recorded(RecordedAll(map[], ticks, maxWindow), tick, maxWindow)
  {
    assert (ticks + [tick])[..|ticks|] == ticks;
  }

  lemma NewcomerSees(cfg: Config, s: System, id: nat, tick: Tick)
    requires cfg.Valid() && s.desk.windows == RecordedAll(map[], s.arrivals, cfg.maxWindow)
    requires id !in s.calls && |s.calls| < cfg.lanes
    ensures var t := OnArrive(cfg, s, id, tick);
            && t.desk.windows == RecordedAll(map[], t.arrivals, cfg.maxWindow)
            && SeesItsMoment(cfg, t, t.calls[id])
  {
    var t := OnArrive(cfg, s, id, tick);
    OneMoreTick(s.arrivals, tick, cfg.maxWindow);
    assert t.arrivals[..|s.arrivals| + 1] == t.arrivals;
  }

  lemma ArriveKeepsContext(cfg: Config, s: System, id: nat, tick: Tick)
    requires cfg.Valid() && ContextOk(cfg, s)
    ensures ContextOk(cfg, OnArrive(cfg, s, id, tick))
  {
    var t := OnArrive(cfg, s, id, tick);
    if id !in s.calls && |s.calls| < cfg.lanes {
      NewcomerSees(cfg, s, id, tick);
      forall j | j in t.calls && j != id
        ensures SeesItsMoment(cfg, t, t.calls[j])
      {
        StillSees(cfg, s, t, s.calls[j], [tick]);
      }
    }
  }

  lemma {:induction false} RunSees(cfg: Config, events: seq<Event>)
    requires cfg.Valid()
    ensures ContextOk(cfg, Run(cfg, events))
  {
    if events != [] {
      var s, e := Run(cfg, events[..|events| - 1]), events[|events| - 1];
      RunSees(cfg, events[..|events| - 1]);
      if e.Arrive? {
        ArriveKeepsContext(cfg, s, e.id, e.tick);
      } else {
        var t := Apply(cfg, s, e);
        NoNewCalls(cfg, s, e);
        forall j | j in t.calls
          ensures SeesItsMoment(cfg, t, t.calls[j])
        {
          assert SeesItsMoment(cfg, s, s.calls[j]);
        }
      }
    }
  }

  /** In every reachable state, whatever symbols interleaved, the breaker's verdict on an
      open call is the verdict it would give on the symbol's whole history up to the tick. */
  lemma BreakerSeesWholeHistory(
    cfg: Config, events: seq<Event>, id: nat, signal: TradeSignal, maxDrop: real, maxCv: real, windowSize: nat)
    requires cfg.Valid() && id in Run(cfg, events).calls
    requires signal.symbol == Run(cfg, events).calls[id].tick.symbol
    requires Breaker(maxDrop, maxCv, windowSize).WellFormed()
    requires cfg.maxWindow >= cfg.volatilityWindow >= Max(windowSize, 4)
    ensures var s := Run(cfg, events);
            var call := s.calls[id];
            call.seen <= |s.arrivals|
            && (Breaker(maxDrop, maxCv, windowSize).Allows(signal, call.context)
                <==> Calm(Prices(History(s.arrivals[..call.seen], signal.symbol)), maxDrop, maxCv, windowSize))
  {
    var s := Run(cfg, events);
    RunSees(cfg, events);
    assert SeesItsMoment(cfg, s, s.calls[id]);
    var past, n := History(s.arrivals[..s.calls[id].seen], signal.symbol), cfg.volatilityWindow;
    RecentRefinesHistory(s.arrivals[..s.calls[id].seen], cfg.maxWindow, signal.symbol, n);
    PricesLastN(past, n);
    CalmLooksBackOnly(Prices(past), n, maxDrop, maxCv, windowSize);
  }

  /** The quant agent, which reads the whole window when it happens to run, votes on the
      whole history so far, as long as the window holds period+1 ticks. */
  lemma QuantSeesWholeHistory(cfg: Config, events: seq<Event>, agent: Quant.Settings, symbol: string)
    requires cfg.Valid() && agent.WellFormed() && cfg.maxWindow >= agent.period + 1
    ensures var s := Run(cfg, events);
            Quant.Evaluate(agent, symbol, Prices(Recent(s.desk.windows, symbol, None)))
            == Quant.Evaluate(agent, symbol, Prices(History(s.arrivals, symbol)))
  {
    var s := Run(cfg, events);
    RunSees(cfg, events);
    RecentRefinesHistory(s.arrivals, cfg.maxWindow, symbol, 1);
    PricesLastN(History(s.arrivals, symbol), cfg.maxWindow);
    Quant.VoteNeedsFullWindow(agent, symbol, cfg.maxWindow);
  }
}
