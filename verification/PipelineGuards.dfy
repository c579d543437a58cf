/** What the position limit and the cooldown decide on a new call, in terms of the recorded fills. */
module PipelineGuards {
  import opened Models
  import opened Guardrails
  import opened Ledger
  import opened PipelineRuns

  /** The context of a call is cut from the ledger of its own moment. */
  lemma NewCallSeesLedger(cfg: Config, events: seq<Event>, id: nat, tick: Tick)
    requires cfg.Valid() && id !in Run(cfg, events).calls && |Run(cfg, events).calls| < cfg.lanes
    ensures var s, t := Run(cfg, events), Run(cfg, events + [Arrive(id, tick)]);
            && id in t.calls && t.calls[id].tick == tick
            && t.calls[id].context.positions == Replay(s.fills).positions
            && t.calls[id].context.lastTradeAt == Replay(s.fills).lastTradeAt
            && t.calls[id].context.now == s.clock
  {
    RunOk(cfg, events);
    assert (events + [Arrive(id, tick)])[..|events|] == events;
  }

  /** The position limit refuses exactly a BUY of a symbol of which the recorded fills leave the
      limit or more: net, measured from the lowest point. */
  lemma LimitRefusesIff(
    cfg: Config, events: seq<Event>, id: nat, tick: Tick, signal: TradeSignal, maxShares: nat, low: int)
    requires cfg.Valid() && id !in Run(cfg, events).calls && |Run(cfg, events).calls| < cfg.lanes
    requires IsLowest(low, Run(cfg, events).fills, signal.symbol)
    ensures var s, t := Run(cfg, events), Run(cfg, events + [Arrive(id, tick)]);
            && id in t.calls
            && (!MaxPosition(maxShares).Allows(signal, t.calls[id].context)
                <==> signal.action == Buy && Net(s.fills, signal.symbol) - low >= maxShares)
  {
    var s := Run(cfg, events);
    RunOk(cfg, events);
    NewCallSeesLedger(cfg, events, id, tick);
    PositionClosedForm(s.fills, signal.symbol, low);
  }

  /** Fill `j` is the newest recorded one of the symbol. */
  ghost predicate IsNewest(fills: seq<Fill>, symbol: string, j: nat) {
    j < |fills| && fills[j].symbol == symbol && forall i :: j < i < |fills| ==> fills[i].symbol != symbol
  }

  lemma OneIsNewest(fills: seq<Fill>, symbol: string, j: nat, k: nat)
    requires IsNewest(fills, symbol, j) && IsNewest(fills, symbol, k)
    ensures j == k
  {
  }

  /** The cooldown refuses, whatever the action, exactly if the newest recorded fill of the symbol
      is dated less than the cooldown before; at the full cooldown it allows again. */
  lemma CoolDownRefusesIff(cfg: Config, events: seq<Event>, id: nat, tick: Tick, signal: TradeSignal, seconds: real)
    requires cfg.Valid() && id !in Run(cfg, events).calls && |Run(cfg, events).calls| < cfg.lanes
    requires seconds >= 0.0
    ensures var s, t := Run(cfg, events), Run(cfg, events + [Arrive(id, tick)]);
            && id in t.calls
            && (!CoolDown(seconds).Allows(signal, t.calls[id].context)
                <==> exists j: nat :: IsNewest(s.fills, signal.symbol, j) && s.clock - s.fills[j].ts < seconds)
  {
    var s, symbol := Run(cfg, events), signal.symbol;
    NewCallSeesLedger(cfg, events, id, tick);
    LastTradeIsNewestFill(s.fills, symbol);
    if symbol in Replay(s.fills).lastTradeAt {
      var j: nat :| j < |s.fills| && s.fills[j].symbol == symbol
                    && Replay(s.fills).lastTradeAt[symbol] == s.fills[j].ts
                    && forall i :: j < i < |s.fills| ==> s.fills[i].symbol != symbol;
      assert IsNewest(s.fills, symbol, j);
      forall k: nat | IsNewest(s.fills, symbol, k)
        ensures k == j
      {
        OneIsNewest(s.fills, symbol, j, k);
      }
    }
  }
}
