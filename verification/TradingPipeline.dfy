/** src/domain/trading/pipeline.py: one tick in, one decision out.  The method is cut at
    its awaits; each piece runs without interruption on the event loop. */
module TradingPipeline {
  import opened Models
  import opened Guardrails
  import opened Ledger
  import opened TickWindows
  import opened Executor
  import opened Coordinator

  /** What the pipeline and its collaborators hold between awaits. */
  datatype Desk = Desk(
    holdings: Holdings,
    windows: Windows,
    tickCount: nat,
    executedCount: nat,
    errorCount: nat,
    auditFailures: nat)

  function FillOf(result: ExecutionResult): Fill {
    Fill(result.symbol, result.action, result.quantity, result.ts)
  }

  /** The desk once `tick` is counted and recorded. */
  function Noted(desk: Desk, tick: Tick, maxWindow: nat): Desk {
    desk.(tickCount := desk.tickCount + 1, windows := Recorded(desk.windows, tick, maxWindow))
  }

  /** The frozen context taken right after; it may be stale when the guards read it. */
  function Snapshot(desk: Desk, symbol: string, volatilityWindow: int, now: real): GuardContext {
    GuardContext(
      desk.holdings.positions,
      desk.holdings.lastTradeAt,
      map[symbol := Prices(Recent(desk.windows, symbol, Some(volatilityWindow)))],
      now)
  }

  /** Whether the result is a confirmed fill. */
  predicate Confirmed(result: ExecutionResult) {
    result.executed && result.action != Hold
  }

  /** The desk after an exception that `on_tick` swallows. */
  function Errored(desk: Desk): Desk {
    desk.(errorCount := desk.errorCount + 1)
  }

  /** The desk after the executor's result: a confirmed fill is recorded; if the ledger
      refuses it the exception ends the call and is counted. */
  function Booked(desk: Desk, result: ExecutionResult): Desk {
    if !Confirmed(result) then desk
    else if IsFill(FillOf(result)) then
      desk.(holdings := desk.holdings.After(FillOf(result)), executedCount := desk.executedCount + 1)
    else Errored(desk)
  }

  /** The verdict on a tick for given ballots, on the desk that has just noted it. */
  function VerdictOn(
    noted: Desk, symbol: string, volatilityWindow: int, now: real,
    threshold: real, ballots: seq<Ballot>, guards: seq<Guard>): GuardedSignal
    requires WellFormedAll(guards)
  {
    Guarded(guards, Evaluated(symbol, threshold, ballots), Snapshot(noted, symbol, volatilityWindow, now))
  }

  /** The desk after the audit publish, if one is wired; a failing one is only counted. */
  function Audited(desk: Desk, audited: bool, ok: bool): Desk {
    if audited && !ok then desk.(auditFailures := desk.auditFailures + 1) else desk
  }

  class TradingPipeline {
    const context: TickContext
    const portfolio: Portfolio
    const guardrails: GuardrailPipeline
    const coordinator: TradingCoordinator
    const live: bool
    const sizer: TradeSignal -> int
    const volatilityWindow: int
    const audited: bool
    var tickCount: nat
    var executedCount: nat
    var errorCount: nat
    var auditFailureCount: nat

    ghost predicate Valid()
      reads this, guardrails, coordinator
    {
      guardrails.Valid() && coordinator.Valid()
    }

    ghost function View(): Desk
      reads this, context, portfolio
    {
      Desk(portfolio.View(), context.bySymbol, tickCount, executedCount, errorCount, auditFailureCount)
    }

    constructor (
      context: TickContext, coordinator: TradingCoordinator, guardrails: GuardrailPipeline, portfolio: Portfolio,
      live: bool, sizer: TradeSignal -> int, volatilityWindow: int, audited: bool)
      requires guardrails.Valid() && coordinator.Valid()
      ensures Valid()
      ensures this.context == context && this.portfolio == portfolio
      ensures this.guardrails == guardrails && this.coordinator == coordinator
      ensures this.live == live && this.sizer == sizer
      ensures this.volatilityWindow == volatilityWindow && this.audited == audited
      ensures View() == Desk(portfolio.View(), context.bySymbol, 0, 0, 0, 0)
    {
      this.context, this.coordinator, this.guardrails, this.portfolio := context, coordinator, guardrails, portfolio;
      this.live, this.sizer, this.volatilityWindow, this.audited := live, sizer, volatilityWindow, audited;
      tickCount, executedCount, errorCount, auditFailureCount := 0, 0, 0, 0;
    }

    /** Up to the await on the coordinator. */
    method Begin(tick: Tick, now: real) returns (snapshot: GuardContext)
      modifies this, context
      ensures View() == Noted(old(View()), tick, context.maxWindow)
      ensures snapshot == Snapshot(View(), tick.symbol, volatilityWindow, now)
    {
      tickCount := tickCount + 1;
      context.Record(tick);
      var prices := Prices(context.RecentTicks(tick.symbol, Some(volatilityWindow)));
      snapshot := GuardContext(portfolio.positions, portfolio.lastTradeAt, map[tick.symbol := prices], now);
    }

    /** From the executor's return to the audit publish; `ok` is false if recording raised. */
    method RecordResult(result: ExecutionResult) returns (ok: bool)
      modifies this, portfolio
      ensures View() == Booked(old(View()), result)
      ensures ok <==> (Confirmed(result) ==> IsFill(FillOf(result)))
    {
      ok := true;
      if result.executed && result.action != Hold {
        ok := portfolio.RecordFill(FillOf(result));
        if ok {
          executedCount := executedCount + 1;
        } else {
          errorCount := errorCount + 1;
        }
      }
    }

    /** The executor with nothing interleaving at the broker, for a given broker's reply. */
    method Submitted(guarded: GuardedSignal, submittedAt: real, broker: BrokerReply) returns (result: ExecutionResult)
      ensures result == Execute(live, sizer, guarded, submittedAt, broker)
      ensures Confirmed(result) ==> IsFill(FillOf(result))
    {
      match Submit(live, sizer, guarded, submittedAt) {
        case Finished(r) => result := r;
        case Placed(order) => result := Settled(order, broker);
      }
      ResultIsRecordable(live, sizer, guarded, submittedAt, broker);
    }

    /** A call without exceptions that nothing interleaves with, for given outside answers: the
        agents' replies, the broker's reply, the audit channel's health and the two clock
        readings. */
    method Process(
      tick: Tick, now: real, replies: seq<Reply>, submittedAt: real, broker: BrokerReply, auditOk: bool)
      returns (result: ExecutionResult)
      requires Valid() && |replies| == |coordinator.weights|
      modifies this, context, portfolio
      ensures Valid()
      ensures var noted := Noted(old(View()), tick, context.maxWindow);
              var guarded := VerdictOn(
                noted, tick.symbol, volatilityWindow, now,
                coordinator.threshold, Ballots(coordinator.weights, replies), guardrails.guards);
              && result == Execute(live, sizer, guarded, submittedAt, broker)
              && View() == Audited(Booked(noted, result), audited, auditOk)
    {
      var snapshot := Begin(tick, now);
      var signal := coordinator.Evaluate(tick.symbol, replies);
      var guarded := guardrails.Evaluate(signal, snapshot);
      result := Submitted(guarded, submittedAt, broker);
      Conclude(result, auditOk);
    }

    /** From the executor's return to the end of a call, with nothing interleaving at the audit
        publish. */
    method Conclude(result: ExecutionResult, auditOk: bool)
      modifies this, portfolio
      ensures View() == Audited(Booked(old(View()), result), audited, auditOk)
    {
      var ok := RecordResult(result);
      if audited && !auditOk {
        auditFailureCount := auditFailureCount + 1;
      }
    }

    /** A whole call.  If an exception escapes agents, guards or sizer there is no result: only
        the tick and the error are counted. */
    method OnTick(
      tick: Tick, now: real, replies: seq<Reply>, escapes: bool, submittedAt: real, broker: BrokerReply,
      auditOk: bool)
      returns (result: Option<ExecutionResult>)
      requires Valid() && |replies| == |coordinator.weights|
      modifies this, context, portfolio
      ensures Valid()
      ensures result.None? <==> escapes
      ensures escapes ==> View() == Errored(Noted(old(View()), tick, context.maxWindow))
      ensures !escapes ==>
                var noted := Noted(old(View()), tick, context.maxWindow);
                var guarded := VerdictOn(
                  noted, tick.symbol, volatilityWindow, now,
                  coordinator.threshold, Ballots(coordinator.weights, replies), guardrails.guards);
                && result.value == Execute(live, sizer, guarded, submittedAt, broker)
                && View() == Audited(Booked(noted, result.value), audited, auditOk)
    {
      if escapes {
        var snapshot := Begin(tick, now);
        errorCount := errorCount + 1;
        return None;
      }
      var outcome := Process(tick, now, replies, submittedAt, broker, auditOk);
      result := Some(outcome);
    }
  }

  /** The executor never hands the ledger anything `record_fill` would refuse. */
  lemma ResultIsRecordable(
    live: bool, sizer: TradeSignal -> int, guarded: GuardedSignal, now: real, reply: BrokerReply)
    ensures var result := Execute(live, sizer, guarded, now, reply);
            Confirmed(result) ==> IsFill(FillOf(result))
  {
  }
}
