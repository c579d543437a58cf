/** src/domain/trading/executor.py: the last step before real money. */
module Executor {
  import opened Models
  import opened Guardrails

  datatype Mode = Live | Shadow | Noop

  datatype ExecutionResult = ExecutionResult(
    mode: Mode, executed: bool, action: Action, symbol: string, quantity: int, ts: real)

  /** An order as handed to the broker client; `ts` is when `execute` began. */
  datatype Order = Order(signal: TradeSignal, quantity: int, ts: real)

  /** How a `place_order` call ends.  One that raises, on a timeout or an unreadable answer, says
      nothing about what the broker did with the order. */
  datatype BrokerReply = Accepted | Rejected | Raised

  /** `execute` up to its only suspension point: finished, or waiting for the broker. */
  datatype Submission = Finished(result: ExecutionResult) | Placed(order: Order)

  function Submit(live: bool, sizer: TradeSignal -> int, guarded: GuardedSignal, now: real): Submission {
    var effective := guarded.Effective();
    if effective.action == Hold then
      Finished(ExecutionResult(Noop, false, Hold, effective.symbol, 0, now))
    else
      var quantity := sizer(effective);
      if quantity <= 0 then
        Finished(ExecutionResult(Noop, false, effective.action, effective.symbol, 0, now))
      else if !live then
        Finished(ExecutionResult(Shadow, false, effective.action, effective.symbol, quantity, now))
      else
        Placed(Order(effective, quantity, now))
  }

  /** The rest of `execute`, once the broker has answered. */
  function Settled(order: Order, reply: BrokerReply): ExecutionResult {
    ExecutionResult(Live, reply == Accepted, order.signal.action, order.signal.symbol, order.quantity, order.ts)
  }

  function Execute(
    live: bool, sizer: TradeSignal -> int, guarded: GuardedSignal, now: real, reply: BrokerReply): ExecutionResult
  {
    match Submit(live, sizer, guarded, now)
    case Finished(result) => result
    case Placed(order) => Settled(order, reply)
  }

  /** The broker is contacted exactly for a BUY or SELL that every guard allows, that the
      sizer gives shares to, and with the switch on; the order then carries exactly that. */
  lemma BrokerContactedIff(
    live: bool, sizer: TradeSignal -> int, guards: seq<Guard>, signal: TradeSignal, context: GuardContext, now: real)
    requires WellFormedAll(guards)
    ensures var submission := Submit(live, sizer, Guarded(guards, signal, context), now);
            && (submission.Placed?
                <==> live && signal.action != Hold && sizer(signal) > 0 && AllAllow(guards, signal, context))
            && (submission.Placed? ==> submission.order == Order(signal, sizer(signal), now))
  {
    EffectiveMeansAllAllow(guards, signal, context);
  }

  /** Money moves exactly when the broker was contacted and accepted; a result says so
      only in live mode, and always names a real trade. */
  lemma ExecutedIff(
    live: bool, sizer: TradeSignal -> int, guards: seq<Guard>, signal: TradeSignal, context: GuardContext,
    now: real, reply: BrokerReply)
    requires WellFormedAll(guards)
    ensures var result := Execute(live, sizer, Guarded(guards, signal, context), now, reply);
            && (result.executed
                <==> live && signal.action != Hold && sizer(signal) > 0
                     && AllAllow(guards, signal, context) && reply == Accepted)
            && (result.executed ==>
                  result.mode == Live && result.action == signal.action && result.symbol == signal.symbol
                  && result.quantity == sizer(signal) > 0 && result.ts == now)
            && (!live ==> result.mode != Live)
  {
    BrokerContactedIff(live, sizer, guards, signal, context, now);
  }

  /** Every result, in full.  A HOLD, or a signal that some guard blocks, is a HOLD without shares;
      without shares from the sizer it keeps its action; with the switch off it is a shadow of
      exactly the trade it would have been; and else it is live, executed if the broker accepted. */
  lemma EveryResult(
    live: bool, sizer: TradeSignal -> int, guards: seq<Guard>, signal: TradeSignal, context: GuardContext,
    now: real, reply: BrokerReply)
    requires WellFormedAll(guards)
    ensures var result := Execute(live, sizer, Guarded(guards, signal, context), now, reply);
            && result.symbol == signal.symbol && result.ts == now
            && (if signal.action == Hold || !AllAllow(guards, signal, context) then
                  result.mode == Noop && !result.executed && result.action == Hold && result.quantity == 0
                else if sizer(signal) <= 0 then
                  result.mode == Noop && !result.executed && result.action == signal.action && result.quantity == 0
                else if !live then
                  result.mode == Shadow && !result.executed
                  && result.action == signal.action && result.quantity == sizer(signal)
                else
                  result.mode == Live && (result.executed <==> reply == Accepted)
                  && result.action == signal.action && result.quantity == sizer(signal))
  {
    EffectiveMeansAllAllow(guards, signal, context);
  }
}
