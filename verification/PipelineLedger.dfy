/** Ledger agreement: what the portfolio says against what the broker did. */
module PipelineLedger {
  import opened Models
  import opened Guardrails
  import opened Ledger
  import opened PipelineRuns
  import opened PipelineBook

  ghost predicate NoFailures(events: seq<Event>) {
    forall e :: e in events ==> !e.Fail?
  }

  lemma HeadIsMember<T>(xs: seq<T>)
    requires xs != []
    ensures xs[0] in xs
  {
  }

  /** With the safety switch off no run ever places an order or holds a share. */
  lemma SwitchOffMeansNoOrders(cfg: Config, events: seq<Event>)
    requires cfg.Valid() && !cfg.live
    ensures var s := Run(cfg, events);
            s.placed == [] && s.accepted == [] && s.fills == [] && s.desk.holdings == EMPTY
  {
    var s := Run(cfg, events);
    RunOk(cfg, events);
    if s.placed != [] { HeadIsMember(s.placed); }
    if s.accepted != [] { HeadIsMember(s.accepted); }
    if s.fills != [] { HeadIsMember(s.fills); }
  }

  /** Every order that ever reaches the broker is a BUY or SELL as confident as the threshold
      demands, with a positive, sized quantity, and every registered guard allowed it in its own
      call's context. */
  lemma EveryOrderWasAllowed(cfg: Config, events: seq<Event>, p: Placement)
    requires cfg.Valid() && p in Run(cfg, events).placed
    ensures cfg.live && p.order.signal.action != Hold
    ensures cfg.threshold <= p.order.signal.confidence <= 1.0
    ensures p.order.quantity == cfg.sizer(p.order.signal) > 0
    ensures AllAllow(cfg.guards, p.order.signal, p.context)
  {
    RunOk(cfg, events);
  }

  /** Ledger agreement.  After any run each position is the closed form of the recorded fills,
      all of which the broker took; and once no call is open the portfolio has recorded exactly
      what the broker took if and only if no step lost an order: no call was cancelled, and no
      `place_order` raised, after the broker had taken its order. */
  lemma LedgerAgreement(cfg: Config, events: seq<Event>, symbol: string, low: int)
    requires cfg.Valid()
    requires IsLowest(low, Run(cfg, events).fills, symbol)
    ensures var s := Run(cfg, events);
            && s.Position(symbol) == Net(s.fills, symbol) - low >= 0
            && (forall f :: f in s.fills ==> f in s.accepted)
            && (s.calls == map[] ==> (multiset(s.accepted) == multiset(s.fills) <==> Lossless(cfg, events)))
  {
    var s := Run(cfg, events);
    RunOk(cfg, events);
    PositionClosedForm(s.fills, symbol, low);
    PositionVersusNet(s.fills, symbol);
    if s.calls == map[] { SameFillsIff(cfg, events); }
  }

  lemma StepCountsNoError(cfg: Config, s: System, e: Event)
    requires cfg.Valid() && CallsOk(cfg, s) && !e.Fail?
    ensures Apply(cfg, s, e).desk.errorCount == s.desk.errorCount
  {
    match e
    case Answer(id, reply) =>
      if IsAtBroker(s, id) {
        assert CallOk(cfg, s, s.calls[id]);
      }
    case _ =>
  }

  /** `record_fill` never raises in a run: every counted error is a failure elsewhere, and
      every recorded fill is counted once. */
  lemma {:induction false} RecordingNeverRaises(cfg: Config, events: seq<Event>)
    requires cfg.Valid()
    ensures NoFailures(events) ==> Run(cfg, events).desk.errorCount == 0
    ensures Run(cfg, events).desk.executedCount == |Run(cfg, events).fills|
  {
    RunOk(cfg, events);
    if events != [] && NoFailures(events) {
      var earlier, e := events[..|events| - 1], events[|events| - 1];
      assert e in events;
      RecordingNeverRaises(cfg, earlier);
      RunOk(cfg, earlier);
      StepCountsNoError(cfg, Run(cfg, earlier), e);
    }
  }
}
