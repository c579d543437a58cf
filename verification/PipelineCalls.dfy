/** A call that nothing interleaves with, as steps of the machine. */
module PipelineCalls {
  import opened Models
  import opened Guardrails
  import opened Ledger
  import opened Executor
  import opened Coordinator
  import opened TradingPipeline
  import opened PipelineRuns
  import opened PipelineWitness

  /** Every step of one call, from its tick to its end, for a truthful reply about an order that
      the broker has `taken` or not; steps the call does not need do nothing. */
  function WholeCall(
    id: nat, tick: Tick, ballots: seq<Ballot>, taken: bool, reply: BrokerReply, auditOk: bool): seq<Event>
  {
    [Arrive(id, tick), Collect(id, ballots), Judge(id)] + [Enter(id)] + (if taken then [Take(id)] else [])
    + [Answer(id, reply)] + [Publish(id, auditOk)]
  }

  /** The tick of `id` has just arrived in `s`, and its call has reached `stage`. */
  function Reached(cfg: Config, s: System, id: nat, tick: Tick, stage: Stage): System
    requires cfg.Valid()
  {
    var noted := Noted(s.desk, tick, cfg.maxWindow);
    var context := Snapshot(noted, tick.symbol, cfg.volatilityWindow, s.clock);
    s.(desk := noted,
       arrivals := s.arrivals + [tick],
       calls := s.calls[id := Call(tick, context, |s.arrivals| + 1, stage)])
  }

  function VerdictIn(cfg: Config, s: System, tick: Tick, ballots: seq<Ballot>): GuardedSignal
    requires cfg.Valid()
  {
    VerdictOn(
      Noted(s.desk, tick, cfg.maxWindow), tick.symbol, cfg.volatilityWindow, s.clock,
      cfg.threshold, ballots, cfg.guards)
  }

  lemma ArrivalReaches(cfg: Config, s: System, id: nat, tick: Tick)
    requires cfg.Valid() && id !in s.calls && |s.calls| < cfg.lanes
    ensures Apply(cfg, s, Arrive(id, tick)) == Reached(cfg, s, id, tick, Polling)
  {
  }

  lemma CollectReaches(cfg: Config, s: System, id: nat, tick: Tick, ballots: seq<Ballot>)
    requires cfg.Valid()
    ensures Apply(cfg, Reached(cfg, s, id, tick, Polling), Collect(id, ballots))
         == Reached(cfg, s, id, tick, Judging(Evaluated(tick.symbol, cfg.threshold, ballots)))
  {
  }

  lemma JudgeReaches(cfg: Config, s: System, id: nat, tick: Tick, ballots: seq<Ballot>)
    requires cfg.Valid()
    ensures Apply(cfg, Reached(cfg, s, id, tick, Judging(Evaluated(tick.symbol, cfg.threshold, ballots))), Judge(id))
         == Reached(cfg, s, id, tick, Sizing(VerdictIn(cfg, s, tick, ballots)))
  {
  }

  lemma ReachesVerdict(cfg: Config, s: System, id: nat, tick: Tick, ballots: seq<Ballot>)
    requires cfg.Valid() && id !in s.calls && |s.calls| < cfg.lanes
    ensures Apply(cfg, Apply(cfg, Apply(cfg, s, Arrive(id, tick)), Collect(id, ballots)), Judge(id))
         == Reached(cfg, s, id, tick, Sizing(VerdictIn(cfg, s, tick, ballots)))
  {
    ArrivalReaches(cfg, s, id, tick);
    CollectReaches(cfg, s, id, tick, ballots);
    JudgeReaches(cfg, s, id, tick, ballots);
  }

  /** What a whole call leaves of the state it met, apart from the order books. */
  ghost predicate Concludes(cfg: Config, u: System, t: System, id: nat, result: ExecutionResult, auditOk: bool) {
    && t.desk == Audited(Booked(u.desk, result), cfg.audited, auditOk)
    && t.calls == u.calls - {id}
  }

  lemma DoneConcludes(cfg: Config, u: System, v: System, id: nat, result: ExecutionResult, auditOk: bool)
    requires cfg.Valid() && IsOpen(v, id) && v.calls - {id} == u.calls - {id}
    requires v.desk == Booked(u.desk, result)
    ensures Concludes(cfg, u, Apply(cfg, Done(cfg, v, id), Publish(id, auditOk)), id, result, auditOk)
  {
    var t := Apply(cfg, Done(cfg, v, id), Publish(id, auditOk));
    if cfg.audited {
      assert v.calls[id := v.calls[id].(stage := Auditing)] - {id} == v.calls - {id};
    }
  }

  /** The call has been through the executor, and the broker has `taken` its order, if there is one. */
  function AtAnswer(cfg: Config, u: System, id: nat, taken: bool): System
    requires cfg.Valid()
  {
    var v := Apply(cfg, u, Enter(id));
    if taken then Apply(cfg, v, Take(id)) else v
  }

  /** The answer, and the audit publish after it. */
  function AtEnd(cfg: Config, u: System, id: nat, taken: bool, reply: BrokerReply, auditOk: bool): System
    requires cfg.Valid()
  {
    Apply(cfg, Apply(cfg, AtAnswer(cfg, u, id, taken), Answer(id, reply)), Publish(id, auditOk))
  }

  lemma FinishedConcludes(
    cfg: Config, u: System, id: nat, result: ExecutionResult, taken: bool, reply: BrokerReply, auditOk: bool)
    requires cfg.Valid() && IsOpen(u, id) && u.calls[id].stage.Sizing?
    requires Submit(cfg.live, cfg.sizer, u.calls[id].stage.guarded, u.clock) == Finished(result)
    ensures Concludes(
              cfg, u, Apply(cfg, Apply(cfg, AtAnswer(cfg, u, id, taken), Answer(id, reply)), Publish(id, auditOk)),
              id, result, auditOk)
  {
    var v := u.(desk := Booked(u.desk, result));
    assert AtAnswer(cfg, u, id, taken) == Done(cfg, v, id);
    assert Apply(cfg, Done(cfg, v, id), Answer(id, reply)) == Done(cfg, v, id);
    DoneConcludes(cfg, u, v, id, result, auditOk);
  }

  /** The order is with the broker. */
  lemma PlacedWaits(cfg: Config, u: System, id: nat, order: Order, taken: bool)
    requires cfg.Valid() && IsOpen(u, id) && u.calls[id].stage.Sizing?
    requires Submit(cfg.live, cfg.sizer, u.calls[id].stage.guarded, u.clock) == Placed(order)
    ensures var v := AtAnswer(cfg, u, id, taken);
            && IsAtBroker(v, id) && v.calls[id].stage == AtBroker(order, taken)
            && v.calls - {id} == u.calls - {id} && v.desk == u.desk
  {
  }

  lemma AnswerConcludes(
    cfg: Config, u: System, v: System, id: nat, order: Order, taken: bool, reply: BrokerReply, auditOk: bool)
    requires cfg.Valid() && Truthful(reply, taken)
    requires reply == Accepted ==> IsFill(OrderFill(order))
    requires IsAtBroker(v, id) && v.calls[id].stage == AtBroker(order, taken)
    requires v.calls - {id} == u.calls - {id} && v.desk == u.desk
    ensures Concludes(
              cfg, u, Apply(cfg, Apply(cfg, v, Answer(id, reply)), Publish(id, auditOk)),
              id, Settled(order, reply), auditOk)
  {
    var result, fill := Settled(order, reply), OrderFill(order);
    var w := v.(desk := Booked(v.desk, result));
    var x := if result.executed then w.(fills := w.fills + [fill]) else if taken then Unrecorded(w, fill) else w;
    assert Apply(cfg, v, Answer(id, reply)) == Done(cfg, x, id);
    DoneConcludes(cfg, u, x, id, result, auditOk);
  }

  lemma VerdictConcludes(
    cfg: Config, u: System, id: nat, guarded: GuardedSignal, taken: bool, reply: BrokerReply, auditOk: bool)
    requires cfg.Valid() && IsOpen(u, id) && u.calls[id].stage == Sizing(guarded) && Truthful(reply, taken)
    ensures Concludes(
              cfg, u, AtEnd(cfg, u, id, taken, reply, auditOk),
              id, Execute(cfg.live, cfg.sizer, guarded, u.clock, reply), auditOk)
  {
    match Submit(cfg.live, cfg.sizer, guarded, u.clock)
    case Finished(result) => FinishedConcludes(cfg, u, id, result, taken, reply, auditOk);
    case Placed(order) =>
      PlacedWaits(cfg, u, id, order, taken);
      AnswerConcludes(cfg, u, AtAnswer(cfg, u, id, taken), id, order, taken, reply, auditOk);
  }

  lemma ReachedThenClosed(cfg: Config, s: System, id: nat, tick: Tick, stage: Stage)
    requires cfg.Valid() && id !in s.calls
    ensures Reached(cfg, s, id, tick, stage).calls - {id} == s.calls
  {
  }

  /** From any reachable state with a free lane, the steps of one whole call lead to the desk
      that `on_tick` leaves when nothing interleaves, and leave every other call as it was: the
      machine is the program, cut at its awaits. */
  lemma WholeCallIsOnTick(
    cfg: Config, events: seq<Event>, id: nat, tick: Tick, ballots: seq<Ballot>, taken: bool, reply: BrokerReply,
    auditOk: bool)
    requires cfg.Valid() && id !in Run(cfg, events).calls && |Run(cfg, events).calls| < cfg.lanes
    requires Truthful(reply, taken)
    ensures var s, t := Run(cfg, events), Run(cfg, events + WholeCall(id, tick, ballots, taken, reply, auditOk));
            var result := Execute(cfg.live, cfg.sizer, VerdictIn(cfg, s, tick, ballots), s.clock, reply);
            && t.calls == s.calls
            && t.desk == Audited(Booked(Noted(s.desk, tick, cfg.maxWindow), result), cfg.audited, auditOk)
  {
    var s, guarded := Run(cfg, events), VerdictIn(cfg, Run(cfg, events), tick, ballots);
    RunWholeCall(cfg, events, id, tick, ballots, taken, reply, auditOk);
    VerdictConcludes(cfg, Reached(cfg, s, id, tick, Sizing(guarded)), id, guarded, taken, reply, auditOk);
    ReachedThenClosed(cfg, s, id, tick, Sizing(guarded));
  }

  lemma RunWholeCall(
    cfg: Config, events: seq<Event>, id: nat, tick: Tick, ballots: seq<Ballot>, taken: bool, reply: BrokerReply,
    auditOk: bool)
    requires cfg.Valid() && id !in Run(cfg, events).calls && |Run(cfg, events).calls| < cfg.lanes
    ensures var s := Run(cfg, events);
            var u := Reached(cfg, s, id, tick, Sizing(VerdictIn(cfg, s, tick, ballots)));
            Run(cfg, events + WholeCall(id, tick, ballots, taken, reply, auditOk))
            == AtEnd(cfg, u, id, taken, reply, auditOk)
  {
    RunToVerdict(cfg, events, id, tick, ballots);
    RunToEnd(cfg, events + [Arrive(id, tick), Collect(id, ballots), Judge(id)], id, taken, reply, auditOk);
    WholeCallIs(events, id, tick, ballots, taken, reply, auditOk);
  }

  lemma FailureConcludes(cfg: Config, s: System, id: nat, tick: Tick)
    requires cfg.Valid() && id !in s.calls
    ensures var t := Apply(cfg, Reached(cfg, s, id, tick, Polling), Fail(id));
            t.calls == s.calls && t.desk == Errored(Noted(s.desk, tick, cfg.maxWindow))
  {
    var u := Reached(cfg, s, id, tick, Polling);
    assert u.calls - {id} == s.calls;
  }

  /** Likewise the two steps of a call from which an exception escapes before the executor. */
  lemma FailedCallIsOnTick(cfg: Config, events: seq<Event>, id: nat, tick: Tick)
    requires cfg.Valid() && id !in Run(cfg, events).calls && |Run(cfg, events).calls| < cfg.lanes
    ensures var s, t := Run(cfg, events), Run(cfg, events + [Arrive(id, tick)] + [Fail(id)]);
            t.calls == s.calls && t.desk == Errored(Noted(s.desk, tick, cfg.maxWindow))
  {
    RunSnoc(cfg, events, Arrive(id, tick));
    RunSnoc(cfg, events + [Arrive(id, tick)], Fail(id));
    ArrivalReaches(cfg, Run(cfg, events), id, tick);
    FailureConcludes(cfg, Run(cfg, events), id, tick);
  }

  lemma RunToAnswer(cfg: Config, events: seq<Event>, id: nat, taken: bool)
    requires cfg.Valid()
    ensures Run(cfg, events + [Enter(id)] + (if taken then [Take(id)] else []))
         == AtAnswer(cfg, Run(cfg, events), id, taken)
  {
    RunSnoc(cfg, events, Enter(id));
    if taken {
      RunSnoc(cfg, events + [Enter(id)], Take(id));
    } else {
      assert events + [Enter(id)] + [] == events + [Enter(id)];
    }
  }

  lemma RunToVerdict(cfg: Config, events: seq<Event>, id: nat, tick: Tick, ballots: seq<Ballot>)
    requires cfg.Valid() && id !in Run(cfg, events).calls && |Run(cfg, events).calls| < cfg.lanes
    ensures Run(cfg, events + [Arrive(id, tick), Collect(id, ballots), Judge(id)])
         == Reached(cfg, Run(cfg, events), id, tick, Sizing(VerdictIn(cfg, Run(cfg, events), tick, ballots)))
  {
    RunThree(cfg, events, Arrive(id, tick), Collect(id, ballots), Judge(id));
    ReachesVerdict(cfg, Run(cfg, events), id, tick, ballots);
  }

  /** From the verdict on. */
  function Rest(id: nat, taken: bool, reply: BrokerReply, auditOk: bool): seq<Event> {
    [Enter(id)] + (if taken then [Take(id)] else []) + [Answer(id, reply)] + [Publish(id, auditOk)]
  }

  lemma RunToEnd(cfg: Config, events: seq<Event>, id: nat, taken: bool, reply: BrokerReply, auditOk: bool)
    requires cfg.Valid()
    ensures Run(cfg, events + Rest(id, taken, reply, auditOk))
         == AtEnd(cfg, Run(cfg, events), id, taken, reply, auditOk)
  {
    var before := events + [Enter(id)] + (if taken then [Take(id)] else []);
    RunToAnswer(cfg, events, id, taken);
    RunTwo(cfg, before, Answer(id, reply), Publish(id, auditOk));
    assert events + Rest(id, taken, reply, auditOk) == before + [Answer(id, reply)] + [Publish(id, auditOk)];
  }

  lemma WholeCallIs(
    events: seq<Event>, id: nat, tick: Tick, ballots: seq<Ballot>, taken: bool, reply: BrokerReply, auditOk: bool)
    ensures events + WholeCall(id, tick, ballots, taken, reply, auditOk)
         == events + [Arrive(id, tick), Collect(id, ballots), Judge(id)] + Rest(id, taken, reply, auditOk)
  {
  }

  lemma RunTwo(cfg: Config, events: seq<Event>, a: Event, b: Event)
    requires cfg.Valid()
    ensures Run(cfg, events + [a] + [b]) == Apply(cfg, Apply(cfg, Run(cfg, events), a), b)
  {
    RunSnoc(cfg, events, a);
    RunSnoc(cfg, events + [a], b);
  }
}
