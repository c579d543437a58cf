/** Every run of the pipeline: calls of `on_tick` from several publishers interleave at
    their awaits.  A publisher awaits its own call, so at most `lanes` calls are open. */
module PipelineRuns {
  import opened Models
  import opened Guardrails
  import opened Ledger
  import opened Executor
  import opened Coordinator
  import opened TradingPipeline

  datatype Config = Config(
    guards: seq<Guard>,
    sizer: TradeSignal -> int,
    live: bool,
    threshold: real,
    maxWindow: nat,
    volatilityWindow: int,
    audited: bool,
    lanes: nat)
  {
    ghost predicate Valid() {
      WellFormedAll(guards) && maxWindow >= 2
    }
  }

  /** Where an open call is suspended. */
  datatype Stage =
    | Polling                        // agents running
    | Judging(signal: TradeSignal)   // guards running
    | Sizing(guarded: GuardedSignal) // about to enter the executor
    | AtBroker(order: Order, taken: bool)   // order placed, answer outstanding; taken by the broker?
    | Auditing                       // audit publish outstanding

  /** An open call: its tick, its frozen context, and how many ticks had arrived by then. */
  datatype Call = Call(tick: Tick, context: GuardContext, seen: nat, stage: Stage)

  /** An order together with the context it was judged in. */
  datatype Placement = Placement(order: Order, context: GuardContext)

  datatype System = System(
    desk: Desk,
    calls: map<nat, Call>,
    clock: real,
    arrivals: seq<Tick>,      // every tick so far
    placed: seq<Placement>,   // every order handed to the broker
    accepted: seq<Fill>,      // the broker's own book, in the order it took them
    fills: seq<Fill>,         // what was recorded in the portfolio, in the order of the answers
    lost: seq<Fill>)          // taken by the broker and never to be recorded
  {
    function Position(symbol: string): int { desk.holdings.Of(symbol) }
  }

  const START := System(Desk(EMPTY, map[], 0, 0, 0, 0), map[], 0.0, [], [], [], [], [])

  datatype Event =
    | Advance(seconds: real)
    | Arrive(id: nat, tick: Tick)
    | Collect(id: nat, ballots: seq<Ballot>)
    | Judge(id: nat)
    | Enter(id: nat)
    | Take(id: nat)                     // the broker executes the order
    | Answer(id: nat, reply: BrokerReply)
    | Publish(id: nat, ok: bool)
    | Fail(id: nat)                     // an exception that on_tick swallows and counts
    | Cancel(id: nat)                   // the call's task is cancelled at its await

  predicate IsOpen(s: System, id: nat) { id in s.calls }

  function Moved(s: System, id: nat, stage: Stage): System
    requires IsOpen(s, id)
  {
    s.(calls := s.calls[id := s.calls[id].(stage := stage)])
  }

  function Closed(s: System, id: nat): System {
    s.(calls := s.calls - {id})
  }

  /** Past the executor: on to the audit publish, if one is wired. */
  function Done(cfg: Config, s: System, id: nat): System
    requires IsOpen(s, id)
  {
    if cfg.audited then Moved(s, id, Auditing) else Closed(s, id)
  }

  function OnArrive(cfg: Config, s: System, id: nat, tick: Tick): System
    requires cfg.Valid()
  {
    if id in s.calls || |s.calls| >= cfg.lanes then s
    else
      var desk := Noted(s.desk, tick, cfg.maxWindow);
      var context := Snapshot(desk, tick.symbol, cfg.volatilityWindow, s.clock);
      s.(desk := desk,
         arrivals := s.arrivals + [tick],
         calls := s.calls[id := Call(tick, context, |s.arrivals| + 1, Polling)])
  }

  function OnEnter(cfg: Config, s: System, id: nat): System
    requires IsOpen(s, id) && s.calls[id].stage.Sizing?
  {
    match Submit(cfg.live, cfg.sizer, s.calls[id].stage.guarded, s.clock)
    case Finished(result) => Done(cfg, s.(desk := Booked(s.desk, result)), id)
    case Placed(order) =>
      Moved(s.(placed := s.placed + [Placement(order, s.calls[id].context)]), id, AtBroker(order, false))
  }

  /** What the portfolio records of an order, if it hears of it. */
  function OrderFill(order: Order): Fill {
    FillOf(Settled(order, Accepted))
  }

  /** The broker took the order and the portfolio never hears of it. */
  function Unrecorded(s: System, fill: Fill): System {
    s.(lost := s.lost + [fill])
  }

  predicate IsAtBroker(s: System, id: nat) {
    IsOpen(s, id) && s.calls[id].stage.AtBroker?
  }

  /** The broker executes an order some time before the answer arrives, if one does. */
  function OnTake(s: System, id: nat): System
    requires IsAtBroker(s, id)
  {
    var order := s.calls[id].stage.order;
    if s.calls[id].stage.taken then s
    else Moved(s.(accepted := s.accepted + [OrderFill(order)]), id, AtBroker(order, true))
  }

  /** An answer tells the truth, except that an exception tells nothing. */
  predicate Truthful(reply: BrokerReply, taken: bool) {
    match reply
    case Accepted => taken
    case Rejected => !taken
    case Raised => true
  }

  function OnAnswer(cfg: Config, s: System, id: nat, reply: BrokerReply): System
    requires IsAtBroker(s, id)
  {
    var AtBroker(order, taken) := s.calls[id].stage;
    var result, fill := Settled(order, reply), OrderFill(order);
    var t := s.(desk := Booked(s.desk, result));
    if !result.executed then Done(cfg, if taken then Unrecorded(t, fill) else t, id)
    else if !IsFill(fill) then Closed(Unrecorded(t, fill), id)
    else Done(cfg, t.(fills := s.fills + [fill]), id)
  }

  /** A cancelled call disappears without recording anything. */
  function OnCancel(s: System, id: nat): System
    requires IsOpen(s, id)
  {
    if s.calls[id].stage.AtBroker? && s.calls[id].stage.taken
    then Closed(Unrecorded(s, OrderFill(s.calls[id].stage.order)), id)
    else Closed(s, id)
  }

  /** One step; an event that is not enabled changes nothing. */
  function Apply(cfg: Config, s: System, e: Event): System
    requires cfg.Valid()
  {
    match e
    case Advance(seconds) => if seconds > 0.0 then s.(clock := s.clock + seconds) else s
    case Arrive(id, tick) => OnArrive(cfg, s, id, tick)
    case Collect(id, ballots) =>
      if IsOpen(s, id) && s.calls[id].stage.Polling?
      then Moved(s, id, Judging(Evaluated(s.calls[id].tick.symbol, cfg.threshold, ballots)))
      else s
    case Judge(id) =>
      if IsOpen(s, id) && s.calls[id].stage.Judging?
      then Moved(s, id, Sizing(Guarded(cfg.guards, s.calls[id].stage.signal, s.calls[id].context)))
      else s
    case Enter(id) => if IsOpen(s, id) && s.calls[id].stage.Sizing? then OnEnter(cfg, s, id) else s
    case Take(id) => if IsAtBroker(s, id) then OnTake(s, id) else s
    case Answer(id, reply) =>
      if IsAtBroker(s, id) && Truthful(reply, s.calls[id].stage.taken) then OnAnswer(cfg, s, id, reply) else s
    case Publish(id, ok) =>
      if IsOpen(s, id) && s.calls[id].stage.Auditing?
      then
        var desk := if ok then s.desk else s.desk.(auditFailures := s.desk.auditFailures + 1);
        Closed(s.(desk := desk), id)
      else s
    case Fail(id) =>
      if IsOpen(s, id) && (s.calls[id].stage.Polling? || s.calls[id].stage.Judging? || s.calls[id].stage.Sizing?)
      then Closed(s.(desk := Errored(s.desk)), id)
      else s
    case Cancel(id) => if IsOpen(s, id) then OnCancel(s, id) else s
  }

  function Run(cfg: Config, events: seq<Event>): System
    requires cfg.Valid()
  {
    if events == [] then START else Apply(cfg, Run(cfg, events[..|events| - 1]), events[|events| - 1])
  }

  // ----- what every step keeps -----

  /** The order is one the guards allow in the context of its own call. */
  ghost predicate OrderOk(cfg: Config, order: Order, context: GuardContext)
    requires cfg.Valid()
  {
    && cfg.live
    && order.signal.action != Hold
    && order.quantity == cfg.sizer(order.signal) > 0
    && AllAllow(cfg.guards, order.signal, context)
    && order.ts >= context.now
    && Decided(order.signal, cfg.threshold)
  }

  ghost predicate CallOk(cfg: Config, s: System, call: Call)
    requires cfg.Valid()
  {
    && call.context.now <= s.clock
    && match call.stage
       case Judging(signal) => signal.symbol == call.tick.symbol && Decided(signal, cfg.threshold)
       case Sizing(guarded) =>
         && guarded.signal.symbol == call.tick.symbol
         && (guarded.Effective().action != Hold ==>
               guarded.allowed && AllAllow(cfg.guards, guarded.signal, call.context)
               && Decided(guarded.signal, cfg.threshold))
       case AtBroker(order, taken) =>
         && order.signal.symbol == call.tick.symbol
         && OrderOk(cfg, order, call.context)
         && order.ts <= s.clock
         && Placement(order, call.context) in s.placed
         && (taken ==> OrderFill(order) in s.accepted)
       case _ => true
  }

  ghost predicate CallsOk(cfg: Config, s: System)
    requires cfg.Valid()
  {
    && |s.calls| <= cfg.lanes
    && forall id :: id in s.calls ==> CallOk(cfg, s, s.calls[id])
  }

  ghost predicate InBook(s: System, fill: Fill) {
    exists p :: p in s.placed && fill == OrderFill(p.order)
  }

  ghost predicate LedgerOk(cfg: Config, s: System)
    requires cfg.Valid()
  {
    && s.desk.holdings == Replay(s.fills)
    && AllFills(s.fills)
    && s.desk.executedCount == |s.fills|
    && (forall p :: p in s.placed ==> OrderOk(cfg, p.order, p.context))
    && (forall f :: f in s.accepted ==> InBook(s, f))
    && (forall f :: f in s.fills ==> f in s.accepted)
    && (forall f :: f in s.lost ==> f in s.accepted)
  }

  /** At most call `id` changed between `s` and `t`, and nothing was forgotten. */
  ghost predicate OnlyTouches(s: System, t: System, id: nat) {
    && s.clock <= t.clock
    && s.placed <= t.placed
    && s.accepted <= t.accepted
    && (forall j :: j in t.calls && j != id ==> j in s.calls && t.calls[j] == s.calls[j])
  }

  lemma StaysIn<T>(some: seq<T>, more: seq<T>, x: T)
    requires some <= more && x in some
    ensures x in more
  {
    var k :| 0 <= k < |some| && some[k] == x;
    assert more[k] == x;
  }

  lemma OtherCallsStayOk(cfg: Config, s: System, t: System, id: nat)
    requires cfg.Valid() && CallsOk(cfg, s) && OnlyTouches(s, t, id)
    requires |t.calls| <= cfg.lanes
    requires id in t.calls ==> CallOk(cfg, t, t.calls[id])
    ensures CallsOk(cfg, t)
  {
    forall j | j in t.calls && j != id
      ensures CallOk(cfg, t, t.calls[j])
    {
      var call := s.calls[j];
      assert CallOk(cfg, s, call);
      if call.stage.AtBroker? {
        StaysIn(s.placed, t.placed, Placement(call.stage.order, call.context));
        if call.stage.taken { StaysIn(s.accepted, t.accepted, OrderFill(call.stage.order)); }
      }
    }
  }

  lemma ClosedFewer(m: map<nat, Call>, id: nat)
    ensures |m - {id}| <= |m|
    ensures id in m ==> |m - {id}| == |m| - 1
  {
    assert (m - {id}).Keys == m.Keys - {id};
    assert |(m - {id}).Keys| == |m - {id}|;
    assert |m.Keys| == |m|;
  }

  lemma ReplacedSame(m: map<nat, Call>, id: nat, call: Call)
    ensures |m[id := call]| == if id in m then |m| else |m| + 1
  {
    var n := m[id := call];
    assert n.Keys == m.Keys + {id};
    assert |n.Keys| == |n| && |m.Keys| == |m|;
  }

  lemma DoneKeepsCalls(cfg: Config, s: System, t: System, id: nat)
    requires cfg.Valid() && CallsOk(cfg, s) && IsOpen(s, id)
    requires t.calls == s.calls && s.clock <= t.clock && s.placed <= t.placed && s.accepted <= t.accepted
    ensures CallsOk(cfg, Done(cfg, t, id)) && CallsOk(cfg, Closed(t, id))
  {
    ClosedFewer(s.calls, id);
    ReplacedSame(s.calls, id, s.calls[id].(stage := Auditing));
    assert CallOk(cfg, s, s.calls[id]);
    OtherCallsStayOk(cfg, s, Done(cfg, t, id), id);
    OtherCallsStayOk(cfg, s, Closed(t, id), id);
  }

  lemma ArriveKeepsCalls(cfg: Config, s: System, id: nat, tick: Tick)
    requires cfg.Valid() && CallsOk(cfg, s)
    ensures CallsOk(cfg, OnArrive(cfg, s, id, tick))
  {
    var t := OnArrive(cfg, s, id, tick);
    if t != s {
      ReplacedSame(s.calls, id, t.calls[id]);
      OtherCallsStayOk(cfg, s, t, id);
    }
  }

  lemma EnterKeepsCalls(cfg: Config, s: System, id: nat)
    requires cfg.Valid() && CallsOk(cfg, s) && IsOpen(s, id) && s.calls[id].stage.Sizing?
    ensures CallsOk(cfg, OnEnter(cfg, s, id))
  {
    var call := s.calls[id];
    assert CallOk(cfg, s, call);
    match Submit(cfg.live, cfg.sizer, call.stage.guarded, s.clock)
    case Finished(result) => DoneKeepsCalls(cfg, s, s.(desk := Booked(s.desk, result)), id);
    case Placed(order) =>
      var t := OnEnter(cfg, s, id);
      ReplacedSame(s.calls, id, t.calls[id]);
      assert t.placed[|s.placed|] == Placement(order, call.context);
      OtherCallsStayOk(cfg, s, t, id);
  }

  lemma MoveKeepsCalls(cfg: Config, s: System, id: nat, stage: Stage)
    requires cfg.Valid() && CallsOk(cfg, s) && IsOpen(s, id)
    requires CallOk(cfg, s, s.calls[id].(stage := stage))
    ensures CallsOk(cfg, Moved(s, id, stage))
  {
    ReplacedSame(s.calls, id, s.calls[id].(stage := stage));
    OtherCallsStayOk(cfg, s, Moved(s, id, stage), id);
  }

  lemma JudgeKeepsCalls(cfg: Config, s: System, id: nat)
    requires cfg.Valid() && CallsOk(cfg, s) && IsOpen(s, id) && s.calls[id].stage.Judging?
    ensures CallsOk(cfg, Moved(s, id, Sizing(Guarded(cfg.guards, s.calls[id].stage.signal, s.calls[id].context))))
  {
    var call := s.calls[id];
    var stage := Sizing(Guarded(cfg.guards, call.stage.signal, call.context));
    assert CallOk(cfg, s, call);
    assert CallOk(cfg, s, call.(stage := stage)) by {
      EffectiveMeansAllAllow(cfg.guards, call.stage.signal, call.context);
    }
    MoveKeepsCalls(cfg, s, id, stage);
  }

  lemma TakeKeepsCalls(cfg: Config, s: System, id: nat)
    requires cfg.Valid() && CallsOk(cfg, s) && IsAtBroker(s, id)
    ensures CallsOk(cfg, OnTake(s, id))
  {
    var t := OnTake(s, id);
    if t != s {
      assert CallOk(cfg, s, s.calls[id]);
      assert OrderFill(s.calls[id].stage.order) in t.accepted;
      ReplacedSame(s.calls, id, t.calls[id]);
      OtherCallsStayOk(cfg, s, t, id);
    }
  }

  lemma AnswerKeepsCalls(cfg: Config, s: System, id: nat, reply: BrokerReply)
    requires cfg.Valid() && CallsOk(cfg, s) && IsAtBroker(s, id)
    ensures CallsOk(cfg, OnAnswer(cfg, s, id, reply))
  {
    var order := s.calls[id].stage.order;
    var t, fill := s.(desk := Booked(s.desk, Settled(order, reply))), OrderFill(order);
    DoneKeepsCalls(cfg, s, t, id);
    DoneKeepsCalls(cfg, s, Unrecorded(t, fill), id);
    DoneKeepsCalls(cfg, s, t.(fills := s.fills + [fill]), id);
  }

  lemma CollectKeepsCalls(cfg: Config, s: System, id: nat, ballots: seq<Ballot>)
    requires cfg.Valid() && CallsOk(cfg, s) && IsOpen(s, id)
    ensures CallsOk(cfg, Moved(s, id, Judging(Evaluated(s.calls[id].tick.symbol, cfg.threshold, ballots))))
  {
    assert CallOk(cfg, s, s.calls[id]);
    EvaluatedIsDecided(s.calls[id].tick.symbol, cfg.threshold, ballots);
    MoveKeepsCalls(cfg, s, id, Judging(Evaluated(s.calls[id].tick.symbol, cfg.threshold, ballots)));
  }

  lemma CloseKeepsCalls(cfg: Config, s: System, t: System, id: nat)
    requires cfg.Valid() && CallsOk(cfg, s) && IsOpen(s, id)
    requires t.calls == s.calls && t.clock == s.clock && t.placed == s.placed && t.accepted == s.accepted
    ensures CallsOk(cfg, Closed(t, id))
  {
    DoneKeepsCalls(cfg, s, t, id);
  }

  lemma CancelKeepsCalls(cfg: Config, s: System, id: nat)
    requires cfg.Valid() && CallsOk(cfg, s) && IsOpen(s, id)
    ensures CallsOk(cfg, OnCancel(s, id))
  {
    CloseKeepsCalls(cfg, s, s.(lost := OnCancel(s, id).lost), id);
  }

  lemma DecisionKeepsCalls(cfg: Config, s: System, e: Event)
    requires cfg.Valid() && CallsOk(cfg, s) && (e.Collect? || e.Judge? || e.Enter?)
    ensures CallsOk(cfg, Apply(cfg, s, e))
  {
    match e
    case Collect(id, ballots) => if IsOpen(s, id) { CollectKeepsCalls(cfg, s, id, ballots); }
    case Judge(id) => if IsOpen(s, id) && s.calls[id].stage.Judging? { JudgeKeepsCalls(cfg, s, id); }
    case Enter(id) => if IsOpen(s, id) && s.calls[id].stage.Sizing? { EnterKeepsCalls(cfg, s, id); }
  }

  lemma PublishKeepsCalls(cfg: Config, s: System, id: nat, ok: bool)
    requires cfg.Valid() && CallsOk(cfg, s)
    ensures CallsOk(cfg, Apply(cfg, s, Publish(id, ok)))
  {
    if IsOpen(s, id) { CloseKeepsCalls(cfg, s, s.(desk := Apply(cfg, s, Publish(id, ok)).desk), id); }
  }

  lemma FailKeepsCalls(cfg: Config, s: System, id: nat)
    requires cfg.Valid() && CallsOk(cfg, s)
    ensures CallsOk(cfg, Apply(cfg, s, Fail(id)))
  {
    if IsOpen(s, id) { CloseKeepsCalls(cfg, s, s.(desk := Apply(cfg, s, Fail(id)).desk), id); }
  }

  lemma ClosingKeepsCalls(cfg: Config, s: System, e: Event)
    requires cfg.Valid() && CallsOk(cfg, s) && (e.Publish? || e.Fail? || e.Cancel?)
    ensures CallsOk(cfg, Apply(cfg, s, e))
  {
    match e
    case Publish(id, ok) => PublishKeepsCalls(cfg, s, id, ok);
    case Fail(id) => FailKeepsCalls(cfg, s, id);
    case Cancel(id) => if IsOpen(s, id) { CancelKeepsCalls(cfg, s, id); }
  }

  lemma AdvanceKeepsCalls(cfg: Config, s: System, seconds: real)
    requires cfg.Valid() && CallsOk(cfg, s)
    ensures CallsOk(cfg, Apply(cfg, s, Advance(seconds)))
  {
    OtherCallsStayOk(cfg, s, Apply(cfg, s, Advance(seconds)), 0);
  }

  lemma BrokerKeepsCalls(cfg: Config, s: System, e: Event)
    requires cfg.Valid() && CallsOk(cfg, s) && (e.Take? || e.Answer?)
    ensures CallsOk(cfg, Apply(cfg, s, e))
  {
    match e
    case Take(id) => if IsAtBroker(s, id) { TakeKeepsCalls(cfg, s, id); }
    case Answer(id, reply) => if IsAtBroker(s, id) { AnswerKeepsCalls(cfg, s, id, reply); }
  }

  lemma CallsOkKept(cfg: Config, s: System, e: Event)
    requires cfg.Valid() && CallsOk(cfg, s)
    ensures CallsOk(cfg, Apply(cfg, s, e))
  {
    match e
    case Advance(seconds) => AdvanceKeepsCalls(cfg, s, seconds);
    case Arrive(id, tick) => ArriveKeepsCalls(cfg, s, id, tick);
    case Take(_) => BrokerKeepsCalls(cfg, s, e);
    case Answer(_, _) => BrokerKeepsCalls(cfg, s, e);
    case Collect(_, _) => DecisionKeepsCalls(cfg, s, e);
    case Judge(_) => DecisionKeepsCalls(cfg, s, e);
    case Enter(_) => DecisionKeepsCalls(cfg, s, e);
    case _ => ClosingKeepsCalls(cfg, s, e);
  }

  /** `t` differs from `s` in the ledger only by `fill`, which the broker took before. */
  lemma RecordingKeepsLedger(cfg: Config, s: System, t: System, fill: Fill)
    requires cfg.Valid() && LedgerOk(cfg, s)
    requires IsFill(fill) && fill in s.accepted
    requires t.placed == s.placed && t.lost == s.lost
    requires t.accepted == s.accepted && t.fills == s.fills + [fill]
    requires t.desk.holdings == s.desk.holdings.After(fill)
    requires t.desk.executedCount == s.desk.executedCount + 1
    ensures LedgerOk(cfg, t)
  {
    assert t.fills[..|s.fills|] == s.fills;
  }

  lemma PlacingKeepsLedger(cfg: Config, s: System, t: System, p: Placement)
    requires cfg.Valid() && LedgerOk(cfg, s)
    requires OrderOk(cfg, p.order, p.context)
    requires t.placed == s.placed + [p] && t.lost == s.lost && t.desk == s.desk
    requires t.accepted == s.accepted && t.fills == s.fills
    ensures LedgerOk(cfg, t)
  {
    assert forall q :: q in s.placed ==> q in t.placed;
  }

  lemma TakingKeepsLedger(cfg: Config, s: System, t: System, fill: Fill)
    requires cfg.Valid() && LedgerOk(cfg, s)
    requires InBook(s, fill)
    requires t.placed == s.placed && t.desk == s.desk
    requires t.accepted == s.accepted + [fill] && t.fills == s.fills && t.lost == s.lost
    ensures LedgerOk(cfg, t)
  {
  }

  lemma LosingKeepsLedger(cfg: Config, s: System, t: System, fill: Fill)
    requires cfg.Valid() && LedgerOk(cfg, s) && fill in s.accepted
    requires t.placed == s.placed && t.desk.holdings == s.desk.holdings
    requires t.desk.executedCount == s.desk.executedCount
    requires t.accepted == s.accepted && t.fills == s.fills && t.lost == s.lost + [fill]
    ensures LedgerOk(cfg, t)
  {
  }

  lemma TakeKeepsLedger(cfg: Config, s: System, id: nat)
    requires cfg.Valid() && CallsOk(cfg, s) && LedgerOk(cfg, s) && IsAtBroker(s, id)
    ensures LedgerOk(cfg, OnTake(s, id))
  {
    var order := s.calls[id].stage.order;
    assert CallOk(cfg, s, s.calls[id]);
    assert InBook(s, OrderFill(order));
    if !s.calls[id].stage.taken { TakingKeepsLedger(cfg, s, OnTake(s, id), OrderFill(order)); }
  }

  lemma AnswerKeepsLedger(cfg: Config, s: System, id: nat, reply: BrokerReply)
    requires cfg.Valid() && CallsOk(cfg, s) && LedgerOk(cfg, s)
    requires IsAtBroker(s, id) && Truthful(reply, s.calls[id].stage.taken)
    ensures LedgerOk(cfg, OnAnswer(cfg, s, id, reply))
  {
    var t, order := OnAnswer(cfg, s, id, reply), s.calls[id].stage.order;
    assert CallOk(cfg, s, s.calls[id]);
    if reply == Accepted {
      RecordingKeepsLedger(cfg, s, t, OrderFill(order));
    } else if s.calls[id].stage.taken {
      LosingKeepsLedger(cfg, s, t, OrderFill(order));
    } else {
      SameLedger(cfg, s, t);
    }
  }

  lemma EnterKeepsLedger(cfg: Config, s: System, id: nat)
    requires cfg.Valid() && CallsOk(cfg, s) && LedgerOk(cfg, s)
    requires IsOpen(s, id) && s.calls[id].stage.Sizing?
    ensures LedgerOk(cfg, OnEnter(cfg, s, id))
  {
    var t, call := OnEnter(cfg, s, id), s.calls[id];
    assert CallOk(cfg, s, call);
    match Submit(cfg.live, cfg.sizer, call.stage.guarded, s.clock)
    case Finished(result) => SameLedger(cfg, s, t);
    case Placed(order) => PlacingKeepsLedger(cfg, s, t, Placement(order, call.context));
  }

  lemma CancelKeepsLedger(cfg: Config, s: System, id: nat)
    requires cfg.Valid() && CallsOk(cfg, s) && LedgerOk(cfg, s) && IsOpen(s, id)
    ensures LedgerOk(cfg, OnCancel(s, id))
  {
    var t := OnCancel(s, id);
    if s.calls[id].stage.AtBroker? && s.calls[id].stage.taken {
      assert CallOk(cfg, s, s.calls[id]);
      LosingKeepsLedger(cfg, s, t, OrderFill(s.calls[id].stage.order));
    } else {
      SameLedger(cfg, s, t);
    }
  }

  /** The ledger's parts of the state, the two failure counters aside. */
  lemma SameLedger(cfg: Config, s: System, t: System)
    requires cfg.Valid() && LedgerOk(cfg, s)
    requires t.desk.holdings == s.desk.holdings && t.desk.executedCount == s.desk.executedCount
    requires t.placed == s.placed && t.accepted == s.accepted && t.fills == s.fills && t.lost == s.lost
    ensures LedgerOk(cfg, t)
  {
  }

  lemma LedgerOkKept(cfg: Config, s: System, e: Event)
    requires cfg.Valid() && CallsOk(cfg, s) && LedgerOk(cfg, s)
    ensures LedgerOk(cfg, Apply(cfg, s, e))
  {
    var t := Apply(cfg, s, e);
    if t == s { return; }
    match e
    case Enter(id) => EnterKeepsLedger(cfg, s, id);
    case Answer(id, reply) => AnswerKeepsLedger(cfg, s, id, reply);
    case Take(id) => TakeKeepsLedger(cfg, s, id);
    case Cancel(id) => CancelKeepsLedger(cfg, s, id);
    case _ => SameLedger(cfg, s, t);
  }

  /** Every call of `t` was open in `s`, for the same tick and with the same context. */
  ghost predicate SameCalls(s: System, t: System) {
    && t.calls.Keys <= s.calls.Keys
    && forall id :: id in t.calls ==> Continues(s.calls[id], t.calls[id])
  }

  predicate Continues(before: Call, after: Call) {
    && after.tick == before.tick && after.context == before.context && after.seen == before.seen
    && (before.stage.Auditing? ==> after.stage.Auditing?)
  }

  /** Nothing but the calls, the clock, the orders and the counters may have changed. */
  ghost predicate Quiet(s: System, t: System) {
    && SameCalls(s, t)
    && t.arrivals == s.arrivals && t.desk.windows == s.desk.windows
    && t.desk.holdings == s.desk.holdings && t.fills == s.fills
  }

  lemma EnterIsQuiet(cfg: Config, s: System, id: nat)
    requires IsOpen(s, id) && s.calls[id].stage.Sizing?
    ensures Quiet(s, OnEnter(cfg, s, id))
  {
    var submission := Submit(cfg.live, cfg.sizer, s.calls[id].stage.guarded, s.clock);
    assert submission.Finished? ==> !submission.result.executed;
  }

  lemma AnswerContinues(cfg: Config, s: System, id: nat, reply: BrokerReply)
    requires IsAtBroker(s, id)
    ensures var t := OnAnswer(cfg, s, id, reply);
            SameCalls(s, t) && t.arrivals == s.arrivals && t.desk.windows == s.desk.windows
  {
  }

  /** Only an arrival or a broker's answer changes windows or holdings. */
  lemma QuietStep(cfg: Config, s: System, e: Event)
    requires cfg.Valid() && !e.Arrive? && !e.Answer?
    ensures Quiet(s, Apply(cfg, s, e))
  {
    if e.Enter? && IsOpen(s, e.id) && s.calls[e.id].stage.Sizing? {
      EnterIsQuiet(cfg, s, e.id);
    }
  }

  /** Only an arrival opens a call or touches the windows. */
  lemma NoNewCalls(cfg: Config, s: System, e: Event)
    requires cfg.Valid() && !e.Arrive?
    ensures var t := Apply(cfg, s, e);
            SameCalls(s, t) && t.arrivals == s.arrivals && t.desk.windows == s.desk.windows
  {
    if !e.Answer? {
      QuietStep(cfg, s, e);
    } else if IsAtBroker(s, e.id) {
      AnswerContinues(cfg, s, e.id, e.reply);
    }
  }

  lemma {:induction false} RunOk(cfg: Config, events: seq<Event>)
    requires cfg.Valid()
    ensures CallsOk(cfg, Run(cfg, events)) && LedgerOk(cfg, Run(cfg, events))
  {
    if events != [] {
      var earlier := events[..|events| - 1];
      RunOk(cfg, earlier);
      CallsOkKept(cfg, Run(cfg, earlier), events[|events| - 1]);
      LedgerOkKept(cfg, Run(cfg, earlier), events[|events| - 1]);
    }
  }
}
