/** The cooldown guard over whole runs: it spaces fills only while calls are serial. */
module PipelineCooldown {
  import opened Models
  import opened Statistics
  import opened Guardrails
  import opened Ledger
  import opened Executor
  import opened PipelineRuns
  import opened PipelineWitness
  import opened PipelineBounds
  import opened PipelineBook
  import opened PipelineMaximum

  /** Any two fills of one symbol are at least `cooldown` apart, in order. */
  ghost predicate Spaced(fills: seq<Fill>, cooldown: real) {
    forall i, j :: 0 <= i < j < |fills| && fills[i].symbol == fills[j].symbol ==>
      fills[j].ts - fills[i].ts >= cooldown
  }

  ghost predicate SerialOk(s: System, cooldown: real) {
    && |s.calls| <= 1
    && Spaced(s.fills, cooldown)
    && (forall f :: f in s.fills ==> f.ts <= s.clock)
    && (forall id :: id in s.calls && !s.calls[id].stage.Auditing? ==>
          s.calls[id].context.lastTradeAt == s.desk.holdings.lastTradeAt)
  }

  lemma SpacedSnoc(fills: seq<Fill>, fill: Fill, cooldown: real)
    requires Spaced(fills, cooldown)
    requires forall i :: 0 <= i < |fills| && fills[i].symbol == fill.symbol ==> fill.ts - fills[i].ts >= cooldown
    ensures Spaced(fills + [fill], cooldown)
  {
  }

  /** In a spaced ledger the cooldown clock holds the greatest timestamp of the symbol. */
  lemma {:induction false} NewestIsLatest(fills: seq<Fill>, symbol: string, cooldown: real, i: nat)
    requires Spaced(fills, cooldown) && cooldown >= 0.0
    requires i < |fills| && fills[i].symbol == symbol
    ensures symbol in Replay(fills).lastTradeAt && fills[i].ts <= Replay(fills).lastTradeAt[symbol]
  {
    var n := |fills| - 1;
    if i < n && fills[n].symbol != symbol {
      var earlier := fills[..n];
      assert Spaced(earlier, cooldown) by {
        SpacedPrefix(fills, cooldown);
      }
      assert earlier[i] == fills[i];
      NewestIsLatest(earlier, symbol, cooldown, i);
    }
  }

  lemma SpacedPrefix(fills: seq<Fill>, cooldown: real)
    requires fills != [] && Spaced(fills, cooldown)
    ensures Spaced(fills[..|fills| - 1], cooldown)
  {
    var earlier := fills[..|fills| - 1];
    forall i, j | 0 <= i < j < |earlier| && earlier[i].symbol == earlier[j].symbol
      ensures earlier[j].ts - earlier[i].ts >= cooldown
    {
      assert fills[i] == earlier[i] && fills[j] == earlier[j];
    }
  }

  /** Whatever was filled before lies at least the cooldown back. */
  lemma FillIsSpaced(cfg: Config, s: System, id: nat, fill: Fill, cooldown: real)
    requires cfg.Valid() && CoolDown(cooldown) in cfg.guards && cooldown >= 0.0
    requires CallsOk(cfg, s) && LedgerOk(cfg, s) && SerialOk(s, cooldown)
    requires IsAtBroker(s, id) && fill == OrderFill(s.calls[id].stage.order)
    ensures Spaced(s.fills + [fill], cooldown) && fill.ts <= s.clock
  {
    var call := s.calls[id];
    var order := call.stage.order;
    assert CallOk(cfg, s, call);
    assert CoolDown(cooldown).Allows(order.signal, call.context);
    assert call.context.lastTradeAt == Replay(s.fills).lastTradeAt;
    forall i | 0 <= i < |s.fills| && s.fills[i].symbol == fill.symbol
      ensures fill.ts - s.fills[i].ts >= cooldown
    {
      NewestIsLatest(s.fills, fill.symbol, cooldown, i);
    }
    SpacedSnoc(s.fills, fill, cooldown);
  }

  lemma AnswerKeepsSerial(cfg: Config, s: System, id: nat, reply: BrokerReply, cooldown: real)
    requires cfg.Valid() && CoolDown(cooldown) in cfg.guards && cooldown >= 0.0
    requires CallsOk(cfg, s) && LedgerOk(cfg, s) && SerialOk(s, cooldown)
    requires IsAtBroker(s, id) && Truthful(reply, s.calls[id].stage.taken)
    ensures SerialOk(OnAnswer(cfg, s, id, reply), cooldown)
  {
    var t := OnAnswer(cfg, s, id, reply);
    ClosedFewer(s.calls, id);
    ReplacedSame(s.calls, id, s.calls[id].(stage := Auditing));
    forall j | j in t.calls
      ensures t.calls[j].stage.Auditing?
    {
      OnlyOne(s.calls, id, j);
    }
    assert CallOk(cfg, s, s.calls[id]);
    if reply == Accepted {
      FillIsSpaced(cfg, s, id, OrderFill(s.calls[id].stage.order), cooldown);
    }
  }

  lemma ArriveKeepsSerial(cfg: Config, s: System, id: nat, tick: Tick, cooldown: real)
    requires cfg.Valid() && cfg.lanes <= 1 && SerialOk(s, cooldown)
    ensures SerialOk(OnArrive(cfg, s, id, tick), cooldown)
  {
    var t := OnArrive(cfg, s, id, tick);
    if t != s {
      assert s.calls == map[];
      ReplacedSame(s.calls, id, t.calls[id]);
    }
  }

  lemma QuietKeepsSerial(s: System, t: System, cooldown: real)
    requires SerialOk(s, cooldown) && Quiet(s, t) && s.clock <= t.clock && |t.calls| <= 1
    ensures SerialOk(t, cooldown)
  {
    forall id | id in t.calls && !t.calls[id].stage.Auditing?
      ensures t.calls[id].context.lastTradeAt == t.desk.holdings.lastTradeAt
    {
      assert Continues(s.calls[id], t.calls[id]);
    }
  }

  lemma ClockRises(cfg: Config, s: System, e: Event)
    requires cfg.Valid()
    ensures s.clock <= Apply(cfg, s, e).clock
  {
  }

  lemma FewCalls(cfg: Config, s: System, e: Event)
    requires cfg.Valid() && CallsOk(cfg, s) && cfg.lanes <= 1
    ensures |Apply(cfg, s, e).calls| <= 1
  {
    CallsOkKept(cfg, s, e);
  }

  lemma OtherStepsKeepSerial(cfg: Config, s: System, e: Event, t: System, cooldown: real)
    requires cfg.Valid() && CallsOk(cfg, s) && cfg.lanes <= 1 && SerialOk(s, cooldown)
    requires !e.Arrive? && !e.Answer? && t == Apply(cfg, s, e)
    ensures SerialOk(t, cooldown)
  {
    ClockRises(cfg, s, e);
    FewCalls(cfg, s, e);
    assert Quiet(s, t) by { QuietStep(cfg, s, e); }
    QuietKeepsSerial(s, t, cooldown);
  }

  lemma SerialKept(cfg: Config, s: System, e: Event, cooldown: real)
    requires cfg.Valid() && CoolDown(cooldown) in cfg.guards && cooldown >= 0.0 && cfg.lanes <= 1
    requires CallsOk(cfg, s) && LedgerOk(cfg, s) && SerialOk(s, cooldown)
    ensures SerialOk(Apply(cfg, s, e), cooldown)
  {
    match e
    case Arrive(id, tick) => ArriveKeepsSerial(cfg, s, id, tick, cooldown);
    case Answer(id, reply) =>
      if IsAtBroker(s, id) && Truthful(reply, s.calls[id].stage.taken) {
        AnswerKeepsSerial(cfg, s, id, reply, cooldown);
      }
    case _ => OtherStepsKeepSerial(cfg, s, e, Apply(cfg, s, e), cooldown);
  }

  lemma {:induction false} SerialRunsAreSpaced(cfg: Config, events: seq<Event>, cooldown: real)
    requires cfg.Valid() && CoolDown(cooldown) in cfg.guards && cooldown >= 0.0 && cfg.lanes <= 1
    ensures SerialOk(Run(cfg, events), cooldown)
  {
    if events != [] {
      var earlier, e := events[..|events| - 1], events[|events| - 1];
      SerialRunsAreSpaced(cfg, earlier, cooldown);
      RunOk(cfg, earlier);
      SerialKept(cfg, Run(cfg, earlier), e, cooldown);
    }
  }

  // ----- how much can trade in an interval -----

  /** The fills of `symbol` with a timestamp in [from, to]. */
  function Within(fills: seq<Fill>, symbol: string, from: real, to: real): seq<Fill> {
    if fills == [] then []
    else
      var earlier, last := Within(fills[..|fills| - 1], symbol, from, to), fills[|fills| - 1];
      if last.symbol == symbol && from <= last.ts <= to then earlier + [last] else earlier
  }

  function Volume(fills: seq<Fill>): int {
    if fills == [] then 0 else Volume(fills[..|fills| - 1]) + fills[|fills| - 1].quantity
  }

  lemma {:induction false} WithinMembers(fills: seq<Fill>, symbol: string, from: real, to: real)
    ensures forall f :: f in Within(fills, symbol, from, to) ==>
              f in fills && f.symbol == symbol && from <= f.ts <= to
  {
    if fills != [] {
      WithinMembers(fills[..|fills| - 1], symbol, from, to);
    }
  }

  /** `n` fills at least the cooldown apart, from `from` on, end no earlier than this. */
  ghost predicate Spans(n: nat, end: real, from: real, cooldown: real) {
    (n as real - 1.0) * cooldown <= end - from
  }

  lemma SpansOneMore(n: nat, end: real, next: real, from: real, cooldown: real)
    requires Spans(n, end, from, cooldown) && next - end >= cooldown
    ensures Spans(n + 1, next, from, cooldown)
  {
    assert ((n + 1) as real - 1.0) * cooldown == (n as real - 1.0) * cooldown + cooldown;
  }

  /** A fill of the same symbol that comes after some member of `fills`. */
  lemma LaterFillIsSpaced(fills: seq<Fill>, earlier: Fill, cooldown: real)
    requires fills != [] && Spaced(fills, cooldown)
    requires earlier in fills[..|fills| - 1] && earlier.symbol == fills[|fills| - 1].symbol
    ensures fills[|fills| - 1].ts - earlier.ts >= cooldown
  {
    var k :| 0 <= k < |fills| - 1 && fills[k] == earlier;
  }

  lemma {:induction false} WithinSpans(fills: seq<Fill>, symbol: string, from: real, to: real, cooldown: real)
    requires Spaced(fills, cooldown)
    ensures var w := Within(fills, symbol, from, to);
            w != [] ==> Spans(|w|, w[|w| - 1].ts, from, cooldown)
  {
    if fills != [] {
      var earlier, last := fills[..|fills| - 1], fills[|fills| - 1];
      SpacedPrefix(fills, cooldown);
      WithinSpans(earlier, symbol, from, to, cooldown);
      var w := Within(earlier, symbol, from, to);
      if last.symbol == symbol && from <= last.ts <= to && w != [] {
        WithinMembers(earlier, symbol, from, to);
        assert w[|w| - 1] in w;
        LaterFillIsSpaced(fills, w[|w| - 1], cooldown);
        SpansOneMore(|w|, w[|w| - 1].ts, last.ts, from, cooldown);
      }
    }
  }

  lemma CountFromSpan(n: nat, cooldown: real, end: real, from: real, to: real)
    requires cooldown > 0.0 && n > 0 && from <= end <= to
    requires Spans(n, end, from, cooldown)
    ensures n <= 1 + ((to - from) / cooldown).Floor
  {
    var span := to - from;
    var q := span / cooldown;
    assert span == q * cooldown;
    CancelFactor(n as real - 1.0, q, cooldown);
  }

  lemma {:induction false} VolumeBound(fills: seq<Fill>, q: nat)
    requires forall f :: f in fills ==> f.quantity <= q
    ensures Volume(fills) <= |fills| * q
  {
    if fills != [] {
      VolumeBound(fills[..|fills| - 1], q);
      assert fills[|fills| - 1] in fills;
      assert |fills| * q == (|fills| - 1) * q + q;
    }
  }

  lemma WindowCount(fills: seq<Fill>, symbol: string, from: real, to: real, cooldown: real)
    requires Spaced(fills, cooldown) && cooldown > 0.0 && from <= to
    ensures |Within(fills, symbol, from, to)| <= 1 + ((to - from) / cooldown).Floor
  {
    var w := Within(fills, symbol, from, to);
    WithinSpans(fills, symbol, from, to, cooldown);
    if w != [] {
      var end := w[|w| - 1];
      WithinMembers(fills, symbol, from, to);
      assert end in w;
      CountFromSpan(|w|, cooldown, end.ts, from, to);
    } else {
      QuotientNonNegative(to - from, cooldown);
    }
  }

  lemma BookIsSized(cfg: Config, s: System, fills: seq<Fill>, q: nat)
    requires cfg.Valid() && LedgerOk(cfg, s) && forall signal :: cfg.sizer(signal) <= q
    requires forall f :: f in fills ==> f in s.accepted
    ensures forall f :: f in fills ==> f.quantity <= q
  {
    BookIsFills(cfg, s, fills);
  }

  /** At most 1 + floor(T/C) of these fills in any interval of length T, and so at most Q times
      as many shares. */
  ghost predicate Throttled(fills: seq<Fill>, symbol: string, from: real, to: real, cooldown: real, q: nat)
    requires cooldown > 0.0
  {
    var w, most := Within(fills, symbol, from, to), 1 + ((to - from) / cooldown).Floor;
    |w| <= most && Volume(w) <= most * q
  }

  lemma SpacedIsThrottled(fills: seq<Fill>, symbol: string, from: real, to: real, cooldown: real, q: nat)
    requires Spaced(fills, cooldown) && cooldown > 0.0 && from <= to
    requires forall f :: f in fills ==> f.quantity <= q
    ensures Throttled(fills, symbol, from, to, cooldown, q)
  {
    var w, most := Within(fills, symbol, from, to), 1 + ((to - from) / cooldown).Floor;
    WindowCount(fills, symbol, from, to, cooldown);
    WithinMembers(fills, symbol, from, to);
    assert Volume(w) <= |w| * q by { VolumeBound(w, q); }
    LanesProduct(|w|, most, q);
  }

  /** Throttling of what a serial run records. */
  lemma SerialThrottle(
    cfg: Config, events: seq<Event>, symbol: string, from: real, to: real, cooldown: real, q: nat)
    requires cfg.Valid() && CoolDown(cooldown) in cfg.guards && cooldown > 0.0 && cfg.lanes <= 1
    requires from <= to && forall signal :: cfg.sizer(signal) <= q
    ensures Throttled(Run(cfg, events).fills, symbol, from, to, cooldown, q)
  {
    SerialRunsAreSpaced(cfg, events, cooldown);
    RunOk(cfg, events);
    BookIsSized(cfg, Run(cfg, events), Run(cfg, events).fills, q);
    SpacedIsThrottled(Run(cfg, events).fills, symbol, from, to, cooldown, q);
  }

  // ----- the same for what the broker executes -----

  /** What the broker takes in a serial run that loses nothing is spaced as well, an order that
      still waits for its answer included. */
  lemma SerialTradesAreSpaced(cfg: Config, events: seq<Event>, cooldown: real)
    requires cfg.Valid() && CoolDown(cooldown) in cfg.guards && cooldown >= 0.0 && cfg.lanes <= 1
    requires Lossless(cfg, events)
    ensures Spaced(Run(cfg, events).accepted, cooldown)
  {
    var s := Run(cfg, events);
    RunOk(cfg, events);
    SerialRunsAreSpaced(cfg, events, cooldown);
    SerialBooks(cfg, events);
    LossesIff(cfg, events);
    if id :| IsPending(s, id) {
      FillIsSpaced(cfg, s, id, OrderFill(s.calls[id].stage.order), cooldown);
    }
  }

  lemma SerialTradeThrottle(
    cfg: Config, events: seq<Event>, symbol: string, from: real, to: real, cooldown: real, q: nat)
    requires cfg.Valid() && CoolDown(cooldown) in cfg.guards && cooldown > 0.0 && cfg.lanes <= 1
    requires Lossless(cfg, events) && from <= to && forall signal :: cfg.sizer(signal) <= q
    ensures Throttled(Run(cfg, events).accepted, symbol, from, to, cooldown, q)
  {
    SerialTradesAreSpaced(cfg, events, cooldown);
    RunOk(cfg, events);
    BookIsSized(cfg, Run(cfg, events), Run(cfg, events).accepted, q);
    SpacedIsThrottled(Run(cfg, events).accepted, symbol, from, to, cooldown, q);
  }

  // ----- interleaved runs are not throttled -----

  /** Two calls opened together both trade, at the same instant, and nothing is lost. */
  lemma TwoLanesDefeatCooldown(cfg: Config, tick: Tick, m: nat, cooldown: real, w: Wish, q: nat)
    requires Plain(cfg, m, cooldown) && cooldown > 0.0 && cfg.lanes >= 2
    requires Trades(cfg, w, q) && w.symbol == tick.symbol && w.action == Buy
    ensures var s := Run(cfg, Burst(2, tick, w));
            !Spaced(s.fills, cooldown) && !Spaced(s.accepted, cooldown)
    ensures Lossless(cfg, Burst(2, tick, w))
  {
    BurstBuys(cfg, [], 2, tick, m, cooldown, w, q);
    assert [] + Burst(2, tick, w) == Burst(2, tick, w);
    var s := Run(cfg, Burst(2, tick, w));
    LossesIff(cfg, Burst(2, tick, w));
    assert s.fills[0] == s.fills[1] && s.accepted[0] == s.accepted[1];
  }

  /** So, with any list of the three guards that holds this cooldown and any sizer that ever
      gives shares to a BUY, "no two recorded fills of a symbol within the cooldown" holds for
      every run exactly when at most one call can be open at a time... */
  lemma CooldownHoldsIffSerial(cfg: Config, m: nat, cooldown: real, w: Wish, q: nat)
    requires Plain(cfg, m, cooldown) && CoolDown(cooldown) in cfg.guards && cooldown > 0.0
    requires Trades(cfg, w, q) && w.action == Buy
    ensures (forall events :: Spaced(Run(cfg, events).fills, cooldown)) <==> cfg.lanes <= 1
  {
    if cfg.lanes <= 1 {
      forall events
        ensures Spaced(Run(cfg, events).fills, cooldown)
      {
        SerialRunsAreSpaced(cfg, events, cooldown);
      }
    } else {
      TwoLanesDefeatCooldown(cfg, Tick(w.symbol, 0.0, 1.0, 0, BuySide), m, cooldown, w, q);
    }
  }

  /** ... and so it is, among the runs that lose no order, for what the broker executes. */
  lemma TradesAreSpacedIffSerial(cfg: Config, m: nat, cooldown: real, w: Wish, q: nat)
    requires Plain(cfg, m, cooldown) && CoolDown(cooldown) in cfg.guards && cooldown > 0.0
    requires Trades(cfg, w, q) && w.action == Buy
    ensures (forall events | Lossless(cfg, events) :: Spaced(Run(cfg, events).accepted, cooldown)) <==> cfg.lanes <= 1
  {
    if cfg.lanes <= 1 {
      forall events | Lossless(cfg, events)
        ensures Spaced(Run(cfg, events).accepted, cooldown)
      {
        SerialTradesAreSpaced(cfg, events, cooldown);
      }
    } else {
      TwoLanesDefeatCooldown(cfg, Tick(w.symbol, 0.0, 1.0, 0, BuySide), m, cooldown, w, q);
    }
  }
}
