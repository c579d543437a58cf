/** How high a position can really get: runs that reach the bounds, with any of the file's own
    guards registered. */
module PipelineMaximum {
  import opened Models
  import opened Guardrails
  import opened Ledger
  import opened Coordinator
  import opened TickWindows
  import opened PipelineRuns
  import opened PipelineBounds
  import opened PipelineWitness
  import opened PipelineContext
  import Sizer

  // ----- guards that let a rested symbol trade -----

  /** A position limit of at least `m`, a cooldown of at most `cooldown`, or any breaker. */
  ghost predicate Lenient(g: Guard, m: nat, cooldown: real) {
    match g
    case MaxPosition(maxShares) => maxShares >= m
    case CoolDown(seconds) => seconds <= cooldown
    case Breaker(_, _, _) => true
    case Other(_, _) => false
  }

  /** Live, and guarded by any list of the three guards, as src/main.py wires them. */
  ghost predicate Plain(cfg: Config, m: nat, cooldown: real) {
    cfg.Valid() && cfg.live && m > 0 && cooldown >= 0.0 && forall g :: g in cfg.guards ==> Lenient(g, m, cooldown)
  }

  /** Nothing is open and the cooldown, if any trade happened, has run out. */
  ghost predicate Rested(s: System, symbol: string, position: int, cooldown: real) {
    && s.calls == map[]
    && s.Position(symbol) == position
    && (symbol in s.desk.holdings.lastTradeAt ==>
          s.clock - s.desk.holdings.lastTradeAt[symbol] >= cooldown)
  }

  /** The prices the context shows did not move. */
  ghost predicate Steady(context: GuardContext, p: real) {
    forall symbol :: symbol in context.recentPrices ==> Constant(context.recentPrices[symbol], p)
  }

  lemma RestedAllows(
    cfg: Config, m: nat, cooldown: real, s: System, w: Wish, context: GuardContext, p: real)
    requires Plain(cfg, m, cooldown) && Steady(context, p)
    requires Rested(s, w.symbol, s.Position(w.symbol), cooldown)
    requires w.action == Buy ==> s.Position(w.symbol) < m
    requires context.positions == s.desk.holdings.positions
    requires context.lastTradeAt == s.desk.holdings.lastTradeAt && context.now == s.clock
    ensures AllAllow(cfg.guards, WishSignal(w), context)
  {
    forall g | g in cfg.guards
      ensures g.Allows(WishSignal(w), context)
    {
      assert Lenient(g, m, cooldown) && g.WellFormed();
      if g.Breaker? {
        var prices := if w.symbol in context.recentPrices then context.recentPrices[w.symbol] else [];
        ConstantIsCalm(prices, p, g.maxDrop, g.maxCv, g.windowSize);
      }
    }
  }

  // ----- runs on one repeated tick -----

  ghost predicate OnlyTick(events: seq<Event>, tick: Tick) {
    forall e :: e in events ==> e.Arrive? ==> e.tick == tick
  }

  lemma {:induction false} OnlyTickArrives(cfg: Config, events: seq<Event>, tick: Tick)
    requires cfg.Valid() && OnlyTick(events, tick)
    ensures forall t :: t in Run(cfg, events).arrivals ==> t == tick
  {
    if events != [] {
      var earlier, e := events[..|events| - 1], events[|events| - 1];
      assert e in events && OnlyTick(earlier, tick);
      OnlyTickArrives(cfg, earlier, tick);
      if !e.Arrive? { NoNewCalls(cfg, Run(cfg, earlier), e); }
    }
  }

  lemma SteadyWindow(ticks: seq<Tick>, maxWindow: nat, symbol: string, limit: Option<int>, tick: Tick)
    requires maxWindow > 0 && forall t :: t in ticks ==> t == tick
    ensures Constant(Prices(Recent(RecordedAll(map[], ticks, maxWindow), symbol, limit)), tick.price)
  {
    var recent := Recent(RecordedAll(map[], ticks, maxWindow), symbol, limit);
    RecentIsRecorded(ticks, maxWindow, symbol, limit);
    forall i | 0 <= i < |recent|
      ensures Prices(recent)[i] == tick.price
    {
      assert recent[i] in recent;
    }
  }

  lemma SteadySight(cfg: Config, s: System, call: Call, tick: Tick)
    requires cfg.Valid() && SeesItsMoment(cfg, s, call) && forall t :: t in s.arrivals ==> t == tick
    ensures Steady(call.context, tick.price)
  {
    var seen := s.arrivals[..call.seen];
    forall t | t in seen
      ensures t == tick
    {
      assert t in s.arrivals;
    }
    SteadyWindow(seen, cfg.maxWindow, call.tick.symbol, Some(cfg.volatilityWindow), tick);
  }

  lemma SteadyCall(cfg: Config, events: seq<Event>, id: nat, tick: Tick)
    requires cfg.Valid() && OnlyTick(events, tick) && id in Run(cfg, events).calls
    ensures Steady(Run(cfg, events).calls[id].context, tick.price)
  {
    OnlyTickArrives(cfg, events, tick);
    RunSees(cfg, events);
    SteadySight(cfg, Run(cfg, events), Run(cfg, events).calls[id], tick);
  }

  // ----- calls that open together on one snapshot -----

  lemma OpenCanTrade(
    cfg: Config, s: System, mid: seq<Event>, n: nat, tick: Tick, m: nat, cooldown: real, i: nat, w: Wish, q: nat)
    requires Plain(cfg, m, cooldown) && Trades(cfg, w, q) && w.symbol == tick.symbol && OnlyTick(mid, tick)
    requires Rested(s, tick.symbol, s.Position(tick.symbol), cooldown)
    requires w.action == Buy ==> s.Position(tick.symbol) < m
    requires i < n && AllOpen(Run(cfg, mid), n, tick.symbol, s.desk.holdings, s.clock)
    ensures CanTrade(cfg, Run(cfg, mid), i, w, q)
  {
    var u := Run(cfg, mid);
    assert i in u.calls && Fresh(u.calls[i], tick.symbol, s.desk.holdings, s.clock);
    SteadyCall(cfg, mid, i, tick);
    RestedAllows(cfg, m, cooldown, s, w, u.calls[i].context, tick.price);
  }

  lemma OpeningIsOnlyTick(events: seq<Event>, n: nat, tick: Tick)
    requires OnlyTick(events, tick)
    ensures OnlyTick(events + Opening(n, tick), tick)
  {
  }

  /** `n` calls open on a rested symbol: each of them could carry out a wish that is allowed. */
  lemma OpeningCanTrade(cfg: Config, events: seq<Event>, n: nat, tick: Tick, m: nat, cooldown: real, w: Wish, q: nat)
    requires Plain(cfg, m, cooldown) && Trades(cfg, w, q) && w.symbol == tick.symbol
    requires n <= cfg.lanes && OnlyTick(events, tick)
    requires Rested(Run(cfg, events), tick.symbol, Run(cfg, events).Position(tick.symbol), cooldown)
    requires w.action == Buy ==> Run(cfg, events).Position(tick.symbol) < m
    ensures Opened(Run(cfg, events), Run(cfg, events + Opening(n, tick)), n, tick.symbol)
    ensures forall i: nat :: i < n ==> CanTrade(cfg, Run(cfg, events + Opening(n, tick)), i, w, q)
  {
    OpeningOpens(cfg, events, n, tick);
    OpeningIsOnlyTick(events, n, tick);
    forall i: nat | i < n
      ensures CanTrade(cfg, Run(cfg, events + Opening(n, tick)), i, w, q)
    {
      OpenCanTrade(cfg, Run(cfg, events), events + Opening(n, tick), n, tick, m, cooldown, i, w, q);
    }
  }

  // ----- calls that all buy -----

  /** The first `n` of the open calls trade, one after the other. */
  function TradingAll(n: nat, w: Wish): seq<Event> {
    if n == 0 then [] else TradingAll(n - 1, w) + Trading(n - 1, w)
  }

  function Below(n: nat): (ids: set<nat>)
    ensures forall i: nat :: i in ids <==> i < n
  {
    if n == 0 then {} else Below(n - 1) + {n - 1}
  }

  /** `n` times the same fill at the end. */
  ghost predicate Extended(some: seq<Fill>, more: seq<Fill>, n: nat, fill: Fill) {
    |more| == |some| + n && forall j :: |some| <= j < |more| ==> more[j] == fill
  }

  /** From `s` to `t`, `n` equal purchases happened and the first `n` calls closed. */
  ghost predicate BoughtTimes(s: System, t: System, n: nat, symbol: string, q: nat) {
    && t.Position(symbol) == s.Position(symbol) + n * q
    && t.clock == s.clock
    && t.calls == s.calls - Below(n)
    && (n > 0 ==> symbol in t.desk.holdings.lastTradeAt && t.desk.holdings.lastTradeAt[symbol] == t.clock)
    && Extended(s.fills, t.fills, n, Fill(symbol, Buy, q, s.clock))
    && Extended(s.accepted, t.accepted, n, Fill(symbol, Buy, q, s.clock))
    && t.lost == s.lost
  }

  lemma OneMorePurchase(s: System, t: System, n: nat, w: Wish, q: nat)
    requires BoughtTimes(s, t, n, w.symbol, q) && q > 0 && w.action == Buy && IsOpen(t, n)
    ensures BoughtTimes(s, Traded(t, n, w, q), n + 1, w.symbol, q)
  {
    assert (n + 1) * q == n * q + q;
    assert t.calls - {n} == s.calls - Below(n + 1);
  }

  /** A call that has not had its turn yet is as it was. */
  lemma StillCanTrade(cfg: Config, s: System, t: System, n: nat, w: Wish, q: nat)
    requires cfg.Valid() && BoughtTimes(s, t, n, w.symbol, q) && CanTrade(cfg, s, n, w, q)
    ensures CanTrade(cfg, t, n, w, q)
  {
  }

  lemma RunTradingAll(cfg: Config, events: seq<Event>, n: nat, w: Wish, q: nat)
    requires cfg.Valid() && CanTrade(cfg, Run(cfg, events + TradingAll(n, w)), n, w, q)
    ensures Run(cfg, events + TradingAll(n + 1, w)) == Traded(Run(cfg, events + TradingAll(n, w)), n, w, q)
  {
    TradingTrades(cfg, events + TradingAll(n, w), n, w, q);
    assert events + TradingAll(n + 1, w) == events + TradingAll(n, w) + Trading(n, w);
  }

  lemma NextBuys(cfg: Config, events: seq<Event>, s: System, n: nat, w: Wish, q: nat)
    requires cfg.Valid() && q > 0 && w.action == Buy && CanTrade(cfg, s, n, w, q)
    requires BoughtTimes(s, Run(cfg, events + TradingAll(n, w)), n, w.symbol, q)
    ensures BoughtTimes(s, Run(cfg, events + TradingAll(n + 1, w)), n + 1, w.symbol, q)
  {
    StillCanTrade(cfg, s, Run(cfg, events + TradingAll(n, w)), n, w, q);
    RunTradingAll(cfg, events, n, w, q);
    OneMorePurchase(s, Run(cfg, events + TradingAll(n, w)), n, w, q);
  }

  lemma NoneBought(s: System, symbol: string, q: nat)
    ensures BoughtTimes(s, s, 0, symbol, q)
  {
    assert s.calls - Below(0) == s.calls;
  }

  lemma {:induction false} AllOpenBuy(cfg: Config, events: seq<Event>, n: nat, w: Wish, q: nat)
    requires cfg.Valid() && q > 0 && w.action == Buy
    requires forall i: nat :: i < n ==> CanTrade(cfg, Run(cfg, events), i, w, q)
    ensures BoughtTimes(Run(cfg, events), Run(cfg, events + TradingAll(n, w)), n, w.symbol, q)
  {
    if n == 0 {
      assert events + TradingAll(0, w) == events;
      NoneBought(Run(cfg, events), w.symbol, q);
    } else {
      AllOpenBuy(cfg, events, n - 1, w, q);
      NextBuys(cfg, events, Run(cfg, events), n - 1, w, q);
    }
  }

  /** `n` calls open on one snapshot below the limit all buy. */
  function Burst(n: nat, tick: Tick, w: Wish): seq<Event> {
    Opening(n, tick) + TradingAll(n, w)
  }

  /** Purchases counted from the opening of the calls count from before it as well. */
  lemma Rebased(s: System, u: System, t: System, n: nat, symbol: string, q: nat)
    requires BoughtTimes(u, t, n, symbol, q) && Opened(s, u, n, symbol) && s.calls == map[]
    ensures BoughtTimes(s, t, n, symbol, q) && t.calls == map[]
  {
    assert u.calls - Below(n) == map[];
    assert s.calls - Below(n) == map[];
  }

  lemma RunBurst(cfg: Config, events: seq<Event>, n: nat, tick: Tick, w: Wish)
    requires cfg.Valid()
    ensures Run(cfg, events + Burst(n, tick, w)) == Run(cfg, events + Opening(n, tick) + TradingAll(n, w))
  {
    assert events + Burst(n, tick, w) == events + Opening(n, tick) + TradingAll(n, w);
  }

  lemma BurstBuys(cfg: Config, events: seq<Event>, n: nat, tick: Tick, m: nat, cooldown: real, w: Wish, q: nat)
    requires Plain(cfg, m, cooldown) && Trades(cfg, w, q) && w.symbol == tick.symbol && w.action == Buy
    requires n <= cfg.lanes && OnlyTick(events, tick)
    requires Rested(Run(cfg, events), tick.symbol, Run(cfg, events).Position(tick.symbol), cooldown)
    requires Run(cfg, events).Position(tick.symbol) < m
    ensures var s, t := Run(cfg, events), Run(cfg, events + Burst(n, tick, w));
            BoughtTimes(s, t, n, tick.symbol, q) && t.calls == map[]
  {
    OpeningCanTrade(cfg, events, n, tick, m, cooldown, w, q);
    var mid := events + Opening(n, tick);
    AllOpenBuy(cfg, mid, n, w, q);
    RunBurst(cfg, events, n, tick, w);
    Rebased(Run(cfg, events), Run(cfg, mid), Run(cfg, mid + TradingAll(n, w)), n, tick.symbol, q);
  }

  // ----- trades one at a time, with rests in between -----

  function Size(cfg: Config, w: Wish): int { cfg.sizer(WishSignal(w)) }

  /** One call that trades, and its cooldown. */
  function Single(tick: Tick, cooldown: real, w: Wish): seq<Event> {
    Opening(1, tick) + Trading(0, w) + [Advance(cooldown)]
  }

  function Singles(ws: seq<Wish>, tick: Tick, cooldown: real): seq<Event> {
    if ws == [] then [Advance(cooldown)]
    else Singles(ws[..|ws| - 1], tick, cooldown) + Single(tick, cooldown, ws[|ws| - 1])
  }

  /** A position after one trade. */
  function Changed(position: int, w: Wish, q: int): int {
    if w.action == Buy then position + q else Max(0, position - q)
  }

  /** The position after these trades. */
  function Level(cfg: Config, ws: seq<Wish>): int {
    if ws == [] then 0
    else
      Changed(Level(cfg, ws[..|ws| - 1]), ws[|ws| - 1], Size(cfg, ws[|ws| - 1]))
  }

  /** Each of them is followed, and every BUY starts below the limit. */
  ghost predicate Feasible(cfg: Config, ws: seq<Wish>, symbol: string, m: nat) {
    ws == []
    || (var last := ws[|ws| - 1];
        && Feasible(cfg, ws[..|ws| - 1], symbol, m)
        && last.symbol == symbol && Trades(cfg, last, Size(cfg, last))
        && (last.action == Buy ==> Level(cfg, ws[..|ws| - 1]) < m))
  }

  lemma CoolingDownRests(cfg: Config, s: System, symbol: string, cooldown: real)
    requires cfg.Valid() && cooldown >= 0.0 && s.calls == map[]
    requires symbol in s.desk.holdings.lastTradeAt ==> s.desk.holdings.lastTradeAt[symbol] == s.clock
    ensures Rested(Apply(cfg, s, Advance(cooldown)), symbol, s.Position(symbol), cooldown)
  {
  }

  lemma TradedOnce(s: System, u: System, w: Wish, q: nat)
    requires Opened(s, u, 1, w.symbol) && w.action != Hold
    ensures var t := Traded(u, 0, w, q);
            && t.calls == map[]
            && t.Position(w.symbol) == Changed(s.Position(w.symbol), w, q)
            && w.symbol in t.desk.holdings.lastTradeAt && t.desk.holdings.lastTradeAt[w.symbol] == t.clock
  {
    assert u.calls - {0} == map[];
  }

  lemma RunSingle(cfg: Config, events: seq<Event>, tick: Tick, cooldown: real, w: Wish)
    requires cfg.Valid()
    ensures Run(cfg, events + Single(tick, cooldown, w))
         == Apply(cfg, Run(cfg, events + Opening(1, tick) + Trading(0, w)), Advance(cooldown))
  {
    var traded := events + Opening(1, tick) + Trading(0, w);
    RunSnoc(cfg, traded, Advance(cooldown));
    assert events + Single(tick, cooldown, w) == traded + [Advance(cooldown)];
  }

  lemma SingleRests(cfg: Config, s: System, u: System, w: Wish, q: nat, cooldown: real)
    requires cfg.Valid() && cooldown >= 0.0 && Opened(s, u, 1, w.symbol) && w.action != Hold
    ensures Rested(Apply(cfg, Traded(u, 0, w, q), Advance(cooldown)), w.symbol,
                   Changed(s.Position(w.symbol), w, q), cooldown)
  {
    TradedOnce(s, u, w, q);
    CoolingDownRests(cfg, Traded(u, 0, w, q), w.symbol, cooldown);
  }

  lemma SingleTrades(cfg: Config, events: seq<Event>, tick: Tick, m: nat, cooldown: real, w: Wish, q: nat)
    requires Plain(cfg, m, cooldown) && Trades(cfg, w, q) && w.symbol == tick.symbol
    requires cfg.lanes > 0 && OnlyTick(events, tick)
    requires Rested(Run(cfg, events), tick.symbol, Run(cfg, events).Position(tick.symbol), cooldown)
    requires w.action == Buy ==> Run(cfg, events).Position(tick.symbol) < m
    ensures Rested(Run(cfg, events + Single(tick, cooldown, w)), tick.symbol,
                   Changed(Run(cfg, events).Position(tick.symbol), w, q), cooldown)
  {
    var mid := events + Opening(1, tick);
    OpeningCanTrade(cfg, events, 1, tick, m, cooldown, w, q);
    TradingTrades(cfg, mid, 0, w, q);
    SingleRests(cfg, Run(cfg, events), Run(cfg, mid), w, q, cooldown);
    RunSingle(cfg, events, tick, cooldown, w);
  }

  lemma {:induction false} SinglesAreOnlyTick(ws: seq<Wish>, tick: Tick, cooldown: real)
    ensures OnlyTick(Singles(ws, tick, cooldown), tick)
  {
    if ws != [] {
      SinglesAreOnlyTick(ws[..|ws| - 1], tick, cooldown);
      OpeningIsOnlyTick([], 1, tick);
    }
  }

  lemma {:induction false} SinglesTrade(cfg: Config, ws: seq<Wish>, tick: Tick, m: nat, cooldown: real)
    requires Plain(cfg, m, cooldown) && cfg.lanes > 0 && Feasible(cfg, ws, tick.symbol, m)
    ensures Rested(Run(cfg, Singles(ws, tick, cooldown)), tick.symbol, Level(cfg, ws), cooldown)
  {
    if ws == [] {
      RunSnoc(cfg, [], Advance(cooldown));
      CoolingDownRests(cfg, START, tick.symbol, cooldown);
      assert Singles(ws, tick, cooldown) == [] + [Advance(cooldown)];
    } else {
      var earlier, last := ws[..|ws| - 1], ws[|ws| - 1];
      SinglesTrade(cfg, earlier, tick, m, cooldown);
      SinglesAreOnlyTick(earlier, tick, cooldown);
      SingleTrades(cfg, Singles(earlier, tick, cooldown), tick, m, cooldown, last, Size(cfg, last));
    }
  }

  /** Trades up to some level below the limit, and then one purchase on every lane. */
  function BuildAndBurst(ws: seq<Wish>, k: nat, tick: Tick, cooldown: real, d: Wish): seq<Event> {
    Singles(ws, tick, cooldown) + Burst(k, tick, d)
  }

  lemma BuildAndBurstBuys(cfg: Config, ws: seq<Wish>, tick: Tick, m: nat, cooldown: real, d: Wish, q: nat)
    requires Plain(cfg, m, cooldown) && cfg.lanes > 0
    requires Feasible(cfg, ws, tick.symbol, m) && Level(cfg, ws) < m
    requires Trades(cfg, d, q) && d.symbol == tick.symbol && d.action == Buy
    ensures Run(cfg, BuildAndBurst(ws, cfg.lanes, tick, cooldown, d)).Position(tick.symbol)
         == Level(cfg, ws) + cfg.lanes * q
  {
    SinglesTrade(cfg, ws, tick, m, cooldown);
    SinglesAreOnlyTick(ws, tick, cooldown);
    BurstBuys(cfg, Singles(ws, tick, cooldown), cfg.lanes, tick, m, cooldown, d, q);
  }

  // ----- two ways up -----

  /** Equal purchases. */
  function Copies(n: nat, w: Wish): seq<Wish> { seq(n, _ => w) }

  lemma {:induction false} CopiesRise(cfg: Config, n: nat, w: Wish, m: nat, q: nat)
    requires Trades(cfg, w, q) && w.action == Buy && n * q < m
    ensures Feasible(cfg, Copies(n, w), w.symbol, m) && Level(cfg, Copies(n, w)) == n * q
  {
    if n > 0 {
      assert n * q == (n - 1) * q + q;
      CopiesRise(cfg, n - 1, w, m, q);
      assert Copies(n, w)[..n - 1] == Copies(n - 1, w);
    }
  }

  /** Purchases of one share more than the sales between them. */
  function Climb(n: nat, up: Wish, down: Wish): seq<Wish> {
    if n == 0 then [] else Climb(n - 1, up, down) + [up] + [down]
  }

  lemma LevelSnoc(cfg: Config, ws: seq<Wish>, w: Wish, m: nat)
    requires Feasible(cfg, ws, w.symbol, m) && Trades(cfg, w, Size(cfg, w))
    requires w.action == Buy ==> Level(cfg, ws) < m
    ensures Feasible(cfg, ws + [w], w.symbol, m)
    ensures Level(cfg, ws + [w]) == Changed(Level(cfg, ws), w, Size(cfg, w))
  {
    assert (ws + [w])[..|ws|] == ws;
  }

  /** One purchase and one sale further. */
  lemma ClimbStep(cfg: Config, ws: seq<Wish>, up: Wish, down: Wish, m: nat)
    requires up.action == Buy && down.action == Sell && up.symbol == down.symbol
    requires Feasible(cfg, ws, up.symbol, m) && 0 <= Level(cfg, ws) < m
    requires Trades(cfg, up, Size(cfg, up)) && Trades(cfg, down, Size(cfg, down))
    requires Size(cfg, up) == Size(cfg, down) + 1
    ensures Feasible(cfg, ws + [up] + [down], up.symbol, m) && Level(cfg, ws + [up] + [down]) == Level(cfg, ws) + 1
  {
    LevelSnoc(cfg, ws, up, m);
    LevelSnoc(cfg, ws + [up], down, m);
  }

  lemma {:induction false} ClimbRises(cfg: Config, n: nat, up: Wish, down: Wish, m: nat)
    requires up.action == Buy && down.action == Sell && up.symbol == down.symbol && n < m
    requires Trades(cfg, up, Size(cfg, up)) && Trades(cfg, down, Size(cfg, down))
    requires Size(cfg, up) == Size(cfg, down) + 1
    ensures Feasible(cfg, Climb(n, up, down), up.symbol, m) && Level(cfg, Climb(n, up, down)) == n
  {
    if n > 0 {
      ClimbRises(cfg, n - 1, up, down, m);
      ClimbStep(cfg, Climb(n - 1, up, down), up, down, m);
    }
  }

  // ----- the bounds are reached -----

  /** For orders of one size Q the bound floor((M-1)/Q)+k orders is attained, for every M, Q and
      k >= 1, and whatever breakers and further limits and cooldowns are registered. */
  lemma MostOrdersAreReached(cfg: Config, tick: Tick, m: nat, cooldown: real, w: Wish, q: nat)
    returns (events: seq<Event>)
    requires Plain(cfg, m, cooldown) && cfg.lanes > 0
    requires Trades(cfg, w, q) && w.symbol == tick.symbol && w.action == Buy
    ensures Run(cfg, events).Position(tick.symbol) == MostOrders(m, q, cfg.lanes) * q
  {
    var n := (m - 1) / q;
    assert m - 1 == n * q + (m - 1) % q;
    assert (n + cfg.lanes) * q == n * q + cfg.lanes * q;
    CopiesRise(cfg, n, w, m, q);
    BuildAndBurstBuys(cfg, Copies(n, w), tick, m, cooldown, w, q);
    events := BuildAndBurst(Copies(n, w), cfg.lanes, tick, cooldown, w);
  }

  /** For orders of at most Q the cap M-1+k*Q itself is attained, for every M, Q and k >= 1, by
      any sizer that gives one share to some BUY and Q shares to another. */
  lemma CapIsReached(cfg: Config, tick: Tick, m: nat, cooldown: real, w: Wish, d: Wish, q: nat)
    returns (events: seq<Event>)
    requires Plain(cfg, m, cooldown) && cfg.lanes > 0
    requires Trades(cfg, w, 1) && w.symbol == tick.symbol && w.action == Buy
    requires Trades(cfg, d, q) && d.symbol == tick.symbol && d.action == Buy
    ensures Run(cfg, events).Position(tick.symbol) == Cap(m, q, cfg.lanes)
  {
    CopiesRise(cfg, m - 1, w, m, 1);
    BuildAndBurstBuys(cfg, Copies(m - 1, w), tick, m, cooldown, d, q);
    events := BuildAndBurst(Copies(m - 1, w), cfg.lanes, tick, cooldown, d);
  }

  /** And by any sizer that lets a sale follow on a purchase of one share more. */
  lemma ClimbReachesCap(
    cfg: Config, tick: Tick, m: nat, cooldown: real, up: Wish, down: Wish, d: Wish, q: nat)
    returns (events: seq<Event>)
    requires Plain(cfg, m, cooldown) && cfg.lanes > 0
    requires up.action == Buy && down.action == Sell && up.symbol == down.symbol == tick.symbol
    requires Trades(cfg, up, Size(cfg, up)) && Trades(cfg, down, Size(cfg, down))
    requires Size(cfg, up) == Size(cfg, down) + 1
    requires Trades(cfg, d, q) && d.symbol == tick.symbol && d.action == Buy
    ensures Run(cfg, events).Position(tick.symbol) == Cap(m, q, cfg.lanes)
  {
    var ws := Climb(m - 1, up, down);
    ClimbRises(cfg, m - 1, up, down, m);
    BuildAndBurstBuys(cfg, ws, tick, m, cooldown, d, q);
    events := BuildAndBurst(ws, cfg.lanes, tick, cooldown, d);
  }

  // ----- the program's own confidence sizer -----

  ghost predicate SizedBy(cfg: Config, linear: Sizer.ConfidenceLinear) {
    linear.WellFormed() && forall signal :: cfg.sizer(signal) == Sizer.LinearSize(linear, signal.confidence)
  }

  /** The least confidence with which an order can come out. */
  function LeastConfidence(cfg: Config, linear: Sizer.ConfidenceLinear): real {
    if cfg.threshold > linear.minConfidence then cfg.threshold else linear.minConfidence
  }

  /** The highest position: the cap if there are orders of different sizes, and otherwise as
      many equal orders as fit. */
  function HighestPosition(cfg: Config, linear: Sizer.ConfidenceLinear, m: nat): int
    requires m > 0 && linear.WellFormed()
  {
    if Sizer.LinearSize(linear, LeastConfidence(cfg, linear)) < linear.maxQuantity
    then Cap(m, linear.maxQuantity, cfg.lanes)
    else MostOrders(m, linear.maxQuantity, cfg.lanes) * linear.maxQuantity
  }

  lemma LinearSizerBound(cfg: Config, linear: Sizer.ConfidenceLinear, events: seq<Event>, symbol: string, m: nat)
    requires cfg.Valid() && MaxPosition(m) in cfg.guards && m > 0
    requires SizedBy(cfg, linear) && 0.0 <= cfg.threshold <= 1.0
    ensures Run(cfg, events).Position(symbol) <= HighestPosition(cfg, linear, m)
  {
    var top, least := linear.maxQuantity, LeastConfidence(cfg, linear);
    forall signal
      ensures cfg.sizer(signal) <= top
    {
      Sizer.LinearSizeContract(linear, signal.confidence, signal.confidence);
    }
    PositionBound(cfg, events, symbol, m, top);
    if Sizer.LinearSize(linear, least) >= top {
      forall signal: TradeSignal |
        signal.action != Hold && Decided(signal, cfg.threshold) && cfg.sizer(signal) > 0
        ensures cfg.sizer(signal) == top
      {
        Sizer.LinearSizeContract(linear, signal.confidence, signal.confidence);
        Sizer.LinearSizeContract(linear, least, signal.confidence);
      }
      FixedSizeBound(cfg, events, symbol, m, top);
    }
  }

  /** A confidence, enough for a sale, whose size is one share below the largest. */
  lemma NextToLargest(cfg: Config, linear: Sizer.ConfidenceLinear) returns (c: real)
    requires linear.WellFormed() && 0.0 <= cfg.threshold <= 1.0
    requires Sizer.LinearSize(linear, LeastConfidence(cfg, linear)) < linear.maxQuantity
    ensures 0.0 < c <= 1.0 && LeastConfidence(cfg, linear) <= c
    ensures Sizer.LinearSize(linear, c) == linear.maxQuantity - 1 > 0
  {
    var least, top := LeastConfidence(cfg, linear), linear.maxQuantity;
    Sizer.LinearSizeContract(linear, least, least);
    Sizer.BelowLargest(linear);
    var near := Sizer.NearLargest(linear);
    c := if near > least then near else least;
    Sizer.LinearSizeContract(linear, c, c);
    Sizer.InterpolationMonotone(linear, near, c);
    assert Sizer.ClampUnit(c) == c && Sizer.LinearSize(linear, c) == Sizer.Interpolated(linear, c);
    assert top - 1 <= Sizer.LinearSize(linear, c) < top;
  }

  /** For every threshold, confidence floor and pair of quantities that the constructors accept,
      and any list of the three guards, that highest position is exact: no run goes beyond it,
      and one gets there. */
  lemma LinearSizerReachesHighest(
    cfg: Config, linear: Sizer.ConfidenceLinear, tick: Tick, m: nat, cooldown: real) returns (events: seq<Event>)
    requires Plain(cfg, m, cooldown) && cfg.lanes > 0
    requires SizedBy(cfg, linear) && 0.0 <= cfg.threshold <= 1.0
    ensures Run(cfg, events).Position(tick.symbol) == HighestPosition(cfg, linear, m)
  {
    var top := linear.maxQuantity;
    var full := Wish(tick.symbol, Buy, 1.0);
    Sizer.LinearSizeContract(linear, 1.0, 1.0);
    assert Trades(cfg, full, top);
    if Sizer.LinearSize(linear, LeastConfidence(cfg, linear)) < top {
      var c := NextToLargest(cfg, linear);
      events := ClimbReachesCap(cfg, tick, m, cooldown, full, Wish(tick.symbol, Sell, c), full, top);
    } else {
      events := MostOrdersAreReached(cfg, tick, m, cooldown, full, top);
    }
  }
}
