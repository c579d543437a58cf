/** The broker's book against the portfolio's: what was taken, recorded, lost or is still open. */
module PipelineBook {
  import opened Models
  import opened Guardrails
  import opened Ledger
  import opened Executor
  import opened TradingPipeline
  import opened PipelineRuns
  import opened PipelineBounds

  // ----- sums over fills and over open calls -----

  function Weigh(fills: seq<Fill>, w: Fill -> int): int {
    if fills == [] then 0 else Weigh(fills[..|fills| - 1], w) + w(fills[|fills| - 1])
  }

  lemma WeighSnoc(fills: seq<Fill>, fill: Fill, w: Fill -> int)
    ensures Weigh(fills + [fill], w) == Weigh(fills, w) + w(fill)
  {
    assert (fills + [fill])[..|fills|] == fills;
  }

  ghost function SumOver(calls: map<nat, Call>, f: Call -> int): int
    decreases calls.Keys
  {
    if calls == map[] then 0
    else
      var id :| id in calls;
      f(calls[id]) + SumOver(calls - {id}, f)
  }

  lemma {:induction false} SumOverRemove(calls: map<nat, Call>, id: nat, f: Call -> int)
    requires id in calls
    ensures SumOver(calls, f) == f(calls[id]) + SumOver(calls - {id}, f)
    decreases calls.Keys
  {
    var k :| k in calls && SumOver(calls, f) == f(calls[k]) + SumOver(calls - {k}, f);
    if k != id {
      SumOverRemove(calls - {k}, id, f);
      SumOverRemove(calls - {id}, k, f);
      assert calls - {k} - {id} == calls - {id} - {k};
    }
  }

  lemma SumOverPut(calls: map<nat, Call>, id: nat, call: Call, f: Call -> int)
    ensures SumOver(calls[id := call], f)
         == f(call) + SumOver(calls, f) - if id in calls then f(calls[id]) else 0
  {
    SumOverRemove(calls[id := call], id, f);
    assert calls[id := call] - {id} == calls - {id};
    if id in calls { SumOverRemove(calls, id, f); } else { assert calls - {id} == calls; }
  }

  /** Only the calls in `ids` contribute, each at most `q`. */
  lemma {:induction false} SumOverAtMost(calls: map<nat, Call>, f: Call -> int, ids: set<nat>, q: nat)
    requires ids <= calls.Keys
    requires forall id :: id in calls ==> f(calls[id]) <= if id in ids then q else 0
    ensures SumOver(calls, f) <= |ids| * q
    decreases calls.Keys
  {
    if calls != map[] {
      var id :| id in calls;
      var rest, others := calls - {id}, ids - {id};
      assert SumOver(calls, f) == f(calls[id]) + SumOver(rest, f) by { SumOverRemove(calls, id, f); }
      SumOverAtMost(rest, f, others, q);
      OneFewer(ids, id, q);
    }
  }

  lemma OneFewer(ids: set<nat>, id: nat, q: nat)
    ensures |ids - {id}| * q == |ids| * q - if id in ids then q else 0
  {
    if id in ids {
      assert |ids - {id}| == |ids| - 1;
      assert |ids| * q == (|ids| - 1) * q + q;
    } else {
      assert ids - {id} == ids;
    }
  }

  // ----- nothing the broker takes disappears -----

  /** The weight of an order that is taken and not answered yet. */
  function Pending(w: Fill -> int): Call -> int {
    (call: Call) => if call.stage.AtBroker? && call.stage.taken then w(OrderFill(call.stage.order)) else 0
  }

  ghost predicate Balanced(s: System, w: Fill -> int) {
    Weigh(s.accepted, w) == Weigh(s.fills, w) + Weigh(s.lost, w) + SumOver(s.calls, Pending(w))
  }

  /** The call moves on, and what is booked makes up for the change in what is pending. */
  lemma MoveBalances(s: System, t: System, id: nat, call: Call, w: Fill -> int)
    requires Balanced(s, w) && t.calls == s.calls[id := call]
    requires Weigh(t.accepted, w) - Weigh(t.fills, w) - Weigh(t.lost, w)
          == Weigh(s.accepted, w) - Weigh(s.fills, w) - Weigh(s.lost, w)
             + Pending(w)(call) - if id in s.calls then Pending(w)(s.calls[id]) else 0
    ensures Balanced(t, w)
  {
    SumOverPut(s.calls, id, call, Pending(w));
  }

  lemma CloseBalances(s: System, t: System, id: nat, w: Fill -> int)
    requires Balanced(s, w) && id in s.calls && t.calls == s.calls - {id}
    requires Weigh(t.accepted, w) - Weigh(t.fills, w) - Weigh(t.lost, w)
          == Weigh(s.accepted, w) - Weigh(s.fills, w) - Weigh(s.lost, w) - Pending(w)(s.calls[id])
    ensures Balanced(t, w)
  {
    SumOverRemove(s.calls, id, Pending(w));
  }

  lemma DoneBalances(cfg: Config, s: System, t: System, id: nat, w: Fill -> int)
    requires Balanced(s, w) && IsOpen(s, id) && t.calls == s.calls
    requires Weigh(t.accepted, w) - Weigh(t.fills, w) - Weigh(t.lost, w)
          == Weigh(s.accepted, w) - Weigh(s.fills, w) - Weigh(s.lost, w) - Pending(w)(s.calls[id])
    ensures Balanced(Done(cfg, t, id), w) && Balanced(Closed(t, id), w)
  {
    CloseBalances(s, Closed(t, id), id, w);
    var moved := Moved(t, id, Auditing);
    MoveBalances(s, moved, id, moved.calls[id], w);
  }

  lemma EnterBalances(cfg: Config, s: System, id: nat, w: Fill -> int)
    requires Balanced(s, w) && IsOpen(s, id) && s.calls[id].stage.Sizing?
    ensures Balanced(OnEnter(cfg, s, id), w)
  {
    var t := OnEnter(cfg, s, id);
    match Submit(cfg.live, cfg.sizer, s.calls[id].stage.guarded, s.clock)
    case Finished(result) => DoneBalances(cfg, s, s.(desk := Booked(s.desk, result)), id, w);
    case Placed(order) => MoveBalances(s, t, id, t.calls[id], w);
  }

  lemma TakeBalances(s: System, id: nat, w: Fill -> int)
    requires Balanced(s, w) && IsAtBroker(s, id)
    ensures Balanced(OnTake(s, id), w)
  {
    var t := OnTake(s, id);
    if t != s {
      WeighSnoc(s.accepted, OrderFill(s.calls[id].stage.order), w);
      MoveBalances(s, t, id, t.calls[id], w);
    }
  }

  lemma AnswerBalances(cfg: Config, s: System, id: nat, reply: BrokerReply, w: Fill -> int)
    requires Balanced(s, w) && IsAtBroker(s, id) && Truthful(reply, s.calls[id].stage.taken)
    ensures Balanced(OnAnswer(cfg, s, id, reply), w)
  {
    var order := s.calls[id].stage.order;
    var t, fill := s.(desk := Booked(s.desk, Settled(order, reply))), OrderFill(order);
    WeighSnoc(s.lost, fill, w);
    WeighSnoc(s.fills, fill, w);
    if !s.calls[id].stage.taken {
      DoneBalances(cfg, s, t, id, w);
    } else {
      DoneBalances(cfg, s, Unrecorded(t, fill), id, w);
      DoneBalances(cfg, s, t.(fills := s.fills + [fill]), id, w);
    }
  }

  lemma CancelBalances(s: System, id: nat, w: Fill -> int)
    requires Balanced(s, w) && IsOpen(s, id)
    ensures Balanced(OnCancel(s, id), w)
  {
    var call := s.calls[id];
    if call.stage.AtBroker? && call.stage.taken { WeighSnoc(s.lost, OrderFill(call.stage.order), w); }
    CloseBalances(s, OnCancel(s, id), id, w);
  }

  lemma StepBalances(cfg: Config, s: System, e: Event, w: Fill -> int)
    requires cfg.Valid() && Balanced(s, w)
    ensures Balanced(Apply(cfg, s, e), w)
  {
    var t := Apply(cfg, s, e);
    if t == s { return; }
    match e
    case Advance(_) =>
    case Enter(id) => EnterBalances(cfg, s, id, w);
    case Take(id) => TakeBalances(s, id, w);
    case Answer(id, reply) => AnswerBalances(cfg, s, id, reply, w);
    case Cancel(id) => CancelBalances(s, id, w);
    case Publish(id, _) => CloseBalances(s, t, id, w);
    case Fail(id) => CloseBalances(s, t, id, w);
    case Arrive(id, _) => MoveBalances(s, t, id, t.calls[id], w);
    case Collect(id, _) => MoveBalances(s, t, id, t.calls[id], w);
    case Judge(id) => MoveBalances(s, t, id, t.calls[id], w);
  }

  /** Double entry.  Whatever is counted, in every reachable state what the broker took is what
      was recorded, lost, or is waiting for its answer. */
  lemma {:induction false} BooksBalance(cfg: Config, events: seq<Event>, w: Fill -> int)
    requires cfg.Valid()
    ensures Balanced(Run(cfg, events), w)
  {
    if events != [] {
      BooksBalance(cfg, events[..|events| - 1], w);
      StepBalances(cfg, Run(cfg, events[..|events| - 1]), events[|events| - 1], w);
    }
  }

  // ----- which steps lose an order -----

  /** The step takes an order that the broker has executed away from the portfolio: its call is
      cancelled, or `place_order` raises. */
  ghost predicate Loses(s: System, e: Event) {
    match e
    case Cancel(id) => IsAtBroker(s, id) && s.calls[id].stage.taken
    case Answer(id, reply) => reply == Raised && IsAtBroker(s, id) && s.calls[id].stage.taken
    case _ => false
  }

  ghost predicate LosesAt(cfg: Config, events: seq<Event>, i: nat)
    requires cfg.Valid() && i < |events|
  {
    Loses(Run(cfg, events[..i]), events[i])
  }

  ghost predicate Lossless(cfg: Config, events: seq<Event>)
    requires cfg.Valid()
  {
    forall i: nat :: i < |events| ==> !LosesAt(cfg, events, i)
  }

  lemma StepLoses(cfg: Config, s: System, e: Event)
    requires cfg.Valid() && CallsOk(cfg, s)
    ensures |Apply(cfg, s, e).lost| == |s.lost| + if Loses(s, e) then 1 else 0
  {
    if e.Answer? && IsAtBroker(s, e.id) {
      assert CallOk(cfg, s, s.calls[e.id]);
    }
  }

  /** Orders are lost in those steps and in no other. */
  lemma {:induction false} LossesIff(cfg: Config, events: seq<Event>)
    requires cfg.Valid()
    ensures Run(cfg, events).lost == [] <==> Lossless(cfg, events)
  {
    if events != [] {
      var earlier := events[..|events| - 1];
      LossesIff(cfg, earlier);
      RunOk(cfg, earlier);
      StepLoses(cfg, Run(cfg, earlier), events[|events| - 1]);
      LosslessSnoc(cfg, events);
    }
  }

  lemma LosslessSnoc(cfg: Config, events: seq<Event>)
    requires cfg.Valid() && events != []
    ensures var n := |events| - 1;
            Lossless(cfg, events) <==> Lossless(cfg, events[..n]) && !Loses(Run(cfg, events[..n]), events[n])
  {
    var n := |events| - 1;
    assert LosesAt(cfg, events, n) <==> Loses(Run(cfg, events[..n]), events[n]);
    forall i: nat | i < n
      ensures LosesAt(cfg, events[..n], i) <==> LosesAt(cfg, events, i)
    {
      assert events[..n][..i] == events[..i];
    }
  }

  // ----- the two books hold the same fills -----

  function Occurs(fill: Fill): Fill -> int { (f: Fill) => if f == fill then 1 else 0 }

  lemma {:induction false} WeighCounts(fills: seq<Fill>, fill: Fill)
    ensures Weigh(fills, Occurs(fill)) == multiset(fills)[fill]
  {
    if fills != [] {
      var n := |fills| - 1;
      WeighCounts(fills[..n], fill);
      assert fills == fills[..n] + [fills[n]];
    }
  }

  lemma CountsBalance(cfg: Config, events: seq<Event>, fill: Fill)
    requires cfg.Valid() && Run(cfg, events).calls == map[]
    ensures var s := Run(cfg, events);
            multiset(s.accepted)[fill] == multiset(s.fills)[fill] + multiset(s.lost)[fill]
  {
    var s := Run(cfg, events);
    BooksBalance(cfg, events, Occurs(fill));
    WeighCounts(s.accepted, fill);
    WeighCounts(s.fills, fill);
    WeighCounts(s.lost, fill);
  }

  /** Once no call is open, the portfolio has recorded what the broker took, all of it and nothing
      else, exactly if no step of the run lost an order. */
  lemma SameFillsIff(cfg: Config, events: seq<Event>)
    requires cfg.Valid() && Run(cfg, events).calls == map[]
    ensures var s := Run(cfg, events);
            multiset(s.accepted) == multiset(s.fills) <==> Lossless(cfg, events)
  {
    var s := Run(cfg, events);
    LossesIff(cfg, events);
    forall fill: Fill
      ensures multiset(s.accepted)[fill] == multiset(s.fills)[fill] + multiset(s.lost)[fill]
    {
      CountsBalance(cfg, events, fill);
    }
    if s.lost == [] {
      assert multiset(s.accepted) == multiset(s.fills);
    } else {
      assert s.lost[0] in multiset(s.lost);
    }
  }

  // ----- net amounts -----

  /** Shares of `symbol` that a fill brings in or takes out. */
  function Signed(symbol: string): Fill -> int {
    (f: Fill) => if f.symbol != symbol then 0 else if f.action == Buy then f.quantity else -f.quantity
  }

  lemma {:induction false} NetIsWeigh(fills: seq<Fill>, symbol: string)
    ensures Net(fills, symbol) == Weigh(fills, Signed(symbol))
  {
    if fills != [] { NetIsWeigh(fills[..|fills| - 1], symbol); }
  }

  lemma {:induction false} NetAtMost(fills: seq<Fill>, symbol: string, q: nat)
    requires forall f :: f in fills ==> 0 <= f.quantity <= q
    ensures Net(fills, symbol) <= |fills| * q
  {
    if fills != [] {
      NetAtMost(fills[..|fills| - 1], symbol, q);
      assert fills[|fills| - 1] in fills;
      assert |fills| * q == (|fills| - 1) * q + q;
    }
  }

  lemma BookIsFills(cfg: Config, s: System, fills: seq<Fill>)
    requires cfg.Valid() && LedgerOk(cfg, s) && forall f :: f in fills ==> f in s.accepted
    ensures AllFills(fills)
    ensures forall f :: f in fills ==>
              exists p :: p in s.placed && f == OrderFill(p.order) && OrderOk(cfg, p.order, p.context)
  {
    forall f | f in fills
      ensures IsFill(f) && exists p :: p in s.placed && f == OrderFill(p.order) && OrderOk(cfg, p.order, p.context)
    {
      assert InBook(s, f);
      var p :| p in s.placed && f == OrderFill(p.order);
      assert OrderOk(cfg, p.order, p.context);
    }
  }

  lemma LostIsSized(cfg: Config, s: System, q: nat)
    requires cfg.Valid() && LedgerOk(cfg, s) && forall signal :: cfg.sizer(signal) <= q
    ensures forall f :: f in s.lost ==> 0 <= f.quantity <= q
  {
    BookIsFills(cfg, s, s.lost);
  }

  /** What waits for its answer can bring in at most Q per call that may still buy. */
  lemma PendingAtMost(cfg: Config, s: System, symbol: string, m: nat, q: nat)
    requires Limited(cfg, m, q) && CallsOk(cfg, s)
    ensures SumOver(s.calls, Pending(Signed(symbol))) <= |Armed(s, symbol, m)| * q
  {
    forall id | id in s.calls
      ensures Pending(Signed(symbol))(s.calls[id]) <= if id in Armed(s, symbol, m) then q else 0
    {
      assert CallOk(cfg, s, s.calls[id]);
      PendingOfCall(cfg, s, id, symbol, m, q);
    }
    SumOverAtMost(s.calls, Pending(Signed(symbol)), Armed(s, symbol, m), q);
  }

  lemma PendingOfCall(cfg: Config, s: System, id: nat, symbol: string, m: nat, q: nat)
    requires Limited(cfg, m, q) && id in s.calls && CallOk(cfg, s, s.calls[id])
    ensures Pending(Signed(symbol))(s.calls[id]) <= if id in Armed(s, symbol, m) then q else 0
  {
    var call := s.calls[id];
    if call.stage.AtBroker? {
      assert OrderOk(cfg, call.stage.order, call.context);
      assert MaxPosition(m).Allows(call.stage.order.signal, call.context);
    }
  }

  /** The same bound for what the broker holds: M-1+k*Q, and Q for every order that was lost. */
  lemma BrokerBound(cfg: Config, events: seq<Event>, symbol: string, m: nat, q: nat)
    requires Limited(cfg, m, q)
    ensures var s := Run(cfg, events);
            Net(s.accepted, symbol) <= Cap(m, q, cfg.lanes) + |s.lost| * q
  {
    var s := Run(cfg, events);
    RunOk(cfg, events);
    PositionBound(cfg, events, symbol, m, q);
    BooksBalance(cfg, events, Signed(symbol));
    NetIsWeigh(s.accepted, symbol);
    NetIsWeigh(s.fills, symbol);
    NetIsWeigh(s.lost, symbol);
    PositionVersusNet(s.fills, symbol);
    LostIsSized(cfg, s, q);
    NetAtMost(s.lost, symbol, q);
    PendingAtMost(cfg, s, symbol, m, q);
  }

  // ----- the two books in their own orders -----

  ghost predicate NeverOversold(fills: seq<Fill>, symbol: string) {
    forall j :: 0 <= j <= |fills| ==> Net(fills[..j], symbol) >= 0
  }

  /** Replaying the broker's book gives the portfolio's position of `symbol`. */
  ghost predicate SamePosition(s: System, symbol: string) {
    Replay(s.accepted).Of(symbol) == s.Position(symbol)
  }

  /** Though answers may overtake each other, the position is the broker's in every lossless run
      without open calls in which neither book ever oversells the symbol. */
  lemma SamePositionUnlessOversold(cfg: Config, events: seq<Event>, symbol: string)
    requires cfg.Valid() && Run(cfg, events).calls == map[] && Lossless(cfg, events)
    requires NeverOversold(Run(cfg, events).accepted, symbol) && NeverOversold(Run(cfg, events).fills, symbol)
    ensures SamePosition(Run(cfg, events), symbol)
  {
    var s := Run(cfg, events);
    RunOk(cfg, events);
    LossesIff(cfg, events);
    BooksBalance(cfg, events, Signed(symbol));
    NetIsWeigh(s.accepted, symbol);
    NetIsWeigh(s.fills, symbol);
    NetIsWeigh(s.lost, symbol);
    BookIsFills(cfg, s, s.accepted);
    PositionVersusNet(s.accepted, symbol);
    PositionVersusNet(s.fills, symbol);
  }

  // ----- one call at a time -----

  ghost predicate IsPending(s: System, id: nat) {
    IsAtBroker(s, id) && s.calls[id].stage.taken
  }

  /** With at most one call open and nothing lost, the books are equal up to the order that
      waits for its answer. */
  ghost predicate SerialBook(s: System) {
    s.lost == [] ==>
      && ((forall id :: id in s.calls ==> !IsPending(s, id)) ==> s.accepted == s.fills)
      && (forall id :: IsPending(s, id) ==> s.accepted == s.fills + [OrderFill(s.calls[id].stage.order)])
  }

  lemma OnlyOne(calls: map<nat, Call>, one: nat, two: nat)
    requires |calls| <= 1 && one in calls && two in calls
    ensures one == two
  {
    assert |calls.Keys| == |calls|;
    SubsetProduct({one, two}, calls.Keys, 1);
  }

  /** The only open call moved or closed without anything being taken or recorded. */
  lemma UntouchedBook(s: System, t: System, id: nat)
    requires SerialBook(s) && |s.calls| <= 1 && !IsPending(s, id) && !IsPending(t, id)
    requires id in s.calls || s.calls == map[]
    requires forall j :: j in t.calls ==> j == id || j in s.calls
    requires t.accepted == s.accepted && t.fills == s.fills && t.lost == s.lost
    ensures SerialBook(t)
  {
    forall j | j in s.calls
      ensures j == id
    {
      OnlyOne(s.calls, id, j);
    }
  }

  lemma TakeKeepsBook(s: System, id: nat)
    requires SerialBook(s) && |s.calls| <= 1 && IsAtBroker(s, id)
    ensures SerialBook(OnTake(s, id))
  {
    var t := OnTake(s, id);
    forall j | j in s.calls
      ensures j == id
    {
      OnlyOne(s.calls, id, j);
    }
    if t != s {
      assert !IsPending(s, id) && IsPending(t, id);
      assert t.calls[id].stage.order == s.calls[id].stage.order;
    }
  }

  lemma AnswerKeepsBook(cfg: Config, s: System, id: nat, reply: BrokerReply)
    requires SerialBook(s) && |s.calls| <= 1 && IsAtBroker(s, id) && Truthful(reply, s.calls[id].stage.taken)
    ensures SerialBook(OnAnswer(cfg, s, id, reply))
  {
    var t := OnAnswer(cfg, s, id, reply);
    forall j | j in t.calls
      ensures j == id && !IsPending(t, j)
    {
      OnlyOne(s.calls, id, j);
    }
    if !s.calls[id].stage.taken { UntouchedBook(s, t, id); }
  }

  lemma CancelKeepsBook(s: System, id: nat)
    requires SerialBook(s) && |s.calls| <= 1 && IsOpen(s, id)
    ensures SerialBook(OnCancel(s, id))
  {
    if !IsPending(s, id) { UntouchedBook(s, OnCancel(s, id), id); }
  }

  lemma EnterKeepsBook(cfg: Config, s: System, id: nat)
    requires SerialBook(s) && |s.calls| <= 1 && IsOpen(s, id) && s.calls[id].stage.Sizing?
    ensures SerialBook(OnEnter(cfg, s, id))
  {
    UntouchedBook(s, OnEnter(cfg, s, id), id);
  }

  lemma StepKeepsBook(cfg: Config, s: System, e: Event)
    requires cfg.Valid() && cfg.lanes <= 1 && |s.calls| <= 1 && SerialBook(s)
    ensures SerialBook(Apply(cfg, s, e))
  {
    var t := Apply(cfg, s, e);
    if t == s { return; }
    match e
    case Advance(_) =>
    case Enter(id) => EnterKeepsBook(cfg, s, id);
    case Take(id) => TakeKeepsBook(s, id);
    case Answer(id, reply) => AnswerKeepsBook(cfg, s, id, reply);
    case Cancel(id) => CancelKeepsBook(s, id);
    case Publish(id, _) => UntouchedBook(s, t, id);
    case Fail(id) => UntouchedBook(s, t, id);
    case Arrive(id, _) => UntouchedBook(s, t, id);
    case Collect(id, _) => UntouchedBook(s, t, id);
    case Judge(id) => UntouchedBook(s, t, id);
  }

  lemma {:induction false} SerialBooks(cfg: Config, events: seq<Event>)
    requires cfg.Valid() && cfg.lanes <= 1
    ensures SerialBook(Run(cfg, events))
  {
    if events != [] {
      SerialBooks(cfg, events[..|events| - 1]);
      RunOk(cfg, events[..|events| - 1]);
      StepKeepsBook(cfg, Run(cfg, events[..|events| - 1]), events[|events| - 1]);
    }
  }

  /** In a serial run that loses nothing the two books are the same list, in the same order,
      whenever no call is open. */
  lemma SerialBooksAreEqual(cfg: Config, events: seq<Event>)
    requires cfg.Valid() && cfg.lanes <= 1 && Lossless(cfg, events) && Run(cfg, events).calls == map[]
    ensures Run(cfg, events).accepted == Run(cfg, events).fills
  {
    SerialBooks(cfg, events);
    LossesIff(cfg, events);
  }
}
