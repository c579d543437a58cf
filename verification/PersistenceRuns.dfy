/** Every life of the worker: arrivals, failing inserts, crashing sessions, stops and restarts. */
module PersistenceRuns {
  import opened Models
  import opened PersistenceWorker

  /** Where the tick task, or `stop()` after it, is suspended. */
  datatype Phase =
    | Idle                                       // between sessions
    | Reading(lastFlush: real)                   // in the bounded read, at the loop head
    | Inserting(batch: seq<Parsed>, at: real)    // in insert_batch, for a flush begun at `at`
    | Draining(batch: seq<Parsed>)               // stop() writes the rest
    | Stopped

  /** A call of insert_batch: what, when, and when the session had begun. */
  datatype Handover = Handover(batch: seq<Parsed>, at: real, since: real, inSession: bool)

  datatype State = State(
    store: Store,
    phase: Phase,
    clock: real,
    since: real,             // start of the newest session
    arrivals: seq<Parsed>,    // every parsed tick
    handed: seq<Handover>,
    stored: seq<Parsed>,      // rows confirmed by the repository
    lost: nat,                // ticks in batches whose insert was cancelled
    cuts: nat)                // stops that cancelled an insert

  const START := State(EMPTY, Idle, 0.0, 0.0, [], [], [], 0, 0)

  datatype Event =
    | Open(after: real)
    | Receive(after: real, message: Message)
    | Answered(after: real, ok: bool)
    | Crash
    | Stop(after: real)
    | Restart

  function HandOver(s: State, batch: seq<Parsed>, inSession: bool): State {
    s.(store := s.store.(buffer := []),
       handed := s.handed + [Handover(batch, s.clock, s.since, inSession)])
  }

  /** The loop body between the read and either the next read or an insert. */
  function OnReceive(limits: Limits, s: State, message: Message): State
    requires s.phase.Reading?
  {
    var store := AfterMessage(limits, s.store, s.clock, message);
    var t := s.(
      store := store,
      arrivals := if message.Delivered? then s.arrivals + [Parsed(message.tick, s.clock)] else s.arrivals);
    if Flushes(limits, store, s.phase.lastFlush, s.clock, message)
    then HandOver(t, store.buffer, true).(phase := Inserting(store.buffer, s.clock))
    else t
  }

  function OnAnswer(s: State, batch: seq<Parsed>, ok: bool, next: Phase): State {
    s.(store := Counted(s.store, batch, ok), stored := s.stored + (if ok then batch else []), phase := next)
  }

  /** `stop()`: the task is cancelled where it waits; a cancelled insert is counted nowhere. */
  function OnStop(s: State): State {
    match s.phase
    case Stopped => s
    case Draining(_) => s
    case Inserting(batch, _) =>
      s.(lost := s.lost + |batch|, cuts := s.cuts + 1, phase := Stopped)
    case _ =>
      if s.store.buffer == [] then s.(phase := Stopped)
      else HandOver(s, s.store.buffer, s.phase.Reading?).(phase := Draining(s.store.buffer))
  }

  function Later(s: State, after: real): State {
    s.(clock := s.clock + after)
  }

  /** One step.  A read lasts at most the flush interval, an insert any time. */
  function Apply(limits: Limits, s: State, e: Event): State {
    match e
    case Open(after) =>
      if s.phase == Idle && after >= 0.0
      then Later(s, after).(phase := Reading(s.clock + after), since := s.clock + after)
      else s
    case Receive(after, message) =>
      if s.phase.Reading? && 0.0 <= after <= limits.interval
      then OnReceive(limits, Later(s, after), message)
      else s
    case Answered(after, ok) =>
      if after < 0.0 then s
      else if s.phase.Inserting? then OnAnswer(Later(s, after), s.phase.batch, ok, Reading(s.phase.at))
      else if s.phase.Draining? then OnAnswer(Later(s, after), s.phase.batch, ok, Stopped)
      else s
    case Crash => if s.phase.Reading? then s.(phase := Idle) else s
    case Stop(after) =>
      if after < 0.0 || (s.phase.Reading? && after > limits.interval) then s else OnStop(Later(s, after))
    case Restart => if s.phase == Stopped then s.(phase := Idle) else s
  }

  function Run(limits: Limits, events: seq<Event>): State {
    if events == [] then START else Apply(limits, Run(limits, events[..|events| - 1]), events[|events| - 1])
  }

  // ----- conservation and order -----

  /** The batch that is with the repository right now. */
  function InFlight(s: State): nat {
    match s.phase
    case Inserting(batch, _) => |batch|
    case Draining(batch) => |batch|
    case _ => 0
  }

  function Rows(handed: seq<Handover>): seq<Parsed> {
    if handed == [] then [] else Rows(handed[..|handed| - 1]) + handed[|handed| - 1].batch
  }

  ghost predicate Conserved(limits: Limits, s: State) {
    && |s.arrivals| == s.store.inserted + s.store.dropped + |s.store.buffer| + InFlight(s) + s.lost
    && Rows(s.handed) + s.store.buffer == s.arrivals
    && s.store.inserted == |s.stored|
    && |s.store.buffer| < limits.threshold
    && InFlight(s) <= limits.threshold
    && s.lost <= s.cuts * limits.threshold
    && (!s.phase.Reading? && s.phase != Idle ==> s.store.buffer == [])
  }

  lemma HandOverRows(handed: seq<Handover>, h: Handover)
    ensures Rows(handed + [h]) == Rows(handed) + h.batch
  {
    assert (handed + [h])[..|handed|] == handed;
  }

  /** A full buffer gives up its oldest tick and counts it; any other only grows. */
  lemma EvictionIsCounted(store: Store, p: Parsed, bufferMax: nat)
    requires 1 <= bufferMax && |store.buffer| <= bufferMax
    ensures var after := Enqueued(store, p, bufferMax);
            && after.buffer == (if |store.buffer| < bufferMax then store.buffer else store.buffer[1..]) + [p]
            && after.dropped == store.dropped + (if |store.buffer| < bufferMax then 0 else 1)
            && after.inserted == store.inserted
  {
  }

  lemma NoEviction(limits: Limits, store: Store, p: Parsed)
    requires limits.WellFormed() && |store.buffer| < limits.threshold
    ensures Enqueued(store, p, limits.bufferMax) == store.(buffer := store.buffer + [p])
  {
  }

  /** A tick that arrives is appended; other messages change nothing. */
  lemma MessageAppends(limits: Limits, store: Store, now: real, message: Message)
    requires limits.WellFormed() && |store.buffer| < limits.threshold
    ensures AfterMessage(limits, store, now, message)
         == store.(buffer := store.buffer + if message.Delivered? then [Parsed(message.tick, now)] else [])
  {
    if message.Delivered? {
      NoEviction(limits, store, Parsed(message.tick, now));
    } else {
      assert store.buffer + [] == store.buffer;
    }
  }

  lemma FlushConserves(limits: Limits, s: State, t: State, buffer: seq<Parsed>)
    requires limits.WellFormed() && Conserved(limits, s) && s.phase.Reading? && |buffer| <= limits.threshold
    requires Rows(s.handed) + buffer == t.arrivals
    requires t.store == s.store.(buffer := []) && t.phase == Inserting(buffer, s.clock)
    requires t.handed == s.handed + [Handover(buffer, s.clock, s.since, true)]
    requires t.stored == s.stored && t.lost == s.lost && t.cuts == s.cuts
    ensures Conserved(limits, t)
  {
    HandOverRows(s.handed, t.handed[|s.handed|]);
  }

  lemma ReceiveConserves(limits: Limits, s: State, message: Message)
    requires limits.WellFormed() && Conserved(limits, s) && s.phase.Reading?
    ensures Conserved(limits, OnReceive(limits, s, message))
  {
    var t := OnReceive(limits, s, message);
    var arrived := if message.Delivered? then [Parsed(message.tick, s.clock)] else [];
    var buffer := s.store.buffer + arrived;
    MessageAppends(limits, s.store, s.clock, message);
    assert t.arrivals == s.arrivals + arrived;
    assert t.arrivals == Rows(s.handed) + buffer;
    if t.phase.Inserting? {
      FlushConserves(limits, s, t, buffer);
    } else {
      assert t.store == s.store.(buffer := buffer);
    }
  }

  lemma CutsProduct(lost: nat, cuts: nat, batch: nat, threshold: nat)
    requires lost <= cuts * threshold && batch <= threshold
    ensures lost + batch <= (cuts + 1) * threshold
  {
    assert (cuts + 1) * threshold == cuts * threshold + threshold;
  }

  /** The rest of the buffer goes to the repository. */
  lemma DrainConserves(limits: Limits, s: State, inSession: bool)
    requires limits.WellFormed() && Conserved(limits, s) && InFlight(s) == 0
    ensures Conserved(limits, HandOver(s, s.store.buffer, inSession).(phase := Draining(s.store.buffer)))
  {
    HandOverRows(s.handed, Handover(s.store.buffer, s.clock, s.since, inSession));
  }

  lemma CutConserves(limits: Limits, s: State)
    requires limits.WellFormed() && Conserved(limits, s) && s.phase.Inserting?
    ensures Conserved(limits, OnStop(s))
  {
    CutsProduct(s.lost, s.cuts, |s.phase.batch|, limits.threshold);
  }

  lemma StopConserves(limits: Limits, s: State)
    requires limits.WellFormed() && Conserved(limits, s)
    ensures Conserved(limits, OnStop(s))
  {
    match s.phase
    case Stopped =>
    case Draining(_) =>
    case Inserting(_, _) => CutConserves(limits, s);
    case _ => DrainConserves(limits, s, s.phase.Reading?);
  }

  lemma ConservationKept(limits: Limits, s: State, e: Event)
    requires limits.WellFormed() && Conserved(limits, s)
    ensures Conserved(limits, Apply(limits, s, e))
  {
    match e
    case Receive(after, message) =>
      if s.phase.Reading? && 0.0 <= after <= limits.interval {
        ReceiveConserves(limits, Later(s, after), message);
      }
    case Stop(after) => StopConserves(limits, Later(s, after));
    case _ =>
  }

  /** Over every run: each parsed tick is inserted, dropped, buffered, with the repository, or
      in one of the batches whose insert a stop cancelled (at most one batch of at most
      `threshold` ticks per stop); ticks are handed over exactly once and in arrival order;
      and the buffer is below the threshold at every loop head, so eviction never happens. */
  lemma {:induction false} TicksAreConserved(limits: Limits, events: seq<Event>)
    requires limits.WellFormed()
    ensures Conserved(limits, Run(limits, events))
  {
    if events != [] {
      TicksAreConserved(limits, events[..|events| - 1]);
      ConservationKept(limits, Run(limits, events[..|events| - 1]), events[|events| - 1]);
    }
  }

  /** After a clean shutdown nothing is left over: every parsed tick was inserted or is
      counted as dropped, unless the stop cut an insert short. */
  lemma ShutdownAccountsForAll(limits: Limits, events: seq<Event>)
    requires limits.WellFormed() && Run(limits, events).phase == Stopped
    ensures var s := Run(limits, events);
            && |s.arrivals| == s.store.inserted + s.store.dropped + s.lost
            && Rows(s.handed) == s.arrivals
            && (s.cuts == 0 ==> s.lost == 0)
            && (s.cuts == 1 ==> s.lost <= limits.threshold)
  {
    TicksAreConserved(limits, events);
  }

  /** The batch that is with the repository right now. */
  function Batch(s: State): seq<Parsed> {
    match s.phase
    case Inserting(batch, _) => batch
    case Draining(batch) => batch
    case _ => []
  }

  ghost predicate AllGood(events: seq<Event>) {
    forall e :: e in events && e.Answered? ==> e.ok
  }

  /** Nothing was cut short, so everything is stored, with the repository, or buffered. */
  ghost predicate Complete(s: State) {
    s.cuts == 0 ==> s.store.dropped == 0 && s.stored + Batch(s) + s.store.buffer == s.arrivals
  }

  lemma ReceiveKeepsComplete(limits: Limits, s: State, message: Message)
    requires limits.WellFormed() && Conserved(limits, s) && Complete(s) && s.phase.Reading?
    ensures Complete(OnReceive(limits, s, message))
  {
    var t := OnReceive(limits, s, message);
    var arrived := if message.Delivered? then [Parsed(message.tick, s.clock)] else [];
    MessageAppends(limits, s.store, s.clock, message);
    assert t.arrivals == s.arrivals + arrived;
    assert s.stored + [] + (s.store.buffer + arrived) == s.stored + [] + s.store.buffer + arrived;
    assert s.stored + (s.store.buffer + arrived) + [] == s.stored + [] + (s.store.buffer + arrived);
  }

  lemma CompleteKept(limits: Limits, s: State, e: Event)
    requires limits.WellFormed() && Conserved(limits, s) && Complete(s) && (e.Answered? ==> e.ok)
    ensures Complete(Apply(limits, s, e))
  {
    match e
    case Receive(after, message) =>
      if s.phase.Reading? && 0.0 <= after <= limits.interval {
        ReceiveKeepsComplete(limits, Later(s, after), message);
      }
    case Answered(_, _) =>
      assert s.stored + Batch(s) + [] + s.store.buffer == s.stored + Batch(s) + s.store.buffer;
    case Stop(_) =>
      assert s.stored + [] + s.store.buffer == s.stored + s.store.buffer + [];
    case _ =>
  }

  /** With a repository that takes every batch, and no stop that cuts an insert short, nothing is
      ever dropped: what is stored, in flight and buffered is all that arrived, in its order. */
  lemma {:induction false} GoodRepositoryKeepsAll(limits: Limits, events: seq<Event>)
    requires limits.WellFormed() && AllGood(events)
    ensures Complete(Run(limits, events))
  {
    if events != [] {
      var n := |events| - 1;
      assert events[n] in events;
      GoodRepositoryKeepsAll(limits, events[..n]);
      TicksAreConserved(limits, events[..n]);
      CompleteKept(limits, Run(limits, events[..n]), events[n]);
    }
  }

  /** And one that takes none leaves nothing stored. */
  lemma {:induction false} BadRepositoryKeepsNone(limits: Limits, events: seq<Event>)
    requires forall e :: e in events && e.Answered? ==> !e.ok
    ensures Run(limits, events).stored == [] && Run(limits, events).store.inserted == 0
  {
    if events != [] {
      assert events[|events| - 1] in events;
      BadRepositoryKeepsNone(limits, events[..|events| - 1]);
    }
  }

  // ----- when a batch is handed over -----

  /** Whether the tick that makes the buffer as long as the threshold has just arrived, or the
      interval since the last handover is over and there is anything to write. */
  predicate Due(limits: Limits, waiting: nat, arrived: bool, elapsed: real) {
    || (arrived && waiting + 1 == limits.threshold)
    || ((arrived || waiting > 0) && elapsed >= limits.interval)
  }

  /** At every loop head of every run: the next message leads to an insert exactly if a batch is
      due, and then of everything that waits; otherwise the buffer keeps it and reads on.  An
      unparsable payload is no arrival. */
  lemma HandsOverIff(limits: Limits, events: seq<Event>, after: real, message: Message)
    requires limits.WellFormed() && Run(limits, events).phase.Reading? && 0.0 <= after <= limits.interval
    ensures var s, t := Run(limits, events), Run(limits, events + [Receive(after, message)]);
            var now, since := s.clock + after, s.phase.lastFlush;
            var waiting := s.store.buffer + if message.Delivered? then [Parsed(message.tick, now)] else [];
            && t.store.inserted == s.store.inserted && t.store.dropped == s.store.dropped
            && if Due(limits, |s.store.buffer|, message.Delivered?, now - since)
               then t.phase == Inserting(waiting, now) && t.store.buffer == []
                    && t.handed == s.handed + [Handover(waiting, now, s.since, true)]
               else t.phase == Reading(since) && t.store.buffer == waiting && t.handed == s.handed
  {
    assert (events + [Receive(after, message)])[..|events|] == events;
    TicksAreConserved(limits, events);
    ReadHandsOverIff(limits, Later(Run(limits, events), after), message);
  }

  lemma ReadHandsOverIff(limits: Limits, s: State, message: Message)
    requires limits.WellFormed() && s.phase.Reading? && |s.store.buffer| < limits.threshold
    ensures var t := OnReceive(limits, s, message);
            var waiting := s.store.buffer + if message.Delivered? then [Parsed(message.tick, s.clock)] else [];
            && t.store.inserted == s.store.inserted && t.store.dropped == s.store.dropped
            && if Due(limits, |s.store.buffer|, message.Delivered?, s.clock - s.phase.lastFlush)
               then t.phase == Inserting(waiting, s.clock) && t.store.buffer == []
                    && t.handed == s.handed + [Handover(waiting, s.clock, s.since, true)]
               else t.phase == s.phase && t.store.buffer == waiting && t.handed == s.handed
  {
    MessageAppends(limits, s.store, s.clock, message);
  }

  // ----- latency -----

  function Latest(x: real, y: real): real { if x >= y then x else y }

  /** How long `p` has waited in the session that began at `since`; a tick left over from an
      earlier session waits in this one from its opening. */
  function Waited(p: Parsed, since: real, now: real): real {
    now - Latest(p.at, since)
  }

  ghost predicate Prompt(limits: Limits, h: Handover) {
    h.inSession ==> forall p :: p in h.batch ==> Waited(p, h.since, h.at) < 2.0 * limits.interval
  }

  ghost predicate Young(limits: Limits, s: State) {
    && s.since <= s.clock
    && (forall h :: h in s.handed ==> Prompt(limits, h))
    && (forall p :: p in s.store.buffer ==> p.at <= s.clock)
    && (s.phase.Reading? ==>
          && s.since <= s.phase.lastFlush <= s.clock
          && (s.store.buffer != [] ==> s.clock - s.phase.lastFlush < limits.interval)
          && forall p :: p in s.store.buffer ==> Latest(p.at, s.since) >= s.phase.lastFlush)
    && (s.phase.Inserting? ==> s.since <= s.phase.at <= s.clock)
  }

  lemma ReceiveStaysYoung(limits: Limits, s: State, after: real, message: Message)
    requires limits.WellFormed() && Conserved(limits, s) && Young(limits, s)
    requires s.phase.Reading? && 0.0 <= after <= limits.interval
    ensures Young(limits, OnReceive(limits, Later(s, after), message))
  {
    var u := Later(s, after);
    var t := OnReceive(limits, u, message);
    var arrived := if message.Delivered? then [Parsed(message.tick, u.clock)] else [];
    if message.Delivered? { NoEviction(limits, s.store, arrived[0]); }
    var buffer := s.store.buffer + arrived;
    assert AfterMessage(limits, u.store, u.clock, message).buffer == buffer;
    forall p | p in buffer
      ensures Latest(p.at, s.since) >= s.phase.lastFlush && p.at <= u.clock
      ensures Waited(p, s.since, u.clock) < 2.0 * limits.interval
    {
    }
    if t.phase.Inserting? {
      assert Prompt(limits, Handover(buffer, u.clock, s.since, true));
    }
  }

  lemma StopStaysYoung(limits: Limits, s: State, after: real)
    requires limits.WellFormed() && Conserved(limits, s) && Young(limits, s)
    requires after >= 0.0 && (s.phase.Reading? ==> after <= limits.interval)
    ensures Young(limits, OnStop(Later(s, after)))
  {
    var u := Later(s, after);
    var t := OnStop(u);
    if t.phase.Draining? && !s.phase.Draining? {
      assert Prompt(limits, Handover(s.store.buffer, u.clock, s.since, s.phase.Reading?));
    }
  }

  lemma YoungKept(limits: Limits, s: State, e: Event)
    requires limits.WellFormed() && Conserved(limits, s) && Young(limits, s)
    ensures Young(limits, Apply(limits, s, e))
  {
    match e
    case Receive(after, message) =>
      if s.phase.Reading? && 0.0 <= after <= limits.interval { ReceiveStaysYoung(limits, s, after, message); }
    case Stop(after) =>
      if !(after < 0.0 || (s.phase.Reading? && after > limits.interval)) { StopStaysYoung(limits, s, after); }
    case _ =>
  }

  /** Latency, with reads of at most I and inserts of any length: within a session every tick
      buffered at a loop head has waited less than I, and reaches the repository after less
      than 2*I, although an idle interval does not advance `last_flush`. */
  lemma {:induction false} TicksReachTheRepositoryInTime(limits: Limits, events: seq<Event>)
    requires limits.WellFormed()
    ensures Young(limits, Run(limits, events))
    ensures var s := Run(limits, events);
            s.phase.Reading? ==>
              forall p :: p in s.store.buffer ==> Waited(p, s.since, s.clock) < limits.interval
  {
    if events != [] {
      var s := Run(limits, events[..|events| - 1]);
      TicksReachTheRepositoryInTime(limits, events[..|events| - 1]);
      TicksAreConserved(limits, events[..|events| - 1]);
      YoungKept(limits, s, events[|events| - 1]);
    }
  }

  /** After an idle interval the next tick does not wait for company: it is handed over alone
      and at once. */
  lemma FirstTickAfterIdleGoesAlone(limits: Limits, s: State, after: real, tick: Tick)
    requires limits.WellFormed() && s.phase.Reading? && s.store.buffer == []
    requires 0.0 <= after <= limits.interval && s.clock + after - s.phase.lastFlush >= limits.interval
    ensures var t := Apply(limits, s, Receive(after, Delivered(tick)));
            t.phase == Inserting([Parsed(tick, s.clock + after)], s.clock + after)
  {
    assert s.store.buffer + [Parsed(tick, s.clock + after)] == [Parsed(tick, s.clock + after)];
  }

  // ----- the runs are the code's session loop -----

  /** The events of a session in which nothing crashes or stops, from the loop head on. */
  function Events(limits: Limits, s: State, pull: Pull): seq<Event>
    requires s.phase.Reading?
  {
    var receive := Receive(pull.at - s.clock, pull.message);
    if Apply(limits, s, receive).phase.Inserting? then [receive, Answered(0.0, pull.ok)] else [receive]
  }

  function ApplyAll(limits: Limits, s: State, events: seq<Event>): State {
    if events == [] then s
    else Apply(limits, ApplyAll(limits, s, events[..|events| - 1]), events[|events| - 1])
  }

  /** One pass of the loop, as the method runs it, is these steps of the machine. */
  lemma IterationIsSteps(limits: Limits, s: State, pull: Pull, handed: seq<seq<Parsed>>)
    requires limits.WellFormed() && Conserved(limits, s) && s.phase.Reading?
    requires 0.0 <= pull.at - s.clock <= limits.interval
    ensures var t := ApplyAll(limits, s, Events(limits, s, pull));
            var pass := Iterated(limits, Session(s.store, s.phase.lastFlush, handed), pull);
            && t.phase == Reading(pass.lastFlush)
            && t.store == pass.store
            && t.clock == pull.at
  {
    var events := Events(limits, s, pull);
    var receive := events[0];
    assert events[..1] == [receive] && [receive][..0] == [];
    assert ApplyAll(limits, s, [receive]) == Apply(limits, s, receive);
    if |events| == 2 {
      assert events[..2][..1] == [receive];
    }
  }

  lemma {:induction false} RunThenApply(limits: Limits, base: seq<Event>, events: seq<Event>)
    ensures Run(limits, base + events) == ApplyAll(limits, Run(limits, base), events)
  {
    if events == [] {
      assert base + events == base;
    } else {
      RunThenApply(limits, base, events[..|events| - 1]);
      assert (base + events)[..|base + events| - 1] == base + events[..|events| - 1];
    }
  }

  function EndTime(pulls: seq<Pull>, from: real): real {
    if pulls == [] then from else pulls[|pulls| - 1].at
  }

  /** Each read ends within the interval after the one before, inserts taking no time. */
  ghost predicate WellTimed(limits: Limits, pulls: seq<Pull>, from: real) {
    pulls == []
    || (var earlier := pulls[..|pulls| - 1];
        && WellTimed(limits, earlier, from)
        && 0.0 <= pulls[|pulls| - 1].at - EndTime(earlier, from) <= limits.interval)
  }

  /** The session loop, run on any well-timed pulls from a reachable loop head, ends in a
      state that the machine reaches too: same store, same `last_flush`. */
  lemma {:induction false} SessionIsRun(limits: Limits, base: seq<Event>, pulls: seq<Pull>)
    returns (events: seq<Event>)
    requires limits.WellFormed() && Run(limits, base).phase.Reading?
    requires WellTimed(limits, pulls, Run(limits, base).clock)
    ensures var s, t := Run(limits, base), Run(limits, base + events);
            var end := Consumed(limits, Session(s.store, s.phase.lastFlush, []), pulls);
            && t.phase == Reading(end.lastFlush)
            && t.store == end.store
            && t.clock == EndTime(pulls, s.clock)
  {
    var s := Run(limits, base);
    if pulls == [] {
      events := [];
      assert base + events == base;
    } else {
      var n := |pulls| - 1;
      var before := SessionIsRun(limits, base, pulls[..n]);
      var mid := Run(limits, base + before);
      TicksAreConserved(limits, base + before);
      var handed := Consumed(limits, Session(s.store, s.phase.lastFlush, []), pulls[..n]).handed;
      IterationIsSteps(limits, mid, pulls[n], handed);
      RunThenApply(limits, base + before, Events(limits, mid, pulls[n]));
      events := before + Events(limits, mid, pulls[n]);
      assert base + events == (base + before) + Events(limits, mid, pulls[n]);
    }
  }
}
