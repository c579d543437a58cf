/** Every run of the supervisor: tasks die when they like, and stop() may arrive in the
    middle of a failover. */
module SupervisorRuns {
  import opened PublisherSupervisor

  datatype BringUp = Connected | KisError | OtherError

  datatype Event =
    | Start(credentials: bool, development: bool)
    | BroughtUp(result: BringUp, development: bool)
    | FailedClosed(development: bool)
    | MainOver(crashed: bool)
    | RefreshOver
    | MockOver
    | WatchTick
    | RefreshJoined(crashed: bool)   // the cancelled refresh task is over
    | MainJoined(crashed: bool)      // the cancelled stream task is over
    | MockJoined(crashed: bool)      // the cancelled mock task is over
    | SocketClosed
    | StopCall
    | CancelLands                    // the watchdog's cancellation takes effect where it waits

  function Over(crashed: bool): Task { if crashed then Crashed else Ended }

  /** The refresh task is joined by whoever waits for it.  The failover swallows a cancellation
      that arrives while it waits here, and goes on to its end. */
  function OnRefreshJoined(s: State, crashed: bool): State {
    if s.watchdog == StoppingRefresh then
      var t := s.(cancelPending := false);
      FailoverClient(DeadTasksDropped(t.(refresh := if crashed then Crashed else Absent)))
    else if s.stop == AwaitingRefresh then
      if crashed then s.(refresh := Crashed, stop := StopRaised) else StopMain(s.(refresh := Absent))
    else s
  }

  /** `stop()` resumes as soon as the watchdog it waits for is over. */
  function Resumed(s: State): State {
    if s.stop == AwaitingWatchdog && s.watchdog in {Finished, Cancelled} then StopPublisher(s) else s
  }

  function Apply(s: State, e: Event): State {
    match e
    case Start(credentials, development) =>
      if s.start != NotCalled then s
      else if credentials then s.(start := BringingUp)
      else Fallback(s, development)
    case BroughtUp(result, development) =>
      if s.start != BringingUp then s
      else
        (match result
         case Connected => KisStarted(s)
         case KisError => s.(start := ClosingFailed)
         case OtherError => s.(start := StartRaised))
    case FailedClosed(development) => if s.start == ClosingFailed then Fallback(s, development) else s
    case MainOver(crashed) => if s.main.Live? then s.(main := Over(crashed)) else s
    case RefreshOver => if s.refresh.Live? then s.(refresh := Crashed) else s
    case MockOver => if s.mock.Live? then s.(mock := Crashed) else s
    case WatchTick => if s.watchdog == Sleeping && s.stop == NotStopping then Watched(s) else s
    case RefreshJoined(crashed) =>
      if s.refresh.Live? || s.refresh.Crashed? then Resumed(OnRefreshJoined(s, crashed || s.refresh.Crashed?)) else s
    case MainJoined(crashed) =>
      if s.stop != AwaitingMain then s
      else if crashed || s.main.Crashed? then s.(main := Crashed, stop := StopRaised)
      else PublisherStopped(s.(main := Absent))
    case MockJoined(crashed) =>
      if s.stop != AwaitingMock then s
      else if crashed || s.mock.Crashed? then s.(mock := Crashed, stop := StopRaised)
      else PublisherStopped(s.(mock := Absent))
    case SocketClosed =>
      if s.watchdog == ClosingDeadClient && !s.cancelPending
      then Resumed(FailoverMock(s.(socketOpen := false, client := false)))
      else if s.stop == ClosingClient then s.(socketOpen := false, client := false, stop := Completed)
      else s
    case StopCall => if s.start == Started && s.stop == NotStopping then StopCalled(s) else s
    case CancelLands =>
      if s.cancelPending && s.watchdog in {Sleeping, ClosingDeadClient}
      then Resumed(s.(watchdog := Cancelled, cancelPending := false))
      else s
  }

  function Run(events: seq<Event>): State {
    if events == [] then INITIAL else Apply(Run(events[..|events| - 1]), events[|events| - 1])
  }

  // ----- what every step keeps -----

  lemma StopMainSound(s: State)
    requires s.start == Started && OnePublisher(s) && ClientWithKis(s) && s.stop == AwaitingRefresh
    requires WatchdogOk(s) && s.active == Kis && Dead(s.refresh)
    ensures Sound(StopMain(s))
  {
  }

  lemma PublisherStoppedSound(s: State)
    requires s.start == Started && ClientWithKis(s) && WatchdogOk(s) && s.stop in {AwaitingMain, AwaitingMock}
    requires Dead(s.main) && Dead(s.refresh) && Dead(s.mock)
    ensures Sound(PublisherStopped(s))
  {
  }

  /** A failover that goes on to close the client, or to the mock, from a dead publisher. */
  lemma FailoverClientSound(s: State)
    requires s.start == Started && s.active == Kis && ClientWithKis(s)
    requires s.watchdog in {Sleeping, StoppingRefresh} && s.failovers <= 1 && !s.cancelPending
    requires Dead(s.main) && Dead(s.refresh) && Dead(s.mock) && s.stop in {NotStopping, AwaitingWatchdog}
    ensures Sound(Resumed(FailoverClient(s)))
    ensures s.stop == NotStopping ==> Resumed(FailoverClient(s)) == FailoverClient(s)
  {
    if s.client && s.socketOpen {
    } else {
      var t := FailoverMock(s.(client := false));
      if s.stop == AwaitingWatchdog { StopPublisherSound(t); }
    }
  }

  lemma WatchedSound(s: State)
    requires Sound(s) && s.watchdog == Sleeping && s.stop == NotStopping
    ensures Sound(Watched(s))
  {
    if s.active == Kis && !Running(s) && !s.refresh.Live? {
      FailoverClientSound(DeadTasksDropped(s.(failovers := s.failovers + 1)));
    }
  }

  lemma RefreshJoinedSound(s: State, crashed: bool)
    requires Sound(s) && (s.refresh.Live? || s.refresh.Crashed?)
    ensures Sound(Resumed(OnRefreshJoined(s, crashed)))
  {
    var t := s.(cancelPending := false);
    if s.watchdog == StoppingRefresh {
      FailoverClientSound(DeadTasksDropped(t.(refresh := if crashed then Crashed else Absent)));
    } else if s.stop == AwaitingRefresh && !crashed {
      StopMainSound(s.(refresh := Absent));
    }
  }

  lemma StopCalledSound(s: State)
    requires Sound(s) && s.start == Started && s.stop == NotStopping
    ensures Sound(StopCalled(s))
  {
    if WatchdogOver(s) { StopPublisherSound(s); }
  }

  lemma SocketClosedSound(s: State)
    requires Sound(s)
    ensures Sound(Apply(s, SocketClosed))
  {
    if s.watchdog == ClosingDeadClient && !s.cancelPending {
      var t := FailoverMock(s.(socketOpen := false, client := false));
      if s.stop == AwaitingWatchdog { StopPublisherSound(t); }
    }
  }

  lemma CancelLandsSound(s: State)
    requires Sound(s)
    ensures Sound(Apply(s, CancelLands))
  {
    if s.cancelPending && s.watchdog in {Sleeping, ClosingDeadClient} {
      StopPublisherSound(s.(watchdog := Cancelled, cancelPending := false));
    }
  }

  lemma JoinedSound(s: State, crashed: bool)
    requires Sound(s)
    ensures Sound(Apply(s, MainJoined(crashed))) && Sound(Apply(s, MockJoined(crashed)))
  {
    if s.stop == AwaitingMain && !crashed && !s.main.Crashed? { PublisherStoppedSound(s.(main := Absent)); }
    if s.stop == AwaitingMock && !crashed && !s.mock.Crashed? { PublisherStoppedSound(s.(mock := Absent)); }
  }

  lemma StepKeepsSound(s: State, e: Event)
    requires Sound(s)
    ensures Sound(Apply(s, e))
  {
    match e
    case WatchTick => if s.watchdog == Sleeping && s.stop == NotStopping { WatchedSound(s); }
    case RefreshJoined(crashed) =>
      if s.refresh.Live? || s.refresh.Crashed? { RefreshJoinedSound(s, crashed || s.refresh.Crashed?); }
    case MainJoined(crashed) => JoinedSound(s, crashed);
    case MockJoined(crashed) => JoinedSound(s, crashed);
    case SocketClosed => SocketClosedSound(s);
    case StopCall => if s.start == Started && s.stop == NotStopping { StopCalledSound(s); }
    case CancelLands => CancelLandsSound(s);
    case _ =>
  }

  lemma {:induction false} RunIsSound(events: seq<Event>)
    ensures Sound(Run(events))
  {
    if events != [] {
      RunIsSound(events[..|events| - 1]);
      StepKeepsSound(Run(events[..|events| - 1]), events[|events| - 1]);
    }
  }

  /** Over every run: at most one publisher task is live, and never beside the other
      publisher's refresh task; the client is held only for the KIS publisher, or by a stop
      that has already stopped it; and there is at most one failover. */
  lemma AtMostOnePublisher(events: seq<Event>)
    ensures var s := Run(events);
            && !(s.main.Live? && s.mock.Live?)
            && !(s.refresh.Live? && s.mock.Live?)
            && (s.client ==> s.active == Kis || s.stop == ClosingClient)
            && s.failovers <= 1
  {
    RunIsSound(events);
  }

  /** Whenever stop() returns normally, even if it cancelled a failover in progress, nothing
      is left: no publisher, refresh or watchdog task, no client and no open socket. */
  lemma CompletedStopLeavesNothing(events: seq<Event>)
    requires Run(events).stop == Completed
    ensures var s := Run(events);
            && Dead(s.main) && Dead(s.refresh) && Dead(s.mock) && WatchdogOver(s)
            && s.active == NoPublisher && !s.client && !s.socketOpen
  {
    RunIsSound(events);
  }

  /** How start() ends: with KIS streaming, refreshed and watched if its bring-up worked; with
      nothing at all if it raised; and otherwise with the mock, exactly in development. */
  lemma StartArms(credentials: bool, development: bool, result: BringUp)
    ensures var s := Run([] + [Start(credentials, development)] + [BroughtUp(result, development)]
                         + [FailedClosed(development)]);
            if credentials && result == Connected then
              && s.start == Started && s.active == Kis && Running(s)
              && s.refresh.Live? && s.client && s.watchdog == Sleeping
            else if credentials && result == OtherError then
              s.start == StartRaised && NothingYet(s)
            else
              s.start == Started && (Running(s) <==> development) && s.active != Kis
              && !s.client && s.watchdog == NotStarted
  {
    RunSnoc([], Start(credentials, development));
    RunSnoc([] + [Start(credentials, development)], BroughtUp(result, development));
    RunSnoc(
      [] + [Start(credentials, development)] + [BroughtUp(result, development)], FailedClosed(development));
  }

  /** The watchdog in any reachable state: a failover begins exactly if the stream is dead, and
      otherwise nothing changes. */
  lemma WatchdogFailsOverIff(events: seq<Event>)
    requires Run(events).watchdog == Sleeping && Run(events).stop == NotStopping
    ensures var s, t := Run(events), Run(events + [WatchTick]);
            && (s.main.Live? ==> t == s)
            && (!s.main.Live? ==> t.failovers == 1 && t.watchdog in {StoppingRefresh, ClosingDeadClient, Finished})
  {
    RunIsSound(events);
    RunSnoc(events, WatchTick);
  }

  /** The stream is dead and its replacement is under way: how far it has come. */
  function Progress(s: State): nat {
    match s.watchdog
    case StoppingRefresh => 1
    case ClosingDeadClient => 2
    case Finished => 3
    case _ => 0
  }

  ghost predicate Replacing(s: State) {
    && s.start == Started && s.stop == NotStopping && !s.main.Live?
    && s.watchdog in {Sleeping, StoppingRefresh, ClosingDeadClient, Finished}
    && s.failovers == (if s.watchdog == Sleeping then 0 else 1)
    && (s.watchdog == Finished ==> Replaced(s))
  }

  /** The mock has taken over. */
  ghost predicate Replaced(s: State) {
    s.watchdog == Finished && s.active == Mock && !s.mock.Absent? && !s.client && !s.socketOpen && s.failovers == 1
  }

  /** No step but a stop() sets the replacement back, and the step it waits for takes it on. */
  lemma StepReplaces(s: State, e: Event)
    requires Sound(s) && Replacing(s) && e != StopCall
    ensures Advances(s, Apply(s, e), e != MockOver) && TakesOn(s, Apply(s, e), e)
  {
    if s.watchdog == Sleeping { assert s.active == Kis && s.failovers == 0; }
    if s.watchdog in {StoppingRefresh, ClosingDeadClient} { assert s.active == Kis; }
  }

  /** The replacement goes on from `s` to `t`, in which the mock runs unless it died on the way. */
  ghost predicate Advances(s: State, t: State, survives: bool) {
    Replacing(t) && Progress(s) <= Progress(t) && (MockUp(s) && survives ==> MockUp(t))
  }

  /** The step it waited for, if it was this one, has taken it on. */
  ghost predicate TakesOn(s: State, t: State, e: Event) {
    && (e == WatchTick ==> Progress(t) >= 1)
    && (e.RefreshJoined? && Progress(s) >= 1 ==> Progress(t) >= 2)
    && (e == SocketClosed && Progress(s) >= 2 ==> Progress(t) == 3)
  }

  ghost predicate MockUp(s: State) {
    Progress(s) == 3 ==> s.mock.Live?
  }

  lemma AdvancesFurther(s: State, t: State, u: State, first: bool, second: bool)
    requires Advances(s, t, first) && Advances(t, u, second)
    ensures Advances(s, u, first && second)
  {
  }

  lemma TakesOnLater(s: State, t: State, u: State, e: Event)
    requires Progress(s) <= Progress(t) && TakesOn(t, u, e)
    ensures TakesOn(s, u, e)
  {
  }

  lemma NextReplaces(events: seq<Event>, e: Event)
    requires Replacing(Run(events)) && e != StopCall
    ensures Advances(Run(events), Run(events + [e]), e != MockOver)
    ensures TakesOn(Run(events), Run(events + [e]), e)
  {
    RunIsSound(events);
    StepReplaces(Run(events), e);
    RunSnoc(events, e);
  }

  lemma {:induction false} RunReplaces(before: seq<Event>, after: seq<Event>)
    requires Replacing(Run(before)) && StopCall !in after
    ensures Advances(Run(before), Run(before + after), MockOver !in after)
  {
    if after == [] {
      assert before + after == before;
    } else {
      var earlier, last := after[..|after| - 1], after[|after| - 1];
      assert after == earlier + [last];
      RunReplaces(before, earlier);
      NextReplaces(before + earlier, last);
      AdvancesFurther(
        Run(before), Run(before + earlier), Run(before + earlier + [last]), MockOver !in earlier, last != MockOver);
      assert before + after == before + earlier + [last];
    }
  }

  /** One more stretch of events, and then `e`. */
  lemma StretchReplaces(before: seq<Event>, stretch: seq<Event>, e: Event)
    requires Replacing(Run(before)) && StopCall !in stretch && e != StopCall
    ensures Advances(Run(before), Run(before + stretch + [e]), MockOver !in stretch && e != MockOver)
    ensures TakesOn(Run(before), Run(before + stretch + [e]), e)
  {
    var s, t, u := Run(before), Run(before + stretch), Run(before + stretch + [e]);
    RunReplaces(before, stretch);
    NextReplaces(before + stretch, e);
    AdvancesFurther(s, t, u, MockOver !in stretch, e != MockOver);
    TakesOnLater(s, t, u, e);
  }

  lemma SleepingReplaces(s: State)
    requires Sound(s) && s.watchdog == Sleeping && s.stop == NotStopping && !s.main.Live?
    ensures Replacing(s) && MockUp(s)
  {
  }

  /** The four stretches of a replacement, by the states between them. */
  lemma ReplacementEnds(
    s: State, one: State, two: State, three: State, end: State, crashed: bool, a: bool, b: bool, c: bool, d: bool)
    requires MockUp(s) && Advances(s, one, a) && TakesOn(s, one, WatchTick)
    requires Advances(one, two, b) && TakesOn(one, two, RefreshJoined(crashed))
    requires Advances(two, three, c) && TakesOn(two, three, SocketClosed)
    requires Advances(three, end, d)
    ensures Replaced(end) && (a && b && c && d ==> end.mock.Live?)
  {
  }

  /** And a failover is always completed.  Take any continuation without a stop() in which, at
      some time, the watchdog looks, the refresh task is over and the socket is closed, with
      anything else happening in between: the mock has replaced the stream, and runs unless it
      died itself. */
  lemma DeadStreamIsReplaced(
    before: seq<Event>, a: seq<Event>, b: seq<Event>, c: seq<Event>, d: seq<Event>, crashed: bool)
    requires var s := Run(before);
             s.watchdog == Sleeping && s.stop == NotStopping && !s.main.Live?
    requires StopCall !in a && StopCall !in b && StopCall !in c && StopCall !in d
    ensures var t := Run(before + a + [WatchTick] + b + [RefreshJoined(crashed)] + c + [SocketClosed] + d);
            && Replaced(t)
            && (MockOver !in a && MockOver !in b && MockOver !in c && MockOver !in d ==> t.mock.Live?)
  {
    var one := before + a + [WatchTick];
    var two := one + b + [RefreshJoined(crashed)];
    var three := two + c + [SocketClosed];
    RunIsSound(before);
    SleepingReplaces(Run(before));
    StretchReplaces(before, a, WatchTick);
    StretchReplaces(one, b, RefreshJoined(crashed));
    StretchReplaces(two, c, SocketClosed);
    RunReplaces(three, d);
    ReplacementEnds(
      Run(before), Run(one), Run(two), Run(three), Run(three + d), crashed,
      MockOver !in a, MockOver !in b, MockOver !in c, MockOver !in d);
  }

  /** The event ends some task with an exception. */
  predicate Crashes(e: Event) {
    match e
    case MainOver(crashed) => crashed
    case RefreshOver => true
    case MockOver => true
    case RefreshJoined(crashed) => crashed
    case MainJoined(crashed) => crashed
    case MockJoined(crashed) => crashed
    case _ => false
  }

  ghost predicate CrashFree(events: seq<Event>) {
    forall e :: e in events ==> !Crashes(e)
  }

  ghost predicate NoCrash(s: State) {
    !s.main.Crashed? && !s.refresh.Crashed? && !s.mock.Crashed?
  }

  lemma ClosingAddsNoCrash(s: State)
    requires NoCrash(s)
    ensures NoCrash(PublisherStopped(s)) && NoCrash(StopMain(s)) && NoCrash(StopMock(s))
  {
  }

  lemma StoppingAddsNoCrash(s: State)
    requires NoCrash(s)
    ensures NoCrash(StopPublisher(s)) && NoCrash(Resumed(s)) && NoCrash(StopCalled(s))
  {
    ClosingAddsNoCrash(s);
    ClosingAddsNoCrash(s.(refresh := Absent));
  }

  lemma FailoverAddsNoCrash(s: State)
    requires NoCrash(s)
    ensures NoCrash(FailoverClient(s)) && NoCrash(DeadTasksDropped(s)) && NoCrash(Watched(s))
  {
  }

  lemma RefreshJoinedAddsNoCrash(s: State)
    requires NoCrash(s)
    ensures NoCrash(Resumed(OnRefreshJoined(s, false)))
  {
    var t := s.(cancelPending := false, refresh := Absent);
    FailoverAddsNoCrash(t);
    FailoverAddsNoCrash(DeadTasksDropped(t));
    ClosingAddsNoCrash(s.(refresh := Absent));
    StoppingAddsNoCrash(OnRefreshJoined(s, false));
  }

  lemma CancelLandsAddsNoCrash(s: State)
    requires NoCrash(s)
    ensures NoCrash(Apply(s, CancelLands)) && NoCrash(Apply(s, SocketClosed))
  {
    StoppingAddsNoCrash(s.(watchdog := Cancelled, cancelPending := false));
    StoppingAddsNoCrash(FailoverMock(s.(socketOpen := false, client := false)));
  }

  lemma JoiningAddsNoCrash(s: State)
    requires NoCrash(s)
    ensures NoCrash(Apply(s, MainJoined(false))) && NoCrash(Apply(s, MockJoined(false)))
  {
    ClosingAddsNoCrash(s.(main := Absent));
    ClosingAddsNoCrash(s.(mock := Absent));
  }

  lemma CrashFreeStep(s: State, e: Event)
    requires NoCrash(s) && !Crashes(e)
    ensures NoCrash(Apply(s, e))
  {
    match e
    case WatchTick => FailoverAddsNoCrash(s);
    case RefreshJoined(_) => RefreshJoinedAddsNoCrash(s);
    case MainJoined(_) => JoiningAddsNoCrash(s);
    case MockJoined(_) => JoiningAddsNoCrash(s);
    case SocketClosed => CancelLandsAddsNoCrash(s);
    case StopCall => StoppingAddsNoCrash(s);
    case CancelLands => CancelLandsAddsNoCrash(s);
    case _ =>
  }

  /** Only a task that ended with an exception can make stop() raise. */
  lemma {:induction false} StopRaisesOnlyAfterCrash(events: seq<Event>)
    requires CrashFree(events)
    ensures NoCrash(Run(events)) && Run(events).stop != StopRaised
  {
    if events != [] {
      var n := |events| - 1;
      assert CrashFree(events[..n]);
      StopRaisesOnlyAfterCrash(events[..n]);
      assert events[n] in events;
      CrashFreeStep(Run(events[..n]), events[n]);
    }
    RunIsSound(events);
  }

  /** Whatever crashed on the way there, a stop() that has raised still holds the publisher whose
      task crashed. */
  lemma RaisedStopHoldsCrash(events: seq<Event>)
    requires Run(events).stop == StopRaised
    ensures HoldsCrash(Run(events)) && !CrashFree(events)
  {
    RunIsSound(events);
    if CrashFree(events) { StopRaisesOnlyAfterCrash(events); }
  }

  lemma RunSnoc(events: seq<Event>, e: Event)
    ensures Run(events + [e]) == Apply(Run(events), e)
  {
    assert (events + [e])[..|events|] == events;
  }

  /** A call of stop() in this state is going to raise, if nothing crashes from here on.
      While KIS is active and its watchdog asleep or closing the dead client, a crashed KIS task
      does it; a failover still waiting for the refresh task saves it; and where the watchdog
      is over only the mock is left to have crashed. */
  ghost predicate WillRaise(s: State) {
    match s.watchdog
    case Sleeping => s.refresh.Crashed? || s.main.Crashed?
    case ClosingDeadClient => s.refresh.Crashed? || s.main.Crashed?
    case StoppingRefresh => false
    case _ => s.active == Mock && s.mock.Crashed?
  }

  /** The same for a stop() under way. */
  ghost predicate IsRaising(s: State) {
    match s.stop
    case NotStopping => false
    case AwaitingWatchdog => s.cancelPending && WillRaise(s)
    case AwaitingRefresh => s.refresh.Crashed? || s.main.Crashed?
    case AwaitingMain => s.main.Crashed?
    case AwaitingMock => s.mock.Crashed?
    case ClosingClient => false
    case Completed => false
    case StopRaised => true
  }

  ghost predicate CanStop(s: State) { s.start == Started && s.stop == NotStopping }

  ghost predicate IsStopping(s: State) { s.start == Started && s.stop != NotStopping }

  lemma StopCallRaising(s: State)
    requires Sound(s) && CanStop(s)
    ensures IsStopping(StopCalled(s)) && (IsRaising(StopCalled(s)) <==> WillRaise(s))
  {
  }

  lemma PublisherRaising(s: State)
    requires ReadyToStop(s)
    ensures IsStopping(StopPublisher(s))
    ensures IsRaising(StopPublisher(s))
            <==> || (s.active == Kis && (s.refresh.Crashed? || s.main.Crashed?))
                 || (s.active == Mock && s.mock.Crashed?)
  {
  }

  lemma CancelRaising(s: State)
    requires Sound(s) && IsStopping(s)
    ensures IsStopping(Apply(s, CancelLands)) && (IsRaising(Apply(s, CancelLands)) <==> IsRaising(s))
  {
    if s.cancelPending && s.watchdog in {Sleeping, ClosingDeadClient} {
      PublisherRaising(s.(watchdog := Cancelled, cancelPending := false));
    }
  }

  lemma FailoverNeverRaises(s: State)
    requires s.start == Started && s.active == Kis && ClientWithKis(s) && s.stop == AwaitingWatchdog
    requires s.watchdog == StoppingRefresh && s.failovers <= 1 && !s.cancelPending
    requires Dead(s.main) && Dead(s.refresh) && Dead(s.mock)
    ensures var t := Resumed(FailoverClient(s));
            IsStopping(t) && !IsRaising(t)
  {
    if !s.client || !s.socketOpen {
      PublisherRaising(FailoverMock(s.(client := false)));
    }
  }

  lemma RefreshRaising(s: State)
    requires Sound(s) && IsStopping(s)
    ensures IsStopping(Apply(s, RefreshJoined(false))) && (IsRaising(Apply(s, RefreshJoined(false))) <==> IsRaising(s))
  {
    if s.watchdog == StoppingRefresh {
      var refresh := if s.refresh.Crashed? then Crashed else Absent;
      FailoverNeverRaises(DeadTasksDropped(s.(cancelPending := false, refresh := refresh)));
    }
  }

  lemma SocketRaising(s: State)
    requires Sound(s) && IsStopping(s)
    ensures IsStopping(Apply(s, SocketClosed)) && (IsRaising(Apply(s, SocketClosed)) <==> IsRaising(s))
  {
    if s.watchdog == ClosingDeadClient && !s.cancelPending {
      PublisherRaising(FailoverMock(s.(socketOpen := false, client := false)));
    }
  }

  /** Without a further crash no step changes how a stop() is going to end. */
  lemma RaisingIsDecided(s: State, e: Event)
    requires Sound(s) && IsStopping(s) && !Crashes(e)
    ensures IsStopping(Apply(s, e)) && (IsRaising(Apply(s, e)) <==> IsRaising(s))
  {
    match e
    case RefreshJoined(_) => RefreshRaising(s);
    case SocketClosed => SocketRaising(s);
    case CancelLands => CancelRaising(s);
    case _ =>
  }

  lemma {:induction false} StoppingRaises(before: seq<Event>, after: seq<Event>)
    requires CanStop(Run(before)) && CrashFree(after)
    ensures var t := Run(before + [StopCall] + after);
            IsStopping(t) && (IsRaising(t) <==> WillRaise(Run(before)))
  {
    var called := before + [StopCall];
    if after == [] {
      RunIsSound(before);
      RunSnoc(before, StopCall);
      StopCallRaising(Run(before));
      assert called + after == called;
    } else {
      var n := |after| - 1;
      assert after[n] in after && CrashFree(after[..n]);
      StoppingRaises(before, after[..n]);
      RunIsSound(called + after[..n]);
      RaisingIsDecided(Run(called + after[..n]), after[n]);
      RunSnoc(called + after[..n], after[n]);
      assert called + after == called + after[..n] + [after[n]];
    }
  }

  /** How stop() ends, for a call in any reachable state and any continuation in which nothing
      crashes any more: once it is over, it has raised exactly if it was going to. */
  lemma StopRaisesExactlyOnRetainedCrash(before: seq<Event>, after: seq<Event>)
    requires CanStop(Run(before)) && CrashFree(after)
    requires Run(before + [StopCall] + after).stop in {Completed, StopRaised}
    ensures Run(before + [StopCall] + after).stop == StopRaised <==> WillRaise(Run(before))
  {
    StoppingRaises(before, after);
  }

  /** Whatever a stop() may still have to wait for. */
  const ENDING := [CancelLands, RefreshJoined(false), SocketClosed, MainJoined(false), MockJoined(false), SocketClosed]

  lemma NextIsStopping(events: seq<Event>, e: Event)
    requires IsStopping(Run(events)) && !Crashes(e)
    ensures Run(events + [e]) == Apply(Run(events), e) && IsStopping(Run(events + [e]))
  {
    RunIsSound(events);
    RunSnoc(events, e);
    RaisingIsDecided(Run(events), e);
  }

  /** Asleep or closing the dead client, the watchdog is over; a failover that has swallowed its
      cancellation, or is about to, still has to finish. */
  lemma WatchdogWakes(events: seq<Event>)
    requires IsStopping(Run(events))
    ensures var t := Run(events + [CancelLands]);
            && IsStopping(t)
            && (t.stop == AwaitingWatchdog ==>
                  t.watchdog == StoppingRefresh || (t.watchdog == ClosingDeadClient && !t.cancelPending))
  {
    var s := Run(events);
    RunIsSound(events);
    NextIsStopping(events, CancelLands);
    if s.cancelPending && s.watchdog in {Sleeping, ClosingDeadClient} {
      StopPublisherSound(s.(watchdog := Cancelled, cancelPending := false));
    }
  }

  lemma RefreshEnds(events: seq<Event>)
    requires var s := Run(events);
             && IsStopping(s)
             && (s.stop == AwaitingWatchdog ==>
                   s.watchdog == StoppingRefresh || (s.watchdog == ClosingDeadClient && !s.cancelPending))
    ensures var t := Run(events + [RefreshJoined(false)]);
            && IsStopping(t) && t.stop != AwaitingRefresh
            && (t.stop == AwaitingWatchdog ==> t.watchdog == ClosingDeadClient && !t.cancelPending)
  {
    var s := Run(events);
    RunIsSound(events);
    NextIsStopping(events, RefreshJoined(false));
    if s.watchdog == StoppingRefresh {
      var refresh := if s.refresh.Crashed? then Crashed else Absent;
      var u := DeadTasksDropped(s.(cancelPending := false, refresh := refresh));
      if !u.client || !u.socketOpen { StopPublisherSound(FailoverMock(u.(client := false))); }
    }
  }

  lemma SocketEnds(events: seq<Event>)
    requires var s := Run(events);
             && IsStopping(s) && s.stop != AwaitingRefresh
             && (s.stop == AwaitingWatchdog ==> s.watchdog == ClosingDeadClient && !s.cancelPending)
    ensures var t := Run(events + [SocketClosed]);
            IsStopping(t) && t.stop !in {AwaitingWatchdog, AwaitingRefresh}
  {
    var s := Run(events);
    RunIsSound(events);
    NextIsStopping(events, SocketClosed);
    if s.stop == AwaitingWatchdog {
      MockEndsWait(FailoverMock(s.(socketOpen := false, client := false)));
    }
  }

  lemma MockEndsWait(s: State)
    requires ReadyToStop(s) && s.active == Mock
    ensures StopPublisher(s).stop !in {AwaitingWatchdog, AwaitingRefresh}
  {
  }

  lemma MainEnds(events: seq<Event>)
    requires IsStopping(Run(events)) && Run(events).stop !in {AwaitingWatchdog, AwaitingRefresh}
    ensures IsStopping(Run(events + [MainJoined(false)]))
    ensures Run(events + [MainJoined(false)]).stop in {AwaitingMock, ClosingClient, Completed, StopRaised}
  {
    RunIsSound(events);
    NextIsStopping(events, MainJoined(false));
  }

  lemma MockEnds(events: seq<Event>)
    requires IsStopping(Run(events)) && Run(events).stop in {AwaitingMock, ClosingClient, Completed, StopRaised}
    ensures IsStopping(Run(events + [MockJoined(false)]))
    ensures Run(events + [MockJoined(false)]).stop in {ClosingClient, Completed, StopRaised}
  {
    RunIsSound(events);
    NextIsStopping(events, MockJoined(false));
  }

  lemma ClientEnds(events: seq<Event>)
    requires IsStopping(Run(events)) && Run(events).stop in {ClosingClient, Completed, StopRaised}
    ensures Run(events + [SocketClosed]).stop in {Completed, StopRaised}
  {
    RunIsSound(events);
    NextIsStopping(events, SocketClosed);
  }

  lemma WatchdogEnds(called: seq<Event>)
    requires IsStopping(Run(called))
    ensures var t := Run(called + [CancelLands] + [RefreshJoined(false)] + [SocketClosed]);
            IsStopping(t) && t.stop !in {AwaitingWatchdog, AwaitingRefresh}
  {
    WatchdogWakes(called);
    RefreshEnds(called + [CancelLands]);
    SocketEnds(called + [CancelLands] + [RefreshJoined(false)]);
  }

  lemma PublisherEnds(events: seq<Event>)
    requires IsStopping(Run(events)) && Run(events).stop !in {AwaitingWatchdog, AwaitingRefresh}
    ensures Run(events + [MainJoined(false)] + [MockJoined(false)] + [SocketClosed]).stop in {Completed, StopRaised}
  {
    MainEnds(events);
    MockEnds(events + [MainJoined(false)]);
    ClientEnds(events + [MainJoined(false)] + [MockJoined(false)]);
  }

  lemma EndingInFull(called: seq<Event>)
    ensures called + ENDING
         == called + [CancelLands] + [RefreshJoined(false)] + [SocketClosed]
            + [MainJoined(false)] + [MockJoined(false)] + [SocketClosed]
  {
  }

  /** From every state in which stop() can be called it can also end, with no further crash. */
  lemma StopCanEnd(before: seq<Event>)
    requires CanStop(Run(before))
    ensures CrashFree(ENDING)
    ensures Run(before + [StopCall] + ENDING).stop in {Completed, StopRaised}
  {
    var called := before + [StopCall];
    StoppingRaises(before, []);
    assert called + [] == called;
    WatchdogEnds(called);
    PublisherEnds(called + [CancelLands] + [RefreshJoined(false)] + [SocketClosed]);
    EndingInFull(called);
  }

  /** At the very step in which stop() turns to the publisher it raises exactly if the first
      dead task it joins had crashed. */
  lemma StopRaisesAtOnceIff(events: seq<Event>)
    ensures var s := Run(events);
            && (CanStop(s) && WatchdogOver(s) ==>
                  (Apply(s, StopCall).stop == StopRaised <==> s.active == Mock && s.mock.Crashed?))
            && (s.cancelPending && s.watchdog in {Sleeping, ClosingDeadClient} ==>
                  (Apply(s, CancelLands).stop == StopRaised <==> RaisesAtOnce(s)))
  {
    RunIsSound(events);
  }

  // ----- concrete runs -----

  const KIS_UP := [Start(true, false), BroughtUp(Connected, false)]

  lemma KisComesUp()
    ensures Run(KIS_UP) == KisStarted(INITIAL.(start := BringingUp))
  {
    RunSnoc([], KIS_UP[0]);
    RunSnoc([KIS_UP[0]], KIS_UP[1]);
    assert [KIS_UP[0]] + [KIS_UP[1]] == KIS_UP && [] + [KIS_UP[0]] == [KIS_UP[0]];
  }

  /** If the refresh task crashes while the stream is healthy, stop() raises before it reaches
      the stream, which stays live with its socket open. */
  lemma CrashedRefreshLeaksStream()
    ensures var s := Run(KIS_UP + [RefreshOver] + [StopCall] + [CancelLands]);
            s.stop == StopRaised && s.main.Live? && s.client && s.socketOpen
  {
    KisComesUp();
    RunSnoc(KIS_UP, RefreshOver);
    RunSnoc(KIS_UP + [RefreshOver], StopCall);
    RunSnoc(KIS_UP + [RefreshOver] + [StopCall], CancelLands);
  }

  const STREAM_CRASH := [MainOver(true), WatchTick]

  lemma StreamCrashes()
    ensures var s := Run(KIS_UP);
            Run(KIS_UP + STREAM_CRASH) == s.(main := Crashed, failovers := 1, watchdog := StoppingRefresh)
  {
    KisComesUp();
    RunSnoc(KIS_UP, MainOver(true));
    RunSnoc(KIS_UP + [MainOver(true)], WatchTick);
    assert KIS_UP + STREAM_CRASH == KIS_UP + [MainOver(true)] + [WatchTick];
  }

  /** An ordinary crash of the stream, and a stop() while the failover closes the client: the
      close is cut short, stop() raises, and client and socket are never closed. */
  lemma CrashedStreamLeaksClient()
    ensures var s := Run(KIS_UP + STREAM_CRASH + [RefreshJoined(false)] + [StopCall] + [CancelLands]);
            s.stop == StopRaised && s.client && s.socketOpen
  {
    var events := KIS_UP + STREAM_CRASH;
    StreamCrashes();
    KisComesUp();
    RunSnoc(events, RefreshJoined(false));
    RunSnoc(events + [RefreshJoined(false)], StopCall);
    RunSnoc(events + [RefreshJoined(false)] + [StopCall], CancelLands);
  }

  /** The stop's cancellation reached the failover while it was waiting for the refresh task. */
  ghost predicate Swallowing(s: State) {
    s.watchdog == StoppingRefresh && s.cancelPending
  }

  /** The same crash, and the stop() one wait earlier. */
  lemma SwallowingHappens()
    ensures Swallowing(Run(KIS_UP + STREAM_CRASH + [StopCall]))
  {
    StreamCrashes();
    KisComesUp();
    RunSnoc(KIS_UP + STREAM_CRASH, StopCall);
  }

  lemma SwallowedSteps(s: State, crashed: bool)
    requires Sound(s) && Swallowing(s)
    ensures var t := Apply(Apply(s, RefreshJoined(crashed)), SocketClosed);
            && t.watchdog == Finished && t.mock.Live? && t.stop == AwaitingMock && t.active == Mock
            && Dead(t.main) && Dead(t.refresh) && !t.client && !t.socketOpen
  {
    assert s.active == Kis && s.stop == AwaitingWatchdog && Dead(s.mock);
  }

  /** A stop() that arrives while the failover waits for the refresh task does not cut it short:
      however that task ends, the cancellation is swallowed there, the mock comes up, and then
      is stopped too. */
  lemma SwallowedCancellationStillCleansUp(events: seq<Event>, crashed: bool)
    requires Swallowing(Run(events))
    ensures var t := Run(events + [RefreshJoined(crashed)] + [SocketClosed]);
            t.watchdog == Finished && t.mock.Live? && t.stop == AwaitingMock
    ensures var u := Run(events + [RefreshJoined(crashed)] + [SocketClosed] + [MockJoined(false)]);
            u.stop == Completed && AllQuiet(u) && !u.client && !u.socketOpen
  {
    RunIsSound(events);
    SwallowedSteps(Run(events), crashed);
    RunSnoc(events, RefreshJoined(crashed));
    RunSnoc(events + [RefreshJoined(crashed)], SocketClosed);
    RunSnoc(events + [RefreshJoined(crashed)] + [SocketClosed], MockJoined(false));
  }
}
