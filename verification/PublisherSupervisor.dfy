/** src/infrastructure/publisher_supervisor.py with the task lifecycles of
    src/infrastructure/kis_publisher.py: bring-up, failover and shutdown, cut at their awaits. */
module PublisherSupervisor {

  /** A task handle: none held, running, or held although the task is over. */
  datatype Task = Absent | Live | Ended | Crashed

  datatype Kind = NoPublisher | Kis | Mock

  /** The watchdog task, and where a failover in it is suspended. */
  datatype Watchdog =
    | NotStarted
    | Sleeping
    | StoppingRefresh
    | ClosingDeadClient
    | Finished
    | Cancelled

  datatype StartPoint = NotCalled | BringingUp | ClosingFailed | Started | StartRaised

  datatype StopPoint =
    | NotStopping
    | AwaitingWatchdog
    | AwaitingRefresh
    | AwaitingMain
    | AwaitingMock
    | ClosingClient
    | Completed
    | StopRaised

  /** The supervisor's fields, the tasks of its publishers, and the two callers' positions. */
  datatype State = State(
    active: Kind,
    client: bool,         // `_kis_client` is held
    socketOpen: bool,     // that client's WebSocket is open
    watchdog: Watchdog,
    cancelPending: bool,  // its cancellation has been requested and has not taken effect
    failovers: nat,
    main: Task,           // KisPublisher's stream task
    refresh: Task,        // its token refresh task
    mock: Task,           // MockPublisher's task
    start: StartPoint,
    stop: StopPoint)

  const INITIAL :=
    State(NoPublisher, false, false, NotStarted, false, 0, Absent, Absent, Absent, NotCalled, NotStopping)

  predicate Running(s: State) {
    match s.active
    case NoPublisher => false
    case Kis => s.main.Live?
    case Mock => s.mock.Live?
  }

  // ----- start() -----

  function MockStarted(s: State): State {
    s.(mock := Live, active := Mock)
  }

  /** No KIS: the mock in development, silence in production. */
  function Fallback(s: State, development: bool): State {
    (if development then MockStarted(s) else s).(start := Started)
  }

  function KisStarted(s: State): State {
    s.(refresh := Live, main := Live, client := true, socketOpen := true, active := Kis,
       watchdog := Sleeping, start := Started)
  }

  // ----- the failover -----

  /** After the dead publisher: close its client, or go straight to the mock. */
  function FailoverClient(s: State): State {
    if s.client && s.socketOpen then s.(watchdog := ClosingDeadClient) else FailoverMock(s.(client := false))
  }

  function FailoverMock(s: State): State {
    MockStarted(s).(watchdog := Finished)
  }

  /** Joining a task that is over drops its handle, but re-raises and keeps it if it crashed;
      a crash of the refresh task leaves the stream task unjoined. */
  function DeadTasksDropped(s: State): State {
    if s.refresh.Crashed? then s
    else s.(refresh := Absent, main := if s.main.Ended? then Absent else s.main)
  }

  /** One look of the watchdog; a dead publisher starts the failover. */
  function Watched(s: State): State {
    if s.active == NoPublisher || Running(s) then s
    else
      var t := s.(failovers := s.failovers + 1);
      if s.refresh.Live? then t.(watchdog := StoppingRefresh) else FailoverClient(DeadTasksDropped(t))
  }

  // ----- stop() -----

  function StopClient(s: State): State {
    if s.client && s.socketOpen then s.(stop := ClosingClient) else s.(client := false, stop := Completed)
  }

  function PublisherStopped(s: State): State {
    StopClient(s.(active := NoPublisher))
  }

  function StopMain(s: State): State {
    match s.main
    case Absent => PublisherStopped(s)
    case Live => s.(stop := AwaitingMain)
    case Ended => PublisherStopped(s.(main := Absent))
    case Crashed => s.(stop := StopRaised)
  }

  function StopMock(s: State): State {
    match s.mock
    case Absent => PublisherStopped(s)
    case Live => s.(stop := AwaitingMock)
    case Ended => PublisherStopped(s.(mock := Absent))
    case Crashed => s.(stop := StopRaised)
  }

  /** `stop()` once the watchdog is gone: the refresh task first, then the stream. */
  function StopPublisher(s: State): State {
    match s.active
    case NoPublisher => StopClient(s)
    case Mock => StopMock(s)
    case Kis =>
      match s.refresh
      case Absent => StopMain(s)
      case Live => s.(stop := AwaitingRefresh)
      case Ended => StopMain(s.(refresh := Absent))
      case Crashed => s.(stop := StopRaised)
  }

  /** A pending watchdog is cancelled and awaited; one that is over, or was never started, is not. */
  function StopCalled(s: State): State {
    if s.watchdog in {NotStarted, Finished, Cancelled} then StopPublisher(s)
    else s.(stop := AwaitingWatchdog, cancelPending := true)
  }

  // ----- what every step keeps -----

  ghost predicate Dead(t: Task) { !t.Live? }

  ghost predicate WatchdogOver(s: State) {
    s.watchdog in {NotStarted, Finished, Cancelled}
  }

  /** Until start() is through, nothing exists. */
  ghost predicate NothingYet(s: State) {
    s.active == NoPublisher && !s.client && !s.socketOpen && s.watchdog == NotStarted && s.failovers == 0
    && s.main.Absent? && s.refresh.Absent? && s.mock.Absent? && s.stop == NotStopping && !s.cancelPending
  }

  /** At most one publisher task runs, and the refresh task only beside the KIS publisher. */
  ghost predicate OnePublisher(s: State) {
    && (s.main.Live? ==> s.active == Kis && Dead(s.mock))
    && (s.refresh.Live? ==> s.active == Kis && Dead(s.mock))
    && (s.mock.Live? ==> s.active == Mock && Dead(s.main) && Dead(s.refresh))
  }

  /** The client and its socket are held for the KIS publisher, until stop() closes them last. */
  ghost predicate ClientWithKis(s: State) {
    && (s.client ==> s.active == Kis || s.stop == ClosingClient)
    && (s.socketOpen ==> s.client)
  }

  ghost predicate WatchdogOk(s: State) {
    && s.failovers <= 1
    && (s.watchdog in {NotStarted, Sleeping} ==> s.failovers == 0)
    && (s.watchdog == NotStarted ==> s.active != Kis)
    && (!WatchdogOver(s) ==> s.active == Kis && s.stop in {NotStopping, AwaitingWatchdog})
    && (s.watchdog in {StoppingRefresh, ClosingDeadClient, Finished} ==> Dead(s.main))
    && (s.watchdog == StoppingRefresh ==> s.refresh.Live? || s.refresh.Crashed?)
    && (s.watchdog in {ClosingDeadClient, Finished} ==> Dead(s.refresh))
    && (s.watchdog == Finished ==> s.active != Kis)
    && (s.cancelPending ==> s.stop == AwaitingWatchdog)
    && (s.stop == AwaitingWatchdog ==> !WatchdogOver(s))
    && (s.watchdog == Cancelled ==> s.stop != NotStopping)
    && (s.stop == AwaitingWatchdog && s.watchdog in {Sleeping, StoppingRefresh} ==> s.cancelPending)
  }

  /** No task of either publisher runs, and the watchdog is over. */
  ghost predicate AllQuiet(s: State) {
    Dead(s.main) && Dead(s.refresh) && Dead(s.mock) && WatchdogOver(s)
  }

  /** The active publisher holds a task that ended with an exception. */
  ghost predicate HoldsCrash(s: State) {
    || (s.active == Kis && (s.refresh.Crashed? || s.main.Crashed?))
    || (s.active == Mock && s.mock.Crashed?)
  }

  ghost predicate StopOk(s: State) {
    match s.stop
    case NotStopping => true
    case AwaitingWatchdog => true
    case AwaitingRefresh => s.active == Kis && (s.refresh.Live? || s.refresh.Crashed?)
    case AwaitingMain => s.active == Kis && !s.main.Absent? && Dead(s.refresh)
    case AwaitingMock => s.active == Mock && !s.mock.Absent?
    case ClosingClient => s.active == NoPublisher && s.client && AllQuiet(s)
    case Completed => s.active == NoPublisher && !s.client && !s.socketOpen && AllQuiet(s)
    case StopRaised => HoldsCrash(s)
  }

  ghost predicate Sound(s: State) {
    && (s.start != Started ==> NothingYet(s))
    && OnePublisher(s) && ClientWithKis(s) && WatchdogOk(s) && StopOk(s)
  }

  /** What makes `stop()` raise when it reaches the publisher: the refresh task crashed; or it
      is over in another way and the stream task crashed; or the mock task crashed. */
  ghost predicate RaisesAtOnce(s: State) {
    || (s.active == Kis && (s.refresh.Crashed? || (s.refresh in {Absent, Ended} && s.main.Crashed?)))
    || (s.active == Mock && s.mock.Crashed?)
  }

  /** Nothing but the publisher and the client is left for `stop()`: the watchdog is over. */
  ghost predicate ReadyToStop(s: State) {
    && s.start == Started && s.stop in {NotStopping, AwaitingWatchdog}
    && OnePublisher(s) && ClientWithKis(s)
    && WatchdogOver(s) && s.failovers <= 1 && !s.cancelPending
    && (s.watchdog == NotStarted ==> s.active != Kis && s.failovers == 0)
    && (s.watchdog == Finished ==> s.active != Kis && Dead(s.main) && Dead(s.refresh))
  }

  lemma PublisherStoppedIsSound(s: State)
    requires s.start == Started && AllQuiet(s) && s.failovers <= 1 && !s.cancelPending
    requires s.socketOpen ==> s.client
    requires s.watchdog == NotStarted ==> s.failovers == 0
    ensures Sound(PublisherStopped(s)) && PublisherStopped(s).stop in {ClosingClient, Completed}
  {
  }

  lemma StopMockIsSound(s: State)
    requires ReadyToStop(s) && s.active == Mock
    ensures Sound(StopMock(s)) && StopMock(s).stop !in {NotStopping, AwaitingWatchdog}
    ensures StopMock(s).stop == StopRaised <==> s.mock.Crashed?
  {
    if s.mock in {Absent, Ended} { PublisherStoppedIsSound(s.(mock := Absent)); }
  }

  lemma StopMainIsSound(s: State)
    requires ReadyToStop(s) && s.active == Kis && s.refresh.Absent?
    ensures Sound(StopMain(s)) && StopMain(s).stop !in {NotStopping, AwaitingWatchdog}
    ensures StopMain(s).stop == StopRaised <==> s.main.Crashed?
  {
    if s.main in {Absent, Ended} { PublisherStoppedIsSound(s.(main := Absent)); }
  }

  lemma StopPublisherSound(s: State)
    requires ReadyToStop(s)
    ensures Sound(StopPublisher(s)) && StopPublisher(s).stop !in {NotStopping, AwaitingWatchdog}
    ensures StopPublisher(s).stop == StopRaised <==> RaisesAtOnce(s)
  {
    match s.active
    case NoPublisher => PublisherStoppedIsSound(s);
    case Mock => StopMockIsSound(s);
    case Kis => if s.refresh in {Absent, Ended} { StopMainIsSound(s.(refresh := Absent)); }
  }

  // ----- the object -----

  class PublisherSupervisor {
    var active: Kind
    var client: bool
    var socketOpen: bool
    var watchdog: Watchdog
    var cancelPending: bool
    var failoverCount: nat
    var main: Task
    var refresh: Task
    var mock: Task
    var startPoint: StartPoint
    var stopPoint: StopPoint

    ghost function View(): State
      reads this
    {
      State(active, client, socketOpen, watchdog, cancelPending, failoverCount, main, refresh, mock,
            startPoint, stopPoint)
    }

    ghost predicate Valid()
      reads this
    {
      Sound(View())
    }

    constructor ()
      ensures Valid() && View() == INITIAL
    {
      active, client, socketOpen := NoPublisher, false, false;
      watchdog, cancelPending, failoverCount := NotStarted, false, 0;
      main, refresh, mock := Absent, Absent, Absent;
      startPoint, stopPoint := NotCalled, NotStopping;
    }

    /** Only ever beside dead KIS tasks, so still at most one publisher runs. */
    method StartMock()
      requires Dead(main) && Dead(refresh)
      modifies this`mock, this`active
      ensures mock.Live? && active == Mock && OnePublisher(View())
    {
      mock := Live;
      active := Mock;
    }

    /** `start()` where KIS is out of the question: there is a publisher exactly in development,
        and never a watchdog or a client. */
    method FallBack(development: bool)
      requires Valid() && startPoint in {NotCalled, ClosingFailed}
      modifies this
      ensures Valid() && startPoint == Started
      ensures Running(View()) <==> development
      ensures watchdog == NotStarted && !client && active != Kis
      ensures View() == Fallback(old(View()), development)
    {
      if development {
        StartMock();
      }
      startPoint := Started;
    }

    /** `start()` once the client is connected: both tasks, then the watchdog over them. */
    method ArmKis()
      requires Valid() && startPoint == BringingUp
      modifies this
      ensures Valid() && startPoint == Started
      ensures active == Kis && Running(View()) && refresh.Live? && client && watchdog == Sleeping
      ensures View() == KisStarted(old(View()))
    {
      refresh := Live;
      main := Live;
      client, socketOpen := true, true;
      active := Kis;
      watchdog := Sleeping;
      startPoint := Started;
    }

    /** From the health check to the failover's first suspension or its end: a failover begins
        exactly if the stream is dead, and nothing changes otherwise. */
    method WatchOnce()
      requires Valid() && watchdog == Sleeping && stopPoint == NotStopping
      modifies this
      ensures Valid()
      ensures failoverCount == if old(main.Live?) then 0 else 1
      ensures old(main.Live?) ==> View() == old(View())
      ensures !old(main.Live?) ==> watchdog != Sleeping && (watchdog == Finished <==> Running(View()))
      ensures View() == Watched(old(View()))
    {
      if active == NoPublisher || (active == Kis && main.Live?) || (active == Mock && mock.Live?) {
        return;
      }
      failoverCount := failoverCount + 1;
      if refresh.Live? {
        watchdog := StoppingRefresh;
        return;
      }
      DropDeadTasks();
      FinishFailover();
    }

    /** The publisher's own `stop()` on tasks that are over: a crash is never forgotten, and a
        crash of the refresh task re-raises, so that nothing else is dropped either. */
    method DropDeadTasks()
      requires Dead(main) && Dead(refresh)
      modifies this`main, this`refresh
      ensures refresh.Crashed? == old(refresh.Crashed?) && main.Crashed? == old(main.Crashed?)
      ensures !refresh.Crashed? ==> refresh == Absent && !main.Ended?
      ensures refresh.Crashed? ==> main == old(main)
      ensures Dead(main) && Dead(refresh)
    {
      if !refresh.Crashed? {
        refresh := Absent;
        if main.Ended? {
          main := Absent;
        }
      }
    }

    /** Closing the client and arming the mock: the mock waits until no socket is open, and
        whenever it runs the client is gone. */
    method FinishFailover()
      requires startPoint == Started && stopPoint == NotStopping && failoverCount == 1 && !cancelPending
      requires active == Kis && ClientWithKis(View()) && Dead(main) && Dead(refresh) && Dead(mock)
      modifies this`client, this`watchdog, this`mock, this`active
      ensures Valid()
      ensures client == old(socketOpen)
      ensures watchdog == if client then ClosingDeadClient else Finished
      ensures Running(View()) <==> !client
      ensures View() == FailoverClient(old(View()))
    {
      if client && socketOpen {
        watchdog := ClosingDeadClient;
        return;
      }
      client := false;
      StartMock();
      watchdog := Finished;
    }

    /** A watchdog that is not over is awaited first; otherwise the publisher is stopped now. */
    method Stop()
      requires Valid() && startPoint == Started && stopPoint == NotStopping
      modifies this
      ensures Valid() && stopPoint != NotStopping
      ensures stopPoint == AwaitingWatchdog <==> !WatchdogOver(old(View()))
      ensures stopPoint == StopRaised <==> old(active == Mock && mock.Crashed?)
      ensures View() == StopCalled(old(View()))
    {
      if watchdog != NotStarted && watchdog != Finished && watchdog != Cancelled {
        cancelPending := true;
        stopPoint := AwaitingWatchdog;
        return;
      }
      StopActive();
    }

    /** The publisher's own `stop()`, from `stop()` once the watchdog is over.  It raises
        exactly if the first dead task it joins had crashed. */
    method StopActive()
      requires ReadyToStop(View())
      modifies this
      ensures Valid() && stopPoint !in {NotStopping, AwaitingWatchdog}
      ensures stopPoint == StopRaised <==> RaisesAtOnce(old(View()))
      ensures stopPoint == StopRaised ==> active == old(active) && client == old(client)
      ensures View() == StopPublisher(old(View()))
    {
      StopPublisherSound(View());
      var joined := true;
      if active == Kis {
        joined := JoinKis();
      } else if active == Mock {
        joined := JoinMock();
      }
      if joined {
        active := NoPublisher;
        CloseClient();
      }
    }

    /** The KIS publisher's own `stop()` up to its first suspension: the refresh task is joined
        before the stream, and a crash of either raises when it is joined. */
    method JoinKis() returns (joined: bool)
      modifies this`refresh, this`main, this`stopPoint
      ensures refresh == (if old(refresh).Ended? then Absent else old(refresh))
      ensures joined <==> refresh.Absent? && old(main) in {Absent, Ended}
      ensures main == (if joined then Absent else old(main))
      ensures stopPoint == if joined then old(stopPoint)
                           else if refresh.Live? then AwaitingRefresh
                           else if refresh.Absent? && main.Live? then AwaitingMain
                           else StopRaised
    {
      joined := false;
      if refresh.Live? {
        stopPoint := AwaitingRefresh;
        return;
      }
      if refresh.Crashed? {
        stopPoint := StopRaised;
        return;
      }
      refresh := Absent;
      if main.Live? {
        stopPoint := AwaitingMain;
        return;
      }
      if main.Crashed? {
        stopPoint := StopRaised;
        return;
      }
      main := Absent;
      joined := true;
    }

    /** The mock's own `stop()`, likewise. */
    method JoinMock() returns (joined: bool)
      modifies this`mock, this`stopPoint
      ensures joined <==> old(mock) in {Absent, Ended}
      ensures mock == (if joined then Absent else old(mock))
      ensures stopPoint == if joined then old(stopPoint) else if mock.Live? then AwaitingMock else StopRaised
    {
      joined := false;
      if mock.Live? {
        stopPoint := AwaitingMock;
        return;
      }
      if mock.Crashed? {
        stopPoint := StopRaised;
        return;
      }
      mock := Absent;
      joined := true;
    }

    /** The stop is complete as soon as no socket is open, and the client is held until then. */
    method CloseClient()
      requires socketOpen ==> client
      modifies this`client, this`stopPoint
      ensures stopPoint == if socketOpen then ClosingClient else Completed
      ensures client == socketOpen
    {
      if client && socketOpen {
        stopPoint := ClosingClient;
        return;
      }
      client := false;
      stopPoint := Completed;
    }
  }
}
