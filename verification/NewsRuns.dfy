/** Every interleaving of callers over a clock that never runs backwards. */
module NewsRuns {
  import opened Models
  import opened NewsCache

  /** Where an open call waits: for the lock, or for its own inner fetch `index`. */
  datatype Stage = Waiting | Fetching(entry: Option<Entry>, index: nat)

  datatype Reader = Reader(symbol: string, stage: Stage)

  datatype Outcome = Running | Completed(at: real) | Abandoned

  datatype Fetch = Fetch(symbol: string, start: real, outcome: Outcome)

  /** A completed inner answer. */
  datatype Record = Record(symbol: string, items: seq<string>)

  /** A returned list, with the number of inner answers completed by then, and the time. */
  datatype Delivery = Delivery(symbol: string, headlines: seq<string>, known: nat, at: real)

  datatype State = State(
    cache: map<string, Entry>,
    locked: set<string>,
    hits: nat,
    misses: nat,
    readers: map<nat, Reader>,
    clock: real,
    fetches: seq<Fetch>,
    answers: seq<Record>,
    deliveries: seq<Delivery>)

  const START := State(map[], {}, 0, 0, map[], 0.0, [], [], [])

  datatype Event =
    | Advance(seconds: real)
    | Ask(id: nat, symbol: string)
    | Acquire(id: nat)
    | Arrive(id: nat, answer: Answer)
    | Cancel(id: nat)

  function Delivered(s: State, symbol: string, headlines: seq<string>): State {
    s.(deliveries := s.deliveries + [Delivery(symbol, headlines, |s.answers|, s.clock)])
  }

  function OnAsk(ttl: real, s: State, id: nat, symbol: string): State {
    if id in s.readers then s
    else if Hit(s.cache, symbol, s.clock, ttl)
    then Delivered(s.(hits := s.hits + 1), symbol, s.cache[symbol].headlines)
    else s.(readers := s.readers[id := Reader(symbol, Waiting)])
  }

  function OnAcquire(ttl: real, s: State, id: nat): State {
    if id !in s.readers || s.readers[id].stage != Waiting || s.readers[id].symbol in s.locked then s
    else
      var symbol := s.readers[id].symbol;
      if Hit(s.cache, symbol, s.clock, ttl)
      then Delivered(s.(hits := s.hits + 1, readers := s.readers - {id}), symbol, s.cache[symbol].headlines)
      else
        s.(locked := s.locked + {symbol},
           misses := s.misses + 1,
           fetches := s.fetches + [Fetch(symbol, s.clock, Running)],
           readers := s.readers[id := Reader(symbol, Fetching(Find(s.cache, symbol), |s.fetches|))])
  }

  predicate IsFetching(s: State, id: nat) {
    id in s.readers && s.readers[id].stage.Fetching? && s.readers[id].stage.index < |s.fetches|
  }

  function Ended(s: State, id: nat, outcome: Outcome): State
    requires IsFetching(s, id)
  {
    var k := s.readers[id].stage.index;
    s.(locked := s.locked - {s.readers[id].symbol},
       readers := s.readers - {id},
       fetches := s.fetches[k := s.fetches[k].(outcome := outcome)])
  }

  function OnArrive(s: State, id: nat, answer: Answer): State
    requires IsFetching(s, id)
  {
    var symbol := s.readers[id].symbol;
    var headlines := Merged(s.readers[id].stage.entry, answer);
    var t := Ended(s, id, Completed(s.clock));
    Delivered(
      t.(cache := s.cache[symbol := Entry(headlines, s.clock)],
         answers := s.answers + [Record(symbol, answer.Items())]),
      symbol, headlines)
  }

  function Apply(ttl: real, s: State, e: Event): State {
    match e
    case Advance(seconds) => if seconds > 0.0 then s.(clock := s.clock + seconds) else s
    case Ask(id, symbol) => OnAsk(ttl, s, id, symbol)
    case Acquire(id) => OnAcquire(ttl, s, id)
    case Arrive(id, answer) => if IsFetching(s, id) then OnArrive(s, id, answer) else s
    case Cancel(id) =>
      if IsFetching(s, id) then Ended(s, id, Abandoned)
      else if id in s.readers && s.readers[id].stage.Waiting? then s.(readers := s.readers - {id})
      else s
  }

  function Run(ttl: real, events: seq<Event>): State {
    if events == [] then START else Apply(ttl, Run(ttl, events[..|events| - 1]), events[|events| - 1])
  }

  // ----- the steps are the methods of the cache -----

  function MemoryOf(s: State): Memory {
    Memory(s.cache, s.locked, s.hits, s.misses)
  }

  predicate CanEnter(s: State, id: nat) {
    id in s.readers && s.readers[id].stage == Waiting && s.readers[id].symbol !in s.locked
  }

  /** In every run, each step does to the cache what the method of its segment does, delivers
      what that method returns, and hands each completion the entry its caller once read. */
  lemma StepsAreMethods(ttl: real, events: seq<Event>, id: nat, symbol: string, answer: Answer)
    ensures var s := Run(ttl, events);
            && (id !in s.readers ==>
                  MemoryOf(OnAsk(ttl, s, id, symbol)) == Peeked(MemoryOf(s), symbol, s.clock, ttl))
            && (CanEnter(s, id) ==>
                  MemoryOf(OnAcquire(ttl, s, id)) == Entered(MemoryOf(s), s.readers[id].symbol, s.clock, ttl))
            && (IsFetching(s, id) ==>
                  var r := s.readers[id];
                  var headlines := Merged(r.stage.entry, answer);
                  && r.stage.entry == Find(s.cache, r.symbol) && r.symbol in s.locked
                  && MemoryOf(OnArrive(s, id, answer)) == Filled(MemoryOf(s), r.symbol, headlines, s.clock)
                  && OnArrive(s, id, answer).deliveries
                     == s.deliveries + [Delivery(r.symbol, headlines, |s.answers| + 1, s.clock)])
  {
    var s := Run(ttl, events);
    RunLocks(ttl, events);
    if IsFetching(s, id) {
      assert HoldsLock(s, id);
    }
  }

  // ----- mutual exclusion -----

  /** The lock of a symbol is held exactly by the one reader fetching it, and that reader's
      saved entry is still the cached one. */
  ghost predicate LocksOk(s: State) {
    && (forall id :: id in s.readers && s.readers[id].stage.Fetching? ==> HoldsLock(s, id))
    && (forall one, two :: SameFetch(s, one, two) ==> one == two)
    && (forall symbol :: symbol in s.locked ==> exists id :: Fetches(s, id, symbol))
    && (forall k :: 0 <= k < |s.fetches| && s.fetches[k].outcome == Running ==> s.fetches[k].symbol in s.locked)
  }

  ghost predicate HoldsLock(s: State, id: nat)
    requires id in s.readers && s.readers[id].stage.Fetching?
  {
    var r := s.readers[id];
    && r.symbol in s.locked
    && r.stage.index < |s.fetches|
    && s.fetches[r.stage.index].symbol == r.symbol
    && s.fetches[r.stage.index].outcome == Running
    && (forall k :: 0 <= k < |s.fetches| && s.fetches[k].symbol == r.symbol && s.fetches[k].outcome == Running ==>
          k == r.stage.index)
    && r.stage.entry == Find(s.cache, r.symbol)
  }

  ghost predicate Fetches(s: State, id: nat, symbol: string) {
    id in s.readers && s.readers[id].stage.Fetching? && s.readers[id].symbol == symbol
  }

  ghost predicate SameFetch(s: State, one: nat, two: nat) {
    one in s.readers && Fetches(s, one, s.readers[one].symbol) && Fetches(s, two, s.readers[one].symbol)
  }

  lemma FetcherHoldsLock(s: State, id: nat, symbol: string)
    requires LocksOk(s) && Fetches(s, id, symbol)
    ensures symbol in s.locked
  {
    assert HoldsLock(s, id);
  }

  lemma AcquireKeepsLocks(ttl: real, s: State, id: nat)
    requires LocksOk(s)
    ensures LocksOk(OnAcquire(ttl, s, id))
  {
    var t := OnAcquire(ttl, s, id);
    if t.misses != s.misses {
      var symbol := s.readers[id].symbol;
      forall other
        ensures other != id ==> !Fetches(t, other, symbol)
      {
        if other != id && Fetches(s, other, symbol) { FetcherHoldsLock(s, other, symbol); }
      }
      forall other | other in t.readers && t.readers[other].stage.Fetching?
        ensures HoldsLock(t, other)
      {
        if other != id { assert HoldsLock(s, other); }
      }
      forall held | held in t.locked
        ensures exists other :: Fetches(t, other, held)
      {
        if held == symbol {
          assert Fetches(t, id, symbol);
        } else {
          var other :| Fetches(s, other, held);
          assert Fetches(t, other, held);
        }
      }
      forall one, two | SameFetch(t, one, two)
        ensures one == two
      {
        if one != id && two != id { assert SameFetch(s, one, two); }
      }
    } else if t != s {
      assert t.readers - {id} == s.readers - {id};
      UnlockedReaderLeaves(s, t, id);
    }
  }

  /** Only a reader that holds no lock went away or came in. */
  lemma UnlockedReaderLeaves(s: State, t: State, id: nat)
    requires LocksOk(s)
    requires t.locked == s.locked && t.fetches == s.fetches && t.cache == s.cache
    requires id in s.readers ==> s.readers[id].stage == Waiting
    requires id in t.readers ==> t.readers[id].stage == Waiting
    requires t.readers - {id} == s.readers - {id}
    ensures LocksOk(t)
  {
    assert forall other :: other != id ==>
      (other in t.readers <==> other in t.readers - {id}) && (other in s.readers <==> other in s.readers - {id});
    assert forall other :: other != id && other in s.readers ==> s.readers[other] == (s.readers - {id})[other];
    assert forall other :: other != id && other in t.readers ==> t.readers[other] == (t.readers - {id})[other];
    forall other | other in t.readers && t.readers[other].stage.Fetching?
      ensures HoldsLock(t, other)
    {
      assert HoldsLock(s, other);
    }
    forall held | held in t.locked
      ensures exists other :: Fetches(t, other, held)
    {
      var other :| Fetches(s, other, held);
      assert Fetches(t, other, held);
    }
    forall one, two | SameFetch(t, one, two)
      ensures one == two
    {
      assert SameFetch(s, one, two);
    }
  }

  /** A fetch ends: its reader leaves, its lock opens, its symbol alone may be re-cached. */
  lemma EndKeepsLocks(s: State, t: State, id: nat, outcome: Outcome)
    requires LocksOk(s) && IsFetching(s, id) && outcome != Running
    requires t.locked == Ended(s, id, outcome).locked
    requires t.readers == Ended(s, id, outcome).readers
    requires t.fetches == Ended(s, id, outcome).fetches
    requires forall symbol :: symbol != s.readers[id].symbol ==> Find(t.cache, symbol) == Find(s.cache, symbol)
    ensures LocksOk(t)
  {
    var symbol := s.readers[id].symbol;
    assert HoldsLock(s, id);
    forall other | other in t.readers && t.readers[other].stage.Fetching?
      ensures HoldsLock(t, other)
    {
      assert HoldsLock(s, other);
      if s.readers[other].symbol == symbol { assert SameFetch(s, id, other); }
    }
    forall held | held in t.locked
      ensures exists other :: Fetches(t, other, held)
    {
      var other :| Fetches(s, other, held);
      assert Fetches(t, other, held);
    }
    forall one, two | SameFetch(t, one, two)
      ensures one == two
    {
      assert SameFetch(s, one, two);
    }
  }

  lemma LocksKept(ttl: real, s: State, e: Event)
    requires LocksOk(s)
    ensures LocksOk(Apply(ttl, s, e))
  {
    var t := Apply(ttl, s, e);
    match e
    case Advance(_) => SameReaders(s, t);
    case Ask(id, symbol) =>
      if id !in s.readers {
        assert t.readers - {id} == s.readers - {id};
        UnlockedReaderLeaves(s, t, id);
      }
    case Acquire(id) => AcquireKeepsLocks(ttl, s, id);
    case Arrive(id, answer) =>
      if IsFetching(s, id) { EndKeepsLocks(s, t, id, Completed(s.clock)); }
    case Cancel(id) =>
      if IsFetching(s, id) {
        EndKeepsLocks(s, t, id, Abandoned);
      } else if t != s {
        assert t.readers - {id} == s.readers - {id};
        UnlockedReaderLeaves(s, t, id);
      }
  }

  lemma SameReaders(s: State, t: State)
    requires LocksOk(s)
    requires t.locked == s.locked && t.fetches == s.fetches && t.cache == s.cache && t.readers == s.readers
    ensures LocksOk(t)
  {
    forall id | id in t.readers && t.readers[id].stage.Fetching?
      ensures HoldsLock(t, id)
    {
      assert HoldsLock(s, id);
    }
    forall held | held in t.locked
      ensures exists other :: Fetches(t, other, held)
    {
      var other :| Fetches(s, other, held);
      assert Fetches(t, other, held);
    }
    forall one, two | SameFetch(t, one, two)
      ensures one == two
    {
      assert SameFetch(s, one, two);
    }
  }

  lemma {:induction false} RunLocks(ttl: real, events: seq<Event>)
    ensures LocksOk(Run(ttl, events))
  {
    if events != [] {
      RunLocks(ttl, events[..|events| - 1]);
      LocksKept(ttl, Run(ttl, events[..|events| - 1]), events[|events| - 1]);
    }
  }

  /** However many callers miss together, at most one inner fetch per symbol is in flight. */
  lemma OneFetchPerSymbol(ttl: real, events: seq<Event>, one: nat, two: nat, symbol: string)
    requires Fetches(Run(ttl, events), one, symbol) && Fetches(Run(ttl, events), two, symbol)
    ensures one == two
  {
    RunLocks(ttl, events);
    assert SameFetch(Run(ttl, events), one, two);
  }
}
