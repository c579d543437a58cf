/** How old an answer of the cache may be: both when it still answers and when it asks again. */
module NewsFreshness {
  import opened Models
  import opened NewsCache
  import opened NewsRuns
  import opened NewsLaws

  /** An inner fetch of `symbol` that had completed by `now`, less than the TTL before. */
  ghost predicate Young(fetches: seq<Fetch>, k: nat, symbol: string, now: real, ttl: real) {
    && k < |fetches| && fetches[k].symbol == symbol && fetches[k].outcome.Completed?
    && fetches[k].outcome.at <= now && now - fetches[k].outcome.at < ttl
  }

  ghost predicate HasYoung(fetches: seq<Fetch>, symbol: string, now: real, ttl: real) {
    exists k: nat :: Young(fetches, k, symbol, now, ttl)
  }

  ghost predicate CompletedAt(fetches: seq<Fetch>, k: nat, symbol: string, at: real) {
    k < |fetches| && fetches[k].symbol == symbol && fetches[k].outcome == Completed(at)
  }

  /** Entries bear the date of a completed fetch, and no list was delivered without a young one. */
  ghost predicate FreshOk(ttl: real, s: State) {
    && (forall symbol :: symbol in s.cache ==>
          exists k: nat :: CompletedAt(s.fetches, k, symbol, s.cache[symbol].fetchedAt))
    && (forall i :: 0 <= i < |s.deliveries| ==>
          HasYoung(s.fetches, s.deliveries[i].symbol, s.deliveries[i].at, ttl))
  }

  /** Completed fetches stay as they are. */
  ghost predicate Keeps(some: seq<Fetch>, more: seq<Fetch>) {
    && |some| <= |more|
    && forall k :: 0 <= k < |some| && some[k].outcome.Completed? ==> more[k] == some[k]
  }

  lemma YoungStays(some: seq<Fetch>, more: seq<Fetch>, symbol: string, now: real, ttl: real)
    requires Keeps(some, more) && HasYoung(some, symbol, now, ttl)
    ensures HasYoung(more, symbol, now, ttl)
  {
    var k: nat :| Young(some, k, symbol, now, ttl);
    assert Young(more, k, symbol, now, ttl);
  }

  lemma DatesStay(s: State, t: State, symbol: string)
    requires Keeps(s.fetches, t.fetches) && symbol in s.cache && symbol in t.cache && t.cache[symbol] == s.cache[symbol]
    requires exists k: nat :: CompletedAt(s.fetches, k, symbol, s.cache[symbol].fetchedAt)
    ensures exists k: nat :: CompletedAt(t.fetches, k, symbol, t.cache[symbol].fetchedAt)
  {
    var k: nat :| CompletedAt(s.fetches, k, symbol, s.cache[symbol].fetchedAt);
    assert CompletedAt(t.fetches, k, symbol, t.cache[symbol].fetchedAt);
  }

  lemma OldDeliveriesStay(ttl: real, s: State, t: State)
    requires FreshOk(ttl, s) && Keeps(s.fetches, t.fetches) && s.deliveries <= t.deliveries
    ensures forall i :: 0 <= i < |s.deliveries| ==>
              HasYoung(t.fetches, t.deliveries[i].symbol, t.deliveries[i].at, ttl)
  {
    forall i | 0 <= i < |s.deliveries|
      ensures HasYoung(t.fetches, t.deliveries[i].symbol, t.deliveries[i].at, ttl)
    {
      YoungStays(s.fetches, t.fetches, s.deliveries[i].symbol, s.deliveries[i].at, ttl);
    }
  }

  /** The cache is unchanged, and at most one list was delivered, backed by a young fetch. */
  lemma DeliveryKeepsFresh(ttl: real, s: State, t: State)
    requires FreshOk(ttl, s) && Keeps(s.fetches, t.fetches) && t.cache == s.cache && s.deliveries <= t.deliveries
    requires forall i :: |s.deliveries| <= i < |t.deliveries| ==>
               HasYoung(t.fetches, t.deliveries[i].symbol, t.deliveries[i].at, ttl)
    ensures FreshOk(ttl, t)
  {
    OldDeliveriesStay(ttl, s, t);
    forall symbol | symbol in t.cache
      ensures exists k: nat :: CompletedAt(t.fetches, k, symbol, t.cache[symbol].fetchedAt)
    {
      DatesStay(s, t, symbol);
    }
  }

  /** The cached entry is young exactly if some fetch of the symbol is. */
  lemma EntryIsYoungIff(ttl: real, s: State, symbol: string)
    requires FreshOk(ttl, s) && TimesOk(ttl, s)
    ensures symbol in s.cache && s.clock - s.cache[symbol].fetchedAt < ttl
            <==> HasYoung(s.fetches, symbol, s.clock, ttl)
  {
    if symbol in s.cache && s.clock - s.cache[symbol].fetchedAt < ttl {
      var k: nat :| CompletedAt(s.fetches, k, symbol, s.cache[symbol].fetchedAt);
      assert Young(s.fetches, k, symbol, s.clock, ttl);
    }
    if HasYoung(s.fetches, symbol, s.clock, ttl) {
      var k: nat :| Young(s.fetches, k, symbol, s.clock, ttl);
      assert Timely(s, s.fetches[k]);
    }
  }

  lemma AskKeepsFresh(ttl: real, s: State, id: nat, symbol: string)
    requires FreshOk(ttl, s) && TimesOk(ttl, s)
    ensures FreshOk(ttl, OnAsk(ttl, s, id, symbol))
  {
    EntryIsYoungIff(ttl, s, symbol);
    DeliveryKeepsFresh(ttl, s, OnAsk(ttl, s, id, symbol));
  }

  lemma AcquireKeepsFresh(ttl: real, s: State, id: nat)
    requires FreshOk(ttl, s) && TimesOk(ttl, s)
    ensures FreshOk(ttl, OnAcquire(ttl, s, id))
  {
    if CanEnter(s, id) { EntryIsYoungIff(ttl, s, s.readers[id].symbol); }
    DeliveryKeepsFresh(ttl, s, OnAcquire(ttl, s, id));
  }

  lemma EndKeepsCompleted(s: State, id: nat, outcome: Outcome)
    requires LocksOk(s) && IsFetching(s, id)
    ensures Keeps(s.fetches, Ended(s, id, outcome).fetches)
  {
    assert HoldsLock(s, id);
  }

  lemma ArriveKeepsFresh(ttl: real, s: State, id: nat, answer: Answer)
    requires LocksOk(s) && FreshOk(ttl, s) && IsFetching(s, id) && ttl > 0.0
    ensures FreshOk(ttl, OnArrive(s, id, answer))
  {
    var t, k := OnArrive(s, id, answer), s.readers[id].stage.index;
    var symbol := s.readers[id].symbol;
    assert HoldsLock(s, id);
    EndKeepsCompleted(s, id, Completed(s.clock));
    OldDeliveriesStay(ttl, s, t);
    assert CompletedAt(t.fetches, k, symbol, s.clock);
    assert Young(t.fetches, k, symbol, s.clock, ttl);
    forall other | other in t.cache
      ensures exists k: nat :: CompletedAt(t.fetches, k, other, t.cache[other].fetchedAt)
    {
      if other != symbol { DatesStay(s, t, other); }
    }
  }

  lemma CancelKeepsFresh(ttl: real, s: State, id: nat)
    requires LocksOk(s) && FreshOk(ttl, s)
    ensures FreshOk(ttl, Apply(ttl, s, Cancel(id)))
  {
    if IsFetching(s, id) { EndKeepsCompleted(s, id, Abandoned); }
    DeliveryKeepsFresh(ttl, s, Apply(ttl, s, Cancel(id)));
  }

  lemma FreshKept(ttl: real, s: State, e: Event)
    requires LocksOk(s) && TimesOk(ttl, s) && FreshOk(ttl, s) && ttl > 0.0
    ensures FreshOk(ttl, Apply(ttl, s, e))
  {
    match e
    case Advance(_) => DeliveryKeepsFresh(ttl, s, Apply(ttl, s, e));
    case Ask(id, symbol) => AskKeepsFresh(ttl, s, id, symbol);
    case Acquire(id) => AcquireKeepsFresh(ttl, s, id);
    case Arrive(id, answer) => if IsFetching(s, id) { ArriveKeepsFresh(ttl, s, id, answer); }
    case Cancel(id) => CancelKeepsFresh(ttl, s, id);
  }

  lemma {:induction false} RunIsFresh(ttl: real, events: seq<Event>)
    requires ttl > 0.0
    ensures FreshOk(ttl, Run(ttl, events))
  {
    if events != [] {
      RunIsFresh(ttl, events[..|events| - 1]);
      RunLocks(ttl, events[..|events| - 1]);
      FetchesAreApart(ttl, events[..|events| - 1]);
      FreshKept(ttl, Run(ttl, events[..|events| - 1]), events[|events| - 1]);
    }
  }

  /** No list is ever delivered on the strength of an upstream answer that had expired: whenever
      a list was returned, a fetch of its symbol had completed less than the TTL before. */
  lemma DeliveriesAreFresh(ttl: real, events: seq<Event>, i: nat)
    requires ttl > 0.0 && i < |Run(ttl, events).deliveries|
    ensures var s := Run(ttl, events);
            var d := s.deliveries[i];
            exists k: nat ::
              && k < |s.fetches| && s.fetches[k].symbol == d.symbol && s.fetches[k].outcome.Completed?
              && s.fetches[k].outcome.at <= d.at && d.at - s.fetches[k].outcome.at < ttl
  {
    var s := Run(ttl, events);
    var d := s.deliveries[i];
    RunIsFresh(ttl, events);
    var k: nat :| Young(s.fetches, k, d.symbol, d.at, ttl);
    assert s.fetches[k].symbol == d.symbol;
  }

  lemma RunSnoc(ttl: real, events: seq<Event>, e: Event)
    ensures Run(ttl, events + [e]) == Apply(ttl, Run(ttl, events), e)
  {
    assert (events + [e])[..|events|] == events;
  }

  /** A new call is answered from the cache, at once, exactly if some fetch of its symbol completed
      less than the TTL before; otherwise nothing is delivered and it waits for the lock. */
  lemma AskIsAnsweredIff(ttl: real, events: seq<Event>, id: nat, symbol: string)
    requires ttl > 0.0 && id !in Run(ttl, events).readers
    ensures var s, t := Run(ttl, events), Run(ttl, events + [Ask(id, symbol)]);
            if HasYoung(s.fetches, symbol, s.clock, ttl) then
              t.readers == s.readers && |t.deliveries| == |s.deliveries| + 1
              && t.deliveries[|s.deliveries|].symbol == symbol && t.deliveries[|s.deliveries|].at == s.clock
            else
              t.deliveries == s.deliveries && t.readers == s.readers[id := Reader(symbol, Waiting)]
  {
    RunIsFresh(ttl, events);
    FetchesAreApart(ttl, events);
    EntryIsYoungIff(ttl, Run(ttl, events), symbol);
    RunSnoc(ttl, events, Ask(id, symbol));
  }

  /** And once a waiting call gets the lock it asks upstream exactly if there still is no such
      fetch: a stale cache is always refreshed. */
  lemma LockHolderFetchesIff(ttl: real, events: seq<Event>, id: nat)
    requires ttl > 0.0 && CanEnter(Run(ttl, events), id)
    ensures var s, t := Run(ttl, events), Run(ttl, events + [Acquire(id)]);
            var symbol := s.readers[id].symbol;
            if HasYoung(s.fetches, symbol, s.clock, ttl) then
              t.fetches == s.fetches && |t.deliveries| == |s.deliveries| + 1
              && t.deliveries[|s.deliveries|].symbol == symbol && t.deliveries[|s.deliveries|].at == s.clock
            else
              t.deliveries == s.deliveries && t.fetches == s.fetches + [Fetch(symbol, s.clock, Running)]
              && symbol in t.locked && IsFetching(t, id)
  {
    RunIsFresh(ttl, events);
    FetchesAreApart(ttl, events);
    EntryIsYoungIff(ttl, Run(ttl, events), Run(ttl, events).readers[id].symbol);
    RunSnoc(ttl, events, Acquire(id));
  }
}
