/** What the cache promises its callers and its upstream, over every run. */
module NewsLaws {
  import opened Statistics
  import opened NewsCache
  import opened NewsRuns

  // ----- the "last good answer" register -----

  /** The newest non-empty inner answer for a symbol, or nothing. */
  function LastGood(answers: seq<Record>, symbol: string): seq<string> {
    if answers == [] then []
    else
      var last := answers[|answers| - 1];
      if last.symbol == symbol && last.items != [] then last.items
      else LastGood(answers[..|answers| - 1], symbol)
  }

  ghost predicate Honest(s: State, d: Delivery) {
    d.known <= |s.answers| && d.headlines == LastGood(s.answers[..d.known], d.symbol)
  }

  ghost predicate RegisterOk(s: State) {
    && (forall symbol :: symbol in s.cache ==> s.cache[symbol].headlines == LastGood(s.answers, symbol))
    && (forall symbol :: symbol !in s.cache ==> LastGood(s.answers, symbol) == [])
    && (forall i :: 0 <= i < |s.deliveries| ==> Honest(s, s.deliveries[i]))
  }

  lemma DeliverKeepsRegister(s: State, t: State, symbol: string, headlines: seq<string>)
    requires RegisterOk(s)
    requires t.cache == s.cache && t.answers == s.answers
    requires t.deliveries == s.deliveries + [Delivery(symbol, headlines, |s.answers|, s.clock)]
    requires headlines == LastGood(s.answers, symbol)
    ensures RegisterOk(t)
  {
    assert s.answers[..|s.answers|] == s.answers;
  }

  lemma ArriveKeepsRegister(s: State, id: nat, answer: Answer)
    requires LocksOk(s) && RegisterOk(s) && IsFetching(s, id)
    ensures RegisterOk(OnArrive(s, id, answer))
  {
    var t, symbol := OnArrive(s, id, answer), s.readers[id].symbol;
    var n := |s.answers|;
    assert HoldsLock(s, id);
    assert t.answers[..n] == s.answers && t.answers[..n + 1] == t.answers;
    assert t.cache[symbol].headlines == LastGood(t.answers, symbol);
    forall i | 0 <= i < |t.deliveries|
      ensures Honest(t, t.deliveries[i])
    {
      if i < |s.deliveries| {
        assert Honest(s, s.deliveries[i]);
        assert t.answers[..s.deliveries[i].known] == s.answers[..s.deliveries[i].known];
      }
    }
  }

  lemma AskKeepsRegister(ttl: real, s: State, id: nat, symbol: string)
    requires RegisterOk(s)
    ensures RegisterOk(OnAsk(ttl, s, id, symbol))
  {
    var t := OnAsk(ttl, s, id, symbol);
    if t.deliveries == s.deliveries {
      SameRegister(s, t);
    } else {
      DeliverKeepsRegister(s, t, symbol, s.cache[symbol].headlines);
    }
  }

  lemma AcquireKeepsRegister(ttl: real, s: State, id: nat)
    requires RegisterOk(s)
    ensures RegisterOk(OnAcquire(ttl, s, id))
  {
    var t := OnAcquire(ttl, s, id);
    if t.deliveries == s.deliveries {
      SameRegister(s, t);
    } else {
      var symbol := s.readers[id].symbol;
      DeliverKeepsRegister(s, t, symbol, s.cache[symbol].headlines);
    }
  }

  lemma SameRegister(s: State, t: State)
    requires RegisterOk(s)
    requires t.cache == s.cache && t.answers == s.answers && t.deliveries == s.deliveries
    ensures RegisterOk(t)
  {
    forall i | 0 <= i < |t.deliveries|
      ensures Honest(t, t.deliveries[i])
    {
      assert Honest(s, s.deliveries[i]);
    }
  }

  lemma RegisterKept(ttl: real, s: State, e: Event)
    requires LocksOk(s) && RegisterOk(s)
    ensures RegisterOk(Apply(ttl, s, e))
  {
    match e
    case Ask(id, symbol) => AskKeepsRegister(ttl, s, id, symbol);
    case Acquire(id) => AcquireKeepsRegister(ttl, s, id);
    case Arrive(id, answer) =>
      if IsFetching(s, id) { ArriveKeepsRegister(s, id, answer); }
    case _ => SameRegister(s, Apply(ttl, s, e));
  }

  /** Every list ever returned, by whichever path, is the newest non-empty inner answer for
      that symbol at that moment, or empty if there never was one, although the entry is read
      before the fetch and written after it. */
  lemma {:induction false} CacheIsLastGoodRegister(ttl: real, events: seq<Event>)
    ensures RegisterOk(Run(ttl, events))
  {
    if events != [] {
      CacheIsLastGoodRegister(ttl, events[..|events| - 1]);
      RunLocks(ttl, events[..|events| - 1]);
      RegisterKept(ttl, Run(ttl, events[..|events| - 1]), events[|events| - 1]);
    }
  }

  lemma {:induction false} GoodStaysGood(answers: seq<Record>, early: nat, late: nat, symbol: string)
    requires early <= late <= |answers|
    requires LastGood(answers[..early], symbol) != []
    ensures LastGood(answers[..late], symbol) != []
  {
    if early < late {
      GoodStaysGood(answers, early, late - 1, symbol);
      assert answers[..late][..late - 1] == answers[..late - 1];
    }
  }

  /** The answers known at a delivery are those known at any earlier one, and perhaps more. */
  ghost predicate KnownRises(s: State) {
    && (forall i, j :: 0 <= i <= j < |s.deliveries| ==> s.deliveries[i].known <= s.deliveries[j].known)
    && (forall i :: 0 <= i < |s.deliveries| ==> s.deliveries[i].known <= |s.answers|)
  }

  /** A step delivers nothing, or one list that knows all answers so far. */
  lemma StepDelivers(ttl: real, s: State, e: Event)
    ensures var t := Apply(ttl, s, e);
            && |s.answers| <= |t.answers|
            && (t.deliveries == s.deliveries
                || exists d :: t.deliveries == s.deliveries + [d] && d.known == |t.answers|)
  {
  }

  lemma {:induction false} KnownNeverFalls(ttl: real, events: seq<Event>)
    ensures KnownRises(Run(ttl, events))
  {
    if events != [] {
      KnownNeverFalls(ttl, events[..|events| - 1]);
      StepDelivers(ttl, Run(ttl, events[..|events| - 1]), events[|events| - 1]);
    }
  }

  /** So once a caller was given headlines, no later caller is ever given silence. */
  lemma NeverEmptyAgain(ttl: real, events: seq<Event>, i: nat, j: nat)
    requires i <= j < |Run(ttl, events).deliveries|
    requires var ds := Run(ttl, events).deliveries;
             ds[i].symbol == ds[j].symbol && ds[i].headlines != []
    ensures Run(ttl, events).deliveries[j].headlines != []
  {
    var s := Run(ttl, events);
    CacheIsLastGoodRegister(ttl, events);
    KnownNeverFalls(ttl, events);
    assert Honest(s, s.deliveries[i]) && Honest(s, s.deliveries[j]);
    GoodStaysGood(s.answers, s.deliveries[i].known, s.deliveries[j].known, s.deliveries[i].symbol);
  }

  // ----- accounting -----

  function CountOutcome(fetches: seq<Fetch>, outcome: Outcome -> bool): nat {
    if fetches == [] then 0
    else
      CountOutcome(fetches[..|fetches| - 1], outcome)
      + if outcome(fetches[|fetches| - 1].outcome) then 1 else 0
  }

  function RunningCount(fetches: seq<Fetch>): nat { CountOutcome(fetches, o => o == Running) }

  function AbandonedCount(fetches: seq<Fetch>): nat { CountOutcome(fetches, o => o == Abandoned) }

  lemma {:induction false} CountUpdate(fetches: seq<Fetch>, k: nat, outcome: Outcome, p: Outcome -> bool)
    requires k < |fetches|
    ensures var updated := fetches[k := fetches[k].(outcome := outcome)];
            CountOutcome(updated, p)
            == CountOutcome(fetches, p) - (if p(fetches[k].outcome) then 1 else 0) + if p(outcome) then 1 else 0
  {
    var n := |fetches| - 1;
    var updated := fetches[k := fetches[k].(outcome := outcome)];
    if k < n {
      CountUpdate(fetches[..n], k, outcome, p);
      assert updated[..n] == fetches[..n][k := fetches[k].(outcome := outcome)];
    } else {
      assert updated[..n] == fetches[..n];
    }
  }

  /** Every returning call counts as exactly one hit or one miss, misses are exactly the
      inner fetches, and only fetches still running or abandoned have not returned yet. */
  ghost predicate Balanced(s: State) {
    && s.misses == |s.fetches|
    && s.hits + s.misses == |s.deliveries| + RunningCount(s.fetches) + AbandonedCount(s.fetches)
  }

  lemma EndKeepsBalance(s: State, id: nat, outcome: Outcome)
    requires LocksOk(s) && Balanced(s) && IsFetching(s, id) && outcome != Running
    ensures var t := Ended(s, id, outcome);
            && |t.fetches| == |s.fetches|
            && RunningCount(t.fetches) == RunningCount(s.fetches) - 1
            && AbandonedCount(t.fetches) == AbandonedCount(s.fetches) + if outcome == Abandoned then 1 else 0
  {
    var k := s.readers[id].stage.index;
    assert HoldsLock(s, id);
    CountUpdate(s.fetches, k, outcome, o => o == Running);
    CountUpdate(s.fetches, k, outcome, o => o == Abandoned);
  }

  lemma AcquireKeepsBalance(ttl: real, s: State, id: nat)
    requires Balanced(s)
    ensures Balanced(OnAcquire(ttl, s, id))
  {
    var t := OnAcquire(ttl, s, id);
    if t.misses != s.misses { assert t.fetches[..|s.fetches|] == s.fetches; }
  }

  lemma BalanceKept(ttl: real, s: State, e: Event)
    requires LocksOk(s) && Balanced(s)
    ensures Balanced(Apply(ttl, s, e))
  {
    match e
    case Acquire(id) => AcquireKeepsBalance(ttl, s, id);
    case Arrive(id, answer) => if IsFetching(s, id) { EndKeepsBalance(s, id, Completed(s.clock)); }
    case Cancel(id) => if IsFetching(s, id) { EndKeepsBalance(s, id, Abandoned); }
    case _ =>
  }

  lemma {:induction false} HitsAndMissesBalance(ttl: real, events: seq<Event>)
    ensures Balanced(Run(ttl, events))
  {
    if events != [] {
      HitsAndMissesBalance(ttl, events[..|events| - 1]);
      RunLocks(ttl, events[..|events| - 1]);
      BalanceKept(ttl, Run(ttl, events[..|events| - 1]), events[|events| - 1]);
    }
  }

  // ----- how often the upstream is asked -----

  /** Each fetch starts at least the TTL after any earlier one of its symbol completed, and
      after any earlier one at all ended. */
  ghost predicate Apart(ttl: real, earlier: Fetch, later: Fetch) {
    && earlier.outcome != Running
    && earlier.start <= later.start
    && (earlier.outcome.Completed? ==> later.start - earlier.outcome.at >= ttl)
  }

  ghost predicate AllApart(ttl: real, fetches: seq<Fetch>) {
    forall i, j :: 0 <= i < j < |fetches| && fetches[i].symbol == fetches[j].symbol ==>
      Apart(ttl, fetches[i], fetches[j])
  }

  ghost predicate Timely(s: State, f: Fetch) {
    && f.start <= s.clock
    && (f.outcome.Completed? ==>
          && f.start <= f.outcome.at <= s.clock
          && f.symbol in s.cache && s.cache[f.symbol].fetchedAt >= f.outcome.at)
  }

  ghost predicate TimesOk(ttl: real, s: State) {
    && AllApart(ttl, s.fetches)
    && (forall symbol :: symbol in s.cache ==> s.cache[symbol].fetchedAt <= s.clock)
    && (forall k :: 0 <= k < |s.fetches| ==> Timely(s, s.fetches[k]))
  }

  lemma AcquireKeepsTimes(ttl: real, s: State, id: nat)
    requires LocksOk(s) && TimesOk(ttl, s)
    ensures TimesOk(ttl, OnAcquire(ttl, s, id))
  {
    var t := OnAcquire(ttl, s, id);
    if t.misses != s.misses {
      var n := |s.fetches|;
      forall i | 0 <= i < n && s.fetches[i].symbol == t.fetches[n].symbol
        ensures Apart(ttl, t.fetches[i], t.fetches[n])
      {
        assert Timely(s, s.fetches[i]);
      }
      forall i, j | 0 <= i < j < |t.fetches| && t.fetches[i].symbol == t.fetches[j].symbol
        ensures Apart(ttl, t.fetches[i], t.fetches[j])
      {
        if j < n { assert Apart(ttl, s.fetches[i], s.fetches[j]); }
      }
      forall k | 0 <= k < |t.fetches|
        ensures Timely(t, t.fetches[k])
      {
        if k < n { assert Timely(s, s.fetches[k]); }
      }
    }
  }

  lemma EndKeepsApart(ttl: real, s: State, id: nat, outcome: Outcome)
    requires LocksOk(s) && TimesOk(ttl, s) && IsFetching(s, id)
    ensures AllApart(ttl, Ended(s, id, outcome).fetches)
  {
    var k, fetches := s.readers[id].stage.index, Ended(s, id, outcome).fetches;
    assert HoldsLock(s, id);
    forall i, j | 0 <= i < j < |fetches| && fetches[i].symbol == fetches[j].symbol
      ensures Apart(ttl, fetches[i], fetches[j])
    {
      assert Apart(ttl, s.fetches[i], s.fetches[j]);
    }
  }

  lemma ArriveKeepsTimes(ttl: real, s: State, id: nat, answer: Answer)
    requires LocksOk(s) && TimesOk(ttl, s) && IsFetching(s, id)
    ensures TimesOk(ttl, OnArrive(s, id, answer))
  {
    var t := OnArrive(s, id, answer);
    EndKeepsApart(ttl, s, id, Completed(s.clock));
    forall k | 0 <= k < |t.fetches|
      ensures Timely(t, t.fetches[k])
    {
      assert Timely(s, s.fetches[k]);
    }
  }

  lemma CancelKeepsTimes(ttl: real, s: State, id: nat)
    requires LocksOk(s) && TimesOk(ttl, s) && IsFetching(s, id)
    ensures TimesOk(ttl, Ended(s, id, Abandoned))
  {
    var t := Ended(s, id, Abandoned);
    EndKeepsApart(ttl, s, id, Abandoned);
    forall k | 0 <= k < |t.fetches|
      ensures Timely(t, t.fetches[k])
    {
      assert Timely(s, s.fetches[k]);
    }
  }

  lemma WaitingKeepsTimes(ttl: real, s: State, t: State)
    requires TimesOk(ttl, s)
    requires t.fetches == s.fetches && t.cache == s.cache && s.clock <= t.clock
    ensures TimesOk(ttl, t)
  {
    forall k | 0 <= k < |t.fetches|
      ensures Timely(t, t.fetches[k])
    {
      assert Timely(s, s.fetches[k]);
    }
  }

  lemma TimesKept(ttl: real, s: State, e: Event)
    requires LocksOk(s) && TimesOk(ttl, s)
    ensures TimesOk(ttl, Apply(ttl, s, e))
  {
    match e
    case Acquire(id) => AcquireKeepsTimes(ttl, s, id);
    case Arrive(id, answer) =>
      if IsFetching(s, id) { ArriveKeepsTimes(ttl, s, id, answer); }
    case Cancel(id) =>
      if IsFetching(s, id) { CancelKeepsTimes(ttl, s, id); } else { WaitingKeepsTimes(ttl, s, Apply(ttl, s, e)); }
    case _ => WaitingKeepsTimes(ttl, s, Apply(ttl, s, e));
  }

  lemma {:induction false} FetchesAreApart(ttl: real, events: seq<Event>)
    ensures TimesOk(ttl, Run(ttl, events))
  {
    if events != [] {
      FetchesAreApart(ttl, events[..|events| - 1]);
      RunLocks(ttl, events[..|events| - 1]);
      TimesKept(ttl, Run(ttl, events[..|events| - 1]), events[|events| - 1]);
    }
  }

  /** The fetches of `symbol` that start in [from, to]. */
  function StartsWithin(fetches: seq<Fetch>, symbol: string, from: real, to: real): seq<Fetch> {
    if fetches == [] then []
    else
      var earlier, last := StartsWithin(fetches[..|fetches| - 1], symbol, from, to), fetches[|fetches| - 1];
      if last.symbol == symbol && from <= last.start <= to then earlier + [last] else earlier
  }

  lemma {:induction false} StartsAreFetches(fetches: seq<Fetch>, symbol: string, from: real, to: real)
    ensures forall f :: f in StartsWithin(fetches, symbol, from, to) ==>
              f in fetches && f.symbol == symbol && from <= f.start <= to
  {
    if fetches != [] {
      StartsAreFetches(fetches[..|fetches| - 1], symbol, from, to);
    }
  }

  /** A fetch that was not abandoned keeps the next one at least the TTL away. */
  ghost predicate Paid(w: seq<Fetch>, from: real, ttl: real)
    requires w != []
  {
    Charged(w) * ttl <= w[|w| - 1].start - from
  }

  lemma OneMoreTime(a: real, ttl: real)
    ensures (a + 1.0) * ttl == a * ttl + ttl
  {
  }

  /** How many fetches before the last one were not abandoned. */
  function Charged(w: seq<Fetch>): real
    requires w != []
  {
    var before := w[..|w| - 1];
    |before| as real - AbandonedCount(before) as real
  }

  lemma ChargedSnoc(w: seq<Fetch>, f: Fetch)
    requires w != []
    ensures Charged(w + [f]) == if w[|w| - 1].outcome == Abandoned then Charged(w) else Charged(w) + 1.0
  {
    assert (w + [f])[..|w|] == w;
  }

  lemma PaidOneMore(w: seq<Fetch>, f: Fetch, from: real, ttl: real)
    requires w != [] && ttl >= 0.0 && Paid(w, from, ttl)
    requires Apart(ttl, w[|w| - 1], f)
    requires w[|w| - 1].outcome.Completed? ==> w[|w| - 1].start <= w[|w| - 1].outcome.at
    ensures Paid(w + [f], from, ttl)
  {
    var last, more := w[|w| - 1], w + [f];
    var owed, owing := Charged(w) * ttl, Charged(more) * ttl;
    ChargedSnoc(w, f);
    assert owed <= last.start - from;
    assert last.outcome != Running && more[|more| - 1] == f;
    if last.outcome == Abandoned {
      assert owing == owed;
    } else {
      OneMoreTime(Charged(w), ttl);
      assert owing == owed + ttl;
      assert f.start - last.start >= ttl;
    }
    assert owing <= f.start - from;
  }

  /** The last start counted so far and a further fetch of the same symbol. */
  lemma NextStartIsPaid(s: State, n: nat, w: seq<Fetch>, from: real, ttl: real)
    requires TimesOk(ttl, s) && ttl >= 0.0 && n < |s.fetches|
    requires w != [] && Paid(w, from, ttl)
    requires w[|w| - 1] in s.fetches[..n] && w[|w| - 1].symbol == s.fetches[n].symbol
    ensures Paid(w + [s.fetches[n]], from, ttl)
  {
    var k :| 0 <= k < n && s.fetches[..n][k] == w[|w| - 1];
    assert Apart(ttl, s.fetches[k], s.fetches[n]);
    assert Timely(s, s.fetches[k]);
    PaidOneMore(w, s.fetches[n], from, ttl);
  }

  lemma FirstStartIsPaid(f: Fetch, from: real, ttl: real)
    requires from <= f.start
    ensures Paid([f], from, ttl)
  {
    assert [f][..0] == [];
  }

  lemma {:induction false} StartsArePaid(s: State, n: nat, symbol: string, from: real, to: real, ttl: real)
    requires TimesOk(ttl, s) && ttl >= 0.0 && n <= |s.fetches|
    ensures var w := StartsWithin(s.fetches[..n], symbol, from, to);
            w != [] ==> Paid(w, from, ttl)
  {
    if n > 0 {
      var w, last := StartsWithin(s.fetches[..n - 1], symbol, from, to), s.fetches[n - 1];
      assert StartsWithin(s.fetches[..n], symbol, from, to)
          == if last.symbol == symbol && from <= last.start <= to then w + [last] else w by {
        assert s.fetches[..n][..n - 1] == s.fetches[..n - 1];
      }
      StartsArePaid(s, n - 1, symbol, from, to, ttl);
      if last.symbol == symbol && from <= last.start <= to {
        if w == [] {
          FirstStartIsPaid(last, from, ttl);
        } else {
          StartsAreFetches(s.fetches[..n - 1], symbol, from, to);
          assert w[|w| - 1] in w;
          NextStartIsPaid(s, n - 1, w, from, ttl);
        }
      }
    }
  }

  /** A number of charged fetches within a span, as a count. */
  lemma ChargedCount(n: int, span: real, ttl: real, owed: real)
    requires ttl > 0.0 && owed == n as real * ttl && owed <= span
    ensures n <= (span / ttl).Floor
  {
    var q := span / ttl;
    assert q * ttl == span;
    CancelFactor(n as real, q, ttl);
  }

  lemma ChargedIsCount(w: seq<Fetch>)
    requires w != []
    ensures var n := |w| - 1 - AbandonedCount(w[..|w| - 1]);
            Charged(w) == n as real && AbandonedCount(w[..|w| - 1]) <= AbandonedCount(w)
  {
  }

  lemma PaidCount(w: seq<Fetch>, from: real, to: real, ttl: real)
    requires ttl > 0.0 && w != [] && Paid(w, from, ttl) && from <= w[|w| - 1].start <= to
    ensures |w| <= 1 + AbandonedCount(w) + ((to - from) / ttl).Floor
  {
    var n := |w| - 1 - AbandonedCount(w[..|w| - 1]);
    ChargedIsCount(w);
    ChargedCount(n, to - from, ttl, Charged(w) * ttl);
  }

  lemma StartCount(s: State, symbol: string, from: real, to: real, ttl: real)
    requires TimesOk(ttl, s) && ttl > 0.0 && from <= to
    ensures var w := StartsWithin(s.fetches, symbol, from, to);
            |w| <= 1 + AbandonedCount(w) + ((to - from) / ttl).Floor
  {
    var w := StartsWithin(s.fetches, symbol, from, to);
    assert w != [] ==> Paid(w, from, ttl) by {
      assert s.fetches[..|s.fetches|] == s.fetches;
      StartsArePaid(s, |s.fetches|, symbol, from, to, ttl);
    }
    if w != [] {
      StartsAreFetches(s.fetches, symbol, from, to);
      assert w[|w| - 1] in w;
      PaidCount(w, from, to, ttl);
    } else {
      QuotientNonNegative(to - from, ttl);
    }
  }

  /** Upstream protection: in any interval of length T a symbol sees at most
      1 + floor(T/ttl) fetch starts, plus one for each fetch of it abandoned by cancellation;
      without cancellations exactly the first bound. */
  lemma FetchRateBound(ttl: real, events: seq<Event>, symbol: string, from: real, to: real)
    requires ttl > 0.0 && from <= to
    ensures var w := StartsWithin(Run(ttl, events).fetches, symbol, from, to);
            |w| <= 1 + AbandonedCount(w) + ((to - from) / ttl).Floor
  {
    var s := Run(ttl, events);
    FetchesAreApart(ttl, events);
    StartCount(s, symbol, from, to, ttl);
  }

  ghost predicate Uncancelled(events: seq<Event>) {
    forall e :: e in events ==> !e.Cancel?
  }

  lemma {:induction false} NothingAbandoned(ttl: real, events: seq<Event>)
    requires Uncancelled(events)
    ensures forall f :: f in Run(ttl, events).fetches ==> f.outcome != Abandoned
  {
    if events != [] {
      var e := events[|events| - 1];
      assert e in events;
      NothingAbandoned(ttl, events[..|events| - 1]);
    }
  }

  lemma {:induction false} NoneCounted(w: seq<Fetch>)
    requires forall f :: f in w ==> f.outcome != Abandoned
    ensures AbandonedCount(w) == 0
  {
    if w != [] {
      assert w[|w| - 1] in w;
      NoneCounted(w[..|w| - 1]);
    }
  }

  lemma UncancelledFetchRate(ttl: real, events: seq<Event>, symbol: string, from: real, to: real)
    requires ttl > 0.0 && from <= to && Uncancelled(events)
    ensures |StartsWithin(Run(ttl, events).fetches, symbol, from, to)| <= 1 + ((to - from) / ttl).Floor
  {
    var s := Run(ttl, events);
    FetchRateBound(ttl, events, symbol, from, to);
    NothingAbandoned(ttl, events);
    StartsAreFetches(s.fetches, symbol, from, to);
    NoneCounted(StartsWithin(s.fetches, symbol, from, to));
  }
}
