/** src/infrastructure/us_publisher.py: round-robin polling, and volumes as differences. */
module UsPublisher {
  import opened Models

  // ----- one quote -----

  /** A value of the vendor's `meta` dictionary. */
  datatype Field = Absent | Junk | Number(x: real) {
    /** Python truthiness. */
    predicate Truthy() {
      Junk? || (Number? && x != 0.0)
    }

    function Or(other: Field): Field {
      if Truthy() then this else other
    }
  }

  datatype Meta = Meta(price: Field, previousClose: Field, chartPreviousClose: Field, dayVolume: Field)

  /** How the handling of one symbol goes; `sent` is false where publishing its tick raises. */
  datatype Outcome = FetchFailed | NoMeta | Quote(meta: Meta, sent: bool)

  /** The price, falling back on the previous close; None where the quote is skipped. */
  function ResolvedPrice(meta: Meta): Option<real> {
    var raw := if meta.price.Absent? then meta.previousClose.Or(meta.chartPreviousClose) else meta.price;
    if raw.Number? && raw.x > 0.0 then Some(raw.x) else None
  }

  function QuoteSide(meta: Meta, price: real): Side {
    var raw := meta.previousClose.Or(meta.chartPreviousClose).Or(Number(price));
    var prevClose := if raw.Number? then raw.x else price;
    if prevClose > 0.0 && price < prevClose then SellSide else BuySide
  }

  /** Python's `int(float(x))`: towards zero. */
  function Truncated(x: real): int {
    if x >= 0.0 then x.Floor else -((-x).Floor)
  }

  function DayVolume(meta: Meta): int {
    if meta.dayVolume.Number? then Truncated(meta.dayVolume.x) else 0
  }

  /** What is published for a day total, given the last one seen. */
  function Difference(lastSeen: Option<int>, dayVolume: int): int {
    if lastSeen.Some? && dayVolume >= lastSeen.value then dayVolume - lastSeen.value else 0
  }

  function Seen(lastVolume: map<string, int>, symbol: string): Option<int> {
    if symbol in lastVolume then Some(lastVolume[symbol]) else None
  }

  datatype Emission = Emission(symbol: string, price: real, volume: int, side: Side)

  /** The publisher's mutable fields, what it has published, and the ticks it failed to publish. */
  datatype Feed = Feed(
    lastVolume: map<string, int>, published: nat, failures: nat, out: seq<Emission>, unsent: seq<Emission>)

  function Handled(feed: Feed, symbol: string, outcome: Outcome): Feed {
    match outcome
    case FetchFailed => feed.(failures := feed.failures + 1)
    case NoMeta => feed
    case Quote(meta, sent) =>
      if ResolvedPrice(meta).None? then feed
      else
        var price, dayVolume := ResolvedPrice(meta).value, DayVolume(meta);
        var emission := Emission(
          symbol, price, Difference(Seen(feed.lastVolume, symbol), dayVolume), QuoteSide(meta, price));
        var moved := feed.(lastVolume := feed.lastVolume[symbol := dayVolume]);
        if sent then moved.(published := feed.published + 1, out := feed.out + [emission])
        else moved.(unsent := feed.unsent + [emission])
  }

  /** A failing publish ends the poll, and the publisher's task with it. */
  predicate Aborts(outcome: Outcome) {
    outcome.Quote? && ResolvedPrice(outcome.meta).Some? && !outcome.sent
  }

  /** How many outcomes a poll gets to: all, or up to the first that aborts it. */
  function Reached(outcomes: seq<Outcome>): (k: nat)
    ensures k <= |outcomes|
    ensures forall i :: 0 <= i < k - 1 ==> !Aborts(outcomes[i])
    ensures k < |outcomes| ==> k > 0 && Aborts(outcomes[k - 1])
  {
    if outcomes == [] then 0 else if Aborts(outcomes[0]) then 1 else 1 + Reached(outcomes[1..])
  }

  function HandledAll(feed: Feed, symbols: seq<string>, outcomes: seq<Outcome>): Feed
    requires |symbols| == |outcomes|
  {
    if symbols == [] then feed
    else
      var n := |symbols| - 1;
      Handled(HandledAll(feed, symbols[..n], outcomes[..n]), symbols[n], outcomes[n])
  }

  // ----- what a quote says -----

  /** The vendor gives this number as the previous close: under the one name, or, where that is
      missing or 0, under the other. */
  predicate GivesPreviousClose(meta: Meta, close: real) {
    || (meta.previousClose == Number(close) && close != 0.0)
    || (meta.previousClose in {Absent, Number(0.0)} && meta.chartPreviousClose == Number(close))
  }

  /** A quote has this price exactly if it is positive and given as the price or, where no price is
      given at all, as the previous close. */
  lemma PriceIsGiven(meta: Meta, price: real)
    ensures ResolvedPrice(meta) == Some(price)
            <==> price > 0.0 && (meta.price == Number(price) || (meta.price.Absent? && GivesPreviousClose(meta, price)))
  {
  }

  /** It counts as a sale exactly if the price is below a given previous close. */
  lemma FallIsSale(meta: Meta, price: real)
    requires ResolvedPrice(meta) == Some(price)
    ensures QuoteSide(meta, price) == SellSide
            <==> exists close: real :: GivesPreviousClose(meta, close) && price < close
  {
    PriceIsGiven(meta, price);
    var raw := meta.previousClose.Or(meta.chartPreviousClose);
    if raw.Number? && raw.x != 0.0 {
      assert GivesPreviousClose(meta, raw.x);
    }
  }

  /** The day total is the given volume without its fraction; and 0 where none is given. */
  lemma VolumeIsTruncated(meta: Meta)
    ensures var day := DayVolume(meta) as real;
            if meta.dayVolume.Number?
            then (if meta.dayVolume.x >= 0.0 then 0.0 <= day <= meta.dayVolume.x < day + 1.0
                  else day - 1.0 < meta.dayVolume.x <= day <= 0.0)
            else day == 0.0
  {
  }

  /** Publishing the symbol's tick raises: there is a price for it, and it was not sent. */
  ghost predicate Unpublished(outcome: Outcome) {
    && outcome.Quote? && !outcome.sent
    && exists price: real ::
         price > 0.0
         && (outcome.meta.price == Number(price)
             || (outcome.meta.price.Absent? && GivesPreviousClose(outcome.meta, price)))
  }

  lemma AbortsIff(outcome: Outcome)
    ensures Aborts(outcome) <==> Unpublished(outcome)
  {
    if outcome.Quote? {
      forall price: real { PriceIsGiven(outcome.meta, price); }
      if ResolvedPrice(outcome.meta).Some? {
        var p := ResolvedPrice(outcome.meta).value;
        PriceIsGiven(outcome.meta, p);
      }
    }
  }

  /** A poll gets to a symbol exactly if publishing raised for none before it: failed fetches and
      unusable quotes stop nothing. */
  lemma {:induction false} ReachedIff(outcomes: seq<Outcome>, k: nat)
    requires k < |outcomes|
    ensures k < Reached(outcomes) <==> forall j :: 0 <= j < k ==> !Unpublished(outcomes[j])
  {
    forall j | 0 <= j < k
      ensures Aborts(outcomes[j]) <==> Unpublished(outcomes[j])
    {
      AbortsIff(outcomes[j]);
    }
    var r := Reached(outcomes);
    if r <= k {
      assert r > 0 && Aborts(outcomes[r - 1]);
    }
  }

  // ----- one poll -----

  /** Slots of the round-robin, from `start` on. */
  function Slots(n: nat, start: nat, count: nat): (slots: seq<nat>)
    requires n > 0
    ensures |slots| == count
    ensures forall i :: 0 <= i < count ==> slots[i] == (start + i) % n && slots[i] < n
  {
    seq(count, i requires 0 <= i < count => (start + i) % n)
  }

  function At(symbols: seq<string>, slots: seq<nat>): (batch: seq<string>)
    requires forall i :: 0 <= i < |slots| ==> slots[i] < |symbols|
    ensures |batch| == |slots|
    ensures forall i :: 0 <= i < |slots| ==> batch[i] == symbols[slots[i]]
  {
    seq(|slots|, i requires 0 <= i < |slots| => symbols[slots[i]])
  }

  class UsPublisher {
    const symbols: seq<string>
    const batchSize: nat
    var cursor: nat
    var lastVolume: map<string, int>
    var published: nat
    var failures: nat

    ghost predicate Valid()
      reads this
    {
      symbols != [] && batchSize >= 1 && cursor < |symbols|
    }

    constructor (symbols: seq<string>, batchSize: nat)
      requires symbols != [] && batchSize >= 1
      ensures Valid() && this.symbols == symbols && this.batchSize == batchSize
      ensures cursor == 0 && lastVolume == map[] && published == 0 && failures == 0
    {
      this.symbols, this.batchSize := symbols, batchSize;
      cursor, lastVolume, published, failures := 0, map[], 0, 0;
    }

    method QuoteToTick(symbol: string, meta: Meta) returns (r: Option<Emission>)
      modifies this`lastVolume
      ensures r.Some? <==> ResolvedPrice(meta).Some?
      ensures r.None? ==> lastVolume == old(lastVolume)
      ensures r.Some? ==>
                && lastVolume == old(lastVolume)[symbol := DayVolume(meta)]
                && r.value == Emission(
                     symbol, ResolvedPrice(meta).value,
                     Difference(Seen(old(lastVolume), symbol), DayVolume(meta)),
                     QuoteSide(meta, ResolvedPrice(meta).value))
    {
      var resolved := ResolvedPrice(meta);
      if resolved.None? {
        return None;
      }
      var dayVolume := DayVolume(meta);
      var tickVolume := 0;
      if symbol in lastVolume && dayVolume >= lastVolume[symbol] {
        tickVolume := dayVolume - lastVolume[symbol];
      }
      lastVolume := lastVolume[symbol := dayVolume];
      r := Some(Emission(symbol, resolved.value, tickVolume, QuoteSide(meta, resolved.value)));
    }

    /** One poll, for given fetch outcomes; `slots` is what it set out to visit, `out` what it
        published, and `unsent` the tick whose publishing ended it, if one did. */
    method PollOneBatch(outcomes: seq<Outcome>)
      returns (slots: seq<nat>, out: seq<Emission>, unsent: seq<Emission>)
      requires Valid() && |outcomes| == Min(batchSize, |symbols|)
      modifies this
      ensures Valid()
      ensures slots == Slots(|symbols|, old(cursor), |outcomes|)
      ensures cursor == (old(cursor) + |outcomes|) % |symbols|
      ensures var k := Reached(outcomes);
              Feed(lastVolume, published, failures, out, unsent)
              == HandledAll(
                   Feed(old(lastVolume), old(published), old(failures), [], []),
                   At(symbols, slots)[..k], outcomes[..k])
    {
      var n := |symbols|;
      BelowModulus(cursor, n);
      var start := cursor % n;
      slots := Slots(n, start, Min(batchSize, n));
      var batch := At(symbols, slots);
      cursor := (start + |batch|) % n;
      out, unsent := PublishBatch(batch, outcomes);
    }

    /** The loop over the fetched symbols. */
    method PublishBatch(batch: seq<string>, outcomes: seq<Outcome>)
      returns (out: seq<Emission>, unsent: seq<Emission>)
      requires |batch| == |outcomes|
      modifies this`lastVolume, this`published, this`failures
      ensures var k := Reached(outcomes);
              Feed(lastVolume, published, failures, out, unsent)
              == HandledAll(
                   Feed(old(lastVolume), old(published), old(failures), [], []), batch[..k], outcomes[..k])
    {
      out, unsent := [], [];
      ghost var begin := Feed(lastVolume, published, failures, [], []);
      for i := 0 to |batch|
        invariant unsent == [] && forall j :: 0 <= j < i ==> !Aborts(outcomes[j])
        invariant Feed(lastVolume, published, failures, out, unsent) == HandledAll(begin, batch[..i], outcomes[..i])
      {
        assert batch[..i + 1][..i] == batch[..i] && outcomes[..i + 1][..i] == outcomes[..i];
        match outcomes[i] {
          case FetchFailed => failures := failures + 1;
          case NoMeta =>
          case Quote(meta, sent) =>
            var r := QuoteToTick(batch[i], meta);
            if r.Some? {
              if !sent {
                ReachedAt(outcomes, i);
                unsent := [r.value];
                return;
              }
              published := published + 1;
              out := out + [r.value];
            }
        }
      }
      ReachedAll(outcomes);
      assert batch[..|batch|] == batch && outcomes[..|batch|] == outcomes;
    }
  }

  lemma {:induction false} ReachedAt(outcomes: seq<Outcome>, i: nat)
    requires i < |outcomes| && Aborts(outcomes[i]) && forall j :: 0 <= j < i ==> !Aborts(outcomes[j])
    ensures Reached(outcomes) == i + 1
  {
  }

  lemma ReachedAll(outcomes: seq<Outcome>)
    requires forall j :: 0 <= j < |outcomes| ==> !Aborts(outcomes[j])
    ensures Reached(outcomes) == |outcomes|
  {
  }

  // ----- fairness -----

  lemma AtLeastOnce(k: nat, n: nat)
    requires k >= 1
    ensures k * n >= n
  {
    assert (k - 1) * n >= 0;
    assert k * n == (k - 1) * n + n;
  }

  lemma DistributeInt(n: int, p: int, d: int)
    ensures (p + d) * n == p * n + d * n
  {
  }

  lemma QuotientNotBelow(n: nat, p: nat, q: nat, r: nat, t: nat)
    requires r < n && p * n + r == q * n + t
    ensures p >= q
  {
    if p < q {
      AtLeastOnce(q - p, n);
      DistributeInt(n, p, q - p);
    }
  }

  lemma DivMod(x: nat, n: nat) returns (laps: nat, rest: nat)
    requires n > 0
    ensures x == laps * n + rest && rest < n && rest == x % n
  {
    laps, rest := x / n, x % n;
  }

  lemma ModOnce(x: nat, n: nat)
    requires n > 0
    ensures (x + n) % n == x % n
  {
    var p, r := DivMod(x + n, n);
    var q, t := DivMod(x, n);
    assert (q + 1) * n == q * n + n;
    QuotientNotBelow(n, p, q + 1, r, t);
    QuotientNotBelow(n, q + 1, p, t, r);
  }

  /** How often the positions start .. start+len-1 land on `slot`. */
  function Visits(n: nat, start: nat, len: nat, slot: nat): nat
    requires n > 0
  {
    if len == 0 then 0
    else Visits(n, start, len - 1, slot) + if (start + len - 1) % n == slot then 1 else 0
  }

  lemma {:induction false} VisitsSplit(n: nat, start: nat, a: nat, b: nat, slot: nat)
    requires n > 0
    ensures Visits(n, start, a + b, slot) == Visits(n, start, a, slot) + Visits(n, start + a, b, slot)
  {
    if b > 0 {
      VisitsSplit(n, start, a, b - 1, slot);
      assert start + a + b - 1 == (start + a) + b - 1;
    }
  }

  lemma {:induction false} FirstLap(n: nat, len: nat, slot: nat)
    requires len <= n && n > 0
    ensures Visits(n, 0, len, slot) == if slot < len then 1 else 0
  {
    if len > 0 {
      FirstLap(n, len - 1, slot);
      BelowModulus(len - 1, n);
    }
  }

  /** Any n consecutive positions land on every slot exactly once. */
  lemma {:induction false} AnyLap(n: nat, start: nat, slot: nat)
    requires slot < n
    ensures Visits(n, start, n, slot) == 1
  {
    if start == 0 {
      FirstLap(n, n, slot);
    } else {
      AnyLap(n, start - 1, slot);
      VisitsSplit(n, start - 1, 1, n - 1, slot);
      VisitsSplit(n, start, n - 1, 1, slot);
      ModOnce(start - 1, n);
      assert Visits(n, start - 1, 1, slot) == if (start - 1) % n == slot then 1 else 0;
      assert Visits(n, start + n - 1, 1, slot) == if (start + n - 1) % n == slot then 1 else 0;
    }
  }

  lemma {:induction false} Laps(n: nat, start: nat, laps: nat, rest: nat, slot: nat)
    requires slot < n
    ensures Visits(n, start, laps * n + rest, slot) == laps + Visits(n, start + laps * n, rest, slot)
    decreases laps
  {
    if laps > 0 {
      assert laps * n == (laps - 1) * n + n;
      VisitsSplit(n, start, n, (laps - 1) * n + rest, slot);
      AnyLap(n, start, slot);
      Laps(n, start + n, laps - 1, rest, slot);
    }
  }

  lemma PartLap(n: nat, start: nat, rest: nat, slot: nat)
    requires slot < n && rest <= n
    ensures Visits(n, start, rest, slot) <= 1
  {
    AnyLap(n, start, slot);
    VisitsSplit(n, start, rest, n - rest, slot);
  }

  /** The slots visited by `polls` polls of `count` slots each, and the cursor after them. */
  function Polled(n: nat, cursor: nat, count: nat, polls: nat): (seq<nat>, nat)
    requires n > 0
  {
    if polls == 0 then ([], cursor)
    else
      var (slots, at) := Polled(n, cursor, count, polls - 1);
      (slots + Slots(n, at, count), (at + count) % n)
  }

  lemma ModShift(x: nat, y: nat, n: nat)
    requires n > 0
    ensures (x % n + y) % n == (x + y) % n
  {
    var q, r := DivMod(x, n);
    ModPeriod(r + y, q, n);
  }

  lemma {:induction false} ModPeriod(x: nat, q: nat, n: nat)
    requires n > 0
    ensures (x + q * n) % n == x % n
  {
    if q > 0 {
      assert q * n == (q - 1) * n + n;
      ModPeriod(x, q - 1, n);
      ModOnce(x + (q - 1) * n, n);
    }
  }

  lemma SlotAt(n: nat, start: nat, count: nat, i: nat, x: nat)
    requires n > 0 && i < count && x == start + i
    ensures Slots(n, start, count)[i] == x % n
  {
  }

  lemma WalkGoesOn(n: nat, cursor: nat, done: nat, count: nat, j: nat)
    requires n > 0 && j < count
    ensures Slots(n, (cursor + done) % n, count)[j] == Slots(n, cursor, done + count)[done + j]
  {
    var at, x := (cursor + done) % n, cursor + done + j;
    assert (at + j) % n == x % n by { ModShift(cursor + done, j, n); }
    SlotAt(n, at, count, j, at + j);
    SlotAt(n, cursor, done + count, done + j, x);
  }

  /** A walk of `done` and then `count` positions, the second part from where the first ended. */
  lemma WalksJoin(n: nat, cursor: nat, done: nat, count: nat)
    requires n > 0
    ensures Slots(n, cursor, done + count) == Slots(n, cursor, done) + Slots(n, (cursor + done) % n, count)
  {
    var walk, batch := Slots(n, cursor, done + count), Slots(n, (cursor + done) % n, count);
    forall j | 0 <= j < count
      ensures walk[done + j] == batch[j]
    {
      WalkGoesOn(n, cursor, done, count, j);
    }
    assert walk[..done] == Slots(n, cursor, done);
    assert walk[done..] == batch;
    assert walk == walk[..done] + walk[done..];
  }

  lemma PollJoins(n: nat, cursor: nat, count: nat, polls: nat, done: nat)
    requires n > 0 && polls > 0
    requires Polled(n, cursor, count, polls - 1) == (Slots(n, cursor, done), (cursor + done) % n)
    ensures Polled(n, cursor, count, polls) == (Slots(n, cursor, done + count), (cursor + (done + count)) % n)
  {
    var at, end := (cursor + done) % n, (cursor + (done + count)) % n;
    assert Polled(n, cursor, count, polls) == (Slots(n, cursor, done) + Slots(n, at, count), (at + count) % n);
    assert (at + count) % n == end by { CursorGoesOn(n, cursor, done, count); }
    assert Slots(n, cursor, done) + Slots(n, at, count) == Slots(n, cursor, done + count) by {
      WalksJoin(n, cursor, done, count);
    }
  }

  lemma CursorGoesOn(n: nat, cursor: nat, done: nat, count: nat)
    requires n > 0
    ensures ((cursor + done) % n + count) % n == (cursor + (done + count)) % n
  {
    var x := cursor + done;
    assert (x % n + count) % n == (x + count) % n by { ModShift(x, count, n); }
    assert x + count == cursor + (done + count);
  }

  /** Consecutive polls walk the ring without gap or overlap. */
  lemma {:induction false} PollsAreOneWalk(n: nat, cursor: nat, count: nat, polls: nat, len: nat)
    requires cursor < n && len == polls * count
    ensures Polled(n, cursor, count, polls) == (Slots(n, cursor, len), (cursor + len) % n)
  {
    if polls == 0 {
      BelowModulus(cursor, n);
    } else {
      var done := (polls - 1) * count;
      assert len == done + count by { DistributeInt(count, polls - 1, 1); }
      PollsAreOneWalk(n, cursor, count, polls - 1, done);
      PollJoins(n, cursor, count, polls, done);
    }
  }

  lemma BelowModulus(x: nat, n: nat)
    requires x < n
    ensures x % n == x
  {
  }

  function Count(slots: seq<nat>, slot: nat): nat {
    if slots == [] then 0 else Count(slots[..|slots| - 1], slot) + if slots[|slots| - 1] == slot then 1 else 0
  }

  lemma {:induction false} CountIsVisits(n: nat, start: nat, len: nat, slot: nat)
    requires n > 0
    ensures Count(Slots(n, start, len), slot) == Visits(n, start, len, slot)
  {
    if len > 0 {
      CountIsVisits(n, start, len - 1, slot);
      assert Slots(n, start, len)[..len - 1] == Slots(n, start, len - 1);
    }
  }

  function FetchCount(n: nat, cursor: nat, count: nat, polls: nat, slot: nat): nat
    requires n > 0
  {
    Count(Polled(n, cursor, count, polls).0, slot)
  }

  lemma FetchCountIsVisits(n: nat, cursor: nat, count: nat, polls: nat, slot: nat)
    requires cursor < n
    ensures FetchCount(n, cursor, count, polls, slot) == Visits(n, cursor, polls * count, slot)
  {
    PollsAreOneWalk(n, cursor, count, polls, polls * count);
    CountIsVisits(n, cursor, polls * count, slot);
  }

  lemma VisitsAreEven(n: nat, cursor: nat, laps: nat, rest: nat, len: nat, one: nat, two: nat)
    requires one < n && two < n && rest < n && len == laps * n + rest
    ensures Visits(n, cursor, len, one) <= Visits(n, cursor, len, two) + 1
  {
    Laps(n, cursor, laps, rest, one);
    Laps(n, cursor, laps, rest, two);
    PartLap(n, cursor + laps * n, rest, one);
  }

  /** Fairness over any stretch of polls, from any cursor: no slot is ever more than one
      fetch ahead of another. */
  lemma FetchesAreEven(n: nat, cursor: nat, count: nat, polls: nat, one: nat, two: nat)
    requires cursor < n && one < n && two < n
    ensures FetchCount(n, cursor, count, polls, one) <= FetchCount(n, cursor, count, polls, two) + 1
  {
    var len := polls * count;
    FetchCountIsVisits(n, cursor, count, polls, one);
    FetchCountIsVisits(n, cursor, count, polls, two);
    var laps, rest := DivMod(len, n);
    VisitsAreEven(n, cursor, laps, rest, len, one, two);
  }

  /** As soon as the polls fetch n slots in all, every slot has been fetched. */
  lemma EveryPollRoundCovers(n: nat, cursor: nat, count: nat, polls: nat, slot: nat)
    requires cursor < n && slot < n && polls * count >= n
    ensures FetchCount(n, cursor, count, polls, slot) >= 1
  {
    FetchCountIsVisits(n, cursor, count, polls, slot);
    VisitsSplit(n, cursor, n, polls * count - n, slot);
    AnyLap(n, cursor, slot);
  }

  /** Any n consecutive polls fetch every slot exactly as often as a poll has slots. */
  lemma NPollsAreExact(n: nat, cursor: nat, count: nat, slot: nat)
    requires cursor < n && slot < n
    ensures FetchCount(n, cursor, count, n, slot) == count
  {
    FetchCountIsVisits(n, cursor, count, n, slot);
    Laps(n, cursor, count, 0, slot);
    assert count * n + 0 == n * count;
  }

  lemma {:induction false} SlotCounted(slots: seq<nat>, i: nat)
    requires i < |slots|
    ensures Count(slots, slots[i]) >= 1
  {
    if i < |slots| - 1 { SlotCounted(slots[..|slots| - 1], i); }
  }

  /** A single poll never fetches a slot twice. */
  lemma NoRepeatInBatch(n: nat, cursor: nat, batchSize: nat, i: nat, j: nat)
    requires cursor < n && i < j < Min(batchSize, n)
    ensures var slots := Slots(n, cursor, Min(batchSize, n));
            slots[i] != slots[j]
  {
    var slots := Slots(n, cursor, Min(batchSize, n));
    var upTo := slots[..j + 1];
    assert upTo == Slots(n, cursor, j + 1);
    CountIsVisits(n, cursor, j + 1, slots[j]);
    PartLap(n, cursor, j + 1, slots[j]);
    assert upTo[..j][i] == slots[i];
    SlotCounted(upTo[..j], i);
  }

  // ----- volume conservation -----

  /** A fetch result for a symbol, in the order the publisher handles them. */
  datatype Reading = Reading(symbol: string, outcome: Outcome)

  const START := Feed(map[], 0, 0, [], [])

  function Replayed(readings: seq<Reading>): Feed {
    if readings == [] then START
    else
      var last := readings[|readings| - 1];
      Handled(Replayed(readings[..|readings| - 1]), last.symbol, last.outcome)
  }

  /** Day totals of the usable quotes of one symbol. */
  function Totals(readings: seq<Reading>, symbol: string): seq<int> {
    if readings == [] then []
    else
      var earlier, last := Totals(readings[..|readings| - 1], symbol), readings[|readings| - 1];
      if Usable(last, symbol)
      then earlier + [DayVolume(last.outcome.meta)]
      else earlier
  }

  function VolumeOf(out: seq<Emission>, symbol: string): int {
    if out == [] then 0
    else VolumeOf(out[..|out| - 1], symbol) + if out[|out| - 1].symbol == symbol then out[|out| - 1].volume else 0
  }

  /** Total of the backward steps of a sequence of day totals. */
  function Drops(totals: seq<int>): nat {
    if |totals| < 2 then 0
    else Drops(totals[..|totals| - 1]) + Max(0, totals[|totals| - 2] - totals[|totals| - 1])
  }

  predicate Usable(reading: Reading, symbol: string) {
    reading.symbol == symbol && reading.outcome.Quote? && ResolvedPrice(reading.outcome.meta).Some?
  }

  /** What the feed published and failed to publish for a symbol, together. */
  function FedVolume(feed: Feed, symbol: string): int {
    VolumeOf(feed.out, symbol) + VolumeOf(feed.unsent, symbol)
  }

  ghost predicate Tracks(feed: Feed, totals: seq<int>, symbol: string) {
    && Seen(feed.lastVolume, symbol) == (if totals == [] then None else Some(totals[|totals| - 1]))
    && FedVolume(feed, symbol) == (if totals == [] then 0 else totals[|totals| - 1] - totals[0] + Drops(totals))
    && (forall e :: e in feed.out ==> e.volume >= 0)
    && (forall e :: e in feed.unsent ==> e.volume >= 0)
  }

  lemma VolumeSnoc(out: seq<Emission>, e: Emission, symbol: string)
    ensures VolumeOf(out + [e], symbol) == VolumeOf(out, symbol) + if e.symbol == symbol then e.volume else 0
  {
    assert (out + [e])[..|out|] == out;
  }

  lemma DropsSnoc(totals: seq<int>, day: int)
    ensures Drops(totals + [day])
         == Drops(totals) + if totals == [] then 0 else Max(0, totals[|totals| - 1] - day)
  {
    assert (totals + [day])[..|totals|] == totals;
  }

  lemma DifferenceOf(seen: int, day: int)
    ensures Difference(Some(seen), day) == day - seen + Max(0, seen - day)
  {
  }

  /** One more usable quote of the symbol: what it is worth is what the sum grows by. */
  lemma TotalGrows(totals: seq<int>, day: int, lastSeen: Option<int>)
    requires lastSeen == (if totals == [] then None else Some(totals[|totals| - 1]))
    ensures var more := totals + [day];
            more[|more| - 1] - more[0] + Drops(more)
            == (if totals == [] then 0 else totals[|totals| - 1] - totals[0] + Drops(totals))
               + Difference(lastSeen, day)
  {
    DropsSnoc(totals, day);
    if totals != [] { DifferenceOf(totals[|totals| - 1], day); }
  }

  lemma QuoteFeeds(feed: Feed, symbol: string, meta: Meta, sent: bool)
    requires ResolvedPrice(meta).Some?
    requires forall e :: e in feed.out ==> e.volume >= 0
    requires forall e :: e in feed.unsent ==> e.volume >= 0
    ensures var after := Handled(feed, symbol, Quote(meta, sent));
            && Seen(after.lastVolume, symbol) == Some(DayVolume(meta))
            && FedVolume(after, symbol)
               == FedVolume(feed, symbol) + Difference(Seen(feed.lastVolume, symbol), DayVolume(meta))
            && (forall e :: e in after.out ==> e.volume >= 0)
            && (forall e :: e in after.unsent ==> e.volume >= 0)
  {
    var after := Handled(feed, symbol, Quote(meta, sent));
    if sent {
      VolumeSnoc(feed.out, after.out[|feed.out|], symbol);
    } else {
      VolumeSnoc(feed.unsent, after.unsent[|feed.unsent|], symbol);
    }
  }

  lemma OneMoreTotal(feed: Feed, totals: seq<int>, reading: Reading, symbol: string)
    requires Tracks(feed, totals, symbol) && Usable(reading, symbol)
    ensures Tracks(
              Handled(feed, reading.symbol, reading.outcome),
              totals + [DayVolume(reading.outcome.meta)], symbol)
  {
    QuoteFeeds(feed, symbol, reading.outcome.meta, reading.outcome.sent);
    TotalGrows(totals, DayVolume(reading.outcome.meta), Seen(feed.lastVolume, symbol));
  }

  /** A tick of another symbol. */
  lemma OtherEmission(out: seq<Emission>, e: Emission, symbol: string)
    requires e.symbol != symbol && e.volume >= 0 && forall f :: f in out ==> f.volume >= 0
    ensures VolumeOf(out + [e], symbol) == VolumeOf(out, symbol) && forall f :: f in out + [e] ==> f.volume >= 0
  {
    VolumeSnoc(out, e, symbol);
  }

  /** Nothing of what is tracked for the symbol changed. */
  lemma TracksStays(feed: Feed, after: Feed, totals: seq<int>, symbol: string)
    requires Tracks(feed, totals, symbol) && Seen(after.lastVolume, symbol) == Seen(feed.lastVolume, symbol)
    requires FedVolume(after, symbol) == FedVolume(feed, symbol)
    requires forall e :: e in after.out ==> e.volume >= 0
    requires forall e :: e in after.unsent ==> e.volume >= 0
    ensures Tracks(after, totals, symbol)
  {
  }

  lemma OtherQuoteFeeds(feed: Feed, totals: seq<int>, other: string, meta: Meta, sent: bool, symbol: string)
    requires Tracks(feed, totals, symbol) && other != symbol && ResolvedPrice(meta).Some?
    ensures Tracks(Handled(feed, other, Quote(meta, sent)), totals, symbol)
  {
    var after := Handled(feed, other, Quote(meta, sent));
    assert Seen(after.lastVolume, symbol) == Seen(feed.lastVolume, symbol);
    if sent {
      OtherEmission(feed.out, after.out[|feed.out|], symbol);
    } else {
      OtherEmission(feed.unsent, after.unsent[|feed.unsent|], symbol);
    }
    TracksStays(feed, after, totals, symbol);
  }

  lemma OtherReading(feed: Feed, totals: seq<int>, reading: Reading, symbol: string)
    requires Tracks(feed, totals, symbol) && !Usable(reading, symbol)
    ensures Tracks(Handled(feed, reading.symbol, reading.outcome), totals, symbol)
  {
    if Usable(reading, reading.symbol) {
      OtherQuoteFeeds(feed, totals, reading.symbol, reading.outcome.meta, reading.outcome.sent, symbol);
    }
  }

  lemma {:induction false} FeedTracksTotals(readings: seq<Reading>, symbol: string)
    ensures Tracks(Replayed(readings), Totals(readings, symbol), symbol)
  {
    if readings != [] {
      var n := |readings| - 1;
      FeedTracksTotals(readings[..n], symbol);
      var before, totals := Replayed(readings[..n]), Totals(readings[..n], symbol);
      if Usable(readings[n], symbol) {
        OneMoreTotal(before, totals, readings[n], symbol);
      } else {
        OtherReading(before, totals, readings[n], symbol);
      }
    }
  }

  lemma {:induction false} VolumeNonNegative(out: seq<Emission>, symbol: string)
    requires forall e :: e in out ==> e.volume >= 0
    ensures VolumeOf(out, symbol) >= 0
  {
    if out != [] {
      VolumeNonNegative(out[..|out| - 1], symbol);
      assert out[|out| - 1] in out;
    }
  }

  /** Volume conservation for any interleaving of symbols, failures and unusable quotes: a
      symbol's volumes are non-negative and add up to last minus first day total, plus everything
      the totals ever fell back by; so to last minus first exactly when the totals never fell
      back.  Of that sum a tick whose publishing failed is missing downstream for good. */
  lemma VolumesAddUp(readings: seq<Reading>, symbol: string)
    requires Totals(readings, symbol) != []
    ensures var totals, feed := Totals(readings, symbol), Replayed(readings);
            var volume := FedVolume(feed, symbol);
            && volume == totals[|totals| - 1] - totals[0] + Drops(totals) >= 0
            && (volume == totals[|totals| - 1] - totals[0]
                <==> forall i :: 1 <= i < |totals| ==> Steps(totals, i))
            && VolumeOf(feed.out, symbol) == volume - VolumeOf(feed.unsent, symbol) <= volume
    ensures forall e :: e in Replayed(readings).out ==> e.volume >= 0
  {
    FeedTracksTotals(readings, symbol);
    DropsZeroIff(Totals(readings, symbol));
    DropsCoverFall(Totals(readings, symbol));
    VolumeNonNegative(Replayed(readings).unsent, symbol);
  }

  predicate Steps(totals: seq<int>, i: nat)
    requires 1 <= i < |totals|
  {
    totals[i - 1] <= totals[i]
  }

  lemma {:induction false} DropsZeroIff(totals: seq<int>)
    ensures Drops(totals) == 0 <==> forall i :: 1 <= i < |totals| ==> Steps(totals, i)
  {
    if |totals| >= 2 {
      var n := |totals| - 1;
      DropsZeroIff(totals[..n]);
      forall i | 1 <= i < n
        ensures Steps(totals[..n], i) <==> Steps(totals, i)
      {
      }
      if Drops(totals) == 0 {
        forall i | 1 <= i < |totals|
          ensures Steps(totals, i)
        {
          if i < n { assert Steps(totals[..n], i); }
        }
      } else if Drops(totals[..n]) == 0 {
        assert !Steps(totals, n);
      } else {
        var i :| 1 <= i < n && !Steps(totals[..n], i);
        assert !Steps(totals, i);
      }
    }
  }

  lemma {:induction false} DropsCoverFall(totals: seq<int>)
    requires totals != []
    ensures totals[|totals| - 1] - totals[0] + Drops(totals) >= 0
  {
    if |totals| >= 2 {
      DropsCoverFall(totals[..|totals| - 1]);
    }
  }

  lemma {:induction false} AllSentLeavesNothing(readings: seq<Reading>)
    requires forall r :: r in readings && r.outcome.Quote? ==> r.outcome.sent
    ensures Replayed(readings).unsent == []
  {
    if readings != [] {
      assert readings[|readings| - 1] in readings;
      AllSentLeavesNothing(readings[..|readings| - 1]);
    }
  }

  lemma TotalsOfThree(a: Reading, b: Reading, c: Reading, symbol: string)
    requires Usable(a, symbol) && Usable(b, symbol) && Usable(c, symbol)
    ensures Totals([a, b, c], symbol)
         == [DayVolume(a.outcome.meta), DayVolume(b.outcome.meta), DayVolume(c.outcome.meta)]
  {
    assert [a, b, c][..2] == [a, b] && [a, b][..1] == [a] && [a][..0] == [];
    assert Totals([a], symbol) == [DayVolume(a.outcome.meta)];
    assert Totals([a, b], symbol) == [DayVolume(a.outcome.meta), DayVolume(b.outcome.meta)];
  }

  lemma DropsOfThree(x: int, y: int, z: int)
    ensures Drops([x, y, z]) == Max(0, x - y) + Max(0, y - z)
  {
    assert [x, y, z][..2] == [x, y] && [x, y][..1] == [x];
    assert Drops([x, y]) == Max(0, x - y);
  }

  /** How many readings are failed fetches. */
  function FailedFetches(readings: seq<Reading>): nat {
    if readings == [] then 0
    else FailedFetches(readings[..|readings| - 1]) + if readings[|readings| - 1].outcome.FetchFailed? then 1 else 0
  }

  /** The counters count what they say: ticks that were published, and fetches that failed. */
  lemma {:induction false} FeedCounts(readings: seq<Reading>)
    ensures Replayed(readings).published == |Replayed(readings).out|
    ensures Replayed(readings).failures == FailedFetches(readings)
  {
    if readings != [] { FeedCounts(readings[..|readings| - 1]); }
  }

  // ----- polls are readings -----

  function Readings(symbols: seq<string>, outcomes: seq<Outcome>): (rs: seq<Reading>)
    requires |symbols| == |outcomes|
    ensures |rs| == |symbols|
    ensures forall i :: 0 <= i < |rs| ==> rs[i] == Reading(symbols[i], outcomes[i])
  {
    seq(|symbols|, i requires 0 <= i < |symbols| => Reading(symbols[i], outcomes[i]))
  }

  lemma ReadingsSnoc(readings: seq<Reading>, symbols: seq<string>, outcomes: seq<Outcome>)
    requires |symbols| == |outcomes| > 0
    ensures var n, all := |symbols| - 1, readings + Readings(symbols, outcomes);
            && all != [] && all[|all| - 1] == Reading(symbols[n], outcomes[n])
            && all[..|all| - 1] == readings + Readings(symbols[..n], outcomes[..n])
  {
  }

  lemma {:induction false} HandledIsReplayed(readings: seq<Reading>, symbols: seq<string>, outcomes: seq<Outcome>)
    requires |symbols| == |outcomes|
    ensures HandledAll(Replayed(readings), symbols, outcomes) == Replayed(readings + Readings(symbols, outcomes))
  {
    if symbols == [] {
      assert readings + Readings(symbols, outcomes) == readings;
    } else {
      var n := |symbols| - 1;
      HandledIsReplayed(readings, symbols[..n], outcomes[..n]);
      ReadingsSnoc(readings, symbols, outcomes);
    }
  }

  /** What a feed publishes is appended to what was published before it. */
  function Appended(out: seq<Emission>, unsent: seq<Emission>, feed: Feed): Feed {
    feed.(out := out + feed.out, unsent := unsent + feed.unsent)
  }

  lemma AppendedHandles(out: seq<Emission>, unsent: seq<Emission>, feed: Feed, symbol: string, outcome: Outcome)
    ensures Handled(Appended(out, unsent, feed), symbol, outcome)
         == Appended(out, unsent, Handled(feed, symbol, outcome))
  {
    var after := Handled(feed, symbol, outcome);
    if after.out != feed.out {
      assert out + after.out == out + feed.out + [after.out[|feed.out|]];
    } else if after.unsent != feed.unsent {
      assert unsent + after.unsent == unsent + feed.unsent + [after.unsent[|feed.unsent|]];
    }
  }

  lemma {:induction false} AppendedHandlesAll(
    out: seq<Emission>, unsent: seq<Emission>, feed: Feed, symbols: seq<string>, outcomes: seq<Outcome>)
    requires |symbols| == |outcomes|
    ensures HandledAll(Appended(out, unsent, feed), symbols, outcomes)
         == Appended(out, unsent, HandledAll(feed, symbols, outcomes))
  {
    if symbols != [] {
      var n := |symbols| - 1;
      AppendedHandlesAll(out, unsent, feed, symbols[..n], outcomes[..n]);
      AppendedHandles(out, unsent, HandledAll(feed, symbols[..n], outcomes[..n]), symbols[n], outcomes[n]);
    }
  }

  /** One poll: the symbols it set out for, and what came of each. */
  datatype Poll = Poll(batch: seq<string>, outcomes: seq<Outcome>) {
    ghost predicate Valid() { |batch| == |outcomes| }
  }

  /** What the contract of a poll says of fields and output, with the outputs of all polls in a row. */
  function Continued(feed: Feed, poll: Poll): Feed
    requires poll.Valid()
  {
    var k := Reached(poll.outcomes);
    Appended(feed.out, feed.unsent,
             HandledAll(feed.(out := [], unsent := []), poll.batch[..k], poll.outcomes[..k]))
  }

  function PollReadings(poll: Poll): seq<Reading>
    requires poll.Valid()
  {
    var k := Reached(poll.outcomes);
    Readings(poll.batch[..k], poll.outcomes[..k])
  }

  ghost predicate AllValid(polls: seq<Poll>) {
    forall p :: p in polls ==> p.Valid()
  }

  function AfterPolls(polls: seq<Poll>): Feed
    requires AllValid(polls)
  {
    if polls == [] then START
    else
      assert polls[|polls| - 1] in polls;
      Continued(AfterPolls(polls[..|polls| - 1]), polls[|polls| - 1])
  }

  function AllReadings(polls: seq<Poll>): seq<Reading>
    requires AllValid(polls)
  {
    if polls == [] then []
    else
      assert polls[|polls| - 1] in polls;
      AllReadings(polls[..|polls| - 1]) + PollReadings(polls[|polls| - 1])
  }

  lemma ContinuedIsReplayed(readings: seq<Reading>, poll: Poll)
    requires poll.Valid()
    ensures Continued(Replayed(readings), poll) == Replayed(readings + PollReadings(poll))
  {
    var k, feed := Reached(poll.outcomes), Replayed(readings);
    var begun := feed.(out := [], unsent := []);
    assert Appended(feed.out, feed.unsent, begun) == feed;
    AppendedHandlesAll(feed.out, feed.unsent, begun, poll.batch[..k], poll.outcomes[..k]);
    HandledIsReplayed(readings, poll.batch[..k], poll.outcomes[..k]);
  }

  /** Any polls one after the other, aborted ones included, are the replay of the readings they
      got to; so the volume laws hold for the publisher's own loop. */
  lemma {:induction false} PollsAreReadings(polls: seq<Poll>)
    requires AllValid(polls)
    ensures AfterPolls(polls) == Replayed(AllReadings(polls))
  {
    if polls != [] {
      var earlier, last := polls[..|polls| - 1], polls[|polls| - 1];
      assert last in polls;
      PollsAreReadings(earlier);
      ContinuedIsReplayed(AllReadings(earlier), last);
    }
  }

  /** A quote without a volume counts as a day total of zero, so the next good quote
      publishes the whole day again. */
  lemma MissingVolumeRecounts(symbol: string, price: real, day: nat)
    requires price > 0.0 && day > 0
    ensures var good := Reading(symbol, Quote(Meta(Number(price), Absent, Absent, Number(day as real)), true));
            var bare := Reading(symbol, Quote(Meta(Number(price), Absent, Absent, Absent), true));
            VolumeOf(Replayed([good, bare, good]).out, symbol) == day
  {
    var good := Reading(symbol, Quote(Meta(Number(price), Absent, Absent, Number(day as real)), true));
    var bare := Reading(symbol, Quote(Meta(Number(price), Absent, Absent, Absent), true));
    var readings := [good, bare, good];
    assert DayVolume(good.outcome.meta) == day && DayVolume(bare.outcome.meta) == 0;
    TotalsOfThree(good, bare, good, symbol);
    DropsOfThree(day, 0, day);
    VolumesAddUp(readings, symbol);
    AllSentLeavesNothing(readings);
  }

  lemma {:induction false} UnsentGrows(readings: seq<Reading>, more: seq<Reading>)
    ensures Replayed(readings).unsent <= Replayed(readings + more).unsent
  {
    if more == [] {
      assert readings + more == readings;
    } else {
      var all := readings + more;
      UnsentGrows(readings, more[..|more| - 1]);
      assert all[..|all| - 1] == readings + more[..|more| - 1];
    }
  }

  lemma {:induction false} VolumeGrows(some: seq<Emission>, all: seq<Emission>, symbol: string)
    requires some <= all && forall e :: e in all ==> e.volume >= 0
    ensures VolumeOf(some, symbol) <= VolumeOf(all, symbol)
  {
    if |some| < |all| {
      assert all[|all| - 1] in all;
      VolumeGrows(some, all[..|all| - 1], symbol);
    } else {
      assert some == all;
    }
  }

  /** A volume that could not be published is missing for good: whatever is read later, what is
      published stays short of the conserved sum by at least that much. */
  lemma UnsentNeverReturns(readings: seq<Reading>, more: seq<Reading>, symbol: string)
    requires Totals(readings + more, symbol) != []
    ensures var totals, feed := Totals(readings + more, symbol), Replayed(readings + more);
            VolumeOf(feed.out, symbol)
            <= totals[|totals| - 1] - totals[0] + Drops(totals) - VolumeOf(Replayed(readings).unsent, symbol)
  {
    VolumesAddUp(readings + more, symbol);
    FeedTracksTotals(readings + more, symbol);
    UnsentGrows(readings, more);
    VolumeGrows(Replayed(readings).unsent, Replayed(readings + more).unsent, symbol);
  }

  function DayQuote(price: real, day: nat): Meta {
    Meta(Number(price), Absent, Absent, Number(day as real))
  }

  lemma DayQuoteReads(price: real, day: nat)
    requires price > 0.0
    ensures ResolvedPrice(DayQuote(price, day)) == Some(price) && DayVolume(DayQuote(price, day)) == day
  {
  }

  /** The publishing of a usable quote fails: its volume is gone, and will not come again,
      because the day total has been remembered. */
  lemma UnsentQuote(feed: Feed, symbol: string, meta: Meta)
    requires ResolvedPrice(meta).Some?
    ensures var after := Handled(feed, symbol, Quote(meta, false));
            && after.out == feed.out && Seen(after.lastVolume, symbol) == Some(DayVolume(meta))
            && VolumeOf(after.unsent, symbol)
               == VolumeOf(feed.unsent, symbol) + Difference(Seen(feed.lastVolume, symbol), DayVolume(meta))
  {
    var after := Handled(feed, symbol, Quote(meta, false));
    VolumeSnoc(feed.unsent, after.unsent[|feed.unsent|], symbol);
  }

  lemma SentQuote(feed: Feed, symbol: string, meta: Meta)
    requires ResolvedPrice(meta).Some?
    ensures var after := Handled(feed, symbol, Quote(meta, true));
            && after.unsent == feed.unsent && Seen(after.lastVolume, symbol) == Some(DayVolume(meta))
            && VolumeOf(after.out, symbol)
               == VolumeOf(feed.out, symbol) + Difference(Seen(feed.lastVolume, symbol), DayVolume(meta))
  {
    var after := Handled(feed, symbol, Quote(meta, true));
    VolumeSnoc(feed.out, after.out[|feed.out|], symbol);
  }

  /** For example: the rise from the first to the second day total is never published. */
  lemma UnsentVolumeIsLost(symbol: string, price: real, first: nat, second: nat)
    requires price > 0.0 && first <= second
    ensures var one := Reading(symbol, Quote(DayQuote(price, first), true));
            var two := Reading(symbol, Quote(DayQuote(price, second), false));
            var feed := Replayed([one, two]);
            && Aborts(two.outcome) && VolumeOf(feed.out, symbol) == 0
            && Seen(feed.lastVolume, symbol) == Some(second) && VolumeOf(feed.unsent, symbol) == second - first
  {
    var one := Reading(symbol, Quote(DayQuote(price, first), true));
    var two := Reading(symbol, Quote(DayQuote(price, second), false));
    DayQuoteReads(price, first);
    DayQuoteReads(price, second);
    SentQuote(START, symbol, DayQuote(price, first));
    UnsentQuote(Handled(START, symbol, one.outcome), symbol, DayQuote(price, second));
    ReplayedTwo(one, two);
  }

  lemma ReplayedTwo(a: Reading, b: Reading)
    ensures Replayed([a, b]) == Handled(Handled(START, a.symbol, a.outcome), b.symbol, b.outcome)
  {
    assert [a, b][..1] == [a] && [a][..0] == [];
    assert Replayed([a]) == Handled(START, a.symbol, a.outcome);
  }
}
