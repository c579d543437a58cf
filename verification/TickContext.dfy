/** src/domain/trading/context.py: per-symbol bounded windows of recent ticks. */
module TickWindows {
  import opened Models

  type Windows = map<string, seq<Tick>>

  // ----- what one append does to a bounded deque -----

  function Append(window: seq<Tick>, tick: Tick, maxWindow: nat): seq<Tick> {
    LastN(window + [tick], maxWindow)
  }

  function Bucket(ws: Windows, symbol: string): seq<Tick> {
    if symbol in ws then ws[symbol] else []
  }

  function Recorded(ws: Windows, tick: Tick, maxWindow: nat): Windows {
    ws[tick.symbol := Append(Bucket(ws, tick.symbol), tick, maxWindow)]
  }

  function RecordedAll(ws: Windows, ticks: seq<Tick>, maxWindow: nat): Windows {
    if ticks == [] then ws
    else Recorded(RecordedAll(ws, ticks[..|ticks| - 1], maxWindow), ticks[|ticks| - 1], maxWindow)
  }

  /** `recent_ticks(symbol, n)`; `limit` None is the call without `n`. */
  function Recent(ws: Windows, symbol: string, limit: Option<int>): seq<Tick> {
    var bucket := Bucket(ws, symbol);
    if bucket == [] then []
    else if limit.None? || limit.value >= |bucket| then bucket
    else SliceFromEnd(bucket, limit.value)
  }

  class TickContext {
    const maxWindow: nat
    var bySymbol: Windows

    constructor (maxWindow: nat)
      requires maxWindow >= 2
      ensures this.maxWindow == maxWindow && bySymbol == map[]
    {
      this.maxWindow := maxWindow;
      bySymbol := map[];
    }

    method Record(tick: Tick)
      modifies this
      ensures bySymbol == Recorded(old(bySymbol), tick, maxWindow)
    {
      var bucket := if tick.symbol in bySymbol then bySymbol[tick.symbol] else [];
      bucket := bucket + [tick];
      if |bucket| > maxWindow {
        bucket := bucket[|bucket| - maxWindow..];
      }
      bySymbol := bySymbol[tick.symbol := bucket];
    }

    method RecordMany(ticks: seq<Tick>)
      modifies this
      ensures bySymbol == RecordedAll(old(bySymbol), ticks, maxWindow)
    {
      for i := 0 to |ticks|
        invariant bySymbol == RecordedAll(old(bySymbol), ticks[..i], maxWindow)
      {
        Record(ticks[i]);
        assert ticks[..i + 1][..i] == ticks[..i];
      }
      assert ticks[..|ticks|] == ticks;
    }

    function RecentTicks(symbol: string, limit: Option<int>): seq<Tick>
      reads this
    {
      Recent(bySymbol, symbol, limit)
    }
  }

  // ----- the windows refine the full history -----

  /** The whole past of one symbol. */
  function History(ticks: seq<Tick>, symbol: string): seq<Tick> {
    if ticks == [] then []
    else
      var earlier, last := History(ticks[..|ticks| - 1], symbol), ticks[|ticks| - 1];
      if last.symbol == symbol then earlier + [last] else earlier
  }

  /** However the symbols interleave, a symbol's window is the tail of its own history:
      a chatty symbol never evicts the history of a quiet one. */
  lemma {:induction false} WindowIsHistoryTail(ticks: seq<Tick>, maxWindow: nat, symbol: string)
    requires maxWindow > 0
    ensures Bucket(RecordedAll(map[], ticks, maxWindow), symbol) == LastN(History(ticks, symbol), maxWindow)
    ensures symbol in RecordedAll(map[], ticks, maxWindow) <==> History(ticks, symbol) != []
  {
    if ticks != [] {
      var earlier, last := ticks[..|ticks| - 1], ticks[|ticks| - 1];
      WindowIsHistoryTail(earlier, maxWindow, symbol);
      if last.symbol == symbol {
        LastNSnoc(History(earlier, symbol), last, maxWindow);
      }
    }
  }

  /** A reader that asks for `n > 0` ticks sees exactly what it would see with
      unbounded memory, as long as it asks for at most `maxWindow`. */
  lemma RecentRefinesHistory(ticks: seq<Tick>, maxWindow: nat, symbol: string, n: nat)
    requires maxWindow > 0 && n > 0
    ensures Recent(RecordedAll(map[], ticks, maxWindow), symbol, Some(n))
         == LastN(History(ticks, symbol), Min(n, maxWindow))
    ensures Recent(RecordedAll(map[], ticks, maxWindow), symbol, None)
         == LastN(History(ticks, symbol), maxWindow)
  {
    WindowIsHistoryTail(ticks, maxWindow, symbol);
    LastNTwice(History(ticks, symbol), maxWindow, n);
  }

  lemma {:induction false} HistoryIsRecorded(ticks: seq<Tick>, symbol: string)
    ensures forall t :: t in History(ticks, symbol) ==> t in ticks
  {
    if ticks != [] {
      HistoryIsRecorded(ticks[..|ticks| - 1], symbol);
    }
  }

  /** Nothing is ever returned that was not recorded. */
  lemma RecentIsRecorded(ticks: seq<Tick>, maxWindow: nat, symbol: string, limit: Option<int>)
    requires maxWindow > 0
    ensures forall t :: t in Recent(RecordedAll(map[], ticks, maxWindow), symbol, limit) ==> t in ticks
  {
    var ws := RecordedAll(map[], ticks, maxWindow);
    WindowIsHistoryTail(ticks, maxWindow, symbol);
    HistoryIsRecorded(ticks, symbol);
    assert forall t :: t in Bucket(ws, symbol) ==> t in History(ticks, symbol);
    assert forall t :: t in Recent(ws, symbol, limit) ==> t in Bucket(ws, symbol);
  }

  /** A request for `n <= 0` is not "no ticks": zero returns the whole window and a
      negative number drops that many of the oldest ticks. */
  lemma RecentOfNonPositive(ws: Windows, symbol: string, n: int)
    requires n <= 0
    ensures Recent(ws, symbol, Some(n)) == Bucket(ws, symbol)[Min(-n, |Bucket(ws, symbol)|)..]
  {
  }
}
