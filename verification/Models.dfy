/** Values shared by the trading and market-data components.  Timestamps are
    seconds on one clock; prices, weights and confidences are reals. */
module Models {

  datatype Option<+T> = None | Some(value: T)

  datatype Action = Buy | Hold | Sell {
    function Opposite(): Action {
      match this
      case Buy => Sell
      case Hold => Hold
      case Sell => Buy
    }
  }

  datatype Side = BuySide | SellSide

  datatype Tick = Tick(symbol: string, ts: real, price: real, volume: int, side: Side)

  /** One agent's vote. */
  datatype AgentSignal = AgentSignal(agentId: string, symbol: string, action: Action, confidence: real)

  /** The coordinator's output. */
  datatype TradeSignal = TradeSignal(
    symbol: string, action: Action, confidence: real, score: real, contributors: seq<AgentSignal>)

  function Min(a: int, b: int): int { if a <= b then a else b }

  function Max(a: int, b: int): int { if a >= b then a else b }

  /** The last `n` elements, or all of them if there are fewer. */
  function LastN<T>(xs: seq<T>, n: nat): (ys: seq<T>)
    ensures |ys| == Min(n, |xs|)
  {
    if n >= |xs| then xs else xs[|xs| - n..]
  }

  /** Python's `xs[-n:]`, which is the whole list for `n == 0` and drops a
      prefix for negative `n`. */
  function SliceFromEnd<T>(xs: seq<T>, n: int): seq<T> {
    if n > 0 then LastN(xs, n) else xs[Min(-n, |xs|)..]
  }

  function Prices(ticks: seq<Tick>): (ps: seq<real>)
    ensures |ps| == |ticks|
    ensures forall i :: 0 <= i < |ticks| ==> ps[i] == ticks[i].price
  {
    seq(|ticks|, i requires 0 <= i < |ticks| => ticks[i].price)
  }

  lemma LastNTwice<T>(xs: seq<T>, m: nat, n: nat)
    ensures LastN(LastN(xs, m), n) == LastN(xs, Min(m, n))
  {
  }

  lemma LastNSnoc<T>(xs: seq<T>, x: T, n: nat)
    requires n > 0
    ensures LastN(LastN(xs, n) + [x], n) == LastN(xs + [x], n)
  {
  }

  lemma PricesLastN(ticks: seq<Tick>, n: nat)
    ensures Prices(LastN(ticks, n)) == LastN(Prices(ticks), n)
  {
  }
}
