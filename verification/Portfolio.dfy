/** src/domain/trading/portfolio.py: the long-only in-memory ledger. */
module Ledger {
  import opened Models

  datatype Fill = Fill(symbol: string, action: Action, quantity: int, ts: real)

  /** What `record_fill` accepts instead of raising. */
  predicate IsFill(fill: Fill) {
    fill.action != Hold && fill.quantity > 0
  }

  datatype Holdings = Holdings(positions: map<string, int>, lastTradeAt: map<string, real>) {
    function Of(symbol: string): int {
      if symbol in positions then positions[symbol] else 0
    }

    function After(fill: Fill): Holdings {
      var position :=
        if fill.action == Buy then Of(fill.symbol) + fill.quantity
        else Max(0, Of(fill.symbol) - fill.quantity);
      Holdings(positions[fill.symbol := position], lastTradeAt[fill.symbol := fill.ts])
    }
  }

  const EMPTY := Holdings(map[], map[])

  class Portfolio {
    var positions: map<string, int>
    var lastTradeAt: map<string, real>

    ghost function View(): Holdings
      reads this
    {
      Holdings(positions, lastTradeAt)
    }

    constructor ()
      ensures View() == EMPTY
    {
      positions, lastTradeAt := map[], map[];
    }

    method PositionOf(symbol: string) returns (shares: int)
      ensures shares == View().Of(symbol)
    {
      shares := if symbol in positions then positions[symbol] else 0;
    }

    /** `ok` is false where the source raises ValueError; then nothing changes. */
    method RecordFill(fill: Fill) returns (ok: bool)
      modifies this
      ensures ok <==> fill.action != Hold && fill.quantity > 0
      ensures View() == if ok then old(View()).After(fill) else old(View())
    {
      if fill.action == Hold || fill.quantity <= 0 {
        return false;
      }
      var current := PositionOf(fill.symbol);
      if fill.action == Buy {
        positions := positions[fill.symbol := current + fill.quantity];
      } else {
        positions := positions[fill.symbol := Max(0, current - fill.quantity)];
      }
      lastTradeAt := lastTradeAt[fill.symbol := fill.ts];
      return true;
    }
  }

  // ----- the ledger in closed form -----

  ghost predicate AllFills(fills: seq<Fill>) {
    forall f :: f in fills ==> IsFill(f)
  }

  /** The holdings after recording `fills` one by one. */
  function Replay(fills: seq<Fill>): Holdings {
    if fills == [] then EMPTY else Replay(fills[..|fills| - 1]).After(fills[|fills| - 1])
  }

  /** Shares bought minus shares sold, without any clamp. */
  function Net(fills: seq<Fill>, symbol: string): int {
    if fills == [] then 0
    else
      var last := fills[|fills| - 1];
      Net(fills[..|fills| - 1], symbol)
      + if last.symbol != symbol then 0 else if last.action == Buy then last.quantity else -last.quantity
  }

  /** The least net amount over all prefixes, the empty one included. */
  function Lowest(fills: seq<Fill>, symbol: string): int {
    if fills == [] then 0 else Min(Lowest(fills[..|fills| - 1], symbol), Net(fills, symbol))
  }

  /** `low` is a lower bound of the net amounts of all prefixes, and one of them. */
  ghost predicate IsLowest(low: int, fills: seq<Fill>, symbol: string) {
    && (forall j :: 0 <= j <= |fills| ==> low <= Net(fills[..j], symbol))
    && (exists j :: 0 <= j <= |fills| && low == Net(fills[..j], symbol))
  }

  lemma {:induction false} LowestBelow(fills: seq<Fill>, symbol: string, j: nat)
    requires j <= |fills|
    ensures Lowest(fills, symbol) <= Net(fills[..j], symbol)
  {
    if j == |fills| {
      assert fills[..j] == fills;
    } else {
      LowestBelow(fills[..|fills| - 1], symbol, j);
      assert fills[..|fills| - 1][..j] == fills[..j];
    }
  }

  lemma {:induction false} LowestReached(fills: seq<Fill>, symbol: string) returns (j: nat)
    ensures j <= |fills| && Lowest(fills, symbol) == Net(fills[..j], symbol)
  {
    var n := |fills|;
    if n == 0 || Lowest(fills, symbol) == Net(fills, symbol) {
      j := n;
      assert fills[..j] == fills;
    } else {
      j := LowestReached(fills[..n - 1], symbol);
      assert fills[..n - 1][..j] == fills[..j];
    }
  }

  lemma LowestIsLowest(fills: seq<Fill>, symbol: string)
    ensures IsLowest(Lowest(fills, symbol), fills, symbol)
  {
    forall j | 0 <= j <= |fills|
      ensures Lowest(fills, symbol) <= Net(fills[..j], symbol)
    {
      LowestBelow(fills, symbol, j);
    }
    var j := LowestReached(fills, symbol);
  }

  lemma {:induction false} PositionTracksClamp(fills: seq<Fill>, symbol: string)
    requires AllFills(fills)
    ensures Replay(fills).Of(symbol) == Net(fills, symbol) - Lowest(fills, symbol) >= 0
  {
    if fills != [] {
      assert fills[|fills| - 1] in fills;
      PositionTracksClamp(fills[..|fills| - 1], symbol);
    }
  }

  /** The long-only clamp in closed form: the position is the net amount measured from
      the lowest point the net amount ever reached. */
  lemma PositionClosedForm(fills: seq<Fill>, symbol: string, low: int)
    requires AllFills(fills) && IsLowest(low, fills, symbol)
    ensures Replay(fills).Of(symbol) == Net(fills, symbol) - low
  {
    PositionTracksClamp(fills, symbol);
    var i :| 0 <= i <= |fills| && low == Net(fills[..i], symbol);
    LowestBelow(fills, symbol, i);
    var j := LowestReached(fills, symbol);
  }

  /** So positions are never negative, never below the net amount, and equal to it
      exactly when no prefix oversold. */
  lemma PositionVersusNet(fills: seq<Fill>, symbol: string)
    requires AllFills(fills)
    ensures Replay(fills).Of(symbol) >= Max(0, Net(fills, symbol))
    ensures Replay(fills).Of(symbol) == Net(fills, symbol)
            <==> (forall j :: 0 <= j <= |fills| ==> Net(fills[..j], symbol) >= 0)
  {
    PositionTracksClamp(fills, symbol);
    LowestIsLowest(fills, symbol);
    assert Net(fills[..0], symbol) == 0;
  }

  /** The cooldown clock: the timestamp of the newest fill of the symbol. */
  lemma {:induction false} LastTradeIsNewestFill(fills: seq<Fill>, symbol: string)
    ensures symbol in Replay(fills).lastTradeAt <==> exists j :: 0 <= j < |fills| && fills[j].symbol == symbol
    ensures symbol in Replay(fills).lastTradeAt ==>
              exists j :: 0 <= j < |fills| && fills[j].symbol == symbol
                          && Replay(fills).lastTradeAt[symbol] == fills[j].ts
                          && forall i :: j < i < |fills| ==> fills[i].symbol != symbol
  {
    if fills != [] {
      var n, earlier := |fills|, fills[..|fills| - 1];
      LastTradeIsNewestFill(earlier, symbol);
      if fills[n - 1].symbol == symbol {
        assert Replay(fills).lastTradeAt[symbol] == fills[n - 1].ts;
      } else if symbol in Replay(earlier).lastTradeAt {
        var j :| 0 <= j < n - 1 && earlier[j].symbol == symbol
                 && Replay(earlier).lastTradeAt[symbol] == earlier[j].ts
                 && forall i :: j < i < n - 1 ==> earlier[i].symbol != symbol;
        assert fills[j].symbol == symbol;
        forall i | j < i < n
          ensures fills[i].symbol != symbol
        {
          if i < n - 1 { assert earlier[i] == fills[i]; }
        }
      }
    }
  }
}
