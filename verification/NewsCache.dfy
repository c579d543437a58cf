/** src/infrastructure/news_provider.py: the TTL cache with a lock per symbol. */
module NewsCache {
  import opened Models

  datatype Entry = Entry(headlines: seq<string>, fetchedAt: real)

  /** How an inner fetch ends; a raised exception counts as an empty answer. */
  datatype Answer = Headlines(items: seq<string>) | Raised {
    function Items(): seq<string> {
      if Raised? then [] else items
    }
  }

  predicate Fresh(entry: Entry, now: real, ttl: real) {
    now - entry.fetchedAt < ttl
  }

  function Find(cache: map<string, Entry>, symbol: string): Option<Entry> {
    if symbol in cache then Some(cache[symbol]) else None
  }

  predicate Hit(cache: map<string, Entry>, symbol: string, now: real, ttl: real) {
    symbol in cache && Fresh(cache[symbol], now, ttl)
  }

  /** What a completed fetch leaves in the cache: the answer, or the old headlines when the
      answer is empty and there are some. */
  function Merged(entry: Option<Entry>, answer: Answer): seq<string> {
    if answer.Items() == [] && entry.Some? && entry.value.headlines != [] then entry.value.headlines
    else answer.Items()
  }

  /** The object's fields; `locked` holds the symbols whose lock is taken. */
  datatype Memory = Memory(cache: map<string, Entry>, locked: set<string>, hits: nat, misses: nat)

  const BLANK := Memory(map[], {}, 0, 0)

  function Peeked(m: Memory, symbol: string, now: real, ttl: real): Memory {
    if Hit(m.cache, symbol, now, ttl) then m.(hits := m.hits + 1) else m
  }

  function Entered(m: Memory, symbol: string, now: real, ttl: real): Memory {
    if Hit(m.cache, symbol, now, ttl) then m.(hits := m.hits + 1)
    else m.(locked := m.locked + {symbol}, misses := m.misses + 1)
  }

  function Filled(m: Memory, symbol: string, headlines: seq<string>, now: real): Memory {
    m.(cache := m.cache[symbol := Entry(headlines, now)], locked := m.locked - {symbol})
  }

  class CachingNewsProvider {
    const ttl: real
    var cache: map<string, Entry>
    var locked: set<string>
    var hitCount: nat
    var missCount: nat

    ghost function View(): Memory
      reads this
    {
      Memory(cache, locked, hitCount, missCount)
    }

    constructor (ttl: real)
      requires ttl > 0.0
      ensures this.ttl == ttl && View() == BLANK
    {
      this.ttl := ttl;
      cache, locked, hitCount, missCount := map[], {}, 0, 0;
    }

    /** The fast path, without the lock. */
    method Peek(symbol: string, now: real) returns (r: Option<seq<string>>)
      modifies this
      ensures View() == Peeked(old(View()), symbol, now, ttl)
      ensures r == if Hit(old(cache), symbol, now, ttl) then Some(old(cache)[symbol].headlines) else None
    {
      r := None;
      if symbol in cache && now - cache[symbol].fetchedAt < ttl {
        hitCount := hitCount + 1;
        r := Some(cache[symbol].headlines);
      }
    }

    /** From the acquisition of the lock to the inner fetch, or to a hit after all.  On a miss
        the lock stays held and `entry` is what a later empty answer may fall back on. */
    method EnterLock(symbol: string, now: real) returns (r: Option<seq<string>>, entry: Option<Entry>)
      requires symbol !in locked
      modifies this
      ensures View() == Entered(old(View()), symbol, now, ttl)
      ensures r == if Hit(old(cache), symbol, now, ttl) then Some(old(cache)[symbol].headlines) else None
      ensures entry == Find(old(cache), symbol)
    {
      entry := if symbol in cache then Some(cache[symbol]) else None;
      if entry.Some? && Fresh(entry.value, now, ttl) {
        hitCount := hitCount + 1;
        return Some(entry.value.headlines), entry;
      }
      locked := locked + {symbol};
      missCount := missCount + 1;
      r := None;
    }

    /** From the end of the inner fetch to the release of the lock. */
    method Complete(symbol: string, entry: Option<Entry>, answer: Answer, now: real) returns (r: seq<string>)
      requires symbol in locked
      modifies this
      ensures r == Merged(entry, answer)
      ensures View() == Filled(old(View()), symbol, r, now)
    {
      var headlines := answer.Items();
      if headlines == [] && entry.Some? && entry.value.headlines != [] {
        headlines := entry.value.headlines;
      }
      cache := cache[symbol := Entry(headlines, now)];
      locked := locked - {symbol};
      r := headlines;
    }
  }
}
