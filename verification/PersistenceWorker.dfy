/** src/infrastructure/persistence_worker.py: buffer ticks, write them in batches. */
module PersistenceWorker {
  import opened Models

  /** A parsed tick with the time it was read. */
  datatype Parsed = Parsed(tick: Tick, at: real)

  datatype Limits = Limits(threshold: nat, interval: real, bufferMax: nat) {
    /** What the constructor accepts. */
    predicate WellFormed() {
      1 <= threshold <= bufferMax && interval > 0.0
    }
  }

  /** One result of the bounded read: nothing in time, a tick, or an unparsable payload. */
  datatype Message = Silence | Delivered(tick: Tick) | Malformed

  datatype Store = Store(buffer: seq<Parsed>, inserted: nat, dropped: nat)

  const EMPTY := Store([], 0, 0)

  /** Append to the bounded deque; a full one evicts its oldest tick, which is counted. */
  function Enqueued(store: Store, p: Parsed, bufferMax: nat): Store {
    var full := |store.buffer| == bufferMax;
    store.(buffer := LastN(store.buffer + [p], bufferMax),
           dropped := store.dropped + if full then 1 else 0)
  }

  /** The counters after the repository answered for `batch`; it takes all rows or none. */
  function Counted(store: Store, batch: seq<Parsed>, ok: bool): Store {
    if ok then store.(inserted := store.inserted + |batch|) else store.(dropped := store.dropped + |batch|)
  }

  function AfterMessage(limits: Limits, store: Store, now: real, message: Message): Store {
    if message.Delivered? then Enqueued(store, Parsed(message.tick, now), limits.bufferMax) else store
  }

  /** Whether this iteration flushes: a message filled the buffer, or the interval is over. */
  predicate Flushes(limits: Limits, store: Store, lastFlush: real, now: real, message: Message) {
    && store.buffer != []
    && ((message != Silence && |store.buffer| >= limits.threshold) || now - lastFlush >= limits.interval)
  }

  datatype Pull = Pull(at: real, message: Message, ok: bool)

  datatype Session = Session(store: Store, lastFlush: real, handed: seq<seq<Parsed>>)

  /** One pass of the session loop. */
  function Iterated(limits: Limits, s: Session, pull: Pull): Session {
    var store := AfterMessage(limits, s.store, pull.at, pull.message);
    if Flushes(limits, store, s.lastFlush, pull.at, pull.message) then
      Session(Counted(store.(buffer := []), store.buffer, pull.ok), pull.at, s.handed + [store.buffer])
    else s.(store := store)
  }

  function Consumed(limits: Limits, s: Session, pulls: seq<Pull>): Session {
    if pulls == [] then s
    else Iterated(limits, Consumed(limits, s, pulls[..|pulls| - 1]), pulls[|pulls| - 1])
  }

  class PersistenceWorker {
    const limits: Limits
    var buffer: seq<Parsed>
    var ticksInserted: nat
    var ticksDropped: nat

    ghost function View(): Store
      reads this
    {
      Store(buffer, ticksInserted, ticksDropped)
    }

    constructor (limits: Limits)
      requires limits.WellFormed()
      ensures this.limits == limits && View() == EMPTY
    {
      this.limits := limits;
      buffer, ticksInserted, ticksDropped := [], 0, 0;
    }

    method EnqueueTick(message: Message, now: real)
      modifies this
      ensures View() == AfterMessage(limits, old(View()), now, message)
    {
      if !message.Delivered? {
        return;
      }
      var wasFull := |buffer| == limits.bufferMax;
      buffer := buffer + [Parsed(message.tick, now)];
      if |buffer| > limits.bufferMax {
        buffer := buffer[|buffer| - limits.bufferMax..];
      }
      if wasFull {
        ticksDropped := ticksDropped + 1;
      }
    }

    /** `ok` is the repository's answer; `batch` is what it was handed. */
    method FlushTicks(ok: bool) returns (batch: seq<Parsed>)
      modifies this
      ensures batch == old(buffer)
      ensures View() == Counted(old(View()).(buffer := []), batch, ok)
    {
      batch := [];
      if buffer == [] {
        return;
      }
      batch := buffer;
      buffer := [];
      var inserted := if ok then |batch| else 0;
      ticksInserted := ticksInserted + inserted;
      if inserted < |batch| {
        ticksDropped := ticksDropped + (|batch| - inserted);
      }
    }

    /** The session loop over the given pulls. */
    method ConsumeSession(start: real, pulls: seq<Pull>)
      returns (handed: seq<seq<Parsed>>, lastFlush: real)
      requires limits.WellFormed()
      modifies this
      ensures Session(View(), lastFlush, handed) == Consumed(limits, Session(old(View()), start, []), pulls)
    {
      handed, lastFlush := [], start;
      ghost var begin := Session(View(), start, []);
      for i := 0 to |pulls|
        invariant Session(View(), lastFlush, handed) == Consumed(limits, begin, pulls[..i])
      {
        assert pulls[..i + 1][..i] == pulls[..i];
        var now, message := pulls[i].at, pulls[i].message;
        if message != Silence {
          EnqueueTick(message, now);
          if |buffer| >= limits.threshold {
            var batch := FlushTicks(pulls[i].ok);
            handed, lastFlush := handed + [batch], now;
          }
        }
        if now - lastFlush >= limits.interval && buffer != [] {
          var batch := FlushTicks(pulls[i].ok);
          handed, lastFlush := handed + [batch], now;
        }
      }
      assert pulls[..|pulls|] == pulls;
    }

    /** Shutdown after the tasks are gone: the remaining buffer is written once. */
    method Drain(ok: bool) returns (batch: seq<Parsed>)
      modifies this
      ensures batch == old(buffer)
      ensures View() == Counted(old(View()).(buffer := []), batch, ok)
    {
      batch := FlushTicks(ok);
    }
  }
}
