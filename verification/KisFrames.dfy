/** src/infrastructure/kis_client.py: execution frames from the vendor's socket to ticks. */
module KisFrames {
  import opened Models
  import opened TextSplit

  const FIELDS: nat := 46
  const FLD_SYMBOL: nat := 0
  const FLD_TIME: nat := 1
  const FLD_PRICE: nat := 2
  const FLD_VOLUME: nat := 12
  const FLD_SIDE: nat := 21
  const TR_ID_TICK := "H0STCNT0"

  datatype Decimal = Finite(x: real) | NaN | PlusInfinity | MinusInfinity

  /** The library conversions: `str.strip`, `int` and `decimal.Decimal`, None where they raise. */
  datatype Lib = Lib(
    strip: string -> string,
    parseInt: string -> Option<int>,
    parseDecimal: string -> Option<Decimal>)

  datatype RecordResult = Parsed(tick: Tick) | Skipped | Escapes

  function OrZero(s: string): string {
    if s == "" then "0" else s
  }

  /** Seconds after midnight for HHMMSS, None where `datetime.replace` or `int` raises. */
  function TimeOfDay(lib: Lib, hms: string): Option<int>
    requires |hms| == 6
  {
    var h, m, s := lib.parseInt(hms[0..2]), lib.parseInt(hms[2..4]), lib.parseInt(hms[4..6]);
    if h.Some? && m.Some? && s.Some? && 0 <= h.value < 24 && 0 <= m.value < 60 && 0 <= s.value < 60
    then Some(h.value * 3600 + m.value * 60 + s.value)
    else None
  }

  /** `_record_to_tick`.  An ordering comparison with NaN raises outside the guarded block, and
      the tick model refuses an infinite price there too: both leave the parser. */
  function RecordToTick(lib: Lib, midnight: real, record: seq<string>): RecordResult {
    if |record| <= FLD_SIDE then Skipped
    else
      var symbol, hms := lib.strip(record[FLD_SYMBOL]), lib.strip(record[FLD_TIME]);
      var price := lib.parseDecimal(OrZero(lib.strip(record[FLD_PRICE])));
      var volume := lib.parseInt(OrZero(lib.strip(record[FLD_VOLUME])));
      if price.None? || volume.None? then Skipped
      else if symbol == "" || |hms| != 6 then Skipped
      else if price.value.NaN? then Escapes
      else if price.value.MinusInfinity? || (price.value.Finite? && price.value.x <= 0.0) then Skipped
      else
        var time := TimeOfDay(lib, hms);
        if time.None? then Skipped
        else if price.value.PlusInfinity? then Escapes
        else
          var side := if lib.strip(record[FLD_SIDE]) == "5" then SellSide else BuySide;
          Parsed(Tick(symbol, midnight + time.value as real, price.value.x, volume.value, side))
  }

  datatype FrameResult = Ticks(ticks: seq<Tick>) | Raised

  function RecordAt(fields: seq<string>, i: nat): (record: seq<string>)
    requires (i + 1) * FIELDS <= |fields|
    ensures |record| == FIELDS
  {
    fields[i * FIELDS..(i + 1) * FIELDS]
  }

  /** The header's count, limited to the complete records that are there. */
  function RecordCount(fields: seq<string>, count: int): nat {
    if |fields| < count * FIELDS then |fields| / FIELDS else Max(0, count)
  }

  function Records(fields: seq<string>, n: nat): (records: seq<seq<string>>)
    requires n * FIELDS <= |fields|
    ensures |records| == n
    ensures forall i :: 0 <= i < n ==> records[i] == RecordAt(fields, i)
  {
    seq(n, i requires 0 <= i < n => RecordAt(fields, i))
  }

  type Parser = seq<string> -> RecordResult

  function RecordParser(lib: Lib, midnight: real): Parser {
    record => RecordToTick(lib, midnight, record)
  }

  /** In order, one record at a time. */
  function ParsedRecords(parse: Parser, records: seq<seq<string>>): FrameResult {
    if records == [] then Ticks([])
    else
      var earlier := ParsedRecords(parse, records[..|records| - 1]);
      if earlier.Raised? then Raised
      else
        match parse(records[|records| - 1])
        case Parsed(tick) => Ticks(earlier.ticks + [tick])
        case Skipped => earlier
        case Escapes => Raised
  }

  datatype Envelope = Unusable | Payload(fields: seq<string>, count: int)

  /** The header of a frame: anything but a well-formed execution frame yields no records. */
  function Opened(lib: Lib, frame: string): Envelope {
    var parts := SplitMax(frame, '|', 3);
    if |parts| != 4 then Unusable
    else
      var count := lib.parseInt(parts[2]);
      if count.None? || parts[1] != TR_ID_TICK then Unusable
      else Payload(Split(parts[3], '^'), count.value)
  }

  lemma RecordCountFits(fields: seq<string>, count: int)
    ensures RecordCount(fields, count) * FIELDS <= |fields|
    ensures RecordCount(fields, count) == Max(0, Min(count, |fields| / FIELDS))
  {
  }

  function ParsedFrame(lib: Lib, midnight: real, frame: string): FrameResult {
    match Opened(lib, frame)
    case Unusable => Ticks([])
    case Payload(fields, count) =>
      RecordCountFits(fields, count);
      ParsedRecords(RecordParser(lib, midnight), Records(fields, RecordCount(fields, count)))
  }

  /** The record loop, over the first `count` records. */
  method ParseRecords(parse: Parser, fields: seq<string>, count: int) returns (r: FrameResult)
    requires Max(0, count) * FIELDS <= |fields|
    ensures r == ParsedRecords(parse, Records(fields, Max(0, count)))
  {
    ghost var records := Records(fields, Max(0, count));
    var ticks: seq<Tick>, i := [], 0;
    while i < count
      invariant 0 <= i <= |records|
      invariant Ticks(ticks) == ParsedRecords(parse, records[..i])
    {
      assert (i + 1) * FIELDS <= count * FIELDS;
      assert records[..i + 1][..i] == records[..i];
      var record := fields[i * FIELDS..(i + 1) * FIELDS];
      assert record == records[i];
      match parse(record) {
        case Parsed(tick) => ticks := ticks + [tick];
        case Skipped =>
        case Escapes =>
          RaisedForGood(parse, records, i + 1);
          return Raised;
      }
      i := i + 1;
    }
    assert records[..|records|] == records;
    r := Ticks(ticks);
  }

  /** `_parse_h0stcnt0_frame`. */
  method ParseFrame(lib: Lib, midnight: real, frame: string) returns (r: FrameResult)
    ensures r == ParsedFrame(lib, midnight, frame)
  {
    var parts := SplitMax(frame, '|', 3);
    if |parts| != 4 {
      return Ticks([]);
    }
    var parsedCount := lib.parseInt(parts[2]);
    if parsedCount.None? || parts[1] != TR_ID_TICK {
      return Ticks([]);
    }
    var fields, count := Split(parts[3], '^'), parsedCount.value;
    RecordCountFits(fields, count);
    if |fields| < count * FIELDS {
      count := |fields| / FIELDS;
    }
    r := ParseRecords(RecordParser(lib, midnight), fields, count);
  }

  lemma {:induction false} RaisedForGood(parse: Parser, records: seq<seq<string>>, k: nat)
    requires k <= |records| && ParsedRecords(parse, records[..k]).Raised?
    ensures ParsedRecords(parse, records).Raised?
  {
    var n := |records|;
    if k == n {
      assert records[..n] == records;
    } else {
      assert records[..n - 1][..k] == records[..k];
      RaisedForGood(parse, records[..n - 1], k);
    }
  }

  // ----- what a frame yields -----

  /** The tick of one record, if any. */
  function TickOf(parse: Parser, record: seq<string>): seq<Tick> {
    var r := parse(record);
    if r.Parsed? then [r.tick] else []
  }

  function AllTicks(parse: Parser, records: seq<seq<string>>): seq<Tick> {
    if records == [] then []
    else AllTicks(parse, records[..|records| - 1]) + TickOf(parse, records[|records| - 1])
  }

  ghost predicate AnyEscapes(parse: Parser, records: seq<seq<string>>) {
    exists r :: r in records && parse(r).Escapes?
  }

  lemma AnyEscapesConcat(parse: Parser, a: seq<seq<string>>, b: seq<seq<string>>)
    ensures AnyEscapes(parse, a + b) <==> AnyEscapes(parse, a) || AnyEscapes(parse, b)
  {
    assert forall r :: r in a + b <==> r in a || r in b;
  }

  lemma OneRecord(parse: Parser, record: seq<string>)
    ensures AnyEscapes(parse, [record]) <==> parse(record).Escapes?
  {
    assert record in [record];
  }

  /** Unless a record's failure escapes, the parsed ticks are the per-record results, in order. */
  lemma {:induction false} RecordsAreIndependent(parse: Parser, records: seq<seq<string>>)
    ensures ParsedRecords(parse, records)
         == if AnyEscapes(parse, records) then Raised else Ticks(AllTicks(parse, records))
  {
    if records != [] {
      var n := |records| - 1;
      RecordsAreIndependent(parse, records[..n]);
      OneRecord(parse, records[n]);
      AnyEscapesConcat(parse, records[..n], [records[n]]);
      assert records == records[..n] + [records[n]];
    }
  }

  lemma AllTicksSnoc(parse: Parser, a: seq<seq<string>>, r: seq<string>)
    ensures AllTicks(parse, a + [r]) == AllTicks(parse, a) + TickOf(parse, r)
  {
    assert (a + [r])[..|a|] == a;
  }

  lemma {:induction false} AllTicksConcat(parse: Parser, a: seq<seq<string>>, b: seq<seq<string>>)
    ensures AllTicks(parse, a + b) == AllTicks(parse, a) + AllTicks(parse, b)
  {
    if b == [] {
      assert a + b == a;
    } else {
      var rest, last := b[..|b| - 1], b[|b| - 1];
      var x, y, z := AllTicks(parse, a), AllTicks(parse, rest), TickOf(parse, last);
      calc {
        AllTicks(parse, a + b);
        { assert a + b == (a + rest) + [last]; }
        AllTicks(parse, (a + rest) + [last]);
        { AllTicksSnoc(parse, a + rest, last); }
        AllTicks(parse, a + rest) + z;
        { AllTicksConcat(parse, a, rest); }
        (x + y) + z;
        x + (y + z);
        x + AllTicks(parse, b);
      }
    }
  }

  /** Leaving out an invalid record changes nothing else. */
  lemma SkippedRecordRemovesOnlyItself(
    parse: Parser, before: seq<seq<string>>, bad: seq<string>, after: seq<seq<string>>)
    requires parse(bad).Skipped?
    ensures ParsedRecords(parse, before + [bad] + after) == ParsedRecords(parse, before + after)
  {
    var full, rest := before + [bad] + after, before + after;
    assert AnyEscapes(parse, full) <==> AnyEscapes(parse, rest) by {
      OneRecord(parse, bad);
      AnyEscapesConcat(parse, before + [bad], after);
      AnyEscapesConcat(parse, before, [bad]);
      AnyEscapesConcat(parse, before, after);
    }
    assert AllTicks(parse, full) == AllTicks(parse, rest) by {
      AllTicksSnoc(parse, before, bad);
      AllTicksConcat(parse, before + [bad], after);
      AllTicksConcat(parse, before, after);
    }
    RecordsAreIndependent(parse, full);
    RecordsAreIndependent(parse, rest);
  }

  // ----- what one record yields -----

  /** The text shows this time of day, as HHMMSS. */
  ghost predicate ShowsTime(lib: Lib, hms: string, h: int, m: int, s: int) {
    && |hms| == 6
    && lib.parseInt(hms[0..2]) == Some(h) && lib.parseInt(hms[2..4]) == Some(m) && lib.parseInt(hms[4..6]) == Some(s)
    && 0 <= h < 24 && 0 <= m < 60 && 0 <= s < 60
  }

  ghost predicate IsTime(lib: Lib, hms: string) {
    exists h: int, m: int, s: int :: ShowsTime(lib, hms, h, m, s)
  }

  lemma TimeIsRead(lib: Lib, hms: string)
    requires |hms| == 6
    ensures TimeOfDay(lib, hms).Some? <==> IsTime(lib, hms)
    ensures forall h: int, m: int, s: int ::
              ShowsTime(lib, hms, h, m, s) ==> TimeOfDay(lib, hms) == Some(h * 3600 + m * 60 + s)
  {
    var h, m, s := lib.parseInt(hms[0..2]), lib.parseInt(hms[2..4]), lib.parseInt(hms[4..6]);
    if TimeOfDay(lib, hms).Some? { assert ShowsTime(lib, hms, h.value, m.value, s.value); }
  }

  /** A field's text without blanks; an empty number counts as zero. */
  ghost predicate ReadsNumber(lib: Lib, text: string, value: Option<int>) {
    value == lib.parseInt(if lib.strip(text) == "" then "0" else lib.strip(text))
  }

  ghost predicate ReadsPrice(lib: Lib, text: string, value: Option<Decimal>) {
    value == lib.parseDecimal(if lib.strip(text) == "" then "0" else lib.strip(text))
  }

  /** The record says this tick, field by field. */
  ghost predicate Says(lib: Lib, midnight: real, record: seq<string>, tick: Tick, h: int, m: int, s: int) {
    && |record| >= 22
    && lib.strip(record[0]) == tick.symbol != ""
    && ShowsTime(lib, lib.strip(record[1]), h, m, s) && tick.ts == midnight + (3600 * h + 60 * m + s) as real
    && ReadsPrice(lib, record[2], Some(Finite(tick.price))) && tick.price > 0.0
    && ReadsNumber(lib, record[12], Some(tick.volume))
    && (tick.side == SellSide <==> lib.strip(record[21]) == "5")
  }

  /** A record becomes a tick exactly if it says that tick: symbol, time, price, volume and side
      from the first, second, third, thirteenth and twenty-second field. */
  lemma RecordSaysTick(lib: Lib, midnight: real, record: seq<string>, tick: Tick)
    ensures RecordToTick(lib, midnight, record) == Parsed(tick)
            <==> exists h: int, m: int, s: int :: Says(lib, midnight, record, tick, h, m, s)
  {
    if |record| >= 22 {
      var hms := lib.strip(record[1]);
      if |hms| == 6 { TimeIsRead(lib, hms); }
      if RecordToTick(lib, midnight, record) == Parsed(tick) {
        var h: int, m: int, s: int :| ShowsTime(lib, hms, h, m, s);
        assert Says(lib, midnight, record, tick, h, m, s);
      }
      if h: int, m: int, s: int :| Says(lib, midnight, record, tick, h, m, s) {
        assert RecordToTick(lib, midnight, record) == Parsed(tick);
      }
    }
  }

  /** So hour, minute and second of a tick's timestamp are those of its text. */
  lemma TimestampShowsText(lib: Lib, midnight: real, record: seq<string>, tick: Tick)
    requires RecordToTick(lib, midnight, record) == Parsed(tick)
    ensures var hms, t := lib.strip(record[1]), (tick.ts - midnight).Floor;
            && |hms| == 6 && tick.ts - midnight == t as real
            && lib.parseInt(hms[0..2]) == Some(t / 3600)
            && lib.parseInt(hms[2..4]) == Some(t % 3600 / 60)
            && lib.parseInt(hms[4..6]) == Some(t % 60)
  {
    RecordSaysTick(lib, midnight, record, tick);
    var h: int, m: int, s: int :| Says(lib, midnight, record, tick, h, m, s);
    SplitSeconds(h, m, s);
    SecondsSinceMidnight(midnight, tick.ts, 3600 * h + 60 * m + s);
  }

  lemma SecondsSinceMidnight(midnight: real, ts: real, t: int)
    requires ts == midnight + t as real
    ensures (ts - midnight).Floor == t && ts - midnight == t as real
  {
    assert ts - midnight == t as real;
  }

  lemma SplitSeconds(h: int, m: int, s: int)
    requires 0 <= h && 0 <= m < 60 && 0 <= s < 60
    ensures var t := 3600 * h + 60 * m + s;
            t / 3600 == h && t % 3600 / 60 == m && t % 60 == s
  {
  }

  /** And of two records the one that shows the later time has the later timestamp. */
  lemma LaterTextLaterTick(
    lib: Lib, midnight: real, one: seq<string>, first: Tick, two: seq<string>, second: Tick,
    h: int, m: int, s: int, h': int, m': int, s': int)
    requires Says(lib, midnight, one, first, h, m, s) && Says(lib, midnight, two, second, h', m', s')
    ensures first.ts < second.ts <==> h < h' || (h == h' && (m < m' || (m == m' && s < s')))
  {
  }

  /** A record whose price is not a number, or infinite, in an otherwise usable record. */
  ghost predicate Rogue(lib: Lib, record: seq<string>) {
    && |record| >= 22
    && !ReadsNumber(lib, record[12], None)
    && lib.strip(record[0]) != ""
    && |lib.strip(record[1])| == 6
    && (ReadsPrice(lib, record[2], Some(NaN))
        || (ReadsPrice(lib, record[2], Some(PlusInfinity)) && IsTime(lib, lib.strip(record[1]))))
  }

  lemma OnlyRoguesEscape(lib: Lib, midnight: real, record: seq<string>)
    ensures RecordParser(lib, midnight)(record).Escapes? <==> Rogue(lib, record)
  {
    if |record| >= 22 {
      var hms, price := lib.strip(record[1]), lib.parseDecimal(OrZero(lib.strip(record[2])));
      var volume := lib.parseInt(OrZero(lib.strip(record[12])));
      if |hms| == 6 { TimeIsRead(lib, hms); }
      assert forall v: Option<int> :: ReadsNumber(lib, record[12], v) <==> v == volume;
      assert forall p: Option<Decimal> :: ReadsPrice(lib, record[2], p) <==> p == price;
      assert RecordToTick(lib, midnight, record).Escapes? <==> Rogue(lib, record);
    }
  }

  ghost predicate AnyRogue(lib: Lib, records: seq<seq<string>>) {
    exists r :: r in records && Rogue(lib, r)
  }

  /** The frame as a whole: of the first min(count, floor(fields/46)) records each yields its
      own tick or nothing, in order.  The promise that one bad record never breaks the batch
      fails exactly for rogue prices: then the whole frame, and the stream behind it, is lost. */
  lemma FrameYield(lib: Lib, midnight: real, frame: string)
    requires Opened(lib, frame).Payload?
    ensures var Payload(fields, count) := Opened(lib, frame);
            var n := Max(0, Min(count, |fields| / 46));
            && n * 46 <= |fields|
            && ParsedFrame(lib, midnight, frame)
               == if AnyRogue(lib, Records(fields, n)) then Raised
                  else Ticks(AllTicks(RecordParser(lib, midnight), Records(fields, n)))
  {
    var Payload(fields, count) := Opened(lib, frame);
    var parse := RecordParser(lib, midnight);
    RecordCountFits(fields, count);
    var records := Records(fields, RecordCount(fields, count));
    RecordsAreIndependent(parse, records);
    forall r: seq<string>
      ensures parse(r).Escapes? <==> Rogue(lib, r)
    {
      OnlyRoguesEscape(lib, midnight, r);
    }
  }

  /** Only the fields up to the trade side are ever read. */
  lemma LateFieldsAreIgnored(lib: Lib, midnight: real, some: seq<string>, others: seq<string>)
    requires |some| == |others| && forall i :: 0 <= i <= FLD_SIDE && i < |some| ==> some[i] == others[i]
    ensures RecordToTick(lib, midnight, some) == RecordToTick(lib, midnight, others)
  {
  }

  /** Complete records of a payload that was cut off agree with those of the whole, except
      perhaps in the 46th field of the last one. */
  lemma CutRecordAgrees(some: seq<string>, all: seq<string>, i: nat, j: nat)
    requires IsCut(some, all) && (i + 1) * FIELDS <= |some| && j < FIELDS - 1
    ensures RecordAt(some, i)[j] == RecordAt(all, i)[j]
  {
    var at := i * FIELDS + j;
    assert at < |some| - 1;
    assert some[..|some| - 1][at] == some[at] && all[..|some| - 1][at] == all[at];
  }

  lemma CutRecordParsesAlike(lib: Lib, midnight: real, some: seq<string>, all: seq<string>, i: nat)
    requires IsCut(some, all) && (i + 1) * FIELDS <= |some|
    ensures RecordToTick(lib, midnight, RecordAt(some, i)) == RecordToTick(lib, midnight, RecordAt(all, i))
  {
    forall j | 0 <= j <= FLD_SIDE
      ensures RecordAt(some, i)[j] == RecordAt(all, i)[j]
    {
      CutRecordAgrees(some, all, i, j);
    }
    LateFieldsAreIgnored(lib, midnight, RecordAt(some, i), RecordAt(all, i));
  }

  /** The two lists of records parse alike, one by one. */
  ghost predicate ParseAlike(parse: Parser, some: seq<seq<string>>, others: seq<seq<string>>) {
    |some| == |others| && forall i :: 0 <= i < |some| ==> parse(some[i]) == parse(others[i])
  }

  lemma {:induction false} AlikeYieldsAlike(parse: Parser, some: seq<seq<string>>, others: seq<seq<string>>)
    requires ParseAlike(parse, some, others)
    ensures ParsedRecords(parse, some) == ParsedRecords(parse, others)
  {
    if some != [] {
      var n := |some| - 1;
      assert parse(some[n]) == parse(others[n]);
      AlikeYieldsAlike(parse, some[..n], others[..n]);
    }
  }

  /** A result that stops earlier: the ticks are a prefix, and if it raises so does the other. */
  ghost predicate StopsEarlier(some: FrameResult, all: FrameResult) {
    if some.Raised? then all.Raised? else all.Raised? || some.ticks <= all.ticks
  }

  lemma {:induction false} FewerRecordsStopEarlier(parse: Parser, records: seq<seq<string>>, m: nat)
    requires m <= |records|
    ensures StopsEarlier(ParsedRecords(parse, records[..m]), ParsedRecords(parse, records))
  {
    if m < |records| {
      var earlier := records[..|records| - 1];
      FewerRecordsStopEarlier(parse, earlier, m);
      assert earlier[..m] == records[..m];
    } else {
      assert records[..m] == records;
    }
  }

  /** What a payload with its record count parses to. */
  function ParsedPayload(lib: Lib, midnight: real, payload: string, count: int): FrameResult {
    var fields := Split(payload, '^');
    RecordCountFits(fields, count);
    ParsedRecords(RecordParser(lib, midnight), Records(fields, RecordCount(fields, count)))
  }

  lemma CutRecordsParseAlike(lib: Lib, midnight: real, some: seq<string>, all: seq<string>, m: nat)
    requires IsCut(some, all) && m * FIELDS <= |some|
    ensures ParseAlike(RecordParser(lib, midnight), Records(some, m), Records(all, m))
  {
    forall i | 0 <= i < m
      ensures RecordToTick(lib, midnight, RecordAt(some, i)) == RecordToTick(lib, midnight, RecordAt(all, i))
    {
      assert (i + 1) * FIELDS <= m * FIELDS;
      CutRecordParsesAlike(lib, midnight, some, all, i);
    }
  }

  /** Cutting a payload off at any character, in the middle of a field or not, only removes
      trailing records: what is left parses as before. */
  lemma TruncationKeepsPrefix(lib: Lib, midnight: real, payload: string, count: int, k: nat)
    requires k <= |payload|
    ensures StopsEarlier(
              ParsedPayload(lib, midnight, payload[..k], count), ParsedPayload(lib, midnight, payload, count))
  {
    var some, all := Split(payload[..k], '^'), Split(payload, '^');
    var m, n := RecordCount(some, count), RecordCount(all, count);
    SplitOfPrefix(payload, '^', k);
    RecordCountFits(some, count);
    RecordCountFits(all, count);
    assert m <= n;
    CutRecordsParseAlike(lib, midnight, some, all, m);
    AlikeYieldsAlike(RecordParser(lib, midnight), Records(some, m), Records(all, m));
    assert Records(all, n)[..m] == Records(all, m);
    FewerRecordsStopEarlier(RecordParser(lib, midnight), Records(all, n), m);
  }

  // ----- round trip -----

  /** The texts for the five fields of a tick, and for the record count. */
  datatype Writer = Writer(
    symbol: Tick -> string, time: Tick -> string, price: Tick -> string, volume: Tick -> string,
    count: nat -> string,
    hour: Tick -> int, minute: Tick -> int, second: Tick -> int)   // what `time` is to show

  ghost predicate Clean(s: string) { '^' !in s && '|' !in s }

  /** The writer's texts are free of separators and the library reads them back. */
  ghost predicate ReadsBack(lib: Lib, w: Writer, midnight: real, tick: Tick) {
    && Clean(w.symbol(tick)) && Clean(w.time(tick)) && Clean(w.price(tick)) && Clean(w.volume(tick))
    && lib.strip(w.symbol(tick)) == tick.symbol != ""
    && ShowsTime(lib, lib.strip(w.time(tick)), w.hour(tick), w.minute(tick), w.second(tick))
    && tick.ts == midnight + (3600 * w.hour(tick) + 60 * w.minute(tick) + w.second(tick)) as real
    && ReadsPrice(lib, w.price(tick), Some(Finite(tick.price))) && tick.price > 0.0
    && ReadsNumber(lib, w.volume(tick), Some(tick.volume))
    && lib.strip("5") == "5" && lib.strip("1") == "1"
  }

  function Rendered(w: Writer, tick: Tick): (record: seq<string>)
    ensures |record| == 46
  {
    seq(46, i requires 0 <= i < 46 =>
      if i == 0 then w.symbol(tick)
      else if i == 1 then w.time(tick)
      else if i == 2 then w.price(tick)
      else if i == 12 then w.volume(tick)
      else if i == 21 then (if tick.side == SellSide then "5" else "1")
      else "0")
  }

  function RenderedFields(w: Writer, ticks: seq<Tick>): (fields: seq<string>)
    ensures |fields| == |ticks| * 46
  {
    if ticks == [] then []
    else RenderedFields(w, ticks[..|ticks| - 1]) + Rendered(w, ticks[|ticks| - 1])
  }

  function RenderedFrame(w: Writer, ticks: seq<Tick>): string {
    Headed(["0", "H0STCNT0", w.count(|ticks|)], Join(RenderedFields(w, ticks), '^'), '|')
  }

  lemma RenderedRecordParses(lib: Lib, w: Writer, midnight: real, tick: Tick)
    requires ReadsBack(lib, w, midnight, tick)
    ensures RecordToTick(lib, midnight, Rendered(w, tick)) == Parsed(tick)
    ensures forall f :: f in Rendered(w, tick) ==> Clean(f)
  {
    var record := Rendered(w, tick);
    assert record[21] == if tick.side == SellSide then "5" else "1";
    assert Says(lib, midnight, record, tick, w.hour(tick), w.minute(tick), w.second(tick));
    RecordSaysTick(lib, midnight, record, tick);
  }

  /** One more record at the end of the fields is one more record. */
  lemma RecordsSnoc(head: seq<string>, record: seq<string>, n: nat)
    requires |head| == n * FIELDS && |record| == FIELDS
    ensures Records(head + record, n + 1) == Records(head, n) + [record]
  {
    var fields := head + record;
    forall i | 0 <= i < n
      ensures RecordAt(fields, i) == RecordAt(head, i)
    {
      assert (i + 1) * FIELDS <= n * FIELDS;
    }
    assert RecordAt(fields, n) == record;
  }

  lemma OneMoreParsed(parse: Parser, records: seq<seq<string>>, record: seq<string>, ticks: seq<Tick>, t: Tick)
    requires ParsedRecords(parse, records) == Ticks(ticks) && parse(record) == Parsed(t)
    ensures ParsedRecords(parse, records + [record]) == Ticks(ticks + [t])
  {
    assert (records + [record])[..|records|] == records;
  }

  lemma {:induction false} RenderedFieldsParse(parse: Parser, w: Writer, ticks: seq<Tick>)
    requires forall t :: t in ticks ==> parse(Rendered(w, t)) == Parsed(t)
    ensures ParsedRecords(parse, Records(RenderedFields(w, ticks), |ticks|)) == Ticks(ticks)
  {
    if ticks != [] {
      var n := |ticks| - 1;
      var earlier, last := ticks[..n], ticks[n];
      var head, record := RenderedFields(w, earlier), Rendered(w, last);
      assert last in ticks;
      calc {
        ParsedRecords(parse, Records(RenderedFields(w, ticks), n + 1));
        ParsedRecords(parse, Records(head + record, n + 1));
        { RecordsSnoc(head, record, n); }
        ParsedRecords(parse, Records(head, n) + [record]);
        { RenderedFieldsParse(parse, w, earlier); OneMoreParsed(parse, Records(head, n), record, earlier, last); }
        Ticks(earlier + [last]);
        { assert earlier + [last] == ticks; }
        Ticks(ticks);
      }
    }
  }

  lemma {:induction false} RenderedFieldsAreClean(lib: Lib, w: Writer, midnight: real, ticks: seq<Tick>)
    requires forall t :: t in ticks ==> ReadsBack(lib, w, midnight, t)
    ensures forall f :: f in RenderedFields(w, ticks) ==> Clean(f)
  {
    if ticks != [] {
      RenderedFieldsAreClean(lib, w, midnight, ticks[..|ticks| - 1]);
      RenderedRecordParses(lib, w, midnight, ticks[|ticks| - 1]);
    }
  }

  /** Parsing the frame rendered for any list of valid ticks returns that list. */
  lemma FrameRoundTrip(lib: Lib, w: Writer, midnight: real, ticks: seq<Tick>)
    requires forall t :: t in ticks ==> ReadsBack(lib, w, midnight, t)
    requires Clean(w.count(|ticks|)) && lib.parseInt(w.count(|ticks|)) == Some(|ticks|)
    ensures ParsedFrame(lib, midnight, RenderedFrame(w, ticks)) == Ticks(ticks)
  {
    var fields := RenderedFields(w, ticks);
    EnvelopeReads(lib, w.count(|ticks|), Join(fields, '^'), |ticks|);
    if ticks != [] {
      FieldsRoundTrip(lib, w, midnight, ticks);
    }
  }

  lemma FieldsRoundTrip(lib: Lib, w: Writer, midnight: real, ticks: seq<Tick>)
    requires ticks != [] && forall t :: t in ticks ==> ReadsBack(lib, w, midnight, t)
    ensures var fields := Split(Join(RenderedFields(w, ticks), '^'), '^');
            && RecordCount(fields, |ticks|) == |ticks| && |ticks| * FIELDS <= |fields|
            && ParsedRecords(RecordParser(lib, midnight), Records(fields, |ticks|)) == Ticks(ticks)
  {
    var fields := RenderedFields(w, ticks);
    var parse := RecordParser(lib, midnight);
    forall t | t in ticks
      ensures parse(Rendered(w, t)) == Parsed(t)
    {
      RenderedRecordParses(lib, w, midnight, t);
    }
    RenderedFieldsParse(parse, w, ticks);
    RenderedFieldsAreClean(lib, w, midnight, ticks);
    SplitJoin(fields, '^');
    RecordCountFits(fields, |ticks|);
  }

  lemma EnvelopeReads(lib: Lib, count: string, payload: string, n: int)
    requires '|' !in count && lib.parseInt(count) == Some(n)
    ensures Opened(lib, Headed(["0", "H0STCNT0", count], payload, '|')) == Payload(Split(payload, '^'), n)
  {
    HeaderIsRead(lib, "0", "H0STCNT0", count, payload);
  }

  lemma HeaderIsRead(lib: Lib, flag: string, id: string, count: string, payload: string)
    requires '|' !in flag && '|' !in id && '|' !in count
    ensures Opened(lib, Headed([flag, id, count], payload, '|'))
            == if id == TR_ID_TICK && lib.parseInt(count).Some?
               then Payload(Split(payload, '^'), lib.parseInt(count).value) else Unusable
  {
    SplitMaxHeaded([flag, id, count], payload, '|');
  }

  // ----- other frames -----

  /** A frame with another channel id, or a count that is no number, yields nothing... */
  lemma OtherFramesAreIgnored(lib: Lib, midnight: real, flag: string, id: string, count: string, payload: string)
    requires '|' !in flag && '|' !in id && '|' !in count
    requires id != "H0STCNT0" || lib.parseInt(count).None?
    ensures ParsedFrame(lib, midnight, Headed([flag, id, count], payload, '|')) == Ticks([])
  {
    HeaderIsRead(lib, flag, id, count, payload);
  }

  /** ... and so does one with fewer than three bars. */
  lemma ShortFramesAreIgnored(lib: Lib, midnight: real, parts: seq<string>)
    requires 1 <= |parts| <= 3 && forall p :: p in parts ==> '|' !in p
    ensures ParsedFrame(lib, midnight, Join(parts, '|')) == Ticks([])
  {
    FewPartsSplit(parts);
    FewPartsYieldNothing(lib, midnight, Join(parts, '|'));
  }

  lemma FewPartsSplit(parts: seq<string>)
    requires 1 <= |parts| <= 3 && forall p :: p in parts ==> '|' !in p
    ensures |SplitMax(Join(parts, '|'), '|', 3)| < 4
  {
    if parts == [parts[0]] {
      OnePart(parts[0]);
    } else if |parts| == 2 {
      assert parts == [parts[0], parts[1]];
      TwoParts(parts[0], parts[1]);
    } else {
      assert parts == [parts[0], parts[1], parts[2]];
      ThreeParts(parts[0], parts[1], parts[2]);
    }
  }

  lemma FewPartsYieldNothing(lib: Lib, midnight: real, frame: string)
    requires |SplitMax(frame, '|', 3)| < 4
    ensures ParsedFrame(lib, midnight, frame) == Ticks([])
  {
  }

  lemma OnePart(a: string)
    requires '|' !in a
    ensures SplitMax(Join([a], '|'), '|', 3) == [a]
  {
    IndexOfClean(a, '|');
  }

  lemma TwoParts(a: string, b: string)
    requires '|' !in a && '|' !in b
    ensures SplitMax(Join([a, b], '|'), '|', 3) == [a, b]
  {
    assert [a, b][1..] == [b] && [a][1..] == [];
    assert Headed([a], b, '|') == a + ['|'] + b;
    IndexAfterClean(a, b, '|');
    IndexOfClean(b, '|');
    assert (a + ['|'] + b)[..|a|] == a && (a + ['|'] + b)[|a| + 1..] == b;
  }

  lemma ThreeParts(a: string, b: string, c: string)
    requires '|' !in a && '|' !in b && '|' !in c
    ensures SplitMax(Join([a, b, c], '|'), '|', 3) == [a, b, c]
  {
    var rest := b + ['|'] + c;
    assert [a, b, c][1..] == [b, c] && [b, c][1..] == [c];
    assert Join([b, c], '|') == rest && Join([a, b, c], '|') == a + ['|'] + rest;
    IndexAfterClean(a, rest, '|');
    IndexAfterClean(b, c, '|');
    IndexOfClean(c, '|');
    assert (a + ['|'] + rest)[..|a|] == a && (a + ['|'] + rest)[|a| + 1..] == rest;
    assert rest[..|b|] == b && rest[|b| + 1..] == c;
  }

  // ----- a rogue price -----

  /** A frame of two records: the one rendered for `tick`, and the same with another price text. */
  function FrameWithBadPrice(w: Writer, tick: Tick, price: string): string {
    var record := Rendered(w, tick);
    Headed(["0", "H0STCNT0", w.count(2)], Join(record + record[2 := price], '^'), '|')
  }

  lemma RogueRecordEscapes(lib: Lib, w: Writer, midnight: real, tick: Tick, price: string)
    requires ReadsBack(lib, w, midnight, tick)
    requires ReadsPrice(lib, price, Some(NaN)) || ReadsPrice(lib, price, Some(PlusInfinity))
    ensures RecordToTick(lib, midnight, Rendered(w, tick)[2 := price]).Escapes?
  {
    var bad := Rendered(w, tick)[2 := price];
    assert ShowsTime(lib, lib.strip(bad[1]), w.hour(tick), w.minute(tick), w.second(tick));
    assert ReadsNumber(lib, bad[12], Some(tick.volume));
    OnlyRoguesEscape(lib, midnight, bad);
  }

  lemma TwoRecords(parse: Parser, good: seq<string>, bad: seq<string>, tick: Tick)
    requires parse(good) == Parsed(tick) && parse(bad).Escapes?
    ensures ParsedRecords(parse, [good, bad]).Raised?
  {
    assert [good, bad][..1] == [good] && [good][..0] == [];
    assert ParsedRecords(parse, [good]) == Ticks([tick]);
  }

  lemma RecordsOfTwo(good: seq<string>, bad: seq<string>)
    requires |good| == 46 && |bad| == 46
    ensures Records(good + bad, 2) == [good, bad]
  {
    assert RecordAt(good + bad, 0) == good && RecordAt(good + bad, 1) == bad;
  }

  lemma BothAreClean(good: seq<string>, price: string)
    requires |good| == 46 && Clean(price) && forall f :: f in good ==> Clean(f)
    ensures forall f :: f in good + good[2 := price] ==> '^' !in f
  {
    var bad := good[2 := price];
    forall i | 0 <= i < 46
      ensures Clean(bad[i])
    {
      if i != 2 { assert good[i] in good; }
    }
  }

  /** One good record and one with a rogue price: the good tick is lost with the frame. */
  lemma RogueSpoilsFrame(lib: Lib, w: Writer, midnight: real, tick: Tick, price: string)
    requires ReadsBack(lib, w, midnight, tick) && Clean(price)
    requires ReadsPrice(lib, price, Some(NaN)) || ReadsPrice(lib, price, Some(PlusInfinity))
    requires Clean(w.count(2)) && lib.parseInt(w.count(2)) == Some(2)
    ensures RecordToTick(lib, midnight, Rendered(w, tick)) == Parsed(tick)
    ensures ParsedFrame(lib, midnight, FrameWithBadPrice(w, tick, price)) == Raised
  {
    var good := Rendered(w, tick);
    var bad := good[2 := price];
    var fields := good + bad;
    RenderedRecordParses(lib, w, midnight, tick);
    BothAreClean(good, price);
    SplitJoin(fields, '^');
    EnvelopeReads(lib, w.count(2), Join(fields, '^'), 2);
    RogueRecordEscapes(lib, w, midnight, tick, price);
    RecordsOfTwo(good, bad);
    TwoRecords(RecordParser(lib, midnight), good, bad, tick);
  }

  /** Enough of the library to read one frame. */
  const SMALL_LIB := Lib(
    s => s,
    s => if s == "09" then Some(9) else if s == "15" then Some(15) else if s == "30" then Some(30)
         else if s == "1" then Some(1) else if s == "2" then Some(2) else None,
    s => if s == "100" then Some(Finite(100.0)) else if s == "NaN" then Some(NaN) else None)

  const SMALL_WRITER := Writer(
    t => "A", t => "091530", t => "100", t => "1", n => "2", t => 9, t => 15, t => 30)

  /** Which happens, for a tick at a quarter past nine and thirty seconds. */
  lemma NaNLosesFrame()
    ensures var tick := Tick("A", 33330.0, 100.0, 1, BuySide);
            && RecordToTick(SMALL_LIB, 0.0, Rendered(SMALL_WRITER, tick)) == Parsed(tick)
            && ParsedFrame(SMALL_LIB, 0.0, FrameWithBadPrice(SMALL_WRITER, tick, "NaN")) == Raised
  {
    var tick := Tick("A", 33330.0, 100.0, 1, BuySide);
    assert "091530"[0..2] == "09" && "091530"[2..4] == "15" && "091530"[4..6] == "30";
    RogueSpoilsFrame(SMALL_LIB, SMALL_WRITER, 0.0, tick, "NaN");
  }
}
