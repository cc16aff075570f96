/**
 * How the parts fit together: a reading the fetch job writes is one the
 * readings API returns, and the interval the dashboard asks for meets (or,
 * for spans of two days, fails) the API's constraint table.
 */
module Consistency {
  import opened Wrappers
  import opened Text
  import opened Clock
  import opened Records
  import Fetch
  import opened CommonUtils
  import opened GetReadings
  import App

  /** The epoch seconds of a reading's timestamp. */
  function EpochOf(data: Record): int
    requires Fetch.IsReading(data)
  {
    data["timestamp"].at.epoch
  }

  /**
   * A written reading passes the key condition and the minute filter of any
   * query whose range holds its timestamp and whose interval divides its minute.
   */
  lemma WrittenReadingIsAdmitted(data: Record, lo: int, hi: int, interval: int)
    requires Fetch.IsReading(data) && "timestamp" in data && "minute" !in data
    requires lo <= EpochOf(data) <= hi
    requires interval != 0 && UtcMinute(EpochOf(data)) % interval == 0
    ensures Admits(Fetch.ItemOf(data), lo, hi, MinuteList(interval))
  {
    var item := Fetch.ItemOf(data);
    var minute := UtcMinute(EpochOf(data));
    assert item["minute"] == Num(minute as real);
    assert (minute as real).Floor == minute;
  }

  /**
   * Write then read: a reading `create_item` turned into an item, stored in
   * the partition of its UTC date, comes back from a successful readings
   * fetch over a range that holds it, translated to its own values.
   */
  lemma WrittenReadingIsReturned(table: Table, data: Record, q: QueryParameters, interval: int)
    requires Fetch.IsReading(data) && HasFiniteMeasurements(data)
    requires "date" !in data && "minute" !in data
    requires Fetch.ItemOf(data) in Partition(table, UtcDay(EpochOf(data)))
    requires q.from <= EpochOf(data) <= q.to
    requires interval != 0 && UtcMinute(EpochOf(data)) % interval == 0
    requires FetchFor(table, q, interval).Ok?
    ensures TranslateItem(Fetch.ItemOf(data)).Ok?
    ensures TranslateItem(Fetch.ItemOf(data)).value in FetchFor(table, q, interval).value
  {
    var day := UtcDay(EpochOf(data));
    TranslateWrittenItem(data);
    WrittenReadingIsAdmitted(data, q.from, q.to, interval);
    UtcDayMonotone(q.from, EpochOf(data));
    UtcDayMonotone(EpochOf(data), q.to);
    ItemOfQueriedDayIsFetched(table, q, interval, day, Fetch.ItemOf(data));
  }

  /** An admitted item of any date partition the query covers is among the fetched readings. */
  lemma ItemOfQueriedDayIsFetched(table: Table, q: QueryParameters, interval: int, day: int, item: Item)
    requires interval != 0
    requires UtcDay(q.from) <= day <= UtcDay(q.to)
    requires item in Partition(table, day) && Admits(item, q.from, q.to, MinuteList(interval))
    requires FetchFor(table, q, interval).Ok?
    ensures TranslateItem(item).Ok?
    ensures TranslateItem(item).value in FetchFor(table, q, interval).value
  {
    var minutes := MinuteList(interval);
    var first, end := UtcDay(q.from), UtcDay(q.to) + 1;
    assert FetchFor(table, q, interval) == FetchRange(table, first, end, q.from, q.to, minutes);
    ItemOfDayIsFetched(table, first, day, end, q.from, q.to, minutes, item);
  }

  lemma ItemOfDayIsFetched(
    table: Table, firstDay: int, day: int, endDay: int, lo: int, hi: int, minutes: seq<int>, item: Item)
    requires firstDay <= day < endDay
    requires item in Partition(table, day) && Admits(item, lo, hi, minutes)
    requires FetchRange(table, firstDay, endDay, lo, hi, minutes).Ok?
    ensures TranslateItem(item).Ok?
    ensures TranslateItem(item).value in FetchRange(table, firstDay, endDay, lo, hi, minutes).value
  {
    FetchRangeHoldsEachDay(table, firstDay, day, endDay, lo, hi, minutes);
    AdmittedItemIsRead(table, day, lo, hi, minutes, item);
    var before := FetchRange(table, firstDay, day, lo, hi, minutes).value;
    var mid := DayReadings(table, day, lo, hi, minutes).value;
    var after := FetchRange(table, day + 1, endDay, lo, hi, minutes).value;
    InMiddle(before, mid, after, TranslateItem(item).value);
  }

  lemma InMiddle<T>(before: seq<T>, mid: seq<T>, after: seq<T>, x: T)
    requires x in mid
    ensures x in before + mid + after
  {
    var i :| 0 <= i < |mid| && mid[i] == x;
    assert (before + mid + after)[|before| + i] == x;
  }

  /** An admitted item of a partition whose query reads successfully is among that day's readings. */
  lemma AdmittedItemIsRead(table: Table, day: int, lo: int, hi: int, minutes: seq<int>, item: Item)
    requires item in Partition(table, day) && Admits(item, lo, hi, minutes)
    requires DayReadings(table, day, lo, hi, minutes).Ok?
    ensures TranslateItem(item).Ok?
    ensures TranslateItem(item).value in DayReadings(table, day, lo, hi, minutes).value
  {
    var items := QueryPartition(table, day, lo, hi, minutes);
    assert item in items;
    var i :| 0 <= i < |items| && items[i] == item;
    var readings := DayReadings(table, day, lo, hi, minutes);
    assert TranslateAll(items) == readings;
    assert TranslateItem(items[i]) == Ok(readings.value[i]);
  }

  /** The interval argument the server sees for the interval the client computed. */
  function ClientArg(interval: int): (arg: IntervalArg)
    ensures arg.Omitted? <==> interval == 0
    ensures arg.Minutes? ==> arg.n == interval
  {
    if interval == 0 then Omitted else Minutes(interval)
  }

  /**
   * The query parameters the readings URL carries, as the server receives
   * them: one entry per `key=value` field of the query string.
   */
  function ClientParameters(fromText: string, toText: string, interval: int): (p: map<string, string>)
    ensures |p.Keys| == |App.QueryFields(fromText, toText, interval)|
    ensures forall k :: k in p ==> k + "=" + p[k] in App.QueryFields(fromText, toText, interval)
  {
    var fields := App.QueryFields(fromText, toText, interval);
    assert fields[0] == "from_timestamp" + "=" + fromText;
    assert fields[1] == "to_timestamp" + "=" + toText;
    var base := map["from_timestamp" := fromText, "to_timestamp" := toText];
    assert |base.Keys| == 2 by {
      assert base.Keys == {"from_timestamp", "to_timestamp"};
    }
    if interval == 0 then base
    else
      var p := base["interval" := IntToString(interval)];
      assert fields[2] == "interval" + "=" + IntToString(interval);
      assert p.Keys == base.Keys + {"interval"};
      p
  }

  /**
   * For every span the client can request, the server parses back exactly
   * the client's timestamps and interval and applies its constraint table to them.
   */
  lemma ServerParsesClientRequest(
    from: int, to: int, fromText: string, toText: string, fromIsoFormat: string -> Option<int>)
    requires to - from <= App.LongestSpan
    requires fromIsoFormat(StripAllTrailing(fromText, 'Z')) == Some(from)
    requires fromIsoFormat(StripAllTrailing(toText, 'Z')) == Some(to)
    ensures var interval := App.ClientInterval(to - from);
            var r := ParseQueryParameters(ClientParameters(fromText, toText, interval), fromIsoFormat);
            && (r.Ok? <==> ValidateQueryParameters(from, to, ClientArg(interval)).Pass?)
            && (r.Ok? ==> r.value == QueryParameters(from, to, ClientArg(interval)))
            && (r.Err? ==> ValidateQueryParameters(from, to, ClientArg(interval)) == Fail(r.message))
  {
    var interval := App.ClientInterval(to - from);
    var p := ClientParameters(fromText, toText, interval);
    if interval != 0 {
      var s := IntToString(interval);
      assert p["interval"] == s;
      assert s != "" by {
        assert IsDigit(s[|s| - 1]);
      }
      ParseIntOfIntToString(interval);
      assert IntervalArgOf(p) == Ok(Minutes(interval));
    } else {
      assert IntervalArgOf(p) == Ok(Omitted);
    }
  }

  /** Spans under two days: the client's interval, or its absence, is accepted. */
  lemma ShortClientSpanAccepted(from: int, to: int)
    requires 0 <= to - from < 2 * SecondsPerDay
    ensures App.ClientInterval(to - from) >= 0
    ensures ValidateQueryParameters(from, to, ClientArg(App.ClientInterval(to - from))) == Pass
  {
    if to - from > 0 {
      App.PositiveSpanGivesLeastDivisor(to - from);
    } else {
      App.ZeroSpanGivesZero();
    }
    ShortSpanAccepted(from, to, ClientArg(App.ClientInterval(to - from)));
  }

  /**
   * Spans of two whole days: the client asks for 4, 5 or 6 minutes, and the
   * server rejects the request because a span over one day needs at least 10.
   */
  lemma TwoDayClientSpanRejected(from: int, to: int)
    requires 2 * SecondsPerDay <= to - from < 3 * SecondsPerDay
    ensures 4 <= App.ClientInterval(to - from) <= 6
    ensures ValidateQueryParameters(from, to, ClientArg(App.ClientInterval(to - from))) == Fail(SpanMessage(1, 10))
  {
    var start := App.StartMinutes(to - from);
    assert 4 <= start <= 6;
    assert App.ClientInterval(to - from) == start by {
      assert !App.KeepsLooking(start);
    }
    FirstViolatedPairNamed(from, to, start, 0);
  }

  /**
   * A client range inverted by at least half a day asks for a negative
   * interval (-1 for less than a day, -2, -4, ... beyond), which the server
   * rejects as non-positive.
   */
  lemma InvertedClientRangeRejected(from: int, to: int)
    requires to - from <= -App.SecondsPerSampleMinute
    ensures App.ClientInterval(to - from) < 0
    ensures -SecondsPerDay < to - from ==> App.ClientInterval(to - from) == -1
    ensures ValidateQueryParameters(from, to, ClientArg(App.ClientInterval(to - from))) == Fail(NonPositiveMessage)
  {
    assert App.StartMinutes(to - from) <= -1;
    assert !App.KeepsLooking(-1);
    assert App.ClientInterval(to - from) <= -1;
  }
}
