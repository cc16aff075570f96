/**
 * The dashboard component (web/src/App.js): the sampling interval the client
 * asks for, the readings URL, the time-series extraction and the state
 * changes when a range is applied and its readings arrive.
 */
module App {
  import opened Wrappers
  import opened Text
  import opened Records

  /** The number of seconds the client divides a span into: 720 samples of a minute each. */
  const SecondsPerSampleMinute: int := 720 * 60

  /** The longest span, in seconds, for which the interval loop stops (30 days). */
  const LongestSpan: int := 2592000

  /**
   * `Math.ceil(elapsedSeconds / 720 / 60)`. For an integer number of
   * seconds the two floating-point divisions are exact enough that the
   * ceiling equals the exact ceiling of `elapsed / 43200`.
   */
  function StartMinutes(elapsed: int): (n: int)
    ensures (n - 1) * SecondsPerSampleMinute < elapsed <= n * SecondsPerSampleMinute
  {
    -((-elapsed) / SecondsPerSampleMinute)
  }

  function Abs(n: int): nat { if n < 0 then -n else n }

  /**
   * The loop test `60 % intervalMinutes > 0`. JavaScript's `%` takes the sign
   * of the dividend, so for 60 it is `60 mod |n|`; `60 % 0` is NaN, and
   * `NaN > 0` is false.
   */
  predicate KeepsLooking(n: int)
  {
    n != 0 && 60 % Abs(n) > 0
  }

  /** A positive divisor of 60. */
  predicate DividesSixty(n: int)
  {
    0 < n && 60 % n == 0
  }

  /** The first value from `n` on at which the loop stops. */
  function StopFrom(n: int): (stop: int)
    requires n <= 60
    ensures n <= stop <= 60
    ensures !KeepsLooking(stop)
    ensures forall m :: n <= m < stop ==> KeepsLooking(m)
    decreases 60 - n
  {
    if !KeepsLooking(n) then n else StopFrom(n + 1)
  }

  /**
   * The interval the client computes for a span of `elapsed` seconds: the
   * first value from the start on at which the loop stops. It exists only
   * for spans of at most 30 days; beyond that the loop never stops.
   */
  function ClientInterval(elapsed: int): (interval: int)
    requires elapsed <= LongestSpan
    ensures StartMinutes(elapsed) <= interval <= 60
    ensures !KeepsLooking(interval)
    ensures forall m :: StartMinutes(elapsed) <= m < interval ==> KeepsLooking(m)
  {
    StopFrom(StartMinutes(elapsed))
  }

  /**
   * The interval IIFE of `fetchTimeSeries`: start from the ceiling and
   * count up until 60 is a multiple of the candidate. For a span over 30
   * days the source loop never stops; `None` stands for that hang.
   */
  method IntervalMinutes(elapsed: int) returns (interval: Option<int>)
    ensures interval.None? <==> elapsed > LongestSpan
    ensures interval.Some? ==> interval.value == ClientInterval(elapsed)
    ensures interval.None? ==> forall m :: StartMinutes(elapsed) <= m ==> KeepsLooking(m)
  {
    var n := StartMinutes(elapsed);
    if n > 60 {
      // Every candidate from here on leaves `60 % n` at 60: the loop spins forever.
      forall m | n <= m
        ensures KeepsLooking(m)
      {
        NoStopAboveSixty(m);
      }
      StartAtMostSixtyExactly(elapsed);
      return None;
    }
    StartAtMostSixtyExactly(elapsed);
    while KeepsLooking(n)
      invariant StartMinutes(elapsed) <= n <= 60
      invariant StopFrom(n) == ClientInterval(elapsed)
      invariant forall m :: StartMinutes(elapsed) <= m < n ==> KeepsLooking(m)
      decreases 60 - n
    {
      n := n + 1;
    }
    interval := Some(n);
  }

  /** The start value is at most 60 exactly for spans of at most 30 days. */
  lemma StartAtMostSixtyExactly(elapsed: int)
    ensures StartMinutes(elapsed) <= 60 <==> elapsed <= LongestSpan
  {
  }

  /** Above 60 the loop test always holds (`60 % n` is 60), so the loop never stops. */
  lemma NoStopAboveSixty(n: int)
    requires n > 60
    ensures KeepsLooking(n)
  {
  }

  /** For a positive span of at most 30 days, the interval is the least divisor of 60 not below the start. */
  lemma PositiveSpanGivesLeastDivisor(elapsed: int)
    requires 0 < elapsed <= LongestSpan
    ensures DividesSixty(ClientInterval(elapsed))
    ensures ClientInterval(elapsed) >= StartMinutes(elapsed) >= 1
    ensures forall m :: StartMinutes(elapsed) <= m < ClientInterval(elapsed) ==> !DividesSixty(m)
  {
    var start := StartMinutes(elapsed);
    assert start >= 1;
    forall m | start <= m < ClientInterval(elapsed)
      ensures !DividesSixty(m)
    {
      assert KeepsLooking(m);
    }
  }

  /** A zero span starts at 0, where `60 % 0` is NaN and the loop stops at once. */
  lemma ZeroSpanGivesZero()
    ensures ClientInterval(0) == 0
  {
  }

  /** A 12-hour span asks for every minute; a 2-day span for every 4 minutes. */
  lemma ClientIntervalExamples()
    ensures ClientInterval(43200) == 1
    ensures ClientInterval(172800) == 4
    ensures ClientInterval(2592000) == 60
  {
    assert StartMinutes(172800) == 4;
    assert StartMinutes(2592000) == 60;
  }

  /** `interval ? `&interval=${interval}` : ""`: 0 is falsy and adds nothing. */
  function IntervalSuffix(interval: int): (suffix: string)
    ensures interval == 0 <==> suffix == ""
    ensures interval != 0 ==> suffix == "&interval=" + IntToString(interval)
  {
    if interval != 0 then "&" + IntervalKey + IntToString(interval) else ""
  }

  const FromKey: string := "from_timestamp="
  const ToKey: string := "to_timestamp="
  const IntervalKey: string := "interval="

  /** The `key=value` fields of the readings query string, in order. */
  function QueryFields(fromQuery: string, toQuery: string, interval: int): seq<string>
  {
    [FromKey + fromQuery, ToKey + toQuery]
    + (if interval != 0 then [IntervalKey + IntToString(interval)] else [])
  }

  /**
   * The readings URL. `fromQuery` and `toQuery` are the encoded ISO strings
   * (`encodeURIComponent(d.toISOString())`), which are not modelled here.
   */
  function ReadingsUrl(apiUrl: string, fromQuery: string, toQuery: string, interval: int): (url: string)
    ensures url == apiUrl + "/readings?" + Join(QueryFields(fromQuery, toQuery, interval), '&')
  {
    var query := FromKey + fromQuery + "&" + ToKey + toQuery + IntervalSuffix(interval);
    QueryIsJoinOfFields(fromQuery, toQuery, interval);
    apiUrl + "/readings?" + query
  }

  /** The concatenated query string is its fields joined with `&`. */
  lemma QueryIsJoinOfFields(fromQuery: string, toQuery: string, interval: int)
    ensures Join(QueryFields(fromQuery, toQuery, interval), '&')
            == FromKey + fromQuery + "&" + ToKey + toQuery + IntervalSuffix(interval)
  {
    var a := FromKey + fromQuery;
    var b := ToKey + toQuery;
    if interval != 0 {
      var c := IntervalKey + IntToString(interval);
      assert QueryFields(fromQuery, toQuery, interval) == [a, b, c];
      JoinOfThree(a, b, c, '&');
    } else {
      assert QueryFields(fromQuery, toQuery, interval) == [a, b];
      JoinOfTwo(a, b, '&');
    }
  }

  lemma JoinOfTwo(a: string, b: string, sep: char)
    ensures Join([a, b], sep) == a + [sep] + b
  {
    assert [a, b][1..] == [b];
  }

  lemma JoinOfThree(a: string, b: string, c: string, sep: char)
    ensures Join([a, b, c], sep) == a + [sep] + b + [sep] + c
  {
    assert [a, b, c][1..] == [b, c];
    JoinOfTwo(b, c, sep);
  }

  /**
   * With encoded timestamps (which never contain `&`), the query string
   * splits back into exactly its fields.
   */
  lemma QueryStringSplitsBack(fromQuery: string, toQuery: string, interval: int)
    requires '&' !in fromQuery && '&' !in toQuery
    ensures Split(Join(QueryFields(fromQuery, toQuery, interval), '&'), '&') == QueryFields(fromQuery, toQuery, interval)
  {
    var fields := QueryFields(fromQuery, toQuery, interval);
    assert '&' !in fields[0] by {
      assert fields[0] == FromKey + fromQuery;
    }
    assert '&' !in fields[1] by {
      assert fields[1] == ToKey + toQuery;
    }
    if interval != 0 {
      var n := IntToString(interval);
      assert '&' !in n;
      assert fields[2] == IntervalKey + n;
    }
    SplitJoin(fields, '&');
  }

  /** The interval a URL carries is the one the server parses back out of its query string. */
  lemma UrlIntervalParsesBack(interval: int)
    requires interval != 0
    ensures var suffix := IntervalSuffix(interval);
            suffix[..10] == "&" + IntervalKey && ParseInt(suffix[10..]) == Some(interval)
  {
    var suffix := IntervalSuffix(interval);
    assert suffix[10..] == IntToString(interval);
    ParseIntOfIntToString(interval);
  }

  /** A plotted point: `x` is `new Date(item.timestamp)` (None for an invalid date), `y` the extracted value. */
  datatype Point<Y> = Point(x: Option<real>, y: Y)

  function DateOf(item: JsonObject): Option<real>
  {
    if "timestamp" in item && item["timestamp"].JTime? then Some(item["timestamp"].seconds) else None
  }

  /** `extractTimeSeries`: one point per item, in the same order. */
  function ExtractTimeSeries<Y>(items: seq<JsonObject>, extractor: JsonObject -> Y): (points: seq<Point<Y>>)
    ensures |points| == |items|
    ensures forall i :: 0 <= i < |items| ==> points[i] == Point(DateOf(items[i]), extractor(items[i]))
  {
    if items == [] then [] else [Point(DateOf(items[0]), extractor(items[0]))] + ExtractTimeSeries(items[1..], extractor)
  }

  /** Extraction commutes with concatenation: the series of two batches is the two series joined. */
  lemma {:induction false} ExtractTimeSeriesConcat<Y>(a: seq<JsonObject>, b: seq<JsonObject>, extractor: JsonObject -> Y)
    ensures ExtractTimeSeries(a + b, extractor) == ExtractTimeSeries(a, extractor) + ExtractTimeSeries(b, extractor)
  {
    var left := ExtractTimeSeries(a + b, extractor);
    var right := ExtractTimeSeries(a, extractor) + ExtractTimeSeries(b, extractor);
    assert |left| == |right|;
    forall i | 0 <= i < |left|
      ensures left[i] == right[i]
    {
      if i < |a| {
        assert (a + b)[i] == a[i];
      } else {
        assert (a + b)[i] == b[i - |a|];
      }
    }
  }

  /**
   * The component's state: the readings body last accepted, whether one has
   * arrived, the last network error, the applied range, the URLs handed to
   * `fetch`, in order, and whether the page is stuck in the interval loop.
   */
  class Dashboard {
    var items: Body
    var isLoaded: bool
    var error: Option<string>
    var fromTimestamp: int
    var toTimestamp: int
    var requested: seq<string>
    var stalled: bool
    const apiUrl: string

    /** The initial state: no readings, the twelve hours up to `now`. */
    constructor(now: int, apiUrl: string)
      ensures items == ReadingsBody([]) && !isLoaded && error == None
      ensures toTimestamp == now && fromTimestamp == now - 12 * 3600
      ensures requested == [] && !stalled && this.apiUrl == apiUrl
    {
      items := ReadingsBody([]);
      isLoaded := false;
      error := None;
      toTimestamp := now;
      fromTimestamp := now - 12 * 3600;
      requested := [];
      stalled := false;
      this.apiUrl := apiUrl;
    }

    /**
     * `fetchTimeSeries`: requests the readings of `[from, to]` at the client
     * interval. `query` stands for `encodeURIComponent(d.toISOString())`.
     * For a span over 30 days the interval loop never ends: no URL is
     * requested and the page is stalled.
     */
    method FetchTimeSeries(from: int, to: int, query: int -> string)
      modifies this`requested, this`stalled
      ensures to - from <= LongestSpan ==>
                && requested == old(requested) + [ReadingsUrl(apiUrl, query(from), query(to), ClientInterval(to - from))]
                && stalled == old(stalled)
      ensures to - from > LongestSpan ==> requested == old(requested) && stalled
    {
      var interval := IntervalMinutes(to - from);
      if interval.None? {
        stalled := true;
        return;
      }
      requested := requested + [ReadingsUrl(apiUrl, query(from), query(to), interval.value)];
    }

    /** `setTimestamps`: store the applied range and fetch its readings. */
    method SetTimestamps(from: int, to: int, query: int -> string)
      modifies this`fromTimestamp, this`toTimestamp, this`requested, this`stalled
      ensures fromTimestamp == from && toTimestamp == to
      ensures to - from <= LongestSpan ==>
                && requested == old(requested) + [ReadingsUrl(apiUrl, query(from), query(to), ClientInterval(to - from))]
                && stalled == old(stalled)
      ensures to - from > LongestSpan ==> requested == old(requested) && stalled
    {
      fromTimestamp := from;
      toTimestamp := to;
      FetchTimeSeries(from, to, query);
    }

    /**
     * The success callback of the readings request: a body with a truthy
     * `message` is only logged; anything else becomes the items.
     */
    method ReceiveResult(result: Body)
      modifies this`items, this`isLoaded
      ensures result.MessageBody? && result.message != "" ==> items == old(items) && isLoaded == old(isLoaded)
      ensures !(result.MessageBody? && result.message != "") ==> items == result && isLoaded
    {
      if result.MessageBody? && result.message != "" {
        return;
      }
      items := result;
      isLoaded := true;
    }

    /** The failure callback: the error is stored and loading is over; the items stay. */
    method ReceiveError(e: string)
      modifies this`error, this`isLoaded
      ensures error == Some(e) && isLoaded
    {
      error := Some(e);
      isLoaded := true;
    }
  }
}
