/**
 * GET /readings (server/get_readings/app.py): query-parameter parsing and
 * validation, the per-day partition fan-out with the minute filter, and the
 * status mapping of the Lambda handler.
 */
module GetReadings {
  import opened Wrappers
  import opened Text
  import opened Clock
  import opened Seqs
  import opened Records
  import opened CommonUtils

  /** `(elapsed-days limit, minimum interval)` pairs, checked in this order. */
  const AllowedIntervalConstraints: seq<(int, int)> := [(1, 10), (7, 30), (14, 60)]

  const MissingFromMessage: string := "Query missing 'from_timestamp' parameter."
  const MissingToMessage: string := "Query missing 'to_timestamp' parameter."
  const TimestampParseMessage: string := "Unable to parse timestamp."
  const IntervalParseMessage: string := "Unable to parse interval."
  const NonPositiveMessage: string := "Interval must be greater than zero."
  const MissingIntervalMessage: string := "Missing 'interval' parameter for timespan greater than one day."
  const ForbiddenMessage: string := "Timespans greater than 30 days are forbidden."
  const ZeroDivisionMessage: string := "ZeroDivisionError: integer division or modulo by zero"
  const StrModuloMessage: string := "TypeError: unsupported operand type(s) for %: 'int' and 'str'"

  /** The message naming a violated constraint pair. */
  function SpanMessage(edLimit: int, iLimit: int): string
  {
    "Timespans greater than " + IntToString(edLimit)
    + " days must have 'interval' parameter of at least " + IntToString(iLimit)
  }

  /**
   * The parsed `interval`: no key, the empty string (which
   * `interval and parse_interval(interval)` leaves as a string), or an integer.
   */
  datatype IntervalArg = Omitted | EmptyText | Minutes(n: int) {
    /** Python truthiness: only a non-zero integer is truthy. */
    predicate Truthy() { Minutes? && n != 0 }
  }

  datatype QueryParameters = QueryParameters(from: int, to: int, interval: IntervalArg)

  /**
   * `parse_timestamp`: `fromisoformat(s.rstrip('Z'))`. `fromIsoFormat` stands
   * for `datetime.fromisoformat` (None where it raises `ValueError`); the
   * `replace(tzinfo=...)` on a trailing Z discards its result, so it has no effect.
   */
  function ParseTimestamp(s: string, fromIsoFormat: string -> Option<int>): (r: Result<int>)
    ensures r.Err? <==> fromIsoFormat(StripAllTrailing(s, 'Z')).None?
    ensures r.Err? ==> r.message == TimestampParseMessage
    ensures r.Ok? ==> fromIsoFormat(StripAllTrailing(s, 'Z')) == Some(r.value)
  {
    match fromIsoFormat(StripAllTrailing(s, 'Z'))
    case None => Err(TimestampParseMessage)
    case Some(t) => Ok(t)
  }

  /** `parse_interval`: `int(interval)`, or the parse error. */
  function ParseInterval(s: string): (r: Result<int>)
    ensures r.Err? <==> ParseInt(s).None?
    ensures r.Err? ==> r.message == IntervalParseMessage
    ensures r.Ok? ==> ParseInt(s) == Some(r.value)
  {
    match ParseInt(s)
    case None => Err(IntervalParseMessage)
    case Some(n) => Ok(n)
  }

  /** Any integer the client renders is parsed back to itself. */
  lemma ParseIntervalOfIntToString(n: int)
    ensures ParseInterval(IntToString(n)) == Ok(n)
  {
    ParseIntOfIntToString(n);
  }

  /** `interval = parameters.get('interval'); interval = interval and parse_interval(interval)`. */
  function IntervalArgOf(parameters: map<string, string>): (r: Result<IntervalArg>)
    ensures r == Ok(Omitted) <==> "interval" !in parameters
    ensures r == Ok(EmptyText) <==> "interval" in parameters && parameters["interval"] == ""
    ensures r.Err? <==> "interval" in parameters && parameters["interval"] != "" && ParseInt(parameters["interval"]).None?
    ensures r.Err? ==> r.message == IntervalParseMessage
    ensures r.Ok? && r.value.Minutes? ==>
              "interval" in parameters && ParseInt(parameters["interval"]) == Some(r.value.n)
  {
    if "interval" !in parameters then Ok(Omitted)
    else if parameters["interval"] == "" then Ok(EmptyText)
    else
      var n :- ParseInterval(parameters["interval"]);
      Ok(Minutes(n))
  }

  /** `elapsed_days > ed_limit and interval < i_limit`. */
  predicate Violates(c: (int, int), elapsedDays: int, interval: int)
  {
    elapsedDays > c.0 && interval < c.1
  }

  /** The index of the first pair of `cs`, from `i` on, that the request violates. */
  function FirstViolation(cs: seq<(int, int)>, elapsedDays: int, interval: int, i: nat): (k: Option<nat>)
    requires i <= |cs|
    ensures k.Some? ==> i <= k.value < |cs| && Violates(cs[k.value], elapsedDays, interval)
    ensures k.Some? ==> forall j :: i <= j < k.value ==> !Violates(cs[j], elapsedDays, interval)
    ensures k.None? ==> forall j :: i <= j < |cs| ==> !Violates(cs[j], elapsedDays, interval)
    decreases |cs| - i
  {
    if i == |cs| then None
    else if Violates(cs[i], elapsedDays, interval) then Some(i)
    else FirstViolation(cs, elapsedDays, interval, i + 1)
  }

  /** `validate_query_parameters`: passes, or raises with the first rule that fails. */
  function ValidateQueryParameters(from: int, to: int, interval: IntervalArg): (o: Outcome)
    ensures o.Pass? <==> Acceptable(ElapsedDays(from, to), interval)
  {
    var elapsedDays := ElapsedDays(from, to);
    FirstViolationOfTable(elapsedDays, if interval.Minutes? then interval.n else 0);
    if interval.Truthy() && interval.n < 1 then Fail(NonPositiveMessage)
    else if elapsedDays <= 1 then Pass
    else if !interval.Truthy() then Fail(MissingIntervalMessage)
    else match FirstViolation(AllowedIntervalConstraints, elapsedDays, interval.n, 0)
      case Some(k) => Fail(SpanMessage(AllowedIntervalConstraints[k].0, AllowedIntervalConstraints[k].1))
      case None => if elapsedDays > 30 then Fail(ForbiddenMessage) else Pass
  }

  /** The smallest interval the constraint table allows for a span of more than one day. */
  function RequiredInterval(elapsedDays: int): int
  {
    if elapsedDays > 14 then 60 else if elapsedDays > 7 then 30 else 10
  }

  /** The requests the validator accepts, stated without the rule table. */
  predicate Acceptable(elapsedDays: int, interval: IntervalArg)
  {
    && !(interval.Minutes? && interval.n < 0)
    && (elapsedDays <= 1
        || (elapsedDays <= 30 && interval.Minutes? && interval.n >= RequiredInterval(elapsedDays)))
  }

  lemma {:induction false} FirstViolationOfTable(elapsedDays: int, n: int)
    ensures FirstViolation(AllowedIntervalConstraints, elapsedDays, n, 0).None?
            <==> elapsedDays <= 1 || n >= RequiredInterval(elapsedDays)
  {
    var cs := AllowedIntervalConstraints;
    assert cs[0] == (1, 10) && cs[1] == (7, 30) && cs[2] == (14, 60);
    var k := FirstViolation(cs, elapsedDays, n, 0);
    if Violates(cs[0], elapsedDays, n) {
      assert k == Some(0);
    } else if Violates(cs[1], elapsedDays, n) {
      assert k == Some(1);
    } else if Violates(cs[2], elapsedDays, n) {
      assert k == Some(2);
    } else {
      assert FirstViolation(cs, elapsedDays, n, 3) == None;
    }
  }

  /** A negative interval is rejected before the span is looked at. */
  lemma NegativeIntervalRejectedFirst(from: int, to: int, n: int)
    requires n < 0
    ensures ValidateQueryParameters(from, to, Minutes(n)) == Fail(NonPositiveMessage)
  {
  }

  /**
   * A span of at most one day, inverted ranges included, is accepted with no
   * interval or any non-negative one, zero and the empty string included.
   */
  lemma ShortSpanAccepted(from: int, to: int, interval: IntervalArg)
    requires ElapsedDays(from, to) <= 1
    requires !(interval.Minutes? && interval.n < 0)
    ensures ValidateQueryParameters(from, to, interval) == Pass
  {
  }

  /** `to < from` gives negative elapsed days, which pass the short-span test. */
  lemma InvertedRangeAccepted(from: int, to: int)
    requires to < from
    ensures ElapsedDays(from, to) < 0
    ensures ValidateQueryParameters(from, to, Omitted) == Pass
  {
  }

  /** Over one day, a missing, empty or zero interval is reported as missing. */
  lemma MissingIntervalRejected(from: int, to: int, interval: IntervalArg)
    requires ElapsedDays(from, to) > 1
    requires !interval.Truthy()
    ensures ValidateQueryParameters(from, to, interval) == Fail(MissingIntervalMessage)
  {
  }

  /** The first violated pair of the table, in table order, names the limits in the error. */
  lemma FirstViolatedPairNamed(from: int, to: int, n: int, k: nat)
    requires ElapsedDays(from, to) > 1 && n >= 1
    requires k < |AllowedIntervalConstraints|
    requires Violates(AllowedIntervalConstraints[k], ElapsedDays(from, to), n)
    requires forall j :: 0 <= j < k ==> !Violates(AllowedIntervalConstraints[j], ElapsedDays(from, to), n)
    ensures ValidateQueryParameters(from, to, Minutes(n))
            == Fail(SpanMessage(AllowedIntervalConstraints[k].0, AllowedIntervalConstraints[k].1))
  {
    var f := FirstViolation(AllowedIntervalConstraints, ElapsedDays(from, to), n, 0);
    assert f.Some?;
  }

  /**
   * Every span over 30 days is rejected, whatever the interval; an interval
   * that clears the whole table is rejected with the forbidden-span message.
   */
  lemma OverThirtyDaysRejected(from: int, to: int, interval: IntervalArg)
    requires ElapsedDays(from, to) > 30
    ensures ValidateQueryParameters(from, to, interval).Fail?
    ensures interval.Minutes? && interval.n >= 60 ==> ValidateQueryParameters(from, to, interval) == Fail(ForbiddenMessage)
  {
    if interval.Minutes? && interval.n >= 60 {
      FirstViolationOfTable(ElapsedDays(from, to), interval.n);
    }
  }

  /** Raising the interval never turns an accepted request into a rejected one. */
  lemma AcceptanceMonotoneInInterval(from: int, to: int, n: int, m: int)
    requires n <= m
    requires ValidateQueryParameters(from, to, Minutes(n)).Pass?
    ensures ValidateQueryParameters(from, to, Minutes(m)).Pass?
  {
  }

  /** Shortening the span never turns an accepted request into a rejected one. */
  lemma AcceptanceMonotoneInSpan(from: int, to: int, from': int, to': int, interval: IntervalArg)
    requires ElapsedDays(from', to') <= ElapsedDays(from, to)
    requires ValidateQueryParameters(from, to, interval).Pass?
    ensures ValidateQueryParameters(from', to', interval).Pass?
  {
  }

  /** Nine days at interval 5: the first pair, (1, 10), is the one reported. */
  lemma NineDaysAtFiveMinutes()
    ensures ValidateQueryParameters(1704067200, 1704844800, Minutes(5)) == Fail(SpanMessage(1, 10))
  {
    assert ElapsedDays(1704067200, 1704844800) == 9;
    FirstViolatedPairNamed(1704067200, 1704844800, 5, 0);
  }

  /** `parse_query_parameters`: missing keys first, then the timestamps, the interval, validation. */
  function ParseQueryParameters(parameters: map<string, string>, fromIsoFormat: string -> Option<int>)
    : (r: Result<QueryParameters>)
    ensures "from_timestamp" !in parameters ==> r == Err(MissingFromMessage)
    ensures "from_timestamp" in parameters && "to_timestamp" !in parameters ==> r == Err(MissingToMessage)
    ensures r.Ok? ==> ValidateQueryParameters(r.value.from, r.value.to, r.value.interval).Pass?
    ensures r.Ok? ==> (r.value.interval == Omitted <==> "interval" !in parameters)
    ensures r.Ok? ==> fromIsoFormat(StripAllTrailing(parameters["from_timestamp"], 'Z')) == Some(r.value.from)
                      && fromIsoFormat(StripAllTrailing(parameters["to_timestamp"], 'Z')) == Some(r.value.to)
    ensures r.Ok? ==> IntervalArgOf(parameters) == Ok(r.value.interval)
    ensures "from_timestamp" in parameters && "to_timestamp" in parameters
            && (ParseTimestamp(parameters["from_timestamp"], fromIsoFormat).Err?
                || ParseTimestamp(parameters["to_timestamp"], fromIsoFormat).Err?)
            ==> r == Err(TimestampParseMessage)
    ensures "from_timestamp" in parameters && "to_timestamp" in parameters
            && ParseTimestamp(parameters["from_timestamp"], fromIsoFormat).Ok?
            && ParseTimestamp(parameters["to_timestamp"], fromIsoFormat).Ok?
            && IntervalArgOf(parameters).Ok?
            ==> var v := ValidateQueryParameters(ParseTimestamp(parameters["from_timestamp"], fromIsoFormat).value,
                                                 ParseTimestamp(parameters["to_timestamp"], fromIsoFormat).value,
                                                 IntervalArgOf(parameters).value);
                && (r.Ok? <==> v.Pass?)
                && (r.Err? ==> v == Fail(r.message))
  {
    if "from_timestamp" !in parameters then Err(MissingFromMessage)
    else if "to_timestamp" !in parameters then Err(MissingToMessage)
    else
      var from :- ParseTimestamp(parameters["from_timestamp"], fromIsoFormat);
      var to :- ParseTimestamp(parameters["to_timestamp"], fromIsoFormat);
      var interval :- IntervalArgOf(parameters);
      match ValidateQueryParameters(from, to, interval)
      case Fail(message) => Err(message)
      case Pass => Ok(QueryParameters(from, to, interval))
  }

  /** With both timestamps readable, an interval that is not an integer is reported as such. */
  lemma UnparsableIntervalRejected(parameters: map<string, string>, fromIsoFormat: string -> Option<int>)
    requires "from_timestamp" in parameters && "to_timestamp" in parameters
    requires fromIsoFormat(StripAllTrailing(parameters["from_timestamp"], 'Z')).Some?
    requires fromIsoFormat(StripAllTrailing(parameters["to_timestamp"], 'Z')).Some?
    requires "interval" in parameters && parameters["interval"] != "" && ParseInt(parameters["interval"]).None?
    ensures ParseQueryParameters(parameters, fromIsoFormat) == Err(IntervalParseMessage)
  {
  }

  /** `[i for i in range(60) if i % interval == 0]`, from minute `i` on. */
  function MinutesFrom(interval: int, i: int): (minutes: seq<int>)
    requires interval != 0 && 0 <= i <= 60
    ensures forall k :: 0 <= k < |minutes| ==> i <= minutes[k] < 60 && minutes[k] % interval == 0
    ensures forall m :: i <= m < 60 && m % interval == 0 ==> m in minutes
    ensures forall j, k :: 0 <= j < k < |minutes| ==> minutes[j] < minutes[k]
    decreases 60 - i
  {
    if i == 60 then []
    else (if i % interval == 0 then [i] else []) + MinutesFrom(interval, i + 1)
  }

  /**
   * The minutes admitted by the filter, in ascending order. `i % interval`
   * raises `ZeroDivisionError` for 0, hence the precondition; for a
   * negative interval Python's `%` is zero for exactly the same `i`.
   */
  function MinuteList(interval: int): (minutes: seq<int>)
    requires interval != 0
    ensures forall m :: m in minutes <==> 0 <= m < 60 && m % interval == 0
    ensures forall j, k :: 0 <= j < k < |minutes| ==> minutes[j] < minutes[k]
  {
    MinutesFrom(interval, 0)
  }

  lemma SameMembersSameEmptiness(a: seq<int>, b: seq<int>)
    requires forall x :: x in a <==> x in b
    ensures a == [] <==> b == []
  {
    if a != [] { var x := a[0]; assert x in a; assert x in b; }
    if b != [] { var x := b[0]; assert x in b; assert x in a; }
  }

  /** Two strictly ascending sequences with the same members are equal. */
  lemma {:induction false} AscendingUnique(a: seq<int>, b: seq<int>)
    requires forall j, k :: 0 <= j < k < |a| ==> a[j] < a[k]
    requires forall j, k :: 0 <= j < k < |b| ==> b[j] < b[k]
    requires forall x :: x in a <==> x in b
    ensures a == b
    decreases |a|
  {
    SameMembersSameEmptiness(a, b);
    if a != [] {
      assert a[0] == b[0] by {
        assert a[0] in b && b[0] in a;
        var i :| 0 <= i < |b| && b[i] == a[0];
        var j :| 0 <= j < |a| && a[j] == b[0];
        assert b[0] <= b[i] && a[0] <= a[j];
      }
      forall x
        ensures x in a[1..] <==> x in b[1..]
      {
        assert x in a[1..] <==> x in a && x != a[0] by {
          if x in a && x != a[0] {
            var i :| 0 <= i < |a| && a[i] == x;
            assert i != 0;
            assert a[1..][i - 1] == x;
          }
        }
        assert x in b[1..] <==> x in b && x != b[0] by {
          if x in b && x != b[0] {
            var i :| 0 <= i < |b| && b[i] == x;
            assert i != 0;
            assert b[1..][i - 1] == x;
          }
        }
      }
      AscendingUnique(a[1..], b[1..]);
      assert a == [a[0]] + a[1..] && b == [b[0]] + b[1..];
    }
  }

  /** An interval of 1 admits every minute of the hour, in order. */
  lemma MinuteListOfOne()
    ensures MinuteList(1) == seq(60, m => m)
  {
    var all := seq(60, m => m);
    forall x
      ensures x in MinuteList(1) <==> x in all
    {
      if 0 <= x < 60 { assert all[x] == x; }
    }
    AscendingUnique(MinuteList(1), all);
  }

  /**
   * The key condition `date == day AND timestamp BETWEEN lo AND hi` and the
   * filter `minute IN minutes`.
   */
  function Admits(item: Item, lo: int, hi: int, minutes: seq<int>): (b: bool)
    ensures b <==> && "timestamp" in item && item["timestamp"].Num?
                   && lo as real <= item["timestamp"].x <= hi as real
                   && "minute" in item && item["minute"].Num?
                   && exists m :: m in minutes && item["minute"].x == m as real
  {
    && "timestamp" in item && item["timestamp"].Num?
    && lo as real <= item["timestamp"].x <= hi as real
    && "minute" in item && item["minute"].Num?
    && item["minute"].x == item["minute"].x.Floor as real
    && item["minute"].x.Floor in minutes
  }

  /** One `table.query` on one date partition, in the order the store returns the items. */
  function QueryPartition(table: Table, day: int, lo: int, hi: int, minutes: seq<int>): (items: seq<Item>)
    ensures forall i :: 0 <= i < |items| ==> items[i] in Partition(table, day) && Admits(items[i], lo, hi, minutes)
    ensures forall item :: item in Partition(table, day) && Admits(item, lo, hi, minutes) ==> item in items
    ensures IsSubsequence(items, Partition(table, day))
  {
    FilterIsSubsequence(Partition(table, day), item => Admits(item, lo, hi, minutes));
    Filter(Partition(table, day), item => Admits(item, lo, hi, minutes))
  }

  /** The query keeps each admitted item as often as the partition holds it, and no other item. */
  lemma QueryPartitionKeepsMultiplicity(table: Table, day: int, lo: int, hi: int, minutes: seq<int>)
    ensures var part := Partition(table, day);
            var items := QueryPartition(table, day, lo, hi, minutes);
            forall i :: 0 <= i < |part| ==>
              multiset(items)[part[i]] == (if Admits(part[i], lo, hi, minutes) then multiset(part)[part[i]] else 0)
  {
    FilterCounts(Partition(table, day), item => Admits(item, lo, hi, minutes));
  }

  /** `[translate_item(i) for i in items]`: stops at the first item that cannot be translated. */
  function TranslateAll(items: seq<Item>): (r: Result<seq<JsonObject>>)
    ensures r.Ok? <==> forall i :: 0 <= i < |items| ==> IsNumericReading(items[i])
    ensures r.Ok? ==> |r.value| == |items|
    ensures r.Ok? ==> forall i :: 0 <= i < |items| ==> TranslateItem(items[i]) == Ok(r.value[i])
    decreases |items|
  {
    if items == [] then Ok([])
    else
      var first :- TranslateItem(items[0]);
      var rest :- TranslateAll(items[1..]);
      Ok([first] + rest)
  }

  /** The readings one partition query yields, or the first translation error. */
  function DayReadings(table: Table, day: int, lo: int, hi: int, minutes: seq<int>): (r: Result<seq<JsonObject>>)
    ensures r.Ok? ==> forall i :: 0 <= i < |r.value| ==> IsReadingJson(r.value[i])
  {
    var items := QueryPartition(table, day, lo, hi, minutes);
    var r := TranslateAll(items);
    assert r.Ok? ==> forall i :: 0 <= i < |r.value| ==> IsReadingJson(r.value[i]) by {
      if r.Ok? {
        forall i | 0 <= i < |r.value| ensures IsReadingJson(r.value[i]) {
          assert TranslateItem(items[i]) == Ok(r.value[i]);
        }
      }
    }
    r
  }

  /** The partition queries of the days `firstDay .. endDay - 1`, concatenated in day order. */
  function FetchRange(table: Table, firstDay: int, endDay: int, lo: int, hi: int, minutes: seq<int>)
    : (r: Result<seq<JsonObject>>)
    ensures r.Ok? ==> forall o :: o in r.value ==> IsReadingJson(o)
    decreases endDay - firstDay
  {
    if endDay <= firstDay then Ok([])
    else
      var earlier :- FetchRange(table, firstDay, endDay - 1, lo, hi, minutes);
      var items :- DayReadings(table, endDay - 1, lo, hi, minutes);
      Ok(earlier + items)
  }

  /** Once one day's items fail to translate, the whole fetch fails with that error. */
  lemma FetchRangeStopsAtFailure(
    table: Table, firstDay: int, day: int, endDay: int, lo: int, hi: int, minutes: seq<int>, message: string)
    requires firstDay <= day < endDay
    requires FetchRange(table, firstDay, day, lo, hi, minutes).Ok?
    requires DayReadings(table, day, lo, hi, minutes) == Err(message)
    ensures FetchRange(table, firstDay, endDay, lo, hi, minutes) == Err(message)
    decreases endDay - day
  {
    if endDay > day + 1 {
      FetchRangeStopsAtFailure(table, firstDay, day, endDay - 1, lo, hi, minutes, message);
    }
  }

  /** One more day's readings extend the fetch by exactly those readings. */
  lemma FetchRangeStep(
    table: Table, firstDay: int, day: int, lo: int, hi: int, minutes: seq<int>,
    earlier: seq<JsonObject>, items: seq<JsonObject>)
    requires firstDay <= day
    requires FetchRange(table, firstDay, day, lo, hi, minutes) == Ok(earlier)
    requires DayReadings(table, day, lo, hi, minutes) == Ok(items)
    ensures FetchRange(table, firstDay, day + 1, lo, hi, minutes) == Ok(earlier + items)
  {
  }

  /** The fetch over a range is the fetch over its first part followed by the fetch over the rest. */
  lemma {:induction false} FetchRangeConcatenates(
    table: Table, firstDay: int, midDay: int, endDay: int, lo: int, hi: int, minutes: seq<int>)
    requires firstDay <= midDay <= endDay
    requires FetchRange(table, firstDay, endDay, lo, hi, minutes).Ok?
    ensures FetchRange(table, firstDay, midDay, lo, hi, minutes).Ok?
    ensures FetchRange(table, midDay, endDay, lo, hi, minutes).Ok?
    ensures FetchRange(table, firstDay, endDay, lo, hi, minutes).value
            == FetchRange(table, firstDay, midDay, lo, hi, minutes).value
               + FetchRange(table, midDay, endDay, lo, hi, minutes).value
    decreases endDay - midDay
  {
    if midDay < endDay {
      FetchRangeSplitLast(table, firstDay, endDay, lo, hi, minutes);
      FetchRangeConcatenates(table, firstDay, midDay, endDay - 1, lo, hi, minutes);
      var a := FetchRange(table, firstDay, midDay, lo, hi, minutes).value;
      var b := FetchRange(table, midDay, endDay - 1, lo, hi, minutes).value;
      var c := DayReadings(table, endDay - 1, lo, hi, minutes).value;
      FetchRangeStep(table, midDay, endDay - 1, lo, hi, minutes, b, c);
      ConcatAssociates(a, b, c);
    } else {
      assert FetchRange(table, midDay, endDay, lo, hi, minutes) == Ok([]);
    }
  }

  lemma ConcatAssociates(a: seq<JsonObject>, b: seq<JsonObject>, c: seq<JsonObject>)
    ensures (a + b) + c == a + (b + c)
  {
  }

  /** A successful fetch ends with the last day's readings. */
  lemma FetchRangeSplitLast(table: Table, firstDay: int, endDay: int, lo: int, hi: int, minutes: seq<int>)
    requires firstDay < endDay
    requires FetchRange(table, firstDay, endDay, lo, hi, minutes).Ok?
    ensures FetchRange(table, firstDay, endDay - 1, lo, hi, minutes).Ok?
    ensures DayReadings(table, endDay - 1, lo, hi, minutes).Ok?
    ensures FetchRange(table, firstDay, endDay, lo, hi, minutes).value
            == FetchRange(table, firstDay, endDay - 1, lo, hi, minutes).value
               + DayReadings(table, endDay - 1, lo, hi, minutes).value
  {
  }

  /** Every reading one day's query yields appears in a successful fetch over a range holding that day. */
  lemma FetchRangeHoldsEachDay(
    table: Table, firstDay: int, day: int, endDay: int, lo: int, hi: int, minutes: seq<int>)
    requires firstDay <= day < endDay
    requires FetchRange(table, firstDay, endDay, lo, hi, minutes).Ok?
    ensures DayReadings(table, day, lo, hi, minutes).Ok?
    ensures FetchRange(table, firstDay, day, lo, hi, minutes).Ok?
    ensures FetchRange(table, day + 1, endDay, lo, hi, minutes).Ok?
    ensures FetchRange(table, firstDay, endDay, lo, hi, minutes).value
            == FetchRange(table, firstDay, day, lo, hi, minutes).value
               + DayReadings(table, day, lo, hi, minutes).value
               + FetchRange(table, day + 1, endDay, lo, hi, minutes).value
  {
    FetchRangeConcatenates(table, firstDay, day + 1, endDay, lo, hi, minutes);
    FetchRangeConcatenates(table, firstDay, day, day + 1, lo, hi, minutes);
    var one := FetchRange(table, day, day + 1, lo, hi, minutes);
    assert FetchRange(table, day, day, lo, hi, minutes) == Ok([]);
    assert one.value == [] + DayReadings(table, day, lo, hi, minutes).value;
  }

  /** Every reading of one date's query is the translation of an admitted item of that partition. */
  lemma DayReadingComesFromAdmittedItem(
    table: Table, day: int, lo: int, hi: int, minutes: seq<int>, o: JsonObject)
    requires DayReadings(table, day, lo, hi, minutes).Ok?
    requires o in DayReadings(table, day, lo, hi, minutes).value
    ensures exists item :: item in Partition(table, day) && Admits(item, lo, hi, minutes) && TranslateItem(item) == Ok(o)
  {
    var items := QueryPartition(table, day, lo, hi, minutes);
    var readings := DayReadings(table, day, lo, hi, minutes).value;
    assert TranslateAll(items).value == readings;
    var i :| 0 <= i < |readings| && readings[i] == o;
    assert TranslateItem(items[i]) == Ok(o);
    assert items[i] in Partition(table, day) && Admits(items[i], lo, hi, minutes);
  }

  /**
   * The converse of a fetch holding every admitted item: each reading it
   * returns is the translation of an admitted item of a date in the range.
   */
  lemma {:induction false} FetchRangeReturnsOnlyAdmitted(
    table: Table, firstDay: int, endDay: int, lo: int, hi: int, minutes: seq<int>, o: JsonObject)
    requires FetchRange(table, firstDay, endDay, lo, hi, minutes).Ok?
    requires o in FetchRange(table, firstDay, endDay, lo, hi, minutes).value
    ensures exists d, item :: firstDay <= d < endDay && item in Partition(table, d)
                              && Admits(item, lo, hi, minutes) && TranslateItem(item) == Ok(o)
    decreases endDay - firstDay
  {
    if endDay <= firstDay {
      assert false;
    }
    FetchRangeSplitLast(table, firstDay, endDay, lo, hi, minutes);
    var earlier := FetchRange(table, firstDay, endDay - 1, lo, hi, minutes).value;
    if o in earlier {
      FetchRangeReturnsOnlyAdmitted(table, firstDay, endDay - 1, lo, hi, minutes, o);
      var d: int, item: Item :| firstDay <= d < endDay - 1 && item in Partition(table, d)
                     && Admits(item, lo, hi, minutes) && TranslateItem(item) == Ok(o);
      assert firstDay <= d < endDay;
    } else {
      DayReadingComesFromAdmittedItem(table, endDay - 1, lo, hi, minutes, o);
      var item: Item :| item in Partition(table, endDay - 1) && Admits(item, lo, hi, minutes) && TranslateItem(item) == Ok(o);
      assert firstDay <= endDay - 1 < endDay;
    }
  }

  /**
   * GET /readings returns only what was asked for: each reading comes from an
   * admitted item of a date between `from` and `to`, and its timestamp lies
   * in `[from, to]`.
   */
  lemma FetchForReturnsOnlyRequested(table: Table, q: QueryParameters, interval: int, o: JsonObject)
    requires interval != 0
    requires FetchFor(table, q, interval).Ok? && o in FetchFor(table, q, interval).value
    ensures exists d, item :: UtcDay(q.from) <= d <= UtcDay(q.to) && item in Partition(table, d)
                              && Admits(item, q.from, q.to, MinuteList(interval)) && TranslateItem(item) == Ok(o)
    ensures q.from as real <= ReadingTime(o) <= q.to as real
  {
    var minutes := MinuteList(interval);
    assert FetchFor(table, q, interval) == FetchRange(table, UtcDay(q.from), UtcDay(q.to) + 1, q.from, q.to, minutes);
    FetchRangeReturnsOnlyAdmitted(table, UtcDay(q.from), UtcDay(q.to) + 1, q.from, q.to, minutes, o);
    var d: int, item: Item :| UtcDay(q.from) <= d < UtcDay(q.to) + 1 && item in Partition(table, d)
                   && Admits(item, q.from, q.to, minutes) && TranslateItem(item) == Ok(o);
    assert ReadingTime(o) == item["timestamp"].x;
  }

  /** The sort key of a stored item (0 where it has none). */
  function ItemTime(item: Item): real
  {
    if "timestamp" in item && item["timestamp"].Num? then item["timestamp"].x else 0.0
  }

  /** The timestamp of a translated reading (0 where it has none). */
  function ReadingTime(o: JsonObject): real
  {
    if "timestamp" in o && o["timestamp"].JTime? then o["timestamp"].seconds else 0.0
  }

  /** `t` falls on the UTC date `day`. */
  predicate OnDay(t: real, day: int)
  {
    (day * SecondsPerDay) as real <= t < ((day + 1) * SecondsPerDay) as real
  }

  /**
   * What the store guarantees of each partition: its items come back in
   * ascending sort-key order, and each lies on the partition's date.
   */
  predicate PartitionsOrdered(table: Table)
  {
    forall day :: day in table ==>
      && SortedBy(table[day], ItemTime)
      && forall i :: 0 <= i < |table[day]| ==> OnDay(ItemTime(table[day][i]), day)
  }

  /** One day's readings are in time order and all on that day. */
  lemma DayReadingsOrdered(table: Table, day: int, lo: int, hi: int, minutes: seq<int>)
    requires PartitionsOrdered(table)
    requires DayReadings(table, day, lo, hi, minutes).Ok?
    ensures SortedBy(DayReadings(table, day, lo, hi, minutes).value, ReadingTime)
    ensures forall o :: o in DayReadings(table, day, lo, hi, minutes).value ==> OnDay(ReadingTime(o), day)
  {
    var items := QueryPartition(table, day, lo, hi, minutes);
    var readings := DayReadings(table, day, lo, hi, minutes).value;
    FilterKeepsOrder(Partition(table, day), item => Admits(item, lo, hi, minutes), ItemTime);
    QueriedItemsOnDay(table, day, lo, hi, minutes);
    assert TranslateAll(items).value == readings;
    forall i | 0 <= i < |readings|
      ensures ReadingTime(readings[i]) == ItemTime(items[i])
    {
      assert TranslateItem(items[i]) == Ok(readings[i]);
    }
    SameTimesSameOrder(items, readings, day);
  }

  /** Every item a partition query returns lies on the partition's date. */
  lemma QueriedItemsOnDay(table: Table, day: int, lo: int, hi: int, minutes: seq<int>)
    requires PartitionsOrdered(table)
    ensures forall i :: 0 <= i < |QueryPartition(table, day, lo, hi, minutes)| ==>
              OnDay(ItemTime(QueryPartition(table, day, lo, hi, minutes)[i]), day)
  {
    var part := Partition(table, day);
    var items := QueryPartition(table, day, lo, hi, minutes);
    forall i | 0 <= i < |items|
      ensures OnDay(ItemTime(items[i]), day)
    {
      var k :| 0 <= k < |part| && part[k] == items[i];
    }
  }

  /** Readings carrying their items' times keep the items' order and dates. */
  lemma SameTimesSameOrder(items: seq<Item>, readings: seq<JsonObject>, day: int)
    requires |readings| == |items|
    requires forall i :: 0 <= i < |items| ==> ReadingTime(readings[i]) == ItemTime(items[i])
    requires SortedBy(items, ItemTime)
    requires forall i :: 0 <= i < |items| ==> OnDay(ItemTime(items[i]), day)
    ensures SortedBy(readings, ReadingTime)
    ensures forall o :: o in readings ==> OnDay(ReadingTime(o), day)
  {
    forall o | o in readings
      ensures OnDay(ReadingTime(o), day)
    {
      var i :| 0 <= i < |readings| && readings[i] == o;
    }
  }

  /**
   * When the store keeps its partitions ordered, a fetch over consecutive
   * dates is in time order, and every reading precedes the end date.
   */
  lemma {:induction false} FetchRangeOrdered(
    table: Table, firstDay: int, endDay: int, lo: int, hi: int, minutes: seq<int>)
    requires PartitionsOrdered(table)
    requires FetchRange(table, firstDay, endDay, lo, hi, minutes).Ok?
    ensures SortedBy(FetchRange(table, firstDay, endDay, lo, hi, minutes).value, ReadingTime)
    ensures forall o :: o in FetchRange(table, firstDay, endDay, lo, hi, minutes).value ==>
              ReadingTime(o) < (endDay * SecondsPerDay) as real
    decreases endDay - firstDay
  {
    if firstDay < endDay {
      var earlier := FetchRange(table, firstDay, endDay - 1, lo, hi, minutes);
      var last := DayReadings(table, endDay - 1, lo, hi, minutes);
      assert earlier.Ok? && last.Ok?;
      FetchRangeOrdered(table, firstDay, endDay - 1, lo, hi, minutes);
      DayReadingsOrdered(table, endDay - 1, lo, hi, minutes);
      var bound := ((endDay - 1) * SecondsPerDay) as real;
      forall o | o in last.value
        ensures bound <= ReadingTime(o) < (endDay * SecondsPerDay) as real
      {
        assert OnDay(ReadingTime(o), endDay - 1);
      }
      ConcatSorted(earlier.value, last.value, ReadingTime, bound);
      assert FetchRange(table, firstDay, endDay, lo, hi, minutes).value == earlier.value + last.value;
    }
  }

  /** One issued `table.query`: the date and the bounds of the key condition, the minute filter. */
  datatype PartitionQuery = PartitionQuery(day: int, lo: int, hi: int, minutes: seq<int>)

  /** The queries for the dates `firstDay .. endDay - 1`, one per date, in date order. */
  function QueriesFrom(firstDay: int, endDay: int, lo: int, hi: int, minutes: seq<int>): (qs: seq<PartitionQuery>)
    ensures |qs| == if firstDay < endDay then endDay - firstDay else 0
    ensures forall k :: 0 <= k < |qs| ==> qs[k] == PartitionQuery(firstDay + k, lo, hi, minutes)
    decreases endDay - firstDay
  {
    if endDay <= firstDay then [] else QueriesFrom(firstDay, endDay - 1, lo, hi, minutes) + [PartitionQuery(endDay - 1, lo, hi, minutes)]
  }

  /** The number of calendar dates from `from.date()` to `to.date()` inclusive. */
  function DayCount(from: int, to: int): nat
  {
    if UtcDay(from) <= UtcDay(to) then UtcDay(to) - UtcDay(from) + 1 else 0
  }

  /**
   * `get_data`: one query per date from `from.date()` to `to.date()`, each
   * bounded by `[from, to]` and filtered by minute, results concatenated in
   * date order. `queries` lists the queries issued, in order.
   */
  method GetData(table: Table, from: int, to: int, interval: int)
    returns (data: Result<seq<JsonObject>>, queries: seq<PartitionQuery>)
    requires interval != 0
    ensures data == FetchRange(table, UtcDay(from), UtcDay(to) + 1, from, to, MinuteList(interval))
    ensures forall k :: 0 <= k < |queries| ==>
              queries[k] == PartitionQuery(UtcDay(from) + k, from, to, MinuteList(interval))
    ensures |queries| <= DayCount(from, to)
    ensures data.Ok? ==> |queries| == DayCount(from, to)
  {
    var minutes := MinuteList(interval);
    data, queries := FetchDays(DayReader(table, from, to, minutes), UtcDay(from), UtcDay(to) + 1, from, to, minutes);
    FetchRangeIsGathered(table, UtcDay(from), UtcDay(to) + 1, from, to, minutes);
  }

  /** The query of one date and the translation of its items, as the value the date loop applies. */
  function DayReader(table: Table, lo: int, hi: int, minutes: seq<int>): (read: int -> Result<seq<JsonObject>>)
  {
    day => DayReadings(table, day, lo, hi, minutes)
  }

  /**
   * The readings `read` gives for the dates `firstDay .. endDay - 1`,
   * concatenated in date order; the first date that fails decides the result.
   */
  function Gathered(read: int -> Result<seq<JsonObject>>, firstDay: int, endDay: int): (r: Result<seq<JsonObject>>)
    ensures firstDay < endDay && read(firstDay).Err? ==> r == read(firstDay)
    decreases endDay - firstDay
  {
    if endDay <= firstDay then Ok([])
    else
      var earlier :- Gathered(read, firstDay, endDay - 1);
      var items :- read(endDay - 1);
      Ok(earlier + items)
  }

  /** Fetching a range is gathering the readings of its dates with the table's day reader. */
  lemma {:induction false} FetchRangeIsGathered(
    table: Table, firstDay: int, endDay: int, lo: int, hi: int, minutes: seq<int>)
    ensures FetchRange(table, firstDay, endDay, lo, hi, minutes)
            == Gathered(DayReader(table, lo, hi, minutes), firstDay, endDay)
    decreases endDay - firstDay
  {
    if firstDay < endDay {
      FetchRangeIsGathered(table, firstDay, endDay - 1, lo, hi, minutes);
    }
  }

  /** A failed gathering stays failed, with the same error, however many dates follow. */
  lemma {:induction false} GatheredErrorPersists(
    read: int -> Result<seq<JsonObject>>, firstDay: int, midDay: int, endDay: int)
    requires firstDay <= midDay <= endDay
    requires Gathered(read, firstDay, midDay).Err?
    ensures Gathered(read, firstDay, endDay) == Gathered(read, firstDay, midDay)
    decreases endDay - midDay
  {
    if midDay < endDay {
      GatheredErrorPersists(read, firstDay, midDay, endDay - 1);
    }
  }

  /**
   * The `while current_date < stop` loop: one partition query per date,
   * results appended in date order. `read` is the query and translation of
   * one date (`DayReader` of the table and the request's bounds).
   */
  method FetchDays(read: int -> Result<seq<JsonObject>>, firstDay: int, stop: int, lo: int, hi: int, minutes: seq<int>)
    returns (data: Result<seq<JsonObject>>, queries: seq<PartitionQuery>)
    ensures data == Gathered(read, firstDay, stop)
    ensures forall k :: 0 <= k < |queries| ==> queries[k] == PartitionQuery(firstDay + k, lo, hi, minutes)
    ensures |queries| <= if firstDay < stop then stop - firstDay else 0
    ensures data.Ok? ==> queries == QueriesFrom(firstDay, stop, lo, hi, minutes)
  {
    var last := if firstDay < stop then stop else firstDay;
    var current := firstDay;
    var acc: seq<JsonObject> := [];
    queries := [];
    while current < stop
      invariant firstDay <= current <= last
      invariant queries == QueriesFrom(firstDay, current, lo, hi, minutes)
      invariant Gathered(read, firstDay, current) == Ok(acc)
    {
      queries := queries + [PartitionQuery(current, lo, hi, minutes)];
      var translated := read(current);
      if translated.Err? {
        GatheredErrorPersists(read, firstDay, current + 1, stop);
        assert |queries| == current + 1 - firstDay <= stop - firstDay;
        data := Err(translated.message);
        return;
      }
      acc := acc + translated.value;
      current := current + 1;
    }
    if current != stop {
      // An inverted range: no date was queried and the fetch is empty.
      assert current == firstDay;
    }
    data := Ok(acc);
  }

  /** What `get_data` returns for accepted parameters sampled every `interval` minutes. */
  function FetchFor(table: Table, q: QueryParameters, interval: int): (r: Result<seq<JsonObject>>)
    requires interval != 0
    ensures r.Ok? ==> forall o :: o in r.value ==> IsReadingJson(o)
  {
    FetchRange(table, UtcDay(q.from), UtcDay(q.to) + 1, q.from, q.to, MinuteList(interval))
  }

  /** With ordered partitions, the readings fetched for a request are in time order. */
  lemma FetchForOrdered(table: Table, q: QueryParameters, interval: int)
    requires interval != 0
    requires PartitionsOrdered(table)
    requires FetchFor(table, q, interval).Ok?
    ensures SortedBy(FetchFor(table, q, interval).value, ReadingTime)
  {
    var first, end := UtcDay(q.from), UtcDay(q.to) + 1;
    assert FetchFor(table, q, interval) == FetchRange(table, first, end, q.from, q.to, MinuteList(interval));
    FetchRangeOrdered(table, first, end, q.from, q.to, MinuteList(interval));
  }

  /** The handler's reply to what `get_data` returned: 200 with the hydrated readings, or the error. */
  function Answer(fetched: Result<seq<JsonObject>>, seaLevel: (real, real) -> real): (response: Response)
    requires fetched.Ok? ==> forall o :: o in fetched.value ==> IsReadingJson(o)
    ensures response.Reply? <==> fetched.Ok?
    ensures response.Reply? ==> response.statusCode == 200
                                && response.body == ReadingsBody(HydrateAll(fetched.value, seaLevel))
  {
    match fetched
    case Ok(data) => Reply(200, ReadingsBody(HydrateAll(data, seaLevel)))
    case Err(message) => Crash(message)
  }

  /**
   * `lambda_handler` as written: 400 with `{'message': ...}` on a validation
   * error, otherwise `get_data` with `query_parameters.get('interval', 1)` and
   * 200 with the hydrated readings. An accepted interval of 0 or "" reaches
   * `i % interval` and raises.
   */
  method LambdaHandlerAsWritten(
    parameters: map<string, string>, fromIsoFormat: string -> Option<int>,
    table: Table, seaLevel: (real, real) -> real)
    returns (response: Response)
    ensures ParseQueryParameters(parameters, fromIsoFormat).Err? ==>
              response == Reply(400, MessageBody(ParseQueryParameters(parameters, fromIsoFormat).message))
    ensures var p := ParseQueryParameters(parameters, fromIsoFormat);
            p.Ok? && p.value.interval == Minutes(0) ==> response == Crash(ZeroDivisionMessage)
    ensures var p := ParseQueryParameters(parameters, fromIsoFormat);
            p.Ok? && p.value.interval == EmptyText ==> response == Crash(StrModuloMessage)
    ensures var p := ParseQueryParameters(parameters, fromIsoFormat);
            p.Ok? && p.value.interval == Omitted ==> response == Answer(FetchFor(table, p.value, 1), seaLevel)
    ensures var p := ParseQueryParameters(parameters, fromIsoFormat);
            p.Ok? && p.value.interval.Truthy() ==>
              response == Answer(FetchFor(table, p.value, p.value.interval.n), seaLevel)
  {
    var parsed := ParseQueryParameters(parameters, fromIsoFormat);
    if parsed.Err? {
      return Reply(400, MessageBody(parsed.message));
    }
    var q := parsed.value;
    var interval: int;
    match q.interval {
      case Omitted => interval := 1;
      case EmptyText => return Crash(StrModuloMessage);
      case Minutes(n) => interval := n;
    }
    if interval == 0 {
      return Crash(ZeroDivisionMessage);
    }
    var data, _ := GetData(table, q.from, q.to, interval);
    return Answer(data, seaLevel);
  }

  /** An interval of 0 is accepted for a span of at most one day. */
  lemma ZeroIntervalPassesValidation(from: int, to: int)
    requires ElapsedDays(from, to) <= 1
    ensures ValidateQueryParameters(from, to, Minutes(0)) == Pass
    ensures ValidateQueryParameters(from, to, EmptyText) == Pass
  {
  }

  /** Half a day with `interval=0` is accepted and reaches the handler's division by zero. */
  lemma ZeroIntervalReachesDivision(fromText: string, toText: string, fromIsoFormat: string -> Option<int>)
    requires fromIsoFormat(StripAllTrailing(fromText, 'Z')) == Some(1704067200)
    requires fromIsoFormat(StripAllTrailing(toText, 'Z')) == Some(1704110400)
    ensures var parameters := map["from_timestamp" := fromText, "to_timestamp" := toText, "interval" := "0"];
            ParseQueryParameters(parameters, fromIsoFormat) == Ok(QueryParameters(1704067200, 1704110400, Minutes(0)))
  {
    var parameters := map["from_timestamp" := fromText, "to_timestamp" := toText, "interval" := "0"];
    assert ParseInt("0") == Some(0);
    assert IntervalArgOf(parameters) == Ok(Minutes(0));
    ZeroIntervalPassesValidation(1704067200, 1704110400);
  }

  /** The interval the corrected handler samples at: a falsy interval means the default 1. */
  function EffectiveInterval(interval: IntervalArg): (n: int)
    ensures !(interval.Minutes? && interval.n < 0) ==> n >= 1
    ensures interval.Truthy() ==> n == interval.n
  {
    if interval.Truthy() then interval.n else 1
  }

  /** Every interval that passes validation is sampled at one minute or more. */
  lemma AcceptedIntervalIsPositive(from: int, to: int, interval: IntervalArg)
    requires ValidateQueryParameters(from, to, interval).Pass?
    ensures EffectiveInterval(interval) >= 1
  {
  }

  /**
   * `lambda_handler` with `query_parameters.get('interval') or 1`: every
   * accepted request is answered with 200, unless a stored item cannot be
   * translated.
   */
  method LambdaHandler(
    parameters: map<string, string>, fromIsoFormat: string -> Option<int>,
    table: Table, seaLevel: (real, real) -> real)
    returns (response: Response)
    ensures ParseQueryParameters(parameters, fromIsoFormat).Err? ==>
              response == Reply(400, MessageBody(ParseQueryParameters(parameters, fromIsoFormat).message))
    ensures var p := ParseQueryParameters(parameters, fromIsoFormat);
            p.Ok? ==> response == Answer(FetchFor(table, p.value, EffectiveInterval(p.value.interval)), seaLevel)
  {
    var parsed := ParseQueryParameters(parameters, fromIsoFormat);
    if parsed.Err? {
      return Reply(400, MessageBody(parsed.message));
    }
    AcceptedIntervalIsPositive(parsed.value.from, parsed.value.to, parsed.value.interval);
    var data, _ := GetData(table, parsed.value.from, parsed.value.to, EffectiveInterval(parsed.value.interval));
    return Answer(data, seaLevel);
  }
}
