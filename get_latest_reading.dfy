/**
 * GET /readings/latest (server/get_latest_reading/app.py): a backward scan
 * over the last 31 date partitions and the 404/200 mapping of the handler.
 * `translate_item` and `hydrate_reading` in that file are the same as in
 * server/common/python/utils.py and are modelled once, in CommonUtils.
 */
module GetLatestReading {
  import opened Wrappers
  import opened Records
  import opened CommonUtils

  /** The scan covers today and the 30 days before it. */
  const DaysBack: nat := 30

  const NotFoundMessage: string := "No reading found in last 30 days."
  const BadTimestampMessage: string := "TypeError: item without a numeric 'timestamp'"

  predicate HasTimestamp(item: Item)
  {
    "timestamp" in item && item["timestamp"].Num?
  }

  function Timestamp(item: Item): real
    requires HasTimestamp(item)
  {
    item["timestamp"].x
  }

  /**
   * `max(items, key=lambda i: i['timestamp'])`: the position of the greatest
   * timestamp, the first one on ties, since `max` only replaces its candidate
   * on a strictly greater key.
   */
  function MaxIndex(items: seq<Item>): (k: nat)
    requires |items| > 0
    requires forall i :: 0 <= i < |items| ==> HasTimestamp(items[i])
    ensures k < |items|
    ensures forall i :: 0 <= i < |items| ==> Timestamp(items[i]) <= Timestamp(items[k])
    ensures forall i :: 0 <= i < k ==> Timestamp(items[i]) < Timestamp(items[k])
  {
    if |items| == 1 then 0
    else
      var k := MaxIndex(items[..|items| - 1]);
      if Timestamp(items[|items| - 1]) > Timestamp(items[k]) then |items| - 1 else k
  }

  /** `translate_item(max(items, ...))` for a non-empty partition. */
  function LatestOf(items: seq<Item>): (r: Result<Option<JsonObject>>)
    requires |items| > 0
    ensures r.Ok? ==> r.value.Some? && IsReadingJson(r.value.value)
    ensures r.Ok? <==> (forall i :: 0 <= i < |items| ==> HasTimestamp(items[i]))
                       && IsNumericReading(items[MaxIndex(items)])
    ensures r.Ok? ==> TranslateItem(items[MaxIndex(items)]) == Ok(r.value.value)
  {
    if exists i :: 0 <= i < |items| && !HasTimestamp(items[i]) then Err(BadTimestampMessage)
    else
      var reading :- TranslateItem(items[MaxIndex(items)]);
      Ok(Some(reading))
  }

  /** The partition of the date `back` days before `today`. */
  function DayBack(table: Table, today: int, back: int): seq<Item>
  {
    Partition(table, today - back)
  }

  /** The offset `k` (date `today - k`) of the first non-empty partition from offset `from` on, if any. */
  function FirstNonEmptyOffset(table: Table, today: int, from: nat): (r: Option<nat>)
    requires from <= DaysBack + 1
    ensures r.Some? ==> from <= r.value <= DaysBack && DayBack(table, today, r.value) != []
    ensures r.Some? ==> forall j :: from <= j < r.value ==> DayBack(table, today, j) == []
    ensures r.None? <==> forall j :: from <= j <= DaysBack ==> DayBack(table, today, j) == []
    decreases DaysBack + 1 - from
  {
    if from > DaysBack then None
    else if DayBack(table, today, from) != [] then Some(from)
    else FirstNonEmptyOffset(table, today, from + 1)
  }

  /**
   * What the scan yields: the latest reading of the newest non-empty
   * partition among the last 31 dates, or None when all of them are empty.
   */
  function LatestWithinDays(table: Table, today: int): (r: Result<Option<JsonObject>>)
    ensures r == Ok(None) <==> forall j :: 0 <= j <= DaysBack ==> DayBack(table, today, j) == []
    ensures r.Ok? && r.value.Some? ==> IsReadingJson(r.value.value)
  {
    match FirstNonEmptyOffset(table, today, 0)
    case None => Ok(None)
    case Some(k) => LatestOf(DayBack(table, today, k))
  }

  /**
   * `get_latest_reading`: walks the dates `today, today - 1, ...,
   * today - 30` and returns the latest reading of the first non-empty
   * partition, or None. `queried` lists the dates queried, in order.
   */
  method GetLatestReading(table: Table, today: int) returns (latest: Result<Option<JsonObject>>, queried: seq<int>)
    ensures latest == LatestWithinDays(table, today)
    ensures |queried| == match FirstNonEmptyOffset(table, today, 0)
                         case None => DaysBack + 1
                         case Some(k) => k + 1
    ensures forall j :: 0 <= j < |queried| ==> queried[j] == today - j
  {
    var current := today;
    var stop := today - DaysBack;
    queried := [];
    while current >= stop
      invariant stop - 1 <= current <= today
      invariant |queried| == today - current
      invariant forall j :: 0 <= j < |queried| ==> queried[j] == today - j
      invariant forall j :: 0 <= j < |queried| ==> DayBack(table, today, j) == []
    {
      var k := |queried|;
      queried := queried + [current];
      var items := Partition(table, current);
      assert items == DayBack(table, today, k);
      if |items| > 0 {
        LatestComesFromNewestNonEmptyDay(table, today, k);
        LatestWithinDaysAt(table, today, k);
        latest := LatestOf(items);
        return;
      }
      current := current - 1;
    }
    latest := Ok(None);
  }

  lemma LatestWithinDaysAt(table: Table, today: int, k: nat)
    requires FirstNonEmptyOffset(table, today, 0) == Some(k)
    ensures LatestWithinDays(table, today) == LatestOf(DayBack(table, today, k))
  {
  }

  /** The scan is the latest-reading query of the first non-empty of the last 31 dates. */
  lemma LatestComesFromNewestNonEmptyDay(table: Table, today: int, k: nat)
    requires k <= DaysBack && DayBack(table, today, k) != []
    requires forall j :: 0 <= j < k ==> DayBack(table, today, j) == []
    ensures FirstNonEmptyOffset(table, today, 0) == Some(k)
  {
  }

  /**
   * `lambda_handler`: 404 with a message when nothing was found, 200 with
   * the hydrated reading otherwise; an item that cannot be translated raises.
   */
  method LambdaHandler(table: Table, today: int, seaLevel: (real, real) -> real) returns (response: Response)
    ensures var latest := LatestWithinDays(table, today);
            response == match latest
                        case Err(message) => Crash(message)
                        case Ok(None) => BareReply(404, NotFoundMessage)
                        case Ok(Some(reading)) => Reply(200, ReadingBody(HydrateReading(reading, seaLevel)))
  {
    var latest, queried := GetLatestReading(table, today);
    match latest {
      case Err(message) =>
        response := Crash(message);
      case Ok(None) =>
        response := BareReply(404, NotFoundMessage);
      case Ok(Some(reading)) =>
        response := Reply(200, ReadingBody(HydrateReading(reading, seaLevel)));
    }
  }
}
