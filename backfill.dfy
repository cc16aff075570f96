/**
 * The CSV backfill script (server/backfill.py): one line of the sensor log
 * to a reading, and the half-open time-range filter applied before writing.
 */
module Backfill {
  import opened Wrappers
  import opened Text
  import opened Seqs
  import opened Records
  import Fetch

  /** The CSV columns, in file order. */
  const ColumnHeadings: seq<string> := ["timestamp", "temperature", "relative_humidity", "air_pressure", "altitude"]

  const NoneTimestampMessage: string := "TypeError: 'NoneType' object cannot be interpreted as an integer"
  const InfTimestampMessage: string := "OverflowError: cannot convert float infinity to integer"
  const NaNTimestampMessage: string := "ValueError: cannot convert float NaN to integer"

  const TimeTOverflowMessage: string := "OverflowError: timestamp out of range for platform time_t"
  const YearRangeMessage: string := "ValueError: year is out of range"

  /** 0001-01-01T00:00:00Z and 9999-12-31T23:59:59Z, the first and last whole seconds a `datetime` holds. */
  const MinEpoch: int := -62135596800
  const MaxEpoch: int := 253402300799

  /** The range of a 64-bit `time_t`: `[-2^63, 2^63)`. */
  const TimeTBound: int := 0x8000_0000_0000_0000

  function Min(a: int, b: int): int { if a <= b then a else b }

  /** A finite timestamp whose whole seconds fall in the years 1 to 9999. */
  predicate Representable(t: Measure)
  {
    t.Finite? && MinEpoch <= t.x.Floor <= MaxEpoch
  }

  /**
   * `datetime.fromtimestamp(t, UTC)`: a finite number in the years 1 to
   * 9999 is an instant in UTC (whole seconds); `None`, infinity and NaN
   * raise, and so does a number outside `time_t` or outside those years.
   */
  function InstantOf(t: Measure): (r: Result<Instant>)
    ensures r.Ok? <==> Representable(t)
    ensures r.Ok? ==> r.value == Instant(t.x.Floor, 0)
    ensures t.Finite? && (t.x.Floor < -TimeTBound || t.x.Floor >= TimeTBound) ==> r == Err(TimeTOverflowMessage)
  {
    match t
    case Finite(x) =>
      if x.Floor < -TimeTBound || x.Floor >= TimeTBound then Err(TimeTOverflowMessage)
      else if x.Floor < MinEpoch || x.Floor > MaxEpoch then Err(YearRangeMessage)
      else Ok(Instant(x.Floor, 0))
    case Absent => Err(NoneTimestampMessage)
    case Inf => Err(InfTimestampMessage)
    case NaN => Err(NaNTimestampMessage)
  }

  /**
   * `parse_line_to_reading`: split on commas, pair the fields with the
   * headings up to the shorter of the two, parse each with `float`
   * (`parseFloat`, which gives `Absent` where `float` raises `ValueError`),
   * then turn the timestamp into a UTC datetime.
   */
  method ParseLineToReading(line: string, parseFloat: string -> Measure) returns (r: Result<Record>)
    ensures var fields := Split(line, ',');
            r.Ok? <==> Representable(parseFloat(fields[0]))
    ensures var fields := Split(line, ',');
            r.Ok? ==> r.value.Keys == set j | 0 <= j < Min(|ColumnHeadings|, |fields|) :: ColumnHeadings[j]
    ensures var fields := Split(line, ',');
            r.Ok? ==> forall j :: 1 <= j < Min(|ColumnHeadings|, |fields|) ==>
                        r.value[ColumnHeadings[j]] == Value(parseFloat(fields[j]))
    ensures var fields := Split(line, ',');
            r.Err? ==> r == Err(InstantOf(parseFloat(fields[0])).message)
    ensures r.Ok? ==> Fetch.IsReading(r.value)
    ensures var fields := Split(line, ',');
            r.Ok? ==> r.value["timestamp"] == Time(Instant(parseFloat(fields[0]).x.Floor, 0))
  {
    var fields := Split(line, ',');
    var reading := ZipWithHeadings(fields, parseFloat);
    assert ColumnHeadings[0] in reading;
    var at := InstantOf(reading["timestamp"].m);
    if at.Err? {
      return Err(at.message);
    }
    reading := reading["timestamp" := Time(at.value)];
    return Ok(reading);
  }

  /**
   * The `for l, d in zip(COLUMN_HEADINGS, raw_data)` loop: each heading up
   * to the shorter of the two sequences maps to its field parsed with `float`.
   */
  method ZipWithHeadings(fields: seq<string>, parseFloat: string -> Measure) returns (reading: Record)
    ensures reading.Keys == set j | 0 <= j < Min(|ColumnHeadings|, |fields|) :: ColumnHeadings[j]
    ensures forall j :: 0 <= j < Min(|ColumnHeadings|, |fields|) ==>
              reading[ColumnHeadings[j]] == Value(parseFloat(fields[j]))
  {
    var n := Min(|ColumnHeadings|, |fields|);
    reading := map[];
    var i := 0;
    while i < n
      invariant 0 <= i <= n
      invariant reading.Keys == set j | 0 <= j < i :: ColumnHeadings[j]
      invariant forall j :: 0 <= j < i ==> reading[ColumnHeadings[j]] == Value(parseFloat(fields[j]))
    {
      reading := reading[ColumnHeadings[i] := Value(parseFloat(fields[i]))];
      i := i + 1;
    }
  }

  /** `FROM_TIMESTAMP or 0.0`. */
  function LowerBound(from: Option<int>): (lower: int)
    ensures from.Some? ==> lower == from.value
    ensures from.None? ==> lower == 0
  {
    if from.Some? && from.value != 0 then from.value else 0
  }

  /** `TO_TIMESTAMP or time.time()`: an absent or zero bound means now. */
  function UpperBound(to: Option<int>, now: int): (upper: int)
    ensures to.Some? && to.value != 0 ==> upper == to.value
    ensures to.None? || to.value == 0 ==> upper == now
  {
    if to.Some? && to.value != 0 then to.value else now
  }

  /** The reading's timestamp lies in `[lower, upper)`. */
  predicate InRange(reading: Record, lower: int, upper: int)
  {
    && "timestamp" in reading && reading["timestamp"].Time?
    && lower <= reading["timestamp"].at.epoch < upper
  }

  /** The comprehension that keeps the readings from `FROM` up to, not including, `TO`. */
  function FilterByRange(readings: seq<Record>, from: Option<int>, to: Option<int>, now: int): (kept: seq<Record>)
    ensures IsSubsequence(kept, readings)
    ensures forall i :: 0 <= i < |kept| ==>
              kept[i] in readings && InRange(kept[i], LowerBound(from), UpperBound(to, now))
    ensures forall i :: 0 <= i < |readings| && InRange(readings[i], LowerBound(from), UpperBound(to, now)) ==>
              readings[i] in kept
    ensures forall i :: 0 <= i < |readings| ==>
              multiset(kept)[readings[i]]
              == (if InRange(readings[i], LowerBound(from), UpperBound(to, now)) then multiset(readings)[readings[i]] else 0)
  {
    var lower := LowerBound(from);
    var upper := UpperBound(to, now);
    FilterIsSubsequence(readings, r => InRange(r, lower, upper));
    FilterCounts(readings, r => InRange(r, lower, upper));
    Filter(readings, r => InRange(r, lower, upper))
  }

  /** The range is half open: a reading exactly at `TO` is dropped, one exactly at `FROM` kept. */
  lemma RangeIsHalfOpen(reading: Record, from: int, to: int)
    requires "timestamp" in reading && reading["timestamp"].Time?
    requires from < to
    ensures reading["timestamp"].at.epoch == to ==> FilterByRange([reading], Some(from), Some(to), 0) == []
    ensures reading["timestamp"].at.epoch == from ==> FilterByRange([reading], Some(from), Some(to), 0) == [reading]
  {
    var kept := FilterByRange([reading], Some(from), Some(to), 0);
    if reading["timestamp"].at.epoch == from {
      assert InRange(reading, LowerBound(Some(from)), UpperBound(Some(to), 0)) by {
        if to == 0 { assert from < 0; }
      }
      assert reading in kept;
    }
  }

  /** Filtering twice with the same bounds keeps what filtering once kept. */
  lemma FilterByRangeIdempotent(readings: seq<Record>, from: Option<int>, to: Option<int>, now: int)
    ensures FilterByRange(FilterByRange(readings, from, to, now), from, to, now) == FilterByRange(readings, from, to, now)
  {
    var lower := LowerBound(from);
    var upper := UpperBound(to, now);
    FilterIdempotent(readings, r => InRange(r, lower, upper));
  }
}
