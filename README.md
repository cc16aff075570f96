# weatherstation: a verified model of the read path, the write encoding and the dashboard's request logic

This project models the core of the weatherstation service in Dafny:

- **The sensor write path.** A reading (a dict holding a timezone-aware `timestamp` and float-or-None measurements) becomes a DynamoDB item via `create_item`, which is defined in both `server/jobs/fetch.py` and `server/common/python/utils.py`. The CSV backfill script (`server/backfill.py`) parses log lines into such readings and filters them to a half-open time range.
- **`GET /readings`** (`server/get_readings/app.py`). It parses and validates the `from_timestamp`/`to_timestamp`/`interval` query parameters against the constraint table `(1,10),(7,30),(14,60)`. It then reads one date partition per calendar day with a minute-of-hour filter, and translates and hydrates the items. The Flask server's schema validator (`server/station.py`) is a near copy of this validator and is modelled alongside it.
- **`GET /readings/latest`** (`server/get_latest_reading/app.py`). It scans the last 31 date partitions backwards and returns the newest reading of the first non-empty one, or 404.
- **The dashboard** (`web/src/App.js`, `web/src/TimeSpanPicker.js`).
  - The sampling interval the client asks for, and the URL it builds.
  - The time-series extraction and the state changes when readings arrive.
  - The single-key duration objects of the range picker, and its change-only `setTimestamps`.

Modelling conventions:

- Instants are integer epoch seconds in UTC. A UTC date is `epoch div 86400`, and `timedelta.days` is floor division.
- Python floats are an abstract `Finite(x) | Inf | NaN | Absent`.
- The table is a map from UTC day to the sequence of items its partition returns.
- Python truthiness is kept explicit. An `interval` may be omitted, the empty string, or an integer, and 0 and "" are falsy.
- JavaScript's `%`, `Math.ceil`, `Math.trunc` and `===` on `Date` objects are each written out.
- Functions model pure code. Loops that build a dict, walk dates or count up an interval are methods with loop invariants, each proved equal to a specification function. Component state is a class whose methods modify its fields.

Files:

| file | contents |
|---|---|
| `wrappers.dfy` | Option/Result/Outcome |
| `clock.dfy` | UTC date, hour and minute of an instant |
| `text.dfy` | Integer rendering and parsing, Z stripping, split/join |
| `seqs.dfy` | Order-preserving filter |
| `records.dfy` | Shared data shapes |
| `fetch.dfy` | `create_item` |
| `common_utils.dfy` | `translate_item`, `hydrate_reading` |
| `get_readings.dfy` | GET /readings |
| `station.dfy` | Flask validator and query dispatch |
| `get_latest_reading.dfy` | GET /readings/latest |
| `backfill.dfy` | CSV backfill |
| `app.dfy` | Dashboard |
| `time_span_picker.dfy` | Range picker |
| `consistency.dfy` | Properties that span components |

Notable behaviours of the code that the model keeps:

- **Inverted ranges.** A range with `to < from` is not rejected. Its `elapsed_days` is negative, so it passes the short-span test (`GetReadings.InvertedRangeAccepted`).
- **How the minimum interval is computed.** The server does not derive a minimum interval by rounding `span/720/60` up to a divisor of 60. That computation lives only in the dashboard. The server checks the fixed table in order and reports the first violated pair. So nine days at interval 5 is rejected naming `(1, 10)`, not `(7, 30)` (`GetReadings.NineDaysAtFiveMinutes`).
- **The minute filter at interval 1.** It is applied even then, and admits all 60 minutes (`GetReadings.MinuteListOfOne`).
- **Order within a partition.** Items are returned in the store's order. The fetch is in time order only given that the store keeps each partition sorted by its sort key (`GetReadings.FetchRangeOrdered`).

## Model

| member | source | states |
|---|---|---|
| Clock.UtcDay | server/jobs/fetch.py:21-23 | The UTC date of an instant is the day whose 86400-second window holds it |
| Clock.UtcHour | server/jobs/fetch.py:25 | The UTC hour is in 0..23 |
| Clock.UtcMinute | server/jobs/fetch.py:26 | The UTC minute is in 0..59 |
| Clock.ElapsedDays | server/get_readings/app.py:96-98 | `timedelta.days` is the floor of the span in days: `days*86400 <= to-from < (days+1)*86400` |
| Clock.Decompose | server/jobs/fetch.py:21-26 | Date, hour, minute and second recompose the epoch value they were derived from |
| Clock.UtcDayMonotone | server/get_readings/app.py:171-172 | Later instants never fall on earlier dates |
| Text.ParseInt | server/get_readings/app.py:86-89 | `int(s)` succeeds exactly on a non-empty run of digits, optionally after one `+` or `-`; its value is the digits' decimal value, negated after `-` |
| Text.IntToString | web/src/App.js:72 | The decimal rendering is non-empty and ends with a digit |
| Text.ParseIntOfIntToString | web/src/App.js:72 | Parsing the rendering of `n` gives back `n` |
| Text.StripAllTrailing | server/get_readings/app.py:71 | `rstrip('Z')` leaves no trailing Z and removes only Zs |
| Text.StripOneTrailing | server/station.py:93-94 | Exactly one trailing Z is removed; other strings are unchanged |
| Text.Split | server/backfill.py:37 | `line.split(',')` gives at least one field, none containing the separator |
| Text.JoinSplit | server/backfill.py:37 | Joining the fields of a split restores the line |
| Text.SplitJoin | web/src/App.js:74-78 | Splitting a join of separator-free fields returns the fields |
| Seqs.Filter | server/backfill.py:61-65 | The comprehension keeps only elements passing the test, and every element that passes |
| Seqs.FilterCounts | server/backfill.py:61-65 | Each passing element is kept as often as the input holds it; a failing one never |
| Seqs.FilterIsSubsequence | server/backfill.py:61-65 | The comprehension preserves order |
| Seqs.FilterIdempotent | server/backfill.py:61-65 | Filtering twice equals filtering once |
| Seqs.FilterKeepsOrder | server/get_readings/app.py:174-184 | A filtered query over a sorted partition stays sorted |
| Records.Partition | server/get_readings/app.py:174-177 | A date with no partition yields no items |
| Fetch.EncodeMeasure | server/jobs/fetch.py:33-41 | An attribute is NULL iff the value is None, infinite or NaN; otherwise it is the number |
| Fetch.ItemOf | server/jobs/fetch.py:20-43 | Keys are exactly `{date, timestamp, hour, minute}` plus the data's keys minus `timestamp`; date, hour and minute are those of the UTC instant; timestamp is its epoch; every other field is encoded |
| Fetch.CreateItem | server/jobs/fetch.py:20-43 | The loop over the non-timestamp fields builds exactly `ItemOf(data)`; the copy at server/common/python/utils.py:45-68 is the same code |
| Fetch.ItemIgnoresOffset | server/jobs/fetch.py:21-24 | The item depends only on the instant, not on the input's timezone offset |
| CommonUtils.FloatAttr | server/common/python/utils.py:38-41 | `float(item[k])` succeeds iff the attribute is present and numeric |
| CommonUtils.TranslateItem | server/common/python/utils.py:29-42 | Succeeds iff all five attributes are numeric; the output has exactly the five keys, timestamp in UTC, and each value passed through; the copies at server/get_readings/app.py:29-42 and server/get_latest_reading/app.py:18-31 are the same code |
| CommonUtils.HydrateReading | server/common/python/utils.py:12-26 | Output keys are the input keys plus `sea_level_air_pressure`; other values are copied; the new key is None iff `air_pressure` is missing, None or 0; the copies at server/get_readings/app.py:45-61 and server/get_latest_reading/app.py:34-48 are the same code |
| CommonUtils.HydrateAll | server/get_readings/app.py:213 | One hydrated reading per reading, in order |
| CommonUtils.TranslateWrittenItem | server/common/python/utils.py:29-45 | An item written from finite measurements translates back to the same timestamp and values |
| CommonUtils.NullMeasurementFailsTranslation | server/common/python/utils.py:38-41 | A measurement stored as NULL makes translation fail |
| GetReadings.ParseTimestamp | server/get_readings/app.py:64-79 | Fails with "Unable to parse timestamp." iff `fromisoformat` rejects the string with all trailing Zs removed |
| GetReadings.ParseInterval | server/get_readings/app.py:82-89 | Fails with "Unable to parse interval." iff `int()` fails; otherwise the result is `int()`'s value |
| GetReadings.ParseIntervalOfIntToString | server/get_readings/app.py:82-89 | Every integer's rendering parses back to it |
| GetReadings.IntervalArgOf | server/get_readings/app.py:141-142 | No key gives no interval, "" stays the empty string, otherwise the integer or a parse error; an integer interval is `int()` of the key's value |
| GetReadings.FirstViolation | server/get_readings/app.py:113-118 | Finds the first pair with `elapsed > limit` and `interval < min`, with no earlier pair violated |
| GetReadings.FirstViolationOfTable | server/get_readings/app.py:12-16 | For the table, no pair is violated iff `elapsed <= 1` or the interval reaches 10/30/60 for spans over 1/7/14 days |
| GetReadings.ValidateQueryParameters | server/get_readings/app.py:92-123 | The validator passes exactly the non-negative intervals on spans of at most a day, and the sufficient integer intervals on spans of at most 30 days |
| GetReadings.NegativeIntervalRejectedFirst | server/get_readings/app.py:101-104 | A negative interval is rejected whatever the span |
| GetReadings.ShortSpanAccepted | server/get_readings/app.py:96-106 | At most one elapsed day is accepted with no, empty, zero or any non-negative interval |
| GetReadings.InvertedRangeAccepted | server/get_readings/app.py:96-106 | `to < from` gives negative elapsed days and is accepted |
| GetReadings.MissingIntervalRejected | server/get_readings/app.py:108-111 | Over one day, a missing, empty or zero interval gives the missing-interval error |
| GetReadings.FirstViolatedPairNamed | server/get_readings/app.py:113-118 | The first violated pair, in table order, names the limits in the error |
| GetReadings.OverThirtyDaysRejected | server/get_readings/app.py:113-123 | Every span over 30 days is rejected; an interval of 60 or more is rejected with "Timespans greater than 30 days are forbidden." |
| GetReadings.AcceptanceMonotoneInInterval | server/get_readings/app.py:113-123 | Raising the interval never turns acceptance into rejection |
| GetReadings.AcceptanceMonotoneInSpan | server/get_readings/app.py:113-123 | Shortening the span never turns acceptance into rejection |
| GetReadings.NineDaysAtFiveMinutes | server/get_readings/app.py:113-118 | Nine days at interval 5 is rejected naming the pair (1, 10) |
| GetReadings.ParseQueryParameters | server/get_readings/app.py:126-153 | A missing `from_timestamp` is reported first and a missing `to_timestamp` second. An unparsable timestamp gives "Unable to parse timestamp.". With both timestamps and the interval read, it succeeds iff the validator passes, and otherwise fails with the validator's message. On success the interval is the one read from the parameters |
| GetReadings.UnparsableIntervalRejected | server/get_readings/app.py:141-142 | With readable timestamps, a non-integer interval gives "Unable to parse interval." |
| GetReadings.MinutesFrom | server/get_readings/app.py:166 | The comprehension from `i`: exactly the multiples of the interval in `i..59`, ascending |
| GetReadings.MinuteList | server/get_readings/app.py:166 | The minute filter is exactly `{m in 0..59 : m mod interval = 0}`, ascending |
| GetReadings.AscendingUnique | server/get_readings/app.py:166 | Two ascending lists with the same members are equal |
| GetReadings.MinuteListOfOne | server/get_readings/app.py:166 | Interval 1 admits all 60 minutes, in order |
| GetReadings.Admits | server/get_readings/app.py:175-184 | An item passes the key condition and the filter iff its timestamp is a number in `[from, to]` and its minute is a number equal to one of the listed minutes |
| GetReadings.QueryPartition | server/get_readings/app.py:174-184 | The query returns only the partition's admitted items, and every admitted item, in store order |
| GetReadings.QueryPartitionKeepsMultiplicity | server/get_readings/app.py:174-184 | Each admitted item comes back as often as the partition holds it; no other item comes back |
| GetReadings.TranslateAll | server/get_readings/app.py:185 | Succeeds iff every item translates; the results correspond one to one |
| GetReadings.DayReadings | server/get_readings/app.py:174-185 | One date's translated readings all have the reading shape |
| GetReadings.FetchRange | server/get_readings/app.py:171-187 | The fetch over a date range yields only well-shaped readings |
| GetReadings.FetchRangeStopsAtFailure | server/get_readings/app.py:171-187 | A translation error on one date aborts the whole fetch with that error |
| GetReadings.FetchRangeStep | server/get_readings/app.py:185-186 | Each further date appends exactly that date's readings |
| GetReadings.FetchRangeConcatenates | server/get_readings/app.py:171-187 | The fetch over a range is the fetch over its first part followed by the rest: results are in date order |
| GetReadings.FetchRangeHoldsEachDay | server/get_readings/app.py:171-187 | Each date's readings appear as a block between those of earlier and later dates |
| GetReadings.QueriedItemsOnDay | server/get_readings/app.py:174-184 | Given partitions that hold only their own date, every queried item lies on the queried date |
| GetReadings.DayReadingsOrdered | server/get_readings/app.py:174-185 | Given sorted partitions, one date's readings are in time order and on that date |
| GetReadings.FetchRangeOrdered | server/get_readings/app.py:171-187 | Given sorted partitions, the whole fetch is in non-decreasing time order |
| GetReadings.DayReadingComesFromAdmittedItem | server/get_readings/app.py:174-185 | Every reading of one date is the translation of an admitted item of that date's partition |
| GetReadings.FetchRangeReturnsOnlyAdmitted | server/get_readings/app.py:171-187 | Every fetched reading is the translation of an admitted item of a date in the range |
| GetReadings.FetchForReturnsOnlyRequested | server/get_readings/app.py:171-187 | Every reading `get_data` returns comes from an admitted item of a date between `from.date()` and `to.date()`, and its timestamp lies in `[from, to]` |
| GetReadings.QueriesFrom | server/get_readings/app.py:171-186 | One query per date of the range, in ascending date order, each with the request's bounds and minute filter |
| GetReadings.Gathered | server/get_readings/app.py:171-187 | Concatenating per-date results: a failure on the first date is the result |
| GetReadings.FetchRangeIsGathered | server/get_readings/app.py:171-187 | The range fetch is the date loop's gathering with the query of the table as the per-date reader |
| GetReadings.GatheredErrorPersists | server/get_readings/app.py:185 | Once a date fails, the result is that failure however many dates follow |
| GetReadings.GetData | server/get_readings/app.py:156-188 | `get_data` returns the range fetch. It issues one query per date from `from.date()` to `to.date()`, ascending, each bounded by `[from, to]` with the minute filter. It issues all of them when it succeeds and none for an inverted date range |
| GetReadings.FetchDays | server/get_readings/app.py:171-187 | The date loop gathers the readings of `from.date()` up to `stop` in date order and records one query per date, consecutive from the first; all of them when it succeeds, never more than the dates in the range |
| GetReadings.FetchFor | server/get_readings/app.py:205-209 | The readings fetched for accepted parameters are well shaped |
| GetReadings.FetchForOrdered | server/get_readings/app.py:205-209 | Given sorted partitions, the readings `get_data` returns for a request are in non-decreasing time order |
| GetReadings.Answer | server/get_readings/app.py:211-214 | A successful fetch gives 200 with every reading hydrated; an error propagates |
| GetReadings.LambdaHandlerAsWritten | server/get_readings/app.py:191-214 | 400 with the message on a validation error. Interval 0 crashes with ZeroDivisionError and "" with TypeError. No interval samples every minute; otherwise the interval is used |
| GetReadings.ZeroIntervalPassesValidation | server/get_readings/app.py:101-106 | Interval 0 or "" passes validation for spans of at most one day |
| GetReadings.ZeroIntervalReachesDivision | server/get_readings/app.py:141-148 | Half a day with `interval=0` parses to an accepted request carrying interval 0 |
| GetReadings.EffectiveInterval | server/get_readings/app.py:208 | Corrected version of `get('interval', 1)`, which only defaults a missing key: a truthy interval is used as is, and every interval that is not a negative number is at least 1 |
| GetReadings.AcceptedIntervalIsPositive | server/get_readings/app.py:101-123 | Every request that passes validation is sampled at one minute or more |
| GetReadings.LambdaHandler | server/get_readings/app.py:191-214 | 400 with the message on a validation error. Every accepted request is answered from the fetch at its effective interval |
| Station.ValidateQuery | server/station.py:42-69 | Passes exactly the requests the Lambda's acceptance rule admits |
| Station.AsIntervalArg | server/station.py:34 | The schema's optional integer seen as the Lambda's interval argument |
| Station.NegativeIntervalRejectedFirst | server/station.py:47-50 | A negative interval is rejected before any span check |
| Station.ShortSpanAccepted | server/station.py:51-52 | At most one elapsed day is accepted with no or any non-negative interval |
| Station.MissingIntervalRejected | server/station.py:54-57 | Over one day, an absent or zero interval is rejected |
| Station.FirstViolatedPairNamed | server/station.py:59-64 | The first violated pair, in table order, names the limits |
| Station.ValidateQueryAgreesWithLambda | server/station.py:42-69 | Accepts exactly what `validate_query_parameters` accepts, and gives the corresponding non-positive and missing-interval errors in the same cases |
| Station.OverThirtyDaysRejected | server/station.py:59-69 | Every span over 30 days is rejected; an interval of 60 or more is rejected with "timespans greater than 30 days are forbidden" |
| Station.ParseTimestamp | server/station.py:92-97 | Exactly one trailing Z is removed before `fromisoformat` |
| Station.StripsOnlyOneZ | server/station.py:93-94 | With two trailing Zs one remains, where the Lambda's `rstrip` removes both |
| Station.ParseQueryParams | server/station.py:100-104 | Succeeds iff both bounds, defaulting to "", parse |
| Station.SelectQuery | server/station.py:116-131 | A truthy interval selects the sparse query with `nth_mins = interval`; otherwise the full query is selected, over the same bounds |
| Station.GetReadingsQuery | server/station.py:107-131 | 400 iff validation fails; otherwise the selected query |
| Station.AcceptedSparseQueryIsPositive | server/station.py:116-124 | An accepted sparse query samples every `n >= 1` minutes |
| Station.LongSpanIsSparse | server/station.py:116-124 | An accepted span over one day always runs the sparse query |
| GetLatestReading.MaxIndex | server/get_latest_reading/app.py:72 | `max` by timestamp picks a greatest timestamp, the first on ties |
| GetLatestReading.LatestOf | server/get_latest_reading/app.py:70-72 | Succeeds iff every item has a numeric timestamp and the maximal one translates; the result is its translation |
| GetLatestReading.FirstNonEmptyOffset | server/get_latest_reading/app.py:61-73 | Finds the first non-empty partition among today, today-1, ..., today-30 |
| GetLatestReading.LatestWithinDays | server/get_latest_reading/app.py:51-73 | None iff all 31 partitions are empty; a found reading has the reading shape |
| GetLatestReading.GetLatestReading | server/get_latest_reading/app.py:51-73 | The scan returns `LatestWithinDays`. It queries today, today-1, ... in strictly descending order, stops at the first non-empty date, and makes at most 31 queries |
| GetLatestReading.LatestComesFromNewestNonEmptyDay | server/get_latest_reading/app.py:66-73 | The newest non-empty date among the 31 is the one the scan answers from |
| GetLatestReading.LambdaHandler | server/get_latest_reading/app.py:76-92 | Nothing found gives 404 with "No reading found in last 30 days."; a reading gives 200 with it hydrated |
| Backfill.InstantOf | server/backfill.py:44-46 | `fromtimestamp` succeeds iff the value is finite and its whole seconds lie in the years 1 to 9999; the result is that UTC instant; beyond a 64-bit `time_t` it raises OverflowError |
| Backfill.ParseLineToReading | server/backfill.py:33-47 | Pairs fields with headings up to the shorter of the two, and unparsable fields become None. The line fails, with `fromtimestamp`'s error, iff the timestamp is not a finite number in the years 1 to 9999. On success the timestamp is the UTC instant and the result is a valid `create_item` input |
| Backfill.ZipWithHeadings | server/backfill.py:37-43 | The zip loop maps each heading, up to the shorter sequence, to its field parsed with `float` |
| Backfill.LowerBound | server/backfill.py:63 | `FROM_TIMESTAMP or 0.0` |
| Backfill.UpperBound | server/backfill.py:64 | `TO_TIMESTAMP or time.time()`: zero or absent means now |
| Backfill.FilterByRange | server/backfill.py:61-65 | Keeps exactly the readings with `FROM <= t < TO`, in order, each as often as the input holds it |
| Backfill.RangeIsHalfOpen | server/backfill.py:61-65 | A reading at `FROM` is kept; one at `TO` is dropped |
| Backfill.FilterByRangeIdempotent | server/backfill.py:61-65 | Filtering twice equals filtering once |
| App.StartMinutes | web/src/App.js:64-66 | The start value is the ceiling of `elapsed / 43200` |
| App.StopFrom | web/src/App.js:67-69 | The first value from `n` on at which the loop test fails |
| App.ClientInterval | web/src/App.js:63-71 | For spans of at most 30 days, the interval is the first value from the start on at which the loop stops, at most 60 |
| App.IntervalMinutes | web/src/App.js:63-71 | Up to 30 days the loop returns the client interval. Over 30 days every candidate keeps the loop going, so it never returns (`None`) |
| App.StartAtMostSixtyExactly | web/src/App.js:64-66 | The start is at most 60 iff the span is at most 30 days |
| App.NoStopAboveSixty | web/src/App.js:67-69 | Above 60 the loop test always holds, so longer spans never stop |
| App.PositiveSpanGivesLeastDivisor | web/src/App.js:63-71 | For `0 < elapsed <= 30 days` the interval is the least divisor of 60 not below the start |
| App.ZeroSpanGivesZero | web/src/App.js:63-72 | A zero span gives interval 0 (`60 % 0` is NaN), so no interval is sent |
| App.ClientIntervalExamples | web/src/App.js:63-71 | Half a day gives 1, two days 4, thirty days 60 |
| App.IntervalSuffix | web/src/App.js:72 | The suffix is empty iff the interval is 0, else `&interval=n` |
| App.ReadingsUrl | web/src/App.js:74-78 | The URL is the API base, `/readings?`, and the query fields joined by `&` |
| App.QueryIsJoinOfFields | web/src/App.js:72-78 | The concatenated query string is the `&`-join of its fields |
| App.QueryStringSplitsBack | web/src/App.js:74-78 | With encoded timestamps, the query string splits back into exactly its fields |
| App.UrlIntervalParsesBack | web/src/App.js:72 | The interval in the suffix parses back to the interval |
| App.ExtractTimeSeries | web/src/App.js:117-126 | One point per item, in order; `x` from the timestamp, `y` from the extractor |
| App.ExtractTimeSeriesConcat | web/src/App.js:117-126 | Extraction commutes with concatenation |
| App.Dashboard.constructor | web/src/App.js:13-31 | No items, not loaded, no error, nothing requested, not stalled; the range is the 12 hours up to now |
| App.Dashboard.FetchTimeSeries | web/src/App.js:59-80 | For spans of at most 30 days exactly one URL is requested, built at the client interval. Over 30 days nothing is requested and the page is stalled in the interval loop |
| App.Dashboard.SetTimestamps | web/src/App.js:47-57 | Stores the range, then requests its readings as `FetchTimeSeries` does, stalling for spans over 30 days |
| App.Dashboard.ReceiveResult | web/src/App.js:82-90 | A truthy `message` leaves items and loading state unchanged; anything else becomes the items and sets loaded |
| App.Dashboard.ReceiveError | web/src/App.js:92-98 | The error is stored and loading is over |
| TimeSpanPicker.Get | web/src/TimeSpanPicker.js:351 | A key that is not an own property reads as undefined |
| TimeSpanPicker.PropertyKey | web/src/TimeSpanPicker.js:371-372 | A string unit is its own key; null and undefined become "null" and "undefined" |
| TimeSpanPicker.UnpackDuration | web/src/TimeSpanPicker.js:343-356 | A falsy duration gives `{null, null}`; an empty object gives undefined for both; a one-key object gives its key and value (the last key is taken: `Object.keys(d).pop()`) |
| TimeSpanPicker.SingleKey | web/src/TimeSpanPicker.js:371-373 | A fresh object has exactly one key |
| TimeSpanPicker.MakeNewDurationWithUnits | web/src/TimeSpanPicker.js:376-381 | One key, the new unit, holding the old value |
| TimeSpanPicker.MakeNewDurationWithValue | web/src/TimeSpanPicker.js:383-388 | One key, the old unit, holding the new value |
| TimeSpanPicker.NewValueKeepsUnit | web/src/TimeSpanPicker.js:383-388 | On a one-key duration the unit is kept, and restoring the value restores the duration |
| TimeSpanPicker.NewUnitKeepsValue | web/src/TimeSpanPicker.js:376-381 | On a one-key duration the value is kept, and restoring the unit restores the duration |
| TimeSpanPicker.FalsyDurationValueUnderNull | web/src/TimeSpanPicker.js:343-349 | A value given to a falsy duration is filed under the key "null" |
| TimeSpanPicker.TruncDiv | web/src/TimeSpanPicker.js:361-367 | The whole-unit difference truncates toward zero |
| TimeSpanPicker.UnitSeconds | web/src/TimeSpanPicker.js:360-370 | Exactly minutes, hours, days and weeks are accepted, as 60, 3600, 86400 and 604800 seconds |
| TimeSpanPicker.DifferenceInUnits | web/src/TimeSpanPicker.js:358-374 | "Invalid units" iff the unit is not one of the four; otherwise an object with exactly one key, the unit, holding the truncated difference |
| TimeSpanPicker.DifferenceIsAntisymmetric | web/src/TimeSpanPicker.js:358-374 | Swapping the dates negates the difference |
| TimeSpanPicker.Picker.constructor | web/src/TimeSpanPicker.js:33-45 | The state holds the given dates; nothing has been reported |
| TimeSpanPicker.Picker.SetTimestamps | web/src/TimeSpanPicker.js:57-67 | The same two Date objects change nothing and do not call `onApply`. Otherwise the state takes them and `onApply` is called once with them |
| TimeSpanPicker.ReportsByIdentity | web/src/TimeSpanPicker.js:57-61 | Passing the held objects reports nothing; an equal but fresh Date is reported |
| Consistency.WrittenReadingIsAdmitted | server/get_readings/app.py:174-184 | A written item passes the key condition and the minute filter of a query covering its time and minute |
| Consistency.WrittenReadingIsReturned | server/get_readings/app.py:171-187 | A reading `create_item` wrote into its date's partition comes back from a successful fetch covering it, with its own values |
| Consistency.ItemOfDayIsFetched | server/get_readings/app.py:171-187 | An admitted item of any covered date is among the fetched readings |
| Consistency.ClientArg | web/src/App.js:72 | The interval the server sees: none for 0, else the number |
| Consistency.ClientParameters | web/src/App.js:74-78 | One parameter per `key=value` field of the client's query string |
| Consistency.ServerParsesClientRequest | server/get_readings/app.py:126-153 | For every span the client can request, the server parses back the client's timestamps and interval and applies its table to them |
| Consistency.ShortClientSpanAccepted | web/src/App.js:63-72 | Spans under two days are accepted at the client's interval |
| Consistency.TwoDayClientSpanRejected | server/get_readings/app.py:113-118 | Two-day spans: the client sends 4, 5 or 6, and the server rejects with the (1, 10) message |
| Consistency.InvertedClientRangeRejected | server/get_readings/app.py:101-104 | A client range inverted by at least half a day sends a negative interval (-1 when inverted by less than a day), which the server rejects as non-positive |

## Left out

- **External calls.** boto3 (`table.query`, `put_item`), Flask, pugsql, `requests`, marshmallow field machinery and the React `fetch` promises are not modelled. The table is a map from UTC day to items, and the database rows of the Flask server are not modelled.
- **Query pagination.** `table.query` returns at most 1 MB per call and `get_data` reads only the first page, `response['Items']` (server/get_readings/app.py:175-185). The model returns the whole partition as one page, so it does not capture readings dropped after the first page.
- **Floating point.** The barometric formula (`math.exp`, `round`) is a parameter `seaLevel`. Python `float()` of a CSV field is a parameter `parseFloat`. `str(value)` of a stored number is the number itself.
- **Timezones and ISO parsing.** `fromisoformat`, pytz/dateutil localisation and `toISOString`/`encodeURIComponent` are parameters. Instants are UTC epoch seconds, so a parsed naive time is taken as UTC. Daylight saving is absent from `differenceInDays`.
- **Fractional timestamps.** The backfill parser floors fractional epoch seconds to whole seconds; `fromtimestamp` keeps microseconds, so an instant just below the end of year 9999 that rounds up is not distinguished. Fractional `from`/`to` query bounds are not represented: they are whole seconds in the model, while the key condition's `int()` truncates toward zero.
- **Offsets of the query bounds.** `from_timestamp.date()` and `to_timestamp.date()` use each bound's own UTC offset (server/get_readings/app.py:171-172); the model walks UTC dates (`UtcDay`). A bound such as `+05:00` therefore walks different partitions in the source than in the model.
- **Naive and aware bounds mixed.** A naive bound subtracted from an aware one raises TypeError at `to - from` (server/get_readings/app.py:96-98); with every instant in UTC, the model has no such case.
- CommonUtils.TranslateItem: does not model `fromtimestamp` raising for a stored timestamp outside the years 1 to 9999 (server/common/python/utils.py:33-35); stored timestamps are ones `create_item` wrote from real datetimes.
- Text.ParseInt: Python `int()` also accepts surrounding whitespace and digit-separating underscores; the model accepts only an optional sign and ASCII digits.
- **Error texts.** Exception messages of uncaught errors (a missing item attribute, a non-numeric timestamp in the latest scan) are fixed strings. The marshmallow 400 body (`normalized_messages`) is the bare message.
- App.IntervalMinutes: for spans over 30 days the source loop never terminates (`App.NoStopAboveSixty`); the model returns `None` instead of hanging, and `App.Dashboard.FetchTimeSeries` and `App.Dashboard.SetTimestamps` record the page as `stalled` without requesting a URL. Event handlers that would never run on a hung page are not blocked by `stalled`.
- **Not modelled:**
  - `fetchLatest`, `render`, and the `update` timer of the picker, which re-applies the generator results through `setTimestamps`.
  - React's asynchronous `setState` batching.
  - The `__main__` blocks of `server/jobs/fetch.py` and `server/backfill.py`.
  - `server/utils.py`.
- **JavaScript own-property order.** Integer-like keys come first in JavaScript objects; duration objects keep insertion order here.
- **Fuzzy comparison of minutes.** A stored `minute` is compared by exact value.

## Findings

| source | as written | input that shows it | evidently intended | confidence | as-written member | corrected member |
|---|---|---|---|---|---|---|
| server/get_readings/app.py:101-106 | `if interval and interval < 1` lets 0 and "" through, and `elapsed_days <= 1` returns before the missing-interval check. The parsed interval is then passed to `get_data`, whose `i % interval` raises ZeroDivisionError for 0 and TypeError for "" | `from_timestamp=2024-01-01T00:00:00Z&to_timestamp=2024-01-01T12:00:00Z&interval=0` | A falsy interval is treated like an absent one and defaults to 1 (as server/station.py:116-131 does), so every accepted request is answered | not executed | GetReadings.LambdaHandlerAsWritten | GetReadings.LambdaHandler |
