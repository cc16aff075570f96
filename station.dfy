/**
 * The Flask server (server/station.py): the query-schema validator, the
 * timestamp parser and the choice between the sparse and the full query.
 */
module Station {
  import opened Wrappers
  import opened Text
  import opened Clock
  import GetReadings

  const NonPositiveMessage: string := "interval must be greater than zero"
  const MissingIntervalMessage: string := "timespans greater than 1 day must have interval set"
  const ForbiddenMessage: string := "timespans greater than 30 days are forbidden"

  /** The message naming a violated constraint pair. */
  function SpanMessage(edLimit: int, iLimit: int): string
  {
    "timespans greater than " + IntToString(edLimit)
    + " days must have interval of at least " + IntToString(iLimit)
  }

  /**
   * `ReadingQuerySchema.validate_query`. `interval` is the optional integer
   * field of the schema; the constraint table is the same as the Lambda's.
   */
  function ValidateQuery(from: int, to: int, interval: Option<int>): (o: Outcome)
    ensures o.Pass? <==> GetReadings.Acceptable(ElapsedDays(from, to), AsIntervalArg(interval))
  {
    var elapsedDays := ElapsedDays(from, to);
    GetReadings.FirstViolationOfTable(elapsedDays, if interval.Some? then interval.value else 0);
    var truthy := interval.Some? && interval.value != 0;
    if truthy && interval.value < 1 then Fail(NonPositiveMessage)
    else if elapsedDays <= 1 then Pass
    else if !truthy then Fail(MissingIntervalMessage)
    else match GetReadings.FirstViolation(GetReadings.AllowedIntervalConstraints, elapsedDays, interval.value, 0)
      case Some(k) =>
        Fail(SpanMessage(GetReadings.AllowedIntervalConstraints[k].0, GetReadings.AllowedIntervalConstraints[k].1))
      case None => if elapsedDays > 30 then Fail(ForbiddenMessage) else Pass
  }

  /** The Lambda's view of the same optional interval. */
  function AsIntervalArg(interval: Option<int>): (arg: GetReadings.IntervalArg)
    ensures arg.Omitted? <==> interval.None?
    ensures interval.Some? ==> arg == GetReadings.Minutes(interval.value)
  {
    match interval
    case None => GetReadings.Omitted
    case Some(n) => GetReadings.Minutes(n)
  }

  /** A negative interval is rejected before the span is looked at. */
  lemma NegativeIntervalRejectedFirst(from: int, to: int, n: int)
    requires n < 0
    ensures ValidateQuery(from, to, Some(n)) == Fail(NonPositiveMessage)
  {
  }

  /** A span of at most one day is accepted with no interval or any non-negative one. */
  lemma ShortSpanAccepted(from: int, to: int, interval: Option<int>)
    requires ElapsedDays(from, to) <= 1
    requires !(interval.Some? && interval.value < 0)
    ensures ValidateQuery(from, to, interval) == Pass
  {
  }

  /** Over one day, an absent or zero interval is rejected. */
  lemma MissingIntervalRejected(from: int, to: int, interval: Option<int>)
    requires ElapsedDays(from, to) > 1
    requires interval.None? || interval.value == 0
    ensures ValidateQuery(from, to, interval) == Fail(MissingIntervalMessage)
  {
  }

  /** The first violated pair of the table, in table order, names the limits in the error. */
  lemma FirstViolatedPairNamed(from: int, to: int, n: int, k: nat)
    requires ElapsedDays(from, to) > 1 && n >= 1
    requires k < |GetReadings.AllowedIntervalConstraints|
    requires GetReadings.Violates(GetReadings.AllowedIntervalConstraints[k], ElapsedDays(from, to), n)
    requires forall j :: 0 <= j < k ==>
               !GetReadings.Violates(GetReadings.AllowedIntervalConstraints[j], ElapsedDays(from, to), n)
    ensures ValidateQuery(from, to, Some(n))
            == Fail(SpanMessage(GetReadings.AllowedIntervalConstraints[k].0, GetReadings.AllowedIntervalConstraints[k].1))
  {
    var f := GetReadings.FirstViolation(GetReadings.AllowedIntervalConstraints, ElapsedDays(from, to), n, 0);
    assert f.Some?;
  }

  /**
   * The schema validator and the Lambda's validator accept exactly the same
   * requests, and reject them for the same rule.
   */
  lemma ValidateQueryAgreesWithLambda(from: int, to: int, interval: Option<int>)
    ensures ValidateQuery(from, to, interval).Pass?
            <==> GetReadings.ValidateQueryParameters(from, to, AsIntervalArg(interval)).Pass?
    ensures ValidateQuery(from, to, interval) == Fail(NonPositiveMessage)
            <==> GetReadings.ValidateQueryParameters(from, to, AsIntervalArg(interval))
                 == Fail(GetReadings.NonPositiveMessage)
    ensures ValidateQuery(from, to, interval) == Fail(MissingIntervalMessage)
            <==> GetReadings.ValidateQueryParameters(from, to, AsIntervalArg(interval))
                 == Fail(GetReadings.MissingIntervalMessage)
  {
    var cs := GetReadings.AllowedIntervalConstraints;
    assert cs[0] == (1, 10) && cs[1] == (7, 30) && cs[2] == (14, 60);
    forall e, i
      ensures SpanMessage(e, i) != NonPositiveMessage && SpanMessage(e, i) != MissingIntervalMessage
      ensures GetReadings.SpanMessage(e, i) != GetReadings.NonPositiveMessage
      ensures GetReadings.SpanMessage(e, i) != GetReadings.MissingIntervalMessage
    {
      // Each span message ends with a digit; the other messages do not.
      var t := IntToString(i);
      var m := SpanMessage(e, i);
      var m' := GetReadings.SpanMessage(e, i);
      assert m[|m| - 1] == t[|t| - 1] && m'[|m'| - 1] == t[|t| - 1];
    }
  }

  /**
   * Every span over 30 days is rejected, whatever the interval; an interval
   * that clears the whole table is rejected with the forbidden-span message.
   */
  lemma OverThirtyDaysRejected(from: int, to: int, interval: Option<int>)
    requires ElapsedDays(from, to) > 30
    ensures ValidateQuery(from, to, interval).Fail?
    ensures interval.Some? && interval.value >= 60 ==> ValidateQuery(from, to, interval) == Fail(ForbiddenMessage)
  {
    ValidateQueryAgreesWithLambda(from, to, interval);
    GetReadings.OverThirtyDaysRejected(from, to, AsIntervalArg(interval));
    if interval.Some? && interval.value >= 60 {
      GetReadings.FirstViolationOfTable(ElapsedDays(from, to), interval.value);
    }
  }

  /**
   * `parse_timestamp`: drop one trailing `'Z'`, then `fromisoformat`
   * (`fromIsoFormat`, None where it raises). The conversion to the server's
   * time zone keeps the instant and is not modelled.
   */
  function ParseTimestamp(s: string, fromIsoFormat: string -> Option<int>): (r: Option<int>)
    ensures EndsWith(s, 'Z') ==> r == fromIsoFormat(s[..|s| - 1])
    ensures !EndsWith(s, 'Z') ==> r == fromIsoFormat(s)
  {
    fromIsoFormat(StripOneTrailing(s, 'Z'))
  }

  /**
   * With two trailing Zs the schema parser still sees one, while the
   * Lambda's `rstrip('Z')` removes both.
   */
  lemma StripsOnlyOneZ(s: string)
    requires !EndsWith(s, 'Z')
    ensures StripOneTrailing(s + "ZZ", 'Z') == s + "Z"
    ensures StripAllTrailing(s + "ZZ", 'Z') == s
  {
    assert (s + "ZZ")[..|s + "ZZ"| - 1] == s + "Z";
    assert StripAllTrailing(s + "ZZ", 'Z') == StripAllTrailing(s + "Z", 'Z') by {
      assert (s + "ZZ")[..|s + "ZZ"| - 1] == s + "Z";
    }
    assert StripAllTrailing(s + "Z", 'Z') == StripAllTrailing(s, 'Z') by {
      assert (s + "Z")[..|s + "Z"| - 1] == s;
    }
  }

  /** `parse_query_params`: each bound is read with `''` as its default. */
  function ParseQueryParams(args: map<string, string>, fromIsoFormat: string -> Option<int>)
    : (r: Option<(int, int)>)
    ensures r.Some? <==> ParseTimestamp(if "from_timestamp" in args then args["from_timestamp"] else "", fromIsoFormat).Some?
                         && ParseTimestamp(if "to_timestamp" in args then args["to_timestamp"] else "", fromIsoFormat).Some?
  {
    var from := ParseTimestamp(if "from_timestamp" in args then args["from_timestamp"] else "", fromIsoFormat);
    var to := ParseTimestamp(if "to_timestamp" in args then args["to_timestamp"] else "", fromIsoFormat);
    if from.Some? && to.Some? then Some((from.value, to.value)) else None
  }

  /** The database query `get_readings` runs. */
  datatype ReadingsQuery =
    | Sparse(from: int, to: int, nthMins: int)
    | Full(from: int, to: int)

  /** The `if interval:` dispatch of `get_readings`. */
  function SelectQuery(from: int, to: int, interval: Option<int>): (q: ReadingsQuery)
    ensures q.Sparse? <==> interval.Some? && interval.value != 0
    ensures q.Sparse? ==> q.nthMins == interval.value
    ensures q.from == from && q.to == to
  {
    match interval
    case Some(n) => if n != 0 then Sparse(from, to, n) else Full(from, to)
    case None => Full(from, to)
  }

  /** The outcome of `get_readings` up to the database call. */
  datatype StationResult = BadRequest(message: string) | Query(query: ReadingsQuery)

  /** `get_readings`: a validation error is a 400, otherwise the query to run. */
  function GetReadingsQuery(from: int, to: int, interval: Option<int>): (r: StationResult)
    ensures r.BadRequest? <==> ValidateQuery(from, to, interval).Fail?
    ensures r.Query? ==> r.query == SelectQuery(from, to, interval)
  {
    match ValidateQuery(from, to, interval)
    case Fail(message) => BadRequest(message)
    case Pass => Query(SelectQuery(from, to, interval))
  }

  /** Every sparse query that gets past validation samples every `n >= 1` minutes. */
  lemma AcceptedSparseQueryIsPositive(from: int, to: int, interval: Option<int>)
    requires GetReadingsQuery(from, to, interval).Query?
    ensures GetReadingsQuery(from, to, interval).query.Sparse? ==> GetReadingsQuery(from, to, interval).query.nthMins >= 1
  {
  }

  /** A span over one day that gets past validation always runs the sparse query. */
  lemma LongSpanIsSparse(from: int, to: int, interval: Option<int>)
    requires ElapsedDays(from, to) > 1
    requires GetReadingsQuery(from, to, interval).Query?
    ensures GetReadingsQuery(from, to, interval).query.Sparse?
  {
  }
}
