/**
 * The data shapes shared by the write path, the read path and the HTTP
 * handlers: sensor readings, stored table items, JSON objects, responses.
 */
module Records {

  /** A Python float or None: `Finite`, infinite, NaN, or `None` (`Absent`). */
  datatype Measure = Finite(x: real) | Inf | NaN | Absent

  /** A timezone-aware datetime: the instant in UTC epoch seconds and its UTC offset. */
  datatype Instant = Instant(epoch: int, offset: int)

  /** A value in a reading dict: the `timestamp` datetime or a measurement. */
  datatype RawValue = Time(at: Instant) | Value(m: Measure)

  /** A reading as a Python dict, e.g. `{'timestamp': ..., 'temperature': 21.5, ...}`. */
  type Record = map<string, RawValue>

  /**
   * A DynamoDB attribute: the `S` date string (as its UTC day number),
   * an `N` number, or `{'NULL': True}`.
   */
  datatype Attr = DateKey(day: int) | Num(x: real) | Null

  /** A stored item, attribute name to attribute. */
  type Item = map<string, Attr>

  /** The readings table: each UTC day's partition, in the order the store returns it. */
  type Table = map<int, seq<Item>>

  /** A partition query on `date == day`: an absent partition has no items. */
  function Partition(table: Table, day: int): (items: seq<Item>)
    ensures day !in table ==> items == []
  {
    if day in table then table[day] else []
  }

  /** A JSON value produced by the handlers; `JTime` is an ISO-8601 UTC timestamp. */
  datatype JsonValue = JNum(x: real) | JNull | JTime(seconds: real)

  type JsonObject = map<string, JsonValue>

  /** The JSON payload of a Lambda response. */
  datatype Body = MessageBody(message: string) | ReadingsBody(readings: seq<JsonObject>) | ReadingBody(reading: JsonObject)

  /**
   * What a Lambda handler returns: `{'statusCode': c, 'body': ...}`,
   * `{'statusCode': c, 'message': m}` with no body, or an uncaught exception.
   */
  datatype Response = Reply(statusCode: int, body: Body) | BareReply(statusCode: int, message: string) | Crash(error: string)
}
