/** The write path of server/jobs/fetch.py: turning a reading into a DynamoDB item. */
module Fetch {
  import opened Clock
  import opened Records

  /** The stored form of one measurement: `{'NULL': True}` unless it is a finite number. */
  function EncodeMeasure(m: Measure): (a: Attr)
    ensures a == Null <==> m.Absent? || m.Inf? || m.NaN?
    ensures m.Finite? ==> a == Num(m.x)
  {
    match m
    case Finite(x) => Num(x)
    case _ => Null
  }

  /** A dict `create_item` can process: a datetime under `timestamp`, measurements elsewhere. */
  predicate IsReading(data: Record)
  {
    && "timestamp" in data && data["timestamp"].Time?
    && forall k :: k in data && k != "timestamp" ==> data[k].Value?
  }

  /** The partition and sort keys and the minute attributes, from the instant converted to UTC. */
  function KeyAttrs(at: Instant): Item
  {
    var utc := Instant(at.epoch, 0);
    map[
      "date" := DateKey(UtcDay(utc.epoch)),
      "timestamp" := Num(utc.epoch as real),
      "hour" := Num(UtcHour(utc.epoch) as real),
      "minute" := Num(UtcMinute(utc.epoch) as real)
    ]
  }

  /** The measurement attributes: every key of `data` except `timestamp`, encoded. */
  function MeasureAttrs(data: Record, fields: set<string>): Item
    requires IsReading(data)
    requires fields <= data.Keys - {"timestamp"}
  {
    map k | k in fields :: EncodeMeasure(data[k].m)
  }

  /** The item `create_item(data)` builds. */
  function ItemOf(data: Record): (item: Item)
    requires IsReading(data)
    ensures item.Keys == {"date", "timestamp", "hour", "minute"} + (data.Keys - {"timestamp"})
    ensures item["timestamp"] == Num(data["timestamp"].at.epoch as real)
    ensures forall k :: k in data && k != "timestamp" ==>
              (item[k] == Null <==> !data[k].m.Finite?)
              && (data[k].m.Finite? ==> item[k] == Num(data[k].m.x))
    ensures "date" !in data ==> item["date"] == DateKey(UtcDay(data["timestamp"].at.epoch))
    ensures "hour" !in data ==> item["hour"] == Num(UtcHour(data["timestamp"].at.epoch) as real)
    ensures "minute" !in data ==> item["minute"] == Num(UtcMinute(data["timestamp"].at.epoch) as real)
  {
    KeyAttrs(data["timestamp"].at) + MeasureAttrs(data, data.Keys - {"timestamp"})
  }

  /**
   * `create_item`: starts from the key attributes and adds one attribute per
   * remaining key of `data`. The input is a value, so it is left unchanged.
   */
  method CreateItem(data: Record) returns (item: Item)
    requires IsReading(data)
    ensures item == ItemOf(data)
  {
    var at := data["timestamp"].at;
    item := KeyAttrs(at);
    var numericFields := data.Keys - {"timestamp"};
    ghost var done: set<string> := {};
    while numericFields != {}
      invariant numericFields !! done && numericFields + done == data.Keys - {"timestamp"}
      invariant item == KeyAttrs(at) + MeasureAttrs(data, done)
      decreases numericFields
    {
      var field :| field in numericFields;
      item := item[field := EncodeMeasure(data[field].m)];
      assert MeasureAttrs(data, done + {field}) == MeasureAttrs(data, done)[field := EncodeMeasure(data[field].m)];
      numericFields := numericFields - {field};
      done := done + {field};
    }
  }

  /** The item depends on the instant only, not on the timezone it was expressed in. */
  lemma ItemIgnoresOffset(data: Record, offset: int)
    requires IsReading(data)
    ensures var moved := data["timestamp" := Time(Instant(data["timestamp"].at.epoch, offset))];
            IsReading(moved) && ItemOf(moved) == ItemOf(data)
  {
    var moved := data["timestamp" := Time(Instant(data["timestamp"].at.epoch, offset))];
    assert moved.Keys == data.Keys;
    assert MeasureAttrs(moved, moved.Keys - {"timestamp"}) == MeasureAttrs(data, data.Keys - {"timestamp"});
  }
}
