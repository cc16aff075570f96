/**
 * server/common/python/utils.py: the helpers shared by the Lambda handlers.
 * The handlers in server/get_readings/app.py and server/get_latest_reading/app.py
 * carry identical copies of `translate_item` and `hydrate_reading`; this
 * module stands for all three. Its `create_item` is the one of
 * server/jobs/fetch.py, modelled by `Fetch.CreateItem`.
 */
module CommonUtils {
  import opened Wrappers
  import opened Records
  import Fetch

  const SeaLevelKey: string := "sea_level_air_pressure"

  /**
   * `float(item[key])` on an item read back from the table: a number, or the
   * exception Python raises for a missing key, a NULL (None) or a string.
   */
  function FloatAttr(item: Item, key: string): (r: Result<real>)
    ensures r.Ok? <==> key in item && item[key].Num?
    ensures r.Ok? ==> r.value == item[key].x
  {
    if key !in item then Err("KeyError: '" + key + "'")
    else match item[key]
      case Num(x) => Ok(x)
      case Null => Err("TypeError: float() argument must be a string or a number, not 'NoneType'")
      case DateKey(_) => Err("ValueError: could not convert string to float")
  }

  /** The five attributes `translate_item` reads are all present and numeric. */
  predicate IsNumericReading(item: Item)
  {
    && "timestamp" in item && item["timestamp"].Num?
    && "altitude" in item && item["altitude"].Num?
    && "temperature" in item && item["temperature"].Num?
    && "relative_humidity" in item && item["relative_humidity"].Num?
    && "air_pressure" in item && item["air_pressure"].Num?
  }

  /** The JSON shape of a translated reading: exactly five keys, a UTC timestamp and four numbers. */
  predicate IsReadingJson(o: JsonObject)
  {
    && o.Keys == {"timestamp", "altitude", "temperature", "relative_humidity", "air_pressure"}
    && "timestamp" in o && "altitude" in o && "temperature" in o
    && "relative_humidity" in o && "air_pressure" in o
    && o["timestamp"].JTime? && o["altitude"].JNum? && o["temperature"].JNum?
    && o["relative_humidity"].JNum? && o["air_pressure"].JNum?
  }

  /**
   * `translate_item`: the stored item as JSON, timestamp rendered in UTC and
   * every measurement passed through `float`, which fails on a NULL.
   */
  function TranslateItem(item: Item): (r: Result<JsonObject>)
    ensures r.Ok? <==> IsNumericReading(item)
    ensures r.Ok? ==> IsReadingJson(r.value)
    ensures r.Ok? ==> r.value["timestamp"] == JTime(item["timestamp"].x)
    ensures r.Ok? ==> forall k :: k in r.value && k != "timestamp" ==> r.value[k] == JNum(item[k].x)
  {
    var timestamp :- FloatAttr(item, "timestamp");
    var altitude :- FloatAttr(item, "altitude");
    var temperature :- FloatAttr(item, "temperature");
    var humidity :- FloatAttr(item, "relative_humidity");
    var pressure :- FloatAttr(item, "air_pressure");
    Ok(map[
      "timestamp" := JTime(timestamp),
      "altitude" := JNum(altitude),
      "temperature" := JNum(temperature),
      "relative_humidity" := JNum(humidity),
      "air_pressure" := JNum(pressure)
    ])
  }

  /** `if air_pressure:` on `raw_reading.get('air_pressure')`: present, not None, not zero. */
  predicate AirPressureTruthy(raw: JsonObject)
  {
    "air_pressure" in raw && raw["air_pressure"].JNum? && raw["air_pressure"].x != 0.0
  }

  /** `hydrate_reading` raises unless altitude is a number and air pressure, if any, is not a string. */
  predicate CanHydrate(raw: JsonObject)
  {
    && "altitude" in raw && raw["altitude"].JNum?
    && ("air_pressure" in raw ==> !raw["air_pressure"].JTime?)
  }

  /**
   * `hydrate_reading`: a copy of the reading with `sea_level_air_pressure`
   * added. `seaLevel(altitude, air_pressure)` stands for the rounded
   * barometric formula.
   */
  function HydrateReading(raw: JsonObject, seaLevel: (real, real) -> real): (h: JsonObject)
    requires CanHydrate(raw)
    ensures h.Keys == raw.Keys + {SeaLevelKey}
    ensures forall k :: k in raw && k != SeaLevelKey ==> h[k] == raw[k]
    ensures h[SeaLevelKey] == JNull <==> !AirPressureTruthy(raw)
    ensures AirPressureTruthy(raw) ==>
              h[SeaLevelKey] == JNum(seaLevel(raw["altitude"].x, raw["air_pressure"].x))
  {
    var seaLevelPressure :=
      if AirPressureTruthy(raw) then JNum(seaLevel(raw["altitude"].x, raw["air_pressure"].x)) else JNull;
    raw[SeaLevelKey := seaLevelPressure]
  }

  /** `[hydrate_reading(r) for r in data]`. */
  function HydrateAll(data: seq<JsonObject>, seaLevel: (real, real) -> real): (hs: seq<JsonObject>)
    requires forall o :: o in data ==> IsReadingJson(o)
    ensures |hs| == |data|
    ensures forall i :: 0 <= i < |data| ==> CanHydrate(data[i]) && hs[i] == HydrateReading(data[i], seaLevel)
    decreases |data|
  {
    if data == [] then []
    else
      assert data[0] in data;
      assert IsReadingJson(data[0]);
      [HydrateReading(data[0], seaLevel)] + HydrateAll(data[1..], seaLevel)
  }

  /** The four measurements `translate_item` reads are present and finite. */
  predicate HasFiniteMeasurements(data: Record)
  {
    && "altitude" in data && data["altitude"].Value? && data["altitude"].m.Finite?
    && "temperature" in data && data["temperature"].Value? && data["temperature"].m.Finite?
    && "relative_humidity" in data && data["relative_humidity"].Value? && data["relative_humidity"].m.Finite?
    && "air_pressure" in data && data["air_pressure"].Value? && data["air_pressure"].m.Finite?
  }

  /** A reading written with finite measurements reads back with the same values. */
  lemma TranslateWrittenItem(data: Record)
    requires Fetch.IsReading(data)
    requires HasFiniteMeasurements(data)
    ensures var r := TranslateItem(Fetch.ItemOf(data));
            && r.Ok?
            && r.value["timestamp"] == JTime(data["timestamp"].at.epoch as real)
            && r.value["altitude"] == JNum(data["altitude"].m.x)
            && r.value["temperature"] == JNum(data["temperature"].m.x)
            && r.value["relative_humidity"] == JNum(data["relative_humidity"].m.x)
            && r.value["air_pressure"] == JNum(data["air_pressure"].m.x)
  {
    var item := Fetch.ItemOf(data);
    assert item["altitude"] == Num(data["altitude"].m.x);
    assert item["temperature"] == Num(data["temperature"].m.x);
    assert item["relative_humidity"] == Num(data["relative_humidity"].m.x);
    assert item["air_pressure"] == Num(data["air_pressure"].m.x);
  }

  /** A measurement stored as NULL makes the read of that item fail. */
  lemma NullMeasurementFailsTranslation(data: Record, field: string)
    requires Fetch.IsReading(data)
    requires field == "altitude" || field == "temperature" || field == "relative_humidity" || field == "air_pressure"
    requires field in data && !data[field].m.Finite?
    ensures TranslateItem(Fetch.ItemOf(data)).Err?
  {
    assert Fetch.ItemOf(data)[field] == Null;
  }
}
