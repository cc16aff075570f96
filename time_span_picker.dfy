/**
 * The range picker (web/src/TimeSpanPicker.js): the one-key duration
 * objects `{units: value}` its pickers keep, the difference between two
 * dates in a chosen unit, and the guard in `setTimestamps` that only
 * reports a changed range.
 */
module TimeSpanPicker {
  import opened Wrappers
  import opened Text

  /** The JavaScript values a duration holds or is unpacked to. */
  datatype JsValue = Undefined | Null | Num(n: int) | Str(s: string)

  /**
   * A duration: a falsy value (`null`, `undefined`, `0`, ...) or a plain
   * object, as its own properties in insertion order.
   */
  datatype Duration = Falsy | Object(entries: seq<(string, JsValue)>)

  /** `{units, value}` as `unpackDuration` returns it. */
  datatype Unpacked = Unpacked(units: JsValue, value: JsValue)

  /** `obj[key]` for an own property; `undefined` when there is none. */
  function Get(entries: seq<(string, JsValue)>, key: string): (v: JsValue)
    ensures (forall i :: 0 <= i < |entries| ==> entries[i].0 != key) ==> v == Undefined
    decreases |entries|
  {
    if entries == [] then Undefined
    else if entries[|entries| - 1].0 == key then entries[|entries| - 1].1
    else Get(entries[..|entries| - 1], key)
  }

  /** The property key a value becomes when used as `obj[v]`. */
  function PropertyKey(v: JsValue): (key: string)
    ensures v.Str? ==> key == v.s
    ensures v.Null? ==> key == "null"
    ensures v.Undefined? ==> key == "undefined"
  {
    match v
    case Str(s) => s
    case Null => "null"
    case Undefined => "undefined"
    case Num(n) => IntToString(n)
  }

  /**
   * `unpackDuration`: `{null, null}` for a falsy duration, otherwise the
   * last own key (`Object.keys(d).pop()`) and its value; an empty object
   * has no key, so both are `undefined`.
   */
  function UnpackDuration(d: Duration): (u: Unpacked)
    ensures d.Falsy? ==> u == Unpacked(Null, Null)
    ensures d.Object? && d.entries == [] ==> u == Unpacked(Undefined, Undefined)
    ensures d.Object? && |d.entries| == 1 ==> u == Unpacked(Str(d.entries[0].0), d.entries[0].1)
  {
    match d
    case Falsy => Unpacked(Null, Null)
    case Object(entries) =>
      if entries == [] then Unpacked(Undefined, Get(entries, "undefined"))
      else
        var units := entries[|entries| - 1].0;
        Unpacked(Str(units), Get(entries, units))
  }

  /** `newDuration = {}; newDuration[key] = value`. */
  function SingleKey(key: JsValue, value: JsValue): (d: Duration)
    ensures d.Object? && |d.entries| == 1
  {
    Object([(PropertyKey(key), value)])
  }

  /** `makeNewDurationWithUnits`: a fresh one-key object under the new unit, holding the old value. */
  function MakeNewDurationWithUnits(d: Duration, newUnits: JsValue): (r: Duration)
    ensures r.Object? && |r.entries| == 1
    ensures UnpackDuration(r) == Unpacked(Str(PropertyKey(newUnits)), UnpackDuration(d).value)
  {
    SingleKey(newUnits, UnpackDuration(d).value)
  }

  /** `makeNewDurationWithValue`: a fresh one-key object under the old unit, holding the new value. */
  function MakeNewDurationWithValue(d: Duration, newValue: JsValue): (r: Duration)
    ensures r.Object? && |r.entries| == 1
    ensures UnpackDuration(r) == Unpacked(Str(PropertyKey(UnpackDuration(d).units)), newValue)
  {
    SingleKey(UnpackDuration(d).units, newValue)
  }

  /** On a one-key duration, changing the value keeps the unit and replacing it round-trips. */
  lemma NewValueKeepsUnit(units: string, value: JsValue, newValue: JsValue)
    ensures UnpackDuration(MakeNewDurationWithValue(Object([(units, value)]), newValue)) == Unpacked(Str(units), newValue)
    ensures MakeNewDurationWithValue(MakeNewDurationWithValue(Object([(units, value)]), newValue), value)
            == Object([(units, value)])
  {
  }

  /** On a one-key duration, changing the unit keeps the value, and changing it back restores the duration. */
  lemma NewUnitKeepsValue(units: string, value: JsValue, newUnits: string)
    ensures UnpackDuration(MakeNewDurationWithUnits(Object([(units, value)]), Str(newUnits))) == Unpacked(Str(newUnits), value)
    ensures MakeNewDurationWithUnits(MakeNewDurationWithUnits(Object([(units, value)]), Str(newUnits)), Str(units))
            == Object([(units, value)])
  {
  }

  /** A falsy duration has unit `null`, so giving it a value files it under the key "null". */
  lemma FalsyDurationValueUnderNull(newValue: JsValue)
    ensures MakeNewDurationWithValue(Falsy, newValue) == Object([("null", newValue)])
  {
  }

  /** `Math.trunc(a / b)` for a positive divisor. */
  function TruncDiv(a: int, b: int): (q: int)
    requires b > 0
    ensures a >= 0 ==> q >= 0 && q * b <= a < (q + 1) * b
    ensures a < 0 ==> q <= 0 && (q - 1) * b < a <= q * b
  {
    if a >= 0 then DivBounds(a, b); a / b
    else DivBounds(-a, b); -((-a) / b)
  }

  lemma DivBounds(a: int, b: int)
    requires a >= 0 && b > 0
    ensures a / b >= 0 && (a / b) * b <= a < (a / b + 1) * b
  {
    assert a == (a / b) * b + a % b;
  }

  /** The seconds in each unit `differenceInUnits` accepts; any other unit is rejected. */
  function UnitSeconds(units: JsValue): (seconds: Option<int>)
    ensures seconds.Some? <==> units in {Str("minutes"), Str("hours"), Str("days"), Str("weeks")}
    ensures units == Str("minutes") ==> seconds == Some(60)
    ensures units == Str("hours") ==> seconds == Some(60 * 60)
    ensures units == Str("days") ==> seconds == Some(24 * 60 * 60)
    ensures units == Str("weeks") ==> seconds == Some(7 * 24 * 60 * 60)
  {
    match units
    case Str(s) =>
      if s == "minutes" then Some(60)
      else if s == "hours" then Some(3600)
      else if s == "days" then Some(86400)
      else if s == "weeks" then Some(604800)
      else None
    case _ => None
  }

  /**
   * `differenceInUnits(lhs, rhs, units)`: the whole units from `rhs` to
   * `lhs`, rounded toward zero, as `{[units]: value}`; other units throw.
   * Dates are epoch seconds, and a day is 86400 seconds (no daylight saving).
   */
  function DifferenceInUnits(lhs: int, rhs: int, units: JsValue): (r: Result<Duration>)
    ensures r.Err? <==> UnitSeconds(units).None?
    ensures r.Err? ==> r.message == "Invalid units"
    ensures r.Ok? ==> r.value.Object? && |r.value.entries| == 1
    ensures r.Ok? ==> UnpackDuration(r.value) == Unpacked(units, Num(TruncDiv(lhs - rhs, UnitSeconds(units).value)))
  {
    match UnitSeconds(units)
    case None => Err("Invalid units")
    case Some(seconds) => Ok(SingleKey(units, Num(TruncDiv(lhs - rhs, seconds))))
  }

  /** Swapping the dates negates the difference (truncation is symmetric about zero). */
  lemma DifferenceIsAntisymmetric(lhs: int, rhs: int, units: JsValue)
    requires UnitSeconds(units).Some?
    ensures UnpackDuration(DifferenceInUnits(lhs, rhs, units).value).value.n
            == -UnpackDuration(DifferenceInUnits(rhs, lhs, units).value).value.n
  {
  }

  /** A JavaScript `Date` object; `===` compares object identity, not the time. */
  class JsDate {
    const time: int

    constructor(time: int)
      ensures this.time == time
    {
      this.time := time;
    }
  }

  /**
   * The picker's state and the ranges it has reported through `onApply`,
   * in order.
   */
  class Picker {
    var fromTimestamp: JsDate
    var toTimestamp: JsDate
    var applied: seq<(JsDate, JsDate)>

    constructor(fromTimestamp: JsDate, toTimestamp: JsDate)
      ensures this.fromTimestamp == fromTimestamp && this.toTimestamp == toTimestamp
      ensures applied == []
    {
      this.fromTimestamp := fromTimestamp;
      this.toTimestamp := toTimestamp;
      applied := [];
    }

    /**
     * `setTimestamps`: nothing happens when both dates are the very objects
     * already held; otherwise the state takes them and `onApply` is called once.
     */
    method SetTimestamps(from: JsDate, to: JsDate)
      modifies this
      ensures fromTimestamp == from && toTimestamp == to
      ensures old(fromTimestamp) == from && old(toTimestamp) == to ==> applied == old(applied)
      ensures !(old(fromTimestamp) == from && old(toTimestamp) == to) ==> applied == old(applied) + [(from, to)]
    {
      if from == fromTimestamp && to == toTimestamp {
        return;
      }
      fromTimestamp := from;
      toTimestamp := to;
      applied := applied + [(from, to)];
    }
  }

  /**
   * A fresh `Date` for the same instant is a different object, so it is
   * reported again; passing the held objects back is not.
   */
  method ReportsByIdentity() returns (afterSame: nat, afterCopy: nat)
    ensures afterSame == 0 && afterCopy == 1
  {
    var from := new JsDate(0);
    var to := new JsDate(43200);
    var picker := new Picker(from, to);
    picker.SetTimestamps(from, to);
    afterSame := |picker.applied|;
    var copy := new JsDate(0);
    picker.SetTimestamps(copy, to);
    afterCopy := |picker.applied|;
  }
}
