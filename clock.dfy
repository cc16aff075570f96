/** UTC calendar arithmetic on integer epoch seconds. */
module Clock {

  const SecondsPerDay: int := 86400
  const SecondsPerHour: int := 3600
  const SecondsPerMinute: int := 60

  /** The UTC calendar day (days since 1970-01-01) of an instant: `datetime.date()` in UTC. */
  function UtcDay(epoch: int): (day: int)
    ensures day * SecondsPerDay <= epoch < (day + 1) * SecondsPerDay
  {
    epoch / SecondsPerDay
  }

  /** `datetime.hour` of an instant converted to UTC. */
  function UtcHour(epoch: int): (hour: int)
    ensures 0 <= hour < 24
  {
    (epoch % SecondsPerDay) / SecondsPerHour
  }

  /** `datetime.minute` of an instant converted to UTC. */
  function UtcMinute(epoch: int): (minute: int)
    ensures 0 <= minute < 60
  {
    (epoch % SecondsPerHour) / SecondsPerMinute
  }

  /** `timedelta.days` of `to - from`: the floor of the span in whole days. */
  function ElapsedDays(from: int, to: int): (days: int)
    ensures days * SecondsPerDay <= to - from < (days + 1) * SecondsPerDay
  {
    (to - from) / SecondsPerDay
  }

  /** Day, hour, minute and second determine the instant they were derived from. */
  lemma Decompose(epoch: int)
    ensures epoch == UtcDay(epoch) * SecondsPerDay + UtcHour(epoch) * SecondsPerHour
                     + UtcMinute(epoch) * SecondsPerMinute + epoch % SecondsPerMinute
  {
    var day, r := epoch / SecondsPerDay, epoch % SecondsPerDay;
    var hour, s := r / SecondsPerHour, r % SecondsPerHour;
    var minute, second := s / SecondsPerMinute, s % SecondsPerMinute;
    assert epoch == (day * 24 + hour) * SecondsPerHour + s;
    DivModUnique(epoch, SecondsPerHour, day * 24 + hour, s);
    assert epoch == (day * 1440 + hour * 60 + minute) * SecondsPerMinute + second;
    DivModUnique(epoch, SecondsPerMinute, day * 1440 + hour * 60 + minute, second);
  }

  /** The quotient and remainder of a division are the only such pair. */
  lemma DivModUnique(a: int, m: int, q: int, r: int)
    requires m > 0 && a == q * m + r && 0 <= r < m
    ensures a / m == q && a % m == r
  {
    var q', r' := a / m, a % m;
    assert (q - q') * m == r' - r;
    if q > q' {
      ProductAtLeast(q - q', m);
    } else if q < q' {
      assert (q' - q) * m == r - r';
      ProductAtLeast(q' - q, m);
    }
  }

  lemma {:induction false} ProductAtLeast(d: int, m: int)
    requires d >= 1 && m > 0
    ensures d * m >= m
    decreases d
  {
    if d > 1 {
      ProductAtLeast(d - 1, m);
      assert d * m == (d - 1) * m + m;
    }
  }

  /** Later instants never fall on earlier days. */
  lemma UtcDayMonotone(a: int, b: int)
    requires a <= b
    ensures UtcDay(a) <= UtcDay(b)
  {
  }
}
