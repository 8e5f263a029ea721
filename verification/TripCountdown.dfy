/** `calculateTimeLeft` of components/features/planner/TripCountdwon.tsx:
    the time until the trip, broken into days, hours, minutes and seconds.
    Instants are integer milliseconds, as `+date` yields. */
module TripCountdown {

  datatype TimeLeft = TimeLeft(days: int, hours: int, minutes: int, seconds: int)

  const MsPerSecond := 1000
  const MsPerMinute := 60 * MsPerSecond
  const MsPerHour := 60 * MsPerMinute
  const MsPerDay := 24 * MsPerHour

  const Zero := TimeLeft(0, 0, 0, 0)

  /** A breakdown whose fields are in range: hours below 24, minutes and seconds below 60. */
  predicate InRange(t: TimeLeft) {
    && 0 <= t.days
    && 0 <= t.hours < 24
    && 0 <= t.minutes < 60
    && 0 <= t.seconds < 60
  }

  /** The whole seconds a breakdown stands for. */
  function TotalSeconds(t: TimeLeft): int {
    t.days * 86400 + t.hours * 3600 + t.minutes * 60 + t.seconds
  }

  /** The breakdown of `tripDate - now`; all zero once the trip has started. */
  function CalculateTimeLeft(tripDate: int, now: int): (t: TimeLeft)
    ensures InRange(t)
    ensures tripDate - now <= 0 ==> t == Zero
    ensures tripDate - now > 0 ==> TotalSeconds(t) == (tripDate - now) / MsPerSecond
  {
    var difference := tripDate - now;
    if difference > 0 then
      var t := TimeLeft(
        difference / MsPerDay,
        (difference / MsPerHour) % 24,
        (difference / MsPerMinute) % 60,
        (difference / MsPerSecond) % 60);
      Recompose(difference);
      t
    else
      Zero
  }

  /** Days, hour-of-day, minute and second add back up to the whole seconds. */
  lemma Recompose(d: int)
    requires d > 0
    ensures (d / MsPerDay) * 86400 + ((d / MsPerHour) % 24) * 3600
      + ((d / MsPerMinute) % 60) * 60 + (d / MsPerSecond) % 60 == d / MsPerSecond
  {
    var s := d / 1000;
    var m := d / 60000;
    var h := d / 3600000;
    var dd := d / 86400000;
    assert m == s / 60;
    assert h == m / 60;
    assert dd == h / 24;
    assert s == m * 60 + s % 60;
    assert m == h * 60 + m % 60;
    assert h == dd * 24 + h % 24;
  }

  /** The breakdown is the only in-range one with those whole seconds, so the
      countdown shows exactly one reading for each remaining second. */
  lemma {:induction false} BreakdownUnique(t: TimeLeft, u: TimeLeft)
    requires InRange(t) && InRange(u)
    requires TotalSeconds(t) == TotalSeconds(u)
    ensures t == u
  {
    var a := t.hours * 3600 + t.minutes * 60 + t.seconds;
    var b := u.hours * 3600 + u.minutes * 60 + u.seconds;
    assert 0 <= a < 86400 && 0 <= b < 86400;
    assert t.days == u.days;
    assert t.hours == u.hours;
    assert t.minutes == u.minutes;
  }

  /** A target 90 061 000 ms away reads one day, one hour, one minute, one second;
      less than a second reads all zeros. */
  lemma CountdownExamples(now: int, d: int)
    requires 0 < d < 1000
    ensures CalculateTimeLeft(now + 90061000, now) == TimeLeft(1, 1, 1, 1)
    ensures CalculateTimeLeft(now + d, now) == Zero
  {
    var t := CalculateTimeLeft(now + 90061000, now);
    assert TotalSeconds(t) == 90061;
    BreakdownUnique(t, TimeLeft(1, 1, 1, 1));
    var z := CalculateTimeLeft(now + d, now);
    assert TotalSeconds(z) == 0;
    BreakdownUnique(z, Zero);
  }
}
