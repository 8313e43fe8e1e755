/** Instants as integer local seconds, with the calendar reduced to uniform
    days of 24 hours of 3600 seconds (Shared/DateExtensions.swift). Division
    and remainder are Euclidean, so a day or hour starts at the floor of the
    instant also before the epoch. */
module Dates {

  type Instant = int

  const SecondsPerMinute: int := 60
  const SecondsPerHour: int := 3600
  const HoursPerDay: int := 24
  const SecondsPerDay: int := 86400

  /** The calendar day an instant falls on; year, month and day of month are
      functions of this number. */
  function DayNumber(t: Instant): int {
    t / SecondsPerDay
  }

  /** The hour-of-day component. */
  function HourOf(t: Instant): (h: int)
    ensures 0 <= h < HoursPerDay
  {
    (t % SecondsPerDay) / SecondsPerHour
  }

  /** Seconds past the hour (the minute and second components together). */
  function SecondsIntoHour(t: Instant): (s: int)
    ensures 0 <= s < SecondsPerHour
  {
    t % SecondsPerHour
  }

  /** `calendar.startOfDay(for:)`. */
  function StartOfDay(t: Instant): (r: Instant)
    ensures r <= t < r + SecondsPerDay
    ensures r % SecondsPerDay == 0
    ensures DayNumber(r) == DayNumber(t)
  {
    t - t % SecondsPerDay
  }

  /** `Date.startOfHour`: the same year, month, day and hour with minute and
      second set to zero. */
  function StartOfHour(t: Instant): (r: Instant)
    ensures r <= t
    ensures t - r < SecondsPerHour
    ensures SecondsIntoHour(r) == 0
  {
    t - t % SecondsPerHour
  }

  /** `calendar.date(bySetting: .hour, value: h, of: t)` where the widget
      calls it: on a whole hour `t`, with `h` at or after the hour of `t`
      (SpotprisWidget/SpotprisWidget.swift:23-26). There the result is hour
      `h` of the same day. Foundation leaves the method's behaviour for other
      arguments implementation-defined (it may search forward into a later
      day); for those this definition is only the uniform-day reading. */
  function DateBySettingHour(h: int, t: Instant): (r: Instant)
    requires 0 <= h < HoursPerDay
    ensures DayNumber(r) == DayNumber(t)
    ensures HourOf(r) == h
    ensures SecondsIntoHour(r) == SecondsIntoHour(t)
  {
    Decompose(t);
    Compose(DayNumber(t), h, SecondsIntoHour(t));
    StartOfDay(t) + h * SecondsPerHour + t % SecondsPerHour
  }

  /** A day, an hour and seconds into the hour name exactly one instant. */
  lemma {:induction false} Compose(d: int, h: int, s: int)
    requires 0 <= h < HoursPerDay && 0 <= s < SecondsPerHour
    ensures var t := d * SecondsPerDay + h * SecondsPerHour + s;
            DayNumber(t) == d && HourOf(t) == h && SecondsIntoHour(t) == s
  {
    var q := h * 3600 + s;
    var t := d * 86400 + q;
    assert 0 <= q < 86400;
    assert t / 86400 == d && t % 86400 == q;
    assert q / 3600 == h;
    assert t == (d * 24 + h) * 3600 + s;
    assert t % 3600 == s;
  }

  /** On a whole hour, setting the hour to `h` moves by `h` minus the
      current hour, in whole hours. */
  lemma {:induction false} DateBySettingHourShift(h: int, t: Instant)
    requires 0 <= h < HoursPerDay
    requires SecondsIntoHour(t) == 0
    ensures DateBySettingHour(h, t) == t + (h - HourOf(t)) * SecondsPerHour
  {
    Decompose(t);
  }

  /** An instant is determined by its day, hour and seconds into the hour. */
  lemma {:induction false} Decompose(t: Instant)
    ensures t == DayNumber(t) * SecondsPerDay + HourOf(t) * SecondsPerHour + SecondsIntoHour(t)
  {
    var d, r := t / 86400, t % 86400;
    assert t == d * 86400 + r;
    assert r == (r / 3600) * 3600 + r % 3600;
    assert t % 3600 == r % 3600 by {
      assert t == (d * 24) * 3600 + r;
    }
  }

  lemma {:induction false} StartOfHourIdempotent(t: Instant)
    ensures StartOfHour(StartOfHour(t)) == StartOfHour(t)
  {
    var r := StartOfHour(t);
    assert r == (t / 3600) * 3600;
  }

  /** Zeroing minutes and seconds keeps the calendar day and the hour. */
  lemma {:induction false} StartOfHourPreservesDayAndHour(t: Instant)
    ensures DayNumber(StartOfHour(t)) == DayNumber(t)
    ensures HourOf(StartOfHour(t)) == HourOf(t)
  {
    var r := StartOfHour(t);
    Decompose(t);
    var d, h, s := DayNumber(t), HourOf(t), SecondsIntoHour(t);
    assert r == d * 86400 + h * 3600;
    assert 0 <= h * 3600 < 86400;
    assert r / 86400 == d;
    assert r % 86400 == h * 3600;
  }

  /** The start of the hour is the only whole-hour instant in the hour that
      ends just after `t`. */
  lemma {:induction false} StartOfHourUnique(t: Instant, m: Instant)
    requires m % SecondsPerHour == 0
    requires m <= t < m + SecondsPerHour
    ensures m == StartOfHour(t)
  {
    var k := m / 3600;
    assert m == k * 3600;
    assert t == k * 3600 + (t - m);
    assert t / 3600 == k;
  }

  /** Two instants in the same day and hour share their start of hour. */
  lemma {:induction false} StartOfHourDeterminedByDayAndHour(t: Instant, u: Instant)
    requires DayNumber(t) == DayNumber(u) && HourOf(t) == HourOf(u)
    ensures StartOfHour(t) == StartOfHour(u)
  {
    Decompose(t);
    Decompose(u);
  }
}
