/** The home-screen widget's timeline provider and configuration helpers
    (SpotprisWidget/SpotprisWidget.swift). */
module Widget {
  import opened Results
  import opened Dates
  import Areas
  import opened PricesApi

  /** The intent's area parameter: the five areas plus `.unknown`, which a
      widget has before the user picks one. */
  datatype IntentArea = Unknown | NO1 | NO2 | NO3 | NO4 | NO5

  /** The widget's configuration: its area and the optional "with MVA" flag. */
  datatype ConfigurationIntent = ConfigurationIntent(area: IntentArea, withMva: Option<int>)

  /** One timeline entry: the instant it becomes current and the prices it
      shows. */
  datatype PricesEntry = PricesEntry(date: Instant, prices: seq<Price>, configuration: ConfigurationIntent)

  /** A timeline and its `.after(refreshAfter)` reload policy. */
  datatype Timeline = Timeline(entries: seq<PricesEntry>, refreshAfter: Instant)

  /** How long a widget waits before retrying a failed fetch. */
  const RetryDelay: int := 15 * SecondsPerMinute

  /** The intent case that names a given area. */
  function IntentCase(a: Areas.Area): IntentArea {
    match a
    case NO1 => NO1
    case NO2 => NO2
    case NO3 => NO3
    case NO4 => NO4
    case NO5 => NO5
  }

  /** `getArea`: the configured area, NO1 while none is configured. */
  function GetArea(configuration: ConfigurationIntent): (a: Areas.Area)
    ensures configuration.area == Unknown ==> a == Areas.NO1
    ensures configuration.area != Unknown ==> IntentCase(a) == configuration.area
  {
    match configuration.area
    case Unknown => Areas.NO1
    case NO1 => Areas.NO1
    case NO2 => Areas.NO2
    case NO3 => Areas.NO3
    case NO4 => Areas.NO4
    case NO5 => Areas.NO5
  }

  /** Every area can be configured, and configuring it selects it. */
  lemma GetAreaOfIntentCase(a: Areas.Area, withMva: Option<int>)
    ensures GetArea(ConfigurationIntent(IntentCase(a), withMva)) == a
  {
  }

  /** `getMvaMultiplier`: 25% VAT unless the flag is absent or zero. */
  function GetMvaMultiplier(configuration: ConfigurationIntent): (m: real)
    ensures m == 1.0 || m == 1.25
    ensures m == 1.0 <==> configuration.withMva.None? || configuration.withMva.value == 0
  {
    match configuration.withMva
    case Some(mva) => if mva == 0 then 1.0 else 1.25
    case None => 1.0
  }

  /** The prices every entry shows: those fetched, or none on failure. */
  function EntryPrices(result: Result<APIPrices, Error>, completedAt: Instant): (ps: seq<Price>)
    ensures result.Success? ==> ps == result.value.pricesWithoutMva
    ensures result.Failure? ==> ps == []
  {
    GetOrDefault(result, APIPrices(completedAt, [])).pricesWithoutMva
  }

  /** `getTimeline`. `result` is what `getPricesJson` delivered for the
      configured area and `now`; `completedAt` is the clock reading inside the
      completion, which the failure policy uses. */
  function GetTimeline(configuration: ConfigurationIntent, now: Instant,
                       result: Result<APIPrices, Error>, completedAt: Instant): (tl: Timeline)
    // one entry per remaining hour of the day, the current hour included
    ensures |tl.entries| == HoursPerDay - HourOf(now)
    ensures forall i :: 0 <= i < |tl.entries| ==>
              && DayNumber(tl.entries[i].date) == DayNumber(now)
              && HourOf(tl.entries[i].date) == HourOf(now) + i
              && SecondsIntoHour(tl.entries[i].date) == 0
    ensures forall i :: 0 <= i < |tl.entries| ==>
              && tl.entries[i].prices == (if result.Success? then result.value.pricesWithoutMva else [])
              && tl.entries[i].configuration == configuration
    // a success is kept until midnight, a failure is retried in 15 minutes
    ensures result.Success? ==> tl.refreshAfter == StartOfDay(now) + SecondsPerDay
    ensures result.Failure? ==> tl.refreshAfter == completedAt + RetryDelay
  {
    var prices := EntryPrices(result, completedAt);
    var startHour := StartOfHour(now);
    StartOfHourPreservesDayAndHour(now);
    var hour := HourOf(startHour);
    var entries := seq(HoursPerDay - hour, i requires 0 <= i < HoursPerDay - hour =>
                         PricesEntry(DateBySettingHour(hour + i, startHour), prices, configuration));
    assert forall i :: 0 <= i < |entries| ==>
             entries[i] == PricesEntry(DateBySettingHour(hour + i, startHour), prices, configuration);
    var refetchPolicy := Fold(result,
                              (_: APIPrices) => StartOfDay(now) + SecondsPerDay,
                              (_: Error) => completedAt + RetryDelay);
    Timeline(entries, refetchPolicy)
  }

  /** Entry `i` of the timeline lies `i` hours after the start of the
      current hour. */
  lemma {:induction false} TimelineEntryDate(configuration: ConfigurationIntent, now: Instant,
                                             result: Result<APIPrices, Error>, completedAt: Instant, i: int)
    requires 0 <= i < HoursPerDay - HourOf(now)
    ensures GetTimeline(configuration, now, result, completedAt).entries[i].date ==
            StartOfHour(now) + SecondsPerHour * i
  {
    var s := StartOfHour(now);
    StartOfHourPreservesDayAndHour(now);
    assert GetTimeline(configuration, now, result, completedAt).entries[i].date ==
           DateBySettingHour(HourOf(s) + i, s);
    DateBySettingHourShift(HourOf(s) + i, s);
  }

  /** The entries begin at the start of the current hour and are exactly one
      hour apart, so they are in increasing order, and the last is 23:00. */
  lemma {:induction false} TimelineHours(configuration: ConfigurationIntent, now: Instant,
                                         result: Result<APIPrices, Error>, completedAt: Instant)
    ensures var es := GetTimeline(configuration, now, result, completedAt).entries;
            && es[0].date == StartOfHour(now)
            && (forall i :: 0 <= i < |es| ==> es[i].date == StartOfHour(now) + SecondsPerHour * i)
            && (forall i, j :: 0 <= i < j < |es| ==> es[i].date < es[j].date)
            && HourOf(es[|es| - 1].date) == HoursPerDay - 1
  {
    var es := GetTimeline(configuration, now, result, completedAt).entries;
    forall i | 0 <= i < |es|
      ensures es[i].date == StartOfHour(now) + SecondsPerHour * i
    {
      TimelineEntryDate(configuration, now, result, completedAt, i);
    }
  }

  /** After a success the widget next reloads at the first instant of the
      following day. */
  lemma {:induction false} SuccessRefreshIsNextMidnight(configuration: ConfigurationIntent, now: Instant,
                                                        result: Result<APIPrices, Error>, completedAt: Instant)
    requires result.Success?
    ensures var r := GetTimeline(configuration, now, result, completedAt).refreshAfter;
            && now < r <= now + SecondsPerDay
            && StartOfDay(r) == r
            && DayNumber(r) == DayNumber(now) + 1
  {
    var r := GetTimeline(configuration, now, result, completedAt).refreshAfter;
    var d := DayNumber(now);
    assert StartOfDay(now) == d * SecondsPerDay;
    assert r == (d + 1) * SecondsPerDay;
  }

  /** What the widget shows never depends on the date of the fallback
      document used after a failure. */
  lemma FailureEntriesIndependentOfClock(configuration: ConfigurationIntent, now: Instant,
                                         e: Error, c1: Instant, c2: Instant)
    ensures GetTimeline(configuration, now, Failure(e), c1).entries ==
            GetTimeline(configuration, now, Failure(e), c2).entries
  {
  }
}
