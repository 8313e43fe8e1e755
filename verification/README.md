# Spotpris price retrieval, modelled in Dafny

Spotpris is an iOS app with a home-screen widget. It shows day-ahead
electricity spot prices for the five Norwegian price areas. Most of the app
is SwiftUI and WidgetKit code. This project models the logic underneath it
as pure functions over integer time:

- `PricesService.Get` serves a day's prices for an area. It reads the
  cached file `"{yyyy-MM-dd}-{area}"` when that file exists and decodes.
  Otherwise it requests `https://stroempris-api.fly.dev/price/{area}/{yyyy-MM-dd}`,
  stores the raw response, and then decodes it.
  One call is one step of a state machine whose state is the cache, a map
  from file name to bytes. The HTTP response, the JSON decoder and whether a
  file write succeeds are all inputs.
- `PricesService.ApiPricesToHourAndPrice` turns a price document into the
  hourly series the chart draws. It adds one synthetic trailing hour.
- `Widget.GetTimeline` builds the widget's timeline and its reload instant.
- The app screen has two pieces of logic. The `RemoteData` load states are in
  `ContentView.LoadPrices` and `ContentView.RetryAfterError`. The "last
  price at or before t" selection is `ContentView.SelectionPrice`.
- Small helpers: `Result.getOrDefault` and `Result.fold`, `Date.startOfHour`,
  the `Area` enum, `getArea` and `getMvaMultiplier`.

Modules: `Results` (Swift's `Optional`/`Result` and the app's extensions),
`Dates` (instants as local seconds, with uniform 24-hour days), `Calendar`
(`yyyy-MM-dd`), `Areas`, `PricesApi`, `PricesService`, `Widget` and
`ContentView`.

Three behaviours of the code are worth stating, because the model follows
them and its lemmas depend on them:

- The widget's reload policy. `fold` takes the success continuation first
  (Shared/ResultExtensions.swift:13-20). So in SpotprisWidget/SpotprisWidget.swift:29-36
  a success reloads at the start of the next day, and a failure reloads 900 s
  after the completion ran (`Widget.GetTimeline`).
- An undecodable cached file. Read and decode are chained with `flatMap`
  (Shared/PricesService.swift:8-12), so a cached file that does not decode
  falls through to the network (`PricesService.Get`).
- An undecodable response. `Files.store` runs inside the `flatMap` before
  `decode` (Shared/PricesService.swift:17-19), so the response is written even
  when it does not decode. Every later call then finds an undecodable cached
  file and goes back to the network
  (`PricesService.UndecodableResponseStoredAndRefetched`).

## Model

| member | source | states |
|---|---|---|
| Results.GetOrDefault | Shared/ResultExtensions.swift:4-11 | a success yields its value; a failure yields the default |
| Results.Fold | Shared/ResultExtensions.swift:13-20 | the first continuation handles a success value, the second one an error |
| Results.GetOrDefaultIsFold | Shared/ResultExtensions.swift:4-20 | `getOrDefault(r, d)` equals folding with the identity and the constant `d` |
| Results.FoldWithConstructorsIsIdentity | Shared/ResultExtensions.swift:13-20 | folding with the two constructors rebuilds the same result, so `fold` never swaps the cases |
| Results.FlatMap | Shared/PricesService.swift:8-10 | chaining after a success applies the step; a failure passes through unchanged |
| Results.Map | Shared/PricesService.swift:21 | a success value is transformed; a failure keeps its error |
| Dates.StartOfHour | Shared/DateExtensions.swift:4-11 | the result is at most `t`, less than an hour before it, and on a whole hour |
| Dates.StartOfHourIdempotent | Shared/DateExtensions.swift:4-11 | applying start-of-hour twice is the same as once |
| Dates.StartOfHourPreservesDayAndHour | Shared/DateExtensions.swift:6-8 | zeroing minutes and seconds keeps the calendar day and the hour |
| Dates.StartOfHourUnique | Shared/DateExtensions.swift:7-10 | the only whole-hour instant in `(t - 1h, t]` is the start of the hour |
| Dates.StartOfHourDeterminedByDayAndHour | Shared/DateExtensions.swift:6-10 | two instants with the same day and hour have the same start of hour |
| Dates.StartOfDay | SpotprisWidget/SpotprisWidget.swift:33 | start of day is at most `t`, under a day before it, on a day boundary, and on the same day |
| Dates.HourOf | SpotprisWidget/SpotprisWidget.swift:24 | the hour component lies in 0..23 |
| Dates.DateBySettingHour | SpotprisWidget/SpotprisWidget.swift:23-26 | on the whole-hour instants the widget passes, with `h` at or after their hour, setting the hour keeps the day, minutes and seconds, and gives that hour |
| Dates.Compose | Shared/DateExtensions.swift:6-10 | a day, an hour of 0..23 and 0..3599 seconds into the hour name one instant, whose components read back as given |
| Dates.DateBySettingHourShift | SpotprisWidget/SpotprisWidget.swift:23-26 | on a whole hour, setting hour `h` moves by `h` minus the current hour, in hours |
| Areas.RawValue | Shared/Area.swift:3-9 | each raw value is "NO" then one digit 1-5 (length 3); that digit is the case's position in `allCases` |
| Areas.FromRawValue | Shared/Area.swift:3 | the raw-value initialiser only returns the area whose raw value was given |
| Areas.RawValueRoundTrip | Shared/Area.swift:3-9 | the raw-value initialiser inverts `rawValue` |
| Areas.RawValueInjective | Shared/Area.swift:4-8 | distinct areas have distinct raw values |
| Areas.AllCasesComplete | Shared/Area.swift:3-9 | `allCases` has five cases, holds every area, and has no repeats |
| Areas.AllCasesInOrder | Shared/Area.swift:4-8 | the case at position `i` of `allCases` is NO(i+1), in declaration order |
| Calendar.FormatDate | Shared/PricesService.swift:5-7 | `yyyy-MM-dd` is ten characters with dashes at positions 4 and 7 and digits elsewhere |
| Calendar.PadRoundTrip | Shared/PricesAPI.swift:3 | a zero-padded field reads back as the number it came from |
| Calendar.FormatDateRoundTrip | Shared/PricesAPI.swift:3 | parsing a formatted valid date gives back that date |
| Calendar.FormatDateInjective | Shared/PricesService.swift:5-7 | distinct dates format differently |
| PricesApi.PricesUrl | Shared/PricesAPI.swift:6 | the URL is the fixed base, then the area raw value, "/", and the `yyyy-MM-dd` date |
| PricesApi.PricesUrlRoundTrip | Shared/PricesAPI.swift:6 | the area and the day can be read back from the URL |
| PricesApi.PricesUrlInjective | Shared/PricesAPI.swift:6 | distinct (area, day) pairs request distinct URLs |
| PricesApi.VersionHeaders | Shared/PricesAPI.swift:7-10 | the headers are exactly `api-release-version` and `api-build-version`, each the bundle value or "unknown" |
| PricesApi.GetPrices | Shared/PricesAPI.swift:5-13 | the request goes to the price URL of the given area and day and carries exactly the two version headers |
| PricesApi.GetPricesJson | Shared/PricesAPI.swift:15-21 | a transport failure passes through unchanged; received bytes yield exactly their decoding |
| PricesService.CacheKey | Shared/PricesService.swift:5-7 | the file name is the `yyyy-MM-dd` date, "-", then the area raw value (14 characters) |
| PricesService.CacheKeyRoundTrip | Shared/PricesService.swift:5-7 | day and area can be read back from the file name |
| PricesService.CacheKeyInjective | Shared/PricesService.swift:5-7 | distinct (day, area) pairs never share a cache file |
| PricesService.CacheKeyAgreesWithUrl | Shared/PricesService.swift:7-15 | the file name and the fallback request URL carry the same date text and area code |
| PricesService.Read | Spotpris/Files.swift:21-30 | a read succeeds exactly when the file exists, and returns its contents |
| PricesService.Store | Spotpris/Files.swift:9-19 | a store replaces that one file when the directory is writable, else changes nothing; it reports which |
| PricesService.ApiPricesToHourAndPrice | Shared/PricesService.swift:29-39 | N prices give N+1 entries (0 for N = 0); entry `i` is at `date + 3600*i` with price `i`; the last entry repeats the previous price one hour later |
| PricesService.HourlyStepsDistance | Shared/PricesService.swift:30-37 | in a series with one-hour steps, entries `k` places apart are `k` hours apart |
| PricesService.HourlyStepsIncrease | Shared/PricesService.swift:30-37 | a series with one-hour steps has strictly increasing hours |
| PricesService.TransformShape | Shared/PricesService.swift:29-39 | the series starts at the document date, moves in one-hour steps with strictly increasing hours, and ends at `date + N hours` with the last price |
| PricesService.TransformIdsDistinct | Shared/PricesAPI.swift:28-33 | the chart ids (`HourAndPrice.Id`, which is the hour, as at Shared/PricesAPI.swift:32) of a series are pairwise distinct |
| PricesService.TransformRoundTrip | Shared/PricesService.swift:29-39 | a non-empty document can be recovered from its series: the first hour, then all prices but the synthetic last |
| PricesService.Get | Shared/PricesService.swift:4-26 | a decodable cached file is served transformed with no request and no write. Otherwise the same area and day are requested. Received bytes are stored before decoding (if writable) and then decoded and transformed. A transport failure is returned unchanged and stores nothing. No other file changes |
| PricesService.GetMissAgreesWithGetPricesJson | Shared/PricesService.swift:14-23 | on a miss, `get` yields exactly what `getPricesJson` yields, transformed |
| PricesService.GetIgnoresStoreResult | Shared/PricesService.swift:16-21 | the caller's result is the same whether the store succeeds or fails |
| PricesService.GetHitIgnoresNetwork | Shared/PricesService.swift:8-13 | on a cache hit the outcome does not depend on the network or the file system |
| PricesService.SecondGetServedFromCache | Shared/PricesService.swift:7-23 | a successful fetch that was stored serves a second call for the same key from the cache, with the same prices and no request |
| PricesService.UndecodableResponseStoredAndRefetched | Shared/PricesService.swift:8-22 | an undecodable response is still stored and the decode error is returned; the next call asks the network again |
| Widget.GetArea | SpotprisWidget/SpotprisWidget.swift:179-194 | `.unknown` maps to NO1, and every other intent case maps to the area it names |
| Widget.GetAreaOfIntentCase | SpotprisWidget/SpotprisWidget.swift:179-194 | every area can be configured, and configuring it selects it |
| Widget.GetMvaMultiplier | SpotprisWidget/SpotprisWidget.swift:196-206 | the multiplier is 1.0 exactly when the flag is absent or 0, and 1.25 otherwise |
| Widget.EntryPrices | SpotprisWidget/SpotprisWidget.swift:21 | entries carry the fetched prices on success and the empty list on failure |
| Widget.GetTimeline | SpotprisWidget/SpotprisWidget.swift:17-40 | there are 24 - h entries for current hour h, at hours h..23 of the same day (`Dates.DayNumber`, the day count since the epoch) on whole hours, all with the same prices and configuration. A success reloads at the next midnight; a failure reloads 900 s after the completion ran |
| Widget.TimelineHours | SpotprisWidget/SpotprisWidget.swift:22-27 | the first entry is the start of the current hour; entries are one hour apart, strictly increasing, and the last is at 23:00 |
| Widget.SuccessRefreshIsNextMidnight | SpotprisWidget/SpotprisWidget.swift:29-34 | after a success the reload instant is after `now`, at most a day later, and the first instant of the next day (its `Dates.DayNumber` is one more) |
| Widget.FailureEntriesIndependentOfClock | SpotprisWidget/SpotprisWidget.swift:20-21 | after a failure, the date of the fallback document does not affect the entries |
| ContentView.FromResult | Spotpris/ContentView.swift:179-182 | a success becomes `.Success` with the same value, and a failure becomes `.Failure` with the same error |
| ContentView.FromResultRoundTrip | Spotpris/ContentView.swift:208-212 | a finished load is never `.Initial` and keeps the service's answer intact |
| ContentView.LoadPrices | Spotpris/ContentView.swift:176-184 | the states are `.Initial`, then the service's answer; the cache is the one the service leaves |
| ContentView.RetryAfterError | Spotpris/ContentView.swift:111-116 | a tap on the error resets to `.Initial`, then loads again: `.Initial`, then the service's answer for the same area and day, and the cache the service leaves |
| ContentView.LastAtOrBeforeUnique | Spotpris/ContentView.swift:191 | at most one entry is the last one whose hour is at or before `t` |
| ContentView.AtOrBefore | Spotpris/ContentView.swift:191 | the filtered entries all have hour at most `t`; the list is empty exactly when none qualifies; its last element is the last qualifying entry |
| ContentView.AtOrBeforeMembers | Spotpris/ContentView.swift:191 | an entry is in the filtered list exactly when it is in the list and has begun by `t` |
| ContentView.AtOrBeforeConcat | Spotpris/ContentView.swift:191 | filtering distributes over concatenation, so every qualifying entry is kept in its original order |
| ContentView.SelectedEntry | Spotpris/ContentView.swift:165 | the selection is none exactly when no entry has hour at most `t`; otherwise it is the last such entry |
| ContentView.SelectionPrice | Spotpris/ContentView.swift:186-194 | the selected price is none exactly when no entry has begun by `t`; otherwise it is the price of the last entry that has |
| ContentView.SortedSelectionIsLatest | Spotpris/ContentView.swift:172 | on a list sorted by hour, the selected entry has the greatest hour at most `t` |
| ContentView.SelectionOnHourlySeries | Spotpris/ContentView.swift:169-173 | on a series built from a document, `t` selects the price of the hour containing `t`; past the end it selects the last price, and before the first hour nothing |

## Left out

- Networking: `getData` (Shared/Http.swift:3-23) is replaced by its response, an input `Result<Bytes, Error>`. Its possible double completion when both an error and data arrive is not modelled. Neither is the unused `getJson`, which drops its headers.
- JSON decoding and its strict `yyyy-MM-dd` date parser (Shared/Http.swift:31-51): decoding is an opaque, deterministic `Decoder` function.
- File system (Spotpris/Files.swift): the documents directory is a map from file name to bytes. A read fails only when the file is missing, and a write fails as a whole according to an input flag. Atomic writes and directory lookup are platform behaviour.
- Time zones, DST and `Calendar.current`: days are uniform 24 x 3600 s of local seconds. `PricesService.Get` takes the calendar date (year, month, day) that `DateFormatter` would print. The conversion from an instant to that date is not modelled.
- Dates.DateBySettingHour: only agrees with Foundation where the widget calls it, on a whole hour with `h` at or after its hour. For other arguments Foundation's result is implementation-defined and may lie on a later day; the model keeps the day.
- Calendar.FormatDate: years outside 1..9999 are not modelled, because `yyyy` is not four digits there.
- Prices are exact reals, and the VAT multiplier is a real. Floating-point rounding, `formatPrice` and `formatHomescreenPrice` are display code.
- SwiftUI/Charts views, gestures, the 0.3 s `asyncAfter` before a retry, colours, `placeholder`/`getSnapshot` (which show a constant example series), previews and `@AppStorage`.
- The widget views index `entry.prices[hour]` (SpotprisWidget/SpotprisWidget.swift:75, 89, 124, 140). After a failed fetch that list is empty, so the model makes no claim that the views are total.
- The bundle's version lookup is an input, `BundleInfo`.
- The chart's conversion from a drag position to a time (Spotpris/ContentView.swift:187-190) is left out: the selected time `t` is an input.
- Asynchrony: each completion-callback call is modelled as one function from its inputs to its outcome.
- Widget.GetTimeline: the fetch result is an input. The model therefore does not record that the fetch was for `getArea(configuration)` and the calendar date of `now`.
