/** `PricesService.get` (Shared/PricesService.swift): serve the day's prices
    for an area from the local cache when a decodable copy is there, and
    otherwise fetch them, store the raw response, and decode it. One call is
    one step of a state machine whose state is the cache. */
module PricesService {
  import opened Results
  import opened Dates
  import opened Areas
  import opened Calendar
  import opened PricesApi

  /** The app's documents directory: file name to file contents. */
  type Cache = map<string, Bytes>

  /** What one `get` call produces: the value passed to the completion, the
      cache afterwards, and the request sent to the network, if any. */
  datatype Outcome = Outcome(result: Result<seq<HourAndPrice>, Error>, cache: Cache, request: Option<Request>)

  // ---------------------------------------------------------------------
  // Cache file names

  /** The file name `"{yyyy-MM-dd}-{area}"`. */
  function CacheKey(day: CivilDate, area: Area): (key: string)
    requires Valid(day)
    ensures |key| == 14
    ensures key[..10] == FormatDate(day)
    ensures key[10] == '-'
    ensures key[11..] == RawValue(area)
  {
    FormatDate(day) + "-" + RawValue(area)
  }

  function ParseCacheKey(key: string): Option<(CivilDate, Area)> {
    if |key| == 14 && key[10] == '-' then
      var day := ParseDate(key[..10]);
      var area := FromRawValue(key[11..]);
      if day.Some? && area.Some? then Some((day.value, area.value)) else None
    else None
  }

  lemma CacheKeyRoundTrip(day: CivilDate, area: Area)
    requires Valid(day)
    ensures ParseCacheKey(CacheKey(day, area)) == Some((day, area))
  {
    FormatDateRoundTrip(day);
    RawValueRoundTrip(area);
  }

  /** Distinct (day, area) pairs never share a cache file. */
  lemma CacheKeyInjective(d: CivilDate, a: Area, e: CivilDate, b: Area)
    requires Valid(d) && Valid(e)
    requires CacheKey(d, a) == CacheKey(e, b)
    ensures d == e && a == b
  {
    CacheKeyRoundTrip(d, a);
    CacheKeyRoundTrip(e, b);
  }

  /** The cache file and the request URL name the same area and day. */
  lemma CacheKeyAgreesWithUrl(day: CivilDate, area: Area, bundle: BundleInfo)
    requires Valid(day)
    ensures var url := GetPrices(area, day, bundle).url;
            && url[|BaseUrl| + 4..] == CacheKey(day, area)[..10]
            && url[|BaseUrl|..|BaseUrl| + 3] == CacheKey(day, area)[11..]
  {
  }

  // ---------------------------------------------------------------------
  // File access (Spotpris/Files.swift), reduced to a map

  /** `Files.read`: fails when there is no file of that name. */
  function Read(cache: Cache, key: string): (r: Result<Bytes, Error>)
    ensures r.Success? <==> key in cache
    ensures r.Success? ==> r.value == cache[key]
  {
    if key in cache then Success(cache[key]) else Failure(FileError(key))
  }

  /** `Files.store`: writes the file when the directory is `writable`, and
      reports whether it did. */
  function Store(cache: Cache, key: string, contents: Bytes, writable: bool): (r: (Cache, bool))
    ensures r.1 == writable
    ensures writable ==> r.0 == cache[key := contents]
    ensures !writable ==> r.0 == cache
  {
    if writable then (cache[key := contents], true) else (cache, false)
  }

  // ---------------------------------------------------------------------
  // The hourly series

  /** Consecutive entries are exactly one hour apart. */
  predicate HourlySteps(r: seq<HourAndPrice>) {
    forall i :: 0 <= i < |r| - 1 ==> r[i + 1].hour == r[i].hour + SecondsPerHour
  }

  predicate StrictlyIncreasingHours(r: seq<HourAndPrice>) {
    forall i, j :: 0 <= i < j < |r| ==> r[i].hour < r[j].hour
  }

  function Prices(r: seq<HourAndPrice>): (ps: seq<Price>)
    ensures |ps| == |r|
    ensures forall i :: 0 <= i < |r| ==> ps[i] == r[i].price
  {
    seq(|r|, i requires 0 <= i < |r| => r[i].price)
  }

  /** `apiPricesToHourAndPrice`: price `i` belongs to the hour starting `i`
      hours after the document's date; a copy of the last price is appended
      one hour later so that the chart draws the last hour. */
  function ApiPricesToHourAndPrice(p: APIPrices): (r: seq<HourAndPrice>)
    ensures |p.pricesWithoutMva| == 0 ==> r == []
    ensures |p.pricesWithoutMva| > 0 ==> |r| == |p.pricesWithoutMva| + 1
    ensures forall i :: 0 <= i < |p.pricesWithoutMva| ==>
              r[i].hour == p.date + SecondsPerHour * i && r[i].price == p.pricesWithoutMva[i]
    ensures |r| > 0 ==> r[|r| - 1].hour == r[|r| - 2].hour + SecondsPerHour
    ensures |r| > 0 ==> r[|r| - 1].price == r[|r| - 2].price
  {
    var ps := p.pricesWithoutMva;
    var mapped := seq(|ps|, i requires 0 <= i < |ps| => HourAndPrice(p.date + SecondsPerHour * i, ps[i]));
    if |mapped| > 0 then
      var lastHour := mapped[|mapped| - 1];
      mapped + [HourAndPrice(lastHour.hour + SecondsPerHour, lastHour.price)]
    else
      mapped
  }

  /** Entries that are one hour apart are `k` hours apart `k` places later. */
  lemma {:induction false} HourlyStepsDistance(r: seq<HourAndPrice>, i: int, j: int)
    requires HourlySteps(r)
    requires 0 <= i <= j < |r|
    ensures r[j].hour == r[i].hour + SecondsPerHour * (j - i)
    decreases j - i
  {
    if i < j {
      HourlyStepsDistance(r, i, j - 1);
    }
  }

  lemma HourlyStepsIncrease(r: seq<HourAndPrice>)
    requires HourlySteps(r)
    ensures StrictlyIncreasingHours(r)
  {
    forall i, j | 0 <= i < j < |r|
      ensures r[i].hour < r[j].hour
    {
      HourlyStepsDistance(r, i, j);
    }
  }

  /** The series starts at the document's date, advances one hour per entry
      and ends on two equal prices. */
  lemma TransformShape(p: APIPrices)
    ensures HourlySteps(ApiPricesToHourAndPrice(p))
    ensures StrictlyIncreasingHours(ApiPricesToHourAndPrice(p))
    ensures |p.pricesWithoutMva| > 0 ==>
              ApiPricesToHourAndPrice(p)[0].hour == p.date
    ensures |p.pricesWithoutMva| > 0 ==>
              ApiPricesToHourAndPrice(p)[|p.pricesWithoutMva|] ==
              HourAndPrice(p.date + SecondsPerHour * |p.pricesWithoutMva|, p.pricesWithoutMva[|p.pricesWithoutMva| - 1])
  {
    HourlyStepsIncrease(ApiPricesToHourAndPrice(p));
  }

  /** Chart ids (the hours) of a series are pairwise distinct. */
  lemma TransformIdsDistinct(p: APIPrices)
    ensures forall i, j :: 0 <= i < j < |ApiPricesToHourAndPrice(p)| ==>
              ApiPricesToHourAndPrice(p)[i].Id() != ApiPricesToHourAndPrice(p)[j].Id()
  {
    TransformShape(p);
  }

  /** The document a non-empty series was built from: the first hour and all
      prices but the synthetic last one. */
  function SourceDocument(r: seq<HourAndPrice>): Option<APIPrices> {
    if |r| == 0 then None else Some(APIPrices(r[0].hour, Prices(r[..|r| - 1])))
  }

  /** The series loses nothing of a non-empty document. */
  lemma TransformRoundTrip(p: APIPrices)
    requires |p.pricesWithoutMva| > 0
    ensures SourceDocument(ApiPricesToHourAndPrice(p)) == Some(p)
  {
    var r := ApiPricesToHourAndPrice(p);
    assert Prices(r[..|r| - 1]) == p.pricesWithoutMva;
  }

  // ---------------------------------------------------------------------
  // The cache-or-fetch step

  /** The cached copy is usable when the file exists and decodes. */
  predicate CacheHit(cache: Cache, key: string, decode: Decoder) {
    key in cache && decode(cache[key]).Success?
  }

  /** `PricesService.get`. `network` is what the HTTP request would deliver
      and is consulted only when a request is made; `writable` decides
      whether storing the response succeeds. */
  function Get(cache: Cache, area: Area, day: CivilDate, bundle: BundleInfo, decode: Decoder,
               network: Result<Bytes, Error>, writable: bool): (o: Outcome)
    requires Valid(day)
    // a decodable cached copy is served as is, without a request
    ensures CacheHit(cache, CacheKey(day, area), decode) ==>
              && o.request.None?
              && o.cache == cache
              && o.result == Success(ApiPricesToHourAndPrice(decode(cache[CacheKey(day, area)]).value))
    // a missing or undecodable copy leads to a request for the same area and day
    ensures !CacheHit(cache, CacheKey(day, area), decode) ==>
              o.request == Some(GetPrices(area, day, bundle))
    // a received response is stored before it is decoded
    ensures !CacheHit(cache, CacheKey(day, area), decode) && network.Success? ==>
              && o.cache == (if writable then cache[CacheKey(day, area) := network.value] else cache)
              && o.result == Map(decode(network.value), ApiPricesToHourAndPrice)
    // a transport failure is passed on and nothing is stored
    ensures !CacheHit(cache, CacheKey(day, area), decode) && network.Failure? ==>
              o.result == Failure(network.error) && o.cache == cache
    // no other file changes
    ensures forall k :: k != CacheKey(day, area) ==>
              (k in o.cache <==> k in cache) && (k in cache ==> o.cache[k] == cache[k])
  {
    var filename := CacheKey(day, area);
    var saved := FlatMap(Read(cache, filename), decode);
    if saved.Success? then
      Outcome(Success(ApiPricesToHourAndPrice(saved.value)), cache, None)
    else
      var request := GetPrices(area, day, bundle);
      match network
      case Success(contents) =>
        var (cache', _) := Store(cache, filename, contents, writable);
        Outcome(Map(decode(contents), ApiPricesToHourAndPrice), cache', Some(request))
      case Failure(e) =>
        Outcome(Failure(e), cache, Some(request))
  }

  /** On a miss, `get` yields what `getPricesJson` yields, transformed. */
  lemma GetMissAgreesWithGetPricesJson(cache: Cache, area: Area, day: CivilDate, bundle: BundleInfo,
                                       decode: Decoder, network: Result<Bytes, Error>, writable: bool)
    requires Valid(day)
    requires !CacheHit(cache, CacheKey(day, area), decode)
    ensures Get(cache, area, day, bundle, decode, network, writable).result ==
            Map(GetPricesJson(network, decode), ApiPricesToHourAndPrice)
  {
  }

  /** Whether the store succeeded never changes what the caller receives. */
  lemma GetIgnoresStoreResult(cache: Cache, area: Area, day: CivilDate, bundle: BundleInfo,
                              decode: Decoder, network: Result<Bytes, Error>)
    requires Valid(day)
    ensures Get(cache, area, day, bundle, decode, network, true).result ==
            Get(cache, area, day, bundle, decode, network, false).result
  {
  }

  /** On a hit the network plays no part at all. */
  lemma GetHitIgnoresNetwork(cache: Cache, area: Area, day: CivilDate, bundle: BundleInfo,
                             decode: Decoder, n1: Result<Bytes, Error>, n2: Result<Bytes, Error>,
                             w1: bool, w2: bool)
    requires Valid(day)
    requires CacheHit(cache, CacheKey(day, area), decode)
    ensures Get(cache, area, day, bundle, decode, n1, w1) == Get(cache, area, day, bundle, decode, n2, w2)
  {
  }

  /** After a successful call whose response was stored, a second call for
      the same area and day is served from the cache, with the same prices
      and no request, whatever the network would do. */
  lemma SecondGetServedFromCache(cache: Cache, area: Area, day: CivilDate, bundle: BundleInfo,
                                 decode: Decoder, network: Result<Bytes, Error>,
                                 later: Result<Bytes, Error>, writable: bool)
    requires Valid(day)
    requires Get(cache, area, day, bundle, decode, network, true).result.Success?
    ensures var first := Get(cache, area, day, bundle, decode, network, true);
            Get(first.cache, area, day, bundle, decode, later, writable) ==
            Outcome(first.result, first.cache, None)
  {
  }

  /** An undecodable response is still stored, the caller gets the decode
      error, and the next call asks the network again. */
  lemma UndecodableResponseStoredAndRefetched(cache: Cache, area: Area, day: CivilDate, bundle: BundleInfo,
                                              decode: Decoder, contents: Bytes,
                                              later: Result<Bytes, Error>, writable: bool)
    requires Valid(day)
    requires !CacheHit(cache, CacheKey(day, area), decode)
    requires decode(contents).Failure?
    ensures var first := Get(cache, area, day, bundle, decode, Success(contents), true);
            && first.cache[CacheKey(day, area)] == contents
            && first.result == Failure(decode(contents).error)
            && Get(first.cache, area, day, bundle, decode, later, writable).request ==
               Some(GetPrices(area, day, bundle))
  {
  }
}
