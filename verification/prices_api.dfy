/** The price API client (Shared/PricesAPI.swift): the request it builds for
    an area and day, the documents it decodes, and the hourly entries the
    app charts. The HTTP transfer itself is an input to the model. */
module PricesApi {
  import opened Results
  import opened Dates
  import opened Areas
  import opened Calendar

  newtype Byte = x: int | 0 <= x < 256
  type Bytes = seq<Byte>

  /** Prices are carried as exact reals; the app only stores and charts them. */
  type Price = real

  /** The decoded response body: the day the prices apply to (its midnight)
      and one price per hour, without VAT. */
  datatype APIPrices = APIPrices(date: Instant, pricesWithoutMva: seq<Price>)

  /** One chart point. Its identity (`Identifiable.id`) is its hour. */
  datatype HourAndPrice = HourAndPrice(hour: Instant, price: Price) {
    function Id(): Instant {
      hour
    }
  }

  /** The JSON decoder, supplied by the platform. */
  type Decoder = Bytes -> Result<APIPrices, Error>

  /** The app's version strings, which the bundle may lack. */
  datatype BundleInfo = BundleInfo(releaseVersion: Option<string>, buildVersion: Option<string>)

  datatype Request = Request(url: string, headers: map<string, string>)

  const BaseUrl: string := "https://stroempris-api.fly.dev/price/"
  const ReleaseHeader: string := "api-release-version"
  const BuildHeader: string := "api-build-version"
  const Unknown: string := "unknown"

  function OrUnknown(v: Option<string>): string {
    match v
    case Some(s) => s
    case None => Unknown
  }

  /** `.../price/{area}/{yyyy-MM-dd}`. The source interpolates the case name
      `\(area)`; that is `RawValue(area)` because every raw value equals its
      case name (Shared/Area.swift:4-8). */
  function PricesUrl(area: Area, day: CivilDate): (url: string)
    requires Valid(day)
    ensures |url| == |BaseUrl| + 14
    ensures url[..|BaseUrl|] == BaseUrl
    ensures url[|BaseUrl|..|BaseUrl| + 3] == RawValue(area)
    ensures url[|BaseUrl| + 3] == '/'
    ensures url[|BaseUrl| + 4..] == FormatDate(day)
  {
    BaseUrl + RawValue(area) + "/" + FormatDate(day)
  }

  /** Reads the area and day back out of a price URL. */
  function ParseUrl(url: string): Option<(Area, CivilDate)> {
    if |url| == |BaseUrl| + 14 && url[..|BaseUrl|] == BaseUrl && url[|BaseUrl| + 3] == '/' then
      var area := FromRawValue(url[|BaseUrl|..|BaseUrl| + 3]);
      var day := ParseDate(url[|BaseUrl| + 4..]);
      if area.Some? && day.Some? then Some((area.value, day.value)) else None
    else None
  }

  /** The URL names its area and day unambiguously. */
  lemma PricesUrlRoundTrip(area: Area, day: CivilDate)
    requires Valid(day)
    ensures ParseUrl(PricesUrl(area, day)) == Some((area, day))
  {
    RawValueRoundTrip(area);
    FormatDateRoundTrip(day);
  }

  lemma PricesUrlInjective(a: Area, d: CivilDate, b: Area, e: CivilDate)
    requires Valid(d) && Valid(e)
    requires PricesUrl(a, d) == PricesUrl(b, e)
    ensures a == b && d == e
  {
    PricesUrlRoundTrip(a, d);
    PricesUrlRoundTrip(b, e);
  }

  /** The two version headers, each falling back to "unknown". */
  function VersionHeaders(bundle: BundleInfo): (h: map<string, string>)
    ensures h.Keys == {ReleaseHeader, BuildHeader}
    ensures bundle.releaseVersion.Some? ==> h[ReleaseHeader] == bundle.releaseVersion.value
    ensures bundle.releaseVersion.None? ==> h[ReleaseHeader] == Unknown
    ensures bundle.buildVersion.Some? ==> h[BuildHeader] == bundle.buildVersion.value
    ensures bundle.buildVersion.None? ==> h[BuildHeader] == Unknown
  {
    map[ReleaseHeader := OrUnknown(bundle.releaseVersion), BuildHeader := OrUnknown(bundle.buildVersion)]
  }

  /** `getPrices`: the request it hands to the HTTP layer. */
  function GetPrices(area: Area, day: CivilDate, bundle: BundleInfo): (req: Request)
    requires Valid(day)
    ensures req.url == PricesUrl(area, day)
    ensures |req.headers| == 2
    ensures req.headers == VersionHeaders(bundle)
  {
    assert |{ReleaseHeader, BuildHeader}| == 2;
    Request(PricesUrl(area, day), VersionHeaders(bundle))
  }

  /** `getPricesJson`: decodes the response of `getPrices`. */
  function GetPricesJson(response: Result<Bytes, Error>, decode: Decoder): (r: Result<APIPrices, Error>)
    ensures response.Failure? ==> r == Failure(response.error)
    ensures response.Success? ==> r == decode(response.value)
  {
    FlatMap(response, decode)
  }
}
