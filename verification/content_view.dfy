/** The app screen's non-visual logic (Spotpris/ContentView.swift): the load
    state machine and the choice of the price shown for a selected time. */
module ContentView {
  import Results
  import opened Dates
  import opened Areas
  import opened Calendar
  import opened PricesApi
  import PricesService

  /** The screen's data: still loading, failed, or loaded. */
  datatype RemoteData<T> = Initial | Failure(error: Results.Error) | Success(value: T)

  /** What `loadPrices` sets once the service answers. */
  function FromResult<T>(r: Results.Result<T, Results.Error>): (d: RemoteData<T>)
    ensures r.Success? <==> d.Success?
    ensures r.Success? ==> d.value == r.value
    ensures r.Failure? ==> d == Failure(r.error)
  {
    Results.Fold(r, (v: T) => Success(v), (e: Results.Error) => Failure(e))
  }

  /** The outcome a finished load stands for; `Initial` stands for none. */
  function ToResult<T>(d: RemoteData<T>): Results.Option<Results.Result<T, Results.Error>> {
    match d
    case Initial => Results.None
    case Failure(e) => Results.Some(Results.Failure(e))
    case Success(v) => Results.Some(Results.Success(v))
  }

  /** A finished load never looks like `Initial` and keeps the service's
      answer intact. */
  lemma FromResultRoundTrip<T>(r: Results.Result<T, Results.Error>)
    ensures FromResult(r) != Initial
    ensures ToResult(FromResult(r)) == Results.Some(r)
  {
  }

  /** The states a `loadPrices` call passes through, and the cache after it. */
  datatype Load = Load(states: seq<RemoteData<seq<HourAndPrice>>>, cache: PricesService.Cache)

  /** `loadPrices(area)` for the screen's `day`: show the spinner, then the
      service's answer. The service inputs are as for `PricesService.Get`. */
  function LoadPrices(cache: PricesService.Cache, area: Area, day: CivilDate, bundle: BundleInfo,
                      decode: Decoder, network: Results.Result<Bytes, Results.Error>, writable: bool): (l: Load)
    requires Valid(day)
    ensures |l.states| == 2
    ensures l.states[0] == Initial
    ensures ToResult(l.states[1]) ==
            Results.Some(PricesService.Get(cache, area, day, bundle, decode, network, writable).result)
    ensures l.cache == PricesService.Get(cache, area, day, bundle, decode, network, writable).cache
  {
    var o := PricesService.Get(cache, area, day, bundle, decode, network, writable);
    FromResultRoundTrip(o.result);
    Load([Initial, FromResult(o.result)], o.cache)
  }

  /** Tapping the error message: back to the spinner, then a fresh load. */
  function RetryAfterError(cache: PricesService.Cache, area: Area, day: CivilDate, bundle: BundleInfo,
                           decode: Decoder, network: Results.Result<Bytes, Results.Error>, writable: bool): (l: Load)
    requires Valid(day)
    ensures |l.states| == 3
    ensures l.states[0] == Initial && l.states[1] == Initial
    ensures l.states[2] != Initial
    ensures ToResult(l.states[2]) ==
            Results.Some(PricesService.Get(cache, area, day, bundle, decode, network, writable).result)
    ensures l.cache == PricesService.Get(cache, area, day, bundle, decode, network, writable).cache
  {
    var load := LoadPrices(cache, area, day, bundle, decode, network, writable);
    Load([Initial] + load.states, load.cache)
  }

  // ---------------------------------------------------------------------
  // The selected price

  /** Entry `i` is the last one whose hour has begun by `t`. */
  predicate IsLastAtOrBefore(ps: seq<HourAndPrice>, t: Instant, i: int) {
    && 0 <= i < |ps|
    && ps[i].hour <= t
    && forall j :: i < j < |ps| ==> t < ps[j].hour
  }

  /** At most one entry is the last one at or before `t`. */
  lemma LastAtOrBeforeUnique(ps: seq<HourAndPrice>, t: Instant, i: int, k: int)
    requires IsLastAtOrBefore(ps, t, i) && IsLastAtOrBefore(ps, t, k)
    ensures i == k
  {
  }

  /** Reference definition: the index of the last entry whose hour has
      begun by `t`, or -1 when there is none. */
  function LastIndexAtOrBefore(ps: seq<HourAndPrice>, t: Instant): (i: int)
    ensures -1 <= i < |ps|
    ensures i == -1 <==> forall j :: 0 <= j < |ps| ==> t < ps[j].hour
    ensures i >= 0 ==> IsLastAtOrBefore(ps, t, i)
  {
    if |ps| == 0 then -1
    else if ps[|ps| - 1].hour <= t then |ps| - 1
    else LastIndexAtOrBefore(ps[..|ps| - 1], t)
  }

  /** `prices.filter { $0.hour <= t }`: exactly the entries that have begun
      by `t`, in their original order (see `AtOrBeforeMembers` and
      `AtOrBeforeConcat`). */
  function AtOrBefore(ps: seq<HourAndPrice>, t: Instant): (f: seq<HourAndPrice>)
    ensures |f| <= |ps|
    ensures forall k :: 0 <= k < |f| ==> f[k].hour <= t
    ensures |f| == 0 <==> LastIndexAtOrBefore(ps, t) == -1
    ensures |f| > 0 ==> f[|f| - 1] == ps[LastIndexAtOrBefore(ps, t)]
  {
    if |ps| == 0 then []
    else
      var last := ps[|ps| - 1];
      var f := AtOrBefore(ps[..|ps| - 1], t);
      if last.hour <= t then f + [last] else f
  }

  /** The filter keeps exactly the entries that have begun by `t`. */
  lemma {:induction false} AtOrBeforeMembers(ps: seq<HourAndPrice>, t: Instant)
    ensures forall x :: x in AtOrBefore(ps, t) <==> x in ps && x.hour <= t
    decreases |ps|
  {
    if |ps| > 0 {
      var init := ps[..|ps| - 1];
      AtOrBeforeMembers(init, t);
      assert ps == init + [ps[|ps| - 1]];
    }
  }

  /** The filter distributes over concatenation. With `AtOrBeforeMembers`
      (a one-element list keeps its entry exactly when it has begun by `t`)
      this fixes the filter completely: every qualifying entry is kept, with
      its multiplicity, in the original order. */
  lemma {:induction false} AtOrBeforeConcat(a: seq<HourAndPrice>, b: seq<HourAndPrice>, t: Instant)
    ensures AtOrBefore(a + b, t) == AtOrBefore(a, t) + AtOrBefore(b, t)
    decreases |b|
  {
    if |b| == 0 {
      assert a + b == a;
    } else {
      var b', last := b[..|b| - 1], b[|b| - 1];
      var tail := if last.hour <= t then [last] else [];
      assert (a + b)[..|a + b| - 1] == a + b';
      assert AtOrBefore(a + b, t) == AtOrBefore(a + b', t) + tail;
      assert AtOrBefore(b, t) == AtOrBefore(b', t) + tail;
      AtOrBeforeConcat(a, b', t);
      assert AtOrBefore(a, t) + AtOrBefore(b', t) + tail == AtOrBefore(a, t) + (AtOrBefore(b', t) + tail);
    }
  }

  /** The entry selected for time `t`: `.last` of the filtered list. */
  function SelectedEntry(ps: seq<HourAndPrice>, t: Instant): (e: Results.Option<HourAndPrice>)
    ensures e.None? <==> forall j :: 0 <= j < |ps| ==> t < ps[j].hour
    ensures e.Some? ==> IsLastAtOrBefore(ps, t, LastIndexAtOrBefore(ps, t))
    ensures e.Some? ==> e.value == ps[LastIndexAtOrBefore(ps, t)]
  {
    var f := AtOrBefore(ps, t);
    if |f| == 0 then Results.None else Results.Some(f[|f| - 1])
  }

  /** `selectionPrice`: the price of the selected entry, if any. */
  function SelectionPrice(ps: seq<HourAndPrice>, t: Instant): (p: Results.Option<Price>)
    ensures p.None? <==> forall j :: 0 <= j < |ps| ==> t < ps[j].hour
    ensures p.Some? ==> exists i :: IsLastAtOrBefore(ps, t, i) && p.value == ps[i].price
  {
    match SelectedEntry(ps, t)
    case None => Results.None
    case Some(e) => Results.Some(e.price)
  }

  predicate SortedByHour(ps: seq<HourAndPrice>) {
    forall i, j :: 0 <= i < j < |ps| ==> ps[i].hour <= ps[j].hour
  }

  /** On a list sorted by hour the selected entry has the latest hour that
      is not after `t`. */
  lemma SortedSelectionIsLatest(ps: seq<HourAndPrice>, t: Instant)
    requires SortedByHour(ps)
    ensures SelectedEntry(ps, t).Some? ==>
              && SelectedEntry(ps, t).value.hour <= t
              && forall j :: 0 <= j < |ps| && ps[j].hour <= t ==> ps[j].hour <= SelectedEntry(ps, t).value.hour
  {
    var e := SelectedEntry(ps, t);
    if e.Some? {
      var i := LastIndexAtOrBefore(ps, t);
      assert forall j :: 0 <= j < |ps| && ps[j].hour <= t ==> j <= i;
      assert forall j :: 0 <= j <= i ==> ps[j].hour <= ps[i].hour;
    }
  }

  /** On a series built from a document, the price shown for `t` is the
      price of the hour containing `t`; past the last hour it is the last
      price, and before the first hour there is none. */
  lemma {:induction false} SelectionOnHourlySeries(p: APIPrices, t: Instant)
    requires |p.pricesWithoutMva| > 0
    ensures t < p.date ==>
              SelectionPrice(PricesService.ApiPricesToHourAndPrice(p), t).None?
    ensures p.date <= t ==>
              var n := |p.pricesWithoutMva|;
              var k := (t - p.date) / SecondsPerHour;
              SelectionPrice(PricesService.ApiPricesToHourAndPrice(p), t) ==
              Results.Some(p.pricesWithoutMva[if k < n then k else n - 1])
  {
    var r := PricesService.ApiPricesToHourAndPrice(p);
    var n := |p.pricesWithoutMva|;
    assert forall j :: 0 <= j < n ==> r[j].hour == p.date + SecondsPerHour * j;
    assert r[n].hour == p.date + SecondsPerHour * n;
    if t < p.date {
      assert forall j :: 0 <= j < |r| ==> t < r[j].hour by {
        forall j | 0 <= j < |r|
          ensures t < r[j].hour
        {
          assert r[j].hour == p.date + 3600 * j;
        }
      }
    } else {
      var k := (t - p.date) / SecondsPerHour;
      assert SecondsPerHour * k <= t - p.date < SecondsPerHour * (k + 1);
      var m := if k < n then k else n;
      assert r[m].hour <= t;
      assert IsLastAtOrBefore(r, t, m) by {
        forall j | m < j < |r|
          ensures t < r[j].hour
        {
          assert k + 1 <= j;
          assert SecondsPerHour * (k + 1) <= SecondsPerHour * j;
        }
      }
      LastAtOrBeforeUnique(r, t, LastIndexAtOrBefore(r, t), m);
    }
  }
}
