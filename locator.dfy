/**
 * The charging-station locator of app.js: the page-lifetime cache of the
 * federal dataset (`BFE_CACHE` and `loadBfeGeo`), the search around a point
 * (`loadChargingStationsNearest`) and the search by Swiss postal code
 * (`loadChargingStationsByZip`). A fetch is not performed: the method making it
 * takes the reply as a parameter and appends the request to a log, so what the
 * model promises about network traffic is a statement about that log.
 */
module Locator {
  import opened Wrappers
  import opened Text
  import opened Values
  import opened Stations
  import opened Ranking

  // ----------------------------------------------------------------- HTTP

  /** What `fetch` delivers: a rejected promise, or a response with a status and a body. */
  datatype Reply<B> = Unreachable | Response(status: int, body: Body<B>)

  /** What `r.json()` makes of a body: a parse failure, or a JSON value. */
  datatype Body<B> = Unparseable | Json(value: B)

  /** `r.ok`: the status lies in 200..299. */
  predicate Ok(status: int) {
    200 <= status <= 299
  }

  /** One `fetch` call. */
  datatype Request = DatasetFetch | GeocodeFetch(zip: string)

  // -------------------------------------------------------------- dataset

  /**
   * The parsed dataset document: `null` (reading `features` of it throws), or
   * any other JSON value together with its `features` member when that is an
   * array (`None` for a missing or non-array member, and for a document that is
   * not an object).
   */
  datatype DatasetDoc = NullDoc | Doc(features: Option<seq<Feature>>)

  /** Why `loadBfeGeo` threw. */
  datatype DatasetError =
    | DatasetUnreachable          // fetch rejected
    | DatasetStatus(status: int)  // "BFE GeoJSON HTTP <status>"
    | DatasetUnparseable          // r.json() rejected
    | DatasetNull                 // g.features on null

  /**
   * What one download of the dataset gives: the `features` array, `[]` when the
   * document has none, or the error that stops the load. It succeeds exactly
   * when the status is 2xx and the body parses to something other than `null`;
   * a non-2xx status fails with that status whatever the body.
   */
  function Download(reply: Reply<DatasetDoc>): (r: Result<seq<Feature>, DatasetError>)
    ensures r.Success? <==> reply.Response? && Ok(reply.status) && reply.body.Json? && reply.body.value.Doc?
    ensures r.Success? ==> r.value == reply.body.value.features.GetOr([])
    ensures r.Failure? && r.error.DatasetStatus? <==> reply.Response? && !Ok(reply.status)
    ensures r.Failure? && r.error.DatasetStatus? ==> r.error.status == reply.status
  {
    match reply
    case Unreachable => Failure(DatasetUnreachable)
    case Response(status, body) =>
      if !Ok(status) then Failure(DatasetStatus(status))
      else match body
        case Unparseable => Failure(DatasetUnparseable)
        case Json(NullDoc) => Failure(DatasetNull)
        case Json(Doc(features)) => Success(features.GetOr([]))
  }

  /** The features `loadBfeGeo` returns: the cached array when there is one, otherwise a download. */
  function Loaded(cache: Option<seq<Feature>>, reply: Reply<DatasetDoc>): (r: Result<seq<Feature>, DatasetError>)
    ensures cache.Some? ==> r == Success(cache.value)
    ensures cache.None? ==> r == Download(reply)
  {
    if cache.Some? then Success(cache.value) else Download(reply)
  }

  /**
   * Once the cache is filled, `loadBfeGeo` never fails and no longer depends on
   * the network: every dataset reply gives the cached features.
   */
  lemma LoadedFromCache(cache: Option<seq<Feature>>, reply: Reply<DatasetDoc>, other: Reply<DatasetDoc>)
    ensures Loaded(cache, reply).Failure? ==> cache.None?
    ensures cache.Some? ==> Loaded(cache, other) == Loaded(cache, reply) == Success(cache.value)
  {
  }

  // -------------------------------------------------------------- outcomes

  /** What `loadChargingStationsNearest` shows. */
  datatype NearestOutcome =
    | NearestFailed(error: DatasetError)  // "Fehler beim Laden der Ladestationen."
    | NoStations                          // "Keine Stationen gefunden."
    | Nearest(top: seq<Entry>)            // the list and the markers

  /**
   * The outcome of a search around `q` for a given cache and dataset reply: the
   * load error, or the first five stations of the reference order, or, when
   * there are none, the notice that nothing was found.
   */
  function NearestResult(cache: Option<seq<Feature>>, reply: Reply<DatasetDoc>, q: Query, env: Numerics): (o: NearestOutcome)
    ensures o.NearestFailed? <==> Loaded(cache, reply).Failure?
    ensures o.NearestFailed? ==> cache.None? && o.error == Download(reply).error
    ensures o.Nearest? ==> 0 < |o.top| <= TopN
  {
    match Loaded(cache, reply)
    case Failure(e) => NearestFailed(e)
    case Success(feats) =>
      var top := TopNearest(feats, q, env);
      if top == [] then NoStations else Nearest(top)
  }

  /**
   * A search fails exactly when the load does, reports no stations exactly when
   * the loaded dataset lists none, and otherwise shows the first five stations
   * of the loaded dataset in reference order; once the cache is filled the
   * dataset reply no longer matters.
   */
  lemma NearestResultCases(cache: Option<seq<Feature>>, reply: Reply<DatasetDoc>, q: Query, env: Numerics)
    ensures NearestResult(cache, reply, q, env).NearestFailed? <==> Loaded(cache, reply).Failure?
    ensures NearestResult(cache, reply, q, env).NoStations? <==>
              Loaded(cache, reply).Success? && ListedStations(Loaded(cache, reply).value, env) == []
    ensures NearestResult(cache, reply, q, env).Nearest? ==>
              var top := NearestResult(cache, reply, q, env).top;
              0 < |top| <= TopN && InOrder(top) &&
              forall k :: 0 <= k < |top| ==> Listed(top[k].station)
    ensures forall other :: cache.Some? ==> NearestResult(cache, other, q, env) == NearestResult(cache, reply, q, env)
  {
    if Loaded(cache, reply).Success? {
      TopNearestProperties(Loaded(cache, reply).value, q, env);
    }
  }

  // ------------------------------------------------------------ postal code

  /** `/^\d{4}$/`: exactly four ASCII digits. */
  predicate FourDigits(s: string) {
    |s| == 4 && forall k :: 0 <= k < 4 ==> '0' <= s[k] <= '9'
  }

  /**
   * Line 248-249: the input field's value, trimmed (`""` when the field has no
   * value), accepted when it is exactly four digits.
   */
  function ZipGate(input: Option<string>): (r: Option<string>)
    ensures r.Some? <==> FourDigits(Trim(input.GetOr("")))
    ensures r.Some? ==> r.value == Trim(input.GetOr("")) && NoSpace(r.value)
  {
    var raw := Trim(input.GetOr(""));
    if FourDigits(raw) then Some(raw) else None
  }

  /** An accepted code is accepted again as itself: the gate is idempotent. */
  lemma ZipGateIdempotent(input: Option<string>)
    requires ZipGate(input).Some?
    ensures ZipGate(Some(ZipGate(input).value)) == ZipGate(input)
  {
    var z := ZipGate(input).value;
    assert !IsSpace(z[0]) && !IsSpace(z[3]);
    TrimFixes(z);
  }

  /** An element of the geocoding reply: `null`, or a value whose `lat` and `lon` may be missing. */
  datatype GeoMatch = NullMatch | Match(lat: Option<JsVal>, lon: Option<JsVal>)

  /** The parsed geocoding reply: an array of matches, or any other JSON value. */
  datatype GeoDoc = Matches(items: seq<GeoMatch>) | NotArray

  /** Why the geocoding step threw. */
  datatype GeoError =
    | GeoUnreachable  // fetch rejected
    | GeoNotOk        // "Geocoding fehlgeschlagen."
    | GeoUnparseable  // r.json() rejected
    | GeoNullMatch    // m[0].lat on null

  /** What the geocoding step yields: an error, no match, or the point to search around. */
  datatype GeoResult = GeoFailed(error: GeoError) | NoMatch | Point(q: Query)

  /**
   * `parseFloat(v)`, where a missing member is `undefined`: a string member is
   * parsed as it is, a missing one as the text "undefined".
   */
  function ParseCoordinate(v: Option<JsVal>, env: Numerics): (r: Num)
    ensures v.None? ==> r == env.parseFloat("undefined")
    ensures v.Some? && v.value.JStr? ==> r == env.parseFloat(v.value.s)
  {
    env.parseFloat(if v.None? then "undefined" else ToStr(v.value, env))
  }

  /**
   * Lines 256-260: a geocoding reply read as a point. A non-2xx status, a body
   * that does not parse or a `null` first match is an error; a body that is not
   * an array, or an empty array, is "not found"; otherwise the point is the
   * first match's `lat` and `lon` through `parseFloat`, unchecked.
   */
  function Geocoded(reply: Reply<GeoDoc>, env: Numerics): (r: GeoResult)
    ensures r.Point? <==> reply.Response? && Ok(reply.status) && reply.body.Json? &&
                          reply.body.value.Matches? && |reply.body.value.items| > 0 && reply.body.value.items[0].Match?
    ensures r.NoMatch? <==> reply.Response? && Ok(reply.status) && reply.body.Json? &&
                            (reply.body.value.NotArray? || reply.body.value.items == [])
    ensures r.Point? ==> r.q == Query(ParseCoordinate(reply.body.value.items[0].lat, env),
                                      ParseCoordinate(reply.body.value.items[0].lon, env))
    ensures r == GeoFailed(GeoNotOk) <==> reply.Response? && !Ok(reply.status)
  {
    match reply
    case Unreachable => GeoFailed(GeoUnreachable)
    case Response(status, body) =>
      if !Ok(status) then GeoFailed(GeoNotOk)
      else match body
        case Unparseable => GeoFailed(GeoUnparseable)
        case Json(NotArray) => NoMatch
        case Json(Matches(items)) =>
          if items == [] then NoMatch
          else match items[0]
            case NullMatch => GeoFailed(GeoNullMatch)
            case Match(lat, lon) => Point(Query(ParseCoordinate(lat, env), ParseCoordinate(lon, env)))
  }

  /** What `loadChargingStationsByZip` shows. */
  datatype ZipOutcome =
    | InvalidZip                        // the "Bitte eine gültige 4-stellige PLZ (CH) eingeben." notice
    | GeocodingFailed(error: GeoError)  // "Fehler bei der PLZ-Suche."
    | ZipNotFound                       // "PLZ nicht gefunden."
    | Searched(result: NearestOutcome)  // the outcome of the search around the point

  // -------------------------------------------------------------- the page

  /**
   * The locator's state for the lifetime of the page: `BFE_CACHE` and the log of
   * the fetches made so far.
   */
  class Locator {
    /** `BFE_CACHE`: `None` is `null`; once an array is stored it stays. */
    var cache: Option<seq<Feature>>
    /** Every `fetch` the locator has made, oldest first. */
    var requests: seq<Request>

    /** Page load: the cache is empty and nothing has been fetched. */
    constructor()
      ensures cache == None && requests == []
    {
      cache := None;
      requests := [];
    }

    /**
     * `loadBfeGeo`: with a filled cache, the cached features and no fetch;
     * otherwise one fetch of the dataset, whose features are cached and returned
     * when the download succeeds, while a failing download stores nothing.
     */
    method LoadBfeGeo(reply: Reply<DatasetDoc>) returns (r: Result<seq<Feature>, DatasetError>)
      modifies this
      ensures r == Loaded(old(cache), reply)
      ensures old(cache).Some? ==> cache == old(cache) && requests == old(requests)
      ensures old(cache).None? ==> requests == old(requests) + [DatasetFetch]
      ensures old(cache).None? ==> cache == (if r.Success? then Some(r.value) else None)
    {
      if cache.Some? {
        return Success(cache.value);
      }
      requests := requests + [DatasetFetch];
      r := Download(reply);
      if r.Success? {
        cache := Some(r.value);
      }
    }

    /**
     * `loadChargingStationsNearest(lat, lon)`: the dataset loaded through the
     * cache, the listed stations ranked around `q`, the first five shown, and
     * a load error reported instead of thrown.
     */
    method ChargingStationsNearest(q: Query, reply: Reply<DatasetDoc>, env: Numerics) returns (o: NearestOutcome)
      modifies this
      ensures o == NearestResult(old(cache), reply, q, env)
      ensures old(cache).Some? ==> cache == old(cache) && requests == old(requests)
      ensures old(cache).None? ==> requests == old(requests) + [DatasetFetch]
      ensures old(cache).None? ==> cache == (if o.NearestFailed? then None else Some(Download(reply).value))
    {
      var loaded := LoadBfeGeo(reply);
      if loaded.Failure? {
        return NearestFailed(loaded.error);
      }
      var top := Select(loaded.value, q, env);
      if |top| == 0 {
        o := NoStations;
      } else {
        o := Nearest(top);
      }
    }

    /**
     * `loadChargingStationsByZip`: an input that is not four digits after
     * trimming is turned away before any fetch and changes nothing; a valid code
     * is geocoded (one fetch, logged with the code) and, when it yields a point,
     * searched around as `ChargingStationsNearest` does.
     */
    method ChargingStationsByZip(input: Option<string>, geo: Reply<GeoDoc>, reply: Reply<DatasetDoc>, env: Numerics)
      returns (o: ZipOutcome)
      modifies this
      ensures o == InvalidZip <==> ZipGate(input).None?
      ensures ZipGate(input).None? ==> unchanged(this)
      ensures ZipGate(input).Some? ==>
                match Geocoded(geo, env)
                case GeoFailed(e) =>
                  o == GeocodingFailed(e) && cache == old(cache) && requests == old(requests) + [GeocodeFetch(ZipGate(input).value)]
                case NoMatch =>
                  o == ZipNotFound && cache == old(cache) && requests == old(requests) + [GeocodeFetch(ZipGate(input).value)]
                case Point(q) =>
                  o == Searched(NearestResult(old(cache), reply, q, env)) &&
                  requests == old(requests) + [GeocodeFetch(ZipGate(input).value)] +
                              (if old(cache).None? then [DatasetFetch] else []) &&
                  (old(cache).Some? ==> cache == old(cache)) &&
                  (old(cache).None? ==> cache == if o.result.NearestFailed? then None else Some(Download(reply).value))
    {
      var zip := ZipGate(input);
      if zip.None? {
        return InvalidZip;
      }
      requests := requests + [GeocodeFetch(zip.value)];
      var point := Geocoded(geo, env);
      match point
      case GeoFailed(e) =>
        o := GeocodingFailed(e);
      case NoMatch =>
        o := ZipNotFound;
      case Point(q) =>
        var result := ChargingStationsNearest(q, reply, env);
        o := Searched(result);
    }
  }

  // -------------------------------------------------------------- scenarios

  /**
   * The cache at work: after a successful load, a second search does not fetch
   * the dataset again even when the network is down, and shows the same result.
   */
  method CachedSearchScenario(q: Query, features: seq<Feature>, env: Numerics)
    returns (first: NearestOutcome, second: NearestOutcome, fetches: nat)
    ensures first == second
    ensures fetches == 1
    ensures first == NearestResult(Some(features), Unreachable, q, env)
  {
    var page := new Locator();
    first := page.ChargingStationsNearest(q, Response(200, Json(Doc(Some(features)))), env);
    second := page.ChargingStationsNearest(q, Unreachable, env);
    fetches := |page.requests|;
  }

  /**
   * A failed download is not cached: the next search fetches again and can
   * succeed.
   */
  method RetryAfterFailureScenario(q: Query, features: seq<Feature>, env: Numerics)
    returns (first: NearestOutcome, second: NearestOutcome, fetches: nat)
    ensures first == NearestFailed(DatasetStatus(503))
    ensures second == NearestResult(Some(features), Unreachable, q, env)
    ensures fetches == 2
  {
    var page := new Locator();
    first := page.ChargingStationsNearest(q, Response(503, Json(Doc(Some(features)))), env);
    second := page.ChargingStationsNearest(q, Response(200, Json(Doc(Some(features)))), env);
    fetches := |page.requests|;
  }
}
