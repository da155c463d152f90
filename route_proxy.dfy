/** What the Yandex and 2GIS routing proxies share: the request, the
    response, the checks made before the provider is called and the
    fallback to a straight segment between the two endpoints. */
module RouteProxy {
  import opened Wrappers

  /** A point of a returned route: `[lat, lng]`. */
  datatype Point = Point(lat: real, lng: real)

  /** A request: its HTTP method, if given, and the four coordinates read
      from its JSON body (`body_data.get(...)`). */
  datatype RouteEvent = RouteEvent(
    httpMethod: Option<string>,
    fromLat: Option<real>, fromLng: Option<real>,
    toLat: Option<real>, toLng: Option<real>)

  /** The JSON body of a response; both kinds carry their message under the
      `error` key. `duration` is reported by 2GIS only, and `raised` (the
      `error` of a path) only when the provider call raised. */
  datatype RouteBody =
    | NoContent
    | Failure(error: string)
    | Path(coordinates: seq<Point>, distance: real, duration: Option<real>,
           fallback: bool, raised: Option<string>)

  datatype RouteResponse = RouteResponse(statusCode: int, body: RouteBody)

  /** `event.get('httpMethod', 'GET')`. */
  function Verb(e: RouteEvent): string {
    e.httpMethod.GetOr("GET")
  }

  /** `all([from_lat, from_lng, to_lat, to_lng])`. */
  predicate HasCoordinates(e: RouteEvent) {
    Truthy(e.fromLat) && Truthy(e.fromLng) && Truthy(e.toLat) && Truthy(e.toLng)
  }

  /** An API key read from the environment is usable when set and not empty. */
  predicate KeyGiven(apiKey: Option<string>) {
    apiKey.Some? && apiKey.value != ""
  }

  /** The straight segment `[[from_lat, from_lng], [to_lat, to_lng]]`. */
  function Endpoints(e: RouteEvent): (r: seq<Point>)
    requires HasCoordinates(e)
    ensures |r| == 2
    ensures r[0].lat == e.fromLat.value && r[0].lng == e.fromLng.value
    ensures r[1].lat == e.toLat.value && r[1].lng == e.toLng.value
  {
    [Point(e.fromLat.value, e.fromLng.value), Point(e.toLat.value, e.toLng.value)]
  }

  /** The answer given before the provider is called, or None when the
      request passes every check: a preflight is answered, any other method
      but POST is refused, a missing key is a server error and a missing or
      zero coordinate is a client error. */
  function Precheck(e: RouteEvent, apiKey: Option<string>, keyName: string): (r: Option<RouteResponse>)
    ensures r.None? <==> Verb(e) == "POST" && KeyGiven(apiKey) && HasCoordinates(e)
    ensures Verb(e) == "OPTIONS" ==> r == Some(RouteResponse(200, NoContent))
    ensures Verb(e) != "OPTIONS" && Verb(e) != "POST" ==>
              r == Some(RouteResponse(405, Failure("Method not allowed")))
    ensures Verb(e) == "POST" && !KeyGiven(apiKey) ==>
              r == Some(RouteResponse(500, Failure(keyName + " not configured")))
    ensures Verb(e) == "POST" && KeyGiven(apiKey) && !HasCoordinates(e) ==>
              r == Some(RouteResponse(400, Failure("Missing coordinates")))
  {
    var verb := Verb(e);
    if verb == "OPTIONS" then Some(RouteResponse(200, NoContent))
    else if verb != "POST" then Some(RouteResponse(405, Failure("Method not allowed")))
    else if !KeyGiven(apiKey) then Some(RouteResponse(500, Failure(keyName + " not configured")))
    else if !HasCoordinates(e) then Some(RouteResponse(400, Failure("Missing coordinates")))
    else None
  }

  /** The answer when the provider gave no usable route: the straight
      segment, distance 0, flagged as a fallback. */
  function Fallback(e: RouteEvent, error: Option<string>): (r: RouteResponse)
    requires HasCoordinates(e)
    ensures r.statusCode == 200 && r.body.Path? && r.body.fallback
    ensures r.body.coordinates == Endpoints(e) && r.body.distance == 0.0 && r.body.raised == error
  {
    RouteResponse(200, Path(Endpoints(e), 0.0, None, true, error))
  }

  /** The answer built from the extracted points: it is a fallback exactly
      when no point was extracted, and then shows the straight segment. */
  function Answer(e: RouteEvent, points: seq<Point>, distance: real, duration: Option<real>): (r: RouteResponse)
    requires HasCoordinates(e)
    ensures r.statusCode == 200 && r.body.Path? && r.body.raised.None?
    ensures r.body.fallback <==> points == []
    ensures r.body.fallback ==> r.body.coordinates == Endpoints(e)
    ensures !r.body.fallback ==> r.body.coordinates == points
    ensures r.body.coordinates != []
    ensures r.body.distance == distance && r.body.duration == duration
  {
    var coordinates := if points != [] then points else Endpoints(e);
    RouteResponse(200, Path(coordinates, distance, duration, |points| == 0, None))
  }
}
