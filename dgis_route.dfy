/** The 2GIS directions proxy: it takes the first route found and flattens
    the geometry of its maneuvers into one list of `[lat, lon]` points. */
module DgisRoute {
  import opened Wrappers
  import opened RouteProxy

  const KeyName := "DGIS_API_KEY"

  /** A geometry point as 2GIS sends it. */
  datatype LatLon = LatLon(lat: real, lon: real)

  /** A maneuver: the points of `outcoming_path.geometry`, None when either
      key is missing. */
  datatype Maneuver = Maneuver(geometry: Option<seq<LatLon>>)

  /** One route of `result`: distance in metres, duration in seconds and
      maneuvers, each of which may be missing. */
  datatype RouteData = RouteData(
    totalDistance: Option<real>, totalDuration: Option<real>,
    maneuvers: Option<seq<Maneuver>>)

  /** What came back from 2GIS: the call raised (with its message), or the
      decoded JSON, whose `result` may be missing. */
  datatype Reply = Unreachable(message: string) | Decoded(result: Option<seq<RouteData>>)

  /** A maneuver's points as `[lat, lon]`; none without a geometry. */
  function ManeuverPoints(m: Maneuver): seq<Point> {
    match m.geometry
    case None => []
    case Some(points) => seq(|points|, k requires 0 <= k < |points| => Point(points[k].lat, points[k].lon))
  }

  /** Each geometry point appears once, in place, as `[lat, lon]`. */
  lemma ManeuverPointsInPlace(m: Maneuver)
    ensures m.geometry.None? ==> ManeuverPoints(m) == []
    ensures m.geometry.Some? ==>
              |ManeuverPoints(m)| == |m.geometry.value| &&
              forall k :: 0 <= k < |m.geometry.value| ==>
                ManeuverPoints(m)[k] == Point(m.geometry.value[k].lat, m.geometry.value[k].lon)
  {
  }

  /** The points of a run of maneuvers, in order. */
  function PathPoints(ms: seq<Maneuver>): seq<Point> {
    if ms == [] then []
    else PathPoints(ms[..|ms| - 1]) + ManeuverPoints(ms[|ms| - 1])
  }

  /** Flattening distributes over a split of the maneuvers. */
  lemma {:induction false} PathPointsAppend(a: seq<Maneuver>, b: seq<Maneuver>)
    ensures PathPoints(a + b) == PathPoints(a) + PathPoints(b)
    decreases |b|
  {
    if b == [] {
      assert a + b == a;
    } else {
      var n := |b| - 1;
      assert (a + b)[..|a + b| - 1] == a + b[..n];
      assert (a + b)[|a + b| - 1] == b[n];
      PathPointsAppend(a, b[..n]);
      calc {
        PathPoints(a + b);
        PathPoints(a + b[..n]) + ManeuverPoints(b[n]);
        PathPoints(a) + (PathPoints(b[..n]) + ManeuverPoints(b[n]));
      }
    }
  }

  /** An extracted point is a geometry point of some maneuver, and every
      such point is extracted. */
  lemma {:induction false} PathPointsMembers(ms: seq<Maneuver>, p: Point)
    ensures p in PathPoints(ms) <==> exists j :: 0 <= j < |ms| && p in ManeuverPoints(ms[j])
    decreases |ms|
  {
    if ms != [] {
      var n := |ms| - 1;
      PathPointsMembers(ms[..n], p);
      assert forall j :: 0 <= j < n ==> ms[..n][j] == ms[j];
    }
  }

  /** No point is extracted exactly when no maneuver has a geometry with a
      point: the condition for the fallback. */
  lemma NoPointsIffNoGeometry(ms: seq<Maneuver>)
    ensures PathPoints(ms) == [] <==> forall j :: 0 <= j < |ms| ==> ManeuverPoints(ms[j]) == []
  {
    if PathPoints(ms) != [] {
      PathPointsMembers(ms, PathPoints(ms)[0]);
    } else {
      forall j | 0 <= j < |ms|
        ensures ManeuverPoints(ms[j]) == []
      {
        if ManeuverPoints(ms[j]) != [] {
          PathPointsMembers(ms, ManeuverPoints(ms[j])[0]);
        }
      }
    }
  }

  /** The extraction loop over the maneuvers of the first route. */
  method ExtractPath(ms: seq<Maneuver>) returns (coordinates: seq<Point>)
    ensures coordinates == PathPoints(ms)
  {
    coordinates := [];
    var j := 0;
    while j < |ms|
      invariant 0 <= j <= |ms|
      invariant coordinates == PathPoints(ms[..j])
    {
      assert ms[..j + 1][..j] == ms[..j];
      var m := ms[j];
      if m.geometry.Some? {
        var points := m.geometry.value;
        ManeuverPointsInPlace(m);
        var k := 0;
        while k < |points|
          invariant 0 <= k <= |points|
          invariant coordinates == PathPoints(ms[..j]) + ManeuverPoints(m)[..k]
        {
          assert ManeuverPoints(m)[..k + 1] == ManeuverPoints(m)[..k] + [Point(points[k].lat, points[k].lon)];
          coordinates := coordinates + [Point(points[k].lat, points[k].lon)];
          k := k + 1;
        }
        assert ManeuverPoints(m)[..|points|] == ManeuverPoints(m);
      }
      j := j + 1;
    }
    assert ms[..j] == ms;
  }

  /** `handler`: `apiKey` is the environment variable and `provider` what
      the 2GIS call produced. */
  method Handler(e: RouteEvent, apiKey: Option<string>, provider: Reply) returns (r: RouteResponse)
    ensures Precheck(e, apiKey, KeyName).Some? ==> r == Precheck(e, apiKey, KeyName).value
    ensures Precheck(e, apiKey, KeyName).None? ==>
              HasCoordinates(e) && r.statusCode == 200 && r.body.Path? && r.body.coordinates != []
    ensures Precheck(e, apiKey, KeyName).None? && provider.Unreachable? ==>
              r == Fallback(e, Some(provider.message))
    ensures Precheck(e, apiKey, KeyName).None? && provider.Decoded? &&
            (provider.result.None? || provider.result.value == []) ==>
              r == Fallback(e, None)
    ensures Precheck(e, apiKey, KeyName).None? && provider.Decoded? &&
            provider.result.Some? && provider.result.value != [] ==>
              var route := provider.result.value[0];
              var points := PathPoints(route.maneuvers.GetOr([]));
              r.body.raised.None? &&
              (r.body.fallback <==> points == []) &&
              r.body.coordinates == (if points == [] then Endpoints(e) else points) &&
              r.body.distance == route.totalDistance.GetOr(0.0) / 1000.0 &&
              r.body.duration == Some(route.totalDuration.GetOr(0.0))
  {
    var early := Precheck(e, apiKey, KeyName);
    if early.Some? {
      return early.value;
    }
    match provider {
      case Unreachable(message) =>
        r := Fallback(e, Some(message));
      case Decoded(result) =>
        if result.None? || |result.value| == 0 {
          r := Fallback(e, None);
        } else {
          var route := result.value[0];
          var totalDistance := route.totalDistance.GetOr(0.0) / 1000.0;
          var coordinates := ExtractPath(route.maneuvers.GetOr([]));
          r := Answer(e, coordinates, totalDistance, Some(route.totalDuration.GetOr(0.0)));
        }
    }
  }
}
