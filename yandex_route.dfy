/** The Yandex router proxy: it flattens the legs, steps and polylines of
    the router's answer into one list of points, swapping each point from
    `[lng, lat]` to `[lat, lng]`, and sums the legs' distances. */
module YandexRoute {
  import opened Wrappers
  import opened RouteProxy

  const KeyName := "YANDEX_MAPS_API_KEY"

  /** A polyline point as the router sends it: `[lng, lat]`. */
  datatype LngLat = LngLat(lng: real, lat: real)

  /** A step, with its polyline's points when it has one. */
  datatype Step = Step(polyline: Option<seq<LngLat>>)

  /** A leg: its steps, if listed, and `distance.value` in metres, if given. */
  datatype Leg = Leg(steps: Option<seq<Step>>, distance: Option<real>)

  /** What came back from the router: the call raised (with its message),
      or the decoded JSON, whose `route.legs` may be missing. */
  datatype Reply = Unreachable(message: string) | Decoded(legs: Option<seq<Leg>>)

  function Swapped(p: LngLat): Point {
    Point(p.lat, p.lng)
  }

  /** A step's points, each swapped to `[lat, lng]`; none without a polyline. */
  function StepPoints(s: Step): seq<Point> {
    match s.polyline
    case None => []
    case Some(points) => seq(|points|, k requires 0 <= k < |points| => Swapped(points[k]))
  }

  /** Each polyline point appears once, in place, swapped. */
  lemma StepPointsSwapped(s: Step)
    ensures s.polyline.None? ==> StepPoints(s) == []
    ensures s.polyline.Some? ==>
              |StepPoints(s)| == |s.polyline.value| &&
              forall k :: 0 <= k < |s.polyline.value| ==> StepPoints(s)[k] == Swapped(s.polyline.value[k])
  {
  }

  /** `leg.get('steps', [])`. */
  function Steps(leg: Leg): seq<Step> {
    leg.steps.GetOr([])
  }

  /** The points of a run of steps, in order. */
  function StepsPoints(steps: seq<Step>): seq<Point> {
    if steps == [] then []
    else StepsPoints(steps[..|steps| - 1]) + StepPoints(steps[|steps| - 1])
  }

  /** The points of one leg, in order. */
  function LegPoints(leg: Leg): seq<Point> {
    StepsPoints(Steps(leg))
  }

  /** The points of a run of legs, in order. */
  function LegsPoints(legs: seq<Leg>): seq<Point> {
    if legs == [] then []
    else LegsPoints(legs[..|legs| - 1]) + LegPoints(legs[|legs| - 1])
  }

  /** The sum of the legs' distances in metres; a missing value counts as 0. */
  function LegsDistance(legs: seq<Leg>): real {
    if legs == [] then 0.0
    else LegsDistance(legs[..|legs| - 1]) + legs[|legs| - 1].distance.GetOr(0.0)
  }

  lemma {:induction false} StepsPointsAppend(a: seq<Step>, b: seq<Step>)
    ensures StepsPoints(a + b) == StepsPoints(a) + StepsPoints(b)
    decreases |b|
  {
    if b == [] {
      assert a + b == a;
    } else {
      var n := |b| - 1;
      assert (a + b)[..|a + b| - 1] == a + b[..n];
      assert (a + b)[|a + b| - 1] == b[n];
      StepsPointsAppend(a, b[..n]);
      calc {
        StepsPoints(a + b);
        StepsPoints(a + b[..n]) + StepPoints(b[n]);
        StepsPoints(a) + (StepsPoints(b[..n]) + StepPoints(b[n]));
      }
    }
  }

  /** Flattening distributes over a split of the legs. */
  lemma {:induction false} LegsPointsAppend(a: seq<Leg>, b: seq<Leg>)
    ensures LegsPoints(a + b) == LegsPoints(a) + LegsPoints(b)
    decreases |b|
  {
    if b == [] {
      assert a + b == a;
    } else {
      var n := |b| - 1;
      assert (a + b)[..|a + b| - 1] == a + b[..n];
      assert (a + b)[|a + b| - 1] == b[n];
      LegsPointsAppend(a, b[..n]);
      calc {
        LegsPoints(a + b);
        LegsPoints(a + b[..n]) + LegPoints(b[n]);
        LegsPoints(a) + (LegsPoints(b[..n]) + LegPoints(b[n]));
      }
    }
  }

  /** So does the distance. */
  lemma {:induction false} LegsDistanceAppend(a: seq<Leg>, b: seq<Leg>)
    ensures LegsDistance(a + b) == LegsDistance(a) + LegsDistance(b)
    decreases |b|
  {
    if b == [] {
      assert a + b == a;
    } else {
      var n := |b| - 1;
      assert (a + b)[..|a + b| - 1] == a + b[..n];
      LegsDistanceAppend(a, b[..n]);
    }
  }

  /** A point of a run of steps comes from one of its steps. */
  lemma {:induction false} StepsPointsMembers(steps: seq<Step>, p: Point)
    ensures p in StepsPoints(steps) <==> exists j :: 0 <= j < |steps| && p in StepPoints(steps[j])
    decreases |steps|
  {
    if steps != [] {
      var n := |steps| - 1;
      StepsPointsMembers(steps[..n], p);
      assert forall j :: 0 <= j < n ==> steps[..n][j] == steps[j];
    }
  }

  /** An extracted point comes from one of the legs, and the points of
      every leg are extracted. */
  lemma {:induction false} LegsPointsMembers(legs: seq<Leg>, p: Point)
    ensures p in LegsPoints(legs) <==> exists i :: 0 <= i < |legs| && p in LegPoints(legs[i])
    decreases |legs|
  {
    if legs != [] {
      var n := |legs| - 1;
      var prefix := legs[..n];
      assert LegsPoints(legs) == LegsPoints(prefix) + LegPoints(legs[n]);
      LegsPointsMembers(prefix, p);
      if p in LegsPoints(prefix) {
        var i :| 0 <= i < |prefix| && p in LegPoints(prefix[i]);
        assert legs[i] == prefix[i];
      }
      forall i | 0 <= i < n && p in LegPoints(legs[i])
        ensures p in LegsPoints(prefix)
      {
        assert prefix[i] == legs[i];
      }
    }
  }

  /** No point is extracted exactly when no step of any leg has a polyline
      with a point: the condition for the fallback. */
  lemma NoPointsIffNoPolyline(legs: seq<Leg>)
    ensures LegsPoints(legs) == [] <==>
              forall i, j :: 0 <= i < |legs| && 0 <= j < |Steps(legs[i])| ==> StepPoints(Steps(legs[i])[j]) == []
  {
    if LegsPoints(legs) != [] {
      var p := LegsPoints(legs)[0];
      LegsPointsMembers(legs, p);
      var i :| 0 <= i < |legs| && p in LegPoints(legs[i]);
      StepsPointsMembers(Steps(legs[i]), p);
    } else {
      forall i, j | 0 <= i < |legs| && 0 <= j < |Steps(legs[i])|
        ensures StepPoints(Steps(legs[i])[j]) == []
      {
        if StepPoints(Steps(legs[i])[j]) != [] {
          var p := StepPoints(Steps(legs[i])[j])[0];
          StepsPointsMembers(Steps(legs[i]), p);
          LegsPointsMembers(legs, p);
        }
      }
    }
  }

  /** The points of one step, appended one by one. */
  method AppendStep(coordinates: seq<Point>, s: Step) returns (r: seq<Point>)
    ensures r == coordinates + StepPoints(s)
  {
    r := coordinates;
    if s.polyline.Some? {
      var points := s.polyline.value;
      StepPointsSwapped(s);
      var k := 0;
      while k < |points|
        invariant 0 <= k <= |points|
        invariant r == coordinates + StepPoints(s)[..k]
      {
        assert StepPoints(s)[..k + 1] == StepPoints(s)[..k] + [Swapped(points[k])];
        r := r + [Swapped(points[k])];
        k := k + 1;
      }
      assert StepPoints(s)[..|points|] == StepPoints(s);
    }
  }

  /** The loop over one leg's steps. */
  method AppendLeg(coordinates: seq<Point>, leg: Leg) returns (r: seq<Point>)
    ensures r == coordinates + LegPoints(leg)
  {
    r := coordinates;
    var steps := Steps(leg);
    var j := 0;
    while j < |steps|
      invariant 0 <= j <= |steps|
      invariant r == coordinates + StepsPoints(steps[..j])
    {
      assert steps[..j + 1][..j] == steps[..j];
      assert StepsPoints(steps[..j + 1]) == StepsPoints(steps[..j]) + StepPoints(steps[j]);
      r := AppendStep(r, steps[j]);
      j := j + 1;
    }
    assert steps[..j] == steps;
  }

  /** The extraction loop over the legs, with the distance sum. */
  method ExtractRoute(legs: seq<Leg>) returns (coordinates: seq<Point>, totalDistance: real)
    ensures coordinates == LegsPoints(legs)
    ensures totalDistance == LegsDistance(legs)
  {
    coordinates := [];
    totalDistance := 0.0;
    var i := 0;
    while i < |legs|
      invariant 0 <= i <= |legs|
      invariant coordinates == LegsPoints(legs[..i])
      invariant totalDistance == LegsDistance(legs[..i])
    {
      assert legs[..i + 1][..i] == legs[..i];
      coordinates := AppendLeg(coordinates, legs[i]);
      totalDistance := totalDistance + legs[i].distance.GetOr(0.0);
      i := i + 1;
    }
    assert legs[..i] == legs;
  }

  /** `handler`: `apiKey` is the environment variable and `provider` what
      the router call produced. */
  method Handler(e: RouteEvent, apiKey: Option<string>, provider: Reply) returns (r: RouteResponse)
    ensures Precheck(e, apiKey, KeyName).Some? ==> r == Precheck(e, apiKey, KeyName).value
    ensures Precheck(e, apiKey, KeyName).None? ==>
              HasCoordinates(e) && r.statusCode == 200 && r.body.Path? &&
              r.body.coordinates != [] && r.body.duration.None?
    ensures Precheck(e, apiKey, KeyName).None? && provider.Unreachable? ==>
              r == Fallback(e, Some(provider.message))
    ensures Precheck(e, apiKey, KeyName).None? && provider == Decoded(None) ==>
              r == Fallback(e, None)
    ensures Precheck(e, apiKey, KeyName).None? && provider.Decoded? && provider.legs.Some? ==>
              var legs := provider.legs.value;
              r.body.raised.None? &&
              (r.body.fallback <==> LegsPoints(legs) == []) &&
              r.body.coordinates == (if LegsPoints(legs) == [] then Endpoints(e) else LegsPoints(legs)) &&
              r.body.distance == LegsDistance(legs) / 1000.0
  {
    var early := Precheck(e, apiKey, KeyName);
    if early.Some? {
      return early.value;
    }
    match provider {
      case Unreachable(message) =>
        r := Fallback(e, Some(message));
      case Decoded(None) =>
        r := Fallback(e, None);
      case Decoded(Some(legs)) =>
        var coordinates, totalDistance := ExtractRoute(legs);
        r := Answer(e, coordinates, totalDistance / 1000.0, None);
    }
  }
}
