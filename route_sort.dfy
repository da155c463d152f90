/** `routes.sort(key=lambda r: r['distance'])`: Python's sort is stable, so
    routes at the same distance keep the order in which they were made. */
module RouteSort {
  import opened Payload

  predicate Sorted(rs: seq<Route>) {
    forall i, j :: 0 <= i < j < |rs| ==> rs[i].distance <= rs[j].distance
  }

  /** Puts `r` before the first route that is not nearer than it. */
  function Insert(r: Route, rs: seq<Route>): (out: seq<Route>)
    ensures multiset(out) == multiset(rs) + multiset{r}
    ensures |out| == |rs| + 1
  {
    if rs == [] || r.distance <= rs[0].distance then [r] + rs
    else
      assert rs == [rs[0]] + rs[1..];
      [rs[0]] + Insert(r, rs[1..])
  }

  /** Every route of `Insert(r, rs)` is `r` or a route of `rs`. */
  lemma {:induction false} InsertMembers(r: Route, rs: seq<Route>, x: Route)
    requires x in Insert(r, rs)
    ensures x == r || x in rs
  {
    assert x in multiset(Insert(r, rs));
  }

  lemma {:induction false} InsertSorted(r: Route, rs: seq<Route>)
    requires Sorted(rs)
    ensures Sorted(Insert(r, rs))
    decreases |rs|
  {
    if rs != [] && rs[0].distance < r.distance {
      var tail := Insert(r, rs[1..]);
      InsertSorted(r, rs[1..]);
      forall j | 0 <= j < |tail|
        ensures rs[0].distance <= tail[j].distance
      {
        InsertMembers(r, rs[1..], tail[j]);
      }
    }
  }

  /** Insertion sort by distance, ascending. */
  function SortByDistance(rs: seq<Route>): (out: seq<Route>)
    ensures Sorted(out)
    ensures multiset(out) == multiset(rs)
    ensures |out| == |rs|
  {
    if rs == [] then []
    else
      assert rs == [rs[0]] + rs[1..];
      InsertSorted(rs[0], SortByDistance(rs[1..]));
      Insert(rs[0], SortByDistance(rs[1..]))
  }

  /** The routes at distance `d`, in order. */
  function AtDistance(rs: seq<Route>, d: real): seq<Route> {
    if rs == [] then []
    else (if rs[0].distance == d then [rs[0]] else []) + AtDistance(rs[1..], d)
  }

  lemma {:induction false} InsertKeepsTies(r: Route, rs: seq<Route>, d: real)
    ensures AtDistance(Insert(r, rs), d) == (if r.distance == d then [r] else []) + AtDistance(rs, d)
    decreases |rs|
  {
    if rs == [] || r.distance <= rs[0].distance {
      var out := [r] + rs;
      assert out[1..] == rs;
    } else {
      var out := Insert(r, rs[1..]);
      InsertKeepsTies(r, rs[1..], d);
      assert Insert(r, rs) == [rs[0]] + out;
      assert ([rs[0]] + out)[1..] == out;
      assert AtDistance([rs[0]] + out, d) == (if rs[0].distance == d then [rs[0]] else []) + AtDistance(out, d);
      assert AtDistance(rs, d) == (if rs[0].distance == d then [rs[0]] else []) + AtDistance(rs[1..], d);
      assert r.distance == d ==> rs[0].distance != d;
    }
  }

  /** Stability: for every distance, the routes at that distance come out in
      the order they went in. */
  lemma {:induction false} SortIsStable(rs: seq<Route>, d: real)
    ensures AtDistance(SortByDistance(rs), d) == AtDistance(rs, d)
    decreases |rs|
  {
    if rs != [] {
      SortIsStable(rs[1..], d);
      InsertKeepsTies(rs[0], SortByDistance(rs[1..]), d);
    }
  }
}
