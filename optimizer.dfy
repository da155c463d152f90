/** The route optimizer function: for each enterprise and each product it
    needs, ship from the nearest warehouse that still has that product,
    `min(need, remaining)` units, and take them off a working copy of the
    stock table; finally order the routes by distance.

    The specification is a fold, `Allocate`, over the flattened list of
    demands; `OptimizeRoutes` runs the source's loops and is proved to
    produce the sorted routes of that fold. The lemmas state what the fold
    guarantees. */
module Optimizer {
  import opened Wrappers
  import opened Payload
  import opened RouteSort

  /** Great-circle distance between (lat1, lng1) and (lat2, lng2); the
      haversine arithmetic itself is a parameter of the model. */
  type Geo = (real, real, real, real) -> real

  /** The distance reported when a coordinate is missing or zero. */
  const NoCoordinates: real := 999999.0

  /** `calculate_distance(w.lat, w.lng, e.lat, e.lng)`. */
  function Distance(geo: Geo, w: WarehouseRequest, e: EnterpriseRequest): (d: real)
    ensures !(Truthy(w.lat) && Truthy(w.lng) && Truthy(e.lat) && Truthy(e.lng)) ==> d == NoCoordinates
  {
    if Truthy(w.lat) && Truthy(w.lng) && Truthy(e.lat) && Truthy(e.lng)
    then geo(w.lat.value, w.lng.value, e.lat.value, e.lng.value)
    else NoCoordinates
  }

  /** The working stock table: warehouse id to product to remaining volume. */
  type Table = map<int, map<string, int>>

  /** `warehouse_stocks.get(id, {})`. */
  function Row(table: Table, id: int): map<string, int> {
    if id in table then table[id] else map[]
  }

  /** `warehouse_stocks.get(id, {}).get(product, 0)`. */
  function Stock(table: Table, id: int, product: string): int {
    var row := Row(table, id);
    if product in row then row[product] else 0
  }

  /** `warehouse_stocks[id][product] -= amount`. */
  function Withdraw(table: Table, id: int, product: string, amount: int): (t: Table)
    ensures Stock(t, id, product) == Stock(table, id, product) - amount
    ensures forall i, p :: (i != id || p != product) ==> Stock(t, i, p) == Stock(table, i, p)
  {
    table[id := Row(table, id)[product := Stock(table, id, product) - amount]]
  }

  /** The table built from the request: each warehouse's own copy of its
      stocks, under its id (a later warehouse with the same id replaces an
      earlier one). */
  function InitialTable(ws: seq<WarehouseRequest>): (t: Table)
    ensures forall j :: 0 <= j < |ws| ==> ws[j].id in t
  {
    if ws == [] then map[]
    else InitialTable(ws[..|ws| - 1])[ws[|ws| - 1].id := ws[|ws| - 1].stocks]
  }

  /** Whether warehouse `k` may supply `product`: some of it remains. */
  predicate Candidate(ws: seq<WarehouseRequest>, table: Table, product: string, k: int)
    requires 0 <= k < |ws|
  {
    Stock(table, ws[k].id, product) > 0
  }

  /** The warehouse the scan of `ws[..n]` settles on: the candidate at the
      smallest distance, the earliest of those on a tie, None without a
      candidate. */
  function Nearest(ws: seq<WarehouseRequest>, table: Table, product: string,
                   e: EnterpriseRequest, geo: Geo, n: nat): (r: Option<nat>)
    requires n <= |ws|
    ensures r.None? <==> forall j :: 0 <= j < n ==> !Candidate(ws, table, product, j)
    ensures r.Some? ==> r.value < n && Candidate(ws, table, product, r.value)
    ensures r.Some? ==> forall j :: 0 <= j < n && Candidate(ws, table, product, j) ==>
                          Distance(geo, ws[r.value], e) <= Distance(geo, ws[j], e)
    ensures r.Some? ==> forall j :: 0 <= j < r.value && Candidate(ws, table, product, j) ==>
                          Distance(geo, ws[r.value], e) < Distance(geo, ws[j], e)
  {
    if n == 0 then None
    else
      var best := Nearest(ws, table, product, e, geo, n - 1);
      if Candidate(ws, table, product, n - 1) &&
         (best.None? || Distance(geo, ws[n - 1], e) < Distance(geo, ws[best.value], e))
      then Some(n - 1)
      else best
  }

  /** The inner scan: one pass over the warehouses keeping the best so far. */
  method NearestWarehouse(ws: seq<WarehouseRequest>, table: Table, product: string,
                          e: EnterpriseRequest, geo: Geo) returns (best: Option<nat>)
    ensures best == Nearest(ws, table, product, e, geo, |ws|)
  {
    best := None;
    var bestDistance: real := 0.0;
    var i := 0;
    while i < |ws|
      invariant 0 <= i <= |ws|
      invariant best == Nearest(ws, table, product, e, geo, i)
      invariant best.Some? ==> bestDistance == Distance(geo, ws[best.value], e)
    {
      var available := Stock(table, ws[i].id, product);
      if available > 0 {
        var distance := Distance(geo, ws[i], e);
        if best.None? || distance < bestDistance {
          bestDistance := distance;
          best := Some(i);
        }
      }
      i := i + 1;
    }
  }

  function Min(a: int, b: int): int {
    if a <= b then a else b
  }

  /** One (enterprise, product, volume) entry of an enterprise's needs;
      `enterprise` is the enterprise's position in the request. */
  datatype Demand = Demand(enterprise: nat, to: EnterpriseRequest, product: string, volume: int)

  /** A route together with where it came from: the demand's enterprise and
      the chosen warehouse's position in the request. */
  datatype Shipment = Shipment(enterprise: nat, warehouse: nat, route: Route)

  datatype Allocation = Allocation(shipments: seq<Shipment>, stock: Table)

  /** The needs of enterprise `i`, in the order its `needs` object lists them. */
  function NeedDemands(i: nat, e: EnterpriseRequest): (ds: seq<Demand>)
    ensures |ds| == |e.needs|
    ensures forall k :: 0 <= k < |ds| ==> ds[k] == Demand(i, e, e.needs[k].0, e.needs[k].1)
  {
    seq(|e.needs|, k requires 0 <= k < |e.needs| => Demand(i, e, e.needs[k].0, e.needs[k].1))
  }

  /** All needs, enterprise by enterprise. */
  function Demands(es: seq<EnterpriseRequest>): seq<Demand> {
    if es == [] then []
    else Demands(es[..|es| - 1]) + NeedDemands(|es| - 1, es[|es| - 1])
  }

  /** Serving one demand: skipped when the need is not positive or no
      warehouse has the product; otherwise one route from the nearest
      warehouse carrying `min(need, remaining)`, taken off that warehouse. */
  ghost function Serve(ws: seq<WarehouseRequest>, geo: Geo, a: Allocation, d: Demand): Allocation {
    if d.volume <= 0 then a
    else
      match Nearest(ws, a.stock, d.product, d.to, geo, |ws|)
      case None => a
      case Some(k) =>
        var available := Stock(a.stock, ws[k].id, d.product);
        var volume := Min(d.volume, available);
        var route := Route(d.product, ws[k].name, d.to.name, volume, Distance(geo, ws[k], d.to), available);
        Allocation(a.shipments + [Shipment(d.enterprise, k, route)],
                   Withdraw(a.stock, ws[k].id, d.product, volume))
  }

  /** Serving the demands `ds` in order, starting from the table `init`. */
  ghost function Allocate(ws: seq<WarehouseRequest>, geo: Geo, init: Table, ds: seq<Demand>): Allocation {
    if ds == [] then Allocation([], init)
    else Serve(ws, geo, Allocate(ws, geo, init, ds[..|ds| - 1]), ds[|ds| - 1])
  }

  /** The whole allocation for a request. */
  ghost function Plan(ws: seq<WarehouseRequest>, es: seq<EnterpriseRequest>, geo: Geo): Allocation {
    Allocate(ws, geo, InitialTable(ws), Demands(es))
  }

  function RoutesOf(ships: seq<Shipment>): (rs: seq<Route>)
    ensures |rs| == |ships|
    ensures forall k :: 0 <= k < |ships| ==> rs[k] == ships[k].route
  {
    seq(|ships|, k requires 0 <= k < |ships| => ships[k].route)
  }

  /** The first loop of `optimize_routes`: a copy of every warehouse's stocks. */
  method CopyStocks(ws: seq<WarehouseRequest>) returns (stock: Table)
    ensures stock == InitialTable(ws)
  {
    stock := map[];
    var i := 0;
    while i < |ws|
      invariant 0 <= i <= |ws|
      invariant stock == InitialTable(ws[..i])
    {
      assert ws[..i + 1][..i] == ws[..i];
      stock := stock[ws[i].id := ws[i].stocks];
      i := i + 1;
    }
    assert ws[..|ws|] == ws;
  }

  /** The body of the loop over one enterprise's needs: at most one route,
      and the stock table after it. `ships` and `ships'` are the bookkeeping
      that ties the step to `Serve`. */
  method ServeNeed(ws: seq<WarehouseRequest>, geo: Geo, stock: Table, d: Demand, ghost ships: seq<Shipment>)
    returns (route: Option<Route>, stock': Table, ghost ships': seq<Shipment>)
    ensures Serve(ws, geo, Allocation(ships, stock), d) == Allocation(ships', stock')
    ensures route.None? ==> ships' == ships
    ensures route.Some? ==> |ships'| == |ships| + 1 && ships'[..|ships|] == ships && ships'[|ships|].route == route.value
  {
    route, stock', ships' := None, stock, ships;
    if d.volume > 0 {
      var best := NearestWarehouse(ws, stock, d.product, d.to, geo);
      if best.Some? {
        var w := ws[best.value];
        var available := Stock(stock, w.id, d.product);
        var volume := Min(d.volume, available);
        var r := Route(d.product, w.name, d.to.name, volume, Distance(geo, w, d.to), available);
        route := Some(r);
        ships' := ships + [Shipment(d.enterprise, best.value, r)];
        assert ships'[..|ships|] == ships;
        stock' := Withdraw(stock, w.id, d.product, volume);
      }
    }
  }

  lemma RoutesOfAppend(ships: seq<Shipment>, ships': seq<Shipment>, r: Route)
    requires |ships'| == |ships| + 1 && ships'[..|ships|] == ships && ships'[|ships|].route == r
    ensures RoutesOf(ships') == RoutesOf(ships) + [r]
  {
  }

  /** Serving one more demand is one more `Serve` step. */
  lemma AllocateSnoc(ws: seq<WarehouseRequest>, geo: Geo, init: Table, ds: seq<Demand>, d: Demand)
    ensures Allocate(ws, geo, init, ds + [d]) == Serve(ws, geo, Allocate(ws, geo, init, ds), d)
  {
    assert (ds + [d])[..|ds|] == ds;
  }

  /** The loop over one enterprise's needs. */
  method ServeEnterprise(ws: seq<WarehouseRequest>, geo: Geo, e: nat, enterprise: EnterpriseRequest,
                         stock: Table, made: seq<Route>,
                         ghost init: Table, ghost done: seq<Demand>, ghost ships: seq<Shipment>)
    returns (stock': Table, made': seq<Route>, ghost ships': seq<Shipment>)
    requires Allocate(ws, geo, init, done) == Allocation(ships, stock)
    requires made == RoutesOf(ships)
    ensures Allocate(ws, geo, init, done + NeedDemands(e, enterprise)) == Allocation(ships', stock')
    ensures made' == RoutesOf(ships')
  {
    stock', made', ships' := stock, made, ships;
    ghost var todo := NeedDemands(e, enterprise);
    assert done + todo[..0] == done;
    var k := 0;
    while k < |enterprise.needs|
      invariant 0 <= k <= |enterprise.needs|
      invariant Allocate(ws, geo, init, done + todo[..k]) == Allocation(ships', stock')
      invariant made' == RoutesOf(ships')
    {
      ghost var before := done + todo[..k];
      assert done + todo[..k + 1] == before + [todo[k]];
      AllocateSnoc(ws, geo, init, before, todo[k]);
      var (product, needed) := enterprise.needs[k];
      ghost var shipsBefore := ships';
      var route;
      route, stock', ships' := ServeNeed(ws, geo, stock', Demand(e, enterprise, product, needed), ships');
      if route.Some? {
        RoutesOfAppend(shipsBefore, ships', route.value);
        made' := made' + [route.value];
      }
      k := k + 1;
    }
    assert todo[..|enterprise.needs|] == todo;
  }

  /** `optimize_routes`: the routes of the allocation, nearest first. */
  method OptimizeRoutes(ws: seq<WarehouseRequest>, es: seq<EnterpriseRequest>, geo: Geo)
    returns (routes: seq<Route>)
    ensures routes == SortByDistance(RoutesOf(Plan(ws, es, geo).shipments))
    ensures Sorted(routes)
    ensures multiset(routes) == multiset(RoutesOf(Plan(ws, es, geo).shipments))
  {
    var stock := CopyStocks(ws);
    ghost var init := stock;
    var made: seq<Route> := [];
    ghost var ships: seq<Shipment> := [];
    var e := 0;
    while e < |es|
      invariant 0 <= e <= |es|
      invariant Allocate(ws, geo, init, Demands(es[..e])) == Allocation(ships, stock)
      invariant made == RoutesOf(ships)
    {
      assert es[..e + 1][..e] == es[..e];
      stock, made, ships := ServeEnterprise(ws, geo, e, es[e], stock, made, init, Demands(es[..e]), ships);
      e := e + 1;
    }
    assert es[..|es|] == es;
    routes := SortByDistance(made);
  }

  /** The table cell of a warehouse id holds the stocks of the last
      warehouse listed with that id. */
  lemma {:induction false} InitialTableLast(ws: seq<WarehouseRequest>, j: nat)
    requires j < |ws|
    requires forall k :: j < k < |ws| ==> ws[k].id != ws[j].id
    ensures InitialTable(ws)[ws[j].id] == ws[j].stocks
    decreases |ws|
  {
    if j < |ws| - 1 {
      var prefix := ws[..|ws| - 1];
      InitialTableLast(prefix, j);
      assert prefix[j] == ws[j];
    }
  }

  // ---------------------------------------------------------------------
  // The HTTP entry point

  /** The invocation: the HTTP method (absent means POST) and the decoded
      body, with the body's own defaults (`month` "", no warehouses, no
      enterprises) already applied. */
  datatype OptimizeEvent = OptimizeEvent(httpMethod: Option<string>, body: OptimizeRequest)

  datatype OptimizeBody =
    | NoContent
    | Failure(error: string)
    | Result(month: string, routes: seq<Route>, totalRoutes: int)

  datatype OptimizeResponse = OptimizeResponse(statusCode: int, body: OptimizeBody)

  /** `handler`: the CORS preflight, the method check, the required lists,
      then the optimization. */
  method Handler(event: OptimizeEvent, geo: Geo) returns (r: OptimizeResponse)
    ensures event.httpMethod == Some("OPTIONS") ==> r == OptimizeResponse(200, NoContent)
    ensures event.httpMethod.GetOr("POST") !in {"OPTIONS", "POST"} ==>
              r == OptimizeResponse(405, Failure("Method not allowed"))
    ensures event.httpMethod.GetOr("POST") == "POST" &&
            (event.body.warehouses == [] || event.body.enterprises == []) ==>
              r == OptimizeResponse(400, Failure("Warehouses and enterprises are required"))
    ensures event.httpMethod.GetOr("POST") == "POST" &&
            event.body.warehouses != [] && event.body.enterprises != [] ==>
              r.statusCode == 200 && r.body.Result? &&
              r.body.month == event.body.month &&
              r.body.totalRoutes == |r.body.routes| &&
              Sorted(r.body.routes) &&
              r.body.routes == SortByDistance(RoutesOf(Plan(event.body.warehouses, event.body.enterprises, geo).shipments))
  {
    var verb := event.httpMethod.GetOr("POST");
    if verb == "OPTIONS" {
      return OptimizeResponse(200, NoContent);
    }
    if verb != "POST" {
      return OptimizeResponse(405, Failure("Method not allowed"));
    }
    var body := event.body;
    if body.warehouses == [] || body.enterprises == [] {
      return OptimizeResponse(400, Failure("Warehouses and enterprises are required"));
    }
    var routes := OptimizeRoutes(body.warehouses, body.enterprises, geo);
    r := OptimizeResponse(200, Result(body.month, routes, |routes|));
  }
}
