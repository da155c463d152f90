/** What the greedy allocation guarantees, stated over the specification
    fold `Optimizer.Allocate` that `Optimizer.OptimizeRoutes` is proved to
    follow. */
module OptimizerProperties {
  import opened Wrappers
  import opened Payload
  import opened Optimizer

  // ---------------------------------------------------------------------
  // One step

  /** A need that is not positive, or that no warehouse can supply, leaves
      the allocation exactly as it was: no route, no stock change. */
  lemma ServeSkips(ws: seq<WarehouseRequest>, geo: Geo, a: Allocation, d: Demand)
    requires d.volume <= 0 || forall j :: 0 <= j < |ws| ==> !Candidate(ws, a.stock, d.product, j)
    ensures Serve(ws, geo, a, d) == a
  {
  }

  /** Otherwise exactly one route is added: from the nearest warehouse that
      has the product (the first of them on a tie), carrying the smaller of
      the need and that warehouse's remaining stock; that one stock cell
      drops by the route's volume and stays non-negative, and no other cell
      changes. */
  lemma ServeShips(ws: seq<WarehouseRequest>, geo: Geo, a: Allocation, d: Demand)
    requires d.volume > 0
    requires exists j :: 0 <= j < |ws| && Candidate(ws, a.stock, d.product, j)
    ensures var b := Serve(ws, geo, a, d);
      |b.shipments| == |a.shipments| + 1 && b.shipments[..|a.shipments|] == a.shipments &&
      var s := b.shipments[|a.shipments|];
      var k := s.warehouse;
      k < |ws| && Candidate(ws, a.stock, d.product, k) &&
      var available := Stock(a.stock, ws[k].id, d.product);
      (forall j :: 0 <= j < |ws| && Candidate(ws, a.stock, d.product, j) ==>
         Distance(geo, ws[k], d.to) <= Distance(geo, ws[j], d.to)) &&
      (forall j :: 0 <= j < k && Candidate(ws, a.stock, d.product, j) ==>
         Distance(geo, ws[k], d.to) < Distance(geo, ws[j], d.to)) &&
      s.enterprise == d.enterprise &&
      s.route == Route(d.product, ws[k].name, d.to.name, s.route.volume, Distance(geo, ws[k], d.to), available) &&
      s.route.volume == Min(d.volume, available) &&
      0 < s.route.volume <= d.volume && s.route.volume <= available &&
      Stock(b.stock, ws[k].id, d.product) == available - s.route.volume >= 0 &&
      forall i, p :: (i != ws[k].id || p != d.product) ==> Stock(b.stock, i, p) == Stock(a.stock, i, p)
  {
    var j :| 0 <= j < |ws| && Candidate(ws, a.stock, d.product, j);
    var best := Nearest(ws, a.stock, d.product, d.to, geo, |ws|);
    assert best.Some?;
    var b := Serve(ws, geo, a, d);
    assert b.shipments[..|a.shipments|] == a.shipments;
  }

  // ---------------------------------------------------------------------
  // Stock is conserved and never driven below zero

  /** Total volume shipped from warehouse id `id` of product `p`. */
  function Shipped(ws: seq<WarehouseRequest>, ships: seq<Shipment>, id: int, p: string): int {
    if ships == [] then 0
    else
      var s := ships[|ships| - 1];
      Shipped(ws, ships[..|ships| - 1], id, p) +
      (if s.warehouse < |ws| && ws[s.warehouse].id == id && s.route.product == p then s.route.volume else 0)
  }

  /** For every (warehouse id, product) cell: what remains plus what was
      shipped is what there was; and a cell that changed at all is not
      negative. */
  lemma {:induction false} AllocateConserves(ws: seq<WarehouseRequest>, geo: Geo, init: Table,
                                             ds: seq<Demand>, id: int, p: string)
    ensures var a := Allocate(ws, geo, init, ds);
      Stock(a.stock, id, p) + Shipped(ws, a.shipments, id, p) == Stock(init, id, p) &&
      (Stock(a.stock, id, p) != Stock(init, id, p) ==> Stock(a.stock, id, p) >= 0)
    decreases |ds|
  {
    if ds != [] {
      var prefix := ds[..|ds| - 1];
      var d := ds[|ds| - 1];
      var a := Allocate(ws, geo, init, prefix);
      AllocateConserves(ws, geo, init, prefix, id, p);
      if d.volume > 0 && exists j :: 0 <= j < |ws| && Candidate(ws, a.stock, d.product, j) {
        ServeShips(ws, geo, a, d);
        var b := Serve(ws, geo, a, d);
        assert b.shipments[..|b.shipments| - 1] == a.shipments;
      } else {
        ServeSkips(ws, geo, a, d);
      }
    }
  }

  /** Nothing ships more of a product than its warehouse id started with. */
  lemma PlanWithinStock(ws: seq<WarehouseRequest>, es: seq<EnterpriseRequest>, geo: Geo, id: int, p: string)
    ensures var init := Stock(InitialTable(ws), id, p);
      Shipped(ws, Plan(ws, es, geo).shipments, id, p) <= if init > 0 then init else 0
    ensures Stock(Plan(ws, es, geo).stock, id, p) <= Stock(InitialTable(ws), id, p)
  {
    AllocateConserves(ws, geo, InitialTable(ws), Demands(es), id, p);
    AllocateAnswers(ws, geo, InitialTable(ws), Demands(es));
    ShippedNonNegative(ws, Plan(ws, es, geo).shipments, id, p);
  }

  lemma {:induction false} ShippedNonNegative(ws: seq<WarehouseRequest>, ships: seq<Shipment>, id: int, p: string)
    requires forall i :: 0 <= i < |ships| ==> ships[i].route.volume > 0
    ensures Shipped(ws, ships, id, p) >= 0
    decreases |ships|
  {
    if ships != [] {
      ShippedNonNegative(ws, ships[..|ships| - 1], id, p);
    }
  }

  // ---------------------------------------------------------------------
  // Every route answers a positive need and never exceeds it

  /** `s` is a delivery for demand `d`: same enterprise and product, from a
      warehouse of the request, a positive volume no larger than the need. */
  ghost predicate Answers(ws: seq<WarehouseRequest>, d: Demand, s: Shipment) {
    s.enterprise == d.enterprise && s.route.product == d.product && s.route.to == d.to.name &&
    s.warehouse < |ws| && s.route.from == ws[s.warehouse].name &&
    0 < s.route.volume <= d.volume
  }

  /** Every shipment has a positive volume and answers one of the demands. */
  ghost predicate AllAnswered(ws: seq<WarehouseRequest>, ds: seq<Demand>, ships: seq<Shipment>) {
    forall i :: 0 <= i < |ships| ==>
      ships[i].route.volume > 0 && exists j :: 0 <= j < |ds| && Answers(ws, ds[j], ships[i])
  }

  lemma {:induction false} AllocateAnswers(ws: seq<WarehouseRequest>, geo: Geo, init: Table, ds: seq<Demand>)
    ensures AllAnswered(ws, ds, Allocate(ws, geo, init, ds).shipments)
    decreases |ds|
  {
    if ds != [] {
      var prefix := ds[..|ds| - 1];
      var d := ds[|ds| - 1];
      var a := Allocate(ws, geo, init, prefix);
      AllocateAnswers(ws, geo, init, prefix);
      var ships := Allocate(ws, geo, init, ds).shipments;
      if d.volume > 0 && exists j :: 0 <= j < |ws| && Candidate(ws, a.stock, d.product, j) {
        ServeShips(ws, geo, a, d);
      } else {
        ServeSkips(ws, geo, a, d);
      }
      forall i | 0 <= i < |ships|
        ensures ships[i].route.volume > 0 && exists j :: 0 <= j < |ds| && Answers(ws, ds[j], ships[i])
      {
        if i < |a.shipments| {
          assert ships[i] == a.shipments[i];
          var j :| 0 <= j < |prefix| && Answers(ws, prefix[j], a.shipments[i]);
          assert ds[j] == prefix[j];
        } else {
          assert Answers(ws, ds[|ds| - 1], ships[i]);
        }
      }
    }
  }

  // ---------------------------------------------------------------------
  // The demands are the enterprises' needs; at most one route per pair

  /** `d` is entry `(product, volume)` of the needs of enterprise `d.enterprise`. */
  ghost predicate FromRequest(es: seq<EnterpriseRequest>, d: Demand) {
    d.enterprise < |es| && d.to == es[d.enterprise] &&
    exists k :: 0 <= k < |es[d.enterprise].needs| && es[d.enterprise].needs[k] == (d.product, d.volume)
  }

  lemma {:induction false} DemandsFromRequest(es: seq<EnterpriseRequest>)
    ensures forall j :: 0 <= j < |Demands(es)| ==> FromRequest(es, Demands(es)[j])
    decreases |es|
  {
    if es != [] {
      var n := |es| - 1;
      var prefix := es[..n];
      DemandsFromRequest(prefix);
      var ds := Demands(es);
      var old_ := Demands(prefix);
      var new_ := NeedDemands(n, es[n]);
      assert ds == old_ + new_;
      forall j | 0 <= j < |ds|
        ensures FromRequest(es, ds[j])
      {
        if j < |old_| {
          assert ds[j] == old_[j];
          assert FromRequest(prefix, old_[j]);
          assert es[old_[j].enterprise] == prefix[old_[j].enterprise];
        } else {
          var k := j - |old_|;
          assert ds[j] == new_[k];
          assert es[n].needs[k] == (ds[j].product, ds[j].volume);
        }
      }
    }
  }

  /** No two demands are for the same enterprise and product. */
  ghost predicate DemandKeysDistinct(ds: seq<Demand>) {
    forall i, j :: 0 <= i < j < |ds| ==> ds[i].enterprise != ds[j].enterprise || ds[i].product != ds[j].product
  }

  /** A JSON object has no repeated key, so neither has the list of demands. */
  lemma {:induction false} DemandsDistinct(es: seq<EnterpriseRequest>)
    requires forall i :: 0 <= i < |es| ==> KeysDistinct(es[i].needs)
    ensures DemandKeysDistinct(Demands(es))
    decreases |es|
  {
    if es != [] {
      var n := |es| - 1;
      var prefix := es[..n];
      DemandsDistinct(prefix);
      DemandsFromRequest(prefix);
      var old_ := Demands(prefix);
      var new_ := NeedDemands(n, es[n]);
      var ds := old_ + new_;
      assert Demands(es) == ds;
      forall i, j | 0 <= i < j < |ds|
        ensures ds[i].enterprise != ds[j].enterprise || ds[i].product != ds[j].product
      {
        if j < |old_| {
          assert ds[i] == old_[i] && ds[j] == old_[j];
        } else if i < |old_| {
          assert FromRequest(prefix, old_[i]);
          assert ds[i] == old_[i] && ds[j] == new_[j - |old_|];
        } else {
          assert ds[i] == new_[i - |old_|] && ds[j] == new_[j - |old_|];
        }
      }
    }
  }

  /** No two shipments are for the same enterprise and product. */
  ghost predicate PairsDistinct(ships: seq<Shipment>) {
    forall i, j :: 0 <= i < j < |ships| ==>
      ships[i].enterprise != ships[j].enterprise || ships[i].route.product != ships[j].route.product
  }

  lemma {:induction false} AllocateOnePerPair(ws: seq<WarehouseRequest>, geo: Geo, init: Table, ds: seq<Demand>)
    requires DemandKeysDistinct(ds)
    ensures PairsDistinct(Allocate(ws, geo, init, ds).shipments)
    decreases |ds|
  {
    if ds != [] {
      var prefix := ds[..|ds| - 1];
      var d := ds[|ds| - 1];
      var a := Allocate(ws, geo, init, prefix);
      AllocateOnePerPair(ws, geo, init, prefix);
      if d.volume > 0 && exists j :: 0 <= j < |ws| && Candidate(ws, a.stock, d.product, j) {
        var ships := Allocate(ws, geo, init, ds).shipments;
        var m := |a.shipments|;
        assert |ships| == m + 1 && ships[..m] == a.shipments &&
               ships[m].enterprise == d.enterprise && ships[m].route.product == d.product by {
          ServeShips(ws, geo, a, d);
        }
        assert AllAnswered(ws, prefix, a.shipments) by {
          AllocateAnswers(ws, geo, init, prefix);
        }
        forall i, j | 0 <= i < j < |ships|
          ensures ships[i].enterprise != ships[j].enterprise || ships[i].route.product != ships[j].route.product
        {
          assert ships[i] == a.shipments[i];
          if j < m {
            assert ships[j] == a.shipments[j];
          } else {
            var k :| 0 <= k < |prefix| && Answers(ws, prefix[k], a.shipments[i]);
            assert prefix[k] == ds[k];
          }
        }
      } else {
        ServeSkips(ws, geo, a, d);
      }
    }
  }

  /** Over a whole request: every route is for an enterprise of the request
      and a product it lists with a positive need, never more than that need;
      and when each enterprise's needs name each product once, no
      (enterprise, product) pair gets two routes. */
  lemma PlanAnswersNeeds(ws: seq<WarehouseRequest>, es: seq<EnterpriseRequest>, geo: Geo)
    ensures var ships := Plan(ws, es, geo).shipments;
      forall i :: 0 <= i < |ships| ==>
        ships[i].enterprise < |es| && ships[i].route.to == es[ships[i].enterprise].name &&
        ships[i].warehouse < |ws| && ships[i].route.from == ws[ships[i].warehouse].name &&
        exists k :: 0 <= k < |es[ships[i].enterprise].needs| &&
          es[ships[i].enterprise].needs[k].0 == ships[i].route.product &&
          0 < ships[i].route.volume <= es[ships[i].enterprise].needs[k].1
  {
    var ds := Demands(es);
    AllocateAnswers(ws, geo, InitialTable(ws), ds);
    DemandsFromRequest(es);
    var ships := Plan(ws, es, geo).shipments;
    forall i | 0 <= i < |ships|
      ensures ships[i].enterprise < |es| && ships[i].route.to == es[ships[i].enterprise].name &&
        ships[i].warehouse < |ws| && ships[i].route.from == ws[ships[i].warehouse].name &&
        exists k :: 0 <= k < |es[ships[i].enterprise].needs| &&
          es[ships[i].enterprise].needs[k].0 == ships[i].route.product &&
          0 < ships[i].route.volume <= es[ships[i].enterprise].needs[k].1
    {
      var j :| 0 <= j < |ds| && Answers(ws, ds[j], ships[i]);
      assert FromRequest(es, ds[j]);
    }
  }

  lemma PlanOnePerPair(ws: seq<WarehouseRequest>, es: seq<EnterpriseRequest>, geo: Geo)
    requires forall i :: 0 <= i < |es| ==> KeysDistinct(es[i].needs)
    ensures PairsDistinct(Plan(ws, es, geo).shipments)
  {
    DemandsDistinct(es);
    AllocateOnePerPair(ws, geo, InitialTable(ws), Demands(es));
  }
}
