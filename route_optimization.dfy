/** The route-optimization screen: it reads the stored warehouses and
    enterprises, projects each product's monthly series onto the selected
    month, posts the result to the optimizer and keeps the routes it gets
    back. */
module RouteOptimization {
  import opened Wrappers
  import opened Payload
  import opened MonthlySeries

  /** A product as stored: a name and its monthly series, which an old
      record may lack. */
  datatype StoredProduct = StoredProduct(product: string, monthlyData: Option<seq<MonthValue>>)

  /** A warehouse as stored; an old record may lack `products`. */
  datatype StoredWarehouse = StoredWarehouse(
    id: int, name: string, location: string,
    lat: Option<real>, lng: Option<real>,
    products: Option<seq<StoredProduct>>)

  /** An enterprise as stored; `consumed` lists what it needs. */
  datatype StoredEnterprise = StoredEnterprise(
    id: int, name: string, location: string,
    lat: Option<real>, lng: Option<real>,
    consumed: Option<seq<StoredProduct>>)

  /** `series.find((m) => m.month === month)?.volume`: the volume of the
      first record for that month. */
  function FindMonth(series: seq<MonthValue>, month: string): (r: Option<int>)
    ensures r.None? <==> forall i :: 0 <= i < |series| ==> series[i].month != month
    ensures r.Some? ==> exists i :: 0 <= i < |series| && series[i].month == month &&
                          series[i].volume == r.value &&
                          forall j :: 0 <= j < i ==> series[j].month != month
  {
    if series == [] then None
    else if series[0].month == month then Some(series[0].volume)
    else
      var r := FindMonth(series[1..], month);
      assert forall i :: 1 <= i < |series| ==> series[i] == series[1..][i - 1];
      if r.Some? then
        var i :| 0 <= i < |series[1..]| && series[1..][i].month == month && series[1..][i].volume == r.value &&
                 forall j :: 0 <= j < i ==> series[1..][j].month != month;
        assert series[i + 1] == series[1..][i];
        assert forall j :: 0 <= j < i + 1 ==> series[j].month != month by {
          forall j | 0 < j < i + 1 ensures series[j].month != month {
            assert series[j] == series[1..][j - 1];
          }
        }
        r
      else r
  }

  /** `c.monthlyData?.find(...)`: a product without a series has no volume. */
  function MonthVolume(p: StoredProduct, month: string): Option<int> {
    match p.monthlyData
    case None => None
    case Some(series) => FindMonth(series, month)
  }

  /** Product `i` is the last one of its name that has a record for `month`:
      its volume is the one that stays in the object. */
  ghost predicate LastWithData(ps: seq<StoredProduct>, month: string, i: int)
    requires 0 <= i < |ps|
  {
    MonthVolume(ps[i], month).Some? &&
    forall j :: i < j < |ps| && ps[j].product == ps[i].product ==> MonthVolume(ps[j], month).None?
  }

  /** Some product named `name` has a record for `month`. */
  ghost predicate HasData(ps: seq<StoredProduct>, month: string, name: string) {
    exists i :: 0 <= i < |ps| && ps[i].product == name && MonthVolume(ps[i], month).Some?
  }

  // ---------------------------------------------------------------------
  // A warehouse's stocks for the month

  /** `w.products.forEach(p => { ... monthlyStocks[p.product] = volume })`;
      None when a product has no series, where `p.monthlyData.find` throws. */
  function StocksFor(ps: seq<StoredProduct>, month: string): Option<map<string, int>> {
    if ps == [] then Some(map[])
    else
      match StocksFor(ps[..|ps| - 1], month)
      case None => None
      case Some(m) =>
        var p := ps[|ps| - 1];
        if p.monthlyData.None? then None
        else match FindMonth(p.monthlyData.value, month)
          case None => Some(m)
          case Some(v) => Some(m[p.product := v])
  }

  /** The stocks object fails exactly when some product has no series. */
  lemma {:induction false} StocksForFails(ps: seq<StoredProduct>, month: string)
    ensures StocksFor(ps, month).None? <==> exists i :: 0 <= i < |ps| && ps[i].monthlyData.None?
    decreases |ps|
  {
    if ps != [] {
      var n := |ps| - 1;
      StocksForFails(ps[..n], month);
      assert forall i :: 0 <= i < n ==> ps[..n][i] == ps[i];
    }
  }

  /** Its keys are the products with a record for the month: a product
      without one is absent, not 0. */
  lemma {:induction false} StocksForKeys(ps: seq<StoredProduct>, month: string, k: string)
    requires StocksFor(ps, month).Some?
    ensures k in StocksFor(ps, month).value <==> HasData(ps, month, k)
    decreases |ps|
  {
    if ps != [] {
      var n := |ps| - 1;
      assert StocksFor(ps[..n], month).Some?;
      StocksForKeys(ps[..n], month, k);
      HasDataSnoc(ps, month, k);
    }
  }

  /** Each key holds the volume of the last product of that name that has
      a record for the month. */
  lemma {:induction false} StocksForLastWins(ps: seq<StoredProduct>, month: string, i: int)
    requires StocksFor(ps, month).Some?
    requires 0 <= i < |ps| && LastWithData(ps, month, i)
    ensures ps[i].product in StocksFor(ps, month).value
    ensures StocksFor(ps, month).value[ps[i].product] == MonthVolume(ps[i], month).value
    decreases |ps|
  {
    var n := |ps| - 1;
    var prefix := ps[..n];
    if i < n {
      assert prefix[i] == ps[i];
      assert MonthVolume(ps[n], month).None? || ps[n].product != ps[i].product;
      assert LastWithData(prefix, month, i) by {
        forall j | i < j < |prefix| && prefix[j].product == prefix[i].product
          ensures MonthVolume(prefix[j], month).None?
        {
          assert prefix[j] == ps[j];
        }
      }
      StocksForLastWins(prefix, month, i);
    }
  }

  /** The loop over one warehouse's products. */
  method MonthlyStocks(ps: seq<StoredProduct>, month: string) returns (stocks: Option<map<string, int>>)
    ensures stocks == StocksFor(ps, month)
  {
    var m: map<string, int> := map[];
    var i := 0;
    while i < |ps|
      invariant 0 <= i <= |ps|
      invariant StocksFor(ps[..i], month) == Some(m)
    {
      assert ps[..i + 1][..i] == ps[..i];
      var p := ps[i];
      if p.monthlyData.None? {
        assert StocksFor(ps[..i + 1], month).None?;
        StocksFailurePersists(ps, month, i + 1);
        return None;
      }
      var found := FindMonth(p.monthlyData.value, month);
      if found.Some? {
        m := m[p.product := found.value];
      }
      i := i + 1;
    }
    assert ps[..|ps|] == ps;
    stocks := Some(m);
  }

  /** Once a product has thrown, the whole stocks object has failed. */
  lemma {:induction false} StocksFailurePersists(ps: seq<StoredProduct>, month: string, n: nat)
    requires n <= |ps|
    requires StocksFor(ps[..n], month).None?
    ensures StocksFor(ps, month).None?
    decreases |ps| - n
  {
    if n < |ps| {
      assert ps[..n + 1][..n] == ps[..n];
      StocksFailurePersists(ps, month, n + 1);
    } else {
      assert ps[..n] == ps;
    }
  }

  // ---------------------------------------------------------------------
  // An enterprise's needs for the month

  /** `e.consumed.forEach(c => { ... monthlyNeeds[c.product] = volume })`. */
  function NeedsOf(cs: seq<StoredProduct>, month: string): Entries {
    if cs == [] then []
    else
      var needs := NeedsOf(cs[..|cs| - 1], month);
      var c := cs[|cs| - 1];
      match MonthVolume(c, month)
      case None => needs
      case Some(v) => Put(needs, c.product, v)
  }

  /** `if (e.consumed) ...`: an enterprise with nothing consumed needs nothing. */
  function NeedsFor(consumed: Option<seq<StoredProduct>>, month: string): Entries {
    match consumed
    case None => []
    case Some(cs) => NeedsOf(cs, month)
  }

  /** The product names that contribute a need, first contributions only,
      in order: the key order of the needs object. */
  function FirstNames(cs: seq<StoredProduct>, month: string): seq<string> {
    if cs == [] then []
    else
      var names := FirstNames(cs[..|cs| - 1], month);
      var c := cs[|cs| - 1];
      if MonthVolume(c, month).None? || c.product in names then names else names + [c.product]
  }

  function KeySeq(o: Entries): (ks: seq<string>)
    ensures |ks| == |o| && forall i :: 0 <= i < |o| ==> ks[i] == o[i].0
  {
    seq(|o|, i requires 0 <= i < |o| => o[i].0)
  }

  /** A product name has data in a list grown by one product exactly when
      it had data before or the new product is that name with a record. */
  lemma HasDataSnoc(cs: seq<StoredProduct>, month: string, k: string)
    requires cs != []
    ensures HasData(cs, month, k) <==>
              HasData(cs[..|cs| - 1], month, k) ||
              (cs[|cs| - 1].product == k && MonthVolume(cs[|cs| - 1], month).Some?)
  {
    var n := |cs| - 1;
    if HasData(cs, month, k) {
      var i :| 0 <= i < |cs| && cs[i].product == k && MonthVolume(cs[i], month).Some?;
      if i < n {
        assert cs[..n][i] == cs[i];
      }
    }
    if HasData(cs[..n], month, k) {
      var i :| 0 <= i < n && cs[..n][i].product == k && MonthVolume(cs[..n][i], month).Some?;
      assert cs[i] == cs[..n][i];
    }
  }

  /** The last product of its name in the whole list is also the last in
      any prefix holding it. */
  lemma LastWithDataPrefix(cs: seq<StoredProduct>, month: string, i: int)
    requires 0 <= i < |cs| - 1 && LastWithData(cs, month, i)
    ensures LastWithData(cs[..|cs| - 1], month, i)
  {
    var prefix := cs[..|cs| - 1];
    assert prefix[i] == cs[i];
    forall j | i < j < |prefix| && prefix[j].product == prefix[i].product
      ensures MonthVolume(prefix[j], month).None?
    {
      assert prefix[j] == cs[j];
    }
  }

  /** Assigning a key appends it to the key order when it is new and keeps
      the order otherwise. */
  lemma KeySeqPut(o: Entries, k: string, v: int)
    ensures KeySeq(Put(o, k, v)) == if k in KeySeq(o) then KeySeq(o) else KeySeq(o) + [k]
  {
    if k in Keys(o) {
      KeySeqPutExisting(o, k, v);
    } else {
      KeySeqPutNew(o, k, v);
    }
  }

  lemma KeySeqPutExisting(o: Entries, k: string, v: int)
    requires k in Keys(o)
    ensures k in KeySeq(o) && KeySeq(Put(o, k, v)) == KeySeq(o)
  {
    assert k in KeySeq(o) by {
      var i :| 0 <= i < |o| && o[i].0 == k;
      assert KeySeq(o)[i] == k;
    }
    var r := Put(o, k, v);
    var ks := KeySeq(r);
    assert |r| == |o| && forall j :: 0 <= j < |o| ==> r[j].0 == o[j].0;
    assert |ks| == |KeySeq(o)| && forall j :: 0 <= j < |ks| ==> ks[j] == KeySeq(o)[j];
  }

  lemma KeySeqPutNew(o: Entries, k: string, v: int)
    requires k !in Keys(o)
    ensures k !in KeySeq(o) && KeySeq(Put(o, k, v)) == KeySeq(o) + [k]
  {
    var r := o + [(k, v)];
    PutAppends(o, k, v);
    assert forall j :: 0 <= j < |r| ==> KeySeq(r)[j] == (KeySeq(o) + [k])[j];
  }

  /** The needs object has no key twice, and its keys are the products with
      a record for the month, in the order each was first listed. */
  lemma {:induction false} NeedsOfKeyOrder(cs: seq<StoredProduct>, month: string)
    ensures KeysDistinct(NeedsOf(cs, month))
    ensures KeySeq(NeedsOf(cs, month)) == FirstNames(cs, month)
    decreases |cs|
  {
    if cs != [] {
      var n := |cs| - 1;
      var c := cs[n];
      var needs := NeedsOf(cs[..n], month);
      NeedsOfKeyOrder(cs[..n], month);
      if MonthVolume(c, month).Some? {
        var v := MonthVolume(c, month).value;
        PutDistinct(needs, c.product, v);
        KeySeqPut(needs, c.product, v);
      }
    }
  }

  /** A product gets a key in the needs object exactly when some product of
      that name has a record for the month. */
  lemma {:induction false} NeedsOfKeys(cs: seq<StoredProduct>, month: string, k: string)
    ensures Lookup(NeedsOf(cs, month), k).Some? <==> HasData(cs, month, k)
    decreases |cs|
  {
    if cs != [] {
      var n := |cs| - 1;
      var c := cs[n];
      NeedsOfKeys(cs[..n], month, k);
      HasDataSnoc(cs, month, k);
      if MonthVolume(c, month).Some? {
        PutLookup(NeedsOf(cs[..n], month), c.product, MonthVolume(c, month).value, k);
      }
    }
  }

  /** The last consumed product, when it has a record, sets its own key. */
  lemma NeedsOfLastSets(cs: seq<StoredProduct>, month: string)
    requires cs != [] && MonthVolume(cs[|cs| - 1], month).Some?
    ensures Lookup(NeedsOf(cs, month), cs[|cs| - 1].product) == MonthVolume(cs[|cs| - 1], month)
  {
    var c := cs[|cs| - 1];
    PutLookup(NeedsOf(cs[..|cs| - 1], month), c.product, MonthVolume(c, month).value, c.product);
  }

  /** Any other key reads what it read before the last product. */
  lemma NeedsOfLastKeeps(cs: seq<StoredProduct>, month: string, k: string)
    requires cs != []
    requires cs[|cs| - 1].product != k || MonthVolume(cs[|cs| - 1], month).None?
    ensures Lookup(NeedsOf(cs, month), k) == Lookup(NeedsOf(cs[..|cs| - 1], month), k)
  {
    var c := cs[|cs| - 1];
    if MonthVolume(c, month).Some? {
      PutLookup(NeedsOf(cs[..|cs| - 1], month), c.product, MonthVolume(c, month).value, k);
    }
  }

  /** A key holds the volume of the last product of that name that has a
      record for the month. */
  lemma {:induction false} NeedsOfLastWins(cs: seq<StoredProduct>, month: string, i: int)
    requires 0 <= i < |cs| && LastWithData(cs, month, i)
    ensures Lookup(NeedsOf(cs, month), cs[i].product) == MonthVolume(cs[i], month)
    decreases |cs|
  {
    var n := |cs| - 1;
    if i == n {
      NeedsOfLastSets(cs, month);
    } else {
      assert LastWithData(cs[..n], month, i) && cs[..n][i] == cs[i] by {
        LastWithDataPrefix(cs, month, i);
      }
      NeedsOfLastWins(cs[..n], month, i);
      NeedsOfLastKeeps(cs, month, cs[i].product);
    }
  }

  /** The loop over one enterprise's consumed products. */
  method MonthlyNeeds(consumed: Option<seq<StoredProduct>>, month: string) returns (needs: Entries)
    ensures needs == NeedsFor(consumed, month)
  {
    needs := [];
    if consumed.Some? {
      var cs := consumed.value;
      var i := 0;
      while i < |cs|
        invariant 0 <= i <= |cs|
        invariant needs == NeedsOf(cs[..i], month)
      {
        assert cs[..i + 1][..i] == cs[..i];
        var found := MonthVolume(cs[i], month);
        if found.Some? {
          needs := Put(needs, cs[i].product, found.value);
        }
        i := i + 1;
      }
      assert cs[..|cs|] == cs;
    }
  }

  // ---------------------------------------------------------------------
  // The request body

  /** One warehouse as sent; None when `w.products.forEach` or
      `p.monthlyData.find` throws on a missing list. */
  function WarehouseStocks(w: StoredWarehouse, month: string): Option<WarehouseRequest> {
    match w.products
    case None => None
    case Some(ps) =>
      match StocksFor(ps, month)
      case None => None
      case Some(stocks) => Some(WarehouseRequest(w.id, w.name, w.location, w.lat, w.lng, stocks))
  }

  /** `warehouses.map(...)`: one request per warehouse, in order, or None as
      soon as one of them throws. */
  function WarehousesPayload(ws: seq<StoredWarehouse>, month: string): (r: Option<seq<WarehouseRequest>>)
    ensures r.None? <==> exists i :: 0 <= i < |ws| && WarehouseStocks(ws[i], month).None?
    ensures r.Some? ==> |r.value| == |ws| &&
                        (forall i :: 0 <= i < |ws| ==> Some(r.value[i]) == WarehouseStocks(ws[i], month))
  {
    if ws == [] then Some([])
    else
      var rest := WarehousesPayload(ws[1..], month);
      assert forall i :: 1 <= i < |ws| ==> ws[i] == ws[1..][i - 1];
      match WarehouseStocks(ws[0], month)
      case None => None
      case Some(w) =>
        match rest
        case None => None
        case Some(tail) => Some([w] + tail)
  }

  /** One enterprise as sent. */
  function EnterpriseNeeds(e: StoredEnterprise, month: string): EnterpriseRequest {
    EnterpriseRequest(e.id, e.name, e.location, e.lat, e.lng, NeedsFor(e.consumed, month))
  }

  /** `enterprises.map(...)`: this one never throws. */
  function EnterprisesPayload(es: seq<StoredEnterprise>, month: string): (r: seq<EnterpriseRequest>)
    ensures |r| == |es| && forall i :: 0 <= i < |es| ==> r[i] == EnterpriseNeeds(es[i], month)
  {
    seq(|es|, i requires 0 <= i < |es| => EnterpriseNeeds(es[i], month))
  }

  /** The body posted for the selected month, or None when building it throws. */
  function RequestFor(month: string, ws: seq<StoredWarehouse>, es: seq<StoredEnterprise>): Option<OptimizeRequest> {
    match WarehousesPayload(ws, month)
    case None => None
    case Some(wr) => Some(OptimizeRequest(month, wr, EnterprisesPayload(es, month)))
  }

  /** The request is built exactly when every warehouse lists its products
      and every product has a series; it carries the selected month and
      copies each warehouse's and enterprise's id, name, location and
      coordinates, in order; an enterprise's needs have no key twice. */
  lemma RequestForSpec(month: string, ws: seq<StoredWarehouse>, es: seq<StoredEnterprise>)
    ensures RequestFor(month, ws, es).None? <==>
              exists i :: 0 <= i < |ws| &&
                (ws[i].products.None? ||
                 exists j :: 0 <= j < |ws[i].products.value| && ws[i].products.value[j].monthlyData.None?)
    ensures RequestFor(month, ws, es).Some? ==>
              var req := RequestFor(month, ws, es).value;
              req.month == month && |req.warehouses| == |ws| && |req.enterprises| == |es| &&
              (forall i :: 0 <= i < |ws| ==>
                 req.warehouses[i].id == ws[i].id && req.warehouses[i].name == ws[i].name &&
                 req.warehouses[i].location == ws[i].location &&
                 req.warehouses[i].lat == ws[i].lat && req.warehouses[i].lng == ws[i].lng) &&
              (forall i :: 0 <= i < |es| ==>
                 req.enterprises[i].id == es[i].id && req.enterprises[i].name == es[i].name &&
                 req.enterprises[i].location == es[i].location &&
                 req.enterprises[i].lat == es[i].lat && req.enterprises[i].lng == es[i].lng &&
                 KeysDistinct(req.enterprises[i].needs))
  {
    forall i | 0 <= i < |ws| && ws[i].products.Some?
      ensures StocksFor(ws[i].products.value, month).None? <==>
                exists j :: 0 <= j < |ws[i].products.value| && ws[i].products.value[j].monthlyData.None?
    {
      StocksForFails(ws[i].products.value, month);
    }
    forall i | 0 <= i < |es| && es[i].consumed.Some?
      ensures KeysDistinct(NeedsOf(es[i].consumed.value, month))
    {
      NeedsOfKeyOrder(es[i].consumed.value, month);
    }
  }

  /** The `warehouses.map` loop. */
  method BuildWarehouses(ws: seq<StoredWarehouse>, month: string) returns (r: Option<seq<WarehouseRequest>>)
    ensures r == WarehousesPayload(ws, month)
  {
    var built: seq<WarehouseRequest> := [];
    var i := 0;
    while i < |ws|
      invariant 0 <= i <= |ws| && |built| == i
      invariant forall j :: 0 <= j < i ==> Some(built[j]) == WarehouseStocks(ws[j], month)
    {
      var w := ws[i];
      if w.products.None? {
        assert WarehouseStocks(ws[i], month).None?;
        return None;
      }
      var stocks := MonthlyStocks(w.products.value, month);
      if stocks.None? {
        assert WarehouseStocks(ws[i], month).None?;
        return None;
      }
      built := built + [WarehouseRequest(w.id, w.name, w.location, w.lat, w.lng, stocks.value)];
      i := i + 1;
    }
    var expected := WarehousesPayload(ws, month);
    assert expected.Some? && expected.value == built by {
      assert forall j :: 0 <= j < |ws| ==> WarehouseStocks(ws[j], month).Some?;
    }
    r := Some(built);
  }

  /** The `enterprises.map` loop. */
  method BuildEnterprises(es: seq<StoredEnterprise>, month: string) returns (r: seq<EnterpriseRequest>)
    ensures r == EnterprisesPayload(es, month)
  {
    r := [];
    var i := 0;
    while i < |es|
      invariant 0 <= i <= |es| && |r| == i
      invariant forall j :: 0 <= j < i ==> r[j] == EnterpriseNeeds(es[j], month)
    {
      var e := es[i];
      var needs := MonthlyNeeds(e.consumed, month);
      r := r + [EnterpriseRequest(e.id, e.name, e.location, e.lat, e.lng, needs)];
      i := i + 1;
    }
  }

  // ---------------------------------------------------------------------
  // The component

  /** What the optimizer endpoint did with a request: unreachable (or a body
      that is not JSON), or a reply with its `ok` flag and its `routes` field,
      which may be absent. */
  datatype Reply = Unreachable | Replied(ok: bool, routes: Option<seq<Route>>)

  /** The toast shown at the end of a run. */
  datatype Notice = NotEnoughData | RoutesFound(count: nat) | OptimizeFailed

  /** The request was sent and answered with an OK status. */
  predicate Succeeded(sent: Option<OptimizeRequest>, server: OptimizeRequest -> Reply) {
    sent.Some? && server(sent.value).Replied? && server(sent.value).ok
  }

  class RouteOptimizer {
    var selectedMonth: string
    var isCalculating: bool
    var routes: seq<Route>

    constructor ()
      ensures selectedMonth == Months[0] && !isCalculating && routes == []
    {
      selectedMonth := Months[0];
      isCalculating := false;
      routes := [];
    }

    method SelectMonth(month: string)
      modifies this
      ensures selectedMonth == month
      ensures isCalculating == old(isCalculating) && routes == old(routes)
    {
      selectedMonth := month;
    }

    /** `handleOptimize`: `warehouses` and `enterprises` are what local
        storage holds and `server` stands for the optimizer endpoint.
        Returns the request it posted, if any, and the toast it showed. */
    method HandleOptimize(warehouses: seq<StoredWarehouse>, enterprises: seq<StoredEnterprise>,
                          server: OptimizeRequest -> Reply)
      returns (sent: Option<OptimizeRequest>, notice: Notice)
      modifies this
      ensures selectedMonth == old(selectedMonth) && !isCalculating
      ensures sent == if warehouses == [] || enterprises == [] then None
                      else RequestFor(old(selectedMonth), warehouses, enterprises)
      ensures notice == NotEnoughData <==> warehouses == [] || enterprises == []
      ensures Succeeded(sent, server) ==>
                routes == server(sent.value).routes.GetOr([]) && notice == RoutesFound(|routes|)
      ensures !Succeeded(sent, server) ==> routes == old(routes)
      ensures !Succeeded(sent, server) && warehouses != [] && enterprises != [] ==> notice == OptimizeFailed
    {
      isCalculating := true;
      sent := None;
      if |warehouses| == 0 || |enterprises| == 0 {
        notice := NotEnoughData;
        isCalculating := false;
        return;
      }
      notice := OptimizeFailed;
      var warehouseStocks := BuildWarehouses(warehouses, selectedMonth);
      if warehouseStocks.Some? {
        var enterpriseNeeds := BuildEnterprises(enterprises, selectedMonth);
        var request := OptimizeRequest(selectedMonth, warehouseStocks.value, enterpriseNeeds);
        sent := Some(request);
        var reply := server(request);
        if reply.Replied? && reply.ok {
          routes := reply.routes.GetOr([]);
          notice := RoutesFound(|routes|);
        }
      }
      isCalculating := false;
    }
  }
}
