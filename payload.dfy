/** The JSON exchanged between the route-optimization screen and the
    optimizer function: the request (one month, the warehouses with their
    stock of each product, the enterprises with their need of each product)
    and the routes that come back. */
module Payload {
  import opened Wrappers

  /** A JSON object from product name to volume whose key order matters:
      JavaScript keeps insertion order and Python iterates in that order. */
  type Entries = seq<(string, int)>

  predicate KeysDistinct(o: Entries) {
    forall i, j :: 0 <= i < j < |o| ==> o[i].0 != o[j].0
  }

  function Keys(o: Entries): (ks: set<string>)
    ensures forall i :: 0 <= i < |o| ==> o[i].0 in ks
    ensures forall k :: k in ks ==> exists i :: 0 <= i < |o| && o[i].0 == k
  {
    if o == [] then {} else {o[0].0} + Keys(o[1..])
  }

  /** `o[k]`, or None when `k` is not a key. */
  function Lookup(o: Entries, k: string): (r: Option<int>)
    ensures r.None? <==> k !in Keys(o)
    ensures KeysDistinct(o) ==> forall i :: 0 <= i < |o| && o[i].0 == k ==> r == Some(o[i].1)
  {
    if o == [] then None
    else if o[0].0 == k then Some(o[0].1)
    else Lookup(o[1..], k)
  }

  /** `o[k] = v` on a JavaScript object: an existing key keeps its place and
      takes the new value; a new key goes last. */
  function Put(o: Entries, k: string, v: int): (r: Entries)
    ensures |o| <= |r| <= |o| + 1
    ensures forall i :: 0 <= i < |o| ==> r[i].0 == o[i].0
  {
    if o == [] then [(k, v)]
    else if o[0].0 == k then [(k, v)] + o[1..]
    else [o[0]] + Put(o[1..], k, v)
  }

  /** Assigning an existing key keeps the length; a new key adds one entry. */
  lemma {:induction false} PutLength(o: Entries, k: string, v: int)
    ensures |Put(o, k, v)| == if k in Keys(o) then |o| else |o| + 1
    decreases |o|
  {
    if o != [] && o[0].0 != k {
      PutLength(o[1..], k, v);
    }
  }

  /** A key the object does not have goes last, after every existing entry. */
  lemma {:induction false} PutAppends(o: Entries, k: string, v: int)
    requires k !in Keys(o)
    ensures Put(o, k, v) == o + [(k, v)]
    decreases |o|
  {
    if o != [] {
      assert o[0].0 in Keys(o);
      PutAppends(o[1..], k, v);
      calc {
        Put(o, k, v);
        [o[0]] + Put(o[1..], k, v);
        [o[0]] + (o[1..] + [(k, v)]);
        ([o[0]] + o[1..]) + [(k, v)];
        { assert [o[0]] + o[1..] == o; }
        o + [(k, v)];
      }
    }
  }

  /** After `o[k] = v` the keys are the old ones plus `k`. */
  lemma {:induction false} PutKeys(o: Entries, k: string, v: int)
    ensures Keys(Put(o, k, v)) == Keys(o) + {k}
    decreases |o|
  {
    var r := Put(o, k, v);
    if o == [] {
      assert Keys(r) == {k} + Keys([]);
    } else if o[0].0 == k {
      assert r[1..] == o[1..];
    } else {
      PutKeys(o[1..], k, v);
      assert r[1..] == Put(o[1..], k, v);
    }
  }

  /** After `o[k] = v`, `k` reads `v` and every other key reads what it read before. */
  lemma {:induction false} PutLookup(o: Entries, k: string, v: int, key: string)
    ensures Lookup(Put(o, k, v), key) == if key == k then Some(v) else Lookup(o, key)
    decreases |o|
  {
    var r := Put(o, k, v);
    if o != [] && o[0].0 != k {
      PutLookup(o[1..], k, v, key);
      assert r[1..] == Put(o[1..], k, v);
    } else if o != [] {
      assert r[1..] == o[1..];
    }
  }

  /** In an object with distinct keys the first key does not occur again. */
  lemma HeadNotInTail(o: Entries)
    requires o != [] && KeysDistinct(o)
    ensures o[0].0 !in Keys(o[1..])
  {
    forall i | 0 <= i < |o| - 1
      ensures o[1..][i].0 != o[0].0
    {
      assert o[1..][i] == o[i + 1];
    }
  }

  /** Assignment never makes a key appear twice. */
  lemma {:induction false} PutDistinct(o: Entries, k: string, v: int)
    requires KeysDistinct(o)
    ensures KeysDistinct(Put(o, k, v))
    decreases |o|
  {
    var r := Put(o, k, v);
    if o != [] && o[0].0 == k {
      assert r == [(k, v)] + o[1..];
      assert forall i :: 0 <= i < |r| ==> r[i].0 == o[i].0;
    } else if o != [] {
      var tail := Put(o[1..], k, v);
      assert r == [o[0]] + tail;
      PutDistinct(o[1..], k, v);
      assert o[0].0 !in Keys(tail) by {
        PutKeys(o[1..], k, v);
        HeadNotInTail(o);
      }
      forall j | 0 < j < |r|
        ensures r[0].0 != r[j].0
      {
        assert r[j] == tail[j - 1];
      }
    }
  }

  /** One warehouse as sent: `stocks` maps a product to its volume in the
      selected month. The optimizer only looks stocks up, so their order is
      not kept. Coordinates may be absent (`undefined`) or null: None. */
  datatype WarehouseRequest = WarehouseRequest(
    id: int, name: string, location: string,
    lat: Option<real>, lng: Option<real>,
    stocks: map<string, int>)

  /** One enterprise as sent: `needs` in the order the products were listed. */
  datatype EnterpriseRequest = EnterpriseRequest(
    id: int, name: string, location: string,
    lat: Option<real>, lng: Option<real>,
    needs: Entries)

  datatype OptimizeRequest = OptimizeRequest(
    month: string,
    warehouses: seq<WarehouseRequest>,
    enterprises: seq<EnterpriseRequest>)

  /** One proposed delivery. `available` is the warehouse's remaining stock
      before this delivery, the figure quoted in the route's `reason` text. */
  datatype Route = Route(
    product: string, from: string, to: string,
    volume: int, distance: real, available: int)
}
