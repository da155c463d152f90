/** The vehicle fleet panel: the list of vehicles and the id picked for
    deletion in the confirmation dialog. */
module VehiclePanel {
  import opened Wrappers

  datatype Status = Active | Maintenance

  /** One vehicle of the fleet. */
  datatype Vehicle = Vehicle(
    id: int,
    brand: string,
    trailerType: string,
    volume: int,
    productTypes: seq<string>,
    enterprise: string,
    schedule: string,
    status: Status)

  /** `vehicles.filter((v) => v.id !== id)`. */
  function WithoutId(vehicles: seq<Vehicle>, id: int): (r: seq<Vehicle>)
    ensures |r| <= |vehicles|
    ensures forall v :: v in r <==> v in vehicles && v.id != id
  {
    if vehicles == [] then []
    else (if vehicles[0].id == id then [] else [vehicles[0]]) + WithoutId(vehicles[1..], id)
  }

  /** Filtering keeps the relative order: it distributes over concatenation. */
  lemma {:induction false} WithoutIdDistributes(a: seq<Vehicle>, b: seq<Vehicle>, id: int)
    ensures WithoutId(a + b, id) == WithoutId(a, id) + WithoutId(b, id)
    decreases |a|
  {
    if a != [] {
      assert (a + b)[1..] == a[1..] + b;
      WithoutIdDistributes(a[1..], b, id);
    } else {
      assert a + b == b;
    }
  }

  /** Every vehicle whose id differs is kept, so a list without that id is
      left as it is. */
  lemma {:induction false} WithoutAbsentId(vehicles: seq<Vehicle>, id: int)
    requires forall v :: v in vehicles ==> v.id != id
    ensures WithoutId(vehicles, id) == vehicles
    decreases |vehicles|
  {
    if vehicles != [] {
      WithoutAbsentId(vehicles[1..], id);
    }
  }

  /** Exactly the vehicles carrying `id` are removed: the count drops by
      their number. */
  lemma {:induction false} WithoutIdCount(vehicles: seq<Vehicle>, id: int)
    ensures |WithoutId(vehicles, id)| == |vehicles| - |CarryingId(vehicles, id)|
    decreases |vehicles|
  {
    if vehicles != [] {
      WithoutIdCount(vehicles[1..], id);
    }
  }

  /** The vehicles whose id is `id`, in order. */
  function CarryingId(vehicles: seq<Vehicle>, id: int): seq<Vehicle> {
    if vehicles == [] then []
    else (if vehicles[0].id == id then [vehicles[0]] else []) + CarryingId(vehicles[1..], id)
  }

  class Panel {
    var vehicles: seq<Vehicle>
    /** The id awaiting confirmation; null when the dialog is closed. */
    var deleteId: Option<int>

    constructor (vehicles: seq<Vehicle>)
      ensures this.vehicles == vehicles && deleteId == None
    {
      this.vehicles := vehicles;
      deleteId := None;
    }

    /** Opens the confirmation dialog for one vehicle. */
    method AskDelete(id: int)
      modifies this
      ensures deleteId == Some(id) && vehicles == old(vehicles)
    {
      deleteId := Some(id);
    }

    /** Closing the confirmation dialog forgets the pending id. */
    method CancelDelete()
      modifies this
      ensures deleteId == None && vehicles == old(vehicles)
    {
      deleteId := None;
    }

    /** `handleDelete`: with a truthy id pending, drops every vehicle with that
      id, reports it, and closes the dialog; with null or 0 pending, nothing
      happens at all. */
    method HandleDelete() returns (notified: bool)
      modifies this
      ensures notified <==> old(deleteId).Some? && old(deleteId).value != 0
      ensures notified ==> vehicles == WithoutId(old(vehicles), old(deleteId).value) && deleteId == None
      ensures !notified ==> vehicles == old(vehicles) && deleteId == old(deleteId)
    {
      notified := false;
      if deleteId.Some? && deleteId.value != 0 {
        vehicles := WithoutId(vehicles, deleteId.value);
        notified := true;
        deleteId := None;
      }
    }
  }
}
