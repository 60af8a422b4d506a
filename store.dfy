/**
 * The in-memory fleet store (VehicleManagementSystem): an ordered list of vehicle
 * records that the user commands change, and the browser storage it is saved to.
 *
 * The saved copy in local storage is the ghost field `persisted`: every call of
 * saveToDatabase assigns it the current list. Rendering, dialogs and the clock are
 * outside the model; a confirmation dialog's answer is a boolean parameter and
 * every random draw or clock reading is part of an inputs parameter.
 */
module Store {
  import opened Generators
  import opened Vehicles

  datatype Option<T> = None | Some(value: T)

  /** How many demo records start-up adds to an empty store. */
  const DemoCount: nat := 5

  /** The list that loadFromDatabase leaves: the saved one, or [] when nothing is saved. */
  function Loaded(stored: Option<seq<Vehicle>>): seq<Vehicle> {
    match stored
    case Some(vs) => vs
    case None => []
  }

  class FleetStore {
    var vehicles: seq<Vehicle>
    ghost var persisted: seq<Vehicle>

    /**
     * Start-up: load what storage holds under the store's key, then seed the demo
     * records when the loaded list is empty. `demo` are the inputs the seeding would
     * consume; they are unused when the loaded list is non-empty.
     */
    constructor (stored: Option<seq<Vehicle>>, demo: seq<CreationInputs>)
      requires |demo| == DemoCount
      ensures Loaded(stored) == [] ==> vehicles == NewVehicles(demo)
      ensures Loaded(stored) != [] ==> vehicles == Loaded(stored)
      ensures persisted == vehicles
    {
      vehicles := [];
      persisted := Loaded(stored);
      new;
      if stored.Some? {
        vehicles := stored.value;
      }
      if |vehicles| == 0 {
        AddDemoVehicles(demo);
      }
    }

    /** addVehicle: append one freshly generated record and save. */
    method AddVehicle(c: CreationInputs)
      modifies this
      ensures vehicles == old(vehicles) + [NewVehicle(c)]
      ensures persisted == vehicles
    {
      vehicles := vehicles + [NewVehicle(c)];
      persisted := vehicles;
    }

    /** addDemoVehicles: addVehicle, DemoCount times. */
    method AddDemoVehicles(demo: seq<CreationInputs>)
      requires |demo| == DemoCount
      modifies this
      ensures vehicles == old(vehicles) + NewVehicles(demo)
      ensures persisted == vehicles
    {
      ghost var before := vehicles;
      for i := 0 to DemoCount
        invariant vehicles == before + NewVehicles(demo[..i])
        invariant i > 0 ==> persisted == vehicles
      {
        AddVehicle(demo[i]);
        NewVehiclesExtend(before, demo, i);
      }
      assert demo[..DemoCount] == demo;
    }

    /**
     * autoGenerateKilometers: every active lorry, in list order, travels 50..199 km
     * and gets a new map position. Returns how many records moved; the list is saved
     * only when that number is positive (otherwise the program reports that no
     * active lorry was found).
     */
    method AutoGenerateKilometers(ts: seq<TravelInputs>) returns (updated: nat)
      requires |ts| == |vehicles|
      modifies this
      ensures vehicles == TravelAll(old(vehicles), ts)
      ensures updated == CountActiveLorries(old(vehicles))
      ensures updated > 0 ==> persisted == vehicles
      ensures updated == 0 ==> persisted == old(persisted) && vehicles == old(vehicles)
    {
      ghost var before := vehicles;
      updated := 0;
      var i := 0;
      while i < |vehicles|
        invariant 0 <= i <= |vehicles| == |before|
        invariant vehicles == TravelAll(before[..i], ts[..i]) + before[i..]
        invariant updated == CountActiveLorries(before[..i])
        invariant persisted == old(persisted)
      {
        ghost var done, step := TravelAll(before[..i], ts[..i]), TravelStep(before[i], ts[i]);
        TravelPrefixStep(before, ts, i);
        ReplaceAfterPrefix(done, before[i..], step);
        var v := vehicles[i];
        if v.status == Active && v.vehicleType == Lorry {
          var additionalKm := Draw(50, 150, ts[i].distance);
          v := v.(kilometers := v.kilometers + additionalKm);
          v := v.(position := RandomPosition(ts[i].posX, ts[i].posY));
          vehicles := vehicles[i := v];
          updated := updated + 1;
        }
        assert v == step;
        assert vehicles == done + [step] + before[i + 1..] by {
          assert before[i..][1..] == before[i + 1..];
        }
        i := i + 1;
      }
      assert vehicles == TravelAll(before, ts) by {
        assert before[..i] == before;
        assert ts[..i] == ts;
      }
      assert updated == CountActiveLorries(before) by {
        assert before[..i] == before;
      }
      if updated > 0 {
        persisted := vehicles;
      } else {
        TravelNoActiveLorry(before, ts);
      }
    }

    /**
     * deleteVehicle: when the user confirms, keep every record whose id differs from
     * `id` and save, even when no record carried it. When the user declines nothing
     * changes.
     */
    method DeleteVehicle(id: string, confirmed: bool)
      modifies this
      ensures confirmed ==> vehicles == WithoutId(old(vehicles), id) && persisted == vehicles
      ensures !confirmed ==> vehicles == old(vehicles) && persisted == old(persisted)
      ensures confirmed && NoRecordWithId(old(vehicles), id) ==>
        vehicles == old(vehicles) && persisted == vehicles
    {
      if confirmed {
        WithoutUnknownId(vehicles, id);
        vehicles := WithoutId(vehicles, id);
        persisted := vehicles;
      }
    }
  }
}
