/**
 * Vehicle records and the pure parts of the store's operations: building a new
 * record, moving one record on a simulated trip, the trip over the whole list and
 * the delete filter.
 *
 * Lists are processed from the front, one record at a time, as `forEach` and
 * `filter` do; the recursive definitions below therefore peel off the LAST
 * record, so that a loop's prefix unfolds one step at a time.
 */
module Vehicles {
  import opened Generators

  const Lorry: string := "Lorry"

  /** A vehicle record as the program stores it (`type` is `vehicleType` here). */
  datatype Vehicle = Vehicle(
    id: string,
    vehicleType: string,
    licensePlate: string,
    kilometers: int,
    status: string,
    position: Position,
    timestamp: string)

  /** What a freshly generated record satisfies; travel and deletion keep it. */
  predicate WellFormed(v: Vehicle) {
    && IsVehicleId(v.id)
    && v.vehicleType == Lorry
    && IsLicensePlate(v.licensePlate)
    && v.kilometers >= 0
    && IsStatus(v.status)
    && InMapRange(v.position)
  }

  predicate AllWellFormed(vs: seq<Vehicle>) {
    forall i :: 0 <= i < |vs| ==> WellFormed(vs[i])
  }

  lemma AppendKeepsWellFormed(a: seq<Vehicle>, b: seq<Vehicle>)
    ensures AllWellFormed(a) && AllWellFormed(b) ==> AllWellFormed(a + b)
  {
    if AllWellFormed(a) && AllWellFormed(b) {
      forall i | 0 <= i < |a + b|
        ensures WellFormed((a + b)[i])
      {
        if i >= |a| {
          assert (a + b)[i] == b[i - |a|];
        }
      }
    }
  }

  /**
   * The outside inputs of one addVehicle: its nine `Math.random()` values, in the
   * order the program draws them, and the clock reading used as the timestamp.
   */
  datatype CreationInputs = CreationInputs(
    posX: RandomValue, posY: RandomValue,
    idDigits: RandomValue,
    plateDigits: RandomValue, letter1: RandomValue, letter2: RandomValue, letter3: RandomValue,
    kilometers: RandomValue,
    status: RandomValue,
    timestamp: string)

  /** The record addVehicle builds. */
  function NewVehicle(c: CreationInputs): (v: Vehicle)
    ensures WellFormed(v)
    ensures 0 <= v.kilometers <= 49999
    ensures v.timestamp == c.timestamp
  {
    Vehicle(
      GenerateVehicleId(c.idDigits),
      Lorry,
      GenerateLicensePlate(c.plateDigits, c.letter1, c.letter2, c.letter3),
      Draw(0, 50000, c.kilometers),
      RandomStatus(c.status),
      RandomPosition(c.posX, c.posY),
      c.timestamp)
  }

  /** `f` applied to each element, front to back: what a loop of appends builds. */
  function MapInOrder<A, B>(f: A -> B, xs: seq<A>): (ys: seq<B>)
    ensures |ys| == |xs|
  {
    if xs == [] then [] else MapInOrder(f, xs[..|xs| - 1]) + [f(xs[|xs| - 1])]
  }

  lemma {:induction false} MapInOrderAt<A, B>(f: A -> B, xs: seq<A>, i: nat)
    requires i < |xs|
    ensures MapInOrder(f, xs)[i] == f(xs[i])
  {
    var n := |xs| - 1;
    if i < n {
      MapInOrderAt(f, xs[..n], i);
      assert xs[..n][i] == xs[i];
    }
  }

  /** Mapping one more element appends its image, also after any fixed prefix `ys`. */
  lemma MapInOrderExtend<A, B>(f: A -> B, ys: seq<B>, xs: seq<A>, i: nat)
    requires i < |xs|
    ensures ys + MapInOrder(f, xs[..i]) + [f(xs[i])] == ys + MapInOrder(f, xs[..i + 1])
  {
    assert xs[..i + 1][..i] == xs[..i];
    assert ys + MapInOrder(f, xs[..i]) + [f(xs[i])] == ys + (MapInOrder(f, xs[..i]) + [f(xs[i])]);
  }

  /** The records that repeated addVehicle calls append, in order. */
  function NewVehicles(cs: seq<CreationInputs>): (vs: seq<Vehicle>)
    ensures |vs| == |cs|
  {
    MapInOrder(NewVehicle, cs)
  }

  /** One more addVehicle appends the next generated record. */
  lemma NewVehiclesExtend(vs: seq<Vehicle>, cs: seq<CreationInputs>, i: nat)
    requires i < |cs|
    ensures vs + NewVehicles(cs[..i]) + [NewVehicle(cs[i])] == vs + NewVehicles(cs[..i + 1])
  {
    MapInOrderExtend(NewVehicle, vs, cs, i);
  }

  /** The i-th appended record is the one built from the i-th inputs. */
  lemma NewVehiclesAt(cs: seq<CreationInputs>, i: nat)
    requires i < |cs|
    ensures NewVehicles(cs)[i] == NewVehicle(cs[i])
  {
    MapInOrderAt(NewVehicle, cs, i);
  }

  /** Every generated record is well formed, and has at most 49999 km. */
  lemma NewVehiclesWellFormed(cs: seq<CreationInputs>)
    ensures AllWellFormed(NewVehicles(cs))
    ensures forall i :: 0 <= i < |cs| ==> NewVehicles(cs)[i].kilometers <= 49999
  {
    forall i | 0 <= i < |cs|
      ensures WellFormed(NewVehicles(cs)[i]) && NewVehicles(cs)[i].kilometers <= 49999
    {
      NewVehiclesAt(cs, i);
    }
  }

  // ---------------------------------------------------------------------------
  // Simulated travel

  /** The three `Math.random()` values one moving record consumes: distance, x, y. */
  datatype TravelInputs = TravelInputs(distance: RandomValue, posX: RandomValue, posY: RandomValue)

  /** Only records whose status is Active and whose type is Lorry travel. */
  predicate IsActiveLorry(v: Vehicle) {
    v.status == Active && v.vehicleType == Lorry
  }

  /** The effect of the trip on one record: it travels exactly when it is an active lorry. */
  function TravelStep(v: Vehicle, t: TravelInputs): (w: Vehicle)
    ensures w.id == v.id && w.vehicleType == v.vehicleType && w.licensePlate == v.licensePlate
    ensures w.status == v.status && w.timestamp == v.timestamp
    ensures IsActiveLorry(v) ==> 50 <= w.kilometers - v.kilometers <= 199 && InMapRange(w.position)
    ensures !IsActiveLorry(v) ==> w == v
  {
    if IsActiveLorry(v) then
      v.(kilometers := v.kilometers + Draw(50, 150, t.distance),
         position := RandomPosition(t.posX, t.posY))
    else
      v
  }

  /** The list after autoGenerateKilometers, record i using the inputs ts[i]. */
  function TravelAll(vs: seq<Vehicle>, ts: seq<TravelInputs>): (ws: seq<Vehicle>)
    requires |ts| == |vs|
  {
    if vs == [] then []
    else TravelAll(vs[..|vs| - 1], ts[..|ts| - 1]) + [TravelStep(vs[|vs| - 1], ts[|ts| - 1])]
  }

  /** The number of records the trip moves. */
  function CountActiveLorries(vs: seq<Vehicle>): nat {
    if vs == [] then 0
    else CountActiveLorries(vs[..|vs| - 1]) + (if IsActiveLorry(vs[|vs| - 1]) then 1 else 0)
  }

  /**
   * The trip keeps the list's length and order and each record's identity, type,
   * plate, status and timestamp; an active lorry gains 50..199 km and a new position
   * in range; every other record is left exactly as it was.
   */
  lemma {:induction false} TravelAllAt(vs: seq<Vehicle>, ts: seq<TravelInputs>, i: int)
    requires |ts| == |vs|
    requires 0 <= i < |vs|
    ensures |TravelAll(vs, ts)| == |vs|
    ensures var w, v := TravelAll(vs, ts)[i], vs[i];
      && w.id == v.id && w.vehicleType == v.vehicleType && w.licensePlate == v.licensePlate
      && w.status == v.status && w.timestamp == v.timestamp
      && (IsActiveLorry(v) ==> 50 <= w.kilometers - v.kilometers <= 199 && InMapRange(w.position))
      && (!IsActiveLorry(v) ==> w == v)
  {
    TravelAllLength(vs, ts);
    var n := |vs| - 1;
    if i < n {
      TravelAllAt(vs[..n], ts[..n], i);
    }
  }

  lemma {:induction false} TravelAllLength(vs: seq<Vehicle>, ts: seq<TravelInputs>)
    requires |ts| == |vs|
    ensures |TravelAll(vs, ts)| == |vs|
  {
    if vs != [] {
      TravelAllLength(vs[..|vs| - 1], ts[..|ts| - 1]);
    }
  }

  /** Overwriting the first record after a processed prefix. */
  lemma ReplaceAfterPrefix(done: seq<Vehicle>, rest: seq<Vehicle>, v: Vehicle)
    requires rest != []
    ensures (done + rest)[|done|] == rest[0]
    ensures (done + rest)[|done| := v] == done + [v] + rest[1..]
  {
  }

  /** Going one record further in list order: the trip and the count each take one step. */
  lemma TravelPrefixStep(vs: seq<Vehicle>, ts: seq<TravelInputs>, i: nat)
    requires |ts| == |vs| && i < |vs|
    ensures |TravelAll(vs[..i], ts[..i])| == i
    ensures TravelAll(vs[..i + 1], ts[..i + 1]) == TravelAll(vs[..i], ts[..i]) + [TravelStep(vs[i], ts[i])]
    ensures CountActiveLorries(vs[..i + 1])
         == CountActiveLorries(vs[..i]) + (if IsActiveLorry(vs[i]) then 1 else 0)
  {
    TravelAllLength(vs[..i], ts[..i]);
    assert vs[..i + 1][..i] == vs[..i];
    assert ts[..i + 1][..i] == ts[..i];
  }

  /** Kilometers never decrease on a trip. */
  lemma TravelNeverDecreases(vs: seq<Vehicle>, ts: seq<TravelInputs>)
    requires |ts| == |vs|
    ensures |TravelAll(vs, ts)| == |vs|
    ensures forall i :: 0 <= i < |vs| ==> TravelAll(vs, ts)[i].kilometers >= vs[i].kilometers
  {
    TravelAllLength(vs, ts);
    forall i | 0 <= i < |vs|
      ensures TravelAll(vs, ts)[i].kilometers >= vs[i].kilometers
    {
      TravelAllAt(vs, ts, i);
    }
  }

  /** A trip keeps every record well formed. */
  lemma TravelKeepsWellFormed(vs: seq<Vehicle>, ts: seq<TravelInputs>)
    requires |ts| == |vs|
    ensures AllWellFormed(vs) ==> AllWellFormed(TravelAll(vs, ts))
  {
    TravelAllLength(vs, ts);
    if AllWellFormed(vs) {
      forall i | 0 <= i < |vs|
        ensures WellFormed(TravelAll(vs, ts)[i])
      {
        TravelAllAt(vs, ts, i);
      }
    }
  }

  /** With no active lorry in the list, a trip changes nothing. */
  lemma {:induction false} TravelNoActiveLorry(vs: seq<Vehicle>, ts: seq<TravelInputs>)
    requires |ts| == |vs|
    requires CountActiveLorries(vs) == 0
    ensures TravelAll(vs, ts) == vs
  {
    if vs != [] {
      var n := |vs| - 1;
      TravelNoActiveLorry(vs[..n], ts[..n]);
      assert vs == vs[..n] + [vs[n]];
    }
  }

  /** A trip moves no record's status or type, so a second trip moves the same records. */
  lemma {:induction false} TravelKeepsActiveLorryCount(vs: seq<Vehicle>, ts: seq<TravelInputs>)
    requires |ts| == |vs|
    ensures CountActiveLorries(TravelAll(vs, ts)) == CountActiveLorries(vs)
  {
    if vs != [] {
      var n := |vs| - 1;
      TravelKeepsActiveLorryCount(vs[..n], ts[..n]);
      var ws := TravelAll(vs, ts);
      TravelAllLength(vs, ts);
      assert ws[..n] == TravelAll(vs[..n], ts[..n]);
    }
  }

  // ---------------------------------------------------------------------------
  // The delete filter: `vehicles.filter(v => v.id !== id)`

  function WithoutId(vs: seq<Vehicle>, id: string): (ws: seq<Vehicle>) {
    if vs == [] then []
    else WithoutId(vs[..|vs| - 1], id) + (if vs[|vs| - 1].id != id then [vs[|vs| - 1]] else [])
  }

  /** The records the filter drops, in order. */
  function WithId(vs: seq<Vehicle>, id: string): (ws: seq<Vehicle>) {
    if vs == [] then []
    else WithId(vs[..|vs| - 1], id) + (if vs[|vs| - 1].id == id then [vs[|vs| - 1]] else [])
  }

  /** A record survives the filter exactly when it was in the list and has another id. */
  lemma {:induction false} WithoutIdMembers(vs: seq<Vehicle>, id: string, v: Vehicle)
    ensures v in WithoutId(vs, id) <==> v in vs && v.id != id
  {
    if vs != [] {
      var n := |vs| - 1;
      WithoutIdMembers(vs[..n], id, v);
      assert vs == vs[..n] + [vs[n]];
    }
  }

  /** The filter works record by record: it distributes over concatenation (order is kept). */
  lemma {:induction false} WithoutIdAppend(a: seq<Vehicle>, b: seq<Vehicle>, id: string)
    ensures WithoutId(a + b, id) == WithoutId(a, id) + WithoutId(b, id)
  {
    if b == [] {
      assert a + b == a;
    } else {
      var n := |b| - 1;
      WithoutIdAppend(a, b[..n], id);
      assert (a + b)[..|a + b| - 1] == a + b[..n];
    }
  }

  /** No record in the list carries `id`. */
  predicate NoRecordWithId(vs: seq<Vehicle>, id: string) {
    forall i :: 0 <= i < |vs| ==> vs[i].id != id
  }

  /** Deleting an id no record carries leaves the list exactly as it was. */
  lemma {:induction false} WithoutUnknownId(vs: seq<Vehicle>, id: string)
    ensures NoRecordWithId(vs, id) ==> WithoutId(vs, id) == vs
  {
    if vs != [] && NoRecordWithId(vs, id) {
      var n := |vs| - 1;
      var prefix := vs[..n];
      assert NoRecordWithId(prefix, id);
      WithoutUnknownId(prefix, id);
      assert vs == prefix + [vs[n]];
    }
  }

  /** Deleting the same id twice is the same as deleting it once. */
  lemma {:induction false} WithoutIdIdempotent(vs: seq<Vehicle>, id: string)
    ensures WithoutId(WithoutId(vs, id), id) == WithoutId(vs, id)
  {
    if vs != [] {
      var n := |vs| - 1;
      WithoutIdIdempotent(vs[..n], id);
      var last := if vs[n].id != id then [vs[n]] else [];
      WithoutIdAppend(WithoutId(vs[..n], id), last, id);
    }
  }

  /** Every record either stays or is dropped: the two parts' sizes add up. */
  lemma {:induction false} WithoutIdPartition(vs: seq<Vehicle>, id: string)
    ensures |WithoutId(vs, id)| + |WithId(vs, id)| == |vs|
    ensures forall i :: 0 <= i < |WithId(vs, id)| ==> WithId(vs, id)[i].id == id
  {
    if vs != [] {
      var n := |vs| - 1;
      WithoutIdPartition(vs[..n], id);
      assert vs == vs[..n] + [vs[n]];
    }
  }

  /** The kept and the dropped records together are exactly the records of the list. */
  lemma {:induction false} WithoutIdSplitsMultiset(vs: seq<Vehicle>, id: string)
    ensures multiset(WithoutId(vs, id)) + multiset(WithId(vs, id)) == multiset(vs)
  {
    if vs != [] {
      var n := |vs| - 1;
      var kept, dropped := WithoutId(vs[..n], id), WithId(vs[..n], id);
      WithoutIdSplitsMultiset(vs[..n], id);
      assert multiset(vs) == multiset(vs[..n]) + multiset{vs[n]} by {
        assert vs == vs[..n] + [vs[n]];
      }
      if vs[n].id != id {
        assert WithoutId(vs, id) == kept + [vs[n]];
        assert WithId(vs, id) == dropped;
      } else {
        assert WithoutId(vs, id) == kept;
        assert WithId(vs, id) == dropped + [vs[n]];
      }
    }
  }

  /** Deleting keeps every remaining record well formed. */
  lemma WithoutIdKeepsWellFormed(vs: seq<Vehicle>, id: string)
    requires AllWellFormed(vs)
    ensures AllWellFormed(WithoutId(vs, id))
  {
    var ws := WithoutId(vs, id);
    forall i | 0 <= i < |ws|
      ensures WellFormed(ws[i])
    {
      WithoutIdMembers(vs, id, ws[i]);
    }
  }
}
