/**
 * The four figures updateStatistics shows, and how the store's operations move them.
 */
module Statistics {
  import opened Generators
  import opened Vehicles

  /** Records whose status is Active, whatever their type. */
  function CountActive(vs: seq<Vehicle>): nat {
    if vs == [] then 0
    else CountActive(vs[..|vs| - 1]) + (if vs[|vs| - 1].status == Active then 1 else 0)
  }

  /** `vehicles.reduce((sum, v) => sum + v.kilometers, 0)`, a left fold. */
  function TotalKilometers(vs: seq<Vehicle>): int {
    if vs == [] then 0 else TotalKilometers(vs[..|vs| - 1]) + vs[|vs| - 1].kilometers
  }

  datatype Stats = Stats(
    totalVehicles: nat,
    activeVehicles: nat,
    totalKilometers: int,
    avgKilometers: int)

  lemma {:induction false} CountActiveBound(vs: seq<Vehicle>)
    ensures CountActive(vs) <= |vs|
    ensures CountActiveLorries(vs) <= CountActive(vs)
  {
    if vs != [] {
      CountActiveBound(vs[..|vs| - 1]);
    }
  }

  /**
   * updateStatistics, its computing part. The average is the total divided by the
   * count and rounded down (`Math.floor`), and 0 for an empty list.
   */
  function ComputeStats(vs: seq<Vehicle>): (s: Stats)
    ensures s.totalVehicles == |vs|
    ensures s.activeVehicles == CountActive(vs) <= s.totalVehicles
    ensures s.totalKilometers == TotalKilometers(vs)
    ensures |vs| == 0 ==> s.avgKilometers == 0
    ensures |vs| > 0 ==>
      s.avgKilometers * |vs| <= s.totalKilometers < (s.avgKilometers + 1) * |vs|
  {
    CountActiveBound(vs);
    var total := TotalKilometers(vs);
    // For a positive divisor Dafny's `/` rounds down, as Math.floor does.
    var avg := if |vs| > 0 then total / |vs| else 0;
    Stats(|vs|, CountActive(vs), total, avg)
  }

  /** No record has negative kilometers, so neither does the total. */
  lemma {:induction false} TotalKilometersNonNegative(vs: seq<Vehicle>)
    requires AllWellFormed(vs)
    ensures TotalKilometers(vs) >= 0
    ensures ComputeStats(vs).avgKilometers >= 0
  {
    if vs != [] {
      TotalKilometersNonNegative(vs[..|vs| - 1]);
    }
  }

  lemma {:induction false} TotalKilometersAppend(a: seq<Vehicle>, b: seq<Vehicle>)
    ensures TotalKilometers(a + b) == TotalKilometers(a) + TotalKilometers(b)
  {
    if b == [] {
      assert a + b == a;
    } else {
      var n := |b| - 1;
      TotalKilometersAppend(a, b[..n]);
      assert (a + b)[..|a + b| - 1] == a + b[..n];
    }
  }

  lemma {:induction false} CountActiveAppend(a: seq<Vehicle>, b: seq<Vehicle>)
    ensures CountActive(a + b) == CountActive(a) + CountActive(b)
  {
    if b == [] {
      assert a + b == a;
    } else {
      var n := |b| - 1;
      CountActiveAppend(a, b[..n]);
      assert (a + b)[..|a + b| - 1] == a + b[..n];
    }
  }

  /** Adding a record adds one vehicle and its kilometers, and one Active if it is Active. */
  lemma AddStats(vs: seq<Vehicle>, v: Vehicle)
    ensures ComputeStats(vs + [v]).totalVehicles == ComputeStats(vs).totalVehicles + 1
    ensures ComputeStats(vs + [v]).totalKilometers == ComputeStats(vs).totalKilometers + v.kilometers
    ensures ComputeStats(vs + [v]).activeVehicles
         == ComputeStats(vs).activeVehicles + (if v.status == Active then 1 else 0)
  {
    assert (vs + [v])[..|vs|] == vs;
  }

  /**
   * Deleting an id removes exactly the kilometers of the records carrying it; the
   * vehicle count drops by their number.
   */
  lemma {:induction false} DeleteStats(vs: seq<Vehicle>, id: string)
    ensures TotalKilometers(WithoutId(vs, id)) + TotalKilometers(WithId(vs, id)) == TotalKilometers(vs)
    ensures ComputeStats(WithoutId(vs, id)).totalVehicles + |WithId(vs, id)| == |vs|
  {
    WithoutIdPartition(vs, id);
    if vs != [] {
      var n := |vs| - 1;
      DeleteStats(vs[..n], id);
      var kept := if vs[n].id != id then [vs[n]] else [];
      var dropped := if vs[n].id == id then [vs[n]] else [];
      TotalKilometersAppend(WithoutId(vs[..n], id), kept);
      TotalKilometersAppend(WithId(vs[..n], id), dropped);
    }
  }

  /** A trip changes no status, so the Active count stays. */
  lemma {:induction false} TravelKeepsActiveCount(vs: seq<Vehicle>, ts: seq<TravelInputs>)
    requires |ts| == |vs|
    ensures CountActive(TravelAll(vs, ts)) == CountActive(vs)
  {
    if vs != [] {
      var n := |vs| - 1;
      TravelKeepsActiveCount(vs[..n], ts[..n]);
      TravelAllLength(vs, ts);
      assert TravelAll(vs, ts)[..n] == TravelAll(vs[..n], ts[..n]);
    }
  }

  /** A trip raises the total by 50 to 199 km for each record it moves. */
  lemma {:induction false} TravelAddsKilometers(vs: seq<Vehicle>, ts: seq<TravelInputs>)
    requires |ts| == |vs|
    ensures 50 * CountActiveLorries(vs)
         <= TotalKilometers(TravelAll(vs, ts)) - TotalKilometers(vs)
         <= 199 * CountActiveLorries(vs)
  {
    if vs != [] {
      var n := |vs| - 1;
      TravelAddsKilometers(vs[..n], ts[..n]);
      TravelAllLength(vs, ts);
      var ws := TravelAll(vs, ts);
      assert ws[..n] == TravelAll(vs[..n], ts[..n]);
      assert ws[n] == TravelStep(vs[n], ts[n]);
    }
  }

  /** The figures after a trip: same counts, total raised by 50..199 km per moved record. */
  lemma TravelStats(vs: seq<Vehicle>, ts: seq<TravelInputs>)
    requires |ts| == |vs|
    ensures ComputeStats(TravelAll(vs, ts)).totalVehicles == |vs|
    ensures ComputeStats(TravelAll(vs, ts)).activeVehicles == CountActive(vs)
    ensures 50 * CountActiveLorries(vs)
         <= ComputeStats(TravelAll(vs, ts)).totalKilometers - ComputeStats(vs).totalKilometers
         <= 199 * CountActiveLorries(vs)
  {
    TravelAllLength(vs, ts);
    TravelKeepsActiveCount(vs, ts);
    TravelAddsKilometers(vs, ts);
  }
}
