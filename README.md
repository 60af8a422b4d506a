# Fleet store of the vehicle management system

This project models the in-memory fleet store of a browser-based vehicle tracker
(class `VehicleManagementSystem` in `app.js`). The store is an ordered list of vehicle
records. The user can add a vehicle, simulate travel for every active lorry, and
delete a vehicle by id after confirming. Start-up seeds five demo records when storage
holds no vehicles. The statistics panel shows four figures derived from the list.
Every change is saved to the browser's local storage.

The model has four modules:

- `Generators` (`generators.dfy`): the random generators for ids (`LRY-` and a number
  in 1000..9999), licence plates (three capital letters, `-`, four digits), statuses
  and map positions. Each `Math.random()` result is a parameter of type `RandomValue`,
  a real number in [0, 1). The program's `Math.floor(lo + r * span)` is applied to it
  (`Draw`). The ranges are proved from that expression, and the `...Covers` and
  `DrawReaches` lemmas show that every value in each range can actually be drawn.
- `Vehicles` (`vehicles.dfy`): the record type, the record that `addVehicle` builds,
  the effect of simulated travel on the list (`TravelAll`) and the delete filter
  (`WithoutId`), with lemmas about each. The invariant `WellFormed` holds for every
  generated record, and travel and deletion keep it.
- `Statistics` (`statistics.dfy`): the four figures (`ComputeStats`) and how adding,
  deleting and travelling change them.
- `Store` (`store.dfy`): the class `FleetStore`. Its field `vehicles` is the list. Its
  ghost field `persisted` is the saved copy in local storage, and it is assigned the
  list wherever the program saves. The constructor performs loading and seed-if-empty.
  The methods are `AddVehicle`, `AddDemoVehicles`, `AutoGenerateKilometers` (a loop
  that updates records in list order and counts them) and `DeleteVehicle`.

The model follows the code on these points, where a natural reading of the
program's purpose might expect otherwise:

- Travel moves records whose status is `Active` **and** whose type is `Lorry`
  (app.js:96), not every Active record.
- The travel increment is 50..199 km and positions are 10..89 percent. The
  expressions `Math.floor(50 + r * 150)` and `Math.floor(10 + r * 80)` are half-open,
  so 200 and 90 never occur.
- The initial odometer reading is 0..49999.
- `deleteVehicle` returns nothing. With confirmation it saves even when no record
  carries the id (app.js:121-122). Declining changes nothing and saves nothing.
- Deletion removes **every** record carrying the id. Ids are drawn from only 9000
  values and are not checked for uniqueness, so duplicates are possible.

## Model

| member | source | states |
|---|---|---|
| `Generators.Draw` | app.js:59-60 | `Math.floor(lo + r * span)` with `r` in [0, 1) lies in `lo .. lo + span - 1` |
| `Generators.DrawReaches` | app.js:98 | every integer of the half-open range is produced by some `Math.random()` value, so the range is exact |
| `Generators.Decimal` | app.js:40 | the template literal renders a number as a non-empty string of digits |
| `Generators.DecimalRoundTrip` | app.js:40 | reading back the rendered digits gives the number |
| `Generators.FourDigits` | app.js:40 | a number in 1000..9999 renders as exactly four digits with no leading zero |
| `Generators.GenerateVehicleId` | app.js:39-41 | the id is `LRY-` and four digits without leading zero, and the digits read back as the drawn number |
| `Generators.RandomLetter` | app.js:46-48 | `letters.charAt(floor(r * 26))` is a capital letter |
| `Generators.GenerateLicensePlate` | app.js:43-50 | the plate is three capital letters, `-`, then four digits without leading zero, and the digits read back as the drawn number |
| `Generators.RandomStatus` | app.js:52-55 | the drawn status is Active, Inactive or Maintenance |
| `Generators.RandomStatusCovers` | app.js:53-54 | each of the three statuses can be drawn |
| `Generators.RandomPosition` | app.js:57-62 | both coordinates lie in 10..89 percent |
| `Generators.RandomPositionCovers` | app.js:59-60 | every position in the 10..89 square can be drawn |
| `Vehicles.NewVehicle` | app.js:65-75 | a new record is well formed: valid id and plate, type Lorry, a status from the three, a position in range, kilometers in 0..49999, and the given timestamp |
| `Vehicles.NewVehicles` | app.js:85-90 | repeated creation yields one record per set of inputs, built front to back with the generic `MapInOrder`; `NewVehiclesAt` pins down each record |
| `Vehicles.NewVehiclesExtend` | app.js:87-89 | one more `addVehicle` appends the next generated record at the end |
| `Vehicles.NewVehiclesAt` | app.js:85-90 | the i-th record the seeding appends is the record built from the i-th inputs, so the records are appended in input order |
| `Vehicles.NewVehiclesWellFormed` | app.js:65-75 | every seeded record is well formed and has at most 49999 km |
| `Vehicles.AppendKeepsWellFormed` | app.js:77 | appending well-formed records to a well-formed list keeps it well formed |
| `Vehicles.IsActiveLorry` | app.js:96 | the travel test: status `Active` and type `Lorry`; no contract of its own, it is the condition in `TravelStep`, `TravelAllAt` and `CountActiveLorries` |
| `Vehicles.TravelStep` | app.js:96-104 | an active lorry keeps id, type, plate, status and timestamp, gains 50..199 km and gets a position in range; any other record is unchanged |
| `Vehicles.TravelAll` | app.js:95-105 | the list after the `forEach`: each record passed through `TravelStep` with its own inputs, in order; characterised by `TravelAllLength`, `TravelAllAt` and `TravelPrefixStep`, and proved equal to the loop of `AutoGenerateKilometers` |
| `Vehicles.CountActiveLorries` | app.js:94-104 | the final value of the `updated` counter: the number of active lorries; `TravelPrefixStep` proves it grows by one exactly at each active lorry, and `AutoGenerateKilometers` returns it |
| `Vehicles.TravelAllLength` | app.js:95-105 | travel keeps the list's length |
| `Vehicles.TravelAllAt` | app.js:95-105 | record i after travel is record i before, moved exactly when it is an active lorry |
| `Vehicles.TravelPrefixStep` | app.js:95-105 | processing one more record in list order extends the travelled prefix by that record's step and the count by one exactly when it is an active lorry |
| `Vehicles.TravelNeverDecreases` | app.js:99 | no record's kilometers decrease |
| `Vehicles.TravelKeepsWellFormed` | app.js:95-105 | travel keeps every record well formed |
| `Vehicles.TravelNoActiveLorry` | app.js:95-105 | with no active lorry in the list, a trip leaves every record as it was |
| `Vehicles.TravelKeepsActiveLorryCount` | app.js:96 | travel changes no status or type, so the number of active lorries is unchanged |
| `Vehicles.WithoutId` | app.js:121 | `filter(v => v.id !== id)`: the records whose id differs, in order; characterised by `WithoutIdMembers` (membership, both directions), `WithoutIdAppend` (order) and `WithoutIdSplitsMultiset` |
| `Vehicles.WithoutIdMembers` | app.js:121 | a record is kept exactly when it was in the list and its id differs from the argument |
| `Vehicles.WithoutIdAppend` | app.js:121 | the filter distributes over concatenation, so relative order is kept |
| `Vehicles.WithoutUnknownId` | app.js:121 | filtering by an id that no record carries returns the list unchanged |
| `Vehicles.WithoutIdIdempotent` | app.js:121 | deleting the same id twice equals deleting it once |
| `Vehicles.WithoutIdPartition` | app.js:121 | the numbers of kept and dropped records add up to the list's length, and every dropped record carries the id |
| `Vehicles.WithoutIdSplitsMultiset` | app.js:121 | the kept and the dropped records together are exactly the records of the list (as multisets) |
| `Vehicles.WithoutIdKeepsWellFormed` | app.js:121 | deletion keeps every remaining record well formed |
| `Statistics.CountActive` | app.js:183 | `filter(v => v.status === 'Active').length`: the number of records with status Active, whatever their type; bounded by `CountActiveBound` and additive by `CountActiveAppend` |
| `Statistics.TotalKilometers` | app.js:184 | the `reduce` sum of the kilometers from 0, a left fold; additive by `TotalKilometersAppend` and non-negative on well-formed lists by `TotalKilometersNonNegative` |
| `Statistics.CountActiveBound` | app.js:183 | active lorries are at most the Active records, which are at most all records |
| `Statistics.ComputeStats` | app.js:181-185 | total = length, active = Active count (no type check), total km = sum, and average = floor(total km / count), i.e. `avg * count <= totalKm < (avg + 1) * count`, or 0 for an empty list |
| `Statistics.TotalKilometersNonNegative` | app.js:184-185 | a well-formed list has a non-negative total and average |
| `Statistics.TotalKilometersAppend` | app.js:184 | the kilometer sum of a concatenation is the sum of the parts |
| `Statistics.CountActiveAppend` | app.js:183 | the Active count of a concatenation is the sum of the parts |
| `Statistics.AddStats` | app.js:77-80 | adding a record raises the total by one, the kilometers by its kilometers, and the Active count by one exactly when it is Active |
| `Statistics.DeleteStats` | app.js:121-124 | deletion removes exactly the kilometers and the number of the records carrying the id |
| `Statistics.TravelKeepsActiveCount` | app.js:95-105 | travel keeps the Active count |
| `Statistics.TravelAddsKilometers` | app.js:98-99 | travel raises the total by between 50 and 199 km per moved record |
| `Statistics.TravelStats` | app.js:95-110 | after travel the vehicle and Active counts are unchanged and the total rose by 50..199 km per active lorry |
| `Store.Loaded` | app.js:26-31 | the list `loadFromDatabase` leaves: the parsed stored list when the key holds one, otherwise the initial empty list; the constructor's contract is stated through it |
| `Store.FleetStore.constructor` | app.js:4-32 | the loaded list is kept when non-empty; otherwise exactly five generated records are added; storage equals the list afterwards |
| `Store.FleetStore.AddVehicle` | app.js:65-82 | the list grows by one generated record at the end, earlier records unchanged, and storage equals the list |
| `Store.FleetStore.AddDemoVehicles` | app.js:85-90 | five generated records are appended in order and storage equals the list |
| `Store.FleetStore.AutoGenerateKilometers` | app.js:93-116 | the list becomes the travelled list, the returned count is the number of active lorries, and storage is rewritten exactly when that count is positive; when it is 0, neither the list nor storage changes |
| `Store.FleetStore.DeleteVehicle` | app.js:119-127 | when confirmed, the list is filtered by id and saved, and stays the same for an unknown id; when declined, nothing changes |

## Left out

- Rendering of the table, the map markers and the statistics panel (app.js:130-178,
  187-190), and event-listener wiring (app.js:17-18). They are display side effects
  with no logic beyond iterating the list.
- Local storage and JSON (app.js:27-36). The saved copy is the ghost field
  `persisted`, and a save-then-load round trip is taken to be the identity. A stored
  value that fails to parse is not modelled; the constructor takes the parsed list,
  or `None` when the key is absent. Two further cases of the program are not
  captured: a stored value that parses to something other than a list (`"null"`,
  `"{}"`) makes `renderVehicles` fail at its `forEach` (app.js:134), and an empty
  stored string is skipped by the truthiness test (app.js:28) exactly as an absent
  key is, which corresponds to `None` here.
- Records loaded from storage are not validated by the program, so the model
  accepts any list there. `WellFormed` is proved only for generated records and is
  kept by every operation.
- `alert` and `confirm` dialogs (app.js:112, 114, 120). The confirmation is a boolean
  parameter. The two alert messages correspond to `AutoGenerateKilometers` returning
  a positive count or 0.
- `Math.random()` returns a double. It is modelled as an exact real number in
  [0, 1), so floating-point rounding in `lo + r * span` is not modelled.
- `new Date().toISOString()` is an opaque timestamp string supplied with the
  creation inputs.
- Travel inputs are given one per record, in list order, and only an active
  lorry's inputs are used. The program draws them from one random stream only for
  the records that move. Both describe the same set of possible outcomes.
- Map positions are integer percentages. The program stores them as strings such as
  `"42%"`, and that suffix is a display detail.
- Kilometers are unbounded integers. JavaScript's number precision and `+=` on
  non-numeric values loaded from storage are not modelled.
- The records are values. The program mutates the record objects inside the array
  during travel. No other reference to those objects exists, so the model assigns
  updated records back into the list.
- The global instance `vms` (app.js:195) is not part of this model.
