# Ride-share dispatch engine, modelled in Dafny

This project models the dispatch core of a small ride-sharing simulation.
Drivers sit at coordinates and are either available or busy. A rider asks
for a ride. The matcher makes one greedy pass over the driver list and picks
the nearest available driver; on an exact tie the driver listed first wins.
It prices the ride on that distance and marks the driver busy. It then credits
the fare to the driver's earnings and appends one `Pending` ride record.
A driver writes its whole row back to the Drivers table after every change
(an `INSERT OR REPLACE` upsert).

Modules, one file each:

- `Geo` (`geo.dfy`): coordinates, and `Distance`, the type of the haversine distance. The distance is left uninterpreted: a total function from two coordinates to a non-negative real.
- `Pricing` (`pricing.dfy`): the constants `BASE_FARE = 5.0`, `FARE_PER_KM = 2.0` and `AVERAGE_SPEED_KMPH = 40`, and `QuoteFor`, which gives the fare and the duration in minutes for a distance.
- `Store` (`store.dfy`): the storage held in memory. `Database.drivers` is a map from driver id to row and is written by upsert. `Database.rides` is a sequence of ride rows and is written by append. `FaresOf` is the sum of a driver's logged fares.
- `Entities` (`entities.dfy`): `Driver`, a class whose fields change in place. Each driver holds a reference to the `Database` it writes through. `Rider` is a value.
- `Dispatch` (`dispatch.dfy`): `FindNearest`, the scan part of `match_ride`, and `MatchRide`, the scan followed by the commit.
- `Simulation` (`simulation.dfy`): two runs with fixed inputs, in which a client reasons only from the contracts of the modules above.

How it is modelled:

- The running minimum starts at `float('inf')`. Here it is `Bound.Infinity`, and the comparison `distance < min_distance` is `Below`.
- `FindNearest` returns the index of the chosen driver. The source keeps the driver object instead; the model needs the index to state the tie-break.
- `MatchRide` takes the distance function as a parameter. Each driver writes its row through its own `db`. The ride row goes to the `db` passed to `MatchRide`. The contracts cover both cases: the two databases are the same object, or they are different objects.
- Python floats are modelled as Dafny `real`.

## Model

| member | source | states |
|---|---|---|
| `Pricing.QuoteFor` | rideshare.py:102-105 | The fare, less the base fare and divided by the per-km rate, gives back the distance. The duration in hours times the average speed gives back the distance. For a distance of 0 or more, the fare is at least `BASE_FARE` and the duration is at least 0. |
| `Pricing.DistanceForFare` | rideshare.py:102-103 | This is the inverse of the fare formula: pricing the distance it returns gives back the fare. That distance is 0 or more exactly when the fare is at least `BASE_FARE`. |
| `Pricing.QuoteAtZero` | rideshare.py:102-105 | At distance 0 the fare is `BASE_FARE` and the duration is 0. |
| `Pricing.QuoteNonNegative` | rideshare.py:102-105 | For a distance of 0 or more, fare and duration are both 0 or more. |
| `Pricing.QuoteMonotone` | rideshare.py:102-105 | Fare and duration never decrease as distance grows, and they grow strictly for a strictly longer ride. |
| `Pricing.FareFollowsDuration` | rideshare.py:102-105 | The fare is the base fare plus `FARE_PER_KM * AVERAGE_SPEED_KMPH / 60` per minute of duration. |
| `Store.AvailabilityColumn` | rideshare.py:58 | `int(available)` is 0 or 1, and it is 1 exactly when the driver is available. |
| `Store.FaresOfAppend` | rideshare.py:122-126 | Appending a ride adds its fare to its own driver's logged total and leaves every other driver's total unchanged. |
| `Store.FaresOfNonNegative` | rideshare.py:122-126 | If every logged fare is 0 or more, every driver's logged total is 0 or more (proof by induction on the ledger); `MatchRide` uses it. |
| `Store.Database.constructor` | rideshare.py:13-40 | A freshly created store has an empty Drivers table and an empty Rides table. |
| `Store.Database.UpsertDriver` | rideshare.py:55-58 | `INSERT OR REPLACE`: the row under the id becomes the new row whether or not one existed. Every other row stays, and the Rides table is not touched. |
| `Store.Database.InsertRide` | rideshare.py:122-126 | The ride is appended after the existing rides, and no earlier ride changes. |
| `Entities.Driver.constructor` | rideshare.py:45-51 | A new driver keeps the given id, location and connection. It starts available with earnings 0, and its row is upserted into the store. |
| `Entities.Driver.SaveToDb` | rideshare.py:53-58 | The row stored under `driver_id` becomes the driver's current fields. No other row changes. |
| `Entities.Driver.UpdateLocation` | rideshare.py:60-62 | Only `location` changes, to the new coordinate. The stored row then equals the fields. |
| `Entities.Driver.SetAvailability` | rideshare.py:64-66 | Only `available` changes, to the given status. The stored row then equals the fields. |
| `Entities.Driver.UpdateEarnings` | rideshare.py:68-70 | Only `total_earnings` changes, and it grows by exactly the fare. The stored row then equals the fields. |
| `Dispatch.NearestIsUnique` | rideshare.py:110-115 | At most one index meets the nearest-driver condition, so the choice is deterministic. |
| `Dispatch.FindNearest` | rideshare.py:108-115 | It returns no driver, with the minimum left at +infinity, exactly when no driver is available. Otherwise it returns the index of an available driver. No available driver is nearer than that one, and every available driver listed before it is strictly farther. The minimum returned is its distance. |
| `Dispatch.MatchRide` | rideshare.py:107-130 | It returns `None` exactly when no driver was available, and then no driver and no store changes. Otherwise it returns the nearest available driver, with the first one winning a tie. That driver ends busy and at the same location. Its earnings grow by exactly `QuoteFor(distance).fare`, and its stored row equals its fields. Exactly one ride row `(rider_id, driver_id, distance, fare, duration, 'Pending')` is appended, priced on that same distance. Every other driver and store is unchanged. When driver ids are unique, a ledger in which every driver's earnings equal the fares logged against its id stays balanced. A ledger of non-negative fares stays so, and then every driver's logged total is non-negative. |
| `Simulation.OnlyFreeDriverIsMatched` | rideshare.py:135-143 | Drivers D1 and D2 are created, and D2 is busy. The rider at (40.0, -74.0) gets D1, D1 is paid `QuoteFor(distance).fare`, and the Rides table holds exactly that one ride, `(R1000, D1, distance, fare, duration, 'Pending')`. |
| `Simulation.TieGoesToFirstListed` | rideshare.py:110-115 | With two available drivers at the same spot, the first listed is chosen. Once it is made available again, the same rider again gets the same driver. |

## Left out

- Haversine internals (rideshare.py:92-100): floating-point trigonometry and `atan2`. The distance is supplied as a non-negative function `Distance`. Symmetry and zero-at-equal-points are not modelled, since they cannot be shown without a model of trigonometry.
- Floating point: fares, durations and earnings are exact reals. Rounding, NaN and an infinite distance are not modelled. With `Km` finite, the first available driver always beats the initial +infinity.
- `setup_database` (rideshare.py:10-42) and the sqlite connection handling are I/O. Only the effect of a freshly created store is kept, as `Database`'s constructor. `CREATE TABLE IF NOT EXISTS` on an existing file, and the transaction scoping of `with db_conn`, are not modelled.
- The `ride_id AUTOINCREMENT` and `timestamp DEFAULT CURRENT_TIMESTAMP` columns are filled in by the storage engine. A ride's position in `Database.rides` stands in for its id.
- Rider persistence (rideshare.py:80-87): a plain `INSERT` whose failure on a duplicate key belongs to sqlite. `Rider` is kept as a value only.
- Simulation.OnlyFreeDriverIsMatched: the simulation's set-up (rideshare.py:135-139) creates D1, D2 and D3, all available. This run drops D3, because an uninterpreted distance cannot rank D3 against D1. It marks D2 busy before the match, standing in for an earlier match that took D2. `Simulation.TieGoesToFirstListed` places D2 at D1's coordinates to force an exact tie.
- The simulation loop (rideshare.py:132-151) runs forever and is driven by `random` and `time.sleep`. The two `Simulation` methods are fixed-input runs on a small fleet built like the simulation's; they are not its set-up as written (see the next line).
- The `print` calls and the `__str__` methods (rideshare.py:72-73, 89-90, 120-121, 129) only produce output.
- The code raises no errors of its own: `update_earnings` accepts any fare, the upsert silently replaces an existing row, an unknown driver cannot be named, and a failing write is not modelled.
- Concurrency: the source runs strictly sequentially, and so does the model.
