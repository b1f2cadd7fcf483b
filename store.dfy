/** The persistent side of the engine: the Drivers table, written by upsert,
    and the Rides table, written by append.  A Database object stands for the
    sqlite file; its two fields are the two tables' contents. */
module Store {

  /** The value of the `available` INTEGER column for a flag: int(available). */
  function AvailabilityColumn(available: bool): (c: int)
    ensures c == 0 || c == 1
    ensures (c == 1) <==> available
  {
    if available then 1 else 0
  }

  /** One row of Drivers, without its key (driver_id). */
  datatype DriverRow = DriverRow(latitude: real, longitude: real, available: int, totalEarnings: real)

  /** The payment_status every ride is recorded with. */
  const PENDING: string := "Pending"

  /** One row of Rides.  ride_id and timestamp are filled in by the storage
      engine and are not part of the model; a ride's position in the table
      stands for its AUTOINCREMENT id. */
  datatype RideRow = RideRow(riderId: string, driverId: string, distance: real, fare: real,
                             duration: real, paymentStatus: string)

  /** The sum of the fares of the rides in `rides` driven by `driverId`. */
  function FaresOf(rides: seq<RideRow>, driverId: string): (total: real)
  {
    if rides == [] then 0.0
    else FaresOf(rides[..|rides| - 1], driverId)
         + (if rides[|rides| - 1].driverId == driverId then rides[|rides| - 1].fare else 0.0)
  }

  /** Appending a ride adds its fare to its own driver's total, and to no one else's. */
  lemma FaresOfAppend(rides: seq<RideRow>, ride: RideRow, driverId: string)
    ensures FaresOf(rides + [ride], driverId)
            == FaresOf(rides, driverId) + (if ride.driverId == driverId then ride.fare else 0.0)
  {
  }

  /** No ride in the ledger has a negative fare. */
  predicate FaresNonNegative(rides: seq<RideRow>)
  {
    forall i :: 0 <= i < |rides| ==> rides[i].fare >= 0.0
  }

  /** A ledger holding only non-negative fares gives every driver a non-negative total. */
  lemma {:induction false} FaresOfNonNegative(rides: seq<RideRow>, driverId: string)
    requires FaresNonNegative(rides)
    ensures FaresOf(rides, driverId) >= 0.0
  {
    if rides != [] {
      FaresOfNonNegative(rides[..|rides| - 1], driverId);
    }
  }

  class Database {
    /** Drivers, keyed by driver_id (the table's PRIMARY KEY). */
    var drivers: map<string, DriverRow>
    /** Rides, in insertion order. */
    var rides: seq<RideRow>

    /** A store whose tables are freshly created and empty. */
    constructor ()
      ensures drivers == map[] && rides == []
    {
      drivers := map[];
      rides := [];
    }

    /** INSERT OR REPLACE INTO Drivers: the row under `driverId` becomes `row`,
        whether or not one was there; every other row and the rides stay. */
    method UpsertDriver(driverId: string, row: DriverRow)
      modifies this`drivers
      ensures drivers == old(drivers)[driverId := row]
      ensures driverId in drivers && drivers[driverId] == row
      ensures forall id :: id in old(drivers) && id != driverId ==> id in drivers && drivers[id] == old(drivers)[id]
      ensures drivers.Keys == old(drivers).Keys + {driverId}
    {
      drivers := drivers[driverId := row];
    }

    /** INSERT INTO Rides: the ride is appended and nothing before it changes. */
    method InsertRide(ride: RideRow)
      modifies this`rides
      ensures rides == old(rides) + [ride]
    {
      rides := rides + [ride];
    }
  }
}
