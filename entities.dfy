/** Drivers, whose state changes in place and is written through to the store
    after every change, and riders, which are plain values. */
module Entities {
  import opened Geo
  import opened Store

  /** A ride request: who asks and where they stand. */
  datatype Rider = Rider(riderId: string, location: Coordinate)

  class Driver {
    const driverId: string
    var location: Coordinate
    var available: bool
    var totalEarnings: real
    /** The connection this driver writes its row through. */
    const db: Database

    /** The Drivers row that save_to_db writes for the current fields. */
    function Row(): (row: DriverRow)
      reads this
    {
      DriverRow(location.lat, location.lon, AvailabilityColumn(available), totalEarnings)
    }

    /** The row stored under this driver's id agrees with its fields. */
    predicate Persisted()
      reads this, db
    {
      driverId in db.drivers && db.drivers[driverId] == Row()
    }

    /** A new driver is available, has earned nothing, and is written to the store. */
    constructor (driverId: string, lat: real, lon: real, db: Database)
      modifies db`drivers
      ensures this.driverId == driverId && this.db == db
      ensures location == Coordinate(lat, lon) && available && totalEarnings == 0.0
      ensures db.drivers == old(db.drivers)[driverId := Row()]
      ensures Persisted()
    {
      this.driverId := driverId;
      this.location := Coordinate(lat, lon);
      this.available := true;
      this.totalEarnings := 0.0;
      this.db := db;
      new;
      SaveToDb();
    }

    /** Upserts the current fields under driverId. */
    method SaveToDb()
      modifies db`drivers
      ensures db.drivers == old(db.drivers)[driverId := Row()]
      ensures Persisted()
    {
      db.UpsertDriver(driverId, Row());
    }

    /** Moves the driver; availability and earnings stay as they were. */
    method UpdateLocation(lat: real, lon: real)
      modifies this`location, db`drivers
      ensures location == Coordinate(lat, lon)
      ensures available == old(available) && totalEarnings == old(totalEarnings)
      ensures db.drivers == old(db.drivers)[driverId := Row()]
      ensures Persisted()
    {
      location := Coordinate(lat, lon);
      SaveToDb();
    }

    /** Sets availability; location and earnings stay as they were. */
    method SetAvailability(status: bool)
      modifies this`available, db`drivers
      ensures available == status
      ensures location == old(location) && totalEarnings == old(totalEarnings)
      ensures db.drivers == old(db.drivers)[driverId := Row()]
      ensures Persisted()
    {
      available := status;
      SaveToDb();
    }

    /** Credits `fare` to the driver (no check of its sign, as in the source);
        location and availability stay as they were. */
    method UpdateEarnings(fare: real)
      modifies this`totalEarnings, db`drivers
      ensures totalEarnings == old(totalEarnings) + fare
      ensures location == old(location) && available == old(available)
      ensures db.drivers == old(db.drivers)[driverId := Row()]
      ensures Persisted()
    {
      totalEarnings := totalEarnings + fare;
      SaveToDb();
    }
  }
}
