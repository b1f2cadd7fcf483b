/** The matcher: one greedy pass over the fleet picks the nearest available
    driver, and the match is then committed to the driver and the store. */
module Dispatch {
  import opened Geo
  import opened Pricing
  import opened Store
  import opened Entities

  datatype Option<T> = None | Some(value: T)

  /** The running minimum of the scan, a float that starts at +infinity. */
  datatype Bound = Infinity | Finite(value: real)

  /** The float comparison `d < bound`, with +infinity above every finite value. */
  predicate Below(d: real, bound: Bound)
  {
    bound.Infinity? || d < bound.value
  }

  /** How far `driver` is from `rider`. */
  function DistanceTo(rider: Rider, driver: Driver, dist: Distance): (d: Km)
    reads driver
  {
    dist(rider.location, driver.location)
  }

  /** No driver among the first n is available. */
  predicate NoneAvailable(drivers: seq<Driver>, n: nat)
    requires n <= |drivers|
    reads drivers
  {
    forall j :: 0 <= j < n ==> !drivers[j].available
  }

  /** Among the first n drivers, driver k is available, no available driver is
      nearer to the rider, and every available driver listed before k is
      strictly farther (ties go to the earliest). */
  predicate NearestAmong(rider: Rider, drivers: seq<Driver>, dist: Distance, n: nat, k: nat)
    reads drivers
  {
    && k < n <= |drivers|
    && drivers[k].available
    && (forall j :: 0 <= j < n && drivers[j].available ==>
          DistanceTo(rider, drivers[k], dist) <= DistanceTo(rider, drivers[j], dist))
    && (forall j :: 0 <= j < k && drivers[j].available ==>
          DistanceTo(rider, drivers[k], dist) < DistanceTo(rider, drivers[j], dist))
  }

  /** At most one driver is the nearest: the selection is deterministic. */
  lemma NearestIsUnique(rider: Rider, drivers: seq<Driver>, dist: Distance, n: nat, k1: nat, k2: nat)
    requires NearestAmong(rider, drivers, dist, n, k1)
    requires NearestAmong(rider, drivers, dist, n, k2)
    ensures k1 == k2
  {
  }

  /** Drivers that are distinct objects have distinct ids. */
  predicate UniqueIds(drivers: seq<Driver>)
  {
    forall i, j :: 0 <= i < |drivers| && 0 <= j < |drivers| && drivers[i].driverId == drivers[j].driverId ==>
      drivers[i] == drivers[j]
  }

  /** Every driver's earnings are the fares of the rides recorded against its id. */
  predicate LedgerBalanced(drivers: seq<Driver>, db: Database)
    reads drivers, db
  {
    forall i :: 0 <= i < |drivers| ==> drivers[i].totalEarnings == FaresOf(db.rides, drivers[i].driverId)
  }

  /** The scan of match_ride: returns the index of the nearest available driver
      and the distance to it, or no index and +infinity when none is available. */
  method FindNearest(rider: Rider, drivers: seq<Driver>, dist: Distance) returns (nearest: Option<nat>, minDistance: Bound)
    ensures nearest.None? <==> NoneAvailable(drivers, |drivers|)
    ensures nearest.None? ==> minDistance == Infinity
    ensures nearest.Some? ==>
              && NearestAmong(rider, drivers, dist, |drivers|, nearest.value)
              && minDistance == Finite(DistanceTo(rider, drivers[nearest.value], dist))
  {
    nearest, minDistance := None, Infinity;
    for i := 0 to |drivers|
      invariant nearest.None? <==> NoneAvailable(drivers, i)
      invariant nearest.None? ==> minDistance == Infinity
      invariant nearest.Some? ==>
                  && NearestAmong(rider, drivers, dist, i, nearest.value)
                  && minDistance == Finite(DistanceTo(rider, drivers[nearest.value], dist))
    {
      if drivers[i].available {
        var distance := dist(rider.location, drivers[i].location);
        if Below(distance, minDistance) {
          minDistance := Finite(distance);
          nearest := Some(i);
        }
      }
    }
  }

  /** match_ride: finds the nearest available driver; if there is one, prices
      the ride on that distance, marks the driver busy, credits the fare and
      appends one Pending ride; if there is none, changes nothing.  `k` is the
      index of the chosen driver. */
  method MatchRide(rider: Rider, drivers: seq<Driver>, db: Database, dist: Distance)
    returns (matched: Option<Driver>, ghost k: nat)
    modifies drivers, set i | 0 <= i < |drivers| :: drivers[i].db, db
    ensures matched.None? <==> old(NoneAvailable(drivers, |drivers|))
    ensures matched.None? ==>
              && unchanged(drivers) && unchanged(db)
              && forall i :: 0 <= i < |drivers| ==> unchanged(drivers[i].db)
    ensures matched.Some? ==>
              && old(NearestAmong(rider, drivers, dist, |drivers|, k))
              && matched.value == drivers[k]
    // the winner: busy, paid the fare of its distance, still where it was, and written back
    ensures matched.Some? ==>
              var w := drivers[k];
              var q := QuoteFor(old(DistanceTo(rider, w, dist)));
              && !w.available
              && w.totalEarnings == old(w.totalEarnings) + q.fare
              && w.location == old(w.location)
              && w.db.drivers == old(w.db.drivers)[w.driverId := w.Row()]
              && w.Persisted()
    // exactly one ride, priced on that same distance
    ensures matched.Some? ==>
              var w := drivers[k];
              var d := old(DistanceTo(rider, w, dist));
              db.rides == old(db.rides) + [RideRow(rider.riderId, w.driverId, d, QuoteFor(d).fare, QuoteFor(d).duration, PENDING)]
    // nothing else changes
    ensures matched.Some? ==>
              var w := drivers[k];
              && (w.db != db ==> db.drivers == old(db.drivers) && w.db.rides == old(w.db.rides))
              && (forall i :: 0 <= i < |drivers| && drivers[i] != w ==> unchanged(drivers[i]))
              && (forall i :: 0 <= i < |drivers| && drivers[i].db != w.db && drivers[i].db != db ==> unchanged(drivers[i].db))
    // a balanced ledger stays balanced
    ensures UniqueIds(drivers) && old(LedgerBalanced(drivers, db)) ==> LedgerBalanced(drivers, db)
    // a ledger of non-negative fares stays so, and then no driver's logged total is negative
    ensures old(FaresNonNegative(db.rides)) ==>
              && FaresNonNegative(db.rides)
              && forall i :: 0 <= i < |drivers| ==> FaresOf(db.rides, drivers[i].driverId) >= 0.0
  {
    var nearest, minDistance := FindNearest(rider, drivers, dist);
    if nearest.None? {
      matched, k := None, 0;
      forall i | 0 <= i < |drivers| && FaresNonNegative(db.rides)
        ensures FaresOf(db.rides, drivers[i].driverId) >= 0.0
      {
        FaresOfNonNegative(db.rides, drivers[i].driverId);
      }
      return;
    }
    k := nearest.value;
    var winner := drivers[nearest.value];
    var distance := minDistance.value;
    var q := QuoteFor(distance);
    winner.SetAvailability(false);
    winner.UpdateEarnings(q.fare);
    var ride := RideRow(rider.riderId, winner.driverId, distance, q.fare, q.duration, PENDING);
    db.InsertRide(ride);
    matched := Some(winner);
    forall i | 0 <= i < |drivers|
      ensures FaresOf(db.rides, drivers[i].driverId)
              == old(FaresOf(db.rides, drivers[i].driverId)) + (if drivers[i].driverId == winner.driverId then q.fare else 0.0)
    {
      FaresOfAppend(old(db.rides), ride, drivers[i].driverId);
    }
    if old(FaresNonNegative(db.rides)) {
      forall i | 0 <= i < |drivers| ensures FaresOf(db.rides, drivers[i].driverId) >= 0.0 {
        FaresOfNonNegative(db.rides, drivers[i].driverId);
      }
    }
  }
}
