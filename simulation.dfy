/** Fixed-input runs of the fleet set up by the simulation driver: what a
    caller can conclude from the contracts of the dispatcher alone. */
module Simulation {
  import opened Geo
  import opened Pricing
  import opened Store
  import opened Entities
  import opened Dispatch

  /** Drivers D1 and D2 of the simulation's fleet with D2 busy: the one free
      driver, D1, gets the ride, is paid the fare of its distance, and one ride
      is logged. */
  method OnlyFreeDriverIsMatched(dist: Distance) returns (matched: Option<Driver>, db: Database)
    ensures matched.Some? && matched.value.driverId == "D1" && !matched.value.available
    ensures var d := dist(Coordinate(40.0, -74.0), Coordinate(40.7128, -74.0060));
            db.rides == [RideRow("R1000", "D1", d, QuoteFor(d).fare, QuoteFor(d).duration, PENDING)]
    ensures matched.value.totalEarnings == QuoteFor(db.rides[0].distance).fare == db.rides[0].fare
  {
    db := new Database();
    var d1 := new Driver("D1", 40.7128, -74.0060, db);
    var d2 := new Driver("D2", 34.0522, -118.2437, db);
    d2.SetAvailability(false);
    var rider := Rider("R1000", Coordinate(40.0, -74.0));
    var fleet := [d1, d2];
    assert fleet[0].available && !fleet[1].available;
    assert db.rides == [] && d1.totalEarnings == 0.0;
    ghost var d := dist(rider.location, d1.location);
    ghost var k;
    matched, k := MatchRide(rider, fleet, db, dist);
    assert k == 0;
    assert db.rides == [RideRow("R1000", "D1", d, QuoteFor(d).fare, QuoteFor(d).duration, PENDING)];
  }

  /** Two free drivers at the same spot: the one listed first wins the tie, and
      when it is made available again the same rider gets it again. */
  method TieGoesToFirstListed(dist: Distance) returns (first: Option<Driver>, second: Option<Driver>)
    ensures first.Some? && first.value.driverId == "D1"
    ensures second == first
  {
    var db := new Database();
    var d1 := new Driver("D1", 40.7128, -74.0060, db);
    var d2 := new Driver("D2", 40.7128, -74.0060, db);
    var rider := Rider("R1000", Coordinate(40.0, -74.0));
    var fleet := [d1, d2];
    assert fleet[0].available && fleet[1].available;
    assert DistanceTo(rider, fleet[0], dist) == DistanceTo(rider, fleet[1], dist);
    ghost var k;
    first, k := MatchRide(rider, fleet, db, dist);
    assert k == 0;
    d1.SetAvailability(true);
    assert fleet[0].available && fleet[1].available;
    assert DistanceTo(rider, fleet[0], dist) == DistanceTo(rider, fleet[1], dist);
    second, k := MatchRide(rider, fleet, db, dist);
    assert k == 0;
  }
}
