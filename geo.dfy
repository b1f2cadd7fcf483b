/** Coordinates and the distance between them.

    The great-circle (haversine) distance is floating-point trigonometry; the
    model keeps only what the dispatcher relies on: a total function from two
    coordinates to a non-negative number of kilometres. Operations that need a
    distance receive it as a parameter of type Distance. */
module Geo {

  /** A (latitude, longitude) pair in degrees, as the source's `location` tuple. */
  datatype Coordinate = Coordinate(lat: real, lon: real)

  /** A length in kilometres; the haversine result R * c is never negative. */
  type Km = r: real | r >= 0.0

  /** The haversine distance, left uninterpreted. */
  type Distance = (Coordinate, Coordinate) -> Km
}
