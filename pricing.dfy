/** Fare and duration of a ride, derived from its distance alone. */
module Pricing {

  const BASE_FARE: real := 5.0
  const FARE_PER_KM: real := 2.0
  const AVERAGE_SPEED_KMPH: real := 40.0

  /** The pair returned by calculate_fare_and_duration: currency units and minutes. */
  datatype Quote = Quote(fare: real, duration: real)

  /** Prices a ride of `distance` kilometres.  The contract says what the two
      figures mean: the fare pays the base fare plus FARE_PER_KM for each
      kilometre, and the duration is the time in minutes needed to cover the
      distance at the average speed. */
  function QuoteFor(distance: real): (q: Quote)
    ensures (q.fare - BASE_FARE) / FARE_PER_KM == distance
    ensures q.duration / 60.0 * AVERAGE_SPEED_KMPH == distance
    ensures distance >= 0.0 ==> q.fare >= BASE_FARE && q.duration >= 0.0
  {
    Quote(BASE_FARE + distance * FARE_PER_KM, (distance / AVERAGE_SPEED_KMPH) * 60.0)
  }

  /** The distance a fare pays for: the inverse of the fare half of QuoteFor. */
  function DistanceForFare(fare: real): (d: real)
    ensures QuoteFor(d).fare == fare
    ensures fare >= BASE_FARE <==> d >= 0.0
  {
    (fare - BASE_FARE) / FARE_PER_KM
  }

  /** A ride of no length costs the base fare and takes no time. */
  lemma QuoteAtZero()
    ensures QuoteFor(0.0) == Quote(BASE_FARE, 0.0)
  {
  }

  /** Neither figure is negative for a real distance. */
  lemma QuoteNonNegative(distance: real)
    requires distance >= 0.0
    ensures QuoteFor(distance).fare >= 0.0 && QuoteFor(distance).duration >= 0.0
  {
  }

  /** A longer ride never costs less nor takes less time, and a strictly longer
      one costs strictly more and takes strictly longer. */
  lemma QuoteMonotone(d1: real, d2: real)
    requires d1 <= d2
    ensures QuoteFor(d1).fare <= QuoteFor(d2).fare
    ensures QuoteFor(d1).duration <= QuoteFor(d2).duration
    ensures d1 < d2 ==> QuoteFor(d1).fare < QuoteFor(d2).fare && QuoteFor(d1).duration < QuoteFor(d2).duration
  {
  }

  /** The two figures are tied to each other: every minute of riding adds
      FARE_PER_KM * AVERAGE_SPEED_KMPH / 60 to the base fare. */
  lemma FareFollowsDuration(distance: real)
    ensures QuoteFor(distance).fare == BASE_FARE + FARE_PER_KM * AVERAGE_SPEED_KMPH / 60.0 * QuoteFor(distance).duration
  {
  }
}
