/** The points rule: a ride earns `max(0, int(10 - d / 10))` points, where `d`
    is the distance in metres from the pickup Location to the destination
    Location, and a ride whose `d` exceeds 100 m is sent to admin review. */
module PointsService {
  import opened Models

  /** Python's `int(x)` on a float: truncation toward zero. */
  function Trunc(x: real): (n: int)
    ensures 0.0 <= x ==> n as real <= x < n as real + 1.0
    ensures x < 0.0 ==> n as real - 1.0 < x <= n as real
  {
    if x >= 0.0 then x.Floor else -((-x).Floor)
  }

  /** Distances beyond this many metres need an admin's review. */
  const ReviewThreshold: real := 100.0

  /** The points formula at distance `d`. */
  function PointsFor(d: Metres): (p: int)
    ensures 0 <= p <= 10
    ensures d > ReviewThreshold ==> p == 0
  {
    var raw := Trunc(10.0 - d / 10.0);
    if raw < 0 then 0 else raw
  }

  /** A ride at its destination earns the full 10 points. */
  lemma PointsAtZero()
    ensures PointsFor(0.0) == 10
  {
  }

  /** The formula as bands of 10 m: up to 90 m a ride earns `p` points exactly
      when `d` lies in (90 - 10p, 100 - 10p], so every further 10 m costs one
      point; past 90 m it earns nothing. */
  lemma PointsBand(d: Metres)
    ensures d <= 90.0 ==> 100.0 - 10.0 * (PointsFor(d) + 1) as real < d <= 100.0 - 10.0 * PointsFor(d) as real
    ensures d > 90.0 ==> PointsFor(d) == 0
  {
  }

  /** A longer ride never earns more points. */
  lemma PointsNonIncreasing(d1: Metres, d2: Metres)
    requires d1 <= d2
    ensures PointsFor(d1) >= PointsFor(d2)
  {
    PointsBand(d1);
    PointsBand(d2);
  }

  /** Both of the ride's Location names resolve. */
  predicate Resolvable(ride: Ride, locations: map<string, Location>) {
    ride.pickup in locations && ride.destination in locations
  }

  /** The distance from the ride's pickup Location to its destination
      Location. The dropoff coordinates play no part. */
  function RouteLength(ride: Ride, locations: map<string, Location>, dist: Distance): Metres
    requires Resolvable(ride, locations)
  {
    var p := locations[ride.pickup];
    var q := locations[ride.destination];
    dist(p.lat, p.lng, q.lat, q.lng)
  }

  /** The points the ride earns: 0 when a Location name does not resolve. */
  function PointsOf(ride: Ride, locations: map<string, Location>, dist: Distance): (p: int)
    ensures 0 <= p <= 10
    ensures !Resolvable(ride, locations) ==> p == 0
  {
    if Resolvable(ride, locations) then PointsFor(RouteLength(ride, locations, dist)) else 0
  }

  /** Whether the rule sends the ride to admin review. */
  predicate NeedsReview(ride: Ride, locations: map<string, Location>, dist: Distance) {
    Resolvable(ride, locations) && RouteLength(ride, locations, dist) > ReviewThreshold
  }

  /** A ride sent to review is awarded nothing. */
  lemma ReviewedRideEarnsNothing(ride: Ride, locations: map<string, Location>, dist: Distance)
    requires NeedsReview(ride, locations, dist)
    ensures PointsOf(ride, locations, dist) == 0
  {
  }

  /** Points and review depend on the ride's Location names alone: changing
      the dropoff, the status or the completion time changes neither. */
  lemma PointsIgnoreDropoff(ride: Ride, locations: map<string, Location>, dist: Distance,
                            lat: real, lng: real, status: RideStatus, at: int)
    ensures var moved := ride.(dropoffLat := Some(lat), dropoffLng := Some(lng),
                               status := status, completedAt := Some(at));
            PointsOf(moved, locations, dist) == PointsOf(ride, locations, dist)
            && NeedsReview(moved, locations, dist) == NeedsReview(ride, locations, dist)
  {
  }

  /** `calculate_points(ride, db)`: the points for `ride`, and the ride as the
      rule leaves it — its status set to pending review when the route is
      longer than 100 m, otherwise untouched. */
  method CalculatePoints(ride: Ride, locations: map<string, Location>, dist: Distance)
    returns (points: int, updated: Ride)
    ensures points == PointsOf(ride, locations, dist)
    ensures 0 <= points <= 10
    ensures updated == ride.(status := updated.status)
    ensures updated.status == (if NeedsReview(ride, locations, dist) then PendingReview else ride.status)
    ensures !Resolvable(ride, locations) ==> points == 0 && updated == ride
    ensures updated.status == PendingReview && ride.status != PendingReview ==> points == 0
  {
    updated := ride;
    if ride.pickup !in locations || ride.destination !in locations {
      return 0, updated;
    }
    var pickupLoc := locations[ride.pickup];
    var destinationLoc := locations[ride.destination];
    var distance := dist(pickupLoc.lat, pickupLoc.lng, destinationLoc.lat, destinationLoc.lng);
    points := PointsFor(distance);
    if distance > ReviewThreshold {
      updated := updated.(status := PendingReview);
    }
  }
}
