/** The puller endpoints: polling for ride alerts, accepting a ride,
    confirming pickup, completing a ride, reporting a position and listing
    a puller's rides. */
module PullersRouter {
  import opened Models
  import opened Http
  import opened Store
  import opened Sorting
  import PointsService

  /** One entry of the alert list. */
  datatype Alert = Alert(rideId: string, userId: string, pickup: string, destination: string,
                         distanceMeters: real)

  function AlertDistance(a: Alert): real {
    a.distanceMeters
  }

  predicate IsPending(r: Ride) {
    r.status == Pending
  }

  /** The pending rides in query order. */
  function PendingRides(rides: map<string, Ride>, rideOrder: seq<string>): (r: seq<Ride>)
    requires forall i :: 0 <= i < |rideOrder| ==> rideOrder[i] in rides
  {
    Select(rides, rideOrder, IsPending)
  }

  /** One alert per ride of `rs`, in order, for the rides whose pickup name
      resolves; the distance is from the puller's position to the pickup. */
  function AlertsFor(rs: seq<Ride>, locations: map<string, Location>, puller: Puller,
                     dist: Distance): seq<Alert>
  {
    if rs == [] then []
    else AlertsFor(rs[..|rs| - 1], locations, puller, dist) + AlertsOfRide(rs[|rs| - 1], locations, puller, dist)
  }

  /** The alert for one ride, when its pickup name resolves. */
  function AlertsOfRide(ride: Ride, locations: map<string, Location>, puller: Puller,
                        dist: Distance): (r: seq<Alert>)
    ensures |r| == if ride.pickup in locations then 1 else 0
    ensures forall k :: 0 <= k < |r| ==> Describes(r[k], ride, locations, puller, dist)
  {
    if ride.pickup in locations then
      var loc := locations[ride.pickup];
      [Alert(ride.rideId, ride.userId, ride.pickup, ride.destination,
             dist(puller.currentLat, puller.currentLng, loc.lat, loc.lng))]
    else []
  }

  /** `a` is the alert the puller gets for `ride`: the ride's id, user,
      pickup and destination, and the distance from the puller's position
      to the pickup Location. */
  predicate Describes(a: Alert, ride: Ride, locations: map<string, Location>, puller: Puller,
                      dist: Distance) {
    && ride.pickup in locations
    && a == Alert(ride.rideId, ride.userId, ride.pickup, ride.destination,
                  dist(puller.currentLat, puller.currentLng,
                       locations[ride.pickup].lat, locations[ride.pickup].lng))
  }

  /** Every alert built from stored rides describes the stored ride it
      names. */
  lemma {:induction false} AlertsDescribeRides(rs: seq<Ride>, rides: map<string, Ride>,
                                               locations: map<string, Location>, puller: Puller,
                                               dist: Distance)
    requires forall x :: x in rs ==> x.rideId in rides && rides[x.rideId] == x
    ensures forall a :: a in AlertsFor(rs, locations, puller, dist) ==>
              a.rideId in rides && Describes(a, rides[a.rideId], locations, puller, dist)
  {
    if rs != [] {
      var n := |rs| - 1;
      var pre := rs[..n];
      assert forall x :: x in pre ==> x in rs;
      AlertsDescribeRides(pre, rides, locations, puller, dist);
      var front := AlertsFor(pre, locations, puller, dist);
      var tail := AlertsOfRide(rs[n], locations, puller, dist);
      assert AlertsFor(rs, locations, puller, dist) == front + tail;
      assert rs[n] in rs;
      forall a | a in tail
        ensures a.rideId in rides && Describes(a, rides[a.rideId], locations, puller, dist)
      {
        assert a == tail[0];
      }
    }
  }

  function AlertRideId(a: Alert): string {
    a.rideId
  }

  /** The ids of the rides an alert list names. */
  function AlertIds(alerts: seq<Alert>): set<string> {
    set a | a in alerts :: a.rideId
  }

  /** The ids of the rides of `rs` whose pickup name resolves. */
  function ResolvableIds(rs: seq<Ride>, locations: map<string, Location>): set<string> {
    set r | r in rs && r.pickup in locations :: r.rideId
  }

  /** The alerts name exactly the rides of `rs` whose pickup resolves. */
  lemma {:induction false} AlertsForIds(rs: seq<Ride>, locations: map<string, Location>,
                                        puller: Puller, dist: Distance)
    ensures AlertIds(AlertsFor(rs, locations, puller, dist)) == ResolvableIds(rs, locations)
  {
    if rs != [] {
      var n := |rs| - 1;
      var pre := rs[..n];
      AlertsForIds(pre, locations, puller, dist);
      var front := AlertsFor(pre, locations, puller, dist);
      var tail := AlertsOfRide(rs[n], locations, puller, dist);
      assert AlertsFor(rs, locations, puller, dist) == front + tail;
      assert AlertIds(front + tail) == AlertIds(front) + AlertIds(tail);
      assert rs == pre + [rs[n]];
      assert ResolvableIds(rs, locations) == ResolvableIds(pre, locations) + ResolvableIds([rs[n]], locations);
    }
  }

  /** Rides with distinct ids get alerts with distinct ride ids. */
  lemma {:induction false} AlertsForDistinct(rs: seq<Ride>, locations: map<string, Location>,
                                             puller: Puller, dist: Distance)
    requires DistinctBy(rs, RideIdOf)
    ensures DistinctBy(AlertsFor(rs, locations, puller, dist), AlertRideId)
  {
    if rs != [] {
      var n := |rs| - 1;
      var pre := rs[..n];
      assert DistinctBy(pre, RideIdOf);
      AlertsForDistinct(pre, locations, puller, dist);
      AlertsForIds(pre, locations, puller, dist);
      var front := AlertsFor(pre, locations, puller, dist);
      var tail := AlertsOfRide(rs[n], locations, puller, dist);
      var all := AlertsFor(rs, locations, puller, dist);
      assert all == front + tail;
      assert rs[n].rideId !in ResolvableIds(pre, locations);
      forall k | 0 <= k < |front| ensures front[k].rideId != rs[n].rideId {
        assert front[k].rideId in AlertIds(front);
      }
      forall k, l | 0 <= k < l < |all| ensures all[k].rideId != all[l].rideId {
        if l < |front| {
          assert all[k] == front[k] && all[l] == front[l];
        } else {
          assert all[k] == front[k];
          assert all[l] == tail[l - |front|];
        }
      }
    }
  }

  /** The ids of the pending rides whose pickup name resolves. */
  function AlertableIds(rides: map<string, Ride>, locations: map<string, Location>): set<string> {
    set id | id in rides && rides[id].status == Pending && rides[id].pickup in locations
  }

  /** The pending rides of a consistent table carry distinct ids, and those
      whose pickup resolves are exactly the alertable ones. */
  lemma PendingRidesExact(rides: map<string, Ride>, rideOrder: seq<string>,
                          locations: map<string, Location>)
    requires Enumerates(rides, rideOrder) && RidesKeyed(rides)
    ensures DistinctBy(PendingRides(rides, rideOrder), RideIdOf)
    ensures ResolvableIds(PendingRides(rides, rideOrder), locations) == AlertableIds(rides, locations)
  {
    var pending := PendingRides(rides, rideOrder);
    SelectRides(rides, rideOrder, IsPending);
    forall id | id in AlertableIds(rides, locations) ensures id in ResolvableIds(pending, locations) {
      assert id in RideIds(pending);
      var r :| r in pending && r.rideId == id;
    }
  }

  /** For a consistent session the alert list names exactly the pending rides
      whose pickup resolves, each once, nearest first. */
  lemma AlertListExact(rides: map<string, Ride>, rideOrder: seq<string>,
                       locations: map<string, Location>, puller: Puller, dist: Distance)
    requires Enumerates(rides, rideOrder) && RidesKeyed(rides)
    ensures var alerts := SortByKey(AlertsFor(PendingRides(rides, rideOrder), locations, puller, dist),
                                    AlertDistance);
      && SortedBy(alerts, AlertDistance)
      && AlertIds(alerts) == AlertableIds(rides, locations)
      && DistinctBy(alerts, AlertRideId)
      && (forall a :: a in alerts ==>
            a.rideId in rides && Describes(a, rides[a.rideId], locations, puller, dist))
  {
    var pending := PendingRides(rides, rideOrder);
    var unsorted := AlertsFor(pending, locations, puller, dist);
    var alerts := SortByKey(unsorted, AlertDistance);
    SortByKeySorted(unsorted, AlertDistance);
    SortByKeyPermutes(unsorted, AlertDistance);
    PendingRidesExact(rides, rideOrder, locations);
    AlertsForIds(pending, locations, puller, dist);
    AlertsForDistinct(pending, locations, puller, dist);
    SortByKeyDistinct(unsorted, AlertDistance, AlertRideId);
    SelectRides(rides, rideOrder, IsPending);
    AlertsDescribeRides(pending, rides, locations, puller, dist);
    assert forall a :: a in alerts <==> a in unsorted by {
      forall a ensures a in alerts <==> a in unsorted {
        assert a in alerts <==> a in multiset(alerts);
        assert a in unsorted <==> a in multiset(unsorted);
      }
    }
    assert AlertIds(alerts) == AlertIds(unsorted);
  }

  /** `GET /{puller_id}/alerts`: 404 for an unknown puller; otherwise one
      alert per pending ride whose pickup name resolves, nearest to the
      puller first, rides at equal distance in query order. */
  method GetAlerts(db: Session, pullerId: string, dist: Distance) returns (r: Result<seq<Alert>>)
    requires db.Valid()
    ensures pullerId !in db.pullers <==> r == Failure(PullerNotFound)
    ensures pullerId in db.pullers ==> r.Success?
    ensures r.Success? ==>
      r.value == SortByKey(AlertsFor(PendingRides(db.rides, db.rideOrder), db.locations,
                                     db.pullers[pullerId], dist), AlertDistance)
    ensures r.Success? ==> SortedBy(r.value, AlertDistance)
    ensures r.Success? ==> AlertIds(r.value) == AlertableIds(db.rides, db.locations)
    ensures r.Success? ==> DistinctBy(r.value, AlertRideId)
    ensures r.Success? ==> forall a :: a in r.value ==>
              a.rideId in db.rides
              && Describes(a, db.rides[a.rideId], db.locations, db.pullers[pullerId], dist)
  {
    if pullerId !in db.pullers {
      return Failure(PullerNotFound);
    }
    var puller := db.pullers[pullerId];
    var pendingRides := Select(db.rides, db.rideOrder, IsPending);
    var alerts: seq<Alert> := [];
    var i := 0;
    while i < |pendingRides|
      invariant 0 <= i <= |pendingRides|
      invariant alerts == AlertsFor(pendingRides[..i], db.locations, puller, dist)
    {
      var ride := pendingRides[i];
      if ride.pickup in db.locations {
        var pickupLoc := db.locations[ride.pickup];
        var distance := dist(puller.currentLat, puller.currentLng, pickupLoc.lat, pickupLoc.lng);
        alerts := alerts + [Alert(ride.rideId, ride.userId, ride.pickup, ride.destination, distance)];
      }
      assert pendingRides[..i + 1][..i] == pendingRides[..i];
      i := i + 1;
    }
    assert pendingRides[..i] == pendingRides;
    alerts := StableSort(alerts, AlertDistance);
    AlertListExact(db.rides, db.rideOrder, db.locations, puller, dist);
    return Success(alerts);
  }

  /** `POST /{ride_id}/accept`: the one handler that checks the ride's
      status. 404 for an unknown ride, 400 unless the ride is pending;
      otherwise the ride gets the puller and the assigned status. The
      puller's own record is neither looked up nor touched. */
  method AcceptRide(db: Session, rideId: string, pullerId: string) returns (r: Result<string>)
    requires db.Valid()
    modifies db
    ensures db.Valid()
    ensures rideId !in old(db.rides) ==> r == Failure(RideNotFound) && unchanged(db)
    ensures rideId in old(db.rides) && old(db.rides[rideId]).status != Pending ==>
              r == Failure(AlreadyAssigned) && unchanged(db)
    ensures rideId in old(db.rides) && old(db.rides[rideId]).status == Pending ==>
              && r == Success("accepted")
              && db.rides == old(db.rides)[rideId := old(db.rides[rideId]).(pullerId := Some(pullerId),
                                                                             status := PullerAssigned)]
              && db.rideOrder == old(db.rideOrder) && db.pullers == old(db.pullers)
  {
    if rideId !in db.rides {
      return Failure(RideNotFound);
    }
    var ride := db.rides[rideId];
    if ride.status != Pending {
      return Failure(AlreadyAssigned);
    }
    ride := ride.(pullerId := Some(pullerId));
    ride := ride.(status := PullerAssigned);
    db.rides := db.rides[rideId := ride];
    return Success("accepted");
  }

  /** Two accepts of the same ride, one after the other: only the first can
      succeed, and the ride keeps the first puller. */
  method AcceptTwice(db: Session, rideId: string, first: string, second: string)
    returns (r1: Result<string>, r2: Result<string>)
    requires db.Valid()
    modifies db
    ensures db.Valid()
    ensures r1.Success? <==> rideId in old(db.rides) && old(db.rides[rideId]).status == Pending
    ensures r1.Success? ==>
              && r2 == Failure(AlreadyAssigned)
              && rideId in db.rides && db.rides[rideId].pullerId == Some(first)
    ensures r1.Failure? ==> r2 == r1 && unchanged(db)
  {
    r1 := AcceptRide(db, rideId, first);
    r2 := AcceptRide(db, rideId, second);
  }

  /** `POST /{ride_id}/pickup`: 404 for an unknown ride; otherwise the status
      becomes pickup whatever it was. */
  method ConfirmPickup(db: Session, rideId: string) returns (r: Result<bool>)
    requires db.Valid()
    modifies db
    ensures db.Valid()
    ensures rideId !in old(db.rides) ==> r == Failure(RideNotFound) && unchanged(db)
    ensures rideId in old(db.rides) ==>
              && r == Success(true)
              && db.rides == old(db.rides)[rideId := old(db.rides[rideId]).(status := Pickup)]
              && db.rideOrder == old(db.rideOrder) && db.pullers == old(db.pullers)
  {
    if rideId !in db.rides {
      return Failure(RideNotFound);
    }
    var ride := db.rides[rideId];
    db.rides := db.rides[rideId := ride.(status := Pickup)];
    return Success(true);
  }

  /** The ride names a puller that exists. */
  predicate HasPuller(ride: Ride, pullers: map<string, Puller>) {
    ride.pullerId.Some? && ride.pullerId.value in pullers
  }

  /** The ride as completion leaves it: dropoff and completion time stored,
      the points of the rule awarded, and the status completed unless the
      rule sent it to review. */
  function CompletedRide(ride: Ride, dropoffLat: real, dropoffLng: real, now: int,
                         locations: map<string, Location>, dist: Distance): (r: Ride)
    ensures r == ride.(dropoffLat := r.dropoffLat, dropoffLng := r.dropoffLng, status := r.status,
                       completedAt := r.completedAt, pointsAwarded := r.pointsAwarded)
    ensures r.dropoffLat == Some(dropoffLat) && r.dropoffLng == Some(dropoffLng)
    ensures r.completedAt == Some(now)
    ensures r.status == PendingReview <==> PointsService.NeedsReview(ride, locations, dist)
    ensures r.status != PendingReview ==> r.status == Completed
    ensures r.pointsAwarded == PointsService.PointsOf(ride, locations, dist)
    ensures 0 <= r.pointsAwarded <= 10
    ensures r.status == PendingReview ==> r.pointsAwarded == 0
  {
    ride.(dropoffLat := Some(dropoffLat), dropoffLng := Some(dropoffLng),
          status := if PointsService.NeedsReview(ride, locations, dist) then PendingReview else Completed,
          completedAt := Some(now),
          pointsAwarded := PointsService.PointsOf(ride, locations, dist))
  }

  /** The puller credited with `p` points for one more ride. */
  function Credited(puller: Puller, p: int): (r: Puller)
    ensures r == puller.(points := r.points, totalRides := r.totalRides)
    ensures r.points - puller.points == p && r.totalRides - puller.totalRides == 1
  {
    puller.(points := puller.points + p, totalRides := puller.totalRides + 1)
  }

  /** `POST /{ride_id}/complete`: 404 for an unknown ride. Otherwise the ride
      stores the dropoff and completion time and becomes completed — or
      pending review, when the points rule says so — and is awarded `p`
      points, which its puller's balance gains along with one more ride.
      When the ride has no puller, or names one that does not exist, the
      handler fails on the missing record before committing: 500, and
      nothing changes. */
  method CompleteRide(db: Session, rideId: string, dropoffLat: real, dropoffLng: real, now: int,
                      dist: Distance)
    returns (r: Result<int>)
    requires db.Valid()
    modifies db
    ensures db.Valid()
    ensures rideId !in old(db.rides) ==> r == Failure(RideNotFound) && unchanged(db)
    ensures rideId in old(db.rides) && !HasPuller(old(db.rides[rideId]), old(db.pullers)) ==>
              r == Failure(ServerError) && unchanged(db)
    ensures rideId in old(db.rides) && HasPuller(old(db.rides[rideId]), old(db.pullers)) ==>
              var ride := old(db.rides[rideId]);
              var pid := ride.pullerId.value;
              var p := PointsService.PointsOf(ride, db.locations, dist);
              && r == Success(p)
              && db.rides == old(db.rides)[rideId := CompletedRide(ride, dropoffLat, dropoffLng, now,
                                                                   db.locations, dist)]
              && db.pullers == old(db.pullers)[pid := Credited(old(db.pullers[pid]), p)]
              && db.rideOrder == old(db.rideOrder)
  {
    if rideId !in db.rides {
      return Failure(RideNotFound);
    }
    var ride := db.rides[rideId];
    ride := ride.(dropoffLat := Some(dropoffLat), dropoffLng := Some(dropoffLng));
    ride := ride.(status := Completed, completedAt := Some(now));
    var points;
    points, ride := PointsService.CalculatePoints(ride, db.locations, dist);
    ride := ride.(pointsAwarded := points);
    // The puller query finds no row for an absent or unknown puller id, and
    // the attribute access on None aborts the request before the commit.
    if ride.pullerId.None? || ride.pullerId.value !in db.pullers {
      return Failure(ServerError);
    }
    var puller := db.pullers[ride.pullerId.value];
    puller := puller.(points := puller.points + points);
    puller := puller.(totalRides := puller.totalRides + 1);
    assert ride == CompletedRide(db.rides[rideId], dropoffLat, dropoffLng, now, db.locations, dist);
    assert puller == Credited(db.pullers[puller.pullerId], points);
    RideUpdateKeepsConsistent(db.rides, db.rideOrder, db.pullers, db.pullerOrder, db.locations, ride);
    db.rides := db.rides[rideId := ride];
    PullerUpdateKeepsConsistent(db.rides, db.rideOrder, db.pullers, db.pullerOrder, db.locations, puller);
    db.pullers := db.pullers[puller.pullerId := puller];
    return Success(points);
  }

  /** `PUT /{puller_id}/location`: 404 for an unknown puller; otherwise only
      its coordinates change. */
  method UpdateLocation(db: Session, pullerId: string, lat: real, lng: real) returns (r: Result<bool>)
    requires db.Valid()
    modifies db
    ensures db.Valid()
    ensures pullerId !in old(db.pullers) ==> r == Failure(PullerNotFound) && unchanged(db)
    ensures pullerId in old(db.pullers) ==>
              && r == Success(true)
              && db.pullers == old(db.pullers)[pullerId := old(db.pullers[pullerId]).(currentLat := lat,
                                                                                     currentLng := lng)]
              && db.rides == old(db.rides) && db.rideOrder == old(db.rideOrder)
  {
    if pullerId !in db.pullers {
      return Failure(PullerNotFound);
    }
    var puller := db.pullers[pullerId];
    puller := puller.(currentLat := lat, currentLng := lng);
    db.pullers := db.pullers[pullerId := puller];
    return Success(true);
  }

  /** `GET /{puller_id}/history`: the rides assigned to the puller, in query
      order, each once; an unknown puller simply has none. */
  function GetHistory(db: Session, pullerId: string): (r: seq<Ride>)
    reads db
    requires db.Valid()
    ensures forall k :: 0 <= k < |r| ==> r[k].pullerId == Some(pullerId)
    ensures RideIds(r) == set id | id in db.rides && db.rides[id].pullerId == Some(pullerId)
    ensures forall x :: x in r ==> x.rideId in db.rides && db.rides[x.rideId] == x
    ensures DistinctBy(r, RideIdOf)
  {
    var toPuller := ((ride: Ride) => ride.pullerId == Some(pullerId));
    SelectRides(db.rides, db.rideOrder, toPuller);
    Select(db.rides, db.rideOrder, toPuller)
  }
}
