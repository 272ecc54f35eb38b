/** The rider endpoints: requesting a ride, reading its status, and the
    rider's accept or reject of the puller who took it. */
module RidesRouter {
  import opened Models
  import opened Http
  import opened Store
  import AlertService
  import PullersRouter

  /** What `uuid4().hex[:8]` yields: eight lower-case hexadecimal digits. */
  predicate IsHexToken(token: string) {
    |token| == 8 && forall i :: 0 <= i < |token| ==> token[i] in "0123456789abcdef"
  }

  /** The ride id built from a token. */
  function RideIdFor(token: string): (id: string)
    ensures |id| == |token| + 5 && id[..5] == "ride_" && id[5..] == token
  {
    "ride_" + token
  }

  /** Distinct tokens give distinct ride ids. */
  lemma RideIdForInjective(t1: string, t2: string)
    requires RideIdFor(t1) == RideIdFor(t2)
    ensures t1 == t2
  {
    assert t1 == RideIdFor(t1)[5..];
  }

  /** `POST /request`: a pending ride under the id `ride_<token>`, with no
      puller, created now and appended to the ride table; then alerts are
      distributed for its pickup, whose ranking the handler does not use.
      When the id is already taken the commit fails on the primary key: 500,
      and nothing changes. */
  method RequestRide(db: Session, userId: string, userLocation: string, destination: string,
                     token: string, now: int, dist: Distance)
    returns (r: Result<string>)
    requires db.Valid()
    requires IsHexToken(token)
    modifies db
    ensures db.Valid()
    ensures RideIdFor(token) in old(db.rides) ==> r == Failure(ServerError) && unchanged(db)
    ensures RideIdFor(token) !in old(db.rides) ==>
              var id := RideIdFor(token);
              && r == Success(id)
              && db.rides == old(db.rides)[id := NewRide(id, userId, userLocation, destination, now)]
              && db.rideOrder == old(db.rideOrder) + [id]
              && db.pullers == old(db.pullers)
  {
    var rideId := RideIdFor(token);
    if rideId in db.rides {
      return Failure(ServerError);
    }
    var ride := NewRide(rideId, userId, userLocation, destination, now);
    RideInsertKeepsConsistent(db.rides, db.rideOrder, db.pullers, db.pullerOrder, db.locations, ride);
    db.rides := db.rides[rideId := ride];
    db.rideOrder := db.rideOrder + [rideId];
    var notified := AlertService.DistributeAlerts(db, rideId, userLocation, dist);
    return Success(rideId);
  }

  /** A ride just requested is on every puller's alert list exactly when its
      pickup name resolves, and the request changes no other ride's place
      on the lists. */
  lemma RequestedRideIsAlertable(rides: map<string, Ride>, locations: map<string, Location>,
                                 id: string, userId: string, pickup: string, destination: string,
                                 now: int)
    requires id !in rides
    ensures var after := rides[id := NewRide(id, userId, pickup, destination, now)];
      && (id in PullersRouter.AlertableIds(after, locations) <==> pickup in locations)
      && PullersRouter.AlertableIds(after, locations) - {id} == PullersRouter.AlertableIds(rides, locations)
  {
    var after := rides[id := NewRide(id, userId, pickup, destination, now)];
    assert PullersRouter.AlertableIds(after, locations) - {id} == PullersRouter.AlertableIds(rides, locations) by {
      forall x ensures x in PullersRouter.AlertableIds(after, locations) - {id} <==>
                       x in PullersRouter.AlertableIds(rides, locations) {
        if x != id {
          assert x in after <==> x in rides;
        }
      }
    }
  }

  /** The body of `GET /{ride_id}/status`. */
  datatype RideStatusView = RideStatusView(rideId: string, status: string, price: int,
                                           pullerId: Option<string>)

  /** Every ride is quoted the same fare. */
  const FixedPrice := 30

  /** `GET /{ride_id}/status`: 404 for an unknown ride; otherwise its status
      as the stored string value, the fixed fare and its puller. */
  function GetRideStatus(db: Session, rideId: string): (r: Result<RideStatusView>)
    reads db
    ensures rideId !in db.rides <==> r == Failure(RideNotFound)
    ensures rideId in db.rides ==> r.Success?
    ensures r.Success? ==>
              && r.value.rideId == rideId
              && ParseRideStatus(r.value.status) == Some(db.rides[rideId].status)
              && r.value.price == FixedPrice
              && r.value.pullerId == db.rides[rideId].pullerId
  {
    if rideId !in db.rides then Failure(RideNotFound)
    else
      var ride := db.rides[rideId];
      RideStatusRoundTrip(ride.status);
      Success(RideStatusView(rideId, ride.status.Value(), FixedPrice, ride.pullerId))
  }

  /** `POST /{ride_id}/user-accept`: 404 for an unknown ride; otherwise the
      ride becomes confirmed, whatever its status was. */
  method UserAcceptRide(db: Session, rideId: string) returns (r: Result<string>)
    requires db.Valid()
    modifies db
    ensures db.Valid()
    ensures rideId !in old(db.rides) ==> r == Failure(RideNotFound) && unchanged(db)
    ensures rideId in old(db.rides) ==>
              && r == Success("accept")
              && db.rides == old(db.rides)[rideId := old(db.rides[rideId]).(status := Confirmed)]
              && db.rideOrder == old(db.rideOrder) && db.pullers == old(db.pullers)
  {
    if rideId !in db.rides {
      return Failure(RideNotFound);
    }
    var ride := db.rides[rideId];
    ride := ride.(status := Confirmed);
    db.rides := db.rides[rideId := ride];
    return Success("accept");
  }

  /** `POST /{ride_id}/user-reject`: 404 for an unknown ride; otherwise the
      ride is pending again with no puller, and alerts are distributed once
      more for its pickup. */
  method UserRejectRide(db: Session, rideId: string, dist: Distance) returns (r: Result<string>)
    requires db.Valid()
    modifies db
    ensures db.Valid()
    ensures rideId !in old(db.rides) ==> r == Failure(RideNotFound) && unchanged(db)
    ensures rideId in old(db.rides) ==>
              && r == Success("reject")
              && db.rides == old(db.rides)[rideId := old(db.rides[rideId]).(status := Pending,
                                                                           pullerId := None)]
              && db.rideOrder == old(db.rideOrder) && db.pullers == old(db.pullers)
  {
    if rideId !in db.rides {
      return Failure(RideNotFound);
    }
    var ride := db.rides[rideId];
    ride := ride.(status := Pending, pullerId := None);
    db.rides := db.rides[rideId := ride];
    var notified := AlertService.DistributeAlerts(db, rideId, ride.pickup, dist);
    return Success("reject");
  }

  /** A rejected ride goes back on the alert lists when its pickup resolves;
      no other ride enters or leaves them. */
  lemma RejectedRideIsAlertedAgain(rides: map<string, Ride>, locations: map<string, Location>,
                                   id: string)
    requires id in rides
    ensures var after := rides[id := rides[id].(status := Pending, pullerId := None)];
      && (id in PullersRouter.AlertableIds(after, locations) <==> rides[id].pickup in locations)
      && PullersRouter.AlertableIds(after, locations) - {id}
         == PullersRouter.AlertableIds(rides, locations) - {id}
  {
    var after := rides[id := rides[id].(status := Pending, pullerId := None)];
    forall x ensures x in PullersRouter.AlertableIds(after, locations) - {id} <==>
                     x in PullersRouter.AlertableIds(rides, locations) - {id} {
      if x != id && x in rides {
        assert after[x] == rides[x];
      }
    }
  }
}
