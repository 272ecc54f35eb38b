/** The background sweep `check_ride_timeouts`: pending rides older than a
    minute become timed out. */
module Timeouts {
  import opened Models
  import opened Store

  /** How long, in seconds, a ride may stay pending. */
  const TimeoutSeconds := 60

  /** A pending ride created before the threshold `now - 60`. */
  predicate IsStale(ride: Ride, now: int) {
    ride.status == Pending && ride.createdAt < now - TimeoutSeconds
  }

  /** The ride table after a sweep at time `now`. */
  function Expire(rides: map<string, Ride>, now: int): (r: map<string, Ride>)
    ensures r.Keys == rides.Keys
    ensures forall id :: id in rides ==> r[id] == rides[id].(status := r[id].status)
    ensures forall id :: id in rides && IsStale(rides[id], now) ==> r[id].status == Timeout
    ensures forall id :: id in rides && !IsStale(rides[id], now) ==> r[id] == rides[id]
    ensures forall id :: id in r ==> !IsStale(r[id], now)
  {
    map id | id in rides :: if IsStale(rides[id], now) then rides[id].(status := Timeout) else rides[id]
  }

  /** A second sweep at the same time finds nothing to do. */
  lemma ExpireIdempotent(rides: map<string, Ride>, now: int)
    ensures Expire(Expire(rides, now), now) == Expire(rides, now)
  {
    var once := Expire(rides, now);
    assert forall id :: id in once ==> Expire(once, now)[id] == once[id];
  }

  /** Sweeps compose: a sweep at `t1` followed by one at a later `t2` leaves
      the table as the single sweep at `t2` does, so sweeping more often only
      makes rides expire sooner, never differently. */
  lemma ExpireLater(rides: map<string, Ride>, t1: int, t2: int)
    requires t1 <= t2
    ensures Expire(Expire(rides, t1), t2) == Expire(rides, t2)
  {
    var once := Expire(rides, t1);
    forall id | id in rides ensures Expire(once, t2)[id] == Expire(rides, t2)[id] {
      if IsStale(rides[id], t1) {
        assert IsStale(rides[id], t2);
      }
    }
  }

  /** A ride exactly 60 seconds old is left pending; one second later it
      expires. */
  lemma ExpireBoundary(rides: map<string, Ride>, id: string, now: int)
    requires id in rides && rides[id].status == Pending && rides[id].createdAt == now - TimeoutSeconds
    ensures Expire(rides, now)[id].status == Pending
    ensures Expire(rides, now + 1)[id].status == Timeout
  {
  }

  /** `rides` with the rides named in `ids` timed out. */
  ghost function MarkedOut(rides: map<string, Ride>, ids: set<string>): map<string, Ride> {
    map id | id in rides :: if id in ids then rides[id].(status := Timeout) else rides[id]
  }

  /** Timing out one more ride extends the set of rides marked. */
  lemma MarkOneMore(rides: map<string, Ride>, ids: set<string>, id: string)
    requires id in rides
    ensures MarkedOut(rides, ids)[id := rides[id].(status := Timeout)] == MarkedOut(rides, ids + {id})
  {
  }

  /** Marking exactly the stale rides is the sweep. */
  lemma MarkStaleIsExpire(rides: map<string, Ride>, now: int)
    ensures MarkedOut(rides, set id | id in rides && IsStale(rides[id], now)) == Expire(rides, now)
  {
  }

  /** A sweep keeps the tables consistent. */
  lemma ExpireKeepsConsistent(rides: map<string, Ride>, rideOrder: seq<string>,
                              pullers: map<string, Puller>, pullerOrder: seq<string>,
                              locations: map<string, Location>, now: int)
    requires Consistent(rides, rideOrder, pullers, pullerOrder, locations)
    ensures Consistent(Expire(rides, now), rideOrder, pullers, pullerOrder, locations)
  {
  }

  /** Sets the status of each ride of `expired` to timed out, in turn. */
  method MarkTimedOut(rides: map<string, Ride>, expired: seq<Ride>) returns (r: map<string, Ride>)
    requires forall x :: x in expired ==> x.rideId in rides && rides[x.rideId] == x
    ensures r == MarkedOut(rides, RideIds(expired))
  {
    r := rides;
    assert expired[..0] == [];
    var i := 0;
    while i < |expired|
      invariant 0 <= i <= |expired|
      invariant r == MarkedOut(rides, RideIds(expired[..i]))
    {
      var ride := expired[i];
      assert ride in expired;
      assert expired[..i + 1] == expired[..i] + [ride];
      assert RideIds(expired[..i + 1]) == RideIds(expired[..i]) + {ride.rideId};
      MarkOneMore(rides, RideIds(expired[..i]), ride.rideId);
      r := r[ride.rideId := ride.(status := Timeout)];
      i := i + 1;
    }
    assert expired[..i] == expired;
  }

  /** `check_ride_timeouts`, reading the creation time: every stale ride the
      query finds is marked timed out, the marks are committed together, and
      the rest of the session is left alone. */
  method CheckRideTimeouts(db: Session, now: int)
    requires db.Valid()
    modifies db
    ensures db.Valid()
    ensures db.rides == Expire(old(db.rides), now)
    ensures db.rideOrder == old(db.rideOrder) && db.pullers == old(db.pullers)
  {
    var stale := (ride: Ride) => IsStale(ride, now);
    var expiredRides := Select(db.rides, db.rideOrder, stale);
    SelectRides(db.rides, db.rideOrder, stale);
    var rides := MarkTimedOut(db.rides, expiredRides);
    MarkStaleIsExpire(db.rides, now);
    ExpireKeepsConsistent(db.rides, db.rideOrder, db.pullers, db.pullerOrder, db.locations, now);
    db.rides := rides;
  }

  /** The sweep as the source writes it. Its query filters on the column
      `requested_at`, which the ride table does not have; the attribute
      lookup raises, the handler rolls back, and the table is left as it
      was. */
  function SweepAsWritten(rides: map<string, Ride>, now: int): (r: map<string, Ride>)
    ensures r == rides
  {
    if "requested_at" in RideColumns then Expire(rides, now) else rides
  }

  /** A ride requested at time 0 is still pending after the sweep at time 61
      as written, though it has been pending for more than a minute; the
      corrected sweep times it out. */
  lemma SweepAsWrittenNeverExpires()
    ensures var rides := map["ride_0000abcd" := NewRide("ride_0000abcd", "user_1", "A", "B", 0)];
      && SweepAsWritten(rides, 61)["ride_0000abcd"].status == Pending
      && Expire(rides, 61)["ride_0000abcd"].status == Timeout
  {
    var rides := map["ride_0000abcd" := NewRide("ride_0000abcd", "user_1", "A", "B", 0)];
    assert IsStale(rides["ride_0000abcd"], 61);
  }
}
