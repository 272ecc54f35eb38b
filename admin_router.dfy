/** The admin endpoints: the review queue, approving a reviewed ride, and
    ride analytics. */
module AdminRouter {
  import opened Models
  import opened Http
  import opened Store
  import opened Sorting

  predicate IsPendingReview(r: Ride) {
    r.status == PendingReview
  }

  /** `GET /rides/pending-review`: the rides awaiting review, in query order,
      each once. */
  function GetPendingReview(db: Session): (r: seq<Ride>)
    reads db
    requires db.Valid()
    ensures forall k :: 0 <= k < |r| ==> r[k].status == PendingReview
    ensures RideIds(r) == ReviewIds(db.rides)
    ensures forall x :: x in r ==> x.rideId in db.rides && db.rides[x.rideId] == x
    ensures DistinctBy(r, RideIdOf)
  {
    SelectRides(db.rides, db.rideOrder, IsPendingReview);
    Select(db.rides, db.rideOrder, IsPendingReview)
  }

  /** `POST /rides/{ride_id}/approve`: 404 for an unknown ride; otherwise the
      ride becomes completed, whatever its status was. No points move: a
      reviewed ride keeps the award it had. */
  method ApproveRide(db: Session, rideId: string) returns (r: Result<bool>)
    requires db.Valid()
    modifies db
    ensures db.Valid()
    ensures rideId !in old(db.rides) ==> r == Failure(RideNotFound) && unchanged(db)
    ensures rideId in old(db.rides) ==>
              && r == Success(true)
              && db.rides == old(db.rides)[rideId := old(db.rides[rideId]).(status := Completed)]
              && db.rideOrder == old(db.rideOrder) && db.pullers == old(db.pullers)
  {
    if rideId !in db.rides {
      return Failure(RideNotFound);
    }
    var ride := db.rides[rideId];
    ride := ride.(status := Completed);
    db.rides := db.rides[rideId := ride];
    return Success(true);
  }

  /** Approving a ride takes it off the review queue and leaves every other
      ride's place on it as it was. */
  lemma ApprovalLeavesQueue(rides: map<string, Ride>, id: string)
    requires id in rides
    ensures var after := rides[id := rides[id].(status := Completed)];
      && ReviewIds(after) == ReviewIds(rides) - {id}
  {
    var after := rides[id := rides[id].(status := Completed)];
    forall x ensures x in ReviewIds(after) <==> x in ReviewIds(rides) - {id} {
      if x != id && x in rides {
        assert after[x] == rides[x];
      }
    }
  }

  /** The ids of the rides awaiting review. */
  function ReviewIds(rides: map<string, Ride>): set<string> {
    set id | id in rides && rides[id].status == PendingReview
  }

  /** The body of `GET /analytics`. */
  datatype Analytics = Analytics(totalRides: nat, completedRides: nat, completionRate: real)

  /** The ids of the completed rides. */
  function CompletedIds(rides: map<string, Ride>): (r: set<string>)
    ensures r <= rides.Keys
  {
    set id | id in rides && rides[id].status == Completed
  }

  /** A subset is never larger than its superset. */
  lemma {:induction false} SubsetNoLarger<T>(a: set<T>, b: set<T>)
    requires a <= b
    ensures |a| <= |b|
    decreases |b|
  {
    if a != {} {
      var x :| x in a;
      SubsetNoLarger(a - {x}, b - {x});
    }
  }

  /** `GET /analytics`: the number of rides, the number completed, and the
      completed share as a percentage — 0 when there are no rides. */
  function GetAnalytics(db: Session): (r: Analytics)
    reads db
    ensures r.totalRides == |db.rides| && r.completedRides == |CompletedIds(db.rides)|
    ensures r.completedRides <= r.totalRides
    ensures 0.0 <= r.completionRate <= 100.0
    ensures r.totalRides == 0 ==> r.completionRate == 0.0
    ensures r.totalRides > 0 ==>
              r.completionRate * r.totalRides as real == 100.0 * r.completedRides as real
  {
    var total := |db.rides|;
    var completed := |CompletedIds(db.rides)|;
    SubsetNoLarger(CompletedIds(db.rides), db.rides.Keys);
    assert |db.rides.Keys| == total;
    if total > 0 then
      var share := completed as real / total as real;
      assert share <= 1.0 by {
        assert completed as real <= total as real;
      }
      Analytics(total, completed, share * 100.0)
    else Analytics(total, completed, 0.0)
  }
}
