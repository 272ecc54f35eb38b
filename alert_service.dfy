/** `distribute_alerts`: rank the available pullers by their distance to a
    pickup Location and keep the five nearest. Nothing is written. */
module AlertService {
  import opened Models
  import opened Store
  import opened Sorting

  /** How many pullers an alert goes to. */
  const AlertFanOut: nat := 5

  /** A `(puller, distance)` pair of `pullers_by_distance`. */
  datatype Nearby = Nearby(puller: Puller, distance: real)

  function NearbyDistance(n: Nearby): real {
    n.distance
  }

  predicate IsAvailable(p: Puller) {
    p.status == Available
  }

  /** The pullers of `ps`, each paired with its distance to `pickup`. */
  function WithDistances(ps: seq<Puller>, pickup: Location, dist: Distance): (r: seq<Nearby>)
    ensures |r| == |ps|
    ensures forall i :: 0 <= i < |r| ==> r[i].puller == ps[i]
    ensures forall i :: 0 <= i < |r| ==>
              r[i].distance == dist(ps[i].currentLat, ps[i].currentLng, pickup.lat, pickup.lng)
    ensures forall i :: 0 <= i < |r| ==> r[i].distance >= 0.0
  {
    if ps == [] then []
    else
      var p := ps[|ps| - 1];
      WithDistances(ps[..|ps| - 1], pickup, dist)
        + [Nearby(p, dist(p.currentLat, p.currentLng, pickup.lat, pickup.lng))]
  }

  /** The first `n` entries of the ranking, or all of them when fewer. */
  function Take<T>(s: seq<T>, n: nat): (r: seq<T>)
    ensures |r| == if |s| < n then |s| else n
    ensures r == s[..|r|]
  {
    if |s| <= n then s else s[..n]
  }

  /** The ranking the service returns, for available pullers listed in
      query order: the nearest five, nearest first. */
  function Nearest(available: seq<Puller>, pickup: Location, dist: Distance): seq<Nearby> {
    Take(SortByKey(WithDistances(available, pickup, dist), NearbyDistance), AlertFanOut)
  }

  /** The ranking keeps at most five pullers, never more than are available,
      all of them available, nearest first; and every available puller left
      out is at least as far as every puller kept. */
  lemma {:induction false} NearestIsClosest(available: seq<Puller>, pickup: Location, dist: Distance)
    requires forall i :: 0 <= i < |available| ==> IsAvailable(available[i])
    ensures var r := Nearest(available, pickup, dist);
      && |r| <= AlertFanOut && |r| <= |available|
      && (forall i :: 0 <= i < |r| ==> IsAvailable(r[i].puller))
      && SortedBy(r, NearbyDistance)
      && (forall x :: x in multiset(WithDistances(available, pickup, dist)) - multiset(r) ==>
            forall i :: 0 <= i < |r| ==> r[i].distance <= x.distance)
  {
    var all := WithDistances(available, pickup, dist);
    var sorted := SortByKey(all, NearbyDistance);
    SortByKeyPermutes(all, NearbyDistance);
    SortByKeySorted(all, NearbyDistance);
    var r := Take(sorted, AlertFanOut);
    var n := |r|;
    assert sorted == r + sorted[n..];
    assert multiset(sorted) == multiset(r) + multiset(sorted[n..]);
    forall i | 0 <= i < |r| ensures IsAvailable(r[i].puller) {
      assert r[i] in multiset(all);
      var j :| 0 <= j < |all| && all[j] == r[i];
    }
    forall x | x in multiset(all) - multiset(r)
      ensures forall i :: 0 <= i < |r| ==> r[i].distance <= x.distance
    {
      assert x in multiset(sorted[n..]);
      var j :| 0 <= j < |sorted[n..]| && sorted[n..][j] == x;
      assert sorted[n + j] == x;
      forall i | 0 <= i < |r| ensures r[i].distance <= x.distance {
        assert r[i] == sorted[i];
      }
    }
  }

  /** A puller just created is offline, so it is never ranked until its
      status becomes available. */
  lemma NewPullerIsNotRanked(pullerId: string, userId: string, now: int)
    ensures !IsAvailable(NewPuller(pullerId, userId, now))
  {
  }

  /** `distribute_alerts(ride_id, pickup_location, db)`: None when the pickup
      name has no Location; otherwise the nearest five available pullers,
      nearest first, ties in query order. It reads the session and writes
      nothing. */
  method DistributeAlerts(db: Session, rideId: string, pickupLocation: string, dist: Distance)
    returns (r: Option<seq<Nearby>>)
    requires db.Valid()
    ensures r.None? <==> pickupLocation !in db.locations
    ensures r.Some? ==> r.value == Nearest(Select(db.pullers, db.pullerOrder, IsAvailable),
                                           db.locations[pickupLocation], dist)
    ensures r.Some? ==> |r.value| <= AlertFanOut && SortedBy(r.value, NearbyDistance)
    ensures r.Some? ==> forall i :: 0 <= i < |r.value| ==>
              r.value[i].puller.pullerId in db.pullers
              && db.pullers[r.value[i].puller.pullerId] == r.value[i].puller
              && IsAvailable(r.value[i].puller)
  {
    if pickupLocation !in db.locations {
      return None;
    }
    var pickupLoc := db.locations[pickupLocation];
    var availablePullers := Select(db.pullers, db.pullerOrder, IsAvailable);
    var pullersByDistance: seq<Nearby> := [];
    var i := 0;
    while i < |availablePullers|
      invariant 0 <= i <= |availablePullers|
      invariant pullersByDistance == WithDistances(availablePullers[..i], pickupLoc, dist)
    {
      var puller := availablePullers[i];
      var distance := dist(puller.currentLat, puller.currentLng, pickupLoc.lat, pickupLoc.lng);
      assert availablePullers[..i + 1][..i] == availablePullers[..i];
      pullersByDistance := pullersByDistance + [Nearby(puller, distance)];
      i := i + 1;
    }
    assert availablePullers[..i] == availablePullers;
    pullersByDistance := StableSort(pullersByDistance, NearbyDistance);
    r := Some(Take(pullersByDistance, AlertFanOut));
    NearestIsClosest(availablePullers, pickupLoc, dist);
    SelectExact(db.pullers, db.pullerOrder, IsAvailable);
    forall k | 0 <= k < |r.value|
      ensures r.value[k].puller.pullerId in db.pullers
      ensures db.pullers[r.value[k].puller.pullerId] == r.value[k].puller
    {
      var all := WithDistances(availablePullers, pickupLoc, dist);
      SortByKeyPermutes(all, NearbyDistance);
      assert r.value[k] == pullersByDistance[k];
      assert r.value[k] in multiset(all);
      var j :| 0 <= j < |all| && all[j] == r.value[k];
      assert availablePullers[j] in availablePullers;
      var m :| 0 <= m < |db.pullerOrder| && db.pullers[db.pullerOrder[m]] == availablePullers[j];
    }
  }
}
