/** The HTTP outcomes a handler reports: a value on success, or the status
    code and detail of the `HTTPException` it raised. */
module Http {

  datatype HttpError = HttpError(statusCode: int, detail: string)

  datatype Result<+T> = Success(value: T) | Failure(error: HttpError)

  const RideNotFound := HttpError(404, "Ride not found")
  const PullerNotFound := HttpError(404, "Puller not found")
  const AlreadyAssigned := HttpError(400, "Ride already assigned")
  /** What the framework answers when a handler raises an exception it does
      not catch (an attribute of None, a failed commit). */
  const ServerError := HttpError(500, "Internal Server Error")
}

/** The database session the handlers share: the three tables, held as maps
    keyed by primary key, and the order in which a table query returns rows. */
module Store {
  import opened Models
  import opened Sorting

  /** `order` lists every key of `m` exactly once. */
  ghost predicate Enumerates<T>(m: map<string, T>, order: seq<string>) {
    && (forall i, j :: 0 <= i < j < |order| ==> order[i] != order[j])
    && (forall i :: 0 <= i < |order| ==> order[i] in m)
    && (forall k :: k in m ==> k in order)
  }

  /** Every row is stored under its own primary key. */
  ghost predicate RidesKeyed(rides: map<string, Ride>) {
    forall id :: id in rides ==> rides[id].rideId == id
  }

  ghost predicate PullersKeyed(pullers: map<string, Puller>) {
    forall id :: id in pullers ==> pullers[id].pullerId == id
  }

  ghost predicate LocationsKeyed(locations: map<string, Location>) {
    forall n :: n in locations ==> locations[n].name == n
  }

  /** Awarded points are what the points rule can produce, and balances and
      ride counters never go negative. */
  ghost predicate CountersInRange(rides: map<string, Ride>, pullers: map<string, Puller>) {
    && (forall id :: id in rides ==> 0 <= rides[id].pointsAwarded <= 10)
    && (forall id :: id in pullers ==> pullers[id].points >= 0 && pullers[id].totalRides >= 0)
  }

  ghost predicate Consistent(rides: map<string, Ride>, rideOrder: seq<string>,
                             pullers: map<string, Puller>, pullerOrder: seq<string>,
                             locations: map<string, Location>) {
    && Enumerates(rides, rideOrder) && RidesKeyed(rides)
    && Enumerates(pullers, pullerOrder) && PullersKeyed(pullers)
    && LocationsKeyed(locations)
    && CountersInRange(rides, pullers)
  }

  /** The rows of `m`, in query order, that satisfy `p`:
      `db.query(T).filter(p).all()`. */
  function Select<T>(m: map<string, T>, order: seq<string>, p: T -> bool): (r: seq<T>)
    requires forall i :: 0 <= i < |order| ==> order[i] in m
    ensures |r| <= |order|
    ensures forall k :: 0 <= k < |r| ==> p(r[k])
  {
    if order == [] then []
    else
      var last := m[order[|order| - 1]];
      Select(m, order[..|order| - 1], p) + (if p(last) then [last] else [])
  }

  /** Every row Select yields is a row of the table, and every row of the
      table that satisfies `p` is yielded. */
  lemma {:induction false} SelectExact<T>(m: map<string, T>, order: seq<string>, p: T -> bool)
    requires forall i :: 0 <= i < |order| ==> order[i] in m
    ensures forall x :: x in Select(m, order, p) ==> exists i :: 0 <= i < |order| && m[order[i]] == x
    ensures forall i :: 0 <= i < |order| && p(m[order[i]]) ==> m[order[i]] in Select(m, order, p)
  {
    if order != [] {
      var n := |order| - 1;
      SelectExact(m, order[..n], p);
      forall x | x in Select(m, order, p)
        ensures exists i :: 0 <= i < |order| && m[order[i]] == x
      {
        if x in Select(m, order[..n], p) {
          var i :| 0 <= i < n && m[order[..n][i]] == x;
          assert m[order[i]] == x;
        } else {
          assert m[order[n]] == x;
        }
      }
      forall i | 0 <= i < |order| && p(m[order[i]])
        ensures m[order[i]] in Select(m, order, p)
      {
        if i < n {
          assert order[..n][i] == order[i];
        }
      }
    }
  }

  /** When keys are distinct and each row carries its key, the rows Select
      yields carry distinct keys: no row is reported twice. */
  lemma {:induction false} SelectDistinct<T>(m: map<string, T>, order: seq<string>, p: T -> bool,
                                             key: T -> string)
    requires forall i :: 0 <= i < |order| ==> order[i] in m
    requires forall i, j :: 0 <= i < j < |order| ==> order[i] != order[j]
    requires forall i :: 0 <= i < |order| ==> key(m[order[i]]) == order[i]
    ensures DistinctBy(Select(m, order, p), key)
  {
    if order != [] {
      var n := |order| - 1;
      var pre := order[..n];
      SelectDistinct(m, pre, p, key);
      SelectExact(m, pre, p);
      var s := Select(m, pre, p);
      var last := m[order[n]];
      forall x | x in s ensures key(x) != order[n] {
        var i :| 0 <= i < |pre| && m[pre[i]] == x;
        assert pre[i] == order[i];
      }
      var r := Select(m, order, p);
      forall a, b | 0 <= a < b < |r| ensures key(r[a]) != key(r[b]) {
        if b < |s| {
          assert r[a] == s[a] && r[b] == s[b];
        } else {
          assert r[a] == s[a] && s[a] in s;
          assert r[b] == last;
        }
      }
    }
  }

  function RideIdOf(r: Ride): string {
    r.rideId
  }

  /** The ids of the rides in `rs`. */
  function RideIds(rs: seq<Ride>): set<string> {
    set r | r in rs :: r.rideId
  }

  /** A ride query over a consistent table reports each matching ride once
      and no other ride. */
  lemma SelectRides(rides: map<string, Ride>, order: seq<string>, p: Ride -> bool)
    requires Enumerates(rides, order) && RidesKeyed(rides)
    ensures DistinctBy(Select(rides, order, p), RideIdOf)
    ensures RideIds(Select(rides, order, p)) == set id | id in rides && p(rides[id])
    ensures forall r :: r in Select(rides, order, p) ==> r.rideId in rides && rides[r.rideId] == r
  {
    var sel := Select(rides, order, p);
    SelectExact(rides, order, p);
    SelectDistinct(rides, order, p, RideIdOf);
    forall id | id in rides && p(rides[id]) ensures id in RideIds(sel) {
      var m :| 0 <= m < |order| && order[m] == id;
      assert rides[id] in sel;
    }
    forall r | r in sel ensures r.rideId in rides && rides[r.rideId] == r {
      var m :| 0 <= m < |order| && rides[order[m]] == r;
    }
  }

  /** Rewriting a ride under its own id keeps the tables consistent. */
  lemma RideUpdateKeepsConsistent(rides: map<string, Ride>, rideOrder: seq<string>,
                                  pullers: map<string, Puller>, pullerOrder: seq<string>,
                                  locations: map<string, Location>, ride: Ride)
    requires Consistent(rides, rideOrder, pullers, pullerOrder, locations)
    requires ride.rideId in rides && 0 <= ride.pointsAwarded <= 10
    ensures Consistent(rides[ride.rideId := ride], rideOrder, pullers, pullerOrder, locations)
  {
  }

  /** Rewriting a puller under its own id, with a balance and a ride count
      that are not negative, keeps the tables consistent. */
  lemma PullerUpdateKeepsConsistent(rides: map<string, Ride>, rideOrder: seq<string>,
                                    pullers: map<string, Puller>, pullerOrder: seq<string>,
                                    locations: map<string, Location>, puller: Puller)
    requires Consistent(rides, rideOrder, pullers, pullerOrder, locations)
    requires puller.pullerId in pullers && puller.points >= 0 && puller.totalRides >= 0
    ensures Consistent(rides, rideOrder, pullers[puller.pullerId := puller], pullerOrder, locations)
  {
  }

  /** Adding a ride under a fresh id, at the end of the query order, keeps
      the tables consistent. */
  lemma RideInsertKeepsConsistent(rides: map<string, Ride>, rideOrder: seq<string>,
                                  pullers: map<string, Puller>, pullerOrder: seq<string>,
                                  locations: map<string, Location>, ride: Ride)
    requires Consistent(rides, rideOrder, pullers, pullerOrder, locations)
    requires ride.rideId !in rides && 0 <= ride.pointsAwarded <= 10
    ensures Consistent(rides[ride.rideId := ride], rideOrder + [ride.rideId], pullers, pullerOrder,
                       locations)
  {
    var order := rideOrder + [ride.rideId];
    forall i, j | 0 <= i < j < |order| ensures order[i] != order[j] {
      if j == |rideOrder| {
        assert order[i] == rideOrder[i] && rideOrder[i] in rides;
      }
    }
  }

  /** The session: one map per table and the row order of the tables a
      handler may add rows to. Locations are reference data the dispatch core
      never writes, so they are fixed for the session's lifetime. */
  class Session {
    var rides: map<string, Ride>
    var rideOrder: seq<string>
    var pullers: map<string, Puller>
    const pullerOrder: seq<string>
    const locations: map<string, Location>

    ghost predicate Valid()
      reads this
    {
      Consistent(rides, rideOrder, pullers, pullerOrder, locations)
    }

    /** Opens a session on tables as they stand. */
    constructor (rides: map<string, Ride>, rideOrder: seq<string>,
                 pullers: map<string, Puller>, pullerOrder: seq<string>,
                 locations: map<string, Location>)
      requires Consistent(rides, rideOrder, pullers, pullerOrder, locations)
      ensures Valid()
      ensures this.rides == rides && this.rideOrder == rideOrder
      ensures this.pullers == pullers && this.pullerOrder == pullerOrder
      ensures this.locations == locations
    {
      this.rides := rides;
      this.rideOrder := rideOrder;
      this.pullers := pullers;
      this.pullerOrder := pullerOrder;
      this.locations := locations;
    }
  }
}
