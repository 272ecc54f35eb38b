/** The tables of the ride-dispatch backend: status vocabularies, the Ride,
    Puller and Location records and the defaults their columns declare.
    Coordinates and distances are reals, timestamps are whole seconds. */
module Models {

  datatype Option<+T> = None | Some(value: T)

  /** A distance in metres. */
  type Metres = r: real | r >= 0.0

  /** The great-circle distance `haversine_distance(lat1, lng1, lat2, lng2)`.
      Its trigonometry is not part of this model: callers supply it, and all
      that is relied on is that it never returns a negative distance. */
  type Distance = (real, real, real, real) -> Metres

  /** The role column of the users table: an account is an admin or a
      puller. */
  datatype UserRole = AdminRole | PullerRole {
    /** The string the enum member stands for. */
    function Value(): string {
      match this
      case AdminRole => "admin"
      case PullerRole => "puller"
    }
  }

  /** The enum lookup `UserRole(s)`: the member whose value is `s`, if any. */
  function ParseUserRole(s: string): (r: Option<UserRole>)
    ensures r.Some? ==> r.value.Value() == s
  {
    if s == "admin" then Some(AdminRole)
    else if s == "puller" then Some(PullerRole)
    else None
  }

  /** Every role is recovered from its string. */
  lemma UserRoleRoundTrip(role: UserRole)
    ensures ParseUserRole(role.Value()) == Some(role)
  {
  }

  /** The eight states a ride can be in; no other status exists. */
  datatype RideStatus =
    | Pending
    | PullerAssigned
    | Confirmed
    | Pickup
    | Completed
    | Timeout
    | PendingReview
    | Rejected
  {
    /** The string the enum member stands for (what `status.value` yields). */
    function Value(): string {
      match this
      case Pending => "pending"
      case PullerAssigned => "puller_assigned"
      case Confirmed => "confirmed"
      case Pickup => "pickup"
      case Completed => "completed"
      case Timeout => "timeout"
      case PendingReview => "pending_review"
      case Rejected => "rejected"
    }
  }

  /** The enum lookup `RideStatus(s)`: the member whose value is `s`, if any. */
  function ParseRideStatus(s: string): (r: Option<RideStatus>)
    ensures r.Some? ==> r.value.Value() == s
  {
    if s == "pending" then Some(Pending)
    else if s == "puller_assigned" then Some(PullerAssigned)
    else if s == "confirmed" then Some(Confirmed)
    else if s == "pickup" then Some(Pickup)
    else if s == "completed" then Some(Completed)
    else if s == "timeout" then Some(Timeout)
    else if s == "pending_review" then Some(PendingReview)
    else if s == "rejected" then Some(Rejected)
    else None
  }

  /** Every status is recovered from its string, so two statuses never share one. */
  lemma RideStatusRoundTrip(st: RideStatus)
    ensures ParseRideStatus(st.Value()) == Some(st)
  {
  }

  datatype PullerStatus = Available | Busy | Offline {
    function Value(): string {
      match this
      case Available => "available"
      case Busy => "busy"
      case Offline => "offline"
    }
  }

  /** The enum lookup `PullerStatus(s)`: the member whose value is `s`, if any. */
  function ParsePullerStatus(s: string): (r: Option<PullerStatus>)
    ensures r.Some? ==> r.value.Value() == s
  {
    if s == "available" then Some(Available)
    else if s == "busy" then Some(Busy)
    else if s == "offline" then Some(Offline)
    else None
  }

  /** Every puller status is recovered from its string. */
  lemma PullerStatusRoundTrip(st: PullerStatus)
    ensures ParsePullerStatus(st.Value()) == Some(st)
  {
  }

  /** A row of the `rides` table. `pullerId`, the dropoff coordinates and
      `completedAt` are the nullable columns. */
  datatype Ride = Ride(
    rideId: string,
    userId: string,
    pullerId: Option<string>,
    pickup: string,        // a Location name
    destination: string,   // a Location name
    status: RideStatus,
    dropoffLat: Option<real>,
    dropoffLng: Option<real>,
    pointsAwarded: int,
    createdAt: int,
    completedAt: Option<int>)

  /** A row of the `pullers` table. */
  datatype Puller = Puller(
    pullerId: string,
    userId: string,
    currentLat: real,
    currentLng: real,
    points: int,
    status: PullerStatus,
    totalRides: int,
    rating: real,
    createdAt: int)

  /** A row of the `locations` table, keyed by its name. */
  datatype Location = Location(name: string, lat: real, lng: real)

  /** The column names `Ride` declares; the ORM refuses any other attribute. */
  const RideColumns: set<string> := {
    "ride_id", "user_id", "puller_id", "pickup", "destination", "status",
    "dropoff_lat", "dropoff_lng", "points_awarded", "created_at", "completed_at"
  }

  /** `Ride(...)` given the named fields: every other column takes its
      default, and `created_at` is the clock reading `now`. */
  function NewRide(rideId: string, userId: string, pickup: string, destination: string,
                   now: int, status: RideStatus := Pending): (r: Ride)
    ensures r.rideId == rideId && r.userId == userId
    ensures r.pickup == pickup && r.destination == destination
    ensures r.status == status && r.createdAt == now
    ensures r.pullerId == None && r.completedAt == None
    ensures r.dropoffLat == None && r.dropoffLng == None
    ensures r.pointsAwarded == 0
  {
    Ride(rideId, userId, None, pickup, destination, status, None, None, 0, now, None)
  }

  /** `Puller(puller_id=..., user_id=...)`: a new puller is offline at
      (0.0, 0.0) with no points, no rides and no rating. */
  function NewPuller(pullerId: string, userId: string, now: int): (p: Puller)
    ensures p.pullerId == pullerId && p.userId == userId && p.createdAt == now
    ensures p.status == Offline
    ensures p.points == 0 && p.totalRides == 0
    ensures p.currentLat == 0.0 && p.currentLng == 0.0 && p.rating == 0.0
  {
    Puller(pullerId, userId, 0.0, 0.0, 0, Offline, 0, 0.0, now)
  }
}
