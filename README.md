# Ride dispatch core of the e-rickshaw backend

This project models the ride-dispatch core of a FastAPI backend for
e-rickshaw rides, and proves properties of that model. Riders request rides
between named Locations. Pullers (the drivers) poll for alerts about pending
rides, accept one, confirm the pickup and complete the ride, and earn points
for it. Admins review rides whose route was too long. A background sweep
times out rides that stay pending too long.

The database session is the class `Store.Session`. It holds three tables as
maps keyed by primary key (rides, pullers, locations), plus the order in
which a table query returns rows. Each handler is a module-level method that
takes the session as its parameter `db`, as the routes take theirs from
`Depends(get_db)`. A handler that commits changes has `modifies db`, and its
`ensures` gives the whole new state. Read-only queries are functions, or methods that modify
nothing. `Session.Valid` is the invariant that every handler keeps:
- every row is stored under its own key;
- the query order lists each key exactly once;
- an awarded points value lies in 0..10;
- balances and ride counts are never negative.

Two things the code takes from outside become parameters:
- the clock (`datetime.utcnow`) is an integer `now` in seconds;
- the great-circle distance is a function `Distance` that returns metres
  and is never negative.

Python's stable `list.sort(key=...)` is specified by the function
`Sorting.SortByKey`, an insertion sort. The method `Sorting.StableSort`
implements it with a loop. The model proves that the result is sorted, is a
permutation of the input, and keeps elements with equal keys in their
original order.

Modules, one per source file: `Models` (db_models.py), `PointsService`,
`AlertService`, `PullersRouter`, `RidesRouter`, `AdminRouter`, `Timeouts`
(`check_ride_timeouts` in main.py). `Store`, `Http` and `Sorting` hold the
session, the HTTP outcomes and the sort.

The model follows what the code does, with one exception: the timeout sweep
as written never expires a ride (see "## Findings"). `Timeouts.SweepAsWritten`
models it as written, and the rest of the model uses the corrected sweep,
which reads `created_at`. Behaviours of the code worth knowing:
- Points come from a linear rule, `max(0, int(10 - d/10))`. Here `d` is the
  distance from the pickup Location to the destination Location, not a
  measure of how accurate the dropoff was: the code never reads the dropoff.
- `accept_ride` is the only handler that checks the ride's current status.
  Pickup, complete, user accept, user reject and approve overwrite the
  status whatever it was.
- Accepting a ride neither marks the puller busy nor records when the ride
  was accepted.
- `request_ride` does not check that the Location names exist.
- `get_alerts` answers 404 for an unknown puller rather than an empty list.
- Alerts carry no expiry filter.
- `REJECTED` exists as a status, but no handler ever writes it.
- `complete_ride` does not check the ride's status either, so completing the
  same ride twice credits its puller twice: `CompleteRide` adds the points
  and one ride on every call.
- No handler of this core writes a puller's status. A puller is created
  offline, so `distribute_alerts` ranks it only after something outside
  this core makes it available (`AlertService.NewPullerIsNotRanked`).

## Model

| member | source | states |
|---|---|---|
| Models.ParseUserRole | backend/models/db_models.py:7-9 | the lookup from a string to a user role; whatever it returns has exactly that string as its value |
| Models.UserRoleRoundTrip | backend/models/db_models.py:7-9 | admin and puller are each recovered from their own string |
| Models.ParseRideStatus | backend/models/db_models.py:11-19 | the lookup from a string to a ride status; whatever it returns has exactly that string as its value |
| Models.RideStatusRoundTrip | backend/models/db_models.py:11-19 | each of the eight statuses comes back from its own string, so no two statuses share a value |
| Models.ParsePullerStatus | backend/models/db_models.py:21-24 | the lookup from a string to a puller status; whatever it returns has exactly that string as its value |
| Models.PullerStatusRoundTrip | backend/models/db_models.py:21-24 | each of the three puller statuses comes back from its own string |
| Models.NewRide | backend/models/db_models.py:62-75 | a new ride has the given id, user, pickup, destination and status (Pending unless one is given). Its puller, dropoff and completion time are absent, it has 0 points, and it is created at `now` |
| Models.NewPuller | backend/models/db_models.py:39-50 | a new puller is offline at (0.0, 0.0), with 0 points, 0 rides and rating 0.0 |
| PointsService.Trunc | backend/services/points_service.py:21 | Python's `int()` on a float truncates toward zero: the result lies within 1 of x, on the side of 0 |
| PointsService.PointsFor | backend/services/points_service.py:21 | the points formula always gives 0..10, and gives 0 beyond 100 m |
| PointsService.PointsAtZero | backend/services/points_service.py:21 | a distance of 0 earns exactly 10 points |
| PointsService.PointsBand | backend/services/points_service.py:21 | up to 90 m, a ride earns p points exactly when d lies in (90-10p, 100-10p]; past 90 m it earns 0 |
| PointsService.PointsNonIncreasing | backend/services/points_service.py:21 | a longer route never earns more points |
| PointsService.PointsOf | backend/services/points_service.py:8-21 | a ride's points lie in 0..10, and are 0 when the pickup or destination name does not resolve |
| PointsService.ReviewedRideEarnsNothing | backend/services/points_service.py:21-25 | a ride sent to review (route over 100 m) earns 0 points |
| PointsService.PointsIgnoreDropoff | backend/services/points_service.py:15-18 | changing the dropoff, the status or the completion time changes neither the points nor the review decision |
| PointsService.CalculatePoints | backend/services/points_service.py:5-27 | returns the ride's points. Only the ride's status can change, and it becomes pending_review exactly when the route is over 100 m. An unresolvable name gives 0 points and leaves the ride as it was |
| AlertService.WithDistances | backend/services/alert_service.py:21-26 | pairs each puller, in order, with its distance to the pickup Location, which is never negative |
| AlertService.Take | backend/services/alert_service.py:32 | the slice `[:5]` is the prefix of length min(5, n) |
| AlertService.NearestIsClosest | backend/services/alert_service.py:13-32 | the ranking has at most 5 entries and no more than the available pullers. All its entries are available, it is sorted by distance, and every available puller left out is at least as far as every puller kept |
| AlertService.NewPullerIsNotRanked | backend/models/db_models.py:47 | a newly created puller is offline, so it is never ranked |
| AlertService.DistributeAlerts | backend/services/alert_service.py:4-32 | returns None exactly when the pickup name does not resolve. Otherwise it returns the nearest-five ranking of the available pullers in query order, sorted, with every entry the stored row of an available puller. It writes nothing |
| Sorting.InsertPermutes | backend/services/alert_service.py:28 | inserting an element adds exactly that element to the multiset |
| Sorting.InsertSorted | backend/services/alert_service.py:28 | inserting into a sorted sequence keeps it sorted |
| Sorting.InsertStable | backend/services/alert_service.py:28 | the inserted element goes after every element with an equal key |
| Sorting.SortByKeyPermutes | backend/services/alert_service.py:28 | the sort is a permutation |
| Sorting.SortByKeySorted | backend/services/alert_service.py:28 | the sort's result is ordered by key |
| Sorting.SortByKeyStable | backend/routers/pullers.py:42 | elements with equal keys keep their relative order, so ties stay in query order |
| Sorting.InsertDistinct | backend/routers/pullers.py:42 | inserting an element with a new identifier keeps identifiers distinct |
| Sorting.SortByKeyDistinct | backend/routers/pullers.py:42 | sorting never duplicates an identifier |
| Sorting.InsertInto | backend/routers/pullers.py:42 | the backward scan inserts exactly where the specification says |
| Sorting.StableSort | backend/routers/pullers.py:42 | the result is the stable sort: sorted, a permutation of the input, and with equal keys in their original order |
| Store.Select | backend/routers/pullers.py:20-22 | a filtered query yields no more rows than the table, and only rows that satisfy the filter |
| Store.SelectExact | backend/routers/pullers.py:20-22 | every yielded row is a row of the table, and every matching row is yielded |
| Store.SelectDistinct | backend/routers/pullers.py:20-22 | over a table whose rows carry distinct keys, no row is yielded twice |
| Store.SelectRides | backend/routers/admin.py:10 | a ride query yields each matching ride exactly once, as stored, and no other ride |
| Store.RideInsertKeepsConsistent | backend/routers/rides.py:23-24 | adding a ride under a fresh id at the end of the row order keeps the session consistent |
| PullersRouter.AlertsOfRide | backend/routers/pullers.py:28-40 | one alert for the ride when its pickup resolves, otherwise none; the alert carries the ride's id, user, pickup and destination and the distance from the puller to the pickup Location |
| PullersRouter.AlertsDescribeRides | backend/routers/pullers.py:27-40 | every alert built from stored rides carries the id, user, pickup and destination of the stored ride it names, and the puller's distance to that ride's pickup |
| PullersRouter.AlertsForIds | backend/routers/pullers.py:27-40 | the alerts name exactly the rides whose pickup name resolves |
| PullersRouter.AlertsForDistinct | backend/routers/pullers.py:27-40 | rides with distinct ids give alerts with distinct ride ids |
| PullersRouter.PendingRidesExact | backend/routers/pullers.py:20-29 | the pending rides carry distinct ids, and those whose pickup resolves are exactly the alertable rides |
| PullersRouter.AlertListExact | backend/routers/pullers.py:20-43 | the sorted alert list names each pending ride with a resolvable pickup exactly once, and no other ride, nearest first; each alert describes its stored ride and carries the puller's distance to its pickup |
| PullersRouter.GetAlerts | backend/routers/pullers.py:13-43 | 404 exactly when the puller is unknown; a known puller always gets a list. That list is the stable sort by distance of one alert per pending ride with a resolvable pickup: sorted, each such ride once, no other ride, and each alert carrying its stored ride's id, user, pickup and destination and the puller's distance to that pickup |
| PullersRouter.AcceptRide | backend/routers/pullers.py:45-58 | 404 for an unknown ride and 400 for a ride that is not pending, with no change in either case. Otherwise only that ride changes: it gets the puller and the status puller_assigned. The puller record is not touched |
| PullersRouter.AcceptTwice | backend/routers/pullers.py:51-56 | the first accept succeeds exactly when the ride is pending. After a success the second accept gets 400 and the ride keeps the first puller (the outcome backend/test_mvp.py:221-225 expects) |
| PullersRouter.ConfirmPickup | backend/routers/pullers.py:60-69 | 404 for an unknown ride. Otherwise the status becomes pickup, whatever it was, and nothing else changes |
| PullersRouter.CompletedRide | backend/routers/pullers.py:77-84 | the completed ride stores the dropoff and completion time and the rule's points. Its status is pending_review exactly when the rule demands review, and completed otherwise. Nothing else about it changes |
| PullersRouter.Credited | backend/routers/pullers.py:88-89 | the puller's balance grows by exactly p and its ride count by exactly 1; nothing else changes |
| PullersRouter.CompleteRide | backend/routers/pullers.py:71-93 | 404 for an unknown ride. When the ride has no puller, or names a missing one, it answers 500 with no change. Otherwise the ride becomes the completed ride and the puller is credited with the awarded points. The result is those points |
| PullersRouter.UpdateLocation | backend/routers/pullers.py:95-105 | 404 for an unknown puller. Otherwise only its coordinates change |
| PullersRouter.GetHistory | backend/routers/pullers.py:107-110 | exactly the rides assigned to the puller, each once and as stored |
| RidesRouter.RideIdFor | backend/routers/rides.py:14 | a ride id is "ride_" followed by the token |
| RidesRouter.RideIdForInjective | backend/routers/rides.py:14 | distinct tokens give distinct ride ids |
| RidesRouter.RequestRide | backend/routers/rides.py:12-29 | adds exactly one new ride at the end of the query order: pending, with no puller, the requested pickup and destination, created now. It returns its id. An id clash gives 500 with no change. The alert ranking is discarded |
| RidesRouter.RequestedRideIsAlertable | backend/routers/rides.py:16-27 | a requested ride is on the alert lists exactly when its pickup resolves, and no other ride's place on them changes |
| RidesRouter.GetRideStatus | backend/routers/rides.py:31-42 | 404 exactly for an unknown ride; a known ride always gets an answer, whose status string parses back to the stored status, with the fixed price 30 and the ride's puller |
| RidesRouter.UserAcceptRide | backend/routers/rides.py:44-53 | 404 for an unknown ride. Otherwise the status becomes confirmed, whatever it was, and nothing else changes |
| RidesRouter.UserRejectRide | backend/routers/rides.py:55-68 | 404 for an unknown ride. Otherwise the ride becomes pending with no puller and nothing else changes; the alert ranking is discarded |
| RidesRouter.RejectedRideIsAlertedAgain | backend/routers/rides.py:61-66 | a rejected ride is back on the alert lists exactly when its pickup resolves, and no other ride's place on them changes |
| AdminRouter.GetPendingReview | backend/routers/admin.py:8-11 | exactly the rides awaiting review, each once and as stored |
| AdminRouter.ApproveRide | backend/routers/admin.py:13-22 | 404 for an unknown ride. Otherwise the status becomes completed, whatever it was. No points, and no other ride or puller, change |
| AdminRouter.ApprovalLeavesQueue | backend/routers/admin.py:13-20 | an approved ride leaves the review queue, and no other ride's place on it changes |
| AdminRouter.GetAnalytics | backend/routers/admin.py:24-33 | gives the number of rides and of completed rides, with completed ≤ total. The rate is completed/total × 100, or 0 when there are no rides, and always lies in [0, 100] |
| Timeouts.Expire | backend/main.py:31-40 | (corrected: reads `created_at`; see ## Findings) after a sweep the same rides exist and only statuses change. Every pending ride created before now − 60 is timed out, every other ride is untouched, and no stale ride remains |
| Timeouts.ExpireIdempotent | backend/main.py:34-40 | (corrected sweep) a second sweep at the same time changes nothing |
| Timeouts.ExpireLater | backend/main.py:34-40 | (corrected sweep) a sweep followed by a later one equals the later one alone |
| Timeouts.ExpireBoundary | backend/main.py:36 | (corrected sweep) a ride exactly 60 s old stays pending; one second later it times out |
| Timeouts.MarkTimedOut | backend/main.py:39-40 | (corrected sweep) the loop times out exactly the rides the query selected |
| Timeouts.CheckRideTimeouts | backend/main.py:24-50 | (corrected: reads `created_at`; see ## Findings) the committed ride table is the sweep of the old one; the row order and the pullers are unchanged |
| Timeouts.SweepAsWritten | backend/main.py:34-37 | as written, the sweep leaves the ride table exactly as it was |
| Timeouts.SweepAsWrittenNeverExpires | backend/main.py:36 | a ride created at 0 is still pending after the sweep at 61 as written, while the corrected sweep times it out |

## Left out

- Authentication, JWT handling, password hashing and the user table: identity issuance, not dispatch.
- Seed and maintenance scripts, the HTTP test harnesses, the Pydantic schemas and the React front end: they hold no dispatch logic.
- `haversine_distance`: float trigonometry. It is a parameter that returns non-negative metres, and floating-point rounding is not modelled.
- The clock and uuid generation: the clock is a parameter `now`. The 8-hex-digit token is a parameter, and `RequestRide` requires that it has the shape `uuid4().hex[:8]` produces.
- Concurrency: the unlocked check-then-write in `accept_ride`, and the scheduler's 10-second interval. The model is sequential, and `AcceptTwice` states the sequential outcome.
- `get_profile`: a read-only projection that uses a name its module never imports.
- The Location lookup at backend/routers/pullers.py:24: its result is never used.
- The puller `rating` column: it is stored, but no core operation reads or writes it.
- Row order of SQL queries without ORDER BY: modelled as insertion order, which is what the session's order sequences record.
- Sorting in place: `list.sort` mutates a Python list that no one else holds, so the model returns a new sequence instead.
- Timestamps are whole seconds and `created_at` is the clock reading passed in. Sub-second precision is not modelled.
- `GetAnalytics`: Python returns the integer 0 as the rate when there are no rides; the model returns 0.0.
- Error detail of unhandled exceptions: an id clash on insert and a missing puller on completion both surface as 500 "Internal Server Error", and the session rolls back.

## Findings

| source | as written | input that shows it | evidently intended | confidence | as-written member | corrected member |
|---|---|---|---|---|---|---|
| backend/main.py:36 | the sweep filters on `Ride.requested_at`, but the Ride table declares no such column (backend/models/db_models.py:74 has `created_at`). The attribute lookup raises, the handler rolls back, and no ride ever times out | a pending ride created at time 0, swept at time 61: it stays pending | filter on `created_at`, so a ride pending for more than 60 s times out | not executed | Timeouts.SweepAsWrittenNeverExpires | Timeouts.CheckRideTimeouts |
