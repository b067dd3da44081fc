# Proofs about the food delivery backend

A Dafny model of the parts of the backend that keep state under an invariant,
with proofs of what each part is for. `dafny verify dfyconfig.toml` checks the
whole project.

Each module models one component and has the same three layers:

1. the state as a value, and a function for each operation on it;
2. lemmas about these functions: what each step keeps, what holds after every
   run, how a fast form relates to a simple one;
3. where the source changes state in place, a class with the same fields and
   loops, each method proved to have exactly the effect of its function.

Where operations can overlap, each access to shared state is a step of its own
and the run theorems quantify over the interleavings: operations in flight in
the circuit breaker, callers of the order creation, payments and refunds
(`PaymentLedger`), flushes of the log shipper, cache operations
(`TagOverlap`) and passes over the retry queue. Where a result needs a condition
on what overlaps, the condition is exact (for the cache, exact for two operations
that start together): the result holds if and only if it is met.
Operations without an await between their accesses (geofencing, rate limiter,
slugs, drivers) are single steps. A retention pass is also one step.

## Main results

- **Spatial index** (`GeoUtils`, `Polygons`, `Geofences`, `GridIndex`,
  `GeofenceRepository`).
  The one-cell point query equals a ray-casting scan of all geofences after
  every history of additions and removals. This rests on geometry: ray casting
  answers inside only for points in the box of the vertices, the western side by
  a parity argument round the ring. Through the repository the cells are a
  function of the dictionary, so queries answer in its order and deleting what
  was just created leaves no trace. What ray casting means is pinned for every
  polygon (`Polygons`): triangles contain what lies between their vertices, and a
  diagonal cuts a ring into two whose memberships add up.
- **Geofence events** (`GeofenceEvents`, `GeofenceHistory`). Replaying an entity's
  events rebuilds its stored membership, while geofences are edited and deleted in
  between; and the calls alone prescribe every table and every event.
- **Circuit breaker** (`CircuitBreaker`). The pruned failure window refines the
  full history; exact conditions for each change of state, for any number of
  operations in flight and any number of circuits.
- **Order creation** (`Idempotency`). At most one order per transaction id for
  every interleaving and every pattern of lost or refused accesses, and an
  undisturbed retry always recovers.
- **Payments** (`PaymentGateway`, `Payments`, `PaymentLedger`). Conservation of
  money in the gateway; after every interleaving of payments and refunds,
  whatever the two circuit layers answer and whichever writes fail, the exact
  condition under which a record agrees with it.
- **Bounded resources** (`RateLimiting`, `LogBuffer`, `BackupRetention`,
  `RetryQueue`, `Backoff`). Exact counts, tight bounds, multiset conservation,
  and the exact condition under which each bound holds.
- **Tag index** (`TagIndex`, `TagSteps`, `TagOverlap`, `TagConflicts`). Three
  representations, one relation; bulk invalidation is exact; operations that
  overlap without conflict act as if done one by one, and every conflict, from
  any coherent cache, has an interleaving that breaks the agreement.
- **Selection and slugs** (`StableSort`, `DriverAssignment`, `Slugs`). The driver
  pipeline returns the top of a ranking; slugs have a normal form and every
  restaurant is found under its own.

## Where the code does less than it seems to promise

Stated as exact conditions, for all inputs and runs, with a failing input where
the condition itself is not one:

- captured <= amount needs a non-negative authorized amount; authorize does not
  check it (`CapturedWithinAmountIff`, `NegativeAuthorizationBreaksBound`);
- the log buffer is bounded by twice the bulk size exactly for bulk sizes of at
  least one; a slice by minus zero keeps everything (`BoundIff`,
  `ZeroBulkSizeNeverTrims`);
- the rate limiter lets one request through even for a limit below one
  (`LimitRespectedIff`, `ZeroLimitAllowsOne`), and an interval of one window's
  length keeps the single limit exactly when it starts with a window; any other
  can reach twice the limit (`SingleLimitIffAligned`, `UnalignedReachesTwice`);
- a rate limit status says allowed when the limit is just used up and the next
  check will be refused (`StatusForetellsIff`, `JustUsedUp`);
- resetting a rate limit key also resets every key that continues it with a colon
  (`ResetClears`), and entities share a table key only if a type has a colon
  (`KeysApart`, `KeysCollide`);
- retention decisions can delete a backup and archive an older one when archiving
  starts later than retention ends (`ShapeIff`, `IncoherentBreaksShape`), and
  exceed the maximum when it is below the minimum (`MaximumRespectedIff`);
- a slug starts with a dash when a second restaurant has a name without any
  letter or digit (`UniqueSlugNormalIff`, `TwoNamelessRestaurants`);
- after a refund that is refused the record says FAILED with a refunded amount,
  while the gateway still holds the payment as captured (`RefundAgreesIff`,
  `RefundTooLarge`);
- backoff delays grow exactly when the multiplier is above one and outgrows the
  jitter, and can shrink exactly when the jitter outweighs it; the defaults grow
  (`BackoffGrowsIff`, `MayShrinkIff`, `DelaysAlwaysGrow`);
- a backoff delay can be longer than its maximum, because the cap comes before the
  jitter (`MaximumExceededIff`);
- the retry count of an item is exact, and with it the bound on its retries,
  exactly when no pass writes it from a count that another has changed since
  (`CountExactIff`, `EveryItemGood`); passes that come one at a time never do, two
  that overlap can revive an item that was given up (`OverlapRevives`);
- a settled record agrees with the gateway exactly when no update that followed a
  success was refused (`SettledRecordsMatch`, `RefusedUpdateMisleads`), and a
  FAILED record of captured money means that nothing was refunded exactly when, in
  addition, no failure was written over a refund (`FailedIsCapturedIff`);
  overlapping refunds of one record can do that (`OverlappingRefundsMislead`);
- the three representations of the tag index can come apart when a set of a key
  with tags overlaps a deletion of that key, or an invalidation of a tag that is
  named or that the key carries, and in no other case (`CoherentIff`,
  `QuietIsSequential`); an entry can then escape later invalidations
  (`EntryEscapes`).

Also, the call that half-opens a circuit runs no operation and answers null,
although a comment says the operation continues (`OpenLastsLongEnough`).

## What is assumed

- Floating-point numbers are real numbers; amounts are whole cents.
- The clock is an input. Run theorems that depend on it assume that it does not
  go back.
- Generated ids are fresh; where an old id could come back after a delete the
  assumption is that it does not.
- `Math.random()` is any number in [0, 1), chosen anew at each call.
- Distance (the haversine formula), the degree box of a radius search, and
  lower-casing are given functions or inputs. Only idempotence of slugs and the
  characterisation of fixed texts assume something of lower-casing: that it
  leaves texts in normal form alone.
- One `sAdd` call stores all the tags it is given, as the cache's own client
  interface declares (src/common/cache/enhanced-redis-cache.service.ts:32); each
  call to the store takes effect at one moment.
- JavaScript `Map` and `Set` iterate in insertion order and `Array.sort` is
  stable; where order matters the model keeps it.

## Model

| member | source | states |
|---|---|---|
| GeoUtils.IsPointInPolygon | src/modules/geofencing/utils/geo.utils.ts:53-76 | answers inside exactly when the polygon has at least three points and an odd number of its edges pass the crossing test; fewer than three points is never inside |
| GeoUtils.CrossesIsRayMeetsEdge | src/modules/geofencing/utils/geo.utils.ts:66-68 | the crossing test, division and all, holds exactly when the ends of the edge lie on different sides of the point's parallel and some point of the edge lies on that parallel strictly east of it |
| GeoUtils.MeetingLongitude | src/modules/geofencing/utils/geo.utils.ts:66-68 | an edge that is crossed has an end strictly east of the point, and an edge that changes side with both ends east is always crossed |
| GeoUtils.SideChangesParity | src/modules/geofencing/utils/geo.utils.ts:60-73 | walking round the ring, the number of side changes so far is odd exactly when the current vertex is on the other side than the starting one; so a full round has an even number |
| GeoUtils.NotInsideWhenAllEast | src/modules/geofencing/utils/geo.utils.ts:53-76 | a point west of every vertex is never inside |
| GeoUtils.InsideIsAmongVertices | src/modules/geofencing/utils/geo.utils.ts:53-76 | for every point that is inside there is a vertex strictly north, one south or level, one strictly east, one west or level |
| GeoUtils.BoundingBoxIsLeast | src/modules/geofencing/spatial-index/grid-index.ts:44-55 | the computed box lies within every box that has all vertices (within the 90/180 seeds it starts from) |
| GeoUtils.InsideIsInBox | src/modules/geofencing/spatial-index/grid-index.ts:42-55 | a point inside a polygon lies in the box that is computed for it, seeds included |
| Polygons.CrossesEitherWay | src/modules/geofencing/utils/geo.utils.ts:66-68 | an edge passes the crossing test whichever way it is walked |
| Polygons.DiagonalLaw | src/modules/geofencing/utils/geo.utils.ts:53-76 | for any ring and any two of its vertices: a point is inside exactly when it is inside one, and not the other, of the two rings that the diagonal between them cuts off |
| Polygons.TriangleIff | src/modules/geofencing/utils/geo.utils.ts:53-76 | for every triangle whose vertices are not on one line and every point off the lines through its sides: the point is inside exactly when it lies between the vertices, all its weights being positive |
| Polygons.EveryPointIsMixed | src/modules/geofencing/utils/geo.utils.ts:53-76 | and every point has such weights |
| Polygons.InsideIsFan | src/modules/geofencing/utils/geo.utils.ts:53-76 | so for every polygon, of any shape: a point is inside exactly when it is inside an odd number of the triangles that the first vertex spans with the edges |
| Geofences.GetIsTheOne | src/modules/geofencing/spatial-index/grid-index.ts:68-68 | with distinct ids, looking up the id of a stored geofence finds that geofence |
| Geofences.PutKeepsKeys | src/modules/geofencing/spatial-index/grid-index.ts:39-39 | storing a geofence keeps ids distinct, makes it the one found under its id, and leaves all others |
| Geofences.DropKeepsKeys | src/modules/geofencing/spatial-index/grid-index.ts:87-87 | deleting an id keeps ids distinct, removes that id and no other, and is no change for an unknown id |
| Geofences.SelectMembers | src/modules/geofencing/spatial-index/grid-index.ts:108-114 | walking a list of ids and testing what each names finds exactly the stored geofences that are listed and pass, each once if the ids are distinct |
| GridIndex.CellIsSquare | src/modules/geofencing/spatial-index/grid-index.ts:199-202 | the cells are squares of the cell size that tile the plane, closed on their low sides, and a point is in the cell whose square holds it |
| GridIndex.BoxToRect | src/modules/geofencing/spatial-index/grid-index.ts:199-202 | a point of a box lies in a cell of the cell rectangle of that box: flooring both does not lose it |
| GridIndex.AddKeepsCovering | src/modules/geofencing/spatial-index/grid-index.ts:37-59 | adding any geofence, also under an id already present, keeps every cell listing at least the geofences whose rectangle has it, only live ids, each once, and no empty cell |
| GridIndex.RemoveKeepsCovering | src/modules/geofencing/spatial-index/grid-index.ts:67-90 | removing keeps the same |
| GridIndex.LookupIsScan | src/modules/geofencing/spatial-index/grid-index.ts:98-117 | reading one cell finds exactly the geofences that a test of every stored geofence would find, each once |
| GridIndex.RunIsCovering | src/modules/geofencing/spatial-index/grid-index.ts:37-90 | every history of additions and removals reaches such an index |
| GridIndex.LookupIsScanAfterAnyRun | src/modules/geofencing/spatial-index/grid-index.ts:98-117 | so after any history the one-cell lookup equals the full scan |
| GridIndex.FiledMembers | src/modules/geofencing/spatial-index/grid-index.ts:205-219 | the ids prescribed for a cell by the dictionary alone are exactly those whose rectangle has the cell, without repetition |
| GridIndex.AddKeepsExact | src/modules/geofencing/spatial-index/grid-index.ts:37-59 | adding a new id to an exact index (cells determined by the dictionary, in its order) gives an exact index with the geofence last |
| GridIndex.RemoveKeepsExact | src/modules/geofencing/spatial-index/grid-index.ts:67-90 | removing an id from an exact index gives an exact index |
| GridIndex.ExactIsCovering | src/modules/geofencing/spatial-index/grid-index.ts:205-219 | an exact index covers |
| GridIndex.ExactIsUnique | src/modules/geofencing/spatial-index/grid-index.ts:205-219 | two exact indexes with one dictionary and cell size are equal, cells included |
| GridIndex.RemoveUndoesAdd | src/modules/geofencing/spatial-index/grid-index.ts:67-90 | removing a geofence just added restores the index exactly |
| GridIndex.LookupIsFilter | src/modules/geofencing/spatial-index/grid-index.ts:98-117 | in an exact index the one-cell lookup is the filter of all geofences, in their order |
| GridIndex.RowMajorMembers | src/modules/geofencing/spatial-index/grid-index.ts:246-255 | the nested loops from any point on visit exactly the remaining cells of the rectangle |
| GridIndex.WithinIsExact | src/modules/geofencing/spatial-index/grid-index.ts:126-162 | in an exact index (every one the repository can reach) that is, each once, exactly the geofences whose cell rectangle meets the search rectangle and whose centre is near enough |
| GridIndex.CellsAsFiled | src/modules/geofencing/spatial-index/grid-index.ts:37-90 | after any history a cell lists an id exactly when the id was added with a rectangle that has the cell and not removed since |
| GridIndex.WithinAfterAnyRun | src/modules/geofencing/spatial-index/grid-index.ts:126-162 | after any history of the bare index, also with ids added twice, radius search returns, each once, exactly the stored geofences with a near centre whose id is filed under some cell of the search |
| GridIndex.WithinMissesNoCentre | src/modules/geofencing/spatial-index/grid-index.ts:126-162 | no geofence in range is missed if its centre lies in its own box and in the search box |
| GridIndex.GridIndex.constructor | src/modules/geofencing/spatial-index/grid-index.ts:26-30 | a new index is empty |
| GridIndex.GridIndex.AddGeofence | src/modules/geofencing/spatial-index/grid-index.ts:37-59 | the box loop and the filing loops have the effect of the addition on state that the lemmas are about |
| GridIndex.GridIndex.AddGeofenceToCells | src/modules/geofencing/spatial-index/grid-index.ts:191-220 | the nested loops file the id under exactly the cells of the rectangle, after the ids already there, creating missing cells, and touch no other cell |
| GridIndex.GridIndex.RemoveGeofence | src/modules/geofencing/spatial-index/grid-index.ts:67-90 | both sweeps over the cells and the dictionary update have the effect of the removal, and the answer says whether the id was there |
| GridIndex.GridIndex.FindGeofencesContainingPoint | src/modules/geofencing/spatial-index/grid-index.ts:98-117 | returns the lookup that the lemmas equate with a scan |
| GridIndex.GridIndex.GetCellsInBoundingBox | src/modules/geofencing/spatial-index/grid-index.ts:231-258 | returns the stored cells of the rectangle, row by row |
| GridIndex.GridIndex.GatherIds | src/modules/geofencing/spatial-index/grid-index.ts:135-142 | collects the ids of the cells, each once, in order of first sight |
| GridIndex.GridIndex.SelectNear | src/modules/geofencing/spatial-index/grid-index.ts:144-161 | keeps the ids that name a geofence with a near centre |
| GridIndex.GridIndex.FindGeofencesWithinRadius | src/modules/geofencing/spatial-index/grid-index.ts:126-162 | cells, ids and centres put together give the search that WithinIsExact is about |
| GeofenceRepository.ApplyKeepsExact | src/modules/geofencing/repositories/geofence.repository.ts:23-115 | create with a fresh id, update and delete each keep the index exact |
| GeofenceRepository.ApplyToFences | src/modules/geofencing/repositories/geofence.repository.ts:83-105 | a new geofence goes last; an edited one keeps its creation time and moves to the end; an edit or delete of an unknown id changes nothing |
| GeofenceRepository.RunIsExact | src/modules/geofencing/repositories/geofence.repository.ts:10-115 | every run of changes reaches an exact index |
| GeofenceRepository.FencesAsPrescribed | src/modules/geofencing/repositories/geofence.repository.ts:23-115 | after every run of changes the dictionary is what the history alone prescribes, in that order |
| GeofenceRepository.FencesTellHistory | src/modules/geofencing/repositories/geofence.repository.ts:23-105 | every live geofence has the name, boundary and centre of the last change of its id and was updated at the time of that change, and it was created at the time of the creation that all later changes of the id are edits of |
| GeofenceRepository.EveryReachableIndex | src/modules/geofencing/repositories/geofence.repository.ts:10-115 | in every reachable state a cell is stored exactly when some geofence's rectangle has it, it lists those geofences in dictionary order, a point query is the in-order filter of all geofences, and creating then deleting leaves no trace |
| GeofenceRepository.GeofenceRepository.constructor | src/modules/geofencing/repositories/geofence.repository.ts:13-15 | starts with an empty exact index |
| GeofenceRepository.GeofenceRepository.CreateGeofence | src/modules/geofencing/repositories/geofence.repository.ts:23-34 | has the effect of the change, returns the built geofence, stays exact |
| GeofenceRepository.GeofenceRepository.FindById | src/modules/geofencing/repositories/geofence.repository.ts:42-44 | the search through all geofences finds one exactly when the id is live; it is stored, has that id, and no other stored geofence has it |
| GeofenceRepository.GeofenceRepository.FindByPoint | src/modules/geofencing/repositories/geofence.repository.ts:61-63 | returns the in-order filter of all geofences that contain the point |
| GeofenceRepository.GeofenceRepository.FindByRadius | src/modules/geofencing/repositories/geofence.repository.ts:72-74 | returns exactly the geofences that meet the search rectangle with a near centre, each once |
| GeofenceRepository.GeofenceRepository.UpdateGeofence | src/modules/geofencing/repositories/geofence.repository.ts:83-105 | has the effect of the change, answers the edited geofence or none, stays exact |
| GeofenceRepository.GeofenceRepository.DeleteGeofence | src/modules/geofencing/repositories/geofence.repository.ts:113-115 | has the effect of the change, says whether the id was there, stays exact |
| GeofenceEvents.KeysApart | src/modules/geofencing/services/geofence-event.service.ts:79-79 | two entities have the same key exactly when type and id are the same, for types without a colon |
| GeofenceEvents.KeysCollide | src/modules/geofencing/services/geofence-event.service.ts:79-79 | with a colon in a type, two entities that share a key |
| GeofenceEvents.MoveEmitsExactly | src/modules/geofencing/services/geofence-event.service.ts:91-149 | an update emits exactly an EXIT for each held geofence that exists and does not contain the new location, and an ENTER for each that contains it and was not held, with the entity, location and time of the update |
| GeofenceEvents.DwellEmitsExactly | src/modules/geofencing/services/geofence-event.service.ts:221-248 | a dwell check emits exactly one kind of event, a DWELL for each held geofence that exists, of each entity silent for the threshold |
| GeofenceEvents.LegalAlternates | src/modules/geofencing/services/geofence-event.service.ts:9-13 | in a legal log the crossings of one geofence alternate ENTER, EXIT, and it is held after replay exactly when their number is odd |
| GeofenceEvents.MoveReplay | src/modules/geofencing/services/geofence-event.service.ts:91-157 | appending an update's events to a consistent log gives a log consistent with the set stored by the update, even when geofences vanished since |
| GeofenceEvents.MoveKeepsGood | src/modules/geofencing/services/geofence-event.service.ts:72-161 | an update keeps the invariant for every entity |
| GeofenceEvents.ClearKeepsGood | src/modules/geofencing/services/geofence-event.service.ts:200-203 | so does clearing an entity |
| GeofenceEvents.ChangeKeepsGood | src/modules/geofencing/repositories/geofence.repository.ts:23-115 | so does creating, editing or deleting a geofence between updates |
| GeofenceEvents.DwellKeepsGood | src/modules/geofencing/services/geofence-event.service.ts:221-248 | so does a dwell check |
| GeofenceEvents.RunIsGood | src/modules/geofencing/services/geofence-event.service.ts:43-248 | the invariant holds after every run |
| GeofenceEvents.EventStreamReconstructsMembership | src/modules/geofencing/services/geofence-event.service.ts:72-161 | over any run, the events of an entity since its last clear alternate per geofence starting with ENTER, and for every geofence that still exists replaying them says held exactly when the stored set does |
| GeofenceEvents.HoldingIsReplayed | src/modules/geofencing/services/geofence-event.service.ts:181-191 | asking for the entities in an existing geofence finds exactly those whose events, replayed, leave them inside |
| GeofenceHistory.TablesTellHistory | src/modules/geofencing/services/geofence-event.service.ts:72-203 | for every run: the index is the one its edits lead to, and an entity is stored exactly when it was seen and not cleared since, with the place and time it was last seen and the geofences that contained it then, all told by the calls alone |
| GeofenceHistory.CallAnnounces | src/modules/geofencing/services/geofence-event.service.ts:72-248 | after any run a call only appends events, and appends exactly those it must: ENTER, EXIT or DWELL by what the earlier calls say of the geofences and of where the entity was |
| GeofenceHistory.EveryEventIsAnnounced | src/modules/geofencing/services/geofence-event.service.ts:72-248 | for every run the events emitted are exactly those that its calls must emit |
| GeofenceEvents.GeofenceEventService.constructor | src/modules/geofencing/services/geofence-event.service.ts:49-54 | starts with no entity and no event over whatever geofences there are, and satisfies the invariant |
| GeofenceEvents.GeofenceEventService.EditGeofences | src/modules/geofencing/services/geofence.service.ts:19-92 | creating, editing or deleting in the repository that the event service shares is one edit step and keeps the invariant |
| GeofenceEvents.GeofenceEventService.UpdateEntityLocation | src/modules/geofencing/services/geofence-event.service.ts:72-161 | changes the state by one update step, returns exactly the events of that step, keeps the invariant |
| GeofenceEvents.GeofenceEventService.ExitEvents | src/modules/geofencing/services/geofence-event.service.ts:93-113 | the loop builds exactly the EXIT events |
| GeofenceEvents.GeofenceEventService.EnterEvents | src/modules/geofencing/services/geofence-event.service.ts:116-131 | the loop builds exactly the ENTER events |
| GeofenceEvents.GeofenceEventService.GetEntitiesInGeofence | src/modules/geofencing/services/geofence-event.service.ts:181-191 | returns the stored locations that hold the geofence, in table order |
| GeofenceEvents.GeofenceEventService.ClearEntityLocation | src/modules/geofencing/services/geofence-event.service.ts:200-203 | changes the state by one clear step and says whether the entity was known |
| GeofenceEvents.GeofenceEventService.CheckDwellEvents | src/modules/geofencing/services/geofence-event.service.ts:221-248 | changes the state by one dwell step: events only |
| CircuitBreaker.FailuresAreTheWindow | src/common/resilience/circuit-breaker.service.ts:293-299 | in every state the pruned list is the full failure history since the last close cut to the window that ends at the latest failure |
| CircuitBreaker.WindowSlides | src/common/resilience/circuit-breaker.service.ts:294-299 | appending a failure to the pruned list and pruning again gives the window of the longer history |
| CircuitBreaker.OpensWhenCountReached | src/common/resilience/circuit-breaker.service.ts:293-311 | a CLOSED circuit never had a window with the threshold reached, and the next failure opens it exactly when the unpruned count reaches the threshold |
| CircuitBreaker.ClosedNeverReached | src/common/resilience/circuit-breaker.service.ts:301-310 | while CLOSED, no failure of the history was the threshold-th of its own window |
| CircuitBreaker.InvariantAlways | src/common/resilience/circuit-breaker.service.ts:226-322 | for every interleaving: CLOSED keeps fewer failures than the threshold, successes are counted in HALF_OPEN only and stay below their threshold (an empty list or count is allowed when a threshold is below one) |
| CircuitBreaker.OpenSince | src/common/resilience/circuit-breaker.service.ts:277-311 | an OPEN circuit was opened by a failure, whose time is the one recorded |
| CircuitBreaker.OpenLastsLongEnough | src/common/resilience/circuit-breaker.service.ts:105-124 | no operation starts while OPEN; OPEN turns HALF_OPEN exactly at an admission at least resetTimeoutMs after the failure that opened it, and CLOSED exactly at a reset |
| CircuitBreaker.AdmissionAnswers | src/common/resilience/circuit-breaker.service.ts:65-124 | in every state of every run: an admission starts the operation exactly when the circuit is not OPEN, and then changes nothing; it answers null exactly when it half-opens the circuit, from resetTimeoutMs after the failure that opened it; before that it answers by the fallback exactly when one is configured, and throws otherwise |
| CircuitBreaker.LastChangeIsRecorded | src/common/resilience/circuit-breaker.service.ts:105-124 | the recorded time of the last change is the time of the last step that changed the state or reset it |
| CircuitBreaker.HalfOpenSince | src/common/resilience/circuit-breaker.service.ts:226-235 | in HALF_OPEN the counter is the number of success completions since the admission that half-opened it, with no failure or reset in between |
| CircuitBreaker.ClosesAfterEnoughSuccesses | src/common/resilience/circuit-breaker.service.ts:226-285 | without a reset HALF_OPEN closes exactly at the success that makes that number reach the threshold, and goes back to OPEN exactly at a failure |
| CircuitBreaker.CircuitsAreIndependent | src/common/resilience/circuit-breaker.service.ts:204-219 | in a run of calls on many circuits each circuit is what its own steps make it, from the configuration of its first call |
| CircuitBreaker.CallAnswers | src/common/resilience/circuit-breaker.service.ts:56-124 | the same for any calls on any circuits: a call on a new circuit starts its operation, one on a known circuit answers from that circuit's own steps and the configuration of its first call |
| CircuitBreaker.ProjectKeepsTime | src/common/resilience/circuit-breaker.service.ts:36-36 | one clock for all circuits is a clock for each, so the lemmas on one circuit apply to every circuit of every run |
| CircuitBreaker.CircuitData.constructor | src/common/resilience/circuit-breaker.service.ts:209-215 | a new record is CLOSED, with nothing counted |
| CircuitBreaker.CircuitBreakerService.constructor | src/common/resilience/circuit-breaker.service.ts:36-46 | starts without circuits |
| CircuitBreaker.CircuitBreakerService.GetOrCreateCircuit | src/common/resilience/circuit-breaker.service.ts:204-219 | returns the circuit of the id, new only if it was missing; the table is otherwise unchanged and no two ids share a record |
| CircuitBreaker.CircuitBreakerService.Enter | src/common/resilience/circuit-breaker.service.ts:56-70 | is one admission step of the table; the answer says whether the operation starts |
| CircuitBreaker.CircuitBreakerService.HandleOpenCircuit | src/common/resilience/circuit-breaker.service.ts:105-124 | half-opens and answers null when the timeout has passed, else answers by fallback or error and changes nothing |
| CircuitBreaker.CircuitBreakerService.Settle | src/common/resilience/circuit-breaker.service.ts:79-97 | is one completion step of the table, for this circuit alone; a success answers the value of the operation, a failure the fallback's exactly when one is configured, else the error |
| CircuitBreaker.CircuitBreakerService.HandleSuccess | src/common/resilience/circuit-breaker.service.ts:226-235 | has the effect of a success completion |
| CircuitBreaker.CircuitBreakerService.CloseCircuit | src/common/resilience/circuit-breaker.service.ts:242-251 | closes and forgets failures and successes |
| CircuitBreaker.CircuitBreakerService.HandleFailure | src/common/resilience/circuit-breaker.service.ts:259-285 | has the effect of a failure completion |
| CircuitBreaker.CircuitBreakerService.TrackFailureInClosedState | src/common/resilience/circuit-breaker.service.ts:293-311 | has the effect of a failure completion outside HALF_OPEN, also one that comes late while OPEN |
| CircuitBreaker.CircuitBreakerService.ResetCircuit | src/common/resilience/circuit-breaker.service.ts:139-154 | is one reset step of the table; a missing circuit stays missing |
| Idempotency.AccessIsSafe | src/modules/orders/services/idempotency.service.ts:132-175 | any single access of any caller, refused, applied, or applied and reported as failed, keeps one order per transaction id, keeps records naming it, and takes nothing back |
| Idempotency.NextKeepsOk | src/modules/orders/services/idempotency.service.ts:132-175 | so one step of any interleaving keeps the invariant of store and callers |
| Idempotency.RunIsOk | src/modules/orders/services/idempotency.service.ts:132-175 | so every reachable state has it |
| Idempotency.AtMostOnce | src/modules/orders/repositories/orders.repository.ts:82-152 | for every interleaving of any number of callers with any faults: at most one order per transaction id, every completed record names it, every successful call returns its id, and so any two agree |
| Idempotency.AnswersStay | src/modules/orders/services/idempotency.service.ts:140-151 | an answer once given, and the order it names, survive everything that comes later |
| Idempotency.RecordKeepsItsOrder | src/modules/orders/services/idempotency.service.ts:37-49 | a record that ever named its order names it for good, whatever a late save or failure does to its status |
| Idempotency.RecordTellsHistory | src/modules/orders/services/idempotency.service.ts:37-123 | for every interleaving: there is a record exactly when one was saved, its status is that of the latest applied save, completion or failure mark, it counts one attempt for the latest save and one for each count since, and it names the order named last |
| Idempotency.CallInRun | src/modules/orders/services/idempotency.service.ts:132-175 | in any reached state a new call can arrive and go on to its end while others wait, with the effect of its accesses in turn |
| Idempotency.PlayLeaves | src/modules/orders/services/idempotency.service.ts:132-175 | what an uninterrupted call leaves for every fate of its accesses: an applied failure mark reads FAILED with order id and attempts as they were, a record found FAILED is run again without counting, one found PENDING counts exactly one attempt, a new one starts at one, other records stay, and an order is added exactly when there was none and the operation was applied |
| Idempotency.PlayIsSafe | src/modules/orders/services/idempotency.service.ts:132-175 | a caller that nobody interrupts keeps the store safe and takes nothing back, whichever of its accesses are refused or lost |
| Idempotency.RecoversFromRunning | src/modules/orders/services/idempotency.service.ts:162-170 | from a recorded transaction, running and completing without interruption or fault returns and records the one order |
| Idempotency.RetryRecovers | src/modules/orders/services/idempotency.service.ts:132-175 | from any safe state one retry without interruption or fault returns the existing order, or a single new one, and the record then names it as completed |
| Idempotency.IdempotencyService.CheckTransactionExists | src/modules/orders/services/idempotency.service.ts:25-29 | a record is found exactly when there is one; in a safe state a found record that names an order names an existing order of that transaction id, and a completed one always does |
| Idempotency.IdempotencyService.RecordTransaction | src/modules/orders/services/idempotency.service.ts:37-49 | is the upsert to pending, which leaves a stored order id alone |
| Idempotency.IdempotencyService.CompleteTransaction | src/modules/orders/services/idempotency.service.ts:58-87 | marks an existing record completed with the order; a missing one stays missing |
| Idempotency.IdempotencyService.FailTransaction | src/modules/orders/services/idempotency.service.ts:95-112 | marks an existing record failed and keeps its order id |
| Idempotency.IdempotencyService.IncrementAttempt | src/modules/orders/services/idempotency.service.ts:119-123 | counts one more attempt on an existing record |
| Idempotency.IdempotencyService.CreateOrderOnce | src/modules/orders/repositories/orders.repository.ts:82-168 | returns the order of the transaction id, inserting one only if there is none |
| Idempotency.IdempotencyService.RunAndComplete | src/modules/orders/services/idempotency.service.ts:162-174 | the try block and its catch: operation, completion, and the failure mark if either fails, with any faults |
| Idempotency.IdempotencyService.ExecuteWithIdempotency | src/modules/orders/services/idempotency.service.ts:132-175 | a call that no other interrupts is the accesses of one caller with any faults: the store stays safe and only grows, an answer names an existing order of the transaction id, status, order id and attempts of the record are those of PlayLeaves, and without faults the call achieves what RetryRecovers says |
| PaymentGateway.ApplyKeepsOk | src/modules/payments/gateways/mock-payment.gateway.ts:30-233 | each call keeps, for every payment, 0 <= refunded <= captured, captured zero or within the amount, and the status determined by these amounts (up to AUTHORIZED or VOIDED) |
| PaymentGateway.EveryPaymentOk | src/modules/payments/gateways/mock-payment.gateway.ts:30-233 | so it holds after every run of calls |
| PaymentGateway.AuthorizedBy | src/modules/payments/gateways/mock-payment.gateway.ts:54-63 | each payment was created by exactly one successful authorization, and its amount is the one that call named, whatever followed |
| PaymentGateway.CapturedWithinAmountIff | src/modules/payments/gateways/mock-payment.gateway.ts:54-63 | captured <= amount holds for a payment exactly when the call that authorized it named a non-negative amount |
| PaymentGateway.NegativeAuthorizationBreaksBound | src/modules/payments/gateways/mock-payment.gateway.ts:54-63 | the concrete call that breaks the bound: authorizing a negative amount succeeds |
| PaymentGateway.AuthorizeMeans | src/modules/payments/gateways/mock-payment.gateway.ts:30-66 | an authorization goes through exactly when it is lucky; then the amount is reserved and none of it captured, and no other payment changes |
| PaymentGateway.CallsNeedTheirState | src/modules/payments/gateways/mock-payment.gateway.ts:83-219 | capture and void need an AUTHORIZED payment, refund a CAPTURED one; anything else, or an unknown id, is refused with its reason; refusals change nothing and no call touches another payment |
| PaymentGateway.CapturesWhatIsAsked | src/modules/payments/gateways/mock-payment.gateway.ts:98-123 | a capture of a named amount takes that amount if it is positive and within the authorized one, of none or zero the whole amount; otherwise, or if unlucky, it is refused with its reason |
| PaymentGateway.RefundsWhatIsAsked | src/modules/payments/gateways/mock-payment.gateway.ts:159-187 | a refund of a named amount up to the captured one gives back that amount, of none or zero everything; the payment then reads PARTIALLY_REFUNDED exactly when something is left, else REFUNDED; other amounts, or bad luck, are refused with their reason |
| PaymentGateway.VoidMeans | src/modules/payments/gateways/mock-payment.gateway.ts:195-233 | a void of an AUTHORIZED payment makes it VOIDED and nothing else, if lucky |
| PaymentGateway.CapturedBy | src/modules/payments/gateways/mock-payment.gateway.ts:98-123 | over any run: what is captured of a payment is what one accepted capture asked for, or everything if it named no amount |
| PaymentGateway.RefundedBy | src/modules/payments/gateways/mock-payment.gateway.ts:159-187 | over any run: what is refunded is what one accepted refund asked for, or everything captured if it named no amount |
| PaymentGateway.TotalAfterCall | src/modules/payments/gateways/mock-payment.gateway.ts:119-187 | one call changes the sum of captured minus refunded by exactly what its caller was told it moved |
| PaymentGateway.Conservation | src/modules/payments/gateways/mock-payment.gateway.ts:30-233 | over any run the money held equals the amounts asked for in successful captures minus those in successful refunds (all there was, when none was named) |
| PaymentGateway.RefundIsFinal | src/modules/payments/gateways/mock-payment.gateway.ts:151-157 | a refunded (also partially) or voided payment is never changed again by any call |
| PaymentGateway.MockPaymentGateway.AuthorizePayment | src/modules/payments/gateways/mock-payment.gateway.ts:30-66 | new table and answer are those of an authorization under any luck |
| PaymentGateway.MockPaymentGateway.CapturePayment | src/modules/payments/gateways/mock-payment.gateway.ts:74-124 | likewise for capture, each refusal in the order of the code |
| PaymentGateway.MockPaymentGateway.RefundPayment | src/modules/payments/gateways/mock-payment.gateway.ts:132-188 | likewise for refund |
| PaymentGateway.MockPaymentGateway.VoidPayment | src/modules/payments/gateways/mock-payment.gateway.ts:195-233 | likewise for void |
| Payments.SuccessfulPayIsCaptured | src/modules/payments/payments.service.ts:229-255 | a payment that answers success is captured in full at the gateway, recorded so, and positive |
| Payments.PayAtGateway | src/modules/payments/payments.service.ts:187-255 | the gateway holds a new payment exactly when the authorization got through, and its money exactly when record and capture did as well |
| Payments.PayInRecords | src/modules/payments/payments.service.ts:187-255 | there is a new record exactly when the authorization was answered and no other record has its payment id or key; it reads AUTHORIZED, CAPTURED or FAILED as the capture was answered null, went through, or neither |
| Payments.PayAnswers | src/modules/payments/payments.service.ts:206-255 | when the caller gets an answer, when it says success, and which reason it gives otherwise, all in terms of the inputs |
| Payments.RefundAgreesIff | src/modules/payments/payments.service.ts:338-356 | an undisturbed refund of a captured, matching record leaves record and gateway agreeing exactly when it is not refused, which is decided before the call: a fallback, an unlucky gateway, or an amount due that is not positive or exceeds the captured one; if refused the record reads FAILED with a refunded amount and the gateway still holds all of it |
| Payments.RefundsAsAsked | src/modules/payments/payments.service.ts:325-358 | a refund of a captured record that goes through leaves gateway and record with the amount asked for, or with everything for none or zero, both PARTIALLY_REFUNDED exactly when something is left, and answers so |
| Payments.RefundsOtherwise | src/modules/payments/payments.service.ts:329-371 | every other way a refund ends: nothing is written unless the call is refused, and then the record reads FAILED with the amount asked for |
| Payments.PaymentsService.ProcessPayment | src/modules/payments/payments.service.ts:160-221 | new records, gateway and answer are those of one payment step |
| Payments.PaymentsService.AuthorizeGuarded | src/modules/payments/gateways/circuit-breaker-payment.gateway.ts:28-38 | the call through the inner circuit: let through, answered by fallback (also when it throws), or answered null |
| Payments.PaymentsService.CaptureAuthorizedPayment | src/modules/payments/payments.service.ts:229-255 | captures in full and writes the answer's status; a null answer writes nothing |
| Payments.PaymentsService.RefundPayment | src/modules/payments/payments.service.ts:325-373 | new records, gateway and answer are those of one refund step; only CAPTURED records are refundable |
| PaymentLedger.PayIsItsAccesses | src/modules/payments/payments.service.ts:187-255 | a payment that no other operation interrupts, and whose writes succeed, is its accesses in turn: gateway, insert, gateway, update |
| PaymentLedger.RefundIsItsAccesses | src/modules/payments/payments.service.ts:325-356 | so is a refund: read, gateway, update |
| PaymentLedger.FatesOfWrites | src/modules/payments/payments.service.ts:389-451 | a refused insert or update writes nothing, one that is applied and reported as failed writes what it would have; either way the operation ends with an error |
| PaymentLedger.RefundEffect | src/modules/payments/gateways/mock-payment.gateway.ts:132-188 | a refund in flight either changes nothing and answers failure or null, or refunds a CAPTURED payment by exactly what it will write |
| PaymentLedger.BeginKeepsLedger | src/modules/payments/payments.service.ts:325-336 | an operation that starts keeps the ledger |
| PaymentLedger.AuthorizeKeepsLedger | src/modules/payments/payments.service.ts:187-189 | so does an authorization, whatever else is in flight |
| PaymentLedger.InsertKeepsLedger | src/modules/payments/payments.service.ts:389-415 | so does inserting a record, also when the insert is refused, or is applied and reported as failed |
| PaymentLedger.CaptureKeepsLedger | src/modules/payments/payments.service.ts:229-233 | so does a capture |
| PaymentLedger.RefundKeepsLedger | src/modules/payments/payments.service.ts:338-346 | so does a refund call |
| PaymentLedger.UpdateKeepsLedger | src/modules/payments/payments.service.ts:427-451 | so does an update of a record, also one that comes late, is refused, or is applied and reported as failed; a refused one that would have told of a capture or refund strands the record in a known way |
| PaymentLedger.LedgerAlways | src/modules/payments/payments.service.ts:187-373 | so the ledger holds after every interleaving of any number of payments and refunds |
| PaymentLedger.SettledRecordsMatch | src/modules/payments/payments.service.ts:187-373 | for every interleaving, any gateway failures, any behaviour of the circuit layers and any fate of the writes: a record marked CAPTURED, REFUNDED or PARTIALLY_REFUNDED with nothing in flight on it matches its gateway payment (status, amount, and refunded amount for the two refunded statuses) exactly when no update of it that followed a successful capture or refund was refused |
| PaymentLedger.CapturedMoneyIsRecorded | src/modules/payments/payments.service.ts:187-255 | for every interleaving: each payment captured at the gateway has exactly one record, of the captured amount; with nothing in flight on it the record has the status of the payment exactly when it does not read FAILED and no such update was refused |
| PaymentLedger.FailedIsCapturedIff | src/modules/payments/payments.service.ts:325-373 | for every interleaving: a FAILED record of captured money with nothing in flight on it means that the gateway holds all of it as CAPTURED exactly when no failure was written over a record that told of a refund and no update that followed a success was refused |
| PaymentLedger.FailedRefundsLeaveCaptured | src/modules/payments/payments.service.ts:325-373 | if refunds of one record do not overlap, a FAILED record of captured money means that, also while operations are in flight, exactly when no update of it that followed a success was refused |
| PaymentLedger.RefusedUpdateMisleads | src/modules/payments/payments.service.ts:348-371 | an accepted refund whose update is refused: the record goes on reading CAPTURED although the gateway refunded everything |
| PaymentLedger.OverlappingRefundsMislead | src/modules/payments/payments.service.ts:325-373 | two overlapping refunds of one record, after which it reads FAILED although the gateway refunded everything |
| PaymentLedger.RefundTooLarge | src/modules/payments/payments.service.ts:348-356 | a reachable record and a refund of more than was captured: the record reads FAILED with that amount, the gateway is untouched |
| RateLimiting.OpenWindowCounts | src/common/security/rate-limiting.service.ts:165-251 | until a window is over its stored entry counts exactly the checks made in it, whatever cleanups and other keys do |
| RateLimiting.ResetClears | src/common/security/rate-limiting.service.ts:87-105 | a reset removes the entries of the key itself and of every key that continues it with a colon, in every window, and no others |
| RateLimiting.ResetForgets | src/common/security/rate-limiting.service.ts:87-105 | the first check after a reset counts from one and is allowed, whatever had been used up |
| RateLimiting.OpenWindowCountsSinceReset | src/common/security/rate-limiting.service.ts:87-251 | with resets of the key as well, the entry of an open window counts the checks made in it since the last reset |
| RateLimiting.CheckReportsSinceReset | src/common/security/rate-limiting.service.ts:165-251 | so a check is then allowed exactly when these checks, itself included, are within the limit, or it is the first of them |
| RateLimiting.CleanupKeeps | src/common/security/rate-limiting.service.ts:110-131 | a sweep takes away exactly the entries whose reset time has passed, and changes no other |
| RateLimiting.CountsWhatASweepLeaves | src/common/security/rate-limiting.service.ts:165-251 | a check goes on counting in the entry of its window exactly as long as a sweep would leave the entry there, and then keeps its reset time; the status reports the same count |
| RateLimiting.SweepsAreInvisible | src/common/security/rate-limiting.service.ts:110-251 | for every run, with any configurations of a key and any resets, every check and every status is answered as if there had never been a sweep |
| RateLimiting.AllowsExactly | src/common/security/rate-limiting.service.ts:55-66 | in every window exactly min(n, max(1, maxRequests)) of n checks are allowed, whatever is interleaved |
| RateLimiting.CheckReports | src/common/security/rate-limiting.service.ts:165-251 | what a check reports: hits of its window including itself, allowed exactly within the limit, what is left, and a reset time within one window |
| RateLimiting.StatusForetellsIff | src/common/security/rate-limiting.service.ts:146-228 | a status query reports the hits so far, what is left and the reset time, and foretells whether the next check is allowed exactly unless the limit is just used up |
| RateLimiting.LimitRespectedIff | src/common/security/rate-limiting.service.ts:184-197 | min(n, maxRequests) is right for a window that was hit exactly when maxRequests is at least one |
| RateLimiting.TwoWindows | src/common/security/rate-limiting.service.ts:56-58 | what is allowed in an interval as long as a window is at most what is allowed in the two windows it can meet |
| RateLimiting.AnyIntervalBounded | src/common/security/rate-limiting.service.ts:55-66 | any half-open interval of one window's length holds at most twice the limit, over a whole run |
| RateLimiting.UnalignedReachesTwice | src/common/security/rate-limiting.service.ts:55-66 | for every interval that does not start with a window, a run that reaches twice the limit |
| RateLimiting.AlignedIsOneWindow | src/common/security/rate-limiting.service.ts:56-58 | an interval that starts with a window holds what that window allows |
| RateLimiting.SingleLimitIffAligned | src/common/security/rate-limiting.service.ts:55-66 | an interval of one window length keeps the single limit on all runs exactly when it starts with a window |
| RateLimiting.JustUsedUp | src/common/security/rate-limiting.service.ts:214-251 | the run of exactly maxRequests checks after which the status says allowed and the next check is refused |
| RateLimiting.ZeroLimitAllowsOne | src/common/security/rate-limiting.service.ts:184-197 | the one check that a limit of zero lets through |
| RateLimiting.RateLimitingService.CheckRateLimit | src/common/security/rate-limiting.service.ts:55-66 | new store and answer are those of one check |
| RateLimiting.RateLimitingService.GetRateLimitStatus | src/common/security/rate-limiting.service.ts:71-82 | changes nothing and tells what a check at that moment would: the same reset time, one hit less, and never refused what the check would allow |
| RateLimiting.RateLimitingService.CleanupExpiredKeys | src/common/security/rate-limiting.service.ts:110-131 | the collecting loop deletes exactly the expired entries |
| RateLimiting.RateLimitingService.ResetRateLimit | src/common/security/rate-limiting.service.ts:87-105 | deletes exactly the entries whose stored name starts with the key and a colon |
| LogBuffer.NextConserves | src/modules/observability/logging/elasticsearch-logger.service.ts:86-125 | logging, starting a flush and settling any flush keep every accepted log in exactly one of delivered, in flight, buffered, trimmed |
| LogBuffer.NoLogUnaccounted | src/modules/observability/logging/elasticsearch-logger.service.ts:86-125 | so after every run, with any number of flushes in flight failing in any order |
| LogBuffer.BufferBounded | src/modules/observability/logging/elasticsearch-logger.service.ts:121-123 | with a positive bulk size the buffer never holds more than twice the bulk size |
| LogBuffer.BoundIff | src/modules/observability/logging/elasticsearch-logger.service.ts:121-123 | the bound holds on every run exactly when the bulk size is at least one |
| LogBuffer.ZeroBulkSizeNeverTrims | src/modules/observability/logging/elasticsearch-logger.service.ts:122-122 | the concrete run that breaks it for bulk size zero, where the slice keeps everything |
| LogBuffer.PutBackKeepsNewest | src/modules/observability/logging/elasticsearch-logger.service.ts:118-123 | a failed flush leaves a tail of its logs followed by the newer ones, cut to the bulk size only beyond twice that, and counts exactly what was cut |
| LogBuffer.NothingTrimmedWithoutFailure | src/modules/observability/logging/elasticsearch-logger.service.ts:115-124 | logs are trimmed only after a failed flush |
| LogBuffer.AcceptsAll | src/modules/observability/logging/elasticsearch-logger.service.ts:86-98 | over every run a shipper that is ready accepts every log, one that is not accepts none |
| LogBuffer.SentInOrder | src/modules/observability/logging/elasticsearch-logger.service.ts:86-125 | while no flush fails, the batches sent off, one after the other, and then the buffer, are the logs in the order in which they came, and fewer than the bulk size wait |
| LogBuffer.LogsWait | src/modules/observability/logging/elasticsearch-logger.service.ts:86-109 | a log waits until the bulk size is reached; then all that wait go off as one batch |
| LogBuffer.TimerSendsAll | src/modules/observability/logging/elasticsearch-logger.service.ts:103-109 | the timer sends off all that wait |
| LogBuffer.ElasticsearchLogger.LogMessage | src/modules/observability/logging/elasticsearch-logger.service.ts:86-98 | one log step; nothing is accepted while not ready |
| LogBuffer.ElasticsearchLogger.BeginFlush | src/modules/observability/logging/elasticsearch-logger.service.ts:103-109 | moves the whole buffer in flight, if there is anything and the shipper is ready |
| LogBuffer.ElasticsearchLogger.EndFlush | src/modules/observability/logging/elasticsearch-logger.service.ts:111-124 | settles one flight: delivered, or put back in front and trimmed |
| TagIndex.PutLinks | src/common/cache/enhanced-redis-cache.service.ts:803-826 | setting an entry adds exactly the links to its tags and keeps the three representations agreeing |
| TagIndex.DeleteLinks | src/common/cache/enhanced-redis-cache.service.ts:833-859 | deleting entries removes exactly their links and keeps the agreement |
| TagIndex.DeleteKeysByTagLinks | src/common/cache/enhanced-redis-cache.service.ts:887-902 | deleting by one tag removes exactly the links of the keys that carry it |
| TagIndex.DoomedMeans | src/common/cache/enhanced-redis-cache.service.ts:866-872 | the keys a bulk invalidation reaches are those that carry at least one of the tags |
| TagIndex.DeleteByTagsIsExact | src/common/cache/enhanced-redis-cache.service.ts:866-880 | bulk invalidation removes exactly the entries that carry a tag, with all their links, and leaves every other entry and link |
| TagIndex.RunAsPrescribed | src/common/cache/enhanced-redis-cache.service.ts:239-345 | after any run of set, delete, bulk invalidation and expiry, one at a time, the links are those the history alone prescribes |
| TagIndex.OneRelation | src/common/cache/enhanced-redis-cache.service.ts:803-902 | and all three representations denote that one relation; TagOverlap and TagConflicts say when this survives overlap |
| TagIndex.EntriesAsPrescribed | src/common/cache/enhanced-redis-cache.service.ts:239-345 | after any run a key has an entry exactly when it was set and has since not expired, been deleted, or carried a deleted tag; the entry is the value set last; and a key is queued for refreshing exactly when a set asked for it and it was not deleted since |
| TagIndex.DeletedTagIsGone | src/common/cache/enhanced-redis-cache.service.ts:887-902 | nothing is listed under a deleted tag, whatever the cache was before |
| TagIndex.DeleteOneMore | src/common/cache/enhanced-redis-cache.service.ts:893-895 | deleting one more key after others is deleting them together |
| TagIndex.EnhancedRedisCache.SetEntry | src/common/cache/enhanced-redis-cache.service.ts:239-277 | one set step |
| TagIndex.EnhancedRedisCache.AssociateKeyWithTags | src/common/cache/enhanced-redis-cache.service.ts:803-826 | the loop over tags adds the links in memory and store, then the key's own tag set |
| TagIndex.EnhancedRedisCache.DeleteEntry | src/common/cache/enhanced-redis-cache.service.ts:322-345 | one delete step; says whether the entry was there |
| TagIndex.EnhancedRedisCache.RemoveKeyFromTags | src/common/cache/enhanced-redis-cache.service.ts:833-859 | the loop over the key's own tags removes its links everywhere |
| TagIndex.EnhancedRedisCache.InvalidateByTags | src/common/cache/enhanced-redis-cache.service.ts:866-880 | one bulk step, tag after tag |
| TagIndex.EnhancedRedisCache.InvalidateByTag | src/common/cache/enhanced-redis-cache.service.ts:887-902 | deletes the carriers one by one, then the tag |
| TagSteps.PerformRow | src/common/cache/enhanced-redis-cache.service.ts:803-902 | what each single store access or map update does to what is recorded about one key |
| TagSteps.FinishProgram | src/common/cache/enhanced-redis-cache.service.ts:239-345 | the steps of a whole operation turn a key in agreement into one in agreement on the tags the operation is to leave |
| TagSteps.AloneIsApply | src/common/cache/enhanced-redis-cache.service.ts:239-345 | so an operation whose steps run alone has the effect of the operations of TagIndex, key by key |
| TagSteps.AloneStores | src/common/cache/enhanced-redis-cache.service.ts:239-345 | and leaves, key by key, the entry and the place in the refresh queue that the operations of TagIndex leave |
| TagOverlap.ConflictMeans | src/common/cache/enhanced-redis-cache.service.ts:803-902 | two operations conflict exactly when one sets a key with tags and the other deletes that key, or invalidates a tag that is named or that the key carries at the time |
| TagOverlap.PrescribedIsSequential | src/common/cache/enhanced-redis-cache.service.ts:239-345 | operations one at a time, from any coherent cache, leave each key the tags that the history prescribes |
| TagOverlap.PrescribedIsLinked | src/common/cache/enhanced-redis-cache.service.ts:239-345 | and from the empty cache these are the links of the history |
| TagOverlap.StepOnKept | src/common/cache/enhanced-redis-cache.service.ts:803-902 | a step takes nothing from a key that its operation does not claim to delete, and adds to it exactly what it brings |
| TagOverlap.StepOnUnlinked | src/common/cache/enhanced-redis-cache.service.ts:833-855 | a key that is being deleted loses its links in memory before those in the store, and those before its own record |
| TagOverlap.StepKeepsFlight | src/common/cache/enhanced-redis-cache.service.ts:803-902 | a step leaves what an operation without conflict relies on |
| TagOverlap.StartKeepsGood | src/common/cache/enhanced-redis-cache.service.ts:239-345 | starting an operation beside others that it does not conflict with keeps the invariant |
| TagOverlap.AdvanceKeepsGood | src/common/cache/enhanced-redis-cache.service.ts:803-902 | so does every step of every operation in flight, in whatever order reads find keys and tags |
| TagOverlap.EndKeepsGood | src/common/cache/enhanced-redis-cache.service.ts:833-902 | so does the end of an operation: when the last one that deletes a key ends, the key has no links left |
| TagOverlap.RunIsGood | src/common/cache/enhanced-redis-cache.service.ts:239-902 | so every interleaving in which conflicting operations do not overlap satisfies it |
| TagOverlap.InterleavedOneRelation | src/common/cache/enhanced-redis-cache.service.ts:803-902 | for every such interleaving from any coherent cache, and every key that nothing in flight claims, the three representations denote one relation: what the operations prescribe in the order they started; sets of one key may overlap, and so may deletions and invalidations of the same keys and tags |
| TagOverlap.QuietIsSequential | src/common/cache/enhanced-redis-cache.service.ts:803-902 | when nothing is in flight the cache is coherent and linked as after the same operations one by one |
| TagOverlap.StepKeepsFinish | src/common/cache/enhanced-redis-cache.service.ts:833-902 | a step of an operation in flight does not change which links the operation will leave, in whatever order reads find keys and tags |
| TagOverlap.StepKeepsHeld | src/common/cache/enhanced-redis-cache.service.ts:239-345 | nor which entry and place in the refresh queue |
| TagOverlap.AloneRunIsApply | src/common/cache/enhanced-redis-cache.service.ts:239-902 | every run of one operation alone leaves for every key the links, the entry and the place in the refresh queue that the operation of TagIndex leaves |
| TagConflicts.PutInsideDeletion | src/common/cache/enhanced-redis-cache.service.ts:833-855 | a whole set that comes just before a deletion drops the record of its key: every tag lists the key, the key has no record of tags |
| TagConflicts.InvalidationInsidePut | src/common/cache/enhanced-redis-cache.service.ts:887-902 | a whole invalidation of a tag that comes just before a set writes the record of its key: the key names the tag, the tag has lost the key |
| TagConflicts.EntryEscapes | src/common/cache/enhanced-redis-cache.service.ts:887-902 | a set of a tag that comes between the read and the drop of that tag, which no key carried: the entry stays and its key names the tag, but the tag has lost it, and invalidating the tag again misses the entry |
| TagConflicts.ConflictBreaks | src/common/cache/enhanced-redis-cache.service.ts:803-902 | from any coherent cache any two operations that start together and conflict have an interleaving that ends with a cache that is not coherent |
| TagConflicts.CoherentIff | src/common/cache/enhanced-redis-cache.service.ts:803-902 | two operations that start together in a coherent cache leave it coherent in every interleaving exactly when they do not conflict |
| StableSort.SortByMeans | src/modules/backup/backup-retention.service.ts:241-241 | sorting gives a sorted permutation |
| StableSort.SortByIsStable | src/modules/geofencing/services/proximity-search.service.ts:56-56 | that keeps elements of equal key in their order |
| StableSort.SortedStableUnique | src/modules/geofencing/services/proximity-search.service.ts:56-56 | and there is only one such sequence, so any stable sort gives it |
| StableSort.SortByLexicographic | src/modules/geofencing/services/driver-assignment.service.ts:127-127 | sorting a list already sorted by a second key breaks ties by that key |
| StableSort.SortByOrderOnly | src/modules/geofencing/services/driver-assignment.service.ts:175-175 | keys that order the elements alike sort alike |
| StableSort.MapSortBy | src/modules/geofencing/services/driver-assignment.service.ts:78-78 | mapping before or after a sort by a key that the map keeps is the same |
| DriverAssignment.InRangeMeans | src/modules/geofencing/services/proximity-search.service.ts:41-50 | in range are exactly the drivers at most the radius away, each as often as it is given, with its distance |
| DriverAssignment.SearchFindsTheNearest | src/modules/geofencing/services/proximity-search.service.ts:41-64 | a search returns what is in range, nearest first, and with a positive limit only that many, nothing left out being nearer than anything returned |
| DriverAssignment.FindEntitiesWithinRadius | src/modules/geofencing/services/proximity-search.service.ts:35-64 | returns the stable sort by distance of what is in range, cut to a positive limit |
| DriverAssignment.FindBestDriversForRestaurant | src/modules/geofencing/services/driver-assignment.service.ts:57-131 | returns the prefix of the ranking: available drivers in range by descending score, ties by distance, then by position |
| DriverAssignment.ScoreProperties | src/modules/geofencing/services/driver-assignment.service.ts:91-116 | in range and for ratings up to five, scores run from 0 to 100 and fall strictly with distance; the closed form per vehicle |
| DriverAssignment.ScoreBeyondRange | src/modules/geofencing/services/driver-assignment.service.ts:91-116 | beyond the default range the distance no longer counts, except for bicycles up to ten kilometres |
| DriverAssignment.CandidatesMeans | src/modules/geofencing/services/driver-assignment.service.ts:63-89 | the candidates are exactly the assessments of the available drivers at most the radius away, each as often as the driver is listed: distance, score, and minutes at 500 metres a minute rounded up, and two more |
| DriverAssignment.PipelineIsCandidates | src/modules/geofencing/services/driver-assignment.service.ts:63-78 | filtering, searching and scoring is the same as assessing each eligible driver |
| DriverAssignment.BestIsRanking | src/modules/geofencing/services/driver-assignment.service.ts:127-130 | the pipeline as coded (search, sort, score, sort, cut) is the prefix of the ranking |
| DriverAssignment.RankingOrder | src/modules/geofencing/services/driver-assignment.service.ts:127-127 | the ranking is a permutation of the candidates, by descending score, then by distance |
| DriverAssignment.BestAreTheTop | src/modules/geofencing/services/driver-assignment.service.ts:57-131 | the answer is the top of the candidates: right number (a negative limit drops that many from the end), nothing lost or doubled, nobody left out scores higher than anyone chosen, order by score then distance |
| DriverAssignment.AssignTakesNearestOfBest | src/modules/geofencing/services/driver-assignment.service.ts:141-179 | the choice is the nearest of the top five, a tie going to the higher score, and there is none exactly when no driver is eligible |
| DriverAssignment.ChoiceIgnoresDelivery | src/modules/geofencing/services/driver-assignment.service.ts:156-178 | the choice does not depend on where the order goes |
| BackupRetention.DecidedByAge | src/modules/backup/backup-retention.service.ts:252-285 | for every policy and list: a backup is archived or deleted exactly by the number of earlier ones that stay and by its age, counted in days of 24 hours in milliseconds |
| BackupRetention.CoherentByAge | src/modules/backup/backup-retention.service.ts:252-285 | for a coherent policy on the newest-first list, place and age alone decide |
| BackupRetention.PhaseLasts | src/modules/backup/backup-retention.service.ts:254-285 | what a deletion or archiving already made implies for every older backup |
| BackupRetention.ShapeHolds | src/modules/backup/backup-retention.service.ts:254-285 | for a coherent policy decisions on the newest-first list are keep, then archive, then delete |
| BackupRetention.IncoherentBreaksShape | src/modules/backup/backup-retention.service.ts:262-282 | for every other policy, a list on which a backup is deleted and an older one archived |
| BackupRetention.ShapeIff | src/modules/backup/backup-retention.service.ts:254-285 | the shape holds on all lists exactly when archiving is off, or starts no later than retention ends, or the limits leave no room |
| BackupRetention.NewestUntouched | src/modules/backup/backup-retention.service.ts:255-259 | the newest minRetainCount backups are kept |
| BackupRetention.KeptBounded | src/modules/backup/backup-retention.service.ts:261-265 | kept plus archived never exceed the larger of the two limits |
| BackupRetention.MaximumRespectedIff | src/modules/backup/backup-retention.service.ts:261-265 | they stay within the maximum on all lists exactly when the maximum is not below the minimum nor below zero |
| BackupRetention.NothingLost | src/modules/backup/backup-retention.service.ts:254-285 | every backup ends in exactly one of in place, archive, deleted |
| BackupRetention.ProcessAccounts | src/modules/backup/backup-retention.service.ts:252-285 | the loop sorts backups as decided, and its counters equal what was deleted and archived, the space saved being the size of what is no longer in place |
| BackupRetention.DecideAll | src/modules/backup/backup-retention.service.ts:254-285 | the imperative loop achieves this |
| BackupRetention.BackupStore.ApplyRetentionPolicy | src/modules/backup/backup-retention.service.ts:221-292 | store, archive and report after a pass, in terms of the decisions on the newest-first list |
| Slugs.SlugifyJoinsWords | src/modules/restaurants/utils/slug.util.ts:4-10 | slugify gives the words (runs of letters and digits) of the lower-cased text joined by single dashes; the result is in normal form, and empty exactly when there is no word |
| Slugs.FixedIffNormal | src/modules/restaurants/utils/slug.util.ts:4-10 | a text is its own slug exactly when it is in normal form |
| Slugs.SlugifyIdempotent | src/modules/restaurants/utils/slug.util.ts:4-10 | slugify is idempotent |
| Slugs.DashRunsFrames | src/modules/restaurants/utils/slug.util.ts:7-7 | the first replacement gives the joined words with a dash on each side that does not start or end with a word |
| Slugs.DecimalInjective | src/modules/restaurants/repositories/restaurants.repository.ts:132-132 | different suffix numbers are written differently |
| Slugs.CandidatesDiffer | src/modules/restaurants/repositories/restaurants.repository.ts:131-134 | all texts tried are different |
| Slugs.TakenBound | src/modules/restaurants/repositories/restaurants.repository.ts:131-134 | n different candidates cannot all be among fewer than n slugs: the bound on the loop |
| Slugs.UniqueSlugNormalIff | src/modules/restaurants/repositories/restaurants.repository.ts:128-136 | the slug given is in normal form except when the base is empty and already taken |
| Slugs.TwoNamelessRestaurants | src/modules/restaurants/repositories/restaurants.repository.ts:128-136 | the two creations after which a slug is not in normal form: both names have no letter or digit |
| Slugs.StoreKeepsInverse | src/modules/restaurants/repositories/restaurants.repository.ts:123-126 | storing a restaurant under an unused slug keeps the two maps inverse, makes it the one found, and changes no other lookup |
| Slugs.InverseAlways | src/modules/restaurants/repositories/restaurants.repository.ts:103-126 | the two maps are inverse after every run of creations |
| Slugs.EveryRestaurantFound | src/modules/restaurants/repositories/restaurants.repository.ts:69-79 | every restaurant ever created is the one found under its slug |
| Slugs.RestaurantsRepository.EnsureUniqueSlug | src/modules/restaurants/repositories/restaurants.repository.ts:128-136 | ends within one try more than there are slugs, with the first candidate that is not taken |
| Slugs.RestaurantsRepository.CreateRestaurant | src/modules/restaurants/repositories/restaurants.repository.ts:38-42 | builds with an unused slug, stores in both maps, keeps them inverse, and the restaurant is found under its slug |
| Slugs.RestaurantsRepository.FindBySlug | src/modules/restaurants/repositories/restaurants.repository.ts:69-79 | the lookup through both maps, with each way of not finding |
| Backoff.GrowsWhenMultiplierOutgrows | src/modules/payments/services/payment-retry.service.ts:198-216 | if the multiplier is above one and outgrows the jitter, a delay is shorter than the next one, for any two jitters |
| Backoff.BackoffGrowsIff | src/modules/payments/services/payment-retry.service.ts:198-216 | while under the cap, for any multiplier and every jitter factor from 0 to 1, a delay is strictly shorter than the next for all jitters exactly when the multiplier is above one and 1 + jitter <= multiplier * (1 - jitter) |
| Backoff.MayShrinkIff | src/modules/payments/services/payment-retry.service.ts:198-216 | while under the cap, for any multiplier, some jitters make the next delay strictly shorter exactly when multiplier * (1 - jitter) < 1 + jitter |
| Backoff.DefaultDelays | src/modules/payments/services/payment-retry.service.ts:198-216 | with the default configuration the delay before retry k is 2^k seconds times 0.8 at the lowest jitter, rising evenly to 1.2 at the highest |
| Backoff.MaximumExceededIff | src/modules/payments/services/payment-retry.service.ts:204-209 | the cap comes before the jitter: some jitters give a delay above the maximum exactly when there is jitter and (1 + jitter) times the uncapped delay is above the maximum |
| RetryQueue.BatchMeans | src/modules/payments/services/payment-retry.service.ts:87-99 | a batch is at most ten distinct unresolved items whose date has come, and leaves none out when it has fewer than ten |
| RetryQueue.PassAttemptsEach | src/modules/payments/services/payment-retry.service.ts:103-148 | a pass as one step: every item visited undisturbed counts one more attempt now, is given up from the fifth retry on and else due later than now; every other item is as before; the number returned is that of the items scheduled again |
| RetryQueue.WriteKeepsGood | src/modules/payments/services/payment-retry.service.ts:115-138 | a write from a count that is still the stored one keeps every item right and leaves the others alone |
| RetryQueue.HandleAllKeepsGood | src/modules/payments/services/payment-retry.service.ts:106-146 | so does a whole pass over distinct due items |
| RetryQueue.NextKeepsGood | src/modules/payments/services/payment-retry.service.ts:87-178 | so does each step of a run in which a batch is read only when no other pass is under way: adding, resolving, reading, writing one item, stopping half-way |
| RetryQueue.NextKeepsTracked | src/modules/payments/services/payment-retry.service.ts:87-178 | with passes overlapping in any way, each step keeps the stored count of an item equal to its updates, and all counts read no newer, as long as no update of it is written from an old count; afterwards both stay strictly below |
| RetryQueue.CountExactIff | src/modules/payments/services/payment-retry.service.ts:87-149 | so for every run the stored retry count of an item is the number of its automatic updates exactly when no update of it was applied whose count, as read, was no longer the stored one |
| RetryQueue.EveryItemGood | src/modules/payments/services/payment-retry.service.ts:59-178 | and count, next date and scheduling history of the item agree exactly under the same condition |
| RetryQueue.OneAtATimeIsNoStale | src/modules/payments/services/payment-retry.service.ts:87-149 | passes that come one at a time never write from an old count, so all of this holds for every item |
| RetryQueue.ItemTellsHistory | src/modules/payments/services/payment-retry.service.ts:59-178 | for every run with any overlap: an item is there exactly when it was added, is resolved exactly when somebody marked it so, tells when a pass last wrote it, and is due the delay it was last given after it was last set |
| RetryQueue.ResolvedStays | src/modules/payments/services/payment-retry.service.ts:157-178 | an item that was marked as resolved is never due again |
| RetryQueue.RetriesAreBounded | src/modules/payments/services/payment-retry.service.ts:116-128 | over any run without such a write to an item it has at most maxRetries + 1 automatic updates, has no next date exactly when it had them all, and is then never due |
| RetryQueue.DelaysAlwaysGrow | src/modules/payments/services/payment-retry.service.ts:198-216 | in such a run, with the default configuration and for every choice of jitter, each scheduled delay of an item is strictly longer than the one before, in whole milliseconds |
| RetryQueue.OverlapRevives | src/modules/payments/services/payment-retry.service.ts:87-149 | two overlapping passes whose later write comes from an old count: an item that was given up is scheduled again |
| RetryQueue.PaymentRetryService.AddToRetryQueue | src/modules/payments/services/payment-retry.service.ts:59-81 | a new item with count zero and its first date |
| RetryQueue.PaymentRetryService.ProcessRetryQueue | src/modules/payments/services/payment-retry.service.ts:87-149 | an undisturbed pass handles the batch in order, attempts each item as said above, keeps the invariant, and returns how many items were scheduled again |
| RetryQueue.PaymentRetryService.HandleItem | src/modules/payments/services/payment-retry.service.ts:106-145 | skips on an open circuit or a failing update, gives up at the maximum, else counts and schedules |
| RetryQueue.PaymentRetryService.MarkAsResolved | src/modules/payments/services/payment-retry.service.ts:157-178 | marks an existing item and says whether there was one |

## Left out

- Index: cell names are pairs of integers, not their text; metadata and the
  fields that play no part in the index are not kept.
- GridIndex.LookupIsScanAfterAnyRun: says which geofences are found and that each
  is found once, not in what order, because the bare index files an id that is
  added twice at its old place; through the repository the order is exact.
- GridIndex.WithinIsExact: is about exact indexes, which are those the
  repository can reach (WithinAfterAnyRun is about all others); neither equates
  radius search with a scan by centre distance, because the index files
  boundaries and not centres.
- Events: an entity is the text made of its type and id, so two entities whose
  texts coincide share a history, as in the code; each event is recorded once
  although it is emitted under two names; the dwell timer is a step that may come
  at any time; metadata of a location is not kept.
- Circuit breaker: health queries and emitted notifications. A fallback's own
  value is not kept, only that it answered.
- Order creation: items, history rows and totals are not kept. The database
  transaction is one atomic step that returns the saved row; the code reads the
  row back through the default repository (orders.repository.ts:146), outside
  the transaction's manager, and that read is not modelled. Retries of the
  transaction on serialization errors are part of the same step. Payloads of
  records are not kept.
- Idempotency.IdempotencyService.ExecuteWithIdempotency: is about a call that no
  other interrupts, with any faults; interleavings are the subject of the run
  lemmas on the same accesses.
- Payments: the cache of results and the idempotency record around a payment,
  handing failed payments to the retry queue, and the gateway's status query.
  An operation that is cut off by a crash counts as in flight for good. In
  `Payments` an insert fails only for a violated unique column and updates
  succeed; in `PaymentLedger` any write may be refused, or applied and reported as
  failed. The circuit layers answer arbitrarily here; how they decide is the
  subject of CircuitBreaker.
- Rate limiter: runs on a key with one configuration (totals per window without a
  reset of that key, single checks with resets as well); the answer after an internal exception; statistics. Windows are whole
  milliseconds.
- Log shipper: connecting and disconnecting while running, shutdown, index names.
- Tag index: failures of Redis calls, lock and refresh processes, statistics,
  deletion by pattern, and reading through the cache. Keys do not start with
  `tag:`, `key:` or `lock:`. An entry may expire at any time; the index is then
  unchanged, as in the code. The refresh queue keeps keys only.
- TagIndex.OneRelation: is about operations one at a time, like the class;
  overlapping ones are the subject of TagOverlap, which is about links and not
  about which entries are stored.
- TagIndex.RunAsPrescribed: likewise one at a time.
- TagConflicts.CoherentIff: is about two operations that start together. For more
  operations, starting at any time, the absence of conflicts is shown to be
  enough (TagOverlap.QuietIsSequential); a conflicting operation that starts late
  may find that the other has already passed the steps it could disturb.
- Drivers: the estimated delivery time; other entity types of the search. A sort
  is taken as its result, not as an in-place algorithm.
- Retention: dry runs, failing file operations, the check for a newer valid
  backup (it always answers yes), compression and verification, the
  grandfather-father-son strategy, and passes that overlap. Days are 24 hours.
- Restaurants: menus, lists and the other fields of a restaurant.
- Retry queue: the payment's own data. The retry itself is not implemented in the
  code.
- HTTP controllers, validation, authentication, web sockets, configuration,
  metrics and logging, encryption, sharding and replicas.
