# Ride coordination core of the carpool client

This project models the data layer of the carpool web client in
`frontend/src/firebase/database.tsx`. It covers the entity types, the typed reads and
writes for groups, users, vehicles, rides and routes, and the ride coordination
engine, including its cross-entity triggers:

- adding a ride's driver to a pickup point makes that point the ride's `start`
  and recomputes the route;
- assigning a driver who already waits at a pickup point makes the first such
  point, in key order, the start;
- clearing the passenger flag of the ride's driver clears `driver` and `carId`;
- `clearUserFromPickups` removes a user from every pickup point of a ride;
- the waypoint list that `setRideStart` hands to the route optimiser is the
  start, then every other pickup point in key order, then the ride's end.

The realtime store is one immutable `Store` value (module `Types`). It holds
groups, users (each with a vehicle map), rides, the per-ride passenger registry
(`passengers/<ride>/<user>`) and the per-ride route (`routes/<ride>`). Every
exported mutator is a pure state transformer `Store -> Store`. Each promise
chain (`set(...)`, then `getRide`, then `setRideStart`, then the optimiser,
then `setRoute`) runs to completion as one sequential composition. A read of a
missing record (a rejected `getRide`) ends the chain, and the store keeps what
was already written.

A ride's `pickupPoints` object is a `PickupMap`. It is a map together with an
explicit key order, the order `Object.keys` enumerates. A subset-type
constraint makes the order list every key exactly once, and no key is empty.
This makes "the first point holding the driver" and "every other point"
deterministic. The route optimiser `getOptimizedRoute` is a parameter
`plan: seq<Coord> -> Option<Route>`. `None` stands for a rejected request, and
nothing is written then.

Boolean-keyed sets (`members`, `rides`, the passenger registry) are `set<Id>`.
Writing `true` adds a key, and writing `null` removes it (`Types.Toggle`).
Optional string parameters (`driverId?`, `carId?`) are `string`. `""` stands
for both `undefined` and the empty string, because the source only tests their
truthiness.

Modules: `Types` (entities, store, set toggle), `PickupOps` (first-point search,
waypoint list, member updates on one ride's points), `Repository` (typed get/set
accessors), `Coordination` (the engine), `Properties` (relations between several
operations), `Scenarios` (concrete runs on a two-point ride).

Three behaviours of the client worth noting:

- `setRideDriver` with a driver who waits at no pickup point keeps the ride's
  previous `start`. The ride does not return to having no start.
- `setRideDriver` with an empty car id stores no `carId`.
- `setRideStart` writes a `start` that names no pickup point without checking
  it. The recompute then fails on the missing point and keeps the old route.

## Model

| member | source | states |
|---|---|---|
| Types.Toggle | frontend/src/firebase/database.tsx:309-312 | writing `true` at a boolean-keyed set puts the key in, `null` takes it out, every other key keeps its membership |
| PickupOps.FirstPickupWith | frontend/src/firebase/database.tsx:394-397 | `None` exactly when no pickup point in key order lists the user; otherwise the key returned is the first one in key order whose members include the user |
| PickupOps.FirstIsUnique | frontend/src/firebase/database.tsx:394-397 | "first pickup point holding the user" names one key only |
| PickupOps.ExcludeSplit | frontend/src/firebase/database.tsx:410-413 | skipping the start key in the pass over the distinct keys keeps every key before and after it, in order, and drops exactly one key |
| PickupOps.OtherLocations | frontend/src/firebase/database.tsx:410-413 | the pushed locations are those of the keys other than the start, in key order, one per key |
| PickupOps.Waypoints | frontend/src/firebase/database.tsx:409-414 | the lookup fails exactly when `start` is not a pickup key; otherwise the list has (number of pickup points) + 1 elements, begins with the start's location, continues with every other point's location in key order and ends with the ride's end |
| PickupOps.WaypointsInKeyOrder | frontend/src/firebase/database.tsx:409-414 | the waypoint list equals an independent definition: the start's location, the locations of the keys before and after the start in key order, then the end |
| PickupOps.SetMember | frontend/src/firebase/database.tsx:192-195 | the write sets the user's membership of one point to the flag; key order, key set, location, geocode, other members and other points are untouched |
| PickupOps.RemoveMember | frontend/src/firebase/database.tsx:208-218 | after the pass over the keys no visited point lists the user; other members, locations, key order and unvisited points are unchanged |
| PickupOps.AddPoint | frontend/src/firebase/database.tsx:180-182 | a pushed point is stored under its fresh key, which comes last in key order; existing points are unchanged |
| Repository.GetGroup | frontend/src/firebase/database.tsx:112-129 | a group is found exactly when stored, and is returned with its id set to the key it was read from |
| Repository.SetGroup | frontend/src/firebase/database.tsx:231-235 | a group with an id reads back unchanged; without an id nothing is written; other groups and collections are untouched |
| Repository.SetGroupBanner | frontend/src/firebase/database.tsx:237-239 | a given banner replaces only the group's banner; an `undefined` banner writes nothing |
| Repository.SetGroupProfilePic | frontend/src/firebase/database.tsx:241-246 | a given picture replaces only the group's picture; an `undefined` picture writes nothing |
| Repository.GetUser | frontend/src/firebase/database.tsx:248-271 | a user is found exactly when stored, and is returned with its uid set to the key it was read from |
| Repository.SetUser | frontend/src/firebase/database.tsx:273-277 | a user with a uid reads back unchanged; without a uid nothing is written |
| Repository.SetUserVehicle | frontend/src/firebase/database.tsx:299-302 | the vehicle is stored without its id under key `carId` and reads back equal to the written vehicle with its id filled in; other vehicles and user fields are unchanged |
| Repository.SetGroupMember | frontend/src/firebase/database.tsx:304-313 | the user's membership of the group becomes the flag; other members, the group's other fields, rides and every other collection are unchanged (no cascade) |
| Repository.SetGroupMemberIdempotent | frontend/src/firebase/database.tsx:304-313 | repeating a group-member write changes nothing |
| Repository.SetGroupRide | frontend/src/firebase/database.tsx:315-324 | the ride's presence in the group's ride list becomes the flag; no ride record changes |
| Repository.GetRide | frontend/src/firebase/database.tsx:335-352 | a ride is found exactly when stored, as the stored record; the `getRide` reads of `setRideStart` (through `RecomputeRoute`), `setUserInPickup`, `clearUserFromPickups`, `setRideDriver` and `setRidePassenger` go through it |
| Repository.AddPickupToRide | frontend/src/firebase/database.tsx:180-182 | the new point appears under its key, last in key order; other points and ride fields are unchanged |
| Repository.SetRoute | frontend/src/firebase/database.tsx:438-440 | the route of that ride is overwritten, every other route and collection untouched; an empty ride id writes nothing |
| Repository.CompleteRide | frontend/src/firebase/database.tsx:422-424 | the ride is marked complete and nothing else changes; an empty id writes nothing |
| Repository.CompleteRideIdempotent | frontend/src/firebase/database.tsx:422-424 | completing a ride twice equals completing it once |
| Coordination.RecomputeRoute | frontend/src/firebase/database.tsx:406-419 | the route stored is the planner's answer for the ride's waypoint list, and no other ride's route changes; a ride that cannot be read, a failed lookup or a failed plan leaves all routes as they were |
| Coordination.WriteStart | frontend/src/firebase/database.tsx:405 | `start` becomes the given key; every other field of the ride and every other ride are kept |
| Coordination.SetRideStart | frontend/src/firebase/database.tsx:404-420 | `start` becomes the given key and no other ride field changes; the route is recomputed from the updated ride; a key that is not a pickup point leaves routes untouched |
| Coordination.WriteMember | frontend/src/firebase/database.tsx:192-195 | the user's membership of the named point becomes the flag, nothing else in the ride changes |
| Coordination.SetUserInPickup | frontend/src/firebase/database.tsx:184-203 | empty ride or pickup id, or a ride that is not stored: no-op; otherwise the user's membership of that point becomes the flag with all other points, members and rides unchanged; adding the current driver makes the point the start and recomputes the route; removal, or adding a non-driver, keeps start and routes |
| Coordination.ClearUserFromPickups | frontend/src/firebase/database.tsx:205-220 | empty ids or a missing ride: no-op; otherwise the user is a member of no pickup point of the ride, while keys, key order, other members and every other ride field are unchanged |
| Coordination.WriteDriver | frontend/src/firebase/database.tsx:383-390 | driver and car are written, every other ride field kept |
| Coordination.SetRideDriver | frontend/src/firebase/database.tsx:376-402 | no ride id: no-op; with `state` and a driver id the driver is set, otherwise cleared; the car is set only with `state` and a car id; an assigned driver who waits at some point makes the first such key the start and recomputes the route, otherwise start and routes are kept |
| Coordination.SetRegistryEntry | frontend/src/firebase/database.tsx:363-367 | the user's registry entry becomes the flag; other entries and other rides' registries are unchanged |
| Coordination.SetRidePassenger | frontend/src/firebase/database.tsx:358-374 | with both ids the registry entry becomes the flag; clearing the entry of the ride's driver clears driver and car only; in every other case the rides are untouched |
| Properties.RecomputeRouteStable | frontend/src/firebase/database.tsx:406-419 | recomputing a ride's route right after it was recomputed stores nothing new, since the waypoint list and the planner's answer are unchanged |
| Properties.SetRideStartIdempotent | frontend/src/firebase/database.tsx:404-420 | selecting the same start again changes nothing |
| Properties.WriteMemberNoop | frontend/src/firebase/database.tsx:192-195 | a member write that finds the membership already as written changes nothing |
| Properties.SetUserInPickupIdempotent | frontend/src/firebase/database.tsx:184-203 | applying `setUserInPickup` twice equals applying it once, including the driver trigger and the route it stores |
| Properties.RemovalStep | frontend/src/firebase/database.tsx:208-216 | one visited key of `clearUserFromPickups` acts as `setUserInPickup(ride, key, user, false)` |
| Properties.RemoveFromEachIsRemoveMember | frontend/src/firebase/database.tsx:208-218 | removing the user key by key with `setUserInPickup(..., false)` gives the ride the point map that the pass over the keys computes |
| Properties.ClearIsRemovalFromEachPickup | frontend/src/firebase/database.tsx:205-220 | `clearUserFromPickups` equals `setUserInPickup(ride, k, user, false)` applied for every pickup key in key order |
| Properties.RemoveMemberNoop | frontend/src/firebase/database.tsx:208-218 | the pass over the keys changes nothing when no point lists the user |
| Properties.ClearNoop | frontend/src/firebase/database.tsx:205-220 | clearing a user that no pickup point of the ride lists leaves the store unchanged |
| Properties.ClearIdempotent | frontend/src/firebase/database.tsx:205-220 | clearing a user from every pickup point twice equals clearing once |
| Properties.LeaveThenDriveKeepsStart | frontend/src/firebase/database.tsx:391-399 | a user who left every pickup point and is then assigned as driver becomes driver without moving the start or recomputing the route |
| Properties.PassengerRemovalKeepsStartAndRoute | frontend/src/firebase/database.tsx:368-373 | clearing a passenger flag never changes the ride's start, its pickup points or any route |
| Properties.GetRideAfterRideWrites | frontend/src/firebase/database.tsx:335-352 | `getRide` right after `completeRide`, `setRideStart`, `setUserInPickup(..., true)` on an existing point, or `setRideDriver` reads back the written completion flag, start, member flag, or driver with no car |
| Properties.GetRideOfOtherRide | frontend/src/firebase/database.tsx:335-352 | `getRide` of one ride is unchanged by every ride write aimed at another ride and by group member and group ride writes |
| Scenarios.WaypointsOfTwo | frontend/src/firebase/database.tsx:409-414 | on a ride with two pickup points the waypoint list is the start, the other point, then the end |
| Scenarios.AssignDriverSelectsStart | frontend/src/firebase/database.tsx:376-402 | assigning driver1, who waits at A, sets driver and car, selects A as start and stores the route planned over [A, B, end] |
| Scenarios.DriverJoiningOtherPointMovesStart | frontend/src/firebase/database.tsx:196-201 | the driver then joining B moves the start to B and stores the route planned over [B, A, end] |
| Scenarios.DriverDroppingOutClearsDriver | frontend/src/firebase/database.tsx:368-373 | the driver clearing their passenger flag clears driver and car and keeps the start |
| Scenarios.FailedPlanStoresNoRoute | frontend/src/firebase/database.tsx:415-419 | when the optimiser fails, the start is still selected and no route is stored |

## Left out

- Store I/O (`ref`, `get`, `set`, `push`), the `use*` hooks and their subscriptions: the store is an in-memory value.
- Concurrency: interleavings of the fire-and-forget promise chains, last-write-wins races between two writers, and late route responses overwriting newer ones. Each chain runs to completion before the next operation.
- `getOptimizedRoute` internals: it lives in a file that is not part of this model and calls an external service. It is the `plan` parameter.
- The optimiser's answers over time: each call sends a fresh request to an external service, which may answer the same waypoint list differently. `plan` is a function, so the model assumes the same waypoint list always gets the same route. The route half of `Properties.RecomputeRouteStable`, `Properties.SetRideStartIdempotent` and `Properties.SetUserInPickupIdempotent` rests on that assumption.
- Floating-point semantics of coordinates, distances and fuel figures: they are opaque values that are never computed with.
- Chat helpers and the `Message` and `Location` types: chat keys come from `slugify` and the clock.
- `setRide`: its key comes from `push`. `addPickupToRide` takes the pushed key as a parameter (fresh, non-empty) and assumes that it sorts after the existing keys.
- Writes below a record the store does not hold: the store would create a partial record (for example a pickup point with members but no location). The model keeps only whole records, so such a write leaves the store unchanged.
- Empty ids where the source has no guard: the store drops an empty path segment and so addresses the parent node. The model treats `""` as an ordinary key.
- The `id` fields that `getRide` and pushed pickup points carry: rides and points are identified by their map keys.
- `setUser` with a `vehicles` array: vehicles are modelled as the map that `setUserVehicle` writes, keyed by car id.
- `setGroup` and `setUser` return their argument: the model returns only the new store.
- The 1–12 seat and 5–20 fuel bounds: they are slider limits of the UI, not checks in the data layer.
- Logging of a rejected `getRide` (`console.log`): a rejected read just ends the chain.
