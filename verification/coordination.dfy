/** The ride coordination engine: start-point selection with route
    recompute, pickup membership, driver assignment and the passenger
    registry, with their cross-entity triggers.  Each promise chain of the
    client runs to completion before the next operation starts; each
    `getRide` in a chain is a `GetRide` of the store as that chain left it. */
module Coordination {
  import opened Types
  import opened PickupOps
  import opened Repository

  /** The passenger registry of one ride (a missing entry is empty). */
  function Registry(s: Store, rideId: Id): set<Id> {
    if rideId in s.passengers then s.passengers[rideId] else {}
  }

  /** A planner that never yields a route; used where no recompute can be
      triggered. */
  const NoRoute: Planner := (w: seq<Coord>) => None

  /** After an operation on ride `rideId` that triggered a recompute: if the
      ride's waypoint list can be built and the planner yields a route, that
      route is stored for the ride; otherwise no route changes. */
  ghost predicate RouteRecomputed(s: Store, s': Store, rideId: Id, plan: Planner)
    requires rideId in s'.rides
  {
    var w := Waypoints(s'.rides[rideId]);
    if rideId != "" && w.Some? && plan(w.value).Some?
    then rideId in s'.routes && s'.routes[rideId] == plan(w.value).value
    else s'.routes == s.routes
  }

  /** `q` is `p` with `present` written at `points/k/members/u`: the key
      order, every other point, and every other member of `k` are kept. */
  ghost predicate MemberWritten(p: PickupMap, q: PickupMap, k: Id, u: Id, present: bool) {
    && q.order == p.order
    && q.points.Keys == p.points.Keys
    && (forall j :: j in p.points && j != k ==> q.points[j] == p.points[j])
    && (k in p.points ==>
          && (u in q.points[k].members <==> present)
          && (forall v :: v != u ==> (v in q.points[k].members <==> v in p.points[k].members))
          && q.points[k].location == p.points[k].location
          && q.points[k].geocode == p.points[k].geocode)
  }

  /** The route recompute that ends `setRideStart`: read the ride back,
      build the waypoint list from it as it now stands, ask the planner,
      store its route.  A ride that cannot be read stores nothing. */
  function RecomputeRoute(s: Store, rideId: Id, plan: Planner): (s': Store)
    ensures s'.(routes := s.routes) == s
    ensures s'.routes - {rideId} == s.routes - {rideId}
    ensures rideId !in s.rides ==> s' == s
    ensures rideId in s.rides ==> RouteRecomputed(s, s', rideId, plan)
  {
    match GetRide(s, rideId)
    case None => s
    case Some(ride) =>
      match Waypoints(ride)
      case None => s
      case Some(w) =>
        match plan(w)
        case None => s
        case Some(route) => SetRoute(s, rideId, route)
  }

  /** Writes the `start` field of an existing ride. */
  function WriteStart(s: Store, rideId: Id, pickupId: Id): (s': Store)
    requires rideId in s.rides
    ensures rideId in s'.rides
    ensures s'.rides[rideId].start == pickupId
    ensures s'.rides[rideId].(start := s.rides[rideId].start) == s.rides[rideId]
    ensures s'.rides.Keys == s.rides.Keys
    ensures s'.rides - {rideId} == s.rides - {rideId}
    ensures s'.(rides := s.rides) == s
  {
    s.(rides := s.rides[rideId := s.rides[rideId].(start := pickupId)])
  }

  /** `setRideStart`: writes `start`, then recomputes the route.  A start
      that names no pickup point is written all the same, and the recompute
      then fails, keeping the old route. */
  function SetRideStart(s: Store, rideId: Id, pickupId: Id, plan: Planner): (s': Store)
    ensures rideId !in s.rides ==> s' == s
    ensures rideId in s.rides ==>
      && rideId in s'.rides
      && s'.rides[rideId].start == pickupId
      && s'.rides[rideId].(start := s.rides[rideId].start) == s.rides[rideId]
      && RouteRecomputed(s, s', rideId, plan)
    ensures rideId in s.rides && pickupId !in s.rides[rideId].pickups.points ==> s'.routes == s.routes
    ensures s'.rides.Keys == s.rides.Keys
    ensures s'.rides - {rideId} == s.rides - {rideId}
    ensures s'.routes - {rideId} == s.routes - {rideId}
    ensures s'.(rides := s.rides, routes := s.routes) == s
  {
    if rideId !in s.rides then s
    else
      var s1 := WriteStart(s, rideId, pickupId);
      RecomputeRoute(s1, rideId, plan)
  }

  /** Writes `present` at `rides/rideId/pickupPoints/pickupId/members/userId`
      when that pickup point exists. */
  function WriteMember(s: Store, rideId: Id, pickupId: Id, userId: Id, present: bool): (s': Store)
    ensures rideId in s.rides ==>
      && rideId in s'.rides
      && MemberWritten(s.rides[rideId].pickups, s'.rides[rideId].pickups, pickupId, userId, present)
      && s'.rides[rideId].(pickups := s.rides[rideId].pickups) == s.rides[rideId]
    ensures s'.rides.Keys == s.rides.Keys
    ensures s'.rides - {rideId} == s.rides - {rideId}
    ensures s'.(rides := s.rides) == s
  {
    if rideId in s.rides && pickupId in s.rides[rideId].pickups.points then
      var ride := s.rides[rideId];
      s.(rides := s.rides[rideId := ride.(pickups := SetMember(ride.pickups, pickupId, userId, present))])
    else s
  }

  /** `setUserInPickup`: adds (`true`) or removes (`null`) the user in one
      pickup point.  When the user is added and is the ride's driver, the
      pickup point becomes the start and the route is recomputed. */
  function SetUserInPickup(s: Store, rideId: Id, pickupId: Id, userId: Id, isPassenger: bool,
                           plan: Planner): (s': Store)
    ensures rideId == "" || pickupId == "" || rideId !in s.rides ==> s' == s
    ensures rideId != "" && pickupId != "" && rideId in s.rides ==>
      && rideId in s'.rides
      && MemberWritten(s.rides[rideId].pickups, s'.rides[rideId].pickups, pickupId, userId, isPassenger)
      && s'.rides[rideId].(pickups := s.rides[rideId].pickups, start := s.rides[rideId].start)
         == s.rides[rideId]
    ensures (rideId != "" && pickupId != "" && rideId in s.rides
             && isPassenger && s.rides[rideId].driver == Some(userId)) ==>
      && s'.rides[rideId].start == pickupId
      && RouteRecomputed(s, s', rideId, plan)
    ensures rideId in s.rides && !(isPassenger && s.rides[rideId].driver == Some(userId)) ==>
      && rideId in s'.rides
      && s'.rides[rideId].start == s.rides[rideId].start
      && s'.routes == s.routes
    ensures s'.rides.Keys == s.rides.Keys
    ensures s'.rides - {rideId} == s.rides - {rideId}
    ensures s'.routes - {rideId} == s.routes - {rideId}
    ensures s'.(rides := s.rides, routes := s.routes) == s
  {
    if rideId == "" || pickupId == "" then s
    else
      var s1 := WriteMember(s, rideId, pickupId, userId, isPassenger);
      var ride := GetRide(s1, rideId);
      if isPassenger && ride.Some? && ride.value.driver == Some(userId)
      then SetRideStart(s1, rideId, pickupId, plan)
      else s1
  }

  /** `clearUserFromPickups`: removes the user from every pickup point of
      the ride that lists them. */
  function ClearUserFromPickups(s: Store, rideId: Id, userId: Id): (s': Store)
    ensures rideId == "" || userId == "" || rideId !in s.rides ==> s' == s
    ensures rideId != "" && userId != "" && rideId in s.rides ==>
      var p := s.rides[rideId].pickups;
      && rideId in s'.rides
      && var q := s'.rides[rideId].pickups;
      && q.order == p.order
      && q.points.Keys == p.points.Keys
      && (forall k :: k in q.points ==> userId !in q.points[k].members)
      && (forall k, v :: k in q.points && v != userId ==>
            (v in q.points[k].members <==> v in p.points[k].members))
      && (forall k :: k in q.points ==>
            q.points[k].location == p.points[k].location && q.points[k].geocode == p.points[k].geocode)
      && s'.rides[rideId].(pickups := p) == s.rides[rideId]
    ensures s'.rides.Keys == s.rides.Keys
    ensures s'.rides - {rideId} == s.rides - {rideId}
    ensures s'.(rides := s.rides) == s
  {
    if rideId == "" || userId == "" then s
    else
      match GetRide(s, rideId)
      case None => s
      case Some(ride) =>
        s.(rides := s.rides[rideId := ride.(pickups := RemoveMember(ride.pickups.order, ride.pickups, userId))])
  }

  /** Writes the `driver` and `carId` fields of an existing ride. */
  function WriteDriver(s: Store, rideId: Id, driver: Option<Id>, carId: Option<Id>): (s': Store)
    ensures rideId in s.rides ==>
      && rideId in s'.rides
      && s'.rides[rideId].driver == driver && s'.rides[rideId].carId == carId
      && s'.rides[rideId].(driver := s.rides[rideId].driver, carId := s.rides[rideId].carId)
         == s.rides[rideId]
    ensures s'.rides.Keys == s.rides.Keys
    ensures s'.rides - {rideId} == s.rides - {rideId}
    ensures s'.(rides := s.rides) == s
  {
    if rideId in s.rides
    then s.(rides := s.rides[rideId := s.rides[rideId].(driver := driver, carId := carId)])
    else s
  }

  /** Some pickup point of the ride lists `u`. */
  ghost predicate InSomePickup(ride: Ride, u: Id) {
    exists i :: 0 <= i < |ride.pickups.order| && HasMember(ride.pickups.points, ride.pickups.order[i], u)
  }

  /** `setRideDriver`: sets (`state`) or clears the driver and car.  An
      assigned driver who already waits at a pickup point makes the first
      such point, in key order, the start, and the route is recomputed. */
  function SetRideDriver(s: Store, driverId: Id, rideId: Id, carId: Id, state: bool,
                         plan: Planner): (s': Store)
    ensures rideId == "" || rideId !in s.rides ==> s' == s
    ensures rideId != "" && rideId in s.rides ==>
      var ride := s.rides[rideId];
      && rideId in s'.rides
      && var ride' := s'.rides[rideId];
      && (state && driverId != "" ==> ride'.driver == Some(driverId))
      && (!state || driverId == "" ==> ride'.driver.None?)
      && (state && carId != "" ==> ride'.carId == Some(carId))
      && (!state || carId == "" ==> ride'.carId.None?)
      && ride'.(driver := ride.driver, carId := ride.carId, start := ride.start) == ride
      && (state && driverId != "" && InSomePickup(ride, driverId) ==>
            && IsFirstWith(ride.pickups.order, ride.pickups.points, driverId, ride'.start)
            && RouteRecomputed(s, s', rideId, plan))
      && (!(state && driverId != "" && InSomePickup(ride, driverId)) ==>
            ride'.start == ride.start && s'.routes == s.routes)
    ensures s'.rides.Keys == s.rides.Keys
    ensures s'.rides - {rideId} == s.rides - {rideId}
    ensures s'.routes - {rideId} == s.routes - {rideId}
    ensures s'.(rides := s.rides, routes := s.routes) == s
  {
    if rideId == "" then s
    else
      var s1 := WriteDriver(s, rideId,
                            if state && driverId != "" then Some(driverId) else None,
                            if state && carId != "" then Some(carId) else None);
      var ride := GetRide(s1, rideId);
      if state && driverId != "" && ride.Some? then
        var p := ride.value.pickups;
        match FirstPickupWith(p.order, p.points, driverId)
        case Some(k) => SetRideStart(s1, rideId, k, plan)
        case None => s1
      else s1
  }

  /** Writes `present` at `passengers/rideId/passId`; a registry left empty
      disappears, as the store keeps no empty objects. */
  function SetRegistryEntry(s: Store, rideId: Id, passId: Id, present: bool): (s': Store)
    ensures passId in Registry(s', rideId) <==> present
    ensures forall v :: v != passId ==> (v in Registry(s', rideId) <==> v in Registry(s, rideId))
    ensures forall r :: r != rideId ==> Registry(s', r) == Registry(s, r)
    ensures s'.(passengers := s.passengers) == s
  {
    var reg := Toggle(Registry(s, rideId), passId, present);
    s.(passengers := if reg == {} then s.passengers - {rideId} else s.passengers[rideId := reg])
  }

  /** `setRidePassenger`: sets or clears the registry entry.  Clearing the
      entry of the ride's driver also clears the driver and car. */
  function SetRidePassenger(s: Store, passId: Id, rideId: Id, isPassenger: bool): (s': Store)
    ensures rideId != "" && passId != "" ==>
      && (passId in Registry(s', rideId) <==> isPassenger)
      && (forall v :: v != passId ==> (v in Registry(s', rideId) <==> v in Registry(s, rideId)))
    ensures rideId == "" || passId == "" ==> s'.passengers == s.passengers
    ensures forall r :: r != rideId ==> Registry(s', r) == Registry(s, r)
    ensures !isPassenger && rideId != "" && rideId in s.rides && s.rides[rideId].driver == Some(passId) ==>
      && rideId in s'.rides
      && s'.rides[rideId].driver.None?
      && s'.rides[rideId].carId.None?
      && s'.rides[rideId].(driver := s.rides[rideId].driver, carId := s.rides[rideId].carId)
         == s.rides[rideId]
    ensures !(!isPassenger && rideId != "" && rideId in s.rides && s.rides[rideId].driver == Some(passId)) ==>
      s'.rides == s.rides
    ensures s'.rides - {rideId} == s.rides - {rideId}
    ensures s'.(rides := s.rides, passengers := s.passengers) == s
  {
    var s1 := if rideId != "" && passId != "" then SetRegistryEntry(s, rideId, passId, isPassenger) else s;
    var ride := GetRide(s1, rideId);
    if !isPassenger && ride.Some? && ride.value.driver == Some(passId)
    then SetRideDriver(s1, passId, rideId, "", false, NoRoute)
    else s1
  }
}
