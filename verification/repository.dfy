/** Typed reads and path-scoped writes for groups, users, vehicles, rides and
    routes.  A read of a missing record is `None` (the promise rejects).  A
    write below a record the store does not hold leaves the store unchanged:
    the model keeps only whole records (see the README). */
module Repository {
  import opened Types
  import PickupOps

  /** `getGroup`: the stored group, its `id` set to the key it was read from. */
  function GetGroup(s: Store, groupId: Id): (r: Option<Group>)
    ensures r.Some? <==> groupId in s.groups
    ensures r.Some? ==> r.value.id == groupId
    ensures r.Some? ==> r.value.(id := s.groups[groupId].id) == s.groups[groupId]
  {
    if groupId in s.groups then Some(s.groups[groupId].(id := groupId)) else None
  }

  /** `setGroup`: overwrites the whole group under its id; a group without
      an id is not written. */
  function SetGroup(s: Store, g: Group): (s': Store)
    ensures g.id == "" ==> s' == s
    ensures g.id != "" ==> GetGroup(s', g.id) == Some(g)
    ensures s'.groups - {g.id} == s.groups - {g.id}
    ensures s'.(groups := s.groups) == s
  {
    if g.id == "" then s else s.(groups := s.groups[g.id := g])
  }

  /** `setGroupBanner`.  The store refuses to write `undefined`, so a call
      without a banner fails and writes nothing. */
  function SetGroupBanner(s: Store, groupId: Id, banner: Option<string>): (s': Store)
    ensures banner.None? || groupId !in s.groups ==> s' == s
    ensures banner.Some? && groupId in s.groups ==>
      groupId in s'.groups && s'.groups[groupId].banner == banner
      && s'.groups[groupId].(banner := s.groups[groupId].banner) == s.groups[groupId]
    ensures s'.groups - {groupId} == s.groups - {groupId}
    ensures s'.(groups := s.groups) == s
  {
    if banner.None? || groupId !in s.groups then s
    else s.(groups := s.groups[groupId := s.groups[groupId].(banner := banner)])
  }

  /** `setGroupProfilePic`, with the same refusal of `undefined`. */
  function SetGroupProfilePic(s: Store, groupId: Id, pic: Option<string>): (s': Store)
    ensures pic.None? || groupId !in s.groups ==> s' == s
    ensures pic.Some? && groupId in s.groups ==>
      groupId in s'.groups && s'.groups[groupId].profilePic == pic
      && s'.groups[groupId].(profilePic := s.groups[groupId].profilePic) == s.groups[groupId]
    ensures s'.groups - {groupId} == s.groups - {groupId}
    ensures s'.(groups := s.groups) == s
  {
    if pic.None? || groupId !in s.groups then s
    else s.(groups := s.groups[groupId := s.groups[groupId].(profilePic := pic)])
  }

  /** `getUser`: the stored user, its `uid` set to the key it was read from. */
  function GetUser(s: Store, userId: Id): (r: Option<User>)
    ensures r.Some? <==> userId in s.users
    ensures r.Some? ==> r.value.uid == userId
    ensures r.Some? ==> r.value.(uid := s.users[userId].uid) == s.users[userId]
  {
    if userId in s.users then Some(s.users[userId].(uid := userId)) else None
  }

  /** `setUser`: overwrites the whole user under its uid; a user without a
      uid is not written. */
  function SetUser(s: Store, user: User): (s': Store)
    ensures user.uid == "" ==> s' == s
    ensures user.uid != "" ==> GetUser(s', user.uid) == Some(user)
    ensures s'.users - {user.uid} == s.users - {user.uid}
    ensures s'.(users := s.users) == s
  {
    if user.uid == "" then s else s.(users := s.users[user.uid := user])
  }

  /** The key a vehicle is filed under: its `carId`, or the text that a
      template string makes of `undefined`. */
  function VehicleKey(v: Vehicle): Id {
    match v.carId
    case Some(c) => c
    case None => "undefined"
  }

  /** Reads back a stored vehicle, restoring `carId` from its key as the
      vehicle list subscription does with `keyField: "carId"`. */
  function ReadVehicle(s: Store, userId: Id, carId: Id): Option<Vehicle> {
    if userId in s.users && carId in s.users[userId].vehicles
    then Some(s.users[userId].vehicles[carId].(carId := Some(carId)))
    else None
  }

  /** `setUserVehicle`: stores the vehicle without its `carId` under the key
      `carId`.  Reading it back gives the same vehicle, its id filled in. */
  function SetUserVehicle(s: Store, userId: Id, v: Vehicle): (s': Store)
    ensures userId !in s.users ==> s' == s
    ensures userId in s.users ==>
      ReadVehicle(s', userId, VehicleKey(v)) == Some(v.(carId := Some(VehicleKey(v))))
    ensures userId in s.users ==> s'.users[userId].vehicles[VehicleKey(v)].carId.None?
    ensures userId in s.users ==> forall k :: k != VehicleKey(v) ==>
      ReadVehicle(s', userId, k) == ReadVehicle(s, userId, k)
    ensures userId in s.users ==>
      s'.users[userId].(vehicles := s.users[userId].vehicles) == s.users[userId]
    ensures s'.users - {userId} == s.users - {userId}
    ensures s'.(users := s.users) == s
  {
    if userId !in s.users then s
    else
      var u := s.users[userId];
      s.(users := s.users[userId := u.(vehicles := u.vehicles[VehicleKey(v) := v.(carId := None)])])
  }

  /** `setGroupMember`: adds (`true`) or removes (`null`) a member; nothing
      outside the group's member set changes, rides included. */
  function SetGroupMember(s: Store, groupId: Id, userId: Id, isMember: bool): (s': Store)
    ensures groupId !in s.groups ==> s' == s
    ensures groupId in s.groups ==>
      && groupId in s'.groups
      && (userId in s'.groups[groupId].members <==> isMember)
      && (forall v :: v != userId ==>
            (v in s'.groups[groupId].members <==> v in s.groups[groupId].members))
      && s'.groups[groupId].(members := s.groups[groupId].members) == s.groups[groupId]
    ensures s'.groups - {groupId} == s.groups - {groupId}
    ensures s'.(groups := s.groups) == s
  {
    if groupId !in s.groups then s
    else
      var g := s.groups[groupId];
      s.(groups := s.groups[groupId := g.(members := Toggle(g.members, userId, isMember))])
  }

  /** `setGroupRide`: adds or removes a ride id in the group's ride list; no
      ride record is touched. */
  function SetGroupRide(s: Store, groupId: Id, rideId: Id, isChild: bool): (s': Store)
    ensures groupId !in s.groups ==> s' == s
    ensures groupId in s.groups ==>
      && groupId in s'.groups
      && (rideId in s'.groups[groupId].rides <==> isChild)
      && (forall x :: x != rideId ==>
            (x in s'.groups[groupId].rides <==> x in s.groups[groupId].rides))
      && s'.groups[groupId].(rides := s.groups[groupId].rides) == s.groups[groupId]
    ensures s'.groups - {groupId} == s.groups - {groupId}
    ensures s'.(groups := s.groups) == s
  {
    if groupId !in s.groups then s
    else
      var g := s.groups[groupId];
      s.(groups := s.groups[groupId := g.(rides := Toggle(g.rides, rideId, isChild))])
  }

  /** `getRide`. */
  function GetRide(s: Store, rideId: Id): (r: Option<Ride>)
    ensures r.Some? <==> rideId in s.rides
    ensures r.Some? ==> r.value == s.rides[rideId]
  {
    if rideId in s.rides then Some(s.rides[rideId]) else None
  }

  /** `addPickupToRide`; `key` stands for the key the store generates. */
  function AddPickupToRide(s: Store, rideId: Id, key: Id, pt: PickupPoint): (s': Store)
    requires key != ""
    requires rideId in s.rides ==> key !in s.rides[rideId].pickups.points
    ensures rideId !in s.rides ==> s' == s
    ensures rideId in s.rides ==>
      && rideId in s'.rides
      && s'.rides[rideId].pickups.points.Keys == s.rides[rideId].pickups.points.Keys + {key}
      && s'.rides[rideId].pickups.points[key] == pt
      && s'.rides[rideId].pickups.order == s.rides[rideId].pickups.order + [key]
      && (forall k :: k in s.rides[rideId].pickups.points ==>
            s'.rides[rideId].pickups.points[k] == s.rides[rideId].pickups.points[k])
      && s'.rides[rideId].(pickups := s.rides[rideId].pickups) == s.rides[rideId]
    ensures s'.rides - {rideId} == s.rides - {rideId}
    ensures s'.(rides := s.rides) == s
  {
    if rideId !in s.rides then s
    else
      var ride := s.rides[rideId];
      s.(rides := s.rides[rideId := ride.(pickups := PickupOps.AddPoint(ride.pickups, key, pt))])
  }

  /** `setRoute`: overwrites the route of one ride; an empty ride id writes
      nothing. */
  function SetRoute(s: Store, rideId: Id, route: Route): (s': Store)
    ensures rideId == "" ==> s' == s
    ensures rideId != "" ==> rideId in s'.routes && s'.routes[rideId] == route
    ensures s'.routes - {rideId} == s.routes - {rideId}
    ensures s'.(routes := s.routes) == s
  {
    if rideId == "" then s else s.(routes := s.routes[rideId := route])
  }

  /** `completeRide`: raises the completion flag and nothing else. */
  function CompleteRide(s: Store, rideId: Id): (s': Store)
    ensures rideId == "" || rideId !in s.rides ==> s' == s
    ensures rideId != "" && rideId in s.rides ==>
      && rideId in s'.rides
      && s'.rides[rideId].isComplete
      && s'.rides[rideId].(isComplete := s.rides[rideId].isComplete) == s.rides[rideId]
    ensures s'.rides - {rideId} == s.rides - {rideId}
    ensures s'.(rides := s.rides) == s
  {
    if rideId == "" || rideId !in s.rides then s
    else s.(rides := s.rides[rideId := s.rides[rideId].(isComplete := true)])
  }

  lemma CompleteRideIdempotent(s: Store, rideId: Id)
    ensures CompleteRide(CompleteRide(s, rideId), rideId) == CompleteRide(s, rideId)
  {
  }

  lemma SetGroupMemberIdempotent(s: Store, groupId: Id, userId: Id, isMember: bool)
    ensures var s1 := SetGroupMember(s, groupId, userId, isMember);
      SetGroupMember(s1, groupId, userId, isMember) == s1
  {
    if groupId in s.groups {
      var g := s.groups[groupId];
      ToggleIdempotent(g.members, userId, isMember);
    }
  }
}
