/** Properties relating several coordination operations: idempotence of the
    pickup write and of start selection, `clearUserFromPickups` as one
    removal per pickup point, and the interplay of leaving every pickup
    point with later driver assignment. */
module Properties {
  import opened Types
  import opened PickupOps
  import opened Repository
  import opened Coordination

  /** A recompute right after a recompute of the same ride stores nothing
      new: the waypoint list and so the planner's answer are the same. */
  lemma RecomputeRouteStable(s0: Store, s1: Store, rideId: Id, plan: Planner)
    requires rideId in s1.rides && RouteRecomputed(s0, s1, rideId, plan)
    ensures RecomputeRoute(s1, rideId, plan) == s1
  {
    assert GetRide(s1, rideId) == Some(s1.rides[rideId]);
    match Waypoints(s1.rides[rideId])
    case None =>
    case Some(w) =>
      match plan(w)
      case None =>
      case Some(route) =>
        if rideId != "" {
          assert s1.routes[rideId := route] == s1.routes;
        }
  }

  /** Selecting the same start twice stores what selecting it once does: the
      second recompute plans over the same waypoint list. */
  lemma SetRideStartIdempotent(s: Store, rideId: Id, pickupId: Id, plan: Planner)
    ensures var s1 := SetRideStart(s, rideId, pickupId, plan);
      SetRideStart(s1, rideId, pickupId, plan) == s1
  {
    if rideId in s.rides {
      var s1 := SetRideStart(s, rideId, pickupId, plan);
      var t := WriteStart(s1, rideId, pickupId);
      assert t == s1 by {
        assert s1.rides[rideId].(start := pickupId) == s1.rides[rideId];
        assert s1.rides[rideId := s1.rides[rideId]] == s1.rides;
      }
      RecomputeRouteStable(s, s1, rideId, plan);
      assert SetRideStart(s1, rideId, pickupId, plan) == RecomputeRoute(t, rideId, plan);
    }
  }

  /** A member write that finds the member set already as written changes
      nothing. */
  lemma WriteMemberNoop(t: Store, rideId: Id, pickupId: Id, userId: Id, present: bool)
    requires rideId in t.rides
    requires pickupId in t.rides[rideId].pickups.points ==>
      (userId in t.rides[rideId].pickups.points[pickupId].members <==> present)
    ensures WriteMember(t, rideId, pickupId, userId, present) == t
  {
    var p := t.rides[rideId].pickups;
    if pickupId in p.points {
      var q := SetMember(p, pickupId, userId, present);
      assert q.points[pickupId].members == p.points[pickupId].members;
      assert q.points == p.points;
      assert q == p;
      assert t.rides[rideId := t.rides[rideId].(pickups := q)] == t.rides;
    }
  }

  /** `setUserInPickup` twice with the same arguments equals once. */
  lemma SetUserInPickupIdempotent(s: Store, rideId: Id, pickupId: Id, userId: Id,
                                  isPassenger: bool, plan: Planner)
    ensures var s1 := SetUserInPickup(s, rideId, pickupId, userId, isPassenger, plan);
      SetUserInPickup(s1, rideId, pickupId, userId, isPassenger, plan) == s1
  {
    if rideId != "" && pickupId != "" && rideId in s.rides {
      var s0 := WriteMember(s, rideId, pickupId, userId, isPassenger);
      var s1 := SetUserInPickup(s, rideId, pickupId, userId, isPassenger, plan);
      assert s1.rides[rideId].pickups == s0.rides[rideId].pickups;
      assert s1.rides[rideId].driver == s.rides[rideId].driver;
      WriteMemberNoop(s1, rideId, pickupId, userId, isPassenger);
      if isPassenger && s.rides[rideId].driver == Some(userId) {
        assert s1 == SetRideStart(s0, rideId, pickupId, plan);
        SetRideStartIdempotent(s0, rideId, pickupId, plan);
      }
    }
  }

  /** Removing the user from each of `keys`, one `setUserInPickup(..., false)`
      at a time. */
  function RemoveFromEach(s: Store, rideId: Id, keys: seq<Id>, userId: Id, plan: Planner): Store
    decreases |keys|
  {
    if |keys| == 0 then s
    else RemoveFromEach(SetUserInPickup(s, rideId, keys[0], userId, false, plan), rideId, keys[1..], userId, plan)
  }

  /** The store with the pickup points of ride `rideId` replaced by `q`. */
  function WithPickups(s: Store, rideId: Id, q: PickupMap): Store
    requires rideId in s.rides
  {
    s.(rides := s.rides[rideId := s.rides[rideId].(pickups := q)])
  }

  lemma WithPickupsTwice(s: Store, rideId: Id, q1: PickupMap, q2: PickupMap)
    requires rideId in s.rides
    ensures WithPickups(WithPickups(s, rideId, q1), rideId, q2) == WithPickups(s, rideId, q2)
  {
  }

  /** The step `RemoveMember` takes on key `k`. */
  function RemovalStepOf(p: PickupMap, k: Id, u: Id): PickupMap {
    if HasMember(p.points, k, u) then SetMember(p, k, u, false) else p
  }

  /** One removal step: `setUserInPickup(..., false)` on a key is the step
      `RemoveMember` takes for that key. */
  lemma RemovalStep(s: Store, rideId: Id, k: Id, userId: Id, plan: Planner)
    requires rideId != "" && rideId in s.rides && k in s.rides[rideId].pickups.points
    ensures SetUserInPickup(s, rideId, k, userId, false, plan)
      == WithPickups(s, rideId, RemovalStepOf(s.rides[rideId].pickups, k, userId))
  {
    var ride := s.rides[rideId];
    var p := ride.pickups;
    assert k != "";
    if !HasMember(p.points, k, userId) {
      var q := SetMember(p, k, userId, false);
      assert q.points[k].members == p.points[k].members;
      assert q.points[k] == p.points[k];
      assert q.points == p.points;
      assert s.rides[rideId := ride] == s.rides;
    }
  }

  lemma {:induction false} RemoveFromEachIsRemoveMember(s: Store, rideId: Id, keys: seq<Id>, userId: Id,
                                                       plan: Planner)
    requires rideId != "" && rideId in s.rides
    requires forall k :: k in keys ==> k in s.rides[rideId].pickups.points
    ensures RemoveFromEach(s, rideId, keys, userId, plan)
      == WithPickups(s, rideId, RemoveMember(keys, s.rides[rideId].pickups, userId))
    decreases |keys|
  {
    var p := s.rides[rideId].pickups;
    if |keys| == 0 {
      assert s.rides[rideId := s.rides[rideId]] == s.rides;
    } else {
      var k := keys[0];
      var step := RemovalStepOf(p, k, userId);
      var s1 := WithPickups(s, rideId, step);
      RemovalStep(s, rideId, k, userId, plan);
      assert forall j :: j in keys[1..] ==> j in keys;
      RemoveFromEachIsRemoveMember(s1, rideId, keys[1..], userId, plan);
      assert RemoveMember(keys[1..], step, userId) == RemoveMember(keys, p, userId);
      WithPickupsTwice(s, rideId, step, RemoveMember(keys, p, userId));
    }
  }

  /** `clearUserFromPickups` is `setUserInPickup(rideId, k, userId, false)`
      for every pickup key `k`, in key order. */
  lemma ClearIsRemovalFromEachPickup(s: Store, rideId: Id, userId: Id, plan: Planner)
    requires rideId != "" && userId != "" && rideId in s.rides
    ensures ClearUserFromPickups(s, rideId, userId)
      == RemoveFromEach(s, rideId, s.rides[rideId].pickups.order, userId, plan)
  {
    assert ClearUserFromPickups(s, rideId, userId)
      == WithPickups(s, rideId, RemoveMember(s.rides[rideId].pickups.order, s.rides[rideId].pickups, userId));
    RemoveFromEachIsRemoveMember(s, rideId, s.rides[rideId].pickups.order, userId, plan);
  }

  /** Removing a user that no point lists changes nothing. */
  lemma {:induction false} RemoveMemberNoop(keys: seq<Id>, p: PickupMap, u: Id)
    requires forall k :: k in p.points ==> u !in p.points[k].members
    ensures RemoveMember(keys, p, u) == p
    decreases |keys|
  {
    if |keys| > 0 {
      RemoveMemberNoop(keys[1..], p, u);
    }
  }

  /** Clearing a user that no pickup point of the ride lists changes
      nothing. */
  lemma ClearNoop(t: Store, rideId: Id, userId: Id)
    requires rideId in t.rides
    requires forall k :: k in t.rides[rideId].pickups.points ==> userId !in t.rides[rideId].pickups.points[k].members
    ensures ClearUserFromPickups(t, rideId, userId) == t
  {
    var ride := t.rides[rideId];
    RemoveMemberNoop(ride.pickups.order, ride.pickups, userId);
    assert t.rides[rideId := ride] == t.rides;
  }

  /** Clearing a user from every pickup point twice is clearing once. */
  lemma ClearIdempotent(s: Store, rideId: Id, userId: Id)
    ensures var s1 := ClearUserFromPickups(s, rideId, userId);
      ClearUserFromPickups(s1, rideId, userId) == s1
  {
    if rideId != "" && userId != "" && rideId in s.rides {
      ClearNoop(ClearUserFromPickups(s, rideId, userId), rideId, userId);
    }
  }

  /** A user who has left every pickup point of a ride and is then assigned
      as its driver does not move the ride's start, and no route is
      recomputed. */
  lemma LeaveThenDriveKeepsStart(s: Store, rideId: Id, userId: Id, carId: Id, plan: Planner)
    requires rideId != "" && userId != "" && rideId in s.rides
    ensures var s1 := ClearUserFromPickups(s, rideId, userId);
      var s2 := SetRideDriver(s1, userId, rideId, carId, true, plan);
      && s2.rides[rideId].start == s.rides[rideId].start
      && s2.rides[rideId].driver == Some(userId)
      && s2.routes == s.routes
  {
    var s1 := ClearUserFromPickups(s, rideId, userId);
    var ride := s1.rides[rideId];
    assert !InSomePickup(ride, userId) by {
      forall i | 0 <= i < |ride.pickups.order|
        ensures !HasMember(ride.pickups.points, ride.pickups.order[i], userId)
      {
        assert ride.pickups.order[i] in ride.pickups.points;
      }
    }
  }

  /** Removing a passenger flag never moves a ride's start or its route. */
  lemma PassengerRemovalKeepsStartAndRoute(s: Store, passId: Id, rideId: Id)
    requires rideId in s.rides
    ensures var s' := SetRidePassenger(s, passId, rideId, false);
      && rideId in s'.rides
      && s'.rides[rideId].start == s.rides[rideId].start
      && s'.rides[rideId].pickups == s.rides[rideId].pickups
      && s'.routes == s.routes
  {
  }

  /** `getRide` after a write to one ride reads back the ride as written:
      the completion flag, the start, the member flag, the driver. */
  lemma GetRideAfterRideWrites(s: Store, rideId: Id, pickupId: Id, userId: Id, plan: Planner)
    requires rideId != "" && rideId in s.rides
    ensures GetRide(CompleteRide(s, rideId), rideId) == Some(s.rides[rideId].(isComplete := true))
    ensures GetRide(SetRideStart(s, rideId, pickupId, plan), rideId)
      == Some(s.rides[rideId].(start := pickupId))
    ensures pickupId != "" && pickupId in s.rides[rideId].pickups.points ==>
      var r := GetRide(SetUserInPickup(s, rideId, pickupId, userId, true, plan), rideId);
      r.Some? && userId in r.value.pickups.points[pickupId].members
    ensures userId != "" ==>
      var r := GetRide(SetRideDriver(s, userId, rideId, "", true, plan), rideId);
      r.Some? && r.value.driver == Some(userId) && r.value.carId.None?
  {
    var ride := s.rides[rideId];
    var s1 := SetRideStart(s, rideId, pickupId, plan);
    assert s1.rides[rideId] == ride.(start := pickupId);
  }

  /** A write to one ride, or to a group, leaves `getRide` of every other
      ride as it was. */
  lemma GetRideOfOtherRide(s: Store, rideId: Id, other: Id, pickupId: Id, userId: Id,
                           groupId: Id, flag: bool, plan: Planner)
    requires other != rideId
    ensures GetRide(CompleteRide(s, rideId), other) == GetRide(s, other)
    ensures GetRide(SetRideStart(s, rideId, pickupId, plan), other) == GetRide(s, other)
    ensures GetRide(SetUserInPickup(s, rideId, pickupId, userId, flag, plan), other) == GetRide(s, other)
    ensures GetRide(ClearUserFromPickups(s, rideId, userId), other) == GetRide(s, other)
    ensures GetRide(SetRideDriver(s, userId, rideId, pickupId, flag, plan), other) == GetRide(s, other)
    ensures GetRide(SetRidePassenger(s, userId, rideId, flag), other) == GetRide(s, other)
    ensures GetRide(SetGroupMember(s, groupId, userId, flag), other) == GetRide(s, other)
    ensures GetRide(SetGroupRide(s, groupId, other, flag), other) == GetRide(s, other)
  {
    assert other in s.rides - {rideId} <==> other in s.rides;
  }
}
