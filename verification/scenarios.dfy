/** Concrete runs of the engine on a two-point ride: R1 has pickup points A
    (where driver1 waits) and B (where pax1 waits), in that key order, and
    ends at (1, 1). */
module Scenarios {
  import opened Types
  import opened PickupOps
  import opened Coordination

  const LocA := Coord(0.0, 0.0)
  const LocB := Coord(0.5, 0.5)
  const EndR1 := Coord(1.0, 1.0)

  function RideR1(): Ride {
    var points := map["A" := PickupPoint(LocA, {"driver1"}, None),
                      "B" := PickupPoint(LocB, {"pax1"}, None)];
    Ride("Commute", "", EndR1, None, false, None, "2024-01-01", Pickups(["A", "B"], points))
  }

  function StoreR1(): Store {
    Store(map[], map[], map["R1" := RideR1()], map[], map[])
  }

  /** driver1 waits at A, the first point in key order. */
  lemma DriverFirstAtA()
    ensures InSomePickup(RideR1(), "driver1")
    ensures IsFirstWith(RideR1().pickups.order, RideR1().pickups.points, "driver1", "A")
  {
    var p := RideR1().pickups;
    assert p.order[0] == "A" && HasMember(p.points, "A", "driver1");
  }

  /** The waypoint list of a ride with two pickup points: the start's
      location, the other point's location, the end. */
  lemma WaypointsOfTwo(ride: Ride, other: Id)
    requires ride.pickups.order == [ride.start, other] || ride.pickups.order == [other, ride.start]
    ensures Waypoints(ride) == Some([ride.pickups.points[ride.start].location,
                                     ride.pickups.points[other].location, ride.end])
  {
    var p := ride.pickups;
    var start := ride.start;
    assert start != other by {
      assert p.order[0] != p.order[1];
    }
    assert start in p.points by {
      assert start in p.order;
    }
    var others := Exclude(p.order, start);
    assert others == [other] by {
      if p.order[0] == start {
        ExcludeSplit(p.order, start, 0);
        assert p.order[1..] == [other];
      } else {
        ExcludeSplit(p.order, start, 1);
        assert p.order[..1] == [other];
      }
    }
    var w := Waypoints(ride).value;
    ThreeWaypoints(w, p.points[start].location, p.points[other].location, ride.end);
  }

  /** A three-element list is the list of its elements. */
  lemma ThreeWaypoints(w: seq<Coord>, a: Coord, b: Coord, c: Coord)
    requires |w| == 3 && w[0] == a && w[1] == b && w[2] == c
    ensures w == [a, b, c]
  {
  }

  /** Assigning driver1, who waits at A, makes A the start and stores the
      route planned over [A, B, end]. */
  lemma AssignDriverSelectsStart(plan: Planner)
    requires plan([LocA, LocB, EndR1]).Some?
    ensures var s := SetRideDriver(StoreR1(), "driver1", "R1", "car1", true, plan);
      && "R1" in s.rides
      && s.rides["R1"].driver == Some("driver1")
      && s.rides["R1"].carId == Some("car1")
      && s.rides["R1"].start == "A"
      && "R1" in s.routes
      && s.routes["R1"] == plan([LocA, LocB, EndR1]).value
  {
    var s0 := StoreR1();
    var ride := RideR1();
    assert s0.rides["R1"] == ride;
    DriverFirstAtA();
    var s := SetRideDriver(s0, "driver1", "R1", "car1", true, plan);
    var ride' := s.rides["R1"];
    assert ride'.pickups == ride.pickups;
    FirstIsUnique(ride.pickups.order, ride.pickups.points, "driver1", ride'.start, "A");
    WaypointsOfTwo(ride', "B");
  }

  /** The driver then joining B moves the start to B and plans over
      [B, A, end]. */
  lemma DriverJoiningOtherPointMovesStart(plan: Planner)
    requires plan([LocA, LocB, EndR1]).Some?
    requires plan([LocB, LocA, EndR1]).Some?
    ensures var s1 := SetRideDriver(StoreR1(), "driver1", "R1", "car1", true, plan);
      var s2 := SetUserInPickup(s1, "R1", "B", "driver1", true, plan);
      && "R1" in s2.rides
      && s2.rides["R1"].start == "B"
      && "driver1" in s2.rides["R1"].pickups.points["B"].members
      && "R1" in s2.routes
      && s2.routes["R1"] == plan([LocB, LocA, EndR1]).value
  {
    AssignDriverSelectsStart(plan);
    var s1 := SetRideDriver(StoreR1(), "driver1", "R1", "car1", true, plan);
    var s2 := SetUserInPickup(s1, "R1", "B", "driver1", true, plan);
    var ride := s2.rides["R1"];
    var p := RideR1().pickups;
    assert s1.rides["R1"].pickups == p;
    assert ride.pickups.order == ["A", "B"];
    assert ride.pickups.points["A"] == p.points["A"];
    assert ride.pickups.points["B"].location == LocB;
    WaypointsOfTwo(ride, "A");
  }

  /** The driver dropping their passenger flag clears driver and car and
      keeps the start. */
  lemma DriverDroppingOutClearsDriver(plan: Planner)
    requires plan([LocA, LocB, EndR1]).Some?
    ensures var s1 := SetRideDriver(StoreR1(), "driver1", "R1", "car1", true, plan);
      var s2 := SetRidePassenger(s1, "driver1", "R1", false);
      && "R1" in s2.rides
      && s2.rides["R1"].driver.None?
      && s2.rides["R1"].carId.None?
      && s2.rides["R1"].start == "A"
      && "driver1" !in Registry(s2, "R1")
  {
    AssignDriverSelectsStart(plan);
  }

  /** A failed route request stores no route, while the start is still
      selected. */
  lemma FailedPlanStoresNoRoute()
    ensures var s := SetRideDriver(StoreR1(), "driver1", "R1", "car1", true, NoRoute);
      && "R1" in s.rides
      && s.rides["R1"].start == "A"
      && "R1" !in s.routes
  {
    var s0 := StoreR1();
    var ride := RideR1();
    assert s0.rides["R1"] == ride;
    DriverFirstAtA();
    var s := SetRideDriver(s0, "driver1", "R1", "car1", true, NoRoute);
    FirstIsUnique(ride.pickups.order, ride.pickups.points, "driver1", s.rides["R1"].start, "A");
  }
}
