/** Operations on the pickup points of one ride: the "first pickup point
    holding a user" search, the waypoint list a route is planned over, and
    the member-set updates. */
module PickupOps {
  import opened Types

  /** Pickup `k` exists and lists `u` among its members. */
  predicate HasMember(points: map<Id, PickupPoint>, k: Id, u: Id) {
    k in points && u in points[k].members
  }

  /** `k` is the first key of `keys` whose pickup point holds `u`. */
  ghost predicate IsFirstWith(keys: seq<Id>, points: map<Id, PickupPoint>, u: Id, k: Id) {
    exists i :: 0 <= i < |keys| && keys[i] == k && HasMember(points, k, u)
      && forall j :: 0 <= j < i ==> !HasMember(points, keys[j], u)
  }

  /** The search `Object.keys(pickupPoints).find(...)` for a pickup point
      whose members include `u`. */
  function FirstPickupWith(keys: seq<Id>, points: map<Id, PickupPoint>, u: Id): (r: Option<Id>)
    ensures r.None? <==> forall i :: 0 <= i < |keys| ==> !HasMember(points, keys[i], u)
    ensures r.Some? ==> IsFirstWith(keys, points, u, r.value)
  {
    if |keys| == 0 then None
    else if HasMember(points, keys[0], u) then
      assert IsFirstWith(keys, points, u, keys[0]) by {
        var i := 0;
        assert keys[i] == keys[0] && HasMember(points, keys[i], u);
      }
      Some(keys[0])
    else
      var r := FirstPickupWith(keys[1..], points, u);
      assert r.None? ==> forall i :: 0 <= i < |keys| ==> !HasMember(points, keys[i], u) by {
        if r.None? {
          forall i | 0 <= i < |keys| ensures !HasMember(points, keys[i], u) {
            if i > 0 { assert keys[i] == keys[1..][i - 1]; }
          }
        }
      }
      assert r.Some? ==> IsFirstWith(keys, points, u, r.value) by {
        if r.Some? {
          var i :| 0 <= i < |keys[1..]| && keys[1..][i] == r.value && HasMember(points, r.value, u)
            && forall j :: 0 <= j < i ==> !HasMember(points, keys[1..][j], u);
          forall j | 0 <= j < i + 1 ensures !HasMember(points, keys[j], u) {
            if j > 0 { assert keys[j] == keys[1..][j - 1]; }
          }
          assert keys[i + 1] == r.value;
        }
      }
      r
  }

  /** There is at most one first key holding `u`. */
  lemma FirstIsUnique(keys: seq<Id>, points: map<Id, PickupPoint>, u: Id, k1: Id, k2: Id)
    requires IsFirstWith(keys, points, u, k1) && IsFirstWith(keys, points, u, k2)
    ensures k1 == k2
  {
    var i1 :| 0 <= i1 < |keys| && keys[i1] == k1 && HasMember(points, k1, u)
      && forall j :: 0 <= j < i1 ==> !HasMember(points, keys[j], u);
    var i2 :| 0 <= i2 < |keys| && keys[i2] == k2 && HasMember(points, k2, u)
      && forall j :: 0 <= j < i2 ==> !HasMember(points, keys[j], u);
    assert HasMember(points, keys[i1], u) && HasMember(points, keys[i2], u);
    assert i1 == i2;
  }

  /** `keys` with every occurrence of `x` dropped, the rest in order. */
  function Exclude(keys: seq<Id>, x: Id): (r: seq<Id>)
    ensures forall k :: k in r <==> k in keys && k != x
    ensures |r| <= |keys|
  {
    if |keys| == 0 then []
    else (if keys[0] == x then [] else [keys[0]]) + Exclude(keys[1..], x)
  }

  lemma {:induction false} ExcludeAbsent(keys: seq<Id>, x: Id)
    requires x !in keys
    ensures Exclude(keys, x) == keys
  {
    if |keys| > 0 {
      assert x !in keys[1..];
      ExcludeAbsent(keys[1..], x);
      assert keys == [keys[0]] + keys[1..];
    }
  }

  /** In a list of distinct keys, dropping `x` (found at `i`) keeps the keys
      before it and the keys after it, in their order. */
  lemma {:induction false} ExcludeSplit(keys: seq<Id>, x: Id, i: nat)
    requires Distinct(keys)
    requires i < |keys| && keys[i] == x
    ensures Exclude(keys, x) == keys[..i] + keys[i + 1..]
    ensures |Exclude(keys, x)| == |keys| - 1
  {
    var tail := keys[1..];
    assert Distinct(tail) by {
      forall a, b | 0 <= a < b < |tail| ensures tail[a] != tail[b] {
        assert tail[a] == keys[a + 1] && tail[b] == keys[b + 1];
      }
    }
    if i == 0 {
      assert x !in tail by {
        forall a | 0 <= a < |tail| ensures tail[a] != x {
          assert tail[a] == keys[a + 1];
        }
      }
      ExcludeAbsent(tail, x);
    } else {
      assert keys[0] != x by {
        assert keys[0] != keys[i];
      }
      assert tail[i - 1] == x;
      ExcludeSplit(tail, x, i - 1);
      calc {
        Exclude(keys, x);
        [keys[0]] + Exclude(tail, x);
        [keys[0]] + (tail[..i - 1] + tail[i..]);
        { assert keys[..i] == [keys[0]] + tail[..i - 1];
          assert keys[i + 1..] == tail[i..]; }
        keys[..i] + keys[i + 1..];
      }
    }
  }

  /** The loop of `setRideStart` that pushes the location of every pickup
      point other than the start, in key order. */
  function OtherLocations(keys: seq<Id>, points: map<Id, PickupPoint>, start: Id): (r: seq<Coord>)
    requires forall k :: k in keys ==> k in points
    ensures |r| == |Exclude(keys, start)|
    ensures forall i :: 0 <= i < |r| ==> r[i] == points[Exclude(keys, start)[i]].location
  {
    if |keys| == 0 then []
    else
      var rest := OtherLocations(keys[1..], points, start);
      if keys[0] == start then
        assert Exclude(keys, start) == Exclude(keys[1..], start);
        rest
      else
        var r := [points[keys[0]].location] + rest;
        var ex := Exclude(keys, start);
        assert ex == [keys[0]] + Exclude(keys[1..], start);
        r
  }

  /** The waypoint list of a ride: the location of its start point, the
      locations of every other pickup point in key order, then its end.  A
      start that names no pickup point makes the lookup fail (`None`). */
  function Waypoints(ride: Ride): (r: Option<seq<Coord>>)
    ensures r.None? <==> ride.start !in ride.pickups.points
    ensures r.Some? ==> |r.value| == |ride.pickups.points| + 1
    ensures r.Some? ==> r.value[0] == ride.pickups.points[ride.start].location
    ensures r.Some? ==> r.value[|r.value| - 1] == ride.end
    ensures r.Some? ==> var others := Exclude(ride.pickups.order, ride.start);
      |r.value| == |others| + 2
      && forall i :: 0 <= i < |others| ==> r.value[i + 1] == ride.pickups.points[others[i]].location
  {
    var p := ride.pickups;
    if ride.start !in p.points then None
    else
      var w := [p.points[ride.start].location] + OtherLocations(p.order, p.points, ride.start) + [ride.end];
      assert |w| == |p.points| + 1 by {
        var i :| 0 <= i < |p.order| && p.order[i] == ride.start;
        ExcludeSplit(p.order, ride.start, i);
        PickupCount(p);
      }
      Some(w)
  }

  /** The locations of the points named by `keys`, in the order of `keys`. */
  function Locations(keys: seq<Id>, points: map<Id, PickupPoint>): seq<Coord>
    requires forall k :: k in keys ==> k in points
  {
    seq(|keys|, j requires 0 <= j < |keys| => points[keys[j]].location)
  }

  /** Reference definition of the waypoint list: with the start at index
      `i` of the key order, the list is the start's location, the locations
      of the keys before `i` and after `i` in key order, and the end. */
  lemma WaypointsInKeyOrder(ride: Ride, i: nat)
    requires i < |ride.pickups.order| && ride.pickups.order[i] == ride.start
    ensures var p := ride.pickups;
      Waypoints(ride) == Some([p.points[ride.start].location]
        + Locations(p.order[..i] + p.order[i + 1..], p.points) + [ride.end])
  {
    var p := ride.pickups;
    var others := p.order[..i] + p.order[i + 1..];
    ExcludeSplit(p.order, ride.start, i);
    assert Exclude(p.order, ride.start) == others;
    var w := Waypoints(ride).value;
    var mid := Locations(others, p.points);
    var expected := [p.points[ride.start].location] + mid + [ride.end];
    assert |mid| == |others|;
    assert |w| == |expected|;
    forall j | 0 <= j < |w| ensures w[j] == expected[j] {
      if 0 < j < |w| - 1 {
        assert expected[j] == mid[j - 1];
        assert w[j] == p.points[others[j - 1]].location;
      }
    }
    assert w == expected;
  }

  /** Writes `present` at `pickupPoints/k/members/u` of an existing point. */
  function SetMember(p: PickupMap, k: Id, u: Id, present: bool): (r: PickupMap)
    requires k in p.points
    ensures r.order == p.order && r.points.Keys == p.points.Keys
    ensures u in r.points[k].members <==> present
    ensures forall v :: v != u ==> (v in r.points[k].members <==> v in p.points[k].members)
    ensures r.points[k].location == p.points[k].location
    ensures r.points[k].geocode == p.points[k].geocode
    ensures forall j :: j in p.points && j != k ==> r.points[j] == p.points[j]
  {
    var pt := p.points[k];
    Pickups(p.order, p.points[k := pt.(members := Toggle(pt.members, u, present))])
  }

  /** Removes `u` from every point among `keys` whose members include it, one
      key after the other. */
  function RemoveMember(keys: seq<Id>, p: PickupMap, u: Id): (r: PickupMap)
    ensures r.order == p.order && r.points.Keys == p.points.Keys
    ensures forall k :: k in r.points ==>
      r.points[k].location == p.points[k].location && r.points[k].geocode == p.points[k].geocode
    ensures forall k :: k in r.points && k in keys ==> u !in r.points[k].members
    ensures forall k, v :: k in r.points && v != u ==>
      (v in r.points[k].members <==> v in p.points[k].members)
    ensures forall k :: k in r.points && k !in keys ==> r.points[k] == p.points[k]
  {
    if |keys| == 0 then p
    else
      var k := keys[0];
      var step := if HasMember(p.points, k, u) then SetMember(p, k, u, false) else p;
      var r := RemoveMember(keys[1..], step, u);
      assert forall j :: j in keys ==> j == k || j in keys[1..];
      r
  }

  /** The new point goes to the end of the iteration order: a freshly
      generated push key sorts after every key generated before it. */
  function AddPoint(p: PickupMap, k: Id, pt: PickupPoint): (r: PickupMap)
    requires k != "" && k !in p.points
    ensures r.order == p.order + [k]
    ensures r.points.Keys == p.points.Keys + {k} && r.points[k] == pt
    ensures forall j :: j in p.points ==> r.points[j] == p.points[j]
  {
    var r := Pickups(p.order + [k], p.points[k := pt]);
    assert Distinct(r.order) by {
      forall i, j | 0 <= i < j < |r.order| ensures r.order[i] != r.order[j] {
        if j == |p.order| { assert r.order[i] == p.order[i]; }
      }
    }
    r
  }
}
