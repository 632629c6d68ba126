/** Entity types of the carpool store: groups, users with their vehicles,
    rides with their pickup points, the per-ride passenger registry and the
    per-ride computed route.  Every record is an immutable value; the store
    is one value holding every collection. */
module Types {

  datatype Option<+T> = None | Some(value: T)

  /** Keys of the store: group ids, user ids, ride ids, pickup ids, car ids. */
  type Id = string

  /** A geographic coordinate.  The model never computes with coordinates,
      it only moves them around, so the numeric representation is immaterial. */
  datatype Coord = Coord(lat: real, lng: real)

  /** A computed route: derived data, replaced wholesale on every recompute. */
  datatype Route = Route(distance: real, fuelUsed: real, shape: seq<Coord>)

  /** The external route optimiser: an ordered waypoint list either yields a
      route or fails (`None`), in which case nothing is written. */
  type Planner = seq<Coord> -> Option<Route>

  /** A vehicle.  `carId` is the key it is filed under; it is stripped from
      the stored record and restored from the key on reading. */
  datatype Vehicle = Vehicle(
    carId: Option<Id>,
    kind: string,
    fuelUsage: real,
    numSeats: int,
    displayName: Option<string>)

  datatype User = User(
    uid: Id,
    name: string,
    authProvider: string,
    email: string,
    vehicles: map<Id, Vehicle>)

  datatype Group = Group(
    id: Id,
    name: string,
    description: string,
    isPrivate: bool,
    rides: set<Id>,
    members: set<Id>,
    owner: Id,
    maxSize: int,
    banner: Option<string>,
    profilePic: Option<string>)

  /** A pickup point; `members` is the key set of the boolean-valued
      `members` object (an absent object is the empty set). */
  datatype PickupPoint = PickupPoint(
    location: Coord,
    members: set<Id>,
    geocode: Option<string>)

  /** The keys of a ride's `pickupPoints` object in their iteration order,
      together with the object itself. */
  datatype Pickups = Pickups(order: seq<Id>, points: map<Id, PickupPoint>) {

    /** The order lists every key of the object exactly once, and no key is
        empty (the store refuses empty keys). */
    predicate WellFormed() {
      && Distinct(order)
      && (forall k :: k in order ==> k in points)
      && (forall k :: k in points ==> k in order)
      && "" !in points
    }
  }

  type PickupMap = p: Pickups | p.WellFormed() witness Pickups([], map[])

  predicate Distinct(xs: seq<Id>) {
    forall i, j :: 0 <= i < j < |xs| ==> xs[i] != xs[j]
  }

  /** A ride.  `start` is the key of the pickup point the route starts from
      ("" while none has been chosen). */
  datatype Ride = Ride(
    name: string,
    start: Id,
    end: Coord,
    driver: Option<Id>,
    isComplete: bool,
    carId: Option<Id>,
    startDate: string,
    pickups: PickupMap)

  /** The whole store.  `passengers[r]` is the passenger registry of ride `r`
      (a missing entry is the empty registry); `routes[r]` is the route of
      ride `r`. */
  datatype Store = Store(
    groups: map<Id, Group>,
    users: map<Id, User>,
    rides: map<Id, Ride>,
    passengers: map<Id, set<Id>>,
    routes: map<Id, Route>)

  /** The boolean-keyed set write used throughout the store: writing `true`
      at `members/x` adds `x`, writing `null` removes it. */
  function Toggle(xs: set<Id>, x: Id, present: bool): (r: set<Id>)
    ensures x in r <==> present
    ensures forall y :: y != x ==> (y in r <==> y in xs)
  {
    if present then xs + {x} else xs - {x}
  }

  lemma ToggleIdempotent(xs: set<Id>, x: Id, present: bool)
    ensures Toggle(Toggle(xs, x, present), x, present) == Toggle(xs, x, present)
  {
  }

  /** Distinct key sequences have as many elements as their key set. */
  lemma {:induction false} DistinctCard(xs: seq<Id>)
    requires Distinct(xs)
    ensures |set k | k in xs| == |xs|
  {
    if |xs| > 0 {
      var tail := xs[1..];
      assert Distinct(tail) by {
        forall i, j | 0 <= i < j < |tail| ensures tail[i] != tail[j] {
          assert tail[i] == xs[i + 1] && tail[j] == xs[j + 1];
        }
      }
      DistinctCard(tail);
      assert xs[0] !in tail by {
        forall i | 0 <= i < |tail| ensures tail[i] != xs[0] {
          assert tail[i] == xs[i + 1];
        }
      }
      assert (set k | k in xs) == (set k | k in tail) + {xs[0]} by {
        assert xs == [xs[0]] + tail;
      }
    }
  }

  /** A well-formed pickup map has exactly as many points as keys in its order. */
  lemma PickupCount(p: PickupMap)
    ensures |p.points| == |p.order|
  {
    DistinctCard(p.order);
    assert p.points.Keys == set k | k in p.order;
  }
}
