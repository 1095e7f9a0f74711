/** Route randomisation done by `AgentReset`: waypoint 0 is placed near the
    agent's default position, half a unit up, and every later waypoint is a
    horizontal random step away from the one before it. The two calls to
    `Random.Range` per waypoint are the fields of an `Offset`. */
module Route {
  import opened Geometry

  /** Horizontal offset drawn for one waypoint. */
  datatype Offset = Offset(dx: real, dz: real)

  /** `Random.Range(-3f, 3f)` bound for waypoint 0. */
  const FIRST_SPREAD: real := 3.0
  /** `Random.Range(-5f, 5f)` bound for waypoints 1 onwards. */
  const STEP_SPREAD: real := 5.0
  /** Waypoint 0 sits this far above the default position. */
  const FIRST_HEIGHT: real := 0.5

  /** Both components of `o` lie in [-bound, bound], as `Random.Range` on
      floats guarantees (both ends inclusive). */
  predicate Within(o: Offset, bound: real)
  {
    -bound <= o.dx <= bound && -bound <= o.dz <= bound
  }

  predicate AllWithin(steps: seq<Offset>, bound: real)
  {
    forall i :: 0 <= i < |steps| ==> Within(steps[i], bound)
  }

  function FirstWaypoint(origin: Vec3, first: Offset): Vec3
  {
    Add(origin, Vec3(first.dx, FIRST_HEIGHT, first.dz))
  }

  function NextWaypoint(previous: Vec3, step: Offset): Vec3
  {
    Add(previous, Vec3(step.dx, 0.0, step.dz))
  }

  /** The route positions after a reset with the given draws: one waypoint
      more than there are steps, built front to back as the reset loop does. */
  function RandomisedRoute(origin: Vec3, first: Offset, steps: seq<Offset>): (route: seq<Vec3>)
    ensures |route| == |steps| + 1
    ensures route[0] == FirstWaypoint(origin, first)
    decreases |steps|
  {
    if steps == [] then [FirstWaypoint(origin, first)]
    else
      var prefix := RandomisedRoute(origin, first, steps[..|steps| - 1]);
      prefix + [NextWaypoint(prefix[|prefix| - 1], steps[|steps| - 1])]
  }

  /** Every waypoint after the first is its predecessor moved by its own draw. */
  lemma {:induction false} RandomisedRouteLinks(origin: Vec3, first: Offset, steps: seq<Offset>, i: nat)
    requires 1 <= i <= |steps|
    ensures RandomisedRoute(origin, first, steps)[i]
            == NextWaypoint(RandomisedRoute(origin, first, steps)[i - 1], steps[i - 1])
    decreases |steps|
  {
    var n := |steps|;
    if i < n {
      var shorter := steps[..n - 1];
      RandomisedRouteLinks(origin, first, shorter, i);
      assert shorter[i - 1] == steps[i - 1];
    }
  }

  /** Two consecutive waypoints at the same height, at most STEP_SPREAD apart
      along x and along z. */
  predicate Adjacent(a: Vec3, b: Vec3)
  {
    b.y == a.y && -STEP_SPREAD <= b.x - a.x <= STEP_SPREAD && -STEP_SPREAD <= b.z - a.z <= STEP_SPREAD
  }

  predicate Spaced(route: seq<Vec3>)
  {
    forall i :: 0 < i < |route| ==> Adjacent(route[i - 1], route[i])
  }

  /** A randomised route with in-range draws has every consecutive pair
      adjacent. */
  lemma {:induction false} RandomisedRouteSpaced(origin: Vec3, first: Offset, steps: seq<Offset>)
    requires AllWithin(steps, STEP_SPREAD)
    ensures Spaced(RandomisedRoute(origin, first, steps))
  {
    var route := RandomisedRoute(origin, first, steps);
    forall i | 0 < i < |route|
      ensures Adjacent(route[i - 1], route[i])
    {
      RandomisedRouteLinks(origin, first, steps, i);
      assert Within(steps[i - 1], STEP_SPREAD);
    }
  }

  /** Waypoint i lies in the horizontal square of half-width 3 + 5 i around the
      default position, half a unit above it. */
  lemma {:induction false} RandomisedRouteBox(origin: Vec3, first: Offset, steps: seq<Offset>, i: nat)
    requires Within(first, FIRST_SPREAD) && AllWithin(steps, STEP_SPREAD)
    requires i <= |steps|
    ensures var w := RandomisedRoute(origin, first, steps)[i];
            var reach := FIRST_SPREAD + STEP_SPREAD * (i as real);
            w.y == origin.y + FIRST_HEIGHT
            && -reach <= w.x - origin.x <= reach
            && -reach <= w.z - origin.z <= reach
  {
    if i > 0 {
      RandomisedRouteBox(origin, first, steps, i - 1);
      RandomisedRouteLinks(origin, first, steps, i);
      assert Within(steps[i - 1], STEP_SPREAD);
    }
  }

  /** Consecutive waypoints of a spaced route are at most 50 apart, squared. */
  lemma {:induction false} AdjacentSqrDistance(a: Vec3, b: Vec3)
    requires Adjacent(a, b)
    ensures SqrDistance(a, b) <= 2.0 * (STEP_SPREAD * STEP_SPREAD)
  {
    var d := Sub(a, b);
    SquareBound(d.x, STEP_SPREAD);
    SquareBound(d.z, STEP_SPREAD);
    assert d.y == 0.0;
    assert SqrDistance(a, b) == d.x * d.x + d.z * d.z;
  }
}
