/** The agent's per-tick state machine as values: route tracking, reward
    shaping over one accumulator, and episode termination. `AgentAction` runs
    a fixed sequence of checks; `Act` composes one function per check in the
    same order, so that a later check sees what an earlier one wrote. */
module Episode {
  import opened Wrappers
  import opened Geometry
  import opened Route
  import opened Neighbours

  /** Squared arrival radius (distance 1.5). */
  const ARRIVAL_SQR_DISTANCE: real := 2.25
  /** Proximity band for neighbour shaping, compared with a squared distance. */
  const BOUNDARY_LIMIT: real := 25.0
  /** Squared distance from the target beyond which the episode fails. */
  const SQR_RESET_BOUNDARY_LIMIT: real := 225.0
  const TIME_PENALTY: real := -0.0003
  const ARRIVAL_BONUS: real := 0.1
  const SUCCESS_REWARD: real := 1.0
  const FAILURE_REWARD: real := -1.0
  const PROGRESS_BONUS: real := 0.0001
  const PROXIMITY_FACTOR: real := 0.0001
  const COLLISION_SQR_DISTANCE: real := 1.0
  const COLLISION_PENALTY: real := -0.005
  /** `previousSqrDistantToPedestrian` before any neighbour was seen. */
  const INITIAL_SQR_TO_PEDESTRIAN: real := 100.0

  /** Everything one tick reads or writes, apart from the waypoint positions,
      which only a reset changes. `reward` and `done` are the accumulator and
      flag of the agent base class. */
  datatype AgentState = AgentState(
    routeIndex: nat,
    visible: seq<bool>,
    position: Vec3,
    previousSqrToTarget: real,
    closest: Option<ObjectId>,
    previousClosest: Option<ObjectId>,
    previousSqrToPedestrian: real,
    reward: real,
    done: bool)

  /** The route is non-empty, each waypoint has a visibility flag, and the
      index names a waypoint. */
  predicate WellFormed(s: AgentState, route: seq<Vec3>)
  {
    |route| >= 1 && |s.visible| == |route| && s.routeIndex < |route|
  }

  /** Within arrival range of waypoint k. */
  predicate Arrives(route: seq<Vec3>, k: nat, p: Vec3)
    requires k < |route|
  {
    SqrDistance(p, route[k]) < ARRIVAL_SQR_DISTANCE
  }

  /** Strictly beyond the reset boundary around waypoint k. */
  predicate OutOfBounds(route: seq<Vec3>, k: nat, p: Vec3)
    requires k < |route|
  {
    SqrDistance(p, route[k]) > SQR_RESET_BOUNDARY_LIMIT
  }

  /** The progress term: a bonus when the new squared distance to the target
      is strictly below the one stored on the previous tick. */
  function ProgressBonus(sqrToTarget: real, previous: real): (b: real)
    ensures b > 0.0 <==> sqrToTarget < previous
    ensures b == 0.0 || b == PROGRESS_BONUS
  {
    if sqrToTarget < previous then PROGRESS_BONUS else 0.0
  }

  /** The proximity term of lines 168-171: paid only inside the band, for the
      same pedestrian as last tick, and when that pedestrian is now farther
      away than it was; it is larger the closer the pedestrian still is. */
  function ProximityBonus(sameNeighbour: bool, previous: real, d: real): (b: real)
    ensures b > 0.0 <==> d < BOUNDARY_LIMIT && sameNeighbour && previous < d
    ensures b > 0.0 ==> b == PROXIMITY_FACTOR * (BOUNDARY_LIMIT - d)
    ensures b >= 0.0
  {
    if d < BOUNDARY_LIMIT && sameNeighbour && previous < d then PROXIMITY_FACTOR * (BOUNDARY_LIMIT - d) else 0.0
  }

  /** The collision term: a fixed penalty inside collision range. */
  function CollisionPenalty(d: real): (p: real)
    ensures p < 0.0 <==> d < COLLISION_SQR_DISTANCE
    ensures p == 0.0 || p == COLLISION_PENALTY
  {
    if d < COLLISION_SQR_DISTANCE then COLLISION_PENALTY else 0.0
  }

  /** Both neighbour terms for a pedestrian at squared distance `d`. */
  function NeighbourShaping(sameNeighbour: bool, previous: real, d: real): real
  {
    ProximityBonus(sameNeighbour, previous, d) + CollisionPenalty(d)
  }

  /** Of two positions that both earn the proximity bonus, the nearer one
      earns at least as much. */
  lemma ProximityBonusShrinks(sameNeighbour: bool, previous: real, d1: real, d2: real)
    requires ProximityBonus(sameNeighbour, previous, d1) > 0.0
    requires ProximityBonus(sameNeighbour, previous, d2) > 0.0
    requires d1 <= d2
    ensures ProximityBonus(sameNeighbour, previous, d1) >= ProximityBonus(sameNeighbour, previous, d2)
  {
  }

  /** Inside collision range the penalty always outweighs the bonus. */
  lemma CollisionOutweighsBonus(sameNeighbour: bool, previous: real, d: real)
    requires 0.0 <= d < COLLISION_SQR_DISTANCE
    ensures NeighbourShaping(sameNeighbour, previous, d) < 0.0
  {
  }

  /** Arrival check: on the last waypoint, hide it, overwrite the reward with
      the success value and end the episode; on another one, hide it, move to
      and show the next, and add the arrival bonus. */
  function ArrivalCheck(s: AgentState, route: seq<Vec3>): (r: AgentState)
    requires WellFormed(s, route)
    ensures WellFormed(r, route)
    ensures r.routeIndex == TargetAfterArrival(s, route, s.position)
  {
    var k := s.routeIndex;
    if Arrives(route, k, s.position) then
      var hidden := s.visible[k := false];
      if k == |route| - 1 then
        s.(visible := hidden, reward := SUCCESS_REWARD, done := true)
      else
        s.(routeIndex := k + 1, visible := hidden[k + 1 := true], reward := s.reward + ARRIVAL_BONUS)
    else s
  }

  /** Out-of-bounds check, against the target the arrival check left. */
  function BoundsCheck(s: AgentState, route: seq<Vec3>): (r: AgentState)
    requires WellFormed(s, route)
    ensures WellFormed(r, route) && r.routeIndex == s.routeIndex && r.visible == s.visible
  {
    if OutOfBounds(route, s.routeIndex, s.position) then s.(reward := FAILURE_REWARD, done := true) else s
  }

  /** Progress check; the stored distance is refreshed whatever the outcome. */
  function ProgressCheck(s: AgentState, route: seq<Vec3>): (r: AgentState)
    requires WellFormed(s, route)
    ensures WellFormed(r, route) && r.routeIndex == s.routeIndex && r.visible == s.visible && r.done == s.done
  {
    var d := SqrDistance(route[s.routeIndex], s.position);
    s.(reward := s.reward + ProgressBonus(d, s.previousSqrToTarget), previousSqrToTarget := d)
  }

  /** Neighbour shaping, only when a pedestrian was observed this tick;
      `neighbourPosition` is where that pedestrian is now. */
  function NeighbourCheck(s: AgentState, neighbourPosition: Vec3): (r: AgentState)
    ensures s.closest.None? ==> r == s
    ensures r.(reward := s.reward, previousSqrToPedestrian := s.previousSqrToPedestrian,
               previousClosest := s.previousClosest) == s
    ensures s.closest.Some? ==>
              var d := SqrDistance(s.position, neighbourPosition);
              && r.reward - s.reward == ProximityBonus(s.closest == s.previousClosest, s.previousSqrToPedestrian, d)
                                        + CollisionPenalty(d)
              && r.previousSqrToPedestrian == d
              && r.previousClosest == s.closest
  {
    if s.closest.None? then s
    else
      var d := SqrDistance(s.position, neighbourPosition);
      s.(reward := s.reward + NeighbourShaping(s.closest == s.previousClosest, s.previousSqrToPedestrian, d),
         previousSqrToPedestrian := d,
         previousClosest := s.closest)
  }

  /** One `AgentAction`: the time penalty, the agent's new position, then the
      four checks in source order. */
  function Act(s: AgentState, route: seq<Vec3>, position: Vec3, neighbourPosition: Vec3): (r: AgentState)
    requires WellFormed(s, route)
    ensures WellFormed(r, route)
    ensures s.routeIndex <= r.routeIndex <= s.routeIndex + 1
  {
    var moved := s.(reward := s.reward + TIME_PENALTY, position := position);
    NeighbourCheck(ProgressCheck(BoundsCheck(ArrivalCheck(moved, route), route), route), neighbourPosition)
  }

  /** The neighbour-selection half of `CollectObservations`. */
  function Observe(s: AgentState, colliders: seq<Collider>): (r: AgentState)
    ensures r.(closest := s.closest) == s
    ensures r.closest.None? <==> forall i :: 0 <= i < |colliders| ==> !IsPedestrian(colliders[i])
    ensures r.closest.Some? ==>
              exists i :: 0 <= i < |colliders| && IsPedestrian(colliders[i]) && colliders[i].id == r.closest.value
  {
    ClosestIsLastNearest(s.position, colliders);
    s.(closest := ClosestId(s.position, colliders))
  }

  /** What the engine supplies for one tick: the sphere-query hits around the
      agent, the agent's position after locomotion, and the current position
      of the pedestrian observed this tick. */
  datatype Tick = Tick(colliders: seq<Collider>, position: Vec3, neighbourPosition: Vec3)

  /** Ticks of one episode: observe, then act, until the episode is done. */
  function Run(s: AgentState, route: seq<Vec3>, ticks: seq<Tick>): (r: AgentState)
    requires WellFormed(s, route)
    ensures WellFormed(r, route)
    ensures s.done ==> r == s
    decreases |ticks|
  {
    if ticks == [] || s.done then s
    else
      var t := ticks[0];
      Run(Act(Observe(s, t.colliders), route, t.position, t.neighbourPosition), route, ticks[1..])
  }

  // ---------------------------------------------------------------------------
  // Route tracking

  /** The index moves on by one exactly on a non-final arrival, and the
      visibility flags change only on arrival: the reached waypoint is hidden
      and, unless it was the last, the next one is shown. */
  lemma ActRoute(s: AgentState, route: seq<Vec3>, position: Vec3, neighbourPosition: Vec3)
    requires WellFormed(s, route)
    ensures var r := Act(s, route, position, neighbourPosition);
            var k := s.routeIndex;
            && r.routeIndex == (if Arrives(route, k, position) && k < |route| - 1 then k + 1 else k)
            && r.visible == (if !Arrives(route, k, position) then s.visible
                             else if k == |route| - 1 then s.visible[k := false]
                             else s.visible[k := false][k + 1 := true])
  {
  }

  /** Across an episode the index stays on the route, never decreases and
      grows by at most one per tick. */
  lemma {:induction false} RunIndexMonotone(s: AgentState, route: seq<Vec3>, ticks: seq<Tick>)
    requires WellFormed(s, route)
    ensures s.routeIndex <= Run(s, route, ticks).routeIndex <= s.routeIndex + |ticks|
    decreases |ticks|
  {
    if ticks != [] && !s.done {
      var t := ticks[0];
      var next := Act(Observe(s, t.colliders), route, t.position, t.neighbourPosition);
      RunIndexMonotone(next, route, ticks[1..]);
    }
  }

  /** Exactly the current waypoint is shown. */
  predicate OnlyCurrentVisible(s: AgentState)
  {
    forall i :: 0 <= i < |s.visible| ==> (s.visible[i] <==> i == s.routeIndex)
  }

  predicate NoneVisible(s: AgentState)
  {
    forall i :: 0 <= i < |s.visible| ==> !s.visible[i]
  }

  /** If only the current waypoint is shown before a tick, the same holds
      after it, except after final arrival, when no waypoint is shown and the
      episode is over. */
  lemma ActKeepsOneVisible(s: AgentState, route: seq<Vec3>, position: Vec3, neighbourPosition: Vec3)
    requires WellFormed(s, route) && OnlyCurrentVisible(s)
    ensures var r := Act(s, route, position, neighbourPosition);
            OnlyCurrentVisible(r) || (r.done && NoneVisible(r))
  {
  }

  /** The same over a whole episode. */
  lemma {:induction false} RunKeepsOneVisible(s: AgentState, route: seq<Vec3>, ticks: seq<Tick>)
    requires WellFormed(s, route) && OnlyCurrentVisible(s)
    ensures var r := Run(s, route, ticks);
            OnlyCurrentVisible(r) || (r.done && NoneVisible(r))
    decreases |ticks|
  {
    if ticks != [] && !s.done {
      var t := ticks[0];
      var observed := Observe(s, t.colliders);
      assert OnlyCurrentVisible(observed);
      var next := Act(observed, route, t.position, t.neighbourPosition);
      ActKeepsOneVisible(observed, route, t.position, t.neighbourPosition);
      if OnlyCurrentVisible(next) {
        RunKeepsOneVisible(next, route, ticks[1..]);
      } else {
        assert next.done;
      }
    }
  }

  // ---------------------------------------------------------------------------
  // Termination and reward

  /** Index of the target after the arrival check of a tick at `position`. */
  function TargetAfterArrival(s: AgentState, route: seq<Vec3>, position: Vec3): (k: nat)
    requires WellFormed(s, route)
    ensures k < |route|
    ensures s.routeIndex <= k <= s.routeIndex + 1
  {
    if Arrives(route, s.routeIndex, position) && s.routeIndex < |route| - 1 then s.routeIndex + 1 else s.routeIndex
  }

  /** A tick ends the episode exactly on final arrival or when the agent is
      strictly beyond the boundary of the target left by the arrival check;
      neighbour shaping never ends it. */
  lemma ActDone(s: AgentState, route: seq<Vec3>, position: Vec3, neighbourPosition: Vec3)
    requires WellFormed(s, route)
    ensures Act(s, route, position, neighbourPosition).done
            <==> s.done
                 || (Arrives(route, s.routeIndex, position) && s.routeIndex == |route| - 1)
                 || OutOfBounds(route, TargetAfterArrival(s, route, position), position)
  {
  }

  /** The reward after a tick: the failure value if out of bounds, else the
      success value on final arrival, else the old accumulator plus the time
      penalty and any arrival bonus; to that the progress term and, when a
      pedestrian was observed, the neighbour term are added. The stored
      distances are the ones measured in this tick. */
  lemma ActReward(s: AgentState, route: seq<Vec3>, position: Vec3, neighbourPosition: Vec3)
    requires WellFormed(s, route)
    ensures var r := Act(s, route, position, neighbourPosition);
            var k := s.routeIndex;
            var target := TargetAfterArrival(s, route, position);
            var d := SqrDistance(position, route[target]);
            var base := if OutOfBounds(route, target, position) then FAILURE_REWARD
                        else if Arrives(route, k, position) && k == |route| - 1 then SUCCESS_REWARD
                        else s.reward + TIME_PENALTY + (if Arrives(route, k, position) then ARRIVAL_BONUS else 0.0);
            var shaping := if s.closest.None? then 0.0
                           else NeighbourShaping(s.closest == s.previousClosest, s.previousSqrToPedestrian,
                                                 SqrDistance(position, neighbourPosition));
            && r.reward == base + ProgressBonus(d, s.previousSqrToTarget) + shaping
            && r.previousSqrToTarget == d
  {
  }

  /** The progress check stores exactly the squared distance the
      out-of-bounds check has just tested, although the source subtracts the
      two points in opposite orders. */
  lemma ProgressStoresTestedDistance(s: AgentState, route: seq<Vec3>)
    requires WellFormed(s, route)
    ensures ProgressCheck(BoundsCheck(s, route), route).previousSqrToTarget
            == SqrDistance(s.position, route[s.routeIndex])
  {
    SqrDistanceSymmetric(route[s.routeIndex], s.position);
  }

  /** Neighbour memory is refreshed only when a pedestrian was observed. */
  lemma ActNeighbourMemory(s: AgentState, route: seq<Vec3>, position: Vec3, neighbourPosition: Vec3)
    requires WellFormed(s, route)
    ensures var r := Act(s, route, position, neighbourPosition);
            && r.closest == s.closest
            && r.previousClosest == (if s.closest.None? then s.previousClosest else s.closest)
            && r.previousSqrToPedestrian == (if s.closest.None? then s.previousSqrToPedestrian
                                             else SqrDistance(position, neighbourPosition))
  {
  }

  /** `SetReward` overwrites: after final arrival or out of bounds the reward
      no longer depends on what had been accumulated before the tick;
      otherwise the tick only adds to it. */
  lemma ActOverwriteOrAdd(s: AgentState, route: seq<Vec3>, position: Vec3, neighbourPosition: Vec3, other: real)
    requires WellFormed(s, route)
    ensures var r1 := Act(s, route, position, neighbourPosition);
            var r2 := Act(s.(reward := other), route, position, neighbourPosition);
            var k := s.routeIndex;
            if OutOfBounds(route, TargetAfterArrival(s, route, position), position)
               || (Arrives(route, k, position) && k == |route| - 1)
            then r1.reward == r2.reward
            else r1.reward - r2.reward == s.reward - other
  {
  }

  /** Final arrival: the waypoint is hidden, the index stays, the episode
      ends, and the reward is the success value plus the progress and
      neighbour terms that later checks still add; the out-of-bounds check
      cannot fire against the waypoint just reached. */
  lemma FinalArrival(s: AgentState, route: seq<Vec3>, position: Vec3, neighbourPosition: Vec3)
    requires WellFormed(s, route)
    requires s.routeIndex == |route| - 1 && Arrives(route, s.routeIndex, position)
    ensures var r := Act(s, route, position, neighbourPosition);
            var k := s.routeIndex;
            var shaping := if s.closest.None? then 0.0
                           else NeighbourShaping(s.closest == s.previousClosest, s.previousSqrToPedestrian,
                                                 SqrDistance(position, neighbourPosition));
            && r.done && r.routeIndex == k && !r.visible[k]
            && !OutOfBounds(route, k, position)
            && r.reward == SUCCESS_REWARD + ProgressBonus(SqrDistance(position, route[k]), s.previousSqrToTarget) + shaping
  {
  }

  /** Non-final arrival on a route whose consecutive waypoints are adjacent
      (as every randomised route is): the index moves on, the old waypoint is
      hidden and the new one shown, the bonus is added, and the episode goes
      on, because the agent is well inside the boundary of the next waypoint. */
  lemma IntermediateArrival(s: AgentState, route: seq<Vec3>, position: Vec3, neighbourPosition: Vec3)
    requires WellFormed(s, route) && Spaced(route)
    requires s.routeIndex < |route| - 1 && Arrives(route, s.routeIndex, position)
    ensures var r := Act(s, route, position, neighbourPosition);
            var k := s.routeIndex;
            var shaping := if s.closest.None? then 0.0
                           else NeighbourShaping(s.closest == s.previousClosest, s.previousSqrToPedestrian,
                                                 SqrDistance(position, neighbourPosition));
            && r.routeIndex == k + 1 && !r.visible[k] && r.visible[k + 1]
            && r.done == s.done
            && r.reward == s.reward + TIME_PENALTY + ARRIVAL_BONUS
                           + ProgressBonus(SqrDistance(position, route[k + 1]), s.previousSqrToTarget) + shaping
  {
    var k := s.routeIndex;
    assert Adjacent(route[k], route[k + 1]);
    AdjacentSqrDistance(route[k], route[k + 1]);
    SqrDistanceViaBound(position, route[k], route[k + 1]);
    assert !OutOfBounds(route, k + 1, position);
    ActRoute(s, route, position, neighbourPosition);
    ActReward(s, route, position, neighbourPosition);
    ActDone(s, route, position, neighbourPosition);
  }
}
