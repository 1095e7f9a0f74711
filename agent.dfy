/** The `PedestrianRL` agent itself: the fields `Start` initialises and the
    three callbacks the training loop drives. The engine state the callbacks
    read (the agent's own position after locomotion, the sphere-query hits,
    the observed pedestrian's position) comes in as parameters; waypoint
    positions and renderer flags are arrays owned by the route. Each method is
    specified by the functions of `Route`, `Observations` and `Episode`. */
module Agent {
  import opened Wrappers
  import opened Geometry
  import opened Route
  import opened Neighbours
  import opened Observations
  import opened Episode

  class PedestrianAgent {
    /** Waypoint positions of the route, in order. */
    const waypoints: array<Vec3>
    /** Whether each waypoint's renderer is enabled. */
    const visible: array<bool>
    /** Where the agent stood when the scene started. */
    const defaultPosition: Vec3

    /** The agent's transform position. */
    var position: Vec3
    /** The current target waypoint, as its place in the route. */
    var currentRouteDest: nat
    var currentRouteIndex: nat
    var previousSqrDistantToTarget: real
    var closestPedestrian: Option<ObjectId>
    var previousClosestPedestrian: Option<ObjectId>
    var previousSqrDistantToPedestrian: real
    /** The agent base class's reward accumulator, episode flag and
        observation buffer. */
    var reward: real
    var done: bool
    var vectorObs: seq<real>

    ghost predicate Valid()
      reads this
    {
      && waypoints.Length >= 1
      && visible.Length == waypoints.Length
      && currentRouteIndex < waypoints.Length
      && currentRouteDest == currentRouteIndex
    }

    /** The agent's state as a value. */
    ghost function State(): AgentState
      reads this, visible
    {
      AgentState(currentRouteIndex, visible[..], position, previousSqrDistantToTarget,
                 closestPedestrian, previousClosestPedestrian, previousSqrDistantToPedestrian,
                 reward, done)
    }

    /** `Start`: remember the default position, aim at waypoint 0 and measure
        the distance to it. The source reads waypoint 0 without a check, so the
        route must not be empty. */
    constructor (route: array<Vec3>, renderers: array<bool>, startPosition: Vec3)
      requires route.Length >= 1 && renderers.Length == route.Length
      ensures Valid()
      ensures waypoints == route && visible == renderers && defaultPosition == startPosition
      ensures State() == AgentState(0, renderers[..], startPosition, SqrDistance(route[0], startPosition),
                                    None, None, INITIAL_SQR_TO_PEDESTRIAN, 0.0, false)
      ensures vectorObs == []
    {
      waypoints, visible := route, renderers;
      defaultPosition := startPosition;
      position := startPosition;
      currentRouteDest := 0;
      currentRouteIndex := 0;
      previousSqrDistantToTarget := SqrMagnitude(Sub(route[0], startPosition));
      previousSqrDistantToPedestrian := INITIAL_SQR_TO_PEDESTRIAN;
      closestPedestrian, previousClosestPedestrian := None, None;
      reward, done, vectorObs := 0.0, false, [];
    }

    method AddReward(increment: real)
      modifies this`reward
      ensures reward == old(reward) + increment
    {
      reward := reward + increment;
    }

    method SetReward(value: real)
      modifies this`reward
      ensures reward == value
    {
      reward := value;
    }

    method Done()
      modifies this`done
      ensures done
    {
      done := true;
    }

    /** `AgentReset`: aim at waypoint 0 again, show it, put the agent back at
        its default position and lay out a fresh route from the given draws.
        Nothing else is hidden and no stored distance is cleared. */
    method AgentReset(first: Offset, steps: seq<Offset>)
      requires Valid()
      requires Within(first, FIRST_SPREAD) && AllWithin(steps, STEP_SPREAD)
      requires |steps| == waypoints.Length - 1
      modifies this, waypoints, visible
      ensures Valid()
      ensures waypoints[..] == RandomisedRoute(defaultPosition, first, steps)
      ensures State() == old(State()).(routeIndex := 0, visible := old(visible[..])[0 := true],
                                       position := defaultPosition)
      ensures vectorObs == old(vectorObs)
    {
      currentRouteDest := 0;
      currentRouteIndex := 0;
      visible[0] := true;
      position := defaultPosition;
      waypoints[0] := FirstWaypoint(defaultPosition, first);
      for i := 1 to waypoints.Length
        modifies waypoints
        invariant waypoints[..i] == RandomisedRoute(defaultPosition, first, steps[..i - 1])
      {
        waypoints[i] := NextWaypoint(waypoints[i - 1], steps[i - 1]);
        assert steps[..i][..i - 1] == steps[..i - 1];
        assert waypoints[..i + 1] == waypoints[..i] + [waypoints[i]];
      }
      assert steps[..waypoints.Length - 1] == steps;
      assert waypoints[..waypoints.Length] == waypoints[..];
    }

    /** `CollectObservations`: append the 7 features and remember which
        pedestrian, if any, was nearest. */
    method CollectObservations(colliders: seq<Collider>)
      requires Valid()
      modifies this`vectorObs, this`closestPedestrian
      ensures Valid()
      ensures vectorObs == old(vectorObs)
                           + Observation(defaultPosition, position, waypoints[currentRouteDest],
                                         ClosestCollider(position, colliders))
      ensures State() == Observe(old(State()), colliders)
    {
      var target := waypoints[currentRouteDest];
      vectorObs := vectorObs + [(position.x - defaultPosition.x) / POSITION_SCALE];
      vectorObs := vectorObs + [(position.z - defaultPosition.z) / POSITION_SCALE];
      vectorObs := vectorObs + [(target.x - defaultPosition.x) / POSITION_SCALE];
      vectorObs := vectorObs + [(target.z - defaultPosition.z) / POSITION_SCALE];
      var k := GetClosestPedestrian(position, colliders);
      if k.Some? {
        var c := colliders[k.value];
        closestPedestrian := Some(c.id);
        vectorObs := vectorObs + [(c.position.x - defaultPosition.x) / POSITION_SCALE];
        vectorObs := vectorObs + [(c.position.z - defaultPosition.z) / POSITION_SCALE];
        vectorObs := vectorObs + [c.heading / HEADING_SCALE];
      } else {
        closestPedestrian := None;
        vectorObs := vectorObs + [SENTINEL];
        vectorObs := vectorObs + [SENTINEL];
        vectorObs := vectorObs + [SENTINEL];
      }
    }

    /** `AgentAction`, from the time penalty to the neighbour shaping, with
        `newPosition` where locomotion has put the agent and
        `neighbourPosition` where the observed pedestrian now is. */
    method AgentAction(newPosition: Vec3, neighbourPosition: Vec3)
      requires Valid()
      modifies this, visible
      ensures Valid()
      ensures State() == Act(old(State()), waypoints[..], newPosition, neighbourPosition)
      ensures vectorObs == old(vectorObs)
    {
      AddReward(TIME_PENALTY);
      position := newPosition;
      CheckArrival();
      CheckBounds();
      RewardProgress();
      ShapeNeighbourReward(neighbourPosition);
    }

    /** The arrival check of `AgentAction`. */
    method CheckArrival()
      requires Valid()
      modifies this`currentRouteIndex, this`currentRouteDest, this`reward, this`done, visible
      ensures Valid()
      ensures State() == ArrivalCheck(old(State()), waypoints[..])
    {
      if SqrMagnitude(Sub(position, waypoints[currentRouteDest])) < ARRIVAL_SQR_DISTANCE {
        visible[currentRouteDest] := false;
        if currentRouteIndex == waypoints.Length - 1 {
          SetReward(SUCCESS_REWARD);
          Done();
        } else {
          currentRouteIndex := currentRouteIndex + 1;
          currentRouteDest := currentRouteIndex;
          visible[currentRouteDest] := true;
          AddReward(ARRIVAL_BONUS);
        }
      }
    }

    /** The out-of-bounds check of `AgentAction`. */
    method CheckBounds()
      requires Valid()
      modifies this`reward, this`done
      ensures State() == BoundsCheck(old(State()), waypoints[..])
    {
      if SqrMagnitude(Sub(position, waypoints[currentRouteDest])) > SQR_RESET_BOUNDARY_LIMIT {
        SetReward(FAILURE_REWARD);
        Done();
      }
    }

    /** The progress check of `AgentAction`. */
    method RewardProgress()
      requires Valid()
      modifies this`reward, this`previousSqrDistantToTarget
      ensures State() == ProgressCheck(old(State()), waypoints[..])
    {
      if SqrMagnitude(Sub(waypoints[currentRouteDest], position)) < previousSqrDistantToTarget {
        AddReward(PROGRESS_BONUS);
      }
      previousSqrDistantToTarget := SqrMagnitude(Sub(waypoints[currentRouteDest], position));
    }

    /** The neighbour-shaping tail of `AgentAction`. */
    method ShapeNeighbourReward(neighbourPosition: Vec3)
      modifies this`reward, this`previousSqrDistantToPedestrian, this`previousClosestPedestrian
      ensures State() == NeighbourCheck(old(State()), neighbourPosition)
    {
      if closestPedestrian.Some? {
        var sqrDistantToPedestrian := SqrMagnitude(Sub(position, neighbourPosition));
        ghost var before := reward;
        if sqrDistantToPedestrian < BOUNDARY_LIMIT && closestPedestrian == previousClosestPedestrian {
          if previousSqrDistantToPedestrian < sqrDistantToPedestrian {
            AddReward(PROXIMITY_FACTOR * (BOUNDARY_LIMIT - sqrDistantToPedestrian));
          }
        }
        if sqrDistantToPedestrian < COLLISION_SQR_DISTANCE {
          AddReward(COLLISION_PENALTY);
        }
        assert reward == before + NeighbourShaping(closestPedestrian == previousClosestPedestrian,
                                                   previousSqrDistantToPedestrian, sqrDistantToPedestrian);
        previousSqrDistantToPedestrian := sqrDistantToPedestrian;
        previousClosestPedestrian := closestPedestrian;
      }
    }
  }
}
