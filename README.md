# PedestrianRL in Dafny

A model of the `PedestrianRL` agent of the Unity pedestrian simulator: a
reinforcement-learning agent that walks an avatar along a route of
waypoints. Each tick it observes its surroundings (`CollectObservations`),
acts (`AgentAction`), and receives a shaped reward. A new episode starts
with `AgentReset`. The model covers the agent's decision logic:

- **Route tracking.** The current waypoint index and destination, the
  waypoint renderer flags, advancing on arrival, and the route
  randomisation done at reset.
- **Observation encoding.** The 7-entry feature vector relative to the
  default position. Entries 5 to 7 hold -1 sentinels when no pedestrian is
  near.
- **Reward shaping and termination.** These run as a fixed sequence of
  checks over one reward accumulator:
  1. the time penalty;
  2. final or intermediate arrival;
  3. out of bounds;
  4. the progress bonus;
  5. the neighbour-proximity bonus and the collision penalty.

  `AddReward` adds to the accumulator and `SetReward` overwrites it.
  `Done` only raises a flag, so the later checks of the same tick still run.
- **Nearest-pedestrian selection.** A linear scan that keeps the last of
  several equally near pedestrians.

Layout:

- `geometry.dfy`: vectors and squared distances.
- `route.dfy`: route randomisation at reset.
- `neighbours.dfy`: the nearest-pedestrian scan.
- `observations.dfy`: the feature vector and its decoding.
- `episode.dfy`: the per-tick state machine as functions on an `AgentState`
  value, with one function per check, `Act` for a whole `AgentAction`, and
  `Run` for an episode.
- `agent.dfy`: the class `PedestrianAgent`. It holds the source's fields and
  its callbacks: `Start` (as the constructor), `AgentReset`,
  `CollectObservations` and `AgentAction`. `AgentAction`'s four check
  helpers are in the class too. Each callback and helper is proved against
  its function in `route.dfy`, `observations.dfy` or `episode.dfy`.
  `AddReward`, `SetReward` and `Done` stand in for the agent base class and
  state their effect directly. `GetClosestPedestrian` is the method in
  `neighbours.dfy`.

Modelling choices:

- Coordinates and rewards are `real`.
- Distances stay three-dimensional. Unity's `SqrMagnitude` includes the
  height, and waypoint 0 sits 0.5 above the agent's default position. The
  observations use only x and z.
- `Vector3.Distance` in the scan is replaced by the squared distance. The
  square root is monotone, so every `<=` comparison comes out the same.
- Scene objects are compared by an `ObjectId`. `GetClosestPedestrian`
  returns the index of the chosen hit in the collider list.
- Inputs from the engine are parameters:
  - the sphere-query hits, each a record of id, tag, position and heading;
  - the agent's position after locomotion;
  - the observed pedestrian's current position;
  - the random draws of a reset, bounded as `Random.Range` bounds them.
- The source reads waypoint 0 without a check, so the constructor requires
  a non-empty route.

Behaviour of the source worth knowing:

- The neighbour proximity band compares the squared distance with
  `BOUNDARY_LIMIT = 25`, not with `SQR_RESET_BOUNDARY_LIMIT = 225`.
- `AgentReset` shows waypoint 0 but hides no other waypoint. Suppose an
  episode ends out of bounds while waypoint k > 0 is the target. After the
  reset, waypoints 0 and k are both shown. `AgentReset`'s contract states
  exactly this: the new flags are the old ones with waypoint 0 set.
- The neighbour bonus is paid when the distance to the same pedestrian
  grows, and it is larger the closer that pedestrian still is. The model
  keeps this as written. `ProximityBonusShrinks` proves that the bonus is
  larger the nearer the pedestrian is. `CollisionOutweighsBonus` proves that
  inside collision range the penalty always outweighs the bonus.

## Model

| member | source | states |
|---|---|---|
| `Route.RandomisedRoute` | PedestrianSim/PedestrianRL/PedestrianRL.cs:99-104 | The reset route has one waypoint per draw plus one. Waypoint 0 is the default position plus the first draw, raised by 0.5. |
| `Route.RandomisedRouteLinks` | PedestrianSim/PedestrianRL/PedestrianRL.cs:100-104 | Each waypoint i >= 1 is waypoint i-1 moved horizontally by draw i-1. |
| `Route.RandomisedRouteSpaced` | PedestrianSim/PedestrianRL/PedestrianRL.cs:100-104 | With draws in [-5, 5], consecutive waypoints are at the same height and at most 5 apart along x and along z. |
| `Route.RandomisedRouteBox` | PedestrianSim/PedestrianRL/PedestrianRL.cs:99-104 | Waypoint i is 0.5 above the default position and within 3 + 5i of it along x and along z. |
| `Route.AdjacentSqrDistance` | PedestrianSim/PedestrianRL/PedestrianRL.cs:103 | Consecutive waypoints of such a route are at most 50 apart, squared. |
| `Neighbours.Closest` | PedestrianSim/PedestrianRL/PedestrianRL.cs:185-209 | The scan as a left fold. Any index it returns is in range and names a hit tagged "Pedestrian". |
| `Neighbours.ClosestIsLastNearest` | PedestrianSim/PedestrianRL/PedestrianRL.cs:190-208 | The scan finds nothing iff no hit is tagged "Pedestrian". Otherwise its pick is at most as far as every pedestrian hit, and strictly nearer than every later one, so the last of equally near pedestrians wins. |
| `Neighbours.GetClosestPedestrian` | PedestrianSim/PedestrianRL/PedestrianRL.cs:185-209 | The loop computes the fold. Null iff no hit is a pedestrian; otherwise a nearest pedestrian, and the last among equals. |
| `Neighbours.ClosestCollider` | PedestrianSim/PedestrianRL/PedestrianRL.cs:205-208 | The selected object, if any, is one of the hits and is tagged "Pedestrian". |
| `Observations.Observation` | PedestrianSim/PedestrianRL/PedestrianRL.cs:64-87 | The observation always has exactly 7 entries. |
| `Observations.ObservationRoundTrip` | PedestrianSim/PedestrianRL/PedestrianRL.cs:67-85 | Entries 1-4 and 5-7 decode back to the agent's and the target's x/z, and to the neighbour's x/z and heading; three -1 entries decode to "no neighbour". Headings are in [0, 360). |
| `Observations.SentinelIffNoNeighbour` | PedestrianSim/PedestrianRL/PedestrianRL.cs:74-85 | Entries 5-7 are exactly -1, -1, -1 iff there is no neighbour, given a heading in [0, 360). |
| `Episode.ProgressBonus` | PedestrianSim/PedestrianRL/PedestrianRL.cs:156-159 | The progress term is positive iff the new squared distance is strictly below the stored one, and it is 0 or 0.0001. |
| `Episode.ProximityBonus` | PedestrianSim/PedestrianRL/PedestrianRL.cs:168-172 | The proximity term is positive iff d^2 < 25, the pedestrian is the one seen last tick and it is now farther than the stored squared distance. When positive it is 0.0001 * (25 - d^2); it is never negative. |
| `Episode.CollisionPenalty` | PedestrianSim/PedestrianRL/PedestrianRL.cs:173-178 | The collision term is negative iff d^2 < 1, and it is 0 or -0.005. |
| `Episode.ProximityBonusShrinks` | PedestrianSim/PedestrianRL/PedestrianRL.cs:170-172 | Of two squared distances that both earn the proximity bonus, the smaller earns at least as much. |
| `Episode.CollisionOutweighsBonus` | PedestrianSim/PedestrianRL/PedestrianRL.cs:168-178 | Inside collision range the two neighbour terms together are negative, whatever the proximity term pays. |
| `Episode.NeighbourCheck` | PedestrianSim/PedestrianRL/PedestrianRL.cs:163-181 | With no observed pedestrian the state is unchanged. Otherwise the reward grows by exactly the proximity term plus the collision term, the pedestrian and its squared distance are stored, and nothing else changes. |
| `Episode.Observe` | PedestrianSim/PedestrianRL/PedestrianRL.cs:73 | Observing changes only the stored nearest pedestrian. It is null iff no hit is tagged "Pedestrian"; otherwise it is the identity of a pedestrian hit. |
| `Episode.Run` | PedestrianSim/PedestrianRL/PedestrianRL.cs:113-183 | Chaining ticks keeps the state well formed, and an episode that is already done is not advanced. |
| `Episode.ArrivalCheck` | PedestrianSim/PedestrianRL/PedestrianRL.cs:128-148 | The new index is `TargetAfterArrival`: it moves on by one exactly on a non-final arrival and stays on the route. |
| `Episode.BoundsCheck` | PedestrianSim/PedestrianRL/PedestrianRL.cs:150-154 | The out-of-bounds check changes neither the index nor any visibility flag. |
| `Episode.ProgressCheck` | PedestrianSim/PedestrianRL/PedestrianRL.cs:156-160 | The progress check changes neither the index, the flags nor `done`. |
| `Episode.Act` | PedestrianSim/PedestrianRL/PedestrianRL.cs:113-183 | A tick keeps the index on the route and increases it by at most one. |
| `Episode.ActRoute` | PedestrianSim/PedestrianRL/PedestrianRL.cs:128-147 | On arrival the reached waypoint is hidden and, unless it is the last, the index moves on and the next waypoint is shown. Without arrival, index and flags are unchanged. |
| `Episode.RunIndexMonotone` | PedestrianSim/PedestrianRL/PedestrianRL.cs:133-142 | Across an episode the index stays in [0, len-1], never decreases, and grows by at most one per tick. |
| `Episode.ActKeepsOneVisible` | PedestrianSim/PedestrianRL/PedestrianRL.cs:131-144 | If only the current waypoint is shown before a tick, the same holds after it. The exception is final arrival, which shows none and ends the episode. |
| `Episode.RunKeepsOneVisible` | PedestrianSim/PedestrianRL/PedestrianRL.cs:131-144 | The same holds over a whole episode. |
| `Episode.TargetAfterArrival` | PedestrianSim/PedestrianRL/PedestrianRL.cs:141-142 | The target the later checks use is the old one or the next, and it is on the route. |
| `Episode.ActDone` | PedestrianSim/PedestrianRL/PedestrianRL.cs:128-154 | A tick ends the episode iff it was already done, or on final arrival, or when d^2 > 225 to the target left by the arrival check; exactly 225 does not end it. Neighbour shaping never ends it. |
| `Episode.ProgressStoresTestedDistance` | PedestrianSim/PedestrianRL/PedestrianRL.cs:150-160 | The out-of-bounds test measures agent minus target and the progress test target minus agent; the distance the progress check stores is the one the bounds check tested. |
| `Episode.ActReward` | PedestrianSim/PedestrianRL/PedestrianRL.cs:116-181 | The new reward is a base plus the progress term plus the neighbour term (zero with no neighbour). The base is -1 if out of bounds, else 1 on final arrival, else old reward - 0.0003 (+0.1 on arrival). The stored target distance is the one measured this tick. |
| `Episode.ActNeighbourMemory` | PedestrianSim/PedestrianRL/PedestrianRL.cs:163-181 | The neighbour's identity and squared distance are stored only when a neighbour was observed; otherwise the stored values are unchanged. |
| `Episode.ActOverwriteOrAdd` | PedestrianSim/PedestrianRL/PedestrianRL.cs:116-181 | After final arrival or out of bounds, the reward no longer depends on the accumulator before the tick. Otherwise the tick only adds to it. |
| `Episode.FinalArrival` | PedestrianSim/PedestrianRL/PedestrianRL.cs:128-138 | On final arrival the waypoint is hidden, the index stays and the episode ends. The bounds check cannot fire, and the reward is 1 plus the later progress and neighbour terms. |
| `Episode.IntermediateArrival` | PedestrianSim/PedestrianRL/PedestrianRL.cs:128-154 | On a spaced route, a non-final arrival moves the index on, hides the old waypoint and shows the new one. It adds 0.1 and does not end the episode, since the agent is within 104.5 (squared) of the next waypoint. |
| `Agent.PedestrianAgent.constructor` | PedestrianSim/PedestrianRL/PedestrianRL.cs:36-43 | `Start` targets waypoint 0 at index 0, stores the squared distance to it and sets the stored pedestrian distance to 100. |
| `Agent.PedestrianAgent.AgentReset` | PedestrianSim/PedestrianRL/PedestrianRL.cs:89-111 | Afterwards the index and destination are 0 and waypoint 0 is shown, with the other flags unchanged. The agent is at its default position, the waypoints are the randomised route, and the stored distances and neighbour are unchanged. |
| `Agent.PedestrianAgent.CollectObservations` | PedestrianSim/PedestrianRL/PedestrianRL.cs:64-87 | It appends exactly `Observation(...)` for the nearest pedestrian and stores that pedestrian's identity. |
| `Agent.PedestrianAgent.AgentAction` | PedestrianSim/PedestrianRL/PedestrianRL.cs:113-183 | The new state is `Act` of the old one, so every `Episode` lemma about `Act` holds of the method. |
| `Agent.PedestrianAgent.CheckArrival` | PedestrianSim/PedestrianRL/PedestrianRL.cs:127-148 | The arrival step equals `ArrivalCheck`. |
| `Agent.PedestrianAgent.CheckBounds` | PedestrianSim/PedestrianRL/PedestrianRL.cs:149-154 | The out-of-bounds step equals `BoundsCheck`. |
| `Agent.PedestrianAgent.RewardProgress` | PedestrianSim/PedestrianRL/PedestrianRL.cs:155-160 | The progress step equals `ProgressCheck`. |
| `Agent.PedestrianAgent.ShapeNeighbourReward` | PedestrianSim/PedestrianRL/PedestrianRL.cs:162-181 | The neighbour step equals `NeighbourCheck`. |

## Left out

- Locomotion: `ThirdPersonCharacter.Move`, the camera lookup, and the
  normalising and scaling of the action into a move vector. Nothing else in
  the agent uses their result. The agent's position after the move is a
  parameter of `AgentAction`.
- `Physics.OverlapSphere`: its hits are a parameter. The model does not
  check that they lie within the 25-unit radius.
- `Random.Range`: its draws are bounded parameters of `AgentReset`, not
  random values.
- `Renderer.enabled`: modelled as a boolean array owned by the route. No
  rendering is modelled.
- `Debug.Log` and `Debug.LogWarning`.
- The training loop's scheduling of the callbacks, including its clearing
  of the reward and the done flag between steps. `Run` stops at `done` and
  otherwise chains ticks.
- Unity's rule that a destroyed object compares equal to null.
- IEEE single-precision rounding: all arithmetic is exact.
