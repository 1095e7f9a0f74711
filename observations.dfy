/** The 7-entry feature vector `CollectObservations` appends: the agent's and
    the current target's horizontal offsets from the default position, and the
    nearest pedestrian's offset and heading, or three -1 sentinels. */
module Observations {
  import opened Wrappers
  import opened Geometry
  import opened Neighbours

  const OBSERVATION_SIZE: nat := 7
  /** Positions are divided by this world scale. */
  const POSITION_SCALE: real := 50.0
  /** Headings (degrees) are divided by a full turn. */
  const HEADING_SCALE: real := 360.0
  /** Stands for "no pedestrian in range" in entries 5 to 7. */
  const SENTINEL: real := -1.0

  function Observation(origin: Vec3, agent: Vec3, target: Vec3, neighbour: Option<Collider>): (obs: seq<real>)
    ensures |obs| == OBSERVATION_SIZE
  {
    var own := [(agent.x - origin.x) / POSITION_SCALE, (agent.z - origin.z) / POSITION_SCALE,
                (target.x - origin.x) / POSITION_SCALE, (target.z - origin.z) / POSITION_SCALE];
    match neighbour
    case None => own + [SENTINEL, SENTINEL, SENTINEL]
    case Some(c) =>
      own + [(c.position.x - origin.x) / POSITION_SCALE, (c.position.z - origin.z) / POSITION_SCALE,
             c.heading / HEADING_SCALE]
  }

  /** What a policy can read back from an observation: world x/z coordinates
      and, when present, the neighbour's position and heading. */
  datatype Features = Features(agentX: real, agentZ: real, targetX: real, targetZ: real,
                               neighbour: Option<NeighbourFeatures>)

  datatype NeighbourFeatures = NeighbourFeatures(x: real, z: real, heading: real)

  /** The features an observation is meant to carry. */
  function FeaturesOf(agent: Vec3, target: Vec3, neighbour: Option<Collider>): Features
  {
    Features(agent.x, agent.z, target.x, target.z,
             match neighbour
             case None => None
             case Some(c) => Some(NeighbourFeatures(c.position.x, c.position.z, c.heading)))
  }

  /** Reading an observation back, given the default position it is relative
      to; three sentinels mean "no neighbour". None for a vector of the wrong
      length. */
  function Decode(origin: Vec3, obs: seq<real>): Option<Features>
  {
    if |obs| != OBSERVATION_SIZE then None
    else
      Some(Features(origin.x + obs[0] * POSITION_SCALE, origin.z + obs[1] * POSITION_SCALE,
                    origin.x + obs[2] * POSITION_SCALE, origin.z + obs[3] * POSITION_SCALE,
                    if obs[4..] == [SENTINEL, SENTINEL, SENTINEL] then None
                    else Some(NeighbourFeatures(origin.x + obs[4] * POSITION_SCALE,
                                                origin.z + obs[5] * POSITION_SCALE,
                                                obs[6] * HEADING_SCALE))))
  }

  /** The encoding loses nothing a policy is meant to see, and the sentinel
      cannot be confused with a real neighbour, because Unity reports euler
      angles in [0, 360). */
  lemma ObservationRoundTrip(origin: Vec3, agent: Vec3, target: Vec3, neighbour: Option<Collider>)
    requires neighbour.Some? ==> 0.0 <= neighbour.value.heading < HEADING_SCALE
    ensures Decode(origin, Observation(origin, agent, target, neighbour)) == Some(FeaturesOf(agent, target, neighbour))
  {
  }

  /** With no pedestrian in range the last three entries are exactly the
      sentinel; with one whose heading is in range they never are. */
  lemma SentinelIffNoNeighbour(origin: Vec3, agent: Vec3, target: Vec3, neighbour: Option<Collider>)
    requires neighbour.Some? ==> 0.0 <= neighbour.value.heading < HEADING_SCALE
    ensures var obs := Observation(origin, agent, target, neighbour);
            obs[4..] == [SENTINEL, SENTINEL, SENTINEL] <==> neighbour.None?
  {
  }
}
