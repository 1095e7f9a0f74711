/** Nearest-pedestrian selection (`GetClosestPedestrian`): a linear scan over
    the colliders the physics query found, keeping the best candidate so far
    and replacing it whenever a pedestrian is at most as far away. */
module Neighbours {
  import opened Wrappers
  import opened Geometry

  /** Identity of a scene object; two references are equal iff their ids are. */
  type ObjectId = nat

  /** One hit of the sphere query: the object's identity, its tag, its
      position and the y angle of its rotation in degrees. */
  datatype Collider = Collider(id: ObjectId, tag: string, position: Vec3, heading: real)

  const PEDESTRIAN_TAG: string := "Pedestrian"

  predicate IsPedestrian(c: Collider)
  {
    c.tag == PEDESTRIAN_TAG
  }

  /** Index of the pedestrian the scan over `cs` ends with, or None. Written as
      a left fold: the scan over `cs` is the scan over all but the last hit,
      followed by one more loop iteration. */
  function Closest(center: Vec3, cs: seq<Collider>): (r: Option<nat>)
    ensures r.Some? ==> r.value < |cs| && IsPedestrian(cs[r.value])
    decreases |cs|
  {
    if cs == [] then None
    else
      var best := Closest(center, cs[..|cs| - 1]);
      var last := |cs| - 1;
      if !IsPedestrian(cs[last]) then best
      else if best.None? then Some(last)
      else if SqrDistance(center, cs[last].position) <= SqrDistance(center, cs[best.value].position) then Some(last)
      else best
  }

  /** The scan finds nothing exactly when no hit is a pedestrian; otherwise it
      finds a nearest pedestrian, and every later pedestrian is strictly
      farther away, so the last of several equally near ones wins. */
  lemma {:induction false} ClosestIsLastNearest(center: Vec3, cs: seq<Collider>)
    ensures Closest(center, cs).None? <==> forall i :: 0 <= i < |cs| ==> !IsPedestrian(cs[i])
    ensures Closest(center, cs).Some? ==>
              var k := Closest(center, cs).value;
              (forall j :: 0 <= j < |cs| && IsPedestrian(cs[j]) ==>
                 SqrDistance(center, cs[k].position) <= SqrDistance(center, cs[j].position))
              && (forall j :: k < j < |cs| && IsPedestrian(cs[j]) ==>
                 SqrDistance(center, cs[k].position) < SqrDistance(center, cs[j].position))
    decreases |cs|
  {
    if cs != [] {
      var prefix := cs[..|cs| - 1];
      ClosestIsLastNearest(center, prefix);
      assert forall i :: 0 <= i < |prefix| ==> prefix[i] == cs[i];
    }
  }

  /** The collider the scan selects. */
  function ClosestCollider(center: Vec3, cs: seq<Collider>): (r: Option<Collider>)
    ensures r.Some? ==> r.value in cs && IsPedestrian(r.value)
  {
    match Closest(center, cs)
    case None => None
    case Some(k) => Some(cs[k])
  }

  /** Identity of the collider the scan selects; what `closestPedestrian` holds. */
  function ClosestId(center: Vec3, cs: seq<Collider>): Option<ObjectId>
  {
    match ClosestCollider(center, cs)
    case None => None
    case Some(c) => Some(c.id)
  }

  /** `GetClosestPedestrian`, over the colliders `Physics.OverlapSphere`
      returned around `position`. The result is the index of the chosen hit. */
  method GetClosestPedestrian(position: Vec3, colliders: seq<Collider>) returns (closest: Option<nat>)
    ensures closest == Closest(position, colliders)
    ensures closest.None? <==> forall i :: 0 <= i < |colliders| ==> !IsPedestrian(colliders[i])
    ensures closest.Some? ==>
              closest.value < |colliders| && IsPedestrian(colliders[closest.value])
              && (forall j :: 0 <= j < |colliders| && IsPedestrian(colliders[j]) ==>
                    SqrDistance(position, colliders[closest.value].position)
                    <= SqrDistance(position, colliders[j].position))
              && (forall j :: closest.value < j < |colliders| && IsPedestrian(colliders[j]) ==>
                    SqrDistance(position, colliders[closest.value].position)
                    < SqrDistance(position, colliders[j].position))
  {
    closest := None;
    for i := 0 to |colliders|
      invariant closest == Closest(position, colliders[..i])
    {
      assert colliders[..i + 1][..i] == colliders[..i];
      var hit := colliders[i];
      if !IsPedestrian(hit) {
        continue;
      }
      if closest.None? {
        closest := Some(i);
      }
      if SqrDistance(position, hit.position) <= SqrDistance(position, colliders[closest.value].position) {
        closest := Some(i);
      }
    }
    assert colliders[..|colliders|] == colliders;
    ClosestIsLastNearest(position, colliders);
  }
}
