/** A keyframe: the pose of an object at one instant of the timeline. */
module Keyframes {
  import opened Linalg

  /** Keyframes are ordered by `time` alone; the other fields are the pose. */
  datatype Keyframe = Keyframe(
    translation: Vector,
    rotation: Quaternion,
    scaling: Vector,
    time: real)

  /** Non-decreasing by time: the order the keyframe ordering gives after sorting. */
  ghost predicate SortedByTime(ks: seq<Keyframe>)
  {
    forall i, j :: 0 <= i < j < |ks| ==> ks[i].time <= ks[j].time
  }

  /** The same keyframe turned the other way round the quaternion double cover. */
  function WithNegatedRotation(k: Keyframe): (r: Keyframe)
    ensures r.time == k.time && r.translation == k.translation && r.scaling == k.scaling
    ensures forall q :: Dot(q, r.rotation) == -Dot(q, k.rotation)
  {
    k.(rotation := Negate(k.rotation))
  }
}
