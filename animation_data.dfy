/**
 * Animation tracks as the loader produces them and the animator consumes them: keyframes
 * (a timepoint and a transform) grouped into per-node tracks, grouped into animations.
 * Floating-point values are modelled as reals.
 */
module AnimationData {

  datatype Vec3 = Vec3(x: real, y: real, z: real)

  /** A quaternion with scalar part `s` and vector part (i, j, k). */
  datatype Quat = Quat(s: real, i: real, j: real, k: real)

  /** A local transform: translation, orientation and scale. */
  datatype Transform = Transform(translation: Vec3, orientation: Quat, scale: Vec3)

  /** The value of a default-constructed transform: no translation, no rotation, unit scale. */
  const DefaultTransform: Transform := Transform(Vec3(0.0, 0.0, 0.0), Quat(1.0, 0.0, 0.0, 0.0), Vec3(1.0, 1.0, 1.0))

  /**
   * The track type of a NodeAnimation. `Unclassified` is the type a track keeps when the
   * loader fills in none of the three.
   */
  datatype TrackType = Translation | Rotation | Scale | Unclassified

  /** A keyframe: a timepoint (double) and the transform holding the keyed value. */
  datatype Keyframe = Keyframe(timepoint: real, value: Transform)

  /** The track of one node: its name, its type and its keyframes in order. */
  datatype NodeAnimation = NodeAnimation(name: string, kind: TrackType, keyframes: seq<Keyframe>)

  /** The type tag of a core::Sequence. */
  datatype SequenceType = AnimationSequence | OtherSequence

  datatype Animation = Animation(
    sequenceType: SequenceType,
    duration: real,
    framesPerSecond: nat,
    nodeAnimations: seq<NodeAnimation>)

  /** Keyframes sorted ascending by timepoint. */
  ghost predicate SortedByTime(keyframes: seq<Keyframe>)
  {
    forall a, b :: 0 <= a < b < |keyframes| ==> keyframes[a].timepoint <= keyframes[b].timepoint
  }
}
