/**
 * Animator::Update: for every animation sequence, match each node track to a mesh by
 * name, find the keyframe pair around the elapsed time and write one interpolated field
 * (translation, orientation or scale) of the current AnimationUpdate.
 *
 * The updates Animator::Update builds live in locals of the loop body and are dropped at
 * the end of each sequence; the model returns them so that their content can be stated.
 * The elapsed time is a parameter (the timer is not modelled), and the quaternion
 * normalisation and SLERP weights are supplied as functions.
 */
module Animator {
  import opened Wrappers
  import opened AnimationData
  import opened ModelData

  /** 2^64: size_t arithmetic wraps modulo this. */
  const SizeWord: nat := 0x1_0000_0000_0000_0000

  /** `~0` as a size_t: the scan's "no keyframe chosen" value. */
  const Unset: nat := SizeWord - 1

  // ---------------------------------------------------------------- keyframe scan

  /**
   * The index the keyframe scan settles on: the first keyframe whose timepoint is not
   * after `elapsed`, or Unset when every keyframe lies in the future.
   */
  function KeyframeIndex(elapsed: real, keyframes: seq<Keyframe>): (idx: nat)
    requires |keyframes| < SizeWord
    ensures idx == Unset || idx < |keyframes|
    ensures idx == Unset <==> forall j :: 0 <= j < |keyframes| ==> elapsed < keyframes[j].timepoint
    ensures idx != Unset ==>
              && keyframes[idx].timepoint <= elapsed
              && forall j :: 0 <= j < idx ==> elapsed < keyframes[j].timepoint
  {
    if |keyframes| == 0 then Unset
    else if keyframes[0].timepoint <= elapsed then 0
    else
      var rest := KeyframeIndex(elapsed, keyframes[1..]);
      if rest == Unset then Unset else rest + 1
  }

  /** The scanning loop of Update: starts at Unset and stops at the first reached keyframe. */
  method ScanKeyframes(elapsed: real, keyframes: seq<Keyframe>) returns (keyframeIdx: nat)
    requires |keyframes| < SizeWord
    ensures keyframeIdx == KeyframeIndex(elapsed, keyframes)
  {
    keyframeIdx := Unset;
    var j := 0;
    while j < |keyframes|
      invariant 0 <= j <= |keyframes|
      invariant keyframeIdx == Unset
      invariant forall k :: 0 <= k < j ==> elapsed < keyframes[k].timepoint
    {
      if elapsed < keyframes[j].timepoint && keyframeIdx == Unset {
        j := j + 1;
      } else {
        keyframeIdx := j;
        break;
      }
    }
  }

  /** For a track sorted by time the scan only ever lands on the first keyframe or on Unset. */
  lemma {:induction false} SortedTrackScan(elapsed: real, keyframes: seq<Keyframe>)
    requires |keyframes| < SizeWord
    requires SortedByTime(keyframes)
    ensures KeyframeIndex(elapsed, keyframes) == 0 || KeyframeIndex(elapsed, keyframes) == Unset
    ensures KeyframeIndex(elapsed, keyframes) == 0 <==> |keyframes| > 0 && keyframes[0].timepoint <= elapsed
  {
    if |keyframes| > 0 && elapsed < keyframes[0].timepoint {
      forall j | 0 <= j < |keyframes|
        ensures elapsed < keyframes[j].timepoint
      {
        if j > 0 {
          assert keyframes[0].timepoint <= keyframes[j].timepoint;
        }
      }
    }
  }

  /** `idx + 1` as a size_t: Unset wraps to 0. */
  function Successor(idx: nat): (next: nat)
    requires idx < SizeWord
    ensures next < SizeWord
    ensures idx < Unset ==> next == idx + 1
    ensures idx == Unset ==> next == 0
  {
    (idx + 1) % SizeWord
  }

  /** The positions of the two keyframes interpolated between. */
  datatype Bracket = Bracket(first: nat, second: nat)

  /** `(idx + 0) % n` and `(idx + 1) % n` in size_t arithmetic. */
  function BracketOf(keyframeIdx: nat, keyframeCount: nat): (b: Bracket)
    requires keyframeIdx < SizeWord
    requires 0 < keyframeCount
    ensures b.first < keyframeCount && b.second < keyframeCount
  {
    Bracket(keyframeIdx % keyframeCount, Successor(keyframeIdx) % keyframeCount)
  }

  /** When the scan found nothing the second keyframe is always the first of the track. */
  lemma UnsetBracketWrapsToStart(keyframeCount: nat)
    requires 0 < keyframeCount
    ensures BracketOf(Unset, keyframeCount).second == 0
  {
  }

  /** A found index is paired with the next keyframe, and the last keyframe with the first. */
  lemma FoundBracketIsConsecutive(keyframeIdx: nat, keyframeCount: nat)
    requires keyframeIdx < keyframeCount < SizeWord
    ensures BracketOf(keyframeIdx, keyframeCount).first == keyframeIdx
    ensures BracketOf(keyframeIdx, keyframeCount).second == if keyframeIdx + 1 < keyframeCount then keyframeIdx + 1 else 0
  {
    var next := Successor(keyframeIdx);
    assert next == keyframeIdx + 1;
    ModOfSmaller(keyframeIdx, keyframeCount);
    if next < keyframeCount {
      ModOfSmaller(next, keyframeCount);
    } else {
      ModOfSelf(keyframeCount);
    }
  }

  lemma ModOfSmaller(x: nat, m: nat)
    requires x < m
    ensures x % m == x
  {
  }

  lemma ModOfSelf(m: nat)
    requires 0 < m
    ensures m % m == 0
  {
  }

  // ---------------------------------------------------------------- interpolation

  /** A double that is finite, or an infinity/NaN produced by dividing by zero. */
  datatype Value<T> = Finite(v: T) | NonFinite

  /** `(elapsed - kf1.t) / (kf2.t - kf1.t)`; a zero-length interval gives no finite value. */
  function LerpPoint(elapsed: real, kf1: Keyframe, kf2: Keyframe): (t: Value<real>)
    ensures t.Finite? <==> kf1.timepoint != kf2.timepoint
    ensures t.Finite? ==> kf1.timepoint + t.v * (kf2.timepoint - kf1.timepoint) == elapsed
  {
    if kf2.timepoint == kf1.timepoint then NonFinite
    else Finite((elapsed - kf1.timepoint) / (kf2.timepoint - kf1.timepoint))
  }

  function Add(a: Vec3, b: Vec3): Vec3 { Vec3(a.x + b.x, a.y + b.y, a.z + b.z) }
  function Sub(a: Vec3, b: Vec3): Vec3 { Vec3(a.x - b.x, a.y - b.y, a.z - b.z) }
  function Mul(a: Vec3, t: real): Vec3 { Vec3(a.x * t, a.y * t, a.z * t) }

  /** The product of two non-negative reals is non-negative. */
  lemma MulNonNegative(x: real, y: real)
    requires 0.0 <= x && 0.0 <= y
    ensures 0.0 <= x * y
  {
  }

  /** `start + (end - start) * t` on one coordinate lies between the endpoints for t in [0, 1]. */
  lemma LerpCoordinateBetween(a: real, b: real, t: real)
    requires 0.0 <= t <= 1.0
    ensures a <= b ==> a <= a + (b - a) * t <= b
    ensures b <= a ==> b <= a + (b - a) * t <= a
  {
    if a <= b {
      MulNonNegative(b - a, t);
      MulNonNegative(b - a, 1.0 - t);
      assert (b - a) * (1.0 - t) == (b - a) - (b - a) * t;
    } else {
      MulNonNegative(a - b, t);
      MulNonNegative(a - b, 1.0 - t);
      assert (a - b) * (1.0 - t) == (a - b) - (a - b) * t;
      assert (a - b) * t == -((b - a) * t);
    }
  }

  /** The componentwise bounds of a point on the segment from `start` to `end`. */
  predicate OnSegment(p: Vec3, start: Vec3, end: Vec3)
  {
    && (start.x <= end.x ==> start.x <= p.x <= end.x) && (end.x <= start.x ==> end.x <= p.x <= start.x)
    && (start.y <= end.y ==> start.y <= p.y <= end.y) && (end.y <= start.y ==> end.y <= p.y <= start.y)
    && (start.z <= end.z ==> start.z <= p.z <= end.z) && (end.z <= start.z ==> end.z <= p.z <= start.z)
  }

  /** Linear interpolation of a translation: t = 0 gives `start`, t = 1 gives `end`. */
  function InterpolateTranslation(start: Vec3, end: Vec3, t: real): (r: Vec3)
    ensures t == 0.0 ==> r == start
    ensures t == 1.0 ==> r == end
    ensures start == end ==> r == start
  {
    Add(start, Mul(Sub(end, start), t))
  }

  /** Linear interpolation of a scale: t = 0 gives `start`, t = 1 gives `end`. */
  function InterpolateScale(start: Vec3, end: Vec3, t: real): (r: Vec3)
    ensures t == 0.0 ==> r == start
    ensures t == 1.0 ==> r == end
    ensures start == end ==> r == start
  {
    Add(start, Mul(Sub(end, start), t))
  }

  /** For t in [0, 1] both interpolations stay within the box spanned by their endpoints. */
  lemma InterpolationStaysOnSegment(start: Vec3, end: Vec3, t: real)
    requires 0.0 <= t <= 1.0
    ensures OnSegment(InterpolateTranslation(start, end, t), start, end)
    ensures OnSegment(InterpolateScale(start, end, t), start, end)
  {
    LerpCoordinateBetween(start.x, end.x, t);
    LerpCoordinateBetween(start.y, end.y, t);
    LerpCoordinateBetween(start.z, end.z, t);
  }

  /** The 4-vector dot product, taken over (i, j, k, s). */
  function Dot(a: Quat, b: Quat): real
  {
    a.i * b.i + a.j * b.j + a.k * b.k + a.s * b.s
  }

  function Negate(q: Quat): Quat { Quat(-q.s, -q.i, -q.j, -q.k) }

  lemma DotNegate(a: Quat, b: Quat)
    ensures Dot(a, Negate(b)) == -Dot(a, b)
  {
  }

  /** `a * wa + b * wb`, componentwise. */
  function Combine(a: Quat, wa: real, b: Quat, wb: real): Quat
  {
    Quat(a.s * wa + b.s * wb, a.i * wa + b.i * wb, a.j * wa + b.j * wb, a.k * wa + b.k * wb)
  }

  /** The cosine used by SLERP and the end quaternion after the shortest-path correction. */
  datatype Alignment = Alignment(dot: real, end: Quat)

  /**
   * The sign correction and clamp of SLERP: a negative dot product flips the end
   * quaternion, and the resulting cosine is clamped into [-1, 1]. The cosine then lies in
   * [0, 1] and is the dot product of `start` with the corrected end, capped at 1.
   */
  function AlignEnd(start: Quat, end: Quat): (r: Alignment)
    ensures 0.0 <= r.dot <= 1.0
    ensures Dot(start, end) < 0.0 ==> r.end == Negate(end)
    ensures 0.0 <= Dot(start, end) ==> r.end == end
    ensures 0.0 <= Dot(start, r.end)
    ensures r.dot == if 1.0 < Dot(start, r.end) then 1.0 else Dot(start, r.end)
  {
    var d := Dot(start, end);
    DotNegate(start, end);
    var flipped := d < 0.0;
    var d1 := if flipped then -d else d;
    var end1 := if flipped then Negate(end) else end;
    var d2 := if d1 < -1.0 then -1.0 else d1;
    var d3 := if d2 > 1.0 then 1.0 else d2;
    Alignment(d3, end1)
  }

  /**
   * The parts of SLERP this model does not compute: quaternion normalisation, and the
   * weights sin((1-t)θ)/sin θ and sin(tθ)/sin θ for θ = acos(dot).
   */
  datatype SlerpPrimitives = SlerpPrimitives(normalise: Quat -> Quat, weights: (real, real) -> (real, real))

  /** Normalising a normalised quaternion changes nothing. */
  ghost predicate IdempotentNormalise(slerp: SlerpPrimitives)
  {
    forall q :: slerp.normalise(slerp.normalise(q)) == slerp.normalise(q)
  }

  /** Normalisation commutes with negation. */
  ghost predicate OddNormalise(slerp: SlerpPrimitives)
  {
    forall q :: slerp.normalise(Negate(q)) == Negate(slerp.normalise(q))
  }

  /**
   * Spherical interpolation: normalise both ends, take the shorter arc, weight, and
   * normalise the sum. The result is a normalised quaternion.
   */
  function InterpolateRotation(start: Quat, end: Quat, t: real, slerp: SlerpPrimitives): (r: Quat)
    ensures IdempotentNormalise(slerp) ==> slerp.normalise(r) == r
  {
    var qStart := slerp.normalise(start);
    var qEnd := slerp.normalise(end);
    var aligned := AlignEnd(qStart, qEnd);
    var w := slerp.weights(aligned.dot, t);
    slerp.normalise(Combine(qStart, w.0, aligned.end, w.1))
  }

  /**
   * q and -q are the same rotation: unless the normalised ends are orthogonal, negating
   * the end quaternion does not change the interpolated rotation.
   */
  lemma RotationIgnoresEndSign(start: Quat, end: Quat, t: real, slerp: SlerpPrimitives)
    requires OddNormalise(slerp)
    requires Dot(slerp.normalise(start), slerp.normalise(end)) != 0.0
    ensures InterpolateRotation(start, Negate(end), t, slerp) == InterpolateRotation(start, end, t, slerp)
  {
    var qStart := slerp.normalise(start);
    var qEnd := slerp.normalise(end);
    assert slerp.normalise(Negate(end)) == Negate(qEnd);
    DotNegate(qStart, qEnd);
    assert Negate(Negate(qEnd)) == qEnd;
  }

  // ---------------------------------------------------------------- one update pass

  /** An AnimationUpdate: the node it is for and the transform fields computed so far. */
  datatype AnimationUpdate = AnimationUpdate(
    nodeName: string,
    translation: Value<Vec3>,
    orientation: Value<Quat>,
    scale: Value<Vec3>)

  /** An update for `name` holding a default transform. */
  function FreshUpdate(name: string): AnimationUpdate
  {
    AnimationUpdate(name, Finite(DefaultTransform.translation), Finite(DefaultTransform.orientation), Finite(DefaultTransform.scale))
  }

  /** The local state of one sequence's pass: the finished updates `aus` and the current `au`. */
  datatype PassState = PassState(aus: seq<AnimationUpdate>, au: AnimationUpdate)

  const InitialPass: PassState := PassState([], FreshUpdate(""))

  /** A track with no keyframes: Update takes an index modulo zero. */
  datatype UpdateError = EmptyTrack(nodeName: string)

  /** Every track's keyframe count fits in a size_t. */
  predicate TracksFit(tracks: seq<NodeAnimation>)
  {
    forall k :: 0 <= k < |tracks| ==> |tracks[k].keyframes| < SizeWord
  }

  /** Some mesh belongs to the node called `name`. */
  predicate MeshNamed(meshes: seq<MeshData>, name: string)
  {
    exists m :: 0 <= m < |meshes| && meshes[m].nodeName == name
  }

  /** A track starts a new update when a mesh carries its name and the current update does not. */
  predicate StartsUpdate(meshes: seq<MeshData>, current: AnimationUpdate, track: NodeAnimation)
  {
    MeshNamed(meshes, track.name) && current.nodeName != track.name
  }

  /** The mesh-matching step: start a new update, pushing the current one if it has a name. */
  function Claim(st: PassState, track: NodeAnimation, meshes: seq<MeshData>): PassState
  {
    if StartsUpdate(meshes, st.au, track) then
      PassState(if st.au.nodeName != "" then st.aus + [st.au] else st.aus, FreshUpdate(track.name))
    else
      st
  }

  /** The mesh loop of Update: the first mesh carrying the track's name decides, then the loop stops. */
  method MatchMesh(st: PassState, track: NodeAnimation, meshes: seq<MeshData>) returns (claimed: PassState)
    ensures claimed == Claim(st, track, meshes)
  {
    claimed := st;
    var m := 0;
    while m < |meshes|
      invariant 0 <= m <= |meshes|
      invariant claimed == st
      invariant forall p :: 0 <= p < m ==> !(meshes[p].nodeName == track.name && st.au.nodeName != track.name)
    {
      var found := meshes[m].nodeName == track.name;
      var inUse := claimed.au.nodeName == track.name;
      if found && !inUse {
        var aus := claimed.aus;
        if claimed.au.nodeName != "" {
          aus := aus + [claimed.au];
        }
        claimed := PassState(aus, FreshUpdate(track.name));
        break;
      }
      m := m + 1;
    }
  }

  /**
   * Interpolate one track into `au`: find the bracketing keyframes and write the single
   * field the track's type selects. An empty track is an error; no other field, and not
   * the node name, changes.
   */
  function ApplyTrack(au: AnimationUpdate, track: NodeAnimation, elapsed: real, slerp: SlerpPrimitives): (r: Result<AnimationUpdate, UpdateError>)
    requires |track.keyframes| < SizeWord
    ensures r.Failure? <==> |track.keyframes| == 0
    ensures r.Failure? ==> r.error == EmptyTrack(track.name)
    ensures r.Success? ==> r.value.nodeName == au.nodeName
    ensures r.Success? && track.kind != Translation ==> r.value.translation == au.translation
    ensures r.Success? && track.kind != Rotation ==> r.value.orientation == au.orientation
    ensures r.Success? && track.kind != Scale ==> r.value.scale == au.scale
    ensures r.Success? && track.kind == Translation ==>
              var b := BracketOf(KeyframeIndex(elapsed, track.keyframes), |track.keyframes|);
              var t := LerpPoint(elapsed, track.keyframes[b.first], track.keyframes[b.second]);
              r.value.translation == if t.NonFinite? then NonFinite
                                     else Finite(InterpolateTranslation(track.keyframes[b.first].value.translation,
                                                                        track.keyframes[b.second].value.translation, t.v))
    ensures r.Success? && track.kind == Rotation ==>
              var b := BracketOf(KeyframeIndex(elapsed, track.keyframes), |track.keyframes|);
              var t := LerpPoint(elapsed, track.keyframes[b.first], track.keyframes[b.second]);
              r.value.orientation == if t.NonFinite? then NonFinite
                                     else Finite(InterpolateRotation(track.keyframes[b.first].value.orientation,
                                                                     track.keyframes[b.second].value.orientation, t.v, slerp))
    ensures r.Success? && track.kind == Scale ==>
              var b := BracketOf(KeyframeIndex(elapsed, track.keyframes), |track.keyframes|);
              var t := LerpPoint(elapsed, track.keyframes[b.first], track.keyframes[b.second]);
              r.value.scale == if t.NonFinite? then NonFinite
                               else Finite(InterpolateScale(track.keyframes[b.first].value.scale,
                                                            track.keyframes[b.second].value.scale, t.v))
    ensures r.Success? && track.kind == Unclassified ==> r.value == au
  {
    var n := |track.keyframes|;
    if n == 0 then Failure(EmptyTrack(track.name))
    else
      var b := BracketOf(KeyframeIndex(elapsed, track.keyframes), n);
      var kf1 := track.keyframes[b.first];
      var kf2 := track.keyframes[b.second];
      var t := LerpPoint(elapsed, kf1, kf2);
      match track.kind
      case Translation =>
        Success(au.(translation := if t.NonFinite? then NonFinite
                                   else Finite(InterpolateTranslation(kf1.value.translation, kf2.value.translation, t.v))))
      case Rotation =>
        Success(au.(orientation := if t.NonFinite? then NonFinite
                                   else Finite(InterpolateRotation(kf1.value.orientation, kf2.value.orientation, t.v, slerp))))
      case Scale =>
        Success(au.(scale := if t.NonFinite? then NonFinite
                             else Finite(InterpolateScale(kf1.value.scale, kf2.value.scale, t.v))))
      case Unclassified =>
        Success(au)
  }

  /**
   * One iteration of the track loop: match the track to a mesh, and interpolate it unless
   * no update has been started yet.
   */
  function TrackStep(st: PassState, track: NodeAnimation, meshes: seq<MeshData>, elapsed: real, slerp: SlerpPrimitives): (r: Result<PassState, UpdateError>)
    requires |track.keyframes| < SizeWord
    ensures r.Failure? ==> |track.keyframes| == 0
    ensures r.Success? ==>
              r.value.aus == (if StartsUpdate(meshes, st.au, track) && st.au.nodeName != "" then st.aus + [st.au] else st.aus)
    ensures r.Success? ==>
              r.value.au.nodeName == (if StartsUpdate(meshes, st.au, track) then track.name else st.au.nodeName)
    ensures st.au.nodeName == "" && !StartsUpdate(meshes, st.au, track) ==> r == Success(st)
    ensures Claim(st, track, meshes).au.nodeName != "" ==> (r.Failure? <==> |track.keyframes| == 0)
    ensures Claim(st, track, meshes).au.nodeName != "" && r.Success? ==>
              r.value.au == ApplyTrack(Claim(st, track, meshes).au, track, elapsed, slerp).value
  {
    var claimed := Claim(st, track, meshes);
    if claimed.au.nodeName == "" then Success(claimed)
    else
      match ApplyTrack(claimed.au, track, elapsed, slerp)
      case Success(au) => Success(PassState(claimed.aus, au))
      case Failure(e) => Failure(e)
  }

  /**
   * A track none of whose meshes carries its name is still interpolated, into the update
   * held for whichever node was matched last.
   */
  lemma UnmatchedTrackWritesHeldUpdate(st: PassState, track: NodeAnimation, meshes: seq<MeshData>, elapsed: real, slerp: SlerpPrimitives)
    requires |track.keyframes| < SizeWord
    requires st.au.nodeName != "" && !MeshNamed(meshes, track.name)
    requires 0 < |track.keyframes|
    ensures TrackStep(st, track, meshes, elapsed, slerp).Success?
    ensures TrackStep(st, track, meshes, elapsed, slerp).value.aus == st.aus
    ensures TrackStep(st, track, meshes, elapsed, slerp).value.au == ApplyTrack(st.au, track, elapsed, slerp).value
  {
    assert Claim(st, track, meshes) == st;
  }

  /** The pass over a sequence's tracks, in order, stopping at the first error. */
  function RunPass(tracks: seq<NodeAnimation>, meshes: seq<MeshData>, elapsed: real, slerp: SlerpPrimitives): Result<PassState, UpdateError>
    requires TracksFit(tracks)
  {
    if |tracks| == 0 then Success(InitialPass)
    else
      match RunPass(tracks[..|tracks| - 1], meshes, elapsed, slerp)
      case Failure(e) => Failure(e)
      case Success(st) => TrackStep(st, tracks[|tracks| - 1], meshes, elapsed, slerp)
  }

  /** Every mesh is attached to a node with a non-empty name. */
  predicate NamedMeshes(meshes: seq<MeshData>)
  {
    forall m :: 0 <= m < |meshes| ==> meshes[m].nodeName != ""
  }

  /**
   * With named meshes, the current update has no name exactly when no track so far had
   * a matching mesh: a track is skipped only while no update has been started.
   */
  lemma {:induction false} UnnamedUntilClaimed(tracks: seq<NodeAnimation>, meshes: seq<MeshData>, elapsed: real, slerp: SlerpPrimitives)
    requires TracksFit(tracks)
    requires NamedMeshes(meshes)
    requires RunPass(tracks, meshes, elapsed, slerp).Success?
    ensures RunPass(tracks, meshes, elapsed, slerp).value.au.nodeName == ""
            <==> forall k :: 0 <= k < |tracks| ==> !MeshNamed(meshes, tracks[k].name)
  {
    if |tracks| > 0 {
      var init := tracks[..|tracks| - 1];
      var last := tracks[|tracks| - 1];
      assert TracksFit(init);
      assert RunPass(init, meshes, elapsed, slerp).Success?;
      var st := RunPass(init, meshes, elapsed, slerp).value;
      UnnamedUntilClaimed(init, meshes, elapsed, slerp);
      assert RunPass(tracks, meshes, elapsed, slerp) == TrackStep(st, last, meshes, elapsed, slerp);
      var name' := RunPass(tracks, meshes, elapsed, slerp).value.au.nodeName;
      assert name' == if StartsUpdate(meshes, st.au, last) then last.name else st.au.nodeName;
      if MeshNamed(meshes, last.name) {
        var m :| 0 <= m < |meshes| && meshes[m].nodeName == last.name;
        assert last.name != "";
      }
      assert forall k :: 0 <= k < |init| ==> init[k] == tracks[k];
    }
  }

  /**
   * The shape of a pass's state: every pushed update has a name, neighbouring pushed
   * updates are for different nodes, and the last pushed one is not for the current node.
   */
  predicate Chained(st: PassState)
  {
    && (forall k :: 0 <= k < |st.aus| ==> st.aus[k].nodeName != "")
    && (forall k :: 0 <= k < |st.aus| - 1 ==> st.aus[k].nodeName != st.aus[k + 1].nodeName)
    && (0 < |st.aus| ==> st.aus[|st.aus| - 1].nodeName != st.au.nodeName)
    && (0 < |st.aus| ==> st.au.nodeName != "")
  }

  lemma TrackStepKeepsChained(st: PassState, track: NodeAnimation, meshes: seq<MeshData>, elapsed: real, slerp: SlerpPrimitives)
    requires |track.keyframes| < SizeWord
    requires NamedMeshes(meshes)
    requires Chained(st)
    requires TrackStep(st, track, meshes, elapsed, slerp).Success?
    ensures Chained(TrackStep(st, track, meshes, elapsed, slerp).value)
  {
    var st' := TrackStep(st, track, meshes, elapsed, slerp).value;
    var starts := StartsUpdate(meshes, st.au, track);
    if starts {
      var m :| 0 <= m < |meshes| && meshes[m].nodeName == track.name;
      assert st'.au.nodeName == track.name != "";
      if st.au.nodeName != "" {
        assert st'.aus == st.aus + [st.au];
        forall k | 0 <= k < |st'.aus|
          ensures st'.aus[k].nodeName != ""
        {
          if k < |st.aus| {
            assert st'.aus[k] == st.aus[k];
          }
        }
        forall k | 0 <= k < |st'.aus| - 1
          ensures st'.aus[k].nodeName != st'.aus[k + 1].nodeName
        {
          if k + 1 < |st.aus| {
            assert st'.aus[k] == st.aus[k] && st'.aus[k + 1] == st.aus[k + 1];
          } else {
            assert st'.aus[k] == st.aus[|st.aus| - 1] && st'.aus[k + 1] == st.au;
          }
        }
        assert st'.aus[|st'.aus| - 1] == st.au;
      } else {
        assert st'.aus == st.aus == [];
      }
    } else {
      assert st'.aus == st.aus && st'.au.nodeName == st.au.nodeName;
    }
  }

  /** With named meshes every successful pass ends in a Chained state. */
  lemma {:induction false} RunPassChained(tracks: seq<NodeAnimation>, meshes: seq<MeshData>, elapsed: real, slerp: SlerpPrimitives)
    requires TracksFit(tracks)
    requires NamedMeshes(meshes)
    requires RunPass(tracks, meshes, elapsed, slerp).Success?
    ensures Chained(RunPass(tracks, meshes, elapsed, slerp).value)
  {
    if |tracks| > 0 {
      var init := tracks[..|tracks| - 1];
      assert TracksFit(init);
      assert RunPass(init, meshes, elapsed, slerp).Success?;
      RunPassChained(init, meshes, elapsed, slerp);
      TrackStepKeepsChained(RunPass(init, meshes, elapsed, slerp).value, tracks[|tracks| - 1], meshes, elapsed, slerp);
    }
  }

  /** The interpolation part of the track loop's body: scan, bracket, and write one field. */
  method InterpolateTrack(au: AnimationUpdate, track: NodeAnimation, elapsed: real, slerp: SlerpPrimitives)
    returns (r: Result<AnimationUpdate, UpdateError>)
    requires |track.keyframes| < SizeWord
    ensures r == ApplyTrack(au, track, elapsed, slerp)
  {
    var n := |track.keyframes|;
    if n == 0 {
      return Failure(EmptyTrack(track.name));
    }
    var keyframeIdx := ScanKeyframes(elapsed, track.keyframes);
    var b := BracketOf(keyframeIdx, n);
    var kf1 := track.keyframes[b.first];
    var kf2 := track.keyframes[b.second];
    var t := LerpPoint(elapsed, kf1, kf2);
    var updated := au;
    match track.kind {
      case Translation =>
        updated := au.(translation := if t.NonFinite? then NonFinite
                                      else Finite(InterpolateTranslation(kf1.value.translation, kf2.value.translation, t.v)));
      case Rotation =>
        updated := au.(orientation := if t.NonFinite? then NonFinite
                                      else Finite(InterpolateRotation(kf1.value.orientation, kf2.value.orientation, t.v, slerp)));
      case Scale =>
        updated := au.(scale := if t.NonFinite? then NonFinite
                                else Finite(InterpolateScale(kf1.value.scale, kf2.value.scale, t.v)));
      case Unclassified =>
    }
    r := Success(updated);
  }

  /** Once a prefix of the tracks fails, the whole pass fails with the same error. */
  lemma {:induction false} RunPassFailurePersists(tracks: seq<NodeAnimation>, i: nat, meshes: seq<MeshData>, elapsed: real, slerp: SlerpPrimitives)
    requires TracksFit(tracks) && i <= |tracks|
    requires TracksFit(tracks[..i]) && RunPass(tracks[..i], meshes, elapsed, slerp).Failure?
    ensures RunPass(tracks, meshes, elapsed, slerp) == RunPass(tracks[..i], meshes, elapsed, slerp)
    decreases |tracks| - i
  {
    if i == |tracks| {
      assert tracks[..i] == tracks;
    } else {
      assert tracks[..i + 1][..i] == tracks[..i];
      assert TracksFit(tracks[..i + 1]);
      RunPassFailurePersists(tracks, i + 1, meshes, elapsed, slerp);
    }
  }

  /** The track loop of Update for one animation sequence. */
  method RunTracks(tracks: seq<NodeAnimation>, meshes: seq<MeshData>, elapsed: real, slerp: SlerpPrimitives)
    returns (r: Result<PassState, UpdateError>)
    requires TracksFit(tracks)
    ensures r == RunPass(tracks, meshes, elapsed, slerp)
  {
    var st := InitialPass;
    var i := 0;
    while i < |tracks|
      invariant 0 <= i <= |tracks|
      invariant TracksFit(tracks[..i])
      invariant RunPass(tracks[..i], meshes, elapsed, slerp) == Success(st)
    {
      assert tracks[..i + 1][..i] == tracks[..i];
      assert tracks[..i + 1][i] == tracks[i];
      assert TracksFit(tracks[..i + 1]);
      var track := tracks[i];
      st := MatchMesh(st, track, meshes);
      if st.au.nodeName != "" {
        var applied := InterpolateTrack(st.au, track, elapsed, slerp);
        if applied.Failure? {
          RunPassFailurePersists(tracks, i + 1, meshes, elapsed, slerp);
          return Failure(applied.error);
        }
        st := PassState(st.aus, applied.value);
      }
      i := i + 1;
    }
    assert tracks[..i] == tracks;
    r := Success(st);
  }

  // ---------------------------------------------------------------- Update

  /** What one sequence contributes: nothing when skipped, otherwise its pass's final state. */
  datatype SequenceOutcome = Skipped | Ran(aus: seq<AnimationUpdate>, au: AnimationUpdate)

  predicate SequencesFit(sequences: seq<Animation>)
  {
    forall i :: 0 <= i < |sequences| ==> TracksFit(sequences[i].nodeAnimations)
  }

  /** One sequence: anything but an animation is skipped. */
  function RunSequence(sequence: Animation, meshes: seq<MeshData>, elapsed: real, slerp: SlerpPrimitives): Result<SequenceOutcome, UpdateError>
    requires TracksFit(sequence.nodeAnimations)
  {
    if sequence.sequenceType != AnimationSequence then Success(Skipped)
    else
      match RunPass(sequence.nodeAnimations, meshes, elapsed, slerp)
      case Success(st) => Success(Ran(st.aus, st.au))
      case Failure(e) => Failure(e)
  }

  /** All sequences in order, stopping at the first error. */
  function UpdateAll(sequences: seq<Animation>, meshes: seq<MeshData>, elapsed: real, slerp: SlerpPrimitives): Result<seq<SequenceOutcome>, UpdateError>
    requires SequencesFit(sequences)
  {
    if |sequences| == 0 then Success([])
    else
      match UpdateAll(sequences[..|sequences| - 1], meshes, elapsed, slerp)
      case Failure(e) => Failure(e)
      case Success(outs) =>
        match RunSequence(sequences[|sequences| - 1], meshes, elapsed, slerp)
        case Failure(e) => Failure(e)
        case Success(o) => Success(outs + [o])
  }

  /** One outcome per sequence, and a sequence is skipped exactly when it is not an animation. */
  lemma {:induction false} UpdateSkipsNonAnimations(sequences: seq<Animation>, meshes: seq<MeshData>, elapsed: real, slerp: SlerpPrimitives)
    requires SequencesFit(sequences)
    requires UpdateAll(sequences, meshes, elapsed, slerp).Success?
    ensures |UpdateAll(sequences, meshes, elapsed, slerp).value| == |sequences|
    ensures forall i :: 0 <= i < |sequences| ==>
              (UpdateAll(sequences, meshes, elapsed, slerp).value[i].Skipped?
               <==> sequences[i].sequenceType != AnimationSequence)
  {
    if |sequences| > 0 {
      var init := sequences[..|sequences| - 1];
      assert SequencesFit(init);
      UpdateSkipsNonAnimations(init, meshes, elapsed, slerp);
      assert forall i :: 0 <= i < |init| ==> init[i] == sequences[i];
    }
  }

  /** Once a prefix of the sequences fails, the whole update fails with the same error. */
  lemma {:induction false} UpdateAllFailurePersists(sequences: seq<Animation>, i: nat, meshes: seq<MeshData>, elapsed: real, slerp: SlerpPrimitives)
    requires SequencesFit(sequences) && i <= |sequences|
    requires SequencesFit(sequences[..i]) && UpdateAll(sequences[..i], meshes, elapsed, slerp).Failure?
    ensures UpdateAll(sequences, meshes, elapsed, slerp) == UpdateAll(sequences[..i], meshes, elapsed, slerp)
    decreases |sequences| - i
  {
    if i == |sequences| {
      assert sequences[..i] == sequences;
    } else {
      assert sequences[..i + 1][..i] == sequences[..i];
      assert SequencesFit(sequences[..i + 1]);
      UpdateAllFailurePersists(sequences, i + 1, meshes, elapsed, slerp);
    }
  }

  /**
   * Animator::Update(sequences, count): the outcome of every sequence, computed from the
   * meshes' node names and the elapsed time.
   */
  method Update(sequences: seq<Animation>, meshes: seq<MeshData>, elapsed: real, slerp: SlerpPrimitives)
    returns (r: Result<seq<SequenceOutcome>, UpdateError>)
    requires SequencesFit(sequences)
    ensures r == UpdateAll(sequences, meshes, elapsed, slerp)
  {
    var outs: seq<SequenceOutcome> := [];
    var i := 0;
    while i < |sequences|
      invariant 0 <= i <= |sequences|
      invariant SequencesFit(sequences[..i])
      invariant UpdateAll(sequences[..i], meshes, elapsed, slerp) == Success(outs)
    {
      assert sequences[..i + 1][..i] == sequences[..i];
      var sequence := sequences[i];
      if sequence.sequenceType != AnimationSequence {
        outs := outs + [Skipped];
        i := i + 1;
        continue;
      }
      var pass := RunTracks(sequence.nodeAnimations, meshes, elapsed, slerp);
      assert sequences[..i + 1][i] == sequence;
      assert SequencesFit(sequences[..i + 1]);
      if pass.Failure? {
        UpdateAllFailurePersists(sequences, i + 1, meshes, elapsed, slerp);
        return Failure(pass.error);
      }
      outs := outs + [Ran(pass.value.aus, pass.value.au)];
      i := i + 1;
    }
    assert sequences[..i] == sequences;
    r := Success(outs);
  }

  /** Animator::Update(): runs Update over the mesh's own animations; the model data is only read. */
  method UpdateModel(model: ModelData, elapsed: real, slerp: SlerpPrimitives)
    returns (r: Result<seq<SequenceOutcome>, UpdateError>)
    requires SequencesFit(model.animations)
    ensures r == UpdateAll(model.animations, model.meshes, elapsed, slerp)
  {
    r := Update(model.animations, model.meshes, elapsed, slerp);
  }

  /**
   * Past the last keyframe the scan still picks keyframe 0, so a track keyed at 0, 1 and 2
   * and read at 2.5 extrapolates along the first interval (t = 2.5) instead of wrapping.
   */
  lemma PastLastKeyframeExtrapolates(v0: Transform, v1: Transform, v2: Transform)
    ensures var kfs := [Keyframe(0.0, v0), Keyframe(1.0, v1), Keyframe(2.0, v2)];
            && KeyframeIndex(2.5, kfs) == 0
            && BracketOf(KeyframeIndex(2.5, kfs), 3) == Bracket(0, 1)
            && LerpPoint(2.5, kfs[0], kfs[1]) == Finite(2.5)
  {
  }
}
