/**
 * ModelLoader: turns an imported scene into ModelData. The node tree is rebuilt
 * depth-first while the meshes met on the way are appended to one shared list; the
 * scene's animations are extracted once, at the root; materials are looked up by name in
 * the process-wide material registry and created from their texture files when absent.
 *
 * File existence is a set of paths; texture decoding, matrix conversion and the
 * material properties copied by AddMaterialProperties are not modelled.
 */
module ModelLoader {
  import opened Wrappers
  import opened AnimationData
  import opened ModelData
  import opened Scene

  // ---------------------------------------------------------------- texture types

  /** The switch from an aiTextureType to the material's texture slot; anything unlisted is Unknown. */
  function PbrTextureType(aiType: nat): (t: TextureType)
    ensures t == Albedo <==> aiType == AiBaseColor
    ensures t == Normal <==> aiType == AiNormalCamera || aiType == AiNormals
    ensures t == Emissive <==> aiType == AiEmissionColor
    ensures t == Metallic <==> aiType == AiMetalness
    ensures t == Roughness <==> aiType == AiDiffuseRoughness
    ensures t == AmbientOcclusion <==> aiType == AiAmbientOcclusion
    ensures t == Unknown <==> && aiType != AiNormals && aiType != AiBaseColor && aiType != AiNormalCamera
                              && aiType != AiEmissionColor && aiType != AiMetalness
                              && aiType != AiDiffuseRoughness && aiType != AiAmbientOcclusion
  {
    if aiType == AiBaseColor then Albedo
    else if aiType == AiNormalCamera then Normal
    else if aiType == AiEmissionColor then Emissive
    else if aiType == AiMetalness then Metallic
    else if aiType == AiDiffuseRoughness then Roughness
    else if aiType == AiAmbientOcclusion then AmbientOcclusion
    else if aiType == AiNormals then Normal
    else Unknown
  }

  // ---------------------------------------------------------------- material file paths

  /** The paths with repeats removed, each kept at its first occurrence. */
  function Dedup(paths: seq<string>): (r: seq<string>)
    ensures forall x :: x in r <==> x in paths
    ensures forall i, j :: 0 <= i < j < |r| ==> r[i] != r[j]
    ensures |r| <= |paths|
  {
    if |paths| == 0 then []
    else
      var init := paths[..|paths| - 1];
      var prev := Dedup(init);
      assert paths == init + [paths[|paths| - 1]];
      if paths[|paths| - 1] in prev then prev else prev + [paths[|paths| - 1]]
  }

  /** Dedup keeps first-occurrence order: an earlier entry of the result appears in the input before any occurrence of a later one. */
  lemma {:induction false} DedupKeepsFirstOccurrenceOrder(paths: seq<string>)
    ensures forall i, j, b :: 0 <= i < j < |Dedup(paths)| && 0 <= b < |paths| && paths[b] == Dedup(paths)[j]
              ==> Dedup(paths)[i] in paths[..b]
  {
    if |paths| > 0 {
      var n := |paths|;
      var init := paths[..n - 1];
      var prev := Dedup(init);
      var r := Dedup(paths);
      DedupKeepsFirstOccurrenceOrder(init);
      forall i, j, b | 0 <= i < j < |r| && 0 <= b < n && paths[b] == r[j]
        ensures r[i] in paths[..b]
      {
        assert r[i] == prev[i];
        if j < |prev| {
          assert r[j] == prev[j];
          if b == n - 1 {
            var b' :| 0 <= b' < |init| && init[b'] == prev[j];
            assert prev[i] in init[..b'];
            assert init[..b'] == paths[..b'];
            assert paths[..b'] <= paths[..b];
          } else {
            assert init[b] == paths[b];
            assert init[..b] == paths[..b];
          }
        } else {
          assert r[j] == paths[n - 1] && paths[n - 1] !in prev;
          assert paths[n - 1] !in init;
          assert paths[..b] == init;
        }
      }
    }
  }

  /** A list without repeats is returned unchanged. */
  lemma {:induction false} DedupOfDistinct(paths: seq<string>)
    requires forall i, j :: 0 <= i < j < |paths| ==> paths[i] != paths[j]
    ensures Dedup(paths) == paths
  {
    if |paths| > 0 {
      var init := paths[..|paths| - 1];
      DedupOfDistinct(init);
      assert paths[|paths| - 1] !in init;
      assert paths == init + [paths[|paths| - 1]];
    }
  }

  /** GetMaterialFilePath: the material's paths for one texture type, each once, using a skip flag. */
  method GetMaterialFilePath(material: SourceMaterial, textureType: nat) returns (result: seq<string>)
    ensures result == Dedup(TexturePaths(material, textureType))
  {
    var paths := TexturePaths(material, textureType);
    result := [];
    var i := 0;
    while i < |paths|
      invariant 0 <= i <= |paths|
      invariant result == Dedup(paths[..i])
    {
      var filepath := paths[i];
      var skip := false;
      var it := 0;
      while it < |result|
        invariant 0 <= it <= |result|
        invariant !skip
        invariant forall k :: 0 <= k < it ==> result[k] != filepath
      {
        if result[it] == filepath {
          skip := true;
          break;
        }
        it := it + 1;
      }
      assert skip <==> filepath in result;
      if !skip {
        result := result + [filepath];
      }
      assert paths[..i + 1][..i] == paths[..i];
      assert paths[..i + 1][i] == filepath;
      i := i + 1;
    }
    assert paths[..i] == paths;
  }

  // ---------------------------------------------------------------- material textures

  /** The position of the last of `paths` that names an existing file. */
  function LastExisting(paths: seq<string>, files: set<string>): (r: Option<nat>)
    ensures r.None? <==> forall k :: 0 <= k < |paths| ==> paths[k] !in files
    ensures r.Some? ==> r.value < |paths| && paths[r.value] in files
                        && forall k :: r.value < k < |paths| ==> paths[k] !in files
  {
    if |paths| == 0 then None
    else if paths[|paths| - 1] in files then Some(|paths| - 1)
    else
      var r := LastExisting(paths[..|paths| - 1], files);
      assert forall k :: 0 <= k < |paths| - 1 ==> paths[..|paths| - 1][k] == paths[k];
      r
  }

  /** One texture type's paths: every existing file replaces the slot's texture, so the last one stays. */
  function AddTextures(textures: map<TextureType, Texture>, slot: TextureType, paths: seq<string>, files: set<string>)
    : (r: map<TextureType, Texture>)
    ensures r == match LastExisting(paths, files)
                 case Some(k) => textures[slot := Texture(paths[k])]
                 case None => textures
  {
    if |paths| == 0 then textures
    else
      var prev := AddTextures(textures, slot, paths[..|paths| - 1], files);
      if paths[|paths| - 1] in files then prev[slot := Texture(paths[|paths| - 1])] else prev
  }

  /** The textures of a new material after visiting texture types 0 .. count-1. */
  function TexturesFor(material: SourceMaterial, files: set<string>, count: nat): map<TextureType, Texture>
  {
    if count == 0 then map[]
    else
      AddTextures(TexturesFor(material, files, count - 1), PbrTextureType(count - 1),
                  Dedup(TexturePaths(material, count - 1)), files)
  }

  /** Every texture of a new material comes from an existing file the material lists under a type of that slot. */
  lemma {:induction false} TexturesComeFromExistingFiles(material: SourceMaterial, files: set<string>, count: nat)
    ensures forall t :: t in TexturesFor(material, files, count) ==>
              && TexturesFor(material, files, count)[t].path in files
              && exists a :: 0 <= a < count && PbrTextureType(a) == t
                               && TexturesFor(material, files, count)[t].path in TexturePaths(material, a)
  {
    if count > 0 {
      TexturesComeFromExistingFiles(material, files, count - 1);
      var a := count - 1;
      var slot := PbrTextureType(a);
      var paths := Dedup(TexturePaths(material, a));
      var last := LastExisting(paths, files);
      var prev := TexturesFor(material, files, a);
      var textures := TexturesFor(material, files, count);
      assert textures == AddTextures(prev, slot, paths, files);
      forall t | t in textures
        ensures textures[t].path in files
        ensures exists a' :: 0 <= a' < count && PbrTextureType(a') == t && textures[t].path in TexturePaths(material, a')
      {
        if last.Some? && t == slot {
          assert textures[t] == Texture(paths[last.value]);
          assert paths[last.value] in TexturePaths(material, a);
        } else {
          assert t in prev && textures[t] == prev[t];
          var a' :| 0 <= a' < a && PbrTextureType(a') == t && prev[t].path in TexturePaths(material, a');
        }
      }
    }
  }

  /** The loop over one type's paths: a texture is created for each path that names an existing file. */
  method AddTextureFiles(textures: map<TextureType, Texture>, slot: TextureType, filepaths: seq<string>, files: set<string>)
    returns (result: map<TextureType, Texture>)
    ensures result == AddTextures(textures, slot, filepaths, files)
  {
    result := textures;
    var k := 0;
    while k < |filepaths|
      invariant 0 <= k <= |filepaths|
      invariant result == AddTextures(textures, slot, filepaths[..k], files)
    {
      assert filepaths[..k + 1][..k] == filepaths[..k];
      if filepaths[k] in files {
        result := result[slot := Texture(filepaths[k])];
      }
      k := k + 1;
    }
    assert filepaths[..k] == filepaths;
  }

  /** One texture type of the loop: its deduplicated paths, each existing file filling the type's slot. */
  method AddTypeTextures(textures: map<TextureType, Texture>, material: SourceMaterial, aiType: nat, files: set<string>)
    returns (result: map<TextureType, Texture>)
    ensures result == AddTextures(textures, PbrTextureType(aiType), Dedup(TexturePaths(material, aiType)), files)
  {
    var filepaths := GetMaterialFilePath(material, aiType);
    result := textures;
    if |filepaths| != 0 {
      result := AddTextureFiles(textures, PbrTextureType(aiType), filepaths, files);
    }
  }

  /** The loop over texture types and their paths that fills a new material's texture map. */
  method CollectTextures(material: SourceMaterial, files: set<string>) returns (textures: map<TextureType, Texture>)
    ensures textures == TexturesFor(material, files, AiTextureTypeMax)
  {
    textures := map[];
    var i := 0;
    while i < AiTextureTypeMax
      invariant 0 <= i <= AiTextureTypeMax
      invariant textures == TexturesFor(material, files, i)
    {
      textures := AddTypeTextures(textures, material, i, files);
      i := i + 1;
    }
  }

  /**
   * The process-wide material registry (Material::FindMaterial and Material::AddMaterial):
   * materials by name.
   */
  class MaterialRegistry {
    var materials: map<string, Material>

    constructor ()
      ensures materials == map[]
    {
      materials := map[];
    }

    method FindMaterial(name: string) returns (found: Option<Material>)
      ensures found.Some? <==> name in materials
      ensures found.Some? ==> found.value == materials[name]
    {
      found := if name in materials then Some(materials[name]) else None;
    }

    method AddMaterial(name: string, material: Material)
      modifies this
      ensures materials == old(materials)[name := material]
    {
      materials := materials[name := material];
    }
  }

  /**
   * The material a mesh gets and the registry afterwards: a registered name is reused as
   * it is; otherwise a material with the name and the textures of existing files is
   * created and registered.
   */
  function ResolveMaterial(registry: map<string, Material>, source: SourceMaterial, files: set<string>)
    : (r: (Material, map<string, Material>))
    ensures source.name in registry ==> r == (registry[source.name], registry)
    ensures source.name !in registry ==>
              && r.0 == Material(source.name, TexturesFor(source, files, AiTextureTypeMax))
              && r.1 == registry[source.name := r.0]
    ensures source.name in r.1 && r.1[source.name] == r.0
    ensures forall name :: name in registry ==> name in r.1 && r.1[name] == registry[name]
  {
    if source.name in registry then (registry[source.name], registry)
    else
      var material := Material(source.name, TexturesFor(source, files, AiTextureTypeMax));
      (material, registry[source.name := material])
  }

  // ---------------------------------------------------------------- geometry

  /** A loader vertex from the mesh's streams; a missing stream leaves its attribute at zero. */
  function ConvertVertex(mesh: SourceMesh, i: nat): (v: Vertex)
    requires StreamsMatch(mesh) && i < mesh.numVertices
    ensures mesh.positions.Some? ==> v.position == Vec4(mesh.positions.value[i].x, mesh.positions.value[i].y, mesh.positions.value[i].z, 1.0)
    ensures mesh.positions.None? ==> v.position == Zero4
    ensures mesh.normals.Some? ==> v.normal.w == 0.0
    ensures mesh.normals.None? ==> v.normal == Zero4
    ensures (mesh.tangents.None? || mesh.bitangents.None?) ==> v.tangent == Zero4 && v.binormal == Zero4
    ensures mesh.texCoords.Some? ==> v.texCoord == Vec2(mesh.texCoords.value[i].x, mesh.texCoords.value[i].y)
    ensures mesh.texCoords.None? ==> v.texCoord == Zero2
    ensures mesh.colours.Some? ==>
              v.colour == Vec4(mesh.colours.value[i].r, mesh.colours.value[i].g, mesh.colours.value[i].b, mesh.colours.value[i].a)
    ensures mesh.colours.None? ==> v.colour == Zero4
  {
    var position := if mesh.positions.Some? then
        var p := mesh.positions.value[i]; Vec4(p.x, p.y, p.z, 1.0)
      else Zero4;
    var texCoord := if mesh.texCoords.Some? then
        var c := mesh.texCoords.value[i]; Vec2(c.x, c.y)
      else Zero2;
    var normal := if mesh.normals.Some? then
        var n := mesh.normals.value[i]; Vec4(n.x, n.y, n.z, 0.0)
      else Zero4;
    var hasTangents := mesh.tangents.Some? && mesh.bitangents.Some?;
    var tangent := if hasTangents then
        var t := mesh.tangents.value[i]; Vec4(t.x, t.y, t.z, 0.0)
      else Zero4;
    var binormal := if hasTangents then
        var b := mesh.bitangents.value[i]; Vec4(b.x, b.y, b.z, 0.0)
      else Zero4;
    var colour := if mesh.colours.Some? then
        var c := mesh.colours.value[i]; Vec4(c.r, c.g, c.b, c.a)
      else Zero4;
    Vertex(position, texCoord, normal, tangent, binormal, colour)
  }

  /** The first `count` vertices of a mesh, converted in order. */
  function Vertices(mesh: SourceMesh, count: nat): (vs: seq<Vertex>)
    requires StreamsMatch(mesh) && count <= mesh.numVertices
    ensures |vs| == count
    ensures forall i :: 0 <= i < count ==> vs[i] == ConvertVertex(mesh, i)
  {
    if count == 0 then [] else Vertices(mesh, count - 1) + [ConvertVertex(mesh, count - 1)]
  }

  /** A bone's weights as (vertex id, weight) pairs, in order. */
  function WeightPairs(weights: seq<VertexWeight>): (pairs: seq<(nat, real)>)
    ensures |pairs| == |weights|
    ensures forall k :: 0 <= k < |weights| ==> pairs[k] == (weights[k].vertexId, weights[k].weight)
  {
    if |weights| == 0 then []
    else
      var last := weights[|weights| - 1];
      WeightPairs(weights[..|weights| - 1]) + [(last.vertexId, last.weight)]
  }

  /** The mesh's bones, one per source bone, in order. */
  function Bones(bones: seq<SourceBone>): (r: seq<Bone>)
    ensures |r| == |bones|
    ensures forall k :: 0 <= k < |bones| ==> r[k] == Bone(WeightPairs(bones[k].weights))
  {
    if |bones| == 0 then [] else Bones(bones[..|bones| - 1]) + [Bone(WeightPairs(bones[|bones| - 1].weights))]
  }

  /** The vertex loop of ProcessMeshes. */
  method ProcessVertices(mesh: SourceMesh) returns (vertices: seq<Vertex>)
    requires StreamsMatch(mesh)
    ensures vertices == Vertices(mesh, mesh.numVertices)
  {
    vertices := [];
    var i := 0;
    while i < mesh.numVertices
      invariant 0 <= i <= mesh.numVertices
      invariant vertices == Vertices(mesh, i)
    {
      vertices := vertices + [ConvertVertex(mesh, i)];
      i := i + 1;
    }
  }

  /** The index loop of ProcessMeshes: every face's indices, face after face. */
  method ProcessIndices(faces: seq<seq<nat>>) returns (indices: seq<nat>)
    ensures indices == Flatten(faces)
  {
    indices := [];
    var i := 0;
    while i < |faces|
      invariant 0 <= i <= |faces|
      invariant indices == Flatten(faces[..i])
    {
      assert faces[..i + 1][..i] == faces[..i];
      var face := faces[i];
      var before := indices;
      var j := 0;
      while j < |face|
        invariant 0 <= j <= |face|
        invariant indices == before + face[..j]
      {
        assert face[..j + 1] == face[..j] + [face[j]];
        indices := indices + [face[j]];
        j := j + 1;
      }
      assert face[..j] == face;
      i := i + 1;
    }
    assert faces[..i] == faces;
  }

  /** The bone loop of ProcessMeshes. */
  method ProcessBones(bones: seq<SourceBone>) returns (result: seq<Bone>)
    ensures result == Bones(bones)
  {
    result := [];
    var i := 0;
    while i < |bones|
      invariant 0 <= i <= |bones|
      invariant result == Bones(bones[..i])
    {
      assert bones[..i + 1][..i] == bones[..i];
      var weights := bones[i].weights;
      var pairs: seq<(nat, real)> := [];
      var j := 0;
      while j < |weights|
        invariant 0 <= j <= |weights|
        invariant pairs == WeightPairs(weights[..j])
      {
        assert weights[..j + 1][..j] == weights[..j];
        pairs := pairs + [(weights[j].vertexId, weights[j].weight)];
        j := j + 1;
      }
      assert weights[..j] == weights;
      result := result + [Bone(pairs)];
      i := i + 1;
    }
    assert bones[..i] == bones;
  }

  // ---------------------------------------------------------------- animations

  /** `name.find(word) != npos`: `word` occurs somewhere in `name`. */
  predicate Contains(name: string, word: string)
    decreases |name|
  {
    word <= name || (0 < |name| && Contains(name[1..], word))
  }

  /** The track type a channel's name selects: the first of the three words it contains, in this order. */
  function ChannelClass(name: string): (kind: TrackType)
    ensures kind == Translation <==> Contains(name, "Translation")
    ensures kind == Rotation <==> !Contains(name, "Translation") && Contains(name, "Rotation")
    ensures kind == Scale <==> !Contains(name, "Translation") && !Contains(name, "Rotation") && Contains(name, "Scaling")
    ensures kind == Unclassified <==> !Contains(name, "Translation") && !Contains(name, "Rotation") && !Contains(name, "Scaling")
  {
    if Contains(name, "Translation") then Translation
    else if Contains(name, "Rotation") then Rotation
    else if Contains(name, "Scaling") then Scale
    else Unclassified
  }

  /** Position keys as keyframes: the key's time, and a default transform holding the key's translation. */
  function PositionKeyframes(keys: seq<VectorKey>): (kfs: seq<Keyframe>)
    ensures |kfs| == |keys|
    ensures forall k :: 0 <= k < |keys| ==>
              kfs[k].timepoint == keys[k].time && kfs[k].value == DefaultTransform.(translation := keys[k].value)
  {
    if |keys| == 0 then []
    else
      var key := keys[|keys| - 1];
      PositionKeyframes(keys[..|keys| - 1]) + [Keyframe(key.time, DefaultTransform.(translation := key.value))]
  }

  /** The quaternion of a rotation key, (w, x, y, z) as (s, i, j, k). */
  function KeyOrientation(key: QuatKey): Quat
  {
    Quat(key.w, key.x, key.y, key.z)
  }

  /** Rotation keys as keyframes: the key's time, and a default transform holding the key's orientation. */
  function RotationKeyframes(keys: seq<QuatKey>): (kfs: seq<Keyframe>)
    ensures |kfs| == |keys|
    ensures forall k :: 0 <= k < |keys| ==>
              kfs[k].timepoint == keys[k].time && kfs[k].value == DefaultTransform.(orientation := KeyOrientation(keys[k]))
  {
    if |keys| == 0 then []
    else
      var key := keys[|keys| - 1];
      RotationKeyframes(keys[..|keys| - 1]) + [Keyframe(key.time, DefaultTransform.(orientation := KeyOrientation(key)))]
  }

  /** Scaling keys as keyframes: the key's time, and a default transform holding the key's scale. */
  function ScalingKeyframes(keys: seq<VectorKey>): (kfs: seq<Keyframe>)
    ensures |kfs| == |keys|
    ensures forall k :: 0 <= k < |keys| ==>
              kfs[k].timepoint == keys[k].time && kfs[k].value == DefaultTransform.(scale := keys[k].value)
  {
    if |keys| == 0 then []
    else
      var key := keys[|keys| - 1];
      ScalingKeyframes(keys[..|keys| - 1]) + [Keyframe(key.time, DefaultTransform.(scale := key.value))]
  }

  /**
   * The NodeAnimation a channel leaves behind: its name, and the keys of the classified
   * kind; an unmatched channel keeps the type of a default-constructed NodeAnimation
   * (`unsetKind`) and no keyframes.
   */
  function ChannelTrack(channel: SourceChannel, unsetKind: TrackType): (track: NodeAnimation)
    ensures track.name == channel.nodeName
    ensures ChannelClass(channel.nodeName) == Translation ==>
              track.kind == Translation && track.keyframes == PositionKeyframes(channel.positionKeys)
    ensures ChannelClass(channel.nodeName) == Rotation ==>
              track.kind == Rotation && track.keyframes == RotationKeyframes(channel.rotationKeys)
    ensures ChannelClass(channel.nodeName) == Scale ==>
              track.kind == Scale && track.keyframes == ScalingKeyframes(channel.scalingKeys)
    ensures ChannelClass(channel.nodeName) == Unclassified ==> track.kind == unsetKind && track.keyframes == []
  {
    match ChannelClass(channel.nodeName)
    case Translation => NodeAnimation(channel.nodeName, Translation, PositionKeyframes(channel.positionKeys))
    case Rotation => NodeAnimation(channel.nodeName, Rotation, RotationKeyframes(channel.rotationKeys))
    case Scale => NodeAnimation(channel.nodeName, Scale, ScalingKeyframes(channel.scalingKeys))
    case Unclassified => NodeAnimation(channel.nodeName, unsetKind, [])
  }

  /** `static_cast<uint32_t>` of a double: truncation toward zero; out of range (undefined in C++) gives 0. */
  function TicksToFrames(ticksPerSecond: real): (frames: nat)
    ensures frames < 0x1_0000_0000
    ensures 0.0 <= ticksPerSecond < 0x1_0000_0000 as real ==> frames as real <= ticksPerSecond < frames as real + 1.0
  {
    if 0.0 <= ticksPerSecond < 0x1_0000_0000 as real then ticksPerSecond.Floor else 0
  }

  /** The animation ProcessAnimations starts for a source animation, with no tracks yet. */
  function NewAnimation(source: SourceAnimation): Animation
  {
    Animation(AnimationSequence, source.duration, TicksToFrames(source.ticksPerSecond), [])
  }

  /** The animations pushed so far and the one being filled. */
  datatype Extraction = Extraction(out: seq<Animation>, current: Animation)

  /**
   * One channel: append its track to the current animation; a matched channel then pushes
   * a copy of the current animation.
   */
  function ChannelStep(ex: Extraction, channel: SourceChannel, unsetKind: TrackType): Extraction
  {
    var current := ex.current.(nodeAnimations := ex.current.nodeAnimations + [ChannelTrack(channel, unsetKind)]);
    if ChannelClass(channel.nodeName) == Unclassified then Extraction(ex.out, current)
    else Extraction(ex.out + [current], current)
  }

  function ExtractChannels(ex: Extraction, channels: seq<SourceChannel>, unsetKind: TrackType): Extraction
  {
    if |channels| == 0 then ex
    else ChannelStep(ExtractChannels(ex, channels[..|channels| - 1], unsetKind), channels[|channels| - 1], unsetKind)
  }

  /** ProcessAnimations over the scene's animations. */
  function ExtractAnimations(sources: seq<SourceAnimation>, unsetKind: TrackType): seq<Animation>
  {
    if |sources| == 0 then []
    else
      var last := sources[|sources| - 1];
      ExtractChannels(Extraction(ExtractAnimations(sources[..|sources| - 1], unsetKind), NewAnimation(last)),
                      last.channels, unsetKind).out
  }

  /** The tracks the channels leave behind, one per channel. */
  function Tracks(channels: seq<SourceChannel>, unsetKind: TrackType): (tracks: seq<NodeAnimation>)
    ensures |tracks| == |channels|
    ensures forall k :: 0 <= k < |channels| ==> tracks[k] == ChannelTrack(channels[k], unsetKind)
  {
    if |channels| == 0 then [] else Tracks(channels[..|channels| - 1], unsetKind) + [ChannelTrack(channels[|channels| - 1], unsetKind)]
  }

  /** The number of channels whose name matches one of the three words. */
  function MatchedCount(channels: seq<SourceChannel>): nat
  {
    if |channels| == 0 then 0
    else MatchedCount(channels[..|channels| - 1]) + (if ChannelClass(channels[|channels| - 1].nodeName) == Unclassified then 0 else 1)
  }

  /** The current animation ends up holding one track per channel, after the tracks it started with. */
  lemma {:induction false} ExtractChannelsCurrent(ex: Extraction, channels: seq<SourceChannel>, unsetKind: TrackType)
    ensures ExtractChannels(ex, channels, unsetKind).current
            == ex.current.(nodeAnimations := ex.current.nodeAnimations + Tracks(channels, unsetKind))
  {
    if |channels| > 0 {
      var init := channels[..|channels| - 1];
      ExtractChannelsCurrent(ex, init, unsetKind);
      assert Tracks(channels, unsetKind) == Tracks(init, unsetKind) + [ChannelTrack(channels[|channels| - 1], unsetKind)];
      assert ex.current.nodeAnimations + Tracks(channels, unsetKind)
          == ex.current.nodeAnimations + Tracks(init, unsetKind) + [ChannelTrack(channels[|channels| - 1], unsetKind)];
    }
  }

  /** The channel loop only appends: one animation per matched channel. */
  lemma {:induction false} ExtractChannelsAppends(ex: Extraction, channels: seq<SourceChannel>, unsetKind: TrackType)
    ensures |ExtractChannels(ex, channels, unsetKind).out| == |ex.out| + MatchedCount(channels)
    ensures ExtractChannels(ex, channels, unsetKind).out[..|ex.out|] == ex.out
  {
    if |channels| > 0 {
      var init := channels[..|channels| - 1];
      ExtractChannelsAppends(ex, init, unsetKind);
      var prev := ExtractChannels(ex, init, unsetKind);
      if ChannelClass(channels[|channels| - 1].nodeName) != Unclassified {
        assert (prev.out + [ChannelStep(prev, channels[|channels| - 1], unsetKind).current])[..|ex.out|] == prev.out[..|ex.out|];
      }
    }
  }

  /**
   * A pushed copy of animation `a` for the k-th matched channel: `a`'s header, a
   * non-empty prefix of the channels' tracks ending at a matched channel, more than k
   * tracks.
   */
  ghost predicate Snapshot(s: Animation, a: Animation, channels: seq<SourceChannel>, unsetKind: TrackType, k: nat)
  {
    && s.(nodeAnimations := []) == a.(nodeAnimations := [])
    && 0 < |s.nodeAnimations| <= |channels|
    && s.nodeAnimations <= Tracks(channels, unsetKind)
    && ChannelClass(channels[|s.nodeAnimations| - 1].nodeName) != Unclassified
    && k < |s.nodeAnimations|
  }

  lemma SnapshotExtends(s: Animation, a: Animation, channels: seq<SourceChannel>, unsetKind: TrackType, k: nat)
    requires 0 < |channels|
    requires Snapshot(s, a, channels[..|channels| - 1], unsetKind, k)
    ensures Snapshot(s, a, channels, unsetKind, k)
  {
    var init := channels[..|channels| - 1];
    assert Tracks(channels, unsetKind) == Tracks(init, unsetKind) + [ChannelTrack(channels[|channels| - 1], unsetKind)];
    assert channels[|s.nodeAnimations| - 1] == init[|s.nodeAnimations| - 1];
  }

  /** Every animation of `out` from position `from` on is the Snapshot for its rank. */
  ghost predicate AllSnapshots(out: seq<Animation>, from: nat, a: Animation, channels: seq<SourceChannel>, unsetKind: TrackType)
  {
    forall k :: from <= k < |out| ==> Snapshot(out[k], a, channels, unsetKind, k - from)
  }

  lemma AllSnapshotsExtend(out: seq<Animation>, from: nat, a: Animation, channels: seq<SourceChannel>, unsetKind: TrackType)
    requires 0 < |channels|
    requires AllSnapshots(out, from, a, channels[..|channels| - 1], unsetKind)
    ensures AllSnapshots(out, from, a, channels, unsetKind)
  {
    forall k | from <= k < |out|
      ensures Snapshot(out[k], a, channels, unsetKind, k - from)
    {
      SnapshotExtends(out[k], a, channels, unsetKind, k - from);
    }
  }

  /** The animation holding all the channels' tracks is a Snapshot when the last channel is matched. */
  lemma CurrentIsSnapshot(current: Animation, a: Animation, channels: seq<SourceChannel>, unsetKind: TrackType, rank: nat)
    requires 0 < |channels| && rank < |channels|
    requires current == a.(nodeAnimations := Tracks(channels, unsetKind))
    requires ChannelClass(channels[|channels| - 1].nodeName) != Unclassified
    ensures Snapshot(current, a, channels, unsetKind, rank)
  {
  }

  /**
   * Starting from an animation with no tracks, every animation the channel loop pushes is
   * a Snapshot: the k-th pushed one holds more than k tracks.
   */
  lemma {:induction false} ExtractChannelsSnapshots(out0: seq<Animation>, a: Animation, channels: seq<SourceChannel>, unsetKind: TrackType)
    requires a.nodeAnimations == []
    ensures AllSnapshots(ExtractChannels(Extraction(out0, a), channels, unsetKind).out, |out0|, a, channels, unsetKind)
  {
    if |channels| > 0 {
      var init := channels[..|channels| - 1];
      var ex0 := Extraction(out0, a);
      var prev := ExtractChannels(ex0, init, unsetKind);
      ExtractChannelsSnapshots(out0, a, init, unsetKind);
      AllSnapshotsExtend(prev.out, |out0|, a, channels, unsetKind);
      if ChannelClass(channels[|channels| - 1].nodeName) != Unclassified {
        ExtractChannelsAppends(ex0, init, unsetKind);
        ExtractChannelsCurrent(ex0, channels, unsetKind);
        MatchedCountBound(init);
        PushSnapshot(prev.out, ExtractChannels(ex0, channels, unsetKind), |out0|, a, channels, unsetKind);
      }
    }
  }

  /** Pushing the animation that holds every channel's track keeps all pushed animations Snapshots. */
  lemma PushSnapshot(prevOut: seq<Animation>, ex: Extraction, from: nat, a: Animation, channels: seq<SourceChannel>, unsetKind: TrackType)
    requires 0 < |channels| && ChannelClass(channels[|channels| - 1].nodeName) != Unclassified
    requires from <= |prevOut| && |prevOut| - from < |channels|
    requires AllSnapshots(prevOut, from, a, channels, unsetKind)
    requires ex.out == prevOut + [ex.current]
    requires ex.current == a.(nodeAnimations := Tracks(channels, unsetKind))
    ensures AllSnapshots(ex.out, from, a, channels, unsetKind)
  {
    CurrentIsSnapshot(ex.current, a, channels, unsetKind, |prevOut| - from);
    forall k | from <= k < |ex.out|
      ensures Snapshot(ex.out[k], a, channels, unsetKind, k - from)
    {
      if k < |prevOut| {
        assert ex.out[k] == prevOut[k];
      }
    }
  }

  /** At most every channel is matched. */
  lemma {:induction false} MatchedCountBound(channels: seq<SourceChannel>)
    ensures MatchedCount(channels) <= |channels|
  {
    if |channels| > 0 {
      MatchedCountBound(channels[..|channels| - 1]);
    }
  }

  /**
   * The `nodeAnimations[i]` read of BuildNodeGraph stays in range: every animation i that
   * has tracks has more than i of them.
   */
  predicate Indexable(animations: seq<Animation>)
  {
    forall i :: 0 <= i < |animations| && 0 < |animations[i].nodeAnimations| ==> i < |animations[i].nodeAnimations|
  }

  /** A scene with one animation always yields indexable animations. */
  lemma SingleAnimationIndexable(source: SourceAnimation, unsetKind: TrackType)
    ensures Indexable(ExtractAnimations([source], unsetKind))
  {
    assert [source][..0] == [];
    ExtractChannelsSnapshots([], NewAnimation(source), source.channels, unsetKind);
  }

  /** Every extracted animation is tagged as an animation sequence, and there is one per matched channel. */
  lemma {:induction false} ExtractedAnimationsShape(sources: seq<SourceAnimation>, unsetKind: TrackType)
    ensures forall k :: 0 <= k < |ExtractAnimations(sources, unsetKind)| ==>
              ExtractAnimations(sources, unsetKind)[k].sequenceType == AnimationSequence
    ensures |ExtractAnimations(sources, unsetKind)| == TotalMatched(sources)
  {
    if |sources| > 0 {
      var init := sources[..|sources| - 1];
      var last := sources[|sources| - 1];
      ExtractedAnimationsShape(init, unsetKind);
      var prev := ExtractAnimations(init, unsetKind);
      ExtractChannelsAppends(Extraction(prev, NewAnimation(last)), last.channels, unsetKind);
      ExtractChannelsSnapshots(prev, NewAnimation(last), last.channels, unsetKind);
      var out := ExtractAnimations(sources, unsetKind);
      forall k | 0 <= k < |out|
        ensures out[k].sequenceType == AnimationSequence
      {
        if k < |prev| {
          assert out[..|prev|] == prev;
          assert out[k] == out[..|prev|][k];
        } else {
          assert out[k].(nodeAnimations := []) == NewAnimation(last).(nodeAnimations := []);
        }
      }
    }
  }

  /** The number of matched channels over all source animations. */
  function TotalMatched(sources: seq<SourceAnimation>): nat
  {
    if |sources| == 0 then 0 else TotalMatched(sources[..|sources| - 1]) + MatchedCount(sources[|sources| - 1].channels)
  }

  /**
   * Two animations of one matched channel each are not indexable: the second snapshot
   * (index 1) holds a single track.
   */
  lemma TwoAnimationsNotIndexable(c1: SourceChannel, c2: SourceChannel, d: real, unsetKind: TrackType)
    requires c1.nodeName == "Translation" && c2.nodeName == "Translation"
    ensures !Indexable(ExtractAnimations([SourceAnimation(d, 1.0, [c1]), SourceAnimation(d, 1.0, [c2])], unsetKind))
  {
    var s1 := SourceAnimation(d, 1.0, [c1]);
    var s2 := SourceAnimation(d, 1.0, [c2]);
    assert Contains(c1.nodeName, "Translation") && Contains(c2.nodeName, "Translation");
    assert [s1, s2][..1] == [s1];
    assert [s1][..0] == [];
    assert [c1][..0] == [];
    assert [c2][..0] == [];
    assert ExtractAnimations([s1][..0], unsetKind) == [];
    assert ExtractChannels(Extraction([], NewAnimation(s1)), [c1][..0], unsetKind) == Extraction([], NewAnimation(s1));
    var first := ExtractAnimations([s1], unsetKind);
    assert first == ExtractChannels(Extraction([], NewAnimation(s1)), [c1], unsetKind).out;
    assert first == ChannelStep(Extraction([], NewAnimation(s1)), c1, unsetKind).out;
    assert |first| == 1;
    var out := ExtractAnimations([s1, s2], unsetKind);
    assert ExtractChannels(Extraction(first, NewAnimation(s2)), [c2][..0], unsetKind) == Extraction(first, NewAnimation(s2));
    assert out == ExtractChannels(Extraction(ExtractAnimations([s1, s2][..1], unsetKind), NewAnimation(s2)), [c2], unsetKind).out;
    var step := ChannelStep(Extraction(first, NewAnimation(s2)), c2, unsetKind);
    assert out == step.out;
    assert step.out == first + [step.current];
    assert step.current.nodeAnimations == [] + [ChannelTrack(c2, unsetKind)];
    assert |out[1].nodeAnimations| == 1;
  }

  /** The key loops of ProcessAnimations, one per key kind. */
  method CopyPositionKeys(keys: seq<VectorKey>) returns (keyframes: seq<Keyframe>)
    ensures keyframes == PositionKeyframes(keys)
  {
    keyframes := [];
    var k := 0;
    while k < |keys|
      invariant 0 <= k <= |keys|
      invariant keyframes == PositionKeyframes(keys[..k])
    {
      assert keys[..k + 1][..k] == keys[..k];
      keyframes := keyframes + [Keyframe(keys[k].time, DefaultTransform.(translation := keys[k].value))];
      k := k + 1;
    }
    assert keys[..k] == keys;
  }

  method CopyRotationKeys(keys: seq<QuatKey>) returns (keyframes: seq<Keyframe>)
    ensures keyframes == RotationKeyframes(keys)
  {
    keyframes := [];
    var k := 0;
    while k < |keys|
      invariant 0 <= k <= |keys|
      invariant keyframes == RotationKeyframes(keys[..k])
    {
      assert keys[..k + 1][..k] == keys[..k];
      keyframes := keyframes + [Keyframe(keys[k].time, DefaultTransform.(orientation := KeyOrientation(keys[k])))];
      k := k + 1;
    }
    assert keys[..k] == keys;
  }

  method CopyScalingKeys(keys: seq<VectorKey>) returns (keyframes: seq<Keyframe>)
    ensures keyframes == ScalingKeyframes(keys)
  {
    keyframes := [];
    var k := 0;
    while k < |keys|
      invariant 0 <= k <= |keys|
      invariant keyframes == ScalingKeyframes(keys[..k])
    {
      assert keys[..k + 1][..k] == keys[..k];
      keyframes := keyframes + [Keyframe(keys[k].time, DefaultTransform.(scale := keys[k].value))];
      k := k + 1;
    }
    assert keys[..k] == keys;
  }

  /** The body of the channel loop that builds a channel's track. */
  method ProcessChannel(channel: SourceChannel, unsetKind: TrackType) returns (track: NodeAnimation)
    ensures track == ChannelTrack(channel, unsetKind)
  {
    var name := channel.nodeName;
    if Contains(name, "Translation") {
      var keyframes := CopyPositionKeys(channel.positionKeys);
      track := NodeAnimation(name, Translation, keyframes);
    } else if Contains(name, "Rotation") {
      var keyframes := CopyRotationKeys(channel.rotationKeys);
      track := NodeAnimation(name, Rotation, keyframes);
    } else if Contains(name, "Scaling") {
      var keyframes := CopyScalingKeys(channel.scalingKeys);
      track := NodeAnimation(name, Scale, keyframes);
    } else {
      track := NodeAnimation(name, unsetKind, []);
    }
  }

  /** The channel loop of one source animation: append each track, push a copy after each matched one. */
  method ProcessChannels(animations: seq<Animation>, source: SourceAnimation, unsetKind: TrackType)
    returns (result: seq<Animation>)
    ensures result == ExtractChannels(Extraction(animations, NewAnimation(source)), source.channels, unsetKind).out
  {
    result := animations;
    var animation := NewAnimation(source);
    ghost var start := Extraction(animations, animation);
    var j := 0;
    while j < |source.channels|
      invariant 0 <= j <= |source.channels|
      invariant Extraction(result, animation) == ExtractChannels(start, source.channels[..j], unsetKind)
    {
      assert source.channels[..j + 1][..j] == source.channels[..j];
      var channel := source.channels[j];
      var track := ProcessChannel(channel, unsetKind);
      animation := animation.(nodeAnimations := animation.nodeAnimations + [track]);
      if ChannelClass(channel.nodeName) != Unclassified {
        result := result + [animation];
      }
      j := j + 1;
    }
    assert source.channels[..j] == source.channels;
  }

  /** ProcessAnimations: the channel loop of every source animation, pushing a copy per matched channel. */
  method ProcessAnimations(scene: Scene, unsetKind: TrackType) returns (animations: seq<Animation>)
    ensures animations == ExtractAnimations(scene.animations, unsetKind)
  {
    var sources := scene.animations;
    animations := [];
    var i := 0;
    while i < |sources|
      invariant 0 <= i <= |sources|
      invariant animations == ExtractAnimations(sources[..i], unsetKind)
    {
      assert sources[..i + 1][..i] == sources[..i];
      animations := ProcessChannels(animations, sources[i], unsetKind);
      i := i + 1;
    }
    assert sources[..i] == sources;
  }

  // ---------------------------------------------------------------- meshes of a node

  /** Old names keep their materials. */
  predicate Preserves(before: map<string, Material>, after: map<string, Material>)
  {
    forall name :: name in before ==> name in after && after[name] == before[name]
  }

  /** A MeshData converted from a scene mesh: its name, vertices, indices and bones. */
  predicate ConvertedFrom(data: MeshData, mesh: SourceMesh)
  {
    && StreamsMatch(mesh)
    && data.meshName == mesh.name
    && data.vertices == Vertices(mesh, mesh.numVertices)
    && data.indices == Flatten(mesh.faces)
    && data.bones == Bones(mesh.bones)
  }

  lemma PreservesTransitive(a: map<string, Material>, b: map<string, Material>, c: map<string, Material>)
    requires Preserves(a, b) && Preserves(b, c)
    ensures Preserves(a, c)
  {
  }

  /**
   * ProcessMeshes: the MeshData of each mesh a node references, in order, and the registry
   * afterwards. Each mesh carries the node's name and the registered material of its
   * scene material's name; registered materials are never replaced.
   */
  function MeshesOf(scene: Scene, refs: seq<nat>, nodeName: string, registry: map<string, Material>, files: set<string>)
    : (r: (seq<MeshData>, map<string, Material>))
    requires WellFormed(scene) && RefsValid(scene, refs)
    ensures |r.0| == |refs|
    ensures forall k :: 0 <= k < |refs| ==>
              && r.0[k].nodeName == nodeName
              && ConvertedFrom(r.0[k], scene.meshes[refs[k]])
              && MaterialOf(scene, refs[k]).name in r.1
              && r.0[k].material == r.1[MaterialOf(scene, refs[k]).name]
    ensures Preserves(registry, r.1)
  {
    if |refs| == 0 then ([], registry)
    else
      var m := refs[|refs| - 1];
      var mesh := scene.meshes[m];
      var prev := MeshesOf(scene, refs[..|refs| - 1], nodeName, registry, files);
      var resolved := ResolveMaterial(prev.1, MaterialOf(scene, m), files);
      var data := MeshData(mesh.name, nodeName, Vertices(mesh, mesh.numVertices), Flatten(mesh.faces), Bones(mesh.bones), resolved.0);
      (prev.0 + [data], resolved.1)
  }

  /** The mesh loop of ProcessMeshes, with the registry lookups and registrations it makes. */
  method ProcessMeshes(scene: Scene, refs: seq<nat>, nodeName: string, files: set<string>, registry: MaterialRegistry)
    returns (meshes: seq<MeshData>)
    requires WellFormed(scene) && RefsValid(scene, refs)
    modifies registry
    ensures (meshes, registry.materials) == MeshesOf(scene, refs, nodeName, old(registry.materials), files)
  {
    meshes := [];
    var i := 0;
    while i < |refs|
      invariant 0 <= i <= |refs|
      invariant (meshes, registry.materials) == MeshesOf(scene, refs[..i], nodeName, old(registry.materials), files)
    {
      assert refs[..i + 1][..i] == refs[..i];
      var mesh := scene.meshes[refs[i]];
      var vertices := ProcessVertices(mesh);
      var indices := ProcessIndices(mesh.faces);
      var bones := ProcessBones(mesh.bones);
      var source := scene.materials[mesh.materialIndex];
      var material: Material;
      var found := registry.FindMaterial(source.name);
      if found.Some? {
        material := found.value;
      } else {
        var textures := CollectTextures(source, files);
        material := Material(source.name, textures);
        registry.AddMaterial(source.name, material);
      }
      meshes := meshes + [MeshData(mesh.name, nodeName, vertices, indices, bones, material)];
      i := i + 1;
    }
    assert refs[..i] == refs;
  }

  // ---------------------------------------------------------------- node tags

  /** The mesh index loop of BuildNodeGraph: the last mesh so far that carries the node's name. */
  function LastMeshIndex(meshes: seq<MeshData>, name: string): (r: Option<nat>)
    ensures r.None? <==> forall i :: 0 <= i < |meshes| ==> meshes[i].nodeName != name
    ensures r.Some? ==> && r.value < |meshes| && meshes[r.value].nodeName == name
                        && forall i :: r.value < i < |meshes| ==> meshes[i].nodeName != name
  {
    if |meshes| == 0 then None
    else if meshes[|meshes| - 1].nodeName == name then Some(|meshes| - 1)
    else
      var r := LastMeshIndex(meshes[..|meshes| - 1], name);
      assert forall i :: 0 <= i < |meshes| - 1 ==> meshes[..|meshes| - 1][i] == meshes[i];
      r
  }

  method FindMeshIndex(meshes: seq<MeshData>, name: string) returns (meshIndex: Option<nat>)
    ensures meshIndex == LastMeshIndex(meshes, name)
  {
    meshIndex := None;
    var i := 0;
    while i < |meshes|
      invariant 0 <= i <= |meshes|
      invariant meshIndex == LastMeshIndex(meshes[..i], name)
    {
      assert meshes[..i + 1][..i] == meshes[..i];
      if meshes[i].nodeName == name {
        meshIndex := Some(i);
      }
      i := i + 1;
    }
    assert meshes[..i] == meshes;
  }

  /**
   * The animation index loops of BuildNodeGraph. For animation i the inner loop over j
   * compares track i (not track j) with the node's name, so a match is the last animation
   * i whose track i has the name, and the track index recorded is the last j, the
   * animation's track count minus one.
   */
  function AnimationMatch(animations: seq<Animation>, name: string): (r: Option<(nat, nat)>)
    requires Indexable(animations)
    ensures r.None? <==> forall i :: 0 <= i < |animations| && 0 < |animations[i].nodeAnimations| ==>
                           animations[i].nodeAnimations[i].name != name
    ensures r.Some? ==>
              var i := r.value.0;
              && i < |animations| && 0 < |animations[i].nodeAnimations|
              && animations[i].nodeAnimations[i].name == name
              && r.value.1 == |animations[i].nodeAnimations| - 1
              && forall i' :: i < i' < |animations| && 0 < |animations[i'].nodeAnimations| ==>
                   animations[i'].nodeAnimations[i'].name != name
  {
    if |animations| == 0 then None
    else
      var i := |animations| - 1;
      var tracks := animations[i].nodeAnimations;
      if 0 < |tracks| && tracks[i].name == name then Some((i, |tracks| - 1))
      else
        var init := animations[..i];
        assert forall k :: 0 <= k < i ==> init[k] == animations[k];
        AnimationMatch(init, name)
  }

  method FindAnimationIndex(animations: seq<Animation>, name: string) returns (animationIndex: Option<nat>, nodeAnimationIndex: Option<nat>)
    requires Indexable(animations)
    ensures var r := AnimationMatch(animations, name);
            && animationIndex == (if r.Some? then Some(r.value.0) else None)
            && nodeAnimationIndex == (if r.Some? then Some(r.value.1) else None)
  {
    animationIndex, nodeAnimationIndex := None, None;
    var i := 0;
    while i < |animations|
      invariant 0 <= i <= |animations|
      invariant var r := AnimationMatch(animations[..i], name);
                && animationIndex == (if r.Some? then Some(r.value.0) else None)
                && nodeAnimationIndex == (if r.Some? then Some(r.value.1) else None)
    {
      assert animations[..i + 1][..i] == animations[..i];
      var tracks := animations[i].nodeAnimations;
      var j := 0;
      ghost var before := (animationIndex, nodeAnimationIndex);
      while j < |tracks|
        invariant 0 <= j <= |tracks|
        invariant j == 0 ==> (animationIndex, nodeAnimationIndex) == before
        invariant 0 < j ==> i < |tracks|
        invariant 0 < j && tracks[i].name == name ==> animationIndex == Some(i) && nodeAnimationIndex == Some(j - 1)
        invariant 0 < j && tracks[i].name != name ==> (animationIndex, nodeAnimationIndex) == before
      {
        if tracks[i].name == name {
          animationIndex, nodeAnimationIndex := Some(i), Some(j);
        }
        j := j + 1;
      }
      i := i + 1;
    }
    assert animations[..i] == animations;
  }

  /** Animation 0's lookup reads its track 0: a node whose track sits at position 1 gets no index. */
  lemma TrackAtOtherPositionMissed(a: Animation, other: NodeAnimation, track: NodeAnimation)
    requires other.name != track.name
    ensures AnimationMatch([a.(nodeAnimations := [other, track])], track.name) == None
  {
    var animations := [a.(nodeAnimations := [other, track])];
    assert animations[..0] == [];
  }

  // ---------------------------------------------------------------- node graph

  /** The scene being loaded, the files that exist, and the track type of an unclassified channel. */
  datatype Env = Env(scene: Scene, files: set<string>, unsetKind: TrackType)

  /** What BuildNodeGraph accumulates in ModelData while it walks the tree, and the registry. */
  datatype BuildState = BuildState(meshes: seq<MeshData>, animations: seq<Animation>, registry: map<string, Material>)

  function Extracted(env: Env): seq<Animation>
  {
    ExtractAnimations(env.scene.animations, env.unsetKind)
  }

  /** A scene the importer accepted and whose animation lookups stay in range. */
  predicate Loadable(env: Env)
  {
    WellFormed(env.scene) && Indexable(Extracted(env))
  }

  /** The animations after entering a node: extracted at the root when there are none yet. */
  function AnimationsAt(env: Env, atRoot: bool, animations: seq<Animation>): seq<Animation>
  {
    if atRoot && |animations| == 0 then Extracted(env) else animations
  }

  /** From position `from` on, `meshes` holds one mesh converted from each of `refs`, in order. */
  predicate MeshesInOrder(meshes: seq<MeshData>, from: nat, scene: Scene, refs: seq<nat>)
  {
    && |meshes| == from + |refs|
    && forall k :: 0 <= k < |refs| ==> refs[k] < |scene.meshes| && ConvertedFrom(meshes[from + k], scene.meshes[refs[k]])
  }

  lemma MeshesInOrderAppend(first: seq<MeshData>, all: seq<MeshData>, from: nat, scene: Scene, refs1: seq<nat>, refs2: seq<nat>)
    requires MeshesInOrder(first, from, scene, refs1) && first <= all && MeshesInOrder(all, |first|, scene, refs2)
    ensures MeshesInOrder(all, from, scene, refs1 + refs2)
  {
    var refs := refs1 + refs2;
    forall k | 0 <= k < |refs|
      ensures refs[k] < |scene.meshes| && ConvertedFrom(all[from + k], scene.meshes[refs[k]])
    {
      if k < |refs1| {
        assert all[from + k] == first[from + k];
      } else {
        assert refs[k] == refs2[k - |refs1|];
        assert from + k == |first| + (k - |refs1|);
      }
    }
  }

  /**
   * From position `from` on, the mesh converted from `refs[k]` carries the name `owners[k]`
   * of the node that referenced it, and the material `registry` holds under the name of its
   * scene material, so meshes whose scene materials share a name share one material.
   */
  predicate MeshesTagged(meshes: seq<MeshData>, from: nat, scene: Scene, refs: seq<nat>, owners: seq<string>,
                         registry: map<string, Material>)
  {
    && WellFormed(scene) && from + |refs| <= |meshes| && |owners| == |refs|
    && forall k :: 0 <= k < |refs| ==>
         && refs[k] < |scene.meshes|
         && meshes[from + k].nodeName == owners[k]
         && MaterialOf(scene, refs[k]).name in registry
         && meshes[from + k].material == registry[MaterialOf(scene, refs[k]).name]
  }

  lemma MeshesTaggedAppend(first: seq<MeshData>, all: seq<MeshData>, from: nat, scene: Scene,
                           refs1: seq<nat>, refs2: seq<nat>, owners1: seq<string>, owners2: seq<string>,
                           registry1: map<string, Material>, registry2: map<string, Material>)
    requires MeshesTagged(first, from, scene, refs1, owners1, registry1) && |first| == from + |refs1|
    requires first <= all && MeshesTagged(all, |first|, scene, refs2, owners2, registry2)
    requires Preserves(registry1, registry2)
    ensures MeshesTagged(all, from, scene, refs1 + refs2, owners1 + owners2, registry2)
  {
    var refs, owners := refs1 + refs2, owners1 + owners2;
    forall k | 0 <= k < |refs|
      ensures && refs[k] < |scene.meshes|
              && all[from + k].nodeName == owners[k]
              && MaterialOf(scene, refs[k]).name in registry2
              && all[from + k].material == registry2[MaterialOf(scene, refs[k]).name]
    {
      if k < |refs1| {
        assert all[from + k] == first[from + k];
        assert refs[k] == refs1[k] && owners[k] == owners1[k];
      } else {
        assert refs[k] == refs2[k - |refs1|] && owners[k] == owners2[k - |refs1|];
        assert from + k == |first| + (k - |refs1|);
      }
    }
  }

  /** A built node has the name of its source node and one child per source child, recursively. */
  predicate Mirrors(n: Node, source: SourceNode)
    decreases source
  {
    && n.name == source.name
    && |n.children| == |source.children|
    && forall k :: 0 <= k < |source.children| ==> Mirrors(n.children[k], source.children[k])
  }

  /**
   * Every index a node of the graph holds is in range and points at something of the
   * node's name: a mesh of `meshes`, or animation i whose track i is named like the node,
   * with the recorded track index the last of that animation.
   */
  predicate TagsValid(n: Node, meshes: seq<MeshData>, animations: seq<Animation>)
    decreases n
  {
    && (n.meshIndex.Some? ==> n.meshIndex.value < |meshes| && meshes[n.meshIndex.value].nodeName == n.name)
    && (n.animationIndex.Some? <==> n.nodeAnimationIndex.Some?)
    && (n.animationIndex.Some? ==>
          var i := n.animationIndex.value;
          && i < |animations| && i < |animations[i].nodeAnimations|
          && animations[i].nodeAnimations[i].name == n.name
          && n.nodeAnimationIndex.value == |animations[i].nodeAnimations| - 1)
    && (forall c :: c in n.children ==> TagsValid(c, meshes, animations))
  }

  /** Appending meshes keeps every index of a graph valid. */
  lemma {:induction false} TagsValidGrow(n: Node, meshes: seq<MeshData>, more: seq<MeshData>, animations: seq<Animation>)
    requires TagsValid(n, meshes, animations) && meshes <= more
    ensures TagsValid(n, more, animations)
    decreases n
  {
    forall c | c in n.children
      ensures TagsValid(c, more, animations)
    {
      TagsValidGrow(c, meshes, more, animations);
    }
  }

  /** After appending meshes of its own, a node finds the last of them. */
  lemma OwnMeshesFound(before: seq<MeshData>, own: seq<MeshData>, name: string)
    requires forall k :: 0 <= k < |own| ==> own[k].nodeName == name
    ensures 0 < |own| ==> LastMeshIndex(before + own, name) == Some(|before| + |own| - 1)
    ensures LastMeshIndex(before + own, name).None? <==>
              |own| == 0 && forall i :: 0 <= i < |before| ==> before[i].nodeName != name
  {
    var all := before + own;
    if 0 < |own| {
      assert all[|all| - 1] == own[|own| - 1];
    } else {
      assert all == before;
    }
  }

  /** A node tagged by the two lookups over the state at its visit keeps valid tags as meshes are appended. */
  lemma NodeTagsValid(n: Node, meshes: seq<MeshData>, more: seq<MeshData>, animations: seq<Animation>)
    requires Indexable(animations) && meshes <= more
    requires n.meshIndex == LastMeshIndex(meshes, n.name)
    requires var found := AnimationMatch(animations, n.name);
             && n.animationIndex == (if found.Some? then Some(found.value.0) else None)
             && n.nodeAnimationIndex == (if found.Some? then Some(found.value.1) else None)
    requires forall k :: 0 <= k < |n.children| ==> TagsValid(n.children[k], more, animations)
    ensures TagsValid(n, more, animations)
  {
    if n.meshIndex.Some? {
      assert more[n.meshIndex.value] == meshes[n.meshIndex.value];
    }
  }

  /**
   * BuildNodeGraph on one node before its children: the animations, the node's own meshes
   * and the node's name and indices.
   */
  function Visit(env: Env, node: SourceNode, atRoot: bool, st: BuildState): (r: (Node, BuildState))
    requires Loadable(env) && RefsValid(env.scene, node.meshes) && Indexable(st.animations)
    ensures r.0.name == node.name && r.0.children == []
    ensures r.1.animations == AnimationsAt(env, atRoot, st.animations) && Indexable(r.1.animations)
    ensures Preserves(st.registry, r.1.registry)
  {
    var animations := AnimationsAt(env, atRoot, st.animations);
    var own := MeshesOf(env.scene, node.meshes, node.name, st.registry, env.files);
    var meshes := st.meshes + own.0;
    var found := AnimationMatch(animations, node.name);
    var n := Node(node.name, LastMeshIndex(meshes, node.name),
                  if found.Some? then Some(found.value.0) else None,
                  if found.Some? then Some(found.value.1) else None,
                  []);
    (n, BuildState(meshes, animations, own.1))
  }

  /** A visited node's meshes follow the earlier ones, converted from its mesh references in order. */
  lemma VisitMeshes(env: Env, node: SourceNode, atRoot: bool, st: BuildState)
    requires Loadable(env) && RefsValid(env.scene, node.meshes) && Indexable(st.animations)
    ensures var r := Visit(env, node, atRoot, st);
            && st.meshes <= r.1.meshes && MeshesInOrder(r.1.meshes, |st.meshes|, env.scene, node.meshes)
            && MeshesTagged(r.1.meshes, |st.meshes|, env.scene, node.meshes, OwnMeshOwners(node), r.1.registry)
  {
    var own := MeshesOf(env.scene, node.meshes, node.name, st.registry, env.files);
    var meshes := st.meshes + own.0;
    assert Visit(env, node, atRoot, st).1 == BuildState(meshes, AnimationsAt(env, atRoot, st.animations), own.1);
    var owners := OwnMeshOwners(node);
    forall k | 0 <= k < |node.meshes|
      ensures && node.meshes[k] < |env.scene.meshes|
              && ConvertedFrom(meshes[|st.meshes| + k], env.scene.meshes[node.meshes[k]])
              && meshes[|st.meshes| + k].nodeName == owners[k]
              && MaterialOf(env.scene, node.meshes[k]).name in own.1
              && meshes[|st.meshes| + k].material == own.1[MaterialOf(env.scene, node.meshes[k]).name]
    {
      assert meshes[|st.meshes| + k] == own.0[k];
    }
  }

  /**
   * A visited node's indices are the two lookups over the state at its visit: a node with
   * meshes of its own points at the last of them.
   */
  lemma VisitIndices(env: Env, node: SourceNode, atRoot: bool, st: BuildState)
    requires Loadable(env) && RefsValid(env.scene, node.meshes) && Indexable(st.animations)
    ensures var r := Visit(env, node, atRoot, st);
            && r.0.meshIndex == LastMeshIndex(r.1.meshes, node.name)
            && (0 < |node.meshes| ==> r.0.meshIndex == Some(|st.meshes| + |node.meshes| - 1))
            && (r.0.meshIndex.None? <==> |node.meshes| == 0 && forall i :: 0 <= i < |st.meshes| ==> st.meshes[i].nodeName != node.name)
            && var found := AnimationMatch(r.1.animations, node.name);
               && r.0.animationIndex == (if found.Some? then Some(found.value.0) else None)
               && r.0.nodeAnimationIndex == (if found.Some? then Some(found.value.1) else None)
  {
    var own := MeshesOf(env.scene, node.meshes, node.name, st.registry, env.files);
    assert Visit(env, node, atRoot, st).1.meshes == st.meshes + own.0;
    OwnMeshesFound(st.meshes, own.0, node.name);
  }

  /**
   * BuildNodeGraph on one node and its subtree: the built node and the state afterwards.
   * The node's meshes are appended before its mesh index is looked up, and its children
   * are built in order after it (pre-order).
   */
  function BuildNode(env: Env, node: SourceNode, atRoot: bool, st: BuildState): (r: (Node, BuildState))
    requires Loadable(env) && NodeRefsValid(node, |env.scene.meshes|) && Indexable(st.animations)
    ensures Mirrors(r.0, node)
    ensures TagsValid(r.0, r.1.meshes, r.1.animations)
    ensures st.meshes <= r.1.meshes && MeshesInOrder(r.1.meshes, |st.meshes|, env.scene, PreOrderRefs(node))
    ensures MeshesTagged(r.1.meshes, |st.meshes|, env.scene, PreOrderRefs(node), PreOrderOwners(node), r.1.registry)
    ensures r.1.animations == AnimationsAt(env, atRoot, st.animations)
    ensures Preserves(st.registry, r.1.registry)
    decreases node, 1
  {
    var visited := Visit(env, node, atRoot, st);
    VisitMeshes(env, node, atRoot, st);
    VisitIndices(env, node, atRoot, st);
    var children := BuildChildren(env, node.children, visited.1);
    var n := visited.0.(children := children.0);
    MeshesInOrderAppend(visited.1.meshes, children.1.meshes, |st.meshes|, env.scene, node.meshes, ForestRefs(node.children));
    MeshesTaggedAppend(visited.1.meshes, children.1.meshes, |st.meshes|, env.scene, node.meshes, ForestRefs(node.children),
                       OwnMeshOwners(node), ForestOwners(node.children), visited.1.registry, children.1.registry);
    PreservesTransitive(st.registry, visited.1.registry, children.1.registry);
    NodeTagsValid(n, visited.1.meshes, children.1.meshes, visited.1.animations);
    (n, children.1)
  }

  /**
   * A built node with meshes of its own points at the last of them; it has no mesh index
   * exactly when it has no meshes and no earlier mesh carries its name; and it has no
   * animation index exactly when no animation i has a channel i named after it.
   */
  lemma BuildNodeIndices(env: Env, node: SourceNode, atRoot: bool, st: BuildState)
    requires Loadable(env) && NodeRefsValid(node, |env.scene.meshes|) && Indexable(st.animations)
    ensures var r := BuildNode(env, node, atRoot, st);
            && (0 < |node.meshes| ==> r.0.meshIndex == Some(|st.meshes| + |node.meshes| - 1))
            && (r.0.meshIndex.None? <==> |node.meshes| == 0 && forall i :: 0 <= i < |st.meshes| ==> st.meshes[i].nodeName != node.name)
            && (r.0.animationIndex.None? <==>
                  forall i :: 0 <= i < |r.1.animations| && 0 < |r.1.animations[i].nodeAnimations| ==>
                    r.1.animations[i].nodeAnimations[i].name != node.name)
  {
    VisitIndices(env, node, atRoot, st);
  }

  /** BuildNodeGraph on each child in turn, threading the state through. */
  function BuildChildren(env: Env, children: seq<SourceNode>, st: BuildState): (r: (seq<Node>, BuildState))
    requires Loadable(env) && Indexable(st.animations)
    requires forall c :: c in children ==> NodeRefsValid(c, |env.scene.meshes|)
    ensures |r.0| == |children|
    ensures forall k :: 0 <= k < |children| ==> Mirrors(r.0[k], children[k]) && TagsValid(r.0[k], r.1.meshes, r.1.animations)
    ensures st.meshes <= r.1.meshes && MeshesInOrder(r.1.meshes, |st.meshes|, env.scene, ForestRefs(children))
    ensures MeshesTagged(r.1.meshes, |st.meshes|, env.scene, ForestRefs(children), ForestOwners(children), r.1.registry)
    ensures r.1.animations == st.animations
    ensures Preserves(st.registry, r.1.registry)
    decreases children, 0
  {
    if |children| == 0 then ([], st)
    else
      var init := children[..|children| - 1];
      assert forall c :: c in init ==> c in children;
      var prev := BuildChildren(env, init, st);
      var last := BuildNode(env, children[|children| - 1], false, prev.1);
      MeshesInOrderAppend(prev.1.meshes, last.1.meshes, |st.meshes|, env.scene, ForestRefs(init), PreOrderRefs(children[|children| - 1]));
      MeshesTaggedAppend(prev.1.meshes, last.1.meshes, |st.meshes|, env.scene, ForestRefs(init), PreOrderRefs(children[|children| - 1]),
                         ForestOwners(init), PreOrderOwners(children[|children| - 1]), prev.1.registry, last.1.registry);
      ChildAppended(children, prev.0, last.0, prev.1.meshes, last.1.meshes, last.1.animations);
      PreservesTransitive(st.registry, prev.1.registry, last.1.registry);
      (prev.0 + [last.0], last.1)
  }

  /** Appending a built child keeps the earlier children's tags valid over the grown mesh list. */
  lemma ChildAppended(children: seq<SourceNode>, built: seq<Node>, child: Node,
                      meshes: seq<MeshData>, more: seq<MeshData>, animations: seq<Animation>)
    requires 0 < |children| && |built| == |children| - 1 && meshes <= more
    requires forall k :: 0 <= k < |built| ==> Mirrors(built[k], children[k]) && TagsValid(built[k], meshes, animations)
    requires Mirrors(child, children[|children| - 1]) && TagsValid(child, more, animations)
    ensures forall k :: 0 <= k < |children| ==>
              Mirrors((built + [child])[k], children[k]) && TagsValid((built + [child])[k], more, animations)
  {
    var all := built + [child];
    forall k | 0 <= k < |children|
      ensures Mirrors(all[k], children[k]) && TagsValid(all[k], more, animations)
    {
      if k < |built| {
        assert all[k] == built[k];
        TagsValidGrow(built[k], meshes, more, animations);
      }
    }
  }

  /**
   * LoadModelData as a function of the imported scene and the registry: a failed import
   * gives an empty ModelData and leaves the registry alone; otherwise the graph is built
   * from the root with an empty ModelData.
   */
  function Load(scene: Option<Scene>, registry: map<string, Material>, files: set<string>, unsetKind: TrackType)
    : (r: (ModelData, map<string, Material>))
    requires !ImportFailed(scene) ==> Loadable(Env(scene.value, files, unsetKind))
    ensures ImportFailed(scene) ==> r == (EmptyModelData, registry)
    ensures !ImportFailed(scene) ==>
              && Mirrors(r.0.nodeGraph, scene.value.root.value)
              && TagsValid(r.0.nodeGraph, r.0.meshes, r.0.animations)
              && MeshesInOrder(r.0.meshes, 0, scene.value, PreOrderRefs(scene.value.root.value))
              && MeshesTagged(r.0.meshes, 0, scene.value, PreOrderRefs(scene.value.root.value),
                              PreOrderOwners(scene.value.root.value), r.1)
              && r.0.animations == ExtractAnimations(scene.value.animations, unsetKind)
              && Preserves(registry, r.1)
  {
    if ImportFailed(scene) then (EmptyModelData, registry)
    else
      var built := BuildNode(Env(scene.value, files, unsetKind), scene.value.root.value, true, BuildState([], [], registry));
      (ModelData(built.0, built.1.meshes, built.1.animations), built.1.registry)
  }

  /**
   * In a loaded model, the k-th mesh belongs to the k-th node in pre-order that references a
   * mesh, and two meshes whose scene materials have the same name hold the same material.
   */
  lemma LoadSharesMaterials(scene: Option<Scene>, registry: map<string, Material>, files: set<string>, unsetKind: TrackType)
    requires !ImportFailed(scene) && Loadable(Env(scene.value, files, unsetKind))
    ensures var refs := PreOrderRefs(scene.value.root.value);
            var meshes := Load(scene, registry, files, unsetKind).0.meshes;
            && |meshes| == |refs|
            && (forall k :: 0 <= k < |refs| ==> meshes[k].nodeName == PreOrderOwners(scene.value.root.value)[k])
            && forall i, j :: 0 <= i < |refs| && 0 <= j < |refs| && refs[i] < |scene.value.meshes| && refs[j] < |scene.value.meshes|
                 && MaterialOf(scene.value, refs[i]).name == MaterialOf(scene.value, refs[j]).name
                 ==> meshes[i].material == meshes[j].material
  {
  }

  /** The ModelData that BuildNodeGraph fills in place: its mesh list and its animations. */
  class ModelBuilder {
    var meshes: seq<MeshData>
    var animations: seq<Animation>

    constructor ()
      ensures meshes == [] && animations == []
    {
      meshes := [];
      animations := [];
    }

    function State(registry: MaterialRegistry): BuildState
      reads this, registry
    {
      BuildState(meshes, animations, registry.materials)
    }

    /** The part of BuildNodeGraph before the children: animations, own meshes, indices. */
    method VisitNode(env: Env, node: SourceNode, atRoot: bool, registry: MaterialRegistry) returns (visited: Node)
      requires Loadable(env) && RefsValid(env.scene, node.meshes) && Indexable(animations)
      modifies this, registry
      ensures (visited, State(registry)) == Visit(env, node, atRoot, old(State(registry)))
    {
      ghost var st := State(registry);
      ghost var expected := MeshesOf(env.scene, node.meshes, node.name, st.registry, env.files);
      if atRoot && |animations| == 0 {
        animations := ProcessAnimations(env.scene, env.unsetKind);
      }
      assert animations == AnimationsAt(env, atRoot, st.animations);
      if 0 < |node.meshes| {
        var own := ProcessMeshes(env.scene, node.meshes, node.name, env.files, registry);
        meshes := meshes + own;
      }
      assert meshes == st.meshes + expected.0 && registry.materials == expected.1;
      var meshIndex := FindMeshIndex(meshes, node.name);
      var animationIndex, nodeAnimationIndex := FindAnimationIndex(animations, node.name);
      visited := Node(node.name, meshIndex, animationIndex, nodeAnimationIndex, []);
    }

    /**
     * BuildNodeGraph: visit the node, then build its children in order, each in the state
     * the previous one left.
     */
    method BuildNodeGraph(env: Env, node: SourceNode, atRoot: bool, registry: MaterialRegistry) returns (n: Node)
      requires Loadable(env) && NodeRefsValid(node, |env.scene.meshes|) && Indexable(animations)
      modifies this, registry
      ensures (n, State(registry)) == BuildNode(env, node, atRoot, old(State(registry)))
      decreases node, 1
    {
      var visited := VisitNode(env, node, atRoot, registry);
      var children := BuildChildNodes(env, node.children, registry);
      n := visited.(children := children);
    }

    /** The loop of BuildNodeGraph over a node's children. */
    method BuildChildNodes(env: Env, children: seq<SourceNode>, registry: MaterialRegistry) returns (built: seq<Node>)
      requires Loadable(env) && Indexable(animations)
      requires forall c :: c in children ==> NodeRefsValid(c, |env.scene.meshes|)
      modifies this, registry
      ensures (built, State(registry)) == BuildChildren(env, children, old(State(registry)))
      decreases children, 0
    {
      ghost var start := State(registry);
      built := [];
      var i := 0;
      while i < |children|
        invariant 0 <= i <= |children|
        invariant forall c :: c in children[..i] ==> c in children
        invariant (built, State(registry)) == BuildChildren(env, children[..i], start)
        invariant animations == start.animations
      {
        ghost var prefix := children[..i + 1];
        assert prefix[..i] == children[..i] && prefix[i] == children[i];
        ghost var before := State(registry);
        var child := BuildNodeGraph(env, children[i], false, registry);
        assert (child, State(registry)) == BuildNode(env, children[i], false, before);
        assert BuildChildren(env, prefix, start) == (built + [child], State(registry));
        built := built + [child];
        i := i + 1;
      }
      assert children[..i] == children;
    }
  }

  /**
   * LoadModelData: a failed import returns an empty ModelData; otherwise the node graph
   * is built from the root into a fresh ModelData.
   */
  method LoadModelData(scene: Option<Scene>, files: set<string>, unsetKind: TrackType, registry: MaterialRegistry)
    returns (model: ModelData)
    requires !ImportFailed(scene) ==> Loadable(Env(scene.value, files, unsetKind))
    modifies registry
    ensures (model, registry.materials) == Load(scene, old(registry.materials), files, unsetKind)
  {
    if ImportFailed(scene) {
      return EmptyModelData;
    }
    var builder := new ModelBuilder();
    var root := builder.BuildNodeGraph(Env(scene.value, files, unsetKind), scene.value.root.value, true, registry);
    model := ModelData(root, builder.meshes, builder.animations);
  }
}
