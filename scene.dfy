/**
 * The imported scene the loaders read: the part of Assimp's aiScene that they look at,
 * as plain values. Raw pointers become indices into the scene's mesh and material
 * lists; a null pointer becomes `None`.
 */
module Scene {
  import opened Wrappers
  import opened AnimationData

  datatype Colour = Colour(r: real, g: real, b: real, a: real)

  /** The face index lists of a mesh concatenated in face order. */
  function Flatten(faces: seq<seq<nat>>): (indices: seq<nat>)
  {
    if |faces| == 0 then [] else Flatten(faces[..|faces| - 1]) + faces[|faces| - 1]
  }

  /** Concatenating the faces of two face lists is concatenating their index lists. */
  lemma {:induction false} FlattenAppend(a: seq<seq<nat>>, b: seq<seq<nat>>)
    ensures Flatten(a + b) == Flatten(a) + Flatten(b)
    decreases |b|
  {
    if |b| == 0 {
      assert a + b == a;
    } else {
      var b' := b[..|b| - 1];
      assert (a + b)[..|a + b| - 1] == a + b';
      FlattenAppend(a, b');
    }
  }

  /** A triangulated mesh has three indices per face. */
  lemma {:induction false} FlattenTriangles(faces: seq<seq<nat>>)
    requires forall f :: 0 <= f < |faces| ==> |faces[f]| == 3
    ensures |Flatten(faces)| == 3 * |faces|
  {
    if |faces| > 0 {
      FlattenTriangles(faces[..|faces| - 1]);
    }
  }

  /** One entry of a bone's weight list: the vertex it moves and by how much. */
  datatype VertexWeight = VertexWeight(vertexId: nat, weight: real)

  datatype SourceBone = SourceBone(weights: seq<VertexWeight>)

  /**
   * An aiMesh. Each optional per-vertex stream is `None` when the mesh does not have it
   * (HasPositions, HasTextureCoords(0), HasNormals, HasTangentsAndBitangents,
   * HasVertexColors(0)); `faces` holds each face's index list.
   */
  datatype SourceMesh = SourceMesh(
    name: string,
    numVertices: nat,
    positions: Option<seq<Vec3>>,
    texCoords: Option<seq<Vec3>>,
    normals: Option<seq<Vec3>>,
    tangents: Option<seq<Vec3>>,
    bitangents: Option<seq<Vec3>>,
    colours: Option<seq<Colour>>,
    faces: seq<seq<nat>>,
    bones: seq<SourceBone>,
    materialIndex: nat)

  /**
   * An aiMaterial: its AI_MATKEY_NAME and, per aiTextureType value, the texture paths that
   * GetTextureCount/GetTexture enumerate (a type absent from the map has none).
   */
  datatype SourceMaterial = SourceMaterial(name: string, texturePaths: map<nat, seq<string>>)

  /** The paths a material lists for one texture type, in GetTexture order. */
  function TexturePaths(material: SourceMaterial, textureType: nat): (paths: seq<string>)
    ensures textureType !in material.texturePaths ==> paths == []
  {
    if textureType in material.texturePaths then material.texturePaths[textureType] else []
  }

  /** aiTextureType values (Assimp 5.0 numbering). */
  const AiNone: nat := 0
  const AiDiffuse: nat := 1
  const AiSpecular: nat := 2
  const AiAmbient: nat := 3
  const AiEmissive: nat := 4
  const AiHeight: nat := 5
  const AiNormals: nat := 6
  const AiShininess: nat := 7
  const AiOpacity: nat := 8
  const AiDisplacement: nat := 9
  const AiLightmap: nat := 10
  const AiReflection: nat := 11
  const AiBaseColor: nat := 12
  const AiNormalCamera: nat := 13
  const AiEmissionColor: nat := 14
  const AiMetalness: nat := 15
  const AiDiffuseRoughness: nat := 16
  const AiAmbientOcclusion: nat := 17
  const AiUnknown: nat := 18

  /**
   * AI_TEXTURE_TYPE_MAX, defined as aiTextureType_UNKNOWN: loops over texture types stop
   * before UNKNOWN.
   */
  const AiTextureTypeMax: nat := AiUnknown

  datatype VectorKey = VectorKey(time: real, value: Vec3)

  /** An aiQuatKey; the key's quaternion is stored as (w, x, y, z). */
  datatype QuatKey = QuatKey(time: real, w: real, x: real, y: real, z: real)

  /** An aiNodeAnim channel. */
  datatype SourceChannel = SourceChannel(
    nodeName: string,
    positionKeys: seq<VectorKey>,
    rotationKeys: seq<QuatKey>,
    scalingKeys: seq<VectorKey>)

  datatype SourceAnimation = SourceAnimation(duration: real, ticksPerSecond: real, channels: seq<SourceChannel>)

  /** An aiNode: its name, the indices of its meshes in the scene, and its children in order. */
  datatype SourceNode = SourceNode(name: string, meshes: seq<nat>, children: seq<SourceNode>)

  /**
   * An aiScene. `incomplete` is the AI_SCENE_FLAGS_INCOMPLETE bit of mFlags and `root` is
   * mRootNode.
   */
  datatype Scene = Scene(
    incomplete: bool,
    root: Option<SourceNode>,
    meshes: seq<SourceMesh>,
    materials: seq<SourceMaterial>,
    animations: seq<SourceAnimation>)

  /** Every mesh index held by `node` or a descendant names a mesh of the scene. */
  predicate NodeRefsValid(node: SourceNode, meshCount: nat)
    decreases node
  {
    && (forall k :: 0 <= k < |node.meshes| ==> node.meshes[k] < meshCount)
    && (forall c :: c in node.children ==> NodeRefsValid(c, meshCount))
  }

  /** The mesh indices of a subtree in pre-order: a node's own meshes, then each child's subtree in turn. */
  function PreOrderRefs(node: SourceNode): (refs: seq<nat>)
    decreases node, 1
  {
    node.meshes + ForestRefs(node.children)
  }

  function ForestRefs(nodes: seq<SourceNode>): (refs: seq<nat>)
    decreases nodes, 0
  {
    if |nodes| == 0 then [] else ForestRefs(nodes[..|nodes| - 1]) + PreOrderRefs(nodes[|nodes| - 1])
  }

  /** The node's name once for each mesh it references itself. */
  function OwnMeshOwners(node: SourceNode): (owners: seq<string>)
    ensures |owners| == |node.meshes|
    ensures forall k :: 0 <= k < |owners| ==> owners[k] == node.name
  {
    seq(|node.meshes|, _ => node.name)
  }

  /** The name of the node that references each entry of PreOrderRefs(node), position by position. */
  function PreOrderOwners(node: SourceNode): (owners: seq<string>)
    ensures |owners| == |PreOrderRefs(node)|
    decreases node, 1
  {
    OwnMeshOwners(node) + ForestOwners(node.children)
  }

  function ForestOwners(nodes: seq<SourceNode>): (owners: seq<string>)
    ensures |owners| == |ForestRefs(nodes)|
    decreases nodes, 0
  {
    if |nodes| == 0 then [] else ForestOwners(nodes[..|nodes| - 1]) + PreOrderOwners(nodes[|nodes| - 1])
  }

  /** Every mesh index of `refs` names a mesh of the scene. */
  predicate RefsValid(scene: Scene, refs: seq<nat>)
  {
    forall k :: 0 <= k < |refs| ==> refs[k] < |scene.meshes|
  }

  /** A subtree with valid mesh indices lists only meshes of the scene in pre-order. */
  lemma {:induction false} PreOrderRefsValid(node: SourceNode, scene: Scene)
    requires NodeRefsValid(node, |scene.meshes|)
    ensures RefsValid(scene, PreOrderRefs(node))
    decreases node, 1
  {
    ForestRefsValid(node.children, scene);
  }

  lemma {:induction false} ForestRefsValid(nodes: seq<SourceNode>, scene: Scene)
    requires forall c :: c in nodes ==> NodeRefsValid(c, |scene.meshes|)
    ensures RefsValid(scene, ForestRefs(nodes))
    decreases nodes, 0
  {
    if |nodes| > 0 {
      var init := nodes[..|nodes| - 1];
      assert forall c :: c in init ==> c in nodes;
      ForestRefsValid(init, scene);
      PreOrderRefsValid(nodes[|nodes| - 1], scene);
    }
  }

  /** Each present per-vertex stream has one entry per vertex. */
  predicate StreamsMatch(mesh: SourceMesh)
  {
    && (mesh.positions.Some? ==> |mesh.positions.value| == mesh.numVertices)
    && (mesh.texCoords.Some? ==> |mesh.texCoords.value| == mesh.numVertices)
    && (mesh.normals.Some? ==> |mesh.normals.value| == mesh.numVertices)
    && (mesh.tangents.Some? ==> |mesh.tangents.value| == mesh.numVertices)
    && (mesh.bitangents.Some? ==> |mesh.bitangents.value| == mesh.numVertices)
    && (mesh.colours.Some? ==> |mesh.colours.value| == mesh.numVertices)
  }

  /**
   * The guarantees the importer gives about a scene it returns: node mesh indices, mesh
   * material indices and per-vertex streams are all in range.
   */
  predicate WellFormed(scene: Scene)
  {
    && (scene.root.Some? ==> NodeRefsValid(scene.root.value, |scene.meshes|))
    && (forall m :: 0 <= m < |scene.meshes| ==>
          StreamsMatch(scene.meshes[m]) && scene.meshes[m].materialIndex < |scene.materials|)
  }

  /** The scene material of scene mesh `m`. */
  function MaterialOf(scene: Scene, m: nat): SourceMaterial
    requires WellFormed(scene) && m < |scene.meshes|
  {
    scene.materials[scene.meshes[m].materialIndex]
  }

  /**
   * The failed-import test both loaders make: a null scene, a scene flagged incomplete, or
   * one without a root node.
   */
  predicate ImportFailed(scene: Option<Scene>)
  {
    scene.None? || scene.value.incomplete || scene.value.root.None?
  }
}
