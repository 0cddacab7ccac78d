/**
 * What ModelLoader produces: a node graph, the meshes gathered from it, and the
 * animations of the scene.
 */
module ModelData {
  import opened Wrappers
  import opened AnimationData

  datatype Vec2 = Vec2(x: real, y: real)
  datatype Vec4 = Vec4(x: real, y: real, z: real, w: real)

  const Zero2: Vec2 := Vec2(0.0, 0.0)
  const Zero4: Vec4 := Vec4(0.0, 0.0, 0.0, 0.0)

  /** A loader vertex; an attribute the source mesh lacks keeps its zero value. */
  datatype Vertex = Vertex(position: Vec4, texCoord: Vec2, normal: Vec4, tangent: Vec4, binormal: Vec4, colour: Vec4)

  const ZeroVertex: Vertex := Vertex(Zero4, Zero2, Zero4, Zero4, Zero4, Zero4)

  /** A bone's (vertex id, weight) pairs. */
  datatype Bone = Bone(vertexIdsAndWeights: seq<(nat, real)>)

  /** objects::Material::TextureType as ModelLoader uses it. */
  datatype TextureType = Albedo | Normal | Emissive | Metallic | Roughness | AmbientOcclusion | Unknown

  /** A 2D texture created from one file. */
  datatype Texture = Texture(path: string)

  /** A material: its debug name and its PBR textures by type. */
  datatype Material = Material(name: string, textures: map<TextureType, Texture>)

  datatype MeshData = MeshData(
    meshName: string,
    nodeName: string,
    vertices: seq<Vertex>,
    indices: seq<nat>,
    bones: seq<Bone>,
    material: Material)

  /**
   * A node of the built graph. `meshIndex` indexes ModelData.meshes; `animationIndex` and
   * `nodeAnimationIndex` locate a track in ModelData.animations. `None` means never set.
   */
  datatype Node = Node(
    name: string,
    meshIndex: Option<nat>,
    animationIndex: Option<nat>,
    nodeAnimationIndex: Option<nat>,
    children: seq<Node>)

  datatype ModelData = ModelData(nodeGraph: Node, meshes: seq<MeshData>, animations: seq<Animation>)

  const EmptyNode: Node := Node("", None, None, None, [])

  /** A default-constructed ModelData. */
  const EmptyModelData: ModelData := ModelData(EmptyNode, [], [])
}
