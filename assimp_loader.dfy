/**
 * The older Assimp loader: every mesh referenced by the node tree, collected in pre-order
 * into one static list. Each mesh gets its vertices, its face indices, and a material
 * holding one texture per file path its scene material lists.
 *
 * The path lister stands for the loader's own GetMaterialFilePath, whose duplicate scan
 * starts from an uninitialised iterator: whatever it returns is taken as given.
 */
module AssimpLoader {
  import opened Wrappers
  import opened AnimationData
  import opened Scene
  import MD = ModelData
  import ML = ModelLoader

  /** The loader's vertex: position, texture coordinate, texture slot, normal and colour. */
  datatype Vertex = Vertex(position: MD.Vec4, texCoord: MD.Vec2, texId: real, normal: MD.Vec4, colour: MD.Vec4)

  /** The GEAR_TEXTURE_* types of the material the loader fills. */
  datatype GearTextureType =
    | Unknown | Diffuse | Specular | Ambient | Emissive | Height | Normal
    | Smoothness | Opacity | AmbientOcclusion | Reflection

  /** One AddTexture call on a mesh's material: a texture made from `path`, filed under `kind`. */
  datatype TextureBinding = TextureBinding(path: string, kind: GearTextureType)

  /** A loaded mesh; `textures` lists the material's AddTexture calls in order. */
  datatype Mesh = Mesh(vertices: seq<Vertex>, indices: seq<nat>, textures: seq<TextureBinding>)

  /** What the material's path lookup returns for a material and an aiTextureType. */
  type PathLister = (SourceMaterial, nat) -> seq<string>

  /** The switch from an aiTextureType to a GEAR texture type; NONE, UNKNOWN and the unlisted types are Unknown. */
  function GearType(aiType: nat): (t: GearTextureType)
    ensures t == Diffuse <==> aiType == AiDiffuse
    ensures t == Specular <==> aiType == AiSpecular
    ensures t == Ambient <==> aiType == AiAmbient
    ensures t == Emissive <==> aiType == AiEmissive
    ensures t == Height <==> aiType == AiHeight
    ensures t == Normal <==> aiType == AiNormals
    ensures t == Smoothness <==> aiType == AiShininess
    ensures t == Opacity <==> aiType == AiOpacity
    ensures t == AmbientOcclusion <==> aiType == AiLightmap
    ensures t == Reflection <==> aiType == AiReflection
    ensures t == Unknown <==> aiType == AiNone || aiType == AiDisplacement || AiReflection < aiType
  {
    if aiType == AiNone then Unknown
    else if aiType == AiDiffuse then Diffuse
    else if aiType == AiSpecular then Specular
    else if aiType == AiAmbient then Ambient
    else if aiType == AiEmissive then Emissive
    else if aiType == AiHeight then Height
    else if aiType == AiNormals then Normal
    else if aiType == AiShininess then Smoothness
    else if aiType == AiOpacity then Opacity
    else if aiType == AiLightmap then AmbientOcclusion
    else if aiType == AiReflection then Reflection
    else if aiType == AiUnknown then Unknown
    else Unknown
  }

  // ---------------------------------------------------------------- vertices

  /** A vertex from the mesh's streams; a missing stream leaves its attribute at zero and the texture slot is 0. */
  function ConvertVertex(mesh: SourceMesh, i: nat): (v: Vertex)
    requires StreamsMatch(mesh) && i < mesh.numVertices
    ensures v.texId == 0.0
    ensures mesh.positions.Some? ==> v.position.w == 1.0
    ensures mesh.positions.None? ==> v.position == MD.Zero4
    ensures mesh.texCoords.None? ==> v.texCoord == MD.Zero2
    ensures mesh.normals.Some? ==> v.normal.w == 0.0
    ensures mesh.normals.None? ==> v.normal == MD.Zero4
    ensures mesh.colours.None? ==> v.colour == MD.Zero4
  {
    var position := if mesh.positions.Some? then
        var p := mesh.positions.value[i]; MD.Vec4(p.x, p.y, p.z, 1.0)
      else MD.Zero4;
    var texCoord := if mesh.texCoords.Some? then
        var c := mesh.texCoords.value[i]; MD.Vec2(c.x, c.y)
      else MD.Zero2;
    var normal := if mesh.normals.Some? then
        var n := mesh.normals.value[i]; MD.Vec4(n.x, n.y, n.z, 0.0)
      else MD.Zero4;
    var colour := if mesh.colours.Some? then
        var c := mesh.colours.value[i]; MD.Vec4(c.r, c.g, c.b, c.a)
      else MD.Zero4;
    Vertex(position, texCoord, 0.0, normal, colour)
  }

  /** The first `count` vertices of a mesh, converted in order. */
  function Vertices(mesh: SourceMesh, count: nat): (vs: seq<Vertex>)
    requires StreamsMatch(mesh) && count <= mesh.numVertices
    ensures |vs| == count
    ensures forall i :: 0 <= i < count ==> vs[i] == ConvertVertex(mesh, i)
  {
    if count == 0 then [] else Vertices(mesh, count - 1) + [ConvertVertex(mesh, count - 1)]
  }

  /**
   * Both loaders read the same streams the same way: position, texture coordinate, normal
   * and colour agree with ModelLoader's vertex.
   */
  lemma VertexAgreesWithModelLoader(mesh: SourceMesh, i: nat)
    requires StreamsMatch(mesh) && i < mesh.numVertices
    ensures ConvertVertex(mesh, i).position == ML.ConvertVertex(mesh, i).position
    ensures ConvertVertex(mesh, i).texCoord == ML.ConvertVertex(mesh, i).texCoord
    ensures ConvertVertex(mesh, i).normal == ML.ConvertVertex(mesh, i).normal
    ensures ConvertVertex(mesh, i).colour == ML.ConvertVertex(mesh, i).colour
  {
  }

  // ---------------------------------------------------------------- textures

  /** The AddTexture calls for one texture type: one per path, in order. */
  function TypeBindings(filepaths: seq<string>, kind: GearTextureType): (bs: seq<TextureBinding>)
    ensures |bs| == |filepaths|
    ensures forall k :: 0 <= k < |filepaths| ==> bs[k] == TextureBinding(filepaths[k], kind)
  {
    if |filepaths| == 0 then []
    else TypeBindings(filepaths[..|filepaths| - 1], kind) + [TextureBinding(filepaths[|filepaths| - 1], kind)]
  }

  /** The AddTexture calls for texture types 0 .. count-1. */
  function Bindings(material: SourceMaterial, paths: PathLister, count: nat): seq<TextureBinding>
  {
    if count == 0 then []
    else Bindings(material, paths, count - 1) + TypeBindings(paths(material, count - 1), GearType(count - 1))
  }

  /** The number of paths listed for texture types 0 .. count-1. */
  function PathCount(material: SourceMaterial, paths: PathLister, count: nat): nat
  {
    if count == 0 then 0 else PathCount(material, paths, count - 1) + |paths(material, count - 1)|
  }

  /**
   * A material gets exactly one texture per listed path: every binding is a listed path
   * of a type that maps to its kind, every listed path is bound under its type's kind, and
   * there are as many bindings as paths.
   */
  lemma {:induction false} BindingsMatchPaths(material: SourceMaterial, paths: PathLister, count: nat)
    ensures |Bindings(material, paths, count)| == PathCount(material, paths, count)
    ensures forall b :: b in Bindings(material, paths, count) ==>
              exists t :: 0 <= t < count && b.kind == GearType(t) && b.path in paths(material, t)
    ensures forall t, p :: 0 <= t < count && p in paths(material, t) ==>
              TextureBinding(p, GearType(t)) in Bindings(material, paths, count)
  {
    if count > 0 {
      var a := count - 1;
      BindingsMatchPaths(material, paths, a);
      var prev := Bindings(material, paths, a);
      var own := TypeBindings(paths(material, a), GearType(a));
      var all := Bindings(material, paths, count);
      assert all == prev + own;
      forall b | b in all
        ensures exists t :: 0 <= t < count && b.kind == GearType(t) && b.path in paths(material, t)
      {
        if b in own {
          var k :| 0 <= k < |own| && own[k] == b;
          assert b.path == paths(material, a)[k];
        }
      }
      forall t, p | 0 <= t < count && p in paths(material, t)
        ensures TextureBinding(p, GearType(t)) in all
      {
        if t == a {
          var k :| 0 <= k < |paths(material, a)| && paths(material, a)[k] == p;
          assert own[k] == TextureBinding(p, GearType(t));
        }
      }
    }
  }

  // ---------------------------------------------------------------- meshes

  /** ProcessMesh for scene mesh `m`. */
  function ConvertMesh(scene: Scene, m: nat, paths: PathLister): (mesh: Mesh)
    requires WellFormed(scene) && m < |scene.meshes|
  {
    var source := scene.meshes[m];
    Mesh(Vertices(source, source.numVertices), Flatten(source.faces),
         Bindings(MaterialOf(scene, m), paths, AiTextureTypeMax))
  }

  /** The meshes converted from `refs`, in order. */
  function ConvertAll(scene: Scene, refs: seq<nat>, paths: PathLister): (meshes: seq<Mesh>)
    requires WellFormed(scene) && RefsValid(scene, refs)
    ensures |meshes| == |refs|
  {
    if |refs| == 0 then []
    else ConvertAll(scene, refs[..|refs| - 1], paths) + [ConvertMesh(scene, refs[|refs| - 1], paths)]
  }

  /** The k-th converted mesh is the conversion of the k-th reference. */
  lemma {:induction false} ConvertAllAt(scene: Scene, refs: seq<nat>, paths: PathLister)
    requires WellFormed(scene) && RefsValid(scene, refs)
    ensures forall k :: 0 <= k < |refs| ==> ConvertAll(scene, refs, paths)[k] == ConvertMesh(scene, refs[k], paths)
  {
    if |refs| > 0 {
      ConvertAllAt(scene, refs[..|refs| - 1], paths);
    }
  }

  /** Converting two reference lists one after the other is converting their concatenation. */
  lemma {:induction false} ConvertAllAppend(scene: Scene, a: seq<nat>, b: seq<nat>, paths: PathLister)
    requires WellFormed(scene) && RefsValid(scene, a) && RefsValid(scene, b)
    ensures RefsValid(scene, a + b)
    ensures ConvertAll(scene, a + b, paths) == ConvertAll(scene, a, paths) + ConvertAll(scene, b, paths)
    decreases |b|
  {
    if |b| == 0 {
      assert a + b == a;
    } else {
      var b' := b[..|b| - 1];
      assert (a + b)[..|a + b| - 1] == a + b';
      assert (a + b)[|a + b| - 1] == b[|b| - 1];
      ConvertAllAppend(scene, a, b', paths);
    }
  }

  /** ProcessNode's output for a subtree: the node's own meshes, then each child's subtree in turn. */
  function ConvertNode(scene: Scene, node: SourceNode, paths: PathLister): seq<Mesh>
    requires WellFormed(scene) && NodeRefsValid(node, |scene.meshes|)
    decreases node, 1
  {
    ConvertAll(scene, node.meshes, paths) + ConvertForest(scene, node.children, paths)
  }

  function ConvertForest(scene: Scene, nodes: seq<SourceNode>, paths: PathLister): seq<Mesh>
    requires WellFormed(scene) && forall c :: c in nodes ==> NodeRefsValid(c, |scene.meshes|)
    decreases nodes, 0
  {
    if |nodes| == 0 then []
    else
      assert forall c :: c in nodes[..|nodes| - 1] ==> c in nodes;
      ConvertForest(scene, nodes[..|nodes| - 1], paths) + ConvertNode(scene, nodes[|nodes| - 1], paths)
  }

  /** A subtree's meshes are the conversions of its mesh references in pre-order. */
  lemma {:induction false} ConvertNodeInPreOrder(scene: Scene, node: SourceNode, paths: PathLister)
    requires WellFormed(scene) && NodeRefsValid(node, |scene.meshes|)
    ensures (PreOrderRefsValid(node, scene);
             ConvertNode(scene, node, paths) == ConvertAll(scene, PreOrderRefs(node), paths))
    decreases node, 1
  {
    PreOrderRefsValid(node, scene);
    ForestRefsValid(node.children, scene);
    ConvertForestInPreOrder(scene, node.children, paths);
    ConvertAllAppend(scene, node.meshes, ForestRefs(node.children), paths);
  }

  lemma {:induction false} ConvertForestInPreOrder(scene: Scene, nodes: seq<SourceNode>, paths: PathLister)
    requires WellFormed(scene) && forall c :: c in nodes ==> NodeRefsValid(c, |scene.meshes|)
    ensures (ForestRefsValid(nodes, scene);
             ConvertForest(scene, nodes, paths) == ConvertAll(scene, ForestRefs(nodes), paths))
    decreases nodes, 0
  {
    if |nodes| > 0 {
      var init := nodes[..|nodes| - 1];
      var last := nodes[|nodes| - 1];
      assert forall c :: c in init ==> c in nodes;
      ForestRefsValid(init, scene);
      PreOrderRefsValid(last, scene);
      ConvertForestInPreOrder(scene, init, paths);
      ConvertNodeInPreOrder(scene, last, paths);
      ConvertAllAppend(scene, ForestRefs(init), PreOrderRefs(last), paths);
    }
  }

  // ---------------------------------------------------------------- imperative loader

  lemma AppendAssociates(a: seq<Mesh>, b: seq<Mesh>, c: seq<Mesh>)
    ensures (a + b) + c == a + (b + c)
  {
  }

  /** The vertex loop of ProcessMesh. */
  method ProcessVertices(mesh: SourceMesh) returns (vertices: seq<Vertex>)
    requires StreamsMatch(mesh)
    ensures vertices == Vertices(mesh, mesh.numVertices)
  {
    vertices := [];
    var i := 0;
    while i < mesh.numVertices
      invariant 0 <= i <= mesh.numVertices
      invariant vertices == Vertices(mesh, i)
    {
      vertices := vertices + [ConvertVertex(mesh, i)];
      i := i + 1;
    }
  }

  /** The loop over one type's paths: an AddTexture call per path. */
  method AddTypeTextures(textures: seq<TextureBinding>, filepaths: seq<string>, aiType: nat)
    returns (result: seq<TextureBinding>)
    ensures result == textures + TypeBindings(filepaths, GearType(aiType))
  {
    result := textures;
    var k := 0;
    while k < |filepaths|
      invariant 0 <= k <= |filepaths|
      invariant result == textures + TypeBindings(filepaths[..k], GearType(aiType))
    {
      assert filepaths[..k + 1][..k] == filepaths[..k];
      result := result + [TextureBinding(filepaths[k], GearType(aiType))];
      k := k + 1;
    }
    assert filepaths[..k] == filepaths;
  }

  /** The texture loop of ProcessMesh over texture types 0 .. AI_TEXTURE_TYPE_MAX-1. */
  method ProcessTextures(material: SourceMaterial, paths: PathLister) returns (textures: seq<TextureBinding>)
    ensures textures == Bindings(material, paths, AiTextureTypeMax)
  {
    textures := [];
    var i := 0;
    while i < AiTextureTypeMax
      invariant 0 <= i <= AiTextureTypeMax
      invariant textures == Bindings(material, paths, i)
    {
      var filepaths := paths(material, i);
      if |filepaths| != 0 {
        textures := AddTypeTextures(textures, filepaths, i);
      } else {
        assert TypeBindings(filepaths, GearType(i)) == [];
      }
      i := i + 1;
    }
  }

  /** ProcessMesh: vertices, face indices, then the material's textures. */
  method ProcessMesh(scene: Scene, m: nat, paths: PathLister) returns (mesh: Mesh)
    requires WellFormed(scene) && m < |scene.meshes|
    ensures mesh == ConvertMesh(scene, m, paths)
  {
    var source := scene.meshes[m];
    var vertices := ProcessVertices(source);
    var indices := ML.ProcessIndices(source.faces);
    var textures := ProcessTextures(scene.materials[source.materialIndex], paths);
    mesh := Mesh(vertices, indices, textures);
  }

  /** The loader's static mesh list. */
  class Loader {
    var result: seq<Mesh>

    constructor ()
      ensures result == []
    {
      result := [];
    }

    /**
     * LoadModel: a failed import returns no meshes and leaves the list alone; otherwise
     * the list is cleared, filled from the root, and returned.
     */
    method LoadModel(scene: Option<Scene>, paths: PathLister) returns (meshes: seq<Mesh>)
      requires !ImportFailed(scene) ==> WellFormed(scene.value)
      modifies this
      ensures ImportFailed(scene) ==> meshes == [] && result == old(result)
      ensures !ImportFailed(scene) ==>
                && meshes == result
                && (PreOrderRefsValid(scene.value.root.value, scene.value);
                    result == ConvertAll(scene.value, PreOrderRefs(scene.value.root.value), paths))
    {
      if ImportFailed(scene) {
        return [];
      }
      result := [];
      ProcessNode(scene.value.root.value, scene.value, paths);
      ConvertNodeInPreOrder(scene.value, scene.value.root.value, paths);
      meshes := result;
    }

    /** ProcessNode: the node's meshes in order, then each child's subtree in turn. */
    method ProcessNode(node: SourceNode, scene: Scene, paths: PathLister)
      requires WellFormed(scene) && NodeRefsValid(node, |scene.meshes|)
      modifies this
      ensures result == old(result) + ConvertNode(scene, node, paths)
      decreases node, 1
    {
      ProcessOwnMeshes(node.meshes, scene, paths);
      ProcessChildren(node.children, scene, paths);
      AppendAssociates(old(result), ConvertAll(scene, node.meshes, paths), ConvertForest(scene, node.children, paths));
    }

    /** The first loop of ProcessNode: a ProcessMesh call per mesh of the node. */
    method ProcessOwnMeshes(refs: seq<nat>, scene: Scene, paths: PathLister)
      requires WellFormed(scene) && RefsValid(scene, refs)
      modifies this
      ensures result == old(result) + ConvertAll(scene, refs, paths)
    {
      var i := 0;
      while i < |refs|
        invariant 0 <= i <= |refs|
        invariant result == old(result) + ConvertAll(scene, refs[..i], paths)
      {
        assert refs[..i + 1][..i] == refs[..i];
        var mesh := ProcessMesh(scene, refs[i], paths);
        result := result + [mesh];
        i := i + 1;
      }
      assert refs[..i] == refs;
    }

    /** The second loop of ProcessNode: a recursive call per child, in order. */
    method ProcessChildren(children: seq<SourceNode>, scene: Scene, paths: PathLister)
      requires WellFormed(scene) && forall c :: c in children ==> NodeRefsValid(c, |scene.meshes|)
      modifies this
      ensures result == old(result) + ConvertForest(scene, children, paths)
      decreases children, 0
    {
      var j := 0;
      while j < |children|
        invariant 0 <= j <= |children|
        invariant forall c :: c in children[..j] ==> c in children
        invariant result == old(result) + ConvertForest(scene, children[..j], paths)
      {
        var prefix := children[..j + 1];
        assert prefix[..j] == children[..j] && prefix[j] == children[j];
        assert forall c :: c in prefix ==> c in children;
        ProcessNode(children[j], scene, paths);
        AppendAssociates(old(result), ConvertForest(scene, children[..j], paths), ConvertNode(scene, children[j], paths));
        j := j + 1;
      }
      assert children[..j] == children;
    }
  }

  // ---------------------------------------------------------------- both loaders

  /**
   * Meshes ModelLoader gathered for `refs` have the geometry the older loader converts for
   * the same references.
   */
  lemma SameGeometry(scene: Scene, refs: seq<nat>, paths: PathLister, newer: seq<MD.MeshData>)
    requires WellFormed(scene) && RefsValid(scene, refs) && ML.MeshesInOrder(newer, 0, scene, refs)
    ensures var older := ConvertAll(scene, refs, paths);
            && |older| == |newer|
            && forall k :: 0 <= k < |older| ==>
                 && older[k].indices == newer[k].indices
                 && |older[k].vertices| == |newer[k].vertices|
                 && forall i :: 0 <= i < |older[k].vertices| ==> older[k].vertices[i].position == newer[k].vertices[i].position
  {
    var older := ConvertAll(scene, refs, paths);
    ConvertAllAt(scene, refs, paths);
    forall k | 0 <= k < |older|
      ensures older[k].indices == newer[k].indices
      ensures |older[k].vertices| == |newer[k].vertices|
      ensures forall i :: 0 <= i < |older[k].vertices| ==> older[k].vertices[i].position == newer[k].vertices[i].position
    {
      var mesh := scene.meshes[refs[k]];
      assert ML.ConvertedFrom(newer[0 + k], mesh);
      forall i | 0 <= i < |older[k].vertices|
        ensures older[k].vertices[i].position == newer[k].vertices[i].position
      {
        VertexAgreesWithModelLoader(mesh, i);
      }
    }
  }

  /**
   * On a scene both loaders accept, they produce the same meshes in the same order: the
   * same number, and mesh by mesh the same face indices, vertex count and vertex
   * positions.
   */
  lemma LoadersAgreeOnGeometry(scene: Scene, paths: PathLister, registry: map<string, MD.Material>, files: set<string>, unsetKind: TrackType)
    requires !ImportFailed(Some(scene)) && ML.Loadable(ML.Env(scene, files, unsetKind))
    ensures (PreOrderRefsValid(scene.root.value, scene);
            var older := ConvertAll(scene, PreOrderRefs(scene.root.value), paths);
            var newer := ML.Load(Some(scene), registry, files, unsetKind).0.meshes;
            && |older| == |newer|
            && forall k :: 0 <= k < |older| ==>
                 && older[k].indices == newer[k].indices
                 && |older[k].vertices| == |newer[k].vertices|
                 && forall i :: 0 <= i < |older[k].vertices| ==> older[k].vertices[i].position == newer[k].vertices[i].position)
  {
    PreOrderRefsValid(scene.root.value, scene);
    SameGeometry(scene, PreOrderRefs(scene.root.value), paths, ML.Load(Some(scene), registry, files, unsetKind).0.meshes);
  }
}
