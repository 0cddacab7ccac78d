/**
 * The compute passes of Graphics/ImageProcessing.cpp: mipmap generation, equirectangular to
 * cubemap conversion, diffuse and specular irradiance, and the specular BRDF lookup table.
 *
 * Each pass records a command buffer and submits it; here it returns the commands it
 * records, as a trace. Textures are identified by their GPU image; pipelines by the order in
 * which they were created and the pipeline file they were loaded from. The static pipeline
 * slots are the fields of one object. The graphics API is the `isD3D12` flag.
 */
module ImageProcessing {
  import opened Wrappers

  // ---------------------------------------------------------------- commands

  /** Image layouts the passes name; a caller's layout may be any other one. */
  datatype Layout =
    | General
    | ShaderReadOnlyOptimal
    | D3D12UnorderedAccess
    | D3D12NonPixelShaderReadOnlyOptimal
    | OtherLayout(code: nat)

  /** Barrier access bits; a caller's access mask may hold other bits. */
  datatype AccessBit = ShaderRead | ShaderWrite | TransferRead | UniformRead | OtherAccess(code: nat)

  /** Pipeline stages: the passes wait on the compute stage or on the caller's stage. */
  datatype Stage = ComputeShader | OtherStage(code: nat)

  /** The subresources a barrier covers: all of them, or one mip level across `layers` layers. */
  datatype Range = AllSubresources | MipLevel(level: nat, layers: nat)

  datatype ViewType = Type2D | Type2DArray | TypeCube

  /** An image view of one mip level, from layer 0 across `layers` layers. */
  datatype View = View(image: nat, viewType: ViewType, level: nat, layers: nat)

  /** An image descriptor: with or without the texture's sampler, a view and its layout. */
  datatype ImageBinding = ImageBinding(sampled: bool, view: View, layout: Layout)

  /** A descriptor set: its image bindings in binding order, and the uniform buffer of a level, if any. */
  datatype DescriptorSet = DescriptorSet(images: seq<ImageBinding>, uniformLevel: Option<nat>)

  /** A render pipeline: the order in which it was created and the file it was loaded from. */
  datatype Pipeline = Pipeline(id: nat, file: PipelineFile)

  /** A command recorded into a compute command buffer, or the submit and fence wait after it. */
  datatype Command =
    | Barrier(image: nat, srcStage: Stage, range: Range, oldLayout: Layout, newLayout: Layout,
              srcAccess: set<AccessBit>, dstAccess: set<AccessBit>)
    | UniformCopy(level: nat, roughness: real)
    | UniformBarrier(level: nat)
    | BindPipeline(pipeline: Pipeline)
    | BindSets(pipeline: Pipeline, descriptors: DescriptorSet)
    | Dispatch(x: nat, y: nat, z: nat)
    | Submit
    | Wait

  /** The pipeline description files the passes load. */
  datatype PipelineFile =
    | MipmapFile | MipmapArrayFile | EquirectangularToCubeFile | DiffuseIrradianceFile
    | SpecularIrradianceFile | SpecularBRDF_LUTFile

  /** The path each pipeline file is loaded from. */
  function FilePath(f: PipelineFile): string
  {
    match f
    case MipmapFile => "res/pipelines/Mipmap.grpf.json"
    case MipmapArrayFile => "res/pipelines/MipmapArray.grpf.json"
    case EquirectangularToCubeFile => "res/pipelines/EquirectangularToCube.grpf.json"
    case DiffuseIrradianceFile => "res/pipelines/DiffuseIrradiance.grpf.json"
    case SpecularIrradianceFile => "res/pipelines/SpecularIrradiance.grpf.json"
    case SpecularBRDF_LUTFile => "res/pipelines/SpecularBRDF_LUT.grpf.json"
  }

  // ---------------------------------------------------------------- textures

  /**
   * The part of a Texture the passes use: its image, its size, mip levels and array layers,
   * whether mipmaps were requested, and the m_Generated flag GenerateMipMaps sets.
   */
  class Texture {
    const image: nat
    const width: nat
    const height: nat
    const mipLevels: nat
    const arrayLayers: nat
    const generateMipMaps: bool
    var generated: bool

    constructor (image: nat, width: nat, height: nat, mipLevels: nat, arrayLayers: nat, generateMipMaps: bool)
      ensures this.image == image && this.width == width && this.height == height
      ensures this.mipLevels == mipLevels && this.arrayLayers == arrayLayers
      ensures this.generateMipMaps == generateMipMaps && !generated
    {
      this.image := image;
      this.width := width;
      this.height := height;
      this.mipLevels := mipLevels;
      this.arrayLayers := arrayLayers;
      this.generateMipMaps := generateMipMaps;
      generated := false;
    }
  }

  /** A TextureResourceInfo: the texture and the access, layout and stage it is in before the pass. */
  datatype ResourceInfo = ResourceInfo(texture: Texture, srcAccess: set<AccessBit>, oldLayout: Layout, srcStage: Stage)

  // ---------------------------------------------------------------- dispatch sizes

  /** `n >> i` on a uint32 (i < 32): i halvings. */
  function Shr(n: nat, i: nat): (r: nat)
    ensures r <= n
  {
    if i == 0 then n else Shr(n, i - 1) / 2
  }

  /** `std::max(n / tile, 1)`: the work groups covering n texels, at least one. */
  function Groups(n: nat, tile: nat): (g: nat)
    requires 0 < tile
    ensures 1 <= g
    ensures tile <= n ==> tile * g <= n < tile * g + tile
    ensures n < tile ==> g == 1
  {
    var q := n / tile;
    assert n == tile * q + n % tile;
    if q < 1 then 1 else q
  }

  /** Groups is monotone in the texel count, for the passes' tile sizes. */
  lemma GroupsMonotone(m: nat, n: nat, tile: nat)
    requires (tile == 8 || tile == 32) && m <= n
    ensures Groups(m, tile) <= Groups(n, tile)
  {
    if tile <= m {
      assert tile * Groups(m, tile) <= m <= n < tile * Groups(n, tile) + tile;
    }
  }

  /** Deeper mip levels never get more work groups than shallower ones. */
  lemma {:induction false} LevelGroupsNonIncreasing(n: nat, i: nat, j: nat, tile: nat)
    requires (tile == 8 || tile == 32) && i <= j
    ensures Groups(Shr(n, j), tile) <= Groups(Shr(n, i), tile)
    decreases j - i
  {
    if i < j {
      LevelGroupsNonIncreasing(n, i, j - 1, tile);
      GroupsMonotone(Shr(n, j), Shr(n, j - 1), tile);
    }
  }

  /** The roughness SpecularIrradiance gives mip level i of `levels`: float(i) / float(levels). */
  function Roughness(i: nat, levels: nat): (r: real)
    requires i < levels
    ensures 0.0 <= r < 1.0
    ensures i == 0 ==> r == 0.0
  {
    (i as real) / (levels as real)
  }

  /** Rougher levels come later: roughness rises strictly with the level. */
  lemma RoughnessIncreases(i: nat, j: nat, levels: nat)
    requires i < j < levels
    ensures Roughness(i, levels) < Roughness(j, levels)
  {
    var l := levels as real;
    assert (i as real) < (j as real);
    assert (i as real) / l < (j as real) / l;
  }

  // ---------------------------------------------------------------- pipeline slots

  /**
   * The six static pipeline slots (`None` is a null Ref) and the number of pipelines created so
   * far, which is the id the next one gets.
   */
  datatype PipelineSlots = PipelineSlots(
    mipMap: Option<Pipeline>,
    mipMapArray: Option<Pipeline>,
    equirectangularToCube: Option<Pipeline>,
    diffuseIrradiance: Option<Pipeline>,
    specularIrradiance: Option<Pipeline>,
    specularBRDF_LUT: Option<Pipeline>,
    created: nat)

  const NoPipelines: PipelineSlots := PipelineSlots(None, None, None, None, None, None, 0)

  /** `if (!slot) slot = CreateRef<RenderPipeline>(file)`: the slot afterwards and the new creation count. */
  function Lazy(slot: Option<Pipeline>, created: nat, file: PipelineFile): (r: (Option<Pipeline>, nat))
    ensures r.0.Some?
    ensures slot.Some? ==> r == (slot, created)
    ensures slot.None? ==> r == (Some(Pipeline(created, file)), created + 1)
  {
    if slot.Some? then (slot, created) else (Some(Pipeline(created, file)), created + 1)
  }

  /** Pipeline slot p holds a pipeline loaded from `file` with an id below `created`, if any. */
  predicate SlotValid(p: Option<Pipeline>, file: PipelineFile, created: nat)
  {
    p.Some? ==> p.value.file == file && p.value.id < created
  }

  /**
   * Every slot holds a pipeline of its own file, except that the mipmap slot may hold the
   * array pipeline; distinct slots hold distinct pipelines unless the mipmap slot aliases the
   * array slot.
   */
  predicate SlotsValid(s: PipelineSlots)
  {
    && (SlotValid(s.mipMap, MipmapFile, s.created) || s.mipMap == s.mipMapArray)
    && SlotValid(s.mipMapArray, MipmapArrayFile, s.created)
    && SlotValid(s.equirectangularToCube, EquirectangularToCubeFile, s.created)
    && SlotValid(s.diffuseIrradiance, DiffuseIrradianceFile, s.created)
    && SlotValid(s.specularIrradiance, SpecularIrradianceFile, s.created)
    && SlotValid(s.specularBRDF_LUT, SpecularBRDF_LUTFile, s.created)
  }

  /**
   * GenerateMipMaps' slot updates: the mipmap and array pipelines are created if null, then,
   * with more than one layer, the mipmap slot is overwritten through the `pipeline` reference
   * with the array pipeline.
   */
  function AfterMipMaps(s: PipelineSlots, layers: nat): (r: PipelineSlots)
    ensures r.mipMap.Some? && r.mipMapArray.Some?
    ensures layers > 1 ==> r.mipMap == r.mipMapArray
    ensures r.equirectangularToCube == s.equirectangularToCube && r.diffuseIrradiance == s.diffuseIrradiance
    ensures r.specularIrradiance == s.specularIrradiance && r.specularBRDF_LUT == s.specularBRDF_LUT
  {
    var (m, c1) := Lazy(s.mipMap, s.created, MipmapFile);
    var (a, c2) := Lazy(s.mipMapArray, c1, MipmapArrayFile);
    s.(mipMap := if layers > 1 then a else m, mipMapArray := a, created := c2)
  }

  /** The mipmap pipeline GenerateMipMaps binds: the mipmap slot after its updates. */
  function MipPipeline(s: PipelineSlots, layers: nat): Pipeline
  {
    AfterMipMaps(s, layers).mipMap.value
  }

  /** The view type of the mip views: a 2D array exactly when the mipmap slot holds the array pipeline. */
  function MipViewType(s: PipelineSlots, layers: nat): ViewType
  {
    var r := AfterMipMaps(s, layers);
    if r.mipMap == r.mipMapArray then Type2DArray else Type2D
  }

  function AfterEquirectangularToCube(s: PipelineSlots): (r: PipelineSlots)
    ensures r.equirectangularToCube.Some?
  {
    var (p, c) := Lazy(s.equirectangularToCube, s.created, EquirectangularToCubeFile);
    s.(equirectangularToCube := p, created := c)
  }

  function AfterDiffuseIrradiance(s: PipelineSlots): (r: PipelineSlots)
    ensures r.diffuseIrradiance.Some?
  {
    var (p, c) := Lazy(s.diffuseIrradiance, s.created, DiffuseIrradianceFile);
    s.(diffuseIrradiance := p, created := c)
  }

  function AfterSpecularIrradiance(s: PipelineSlots): (r: PipelineSlots)
    ensures r.specularIrradiance.Some?
  {
    var (p, c) := Lazy(s.specularIrradiance, s.created, SpecularIrradianceFile);
    s.(specularIrradiance := p, created := c)
  }

  function AfterSpecularBRDF_LUT(s: PipelineSlots): (r: PipelineSlots)
    ensures r.specularBRDF_LUT.Some?
  {
    var (p, c) := Lazy(s.specularBRDF_LUT, s.created, SpecularBRDF_LUTFile);
    s.(specularBRDF_LUT := p, created := c)
  }

  /**
   * GenerateMipMaps keeps the slots valid and creates only the pipelines whose slots were null:
   * an existing array pipeline is kept, and so is an existing mipmap pipeline unless the
   * texture is layered; a second run with the same layer count changes nothing.
   */
  lemma MipMapsCreateLazily(s: PipelineSlots, layers: nat)
    requires SlotsValid(s)
    ensures SlotsValid(AfterMipMaps(s, layers))
    ensures AfterMipMaps(AfterMipMaps(s, layers), layers) == AfterMipMaps(s, layers)
    ensures s.mipMapArray.Some? ==> AfterMipMaps(s, layers).mipMapArray == s.mipMapArray
    ensures s.mipMap.Some? && layers <= 1 ==> AfterMipMaps(s, layers).mipMap == s.mipMap
    ensures s.mipMap.Some? && s.mipMapArray.Some? ==> AfterMipMaps(s, layers).created == s.created
  {
    var r := AfterMipMaps(s, layers);
    assert SlotValid(r.mipMapArray, MipmapArrayFile, r.created);
  }

  /**
   * The other passes keep the slots valid and create their pipeline only when its slot is
   * null: a pass whose slot holds a pipeline changes nothing, so running a pass twice is
   * running it once.
   */
  lemma EquirectangularToCubeCreatesLazily(s: PipelineSlots)
    requires SlotsValid(s)
    ensures SlotsValid(AfterEquirectangularToCube(s))
    ensures s.equirectangularToCube.Some? ==> AfterEquirectangularToCube(s) == s
    ensures AfterEquirectangularToCube(AfterEquirectangularToCube(s)) == AfterEquirectangularToCube(s)
  {
  }

  lemma DiffuseIrradianceCreatesLazily(s: PipelineSlots)
    requires SlotsValid(s)
    ensures SlotsValid(AfterDiffuseIrradiance(s))
    ensures s.diffuseIrradiance.Some? ==> AfterDiffuseIrradiance(s) == s
    ensures AfterDiffuseIrradiance(AfterDiffuseIrradiance(s)) == AfterDiffuseIrradiance(s)
  {
  }

  lemma SpecularIrradianceCreatesLazily(s: PipelineSlots)
    requires SlotsValid(s)
    ensures SlotsValid(AfterSpecularIrradiance(s))
    ensures s.specularIrradiance.Some? ==> AfterSpecularIrradiance(s) == s
    ensures AfterSpecularIrradiance(AfterSpecularIrradiance(s)) == AfterSpecularIrradiance(s)
  {
  }

  lemma SpecularBRDF_LUTCreatesLazily(s: PipelineSlots)
    requires SlotsValid(s)
    ensures SlotsValid(AfterSpecularBRDF_LUT(s))
    ensures s.specularBRDF_LUT.Some? ==> AfterSpecularBRDF_LUT(s) == s
    ensures AfterSpecularBRDF_LUT(AfterSpecularBRDF_LUT(s)) == AfterSpecularBRDF_LUT(s)
  {
  }

  /**
   * Once a pass over a layered texture has aliased the mipmap slot to the array pipeline, every
   * later GenerateMipMaps, even on a single-layer texture, binds the array pipeline and makes
   * 2D array views.
   */
  lemma MipMapAliasSticks(s: PipelineSlots, layers: nat, laterLayers: nat)
    requires layers > 1
    ensures var s1 := AfterMipMaps(s, layers);
            && MipPipeline(s1, laterLayers) == s1.mipMapArray.value
            && MipViewType(s1, laterLayers) == Type2DArray
  {
  }

  /** The pipelines RecompileRenderPipelineShaders recompiles, in order: the non-null slots except the BRDF table's. */
  function RecompileList(s: PipelineSlots): seq<Pipeline>
  {
    Present(s.mipMap) + Present(s.mipMapArray) + Present(s.equirectangularToCube)
      + Present(s.diffuseIrradiance) + Present(s.specularIrradiance)
  }

  function Present(p: Option<Pipeline>): (r: seq<Pipeline>)
    ensures p.None? ==> r == []
    ensures p.Some? ==> r == [p.value]
  {
    if p.Some? then [p.value] else []
  }

  /**
   * A pipeline is recompiled exactly when it sits in one of the five recompiled slots; the
   * BRDF lookup table pipeline never is; and an aliased mipmap slot has the array pipeline
   * recompiled twice.
   */
  lemma RecompiledPipelines(s: PipelineSlots)
    requires SlotsValid(s)
    ensures forall p :: p in RecompileList(s) <==>
              (Some(p) == s.mipMap || Some(p) == s.mipMapArray || Some(p) == s.equirectangularToCube
               || Some(p) == s.diffuseIrradiance || Some(p) == s.specularIrradiance)
    ensures forall p :: p in RecompileList(s) ==> p.file != SpecularBRDF_LUTFile
    ensures s.mipMap.Some? && s.mipMap == s.mipMapArray ==>
              RecompileList(s)[0] == RecompileList(s)[1] == s.mipMapArray.value
  {
  }

  // ---------------------------------------------------------------- layouts

  /** The layout the passes read a sampled source image in. */
  function ReadLayout(isD3D12: bool): Layout
  {
    if isD3D12 then D3D12NonPixelShaderReadOnlyOptimal else ShaderReadOnlyOptimal
  }

  /** The layout the passes write a storage image in. */
  function StorageLayout(isD3D12: bool): Layout
  {
    if isD3D12 then D3D12UnorderedAccess else General
  }

  /** Every one of `n` mip levels in layout `l`. */
  function Fill(n: nat, l: Layout): (state: seq<Layout>)
    ensures |state| == n && forall k :: 0 <= k < n ==> state[k] == l
  {
    seq(n, k => l)
  }

  /** A barrier's old layout is the layout of every subresource it covers. */
  predicate BarrierMatches(state: seq<Layout>, range: Range, oldLayout: Layout)
  {
    match range
    case AllSubresources => forall k :: 0 <= k < |state| ==> state[k] == oldLayout
    case MipLevel(level, _) => level < |state| && state[level] == oldLayout
  }

  /** The per-level layouts after a barrier moves the subresources it covers to `newLayout`. */
  function ApplyBarrier(state: seq<Layout>, range: Range, newLayout: Layout): (r: seq<Layout>)
    ensures |r| == |state|
  {
    match range
    case AllSubresources => Fill(|state|, newLayout)
    case MipLevel(level, _) => if level < |state| then state[level := newLayout] else state
  }

  /**
   * Tracks the per-level layouts of `image` through a trace: `None` if some barrier on the
   * image names an old layout the covered levels are not in, else the final layouts.
   */
  function Replay(state: seq<Layout>, image: nat, trace: seq<Command>): Option<seq<Layout>>
    decreases |trace|
  {
    if |trace| == 0 then Some(state)
    else
      var c := trace[0];
      if c.Barrier? && c.image == image then
        if BarrierMatches(state, c.range, c.oldLayout) then Replay(ApplyBarrier(state, c.range, c.newLayout), image, trace[1..])
        else None
      else Replay(state, image, trace[1..])
  }

  /** Replaying two traces one after the other is replaying their concatenation. */
  lemma {:induction false} ReplayAppend(state: seq<Layout>, image: nat, a: seq<Command>, b: seq<Command>)
    ensures Replay(state, image, a + b) ==
              match Replay(state, image, a)
              case None => None
              case Some(mid) => Replay(mid, image, b)
    decreases |a|
  {
    if |a| > 0 {
      assert (a + b)[1..] == a[1..] + b;
      var c := a[0];
      if c.Barrier? && c.image == image && BarrierMatches(state, c.range, c.oldLayout) {
        ReplayAppend(ApplyBarrier(state, c.range, c.newLayout), image, a[1..], b);
      } else if !(c.Barrier? && c.image == image) {
        ReplayAppend(state, image, a[1..], b);
      }
    } else {
      assert a + b == b;
    }
  }

  /** A trace without barriers on `image` leaves its layouts alone. */
  lemma {:induction false} ReplayUntouched(state: seq<Layout>, image: nat, trace: seq<Command>)
    requires forall k :: 0 <= k < |trace| ==> !(trace[k].Barrier? && trace[k].image == image)
    ensures Replay(state, image, trace) == Some(state)
    decreases |trace|
  {
    if |trace| > 0 {
      ReplayUntouched(state, image, trace[1..]);
    }
  }

  /** One barrier on `image` whose old layout holds, followed by `rest`. */
  lemma ReplayBarrier(state: seq<Layout>, image: nat, c: Command, rest: seq<Command>)
    requires c.Barrier? && c.image == image && BarrierMatches(state, c.range, c.oldLayout)
    ensures Replay(state, image, [c] + rest) == Replay(ApplyBarrier(state, c.range, c.newLayout), image, rest)
  {
    assert ([c] + rest)[1..] == rest;
  }

  /** One command that is not a barrier on `image`, followed by `rest`. */
  lemma ReplaySkip(state: seq<Layout>, image: nat, c: Command, rest: seq<Command>)
    requires !(c.Barrier? && c.image == image)
    ensures Replay(state, image, [c] + rest) == Replay(state, image, rest)
  {
    assert ([c] + rest)[1..] == rest;
  }

  /** The number of dispatches in a trace. */
  function DispatchCount(trace: seq<Command>): nat
  {
    if |trace| == 0 then 0 else (if trace[0].Dispatch? then 1 else 0) + DispatchCount(trace[1..])
  }

  lemma {:induction false} DispatchCountAppend(a: seq<Command>, b: seq<Command>)
    ensures DispatchCount(a + b) == DispatchCount(a) + DispatchCount(b)
    decreases |a|
  {
    if |a| == 0 {
      assert a + b == b;
    } else {
      assert (a + b)[1..] == a[1..] + b;
      DispatchCountAppend(a[1..], b);
    }
  }

  // ---------------------------------------------------------------- GenerateMipMaps

  /** Descriptor set i of the mipmap pass: view i is read, view i + 1 is written, both in GENERAL. */
  function MipSet(image: nat, viewType: ViewType, i: nat, layers: nat): DescriptorSet
  {
    DescriptorSet([ImageBinding(false, View(image, viewType, i, layers), General),
                   ImageBinding(false, View(image, viewType, i + 1, layers), General)], None)
  }

  /** The layout a mip level is written in. */
  function MipWriteLayout(isD3D12: bool): Layout
  {
    if isD3D12 then D3D12UnorderedAccess else General
  }

  /**
   * The commands for mip level i: a barrier on level i into the write layout, the set that
   * reads level i - 1 and writes level i, the dispatch, and a barrier on level i back to GENERAL.
   */
  function MipLevelCommands(t: Texture, p: Pipeline, viewType: ViewType, i: nat, isD3D12: bool): (block: seq<Command>)
    requires 1 <= i
    ensures |block| == 4
  {
    var range := MipLevel(i, t.arrayLayers);
    [Barrier(t.image, ComputeShader, range, General, MipWriteLayout(isD3D12), {ShaderWrite}, {ShaderRead, ShaderWrite}),
     BindSets(p, MipSet(t.image, viewType, i - 1, t.arrayLayers)),
     Dispatch(Groups(Shr(t.width, i), 8), Groups(Shr(t.height, i), 8), t.arrayLayers),
     Barrier(t.image, ComputeShader, range, MipWriteLayout(isD3D12), General, {ShaderRead, ShaderWrite}, {ShaderRead})]
  }

  /**
   * Level i's block brackets its dispatch: the first barrier and the last cover level i
   * alone, the last leaves the level in GENERAL from the layout the first put it in, the set
   * reads level i - 1 and writes level i, and the dispatch covers every layer with at least
   * one work group per axis.
   */
  lemma MipLevelBrackets(t: Texture, p: Pipeline, viewType: ViewType, i: nat, isD3D12: bool)
    requires 1 <= i
    ensures var block := MipLevelCommands(t, p, viewType, i, isD3D12);
            && block[0].Barrier? && block[0].image == t.image && block[0].range == MipLevel(i, t.arrayLayers)
            && block[3].Barrier? && block[3].image == t.image && block[3].range == block[0].range
            && block[3].oldLayout == block[0].newLayout && block[3].newLayout == General
            && block[1].BindSets? && |block[1].descriptors.images| == 2
            && block[1].descriptors.images[0].view.level == i - 1 && block[1].descriptors.images[1].view.level == i
            && block[2].Dispatch? && block[2].z == t.arrayLayers && block[2].x >= 1 && block[2].y >= 1
  {
  }

  /** The commands for mip levels 1 .. count - 1, in order. */
  function MipLevelsCommands(t: Texture, p: Pipeline, viewType: ViewType, count: nat, isD3D12: bool): (r: seq<Command>)
    ensures |r| == if count == 0 then 0 else 4 * (count - 1)
  {
    if count <= 1 then [] else MipLevelsCommands(t, p, viewType, count - 1, isD3D12) + MipLevelCommands(t, p, viewType, count - 1, isD3D12)
  }

  /** The barrier that opens the mipmap pass: the whole texture from the caller's layout to GENERAL. */
  function MipOpening(info: ResourceInfo): Command
  {
    Barrier(info.texture.image, info.srcStage, AllSubresources, info.oldLayout, General, info.srcAccess, {ShaderRead})
  }

  /**
   * The barrier that closes the mipmap pass: the whole texture back to GENERAL, from the
   * layout D3D12 promotes it to after the dispatches.
   */
  function MipClosing(t: Texture, isD3D12: bool): Command
  {
    var from := if isD3D12 then D3D12NonPixelShaderReadOnlyOptimal else General;
    Barrier(t.image, ComputeShader, AllSubresources, from, General, {ShaderWrite}, {ShaderRead})
  }

  /** The trace GenerateMipMaps records and submits when it runs. */
  function MipTrace(info: ResourceInfo, p: Pipeline, viewType: ViewType, isD3D12: bool): seq<Command>
  {
    [MipOpening(info), BindPipeline(p)]
      + MipLevelsCommands(info.texture, p, viewType, info.texture.mipLevels, isD3D12)
      + [MipClosing(info.texture, isD3D12), Submit, Wait]
  }

  /** Level i's commands sit at positions 4(i - 1) .. 4i of the level commands. */
  lemma {:induction false} MipLevelsAt(t: Texture, p: Pipeline, viewType: ViewType, count: nat, isD3D12: bool, i: nat)
    requires 1 <= i < count
    ensures MipLevelsCommands(t, p, viewType, count, isD3D12)[4 * (i - 1)..4 * i] == MipLevelCommands(t, p, viewType, i, isD3D12)
  {
    var prev := MipLevelsCommands(t, p, viewType, count - 1, isD3D12);
    var last := MipLevelCommands(t, p, viewType, count - 1, isD3D12);
    SliceOfAppend(prev, last, 4 * (i - 1), 4 * i);
    if i < count - 1 {
      MipLevelsAt(t, p, viewType, count - 1, isD3D12, i);
    }
  }

  /** A slice of a concatenation that lies inside one of its parts. */
  lemma SliceOfAppend(a: seq<Command>, b: seq<Command>, lo: nat, hi: nat)
    requires lo <= hi <= |a| + |b|
    ensures hi <= |a| ==> (a + b)[lo..hi] == a[lo..hi]
    ensures |a| <= lo ==> (a + b)[lo..hi] == b[lo - |a|..hi - |a|]
  {
    if hi <= |a| {
      assert (a + b)[lo..hi] == a[lo..hi];
    }
    if |a| <= lo {
      assert (a + b)[lo..hi] == b[lo - |a|..hi - |a|];
    }
  }

  /**
   * The mipmap trace opens with a whole-texture barrier and the pipeline bind, ends with the
   * closing barrier, Submit and Wait, and holds level i's block, for each i in 1 .. levels - 1,
   * at positions 2 + 4(i - 1) .. 2 + 4i: the levels are processed in increasing order.
   */
  lemma MipTraceShape(info: ResourceInfo, p: Pipeline, viewType: ViewType, isD3D12: bool)
    requires 1 <= info.texture.mipLevels
    ensures var trace := MipTrace(info, p, viewType, isD3D12);
            && |trace| == 4 * (info.texture.mipLevels - 1) + 5
            && trace[0] == MipOpening(info) && trace[1] == BindPipeline(p)
            && trace[|trace| - 3..] == [MipClosing(info.texture, isD3D12), Submit, Wait]
            && forall i :: 1 <= i < info.texture.mipLevels ==>
                 trace[2 + 4 * (i - 1)..2 + 4 * i] == MipLevelCommands(info.texture, p, viewType, i, isD3D12)
  {
    var t := info.texture;
    var trace := MipTrace(info, p, viewType, isD3D12);
    var levels := MipLevelsCommands(t, p, viewType, t.mipLevels, isD3D12);
    var tail := [MipClosing(t, isD3D12), Submit, Wait];
    SliceOfAppend([MipOpening(info), BindPipeline(p)] + levels, tail, |trace| - 3, |trace|);
    forall i | 1 <= i < t.mipLevels
      ensures trace[2 + 4 * (i - 1)..2 + 4 * i] == MipLevelCommands(t, p, viewType, i, isD3D12)
    {
      MipTraceBlock(info, p, viewType, isD3D12, i);
    }
  }

  lemma MipTraceBlock(info: ResourceInfo, p: Pipeline, viewType: ViewType, isD3D12: bool, i: nat)
    requires 1 <= i < info.texture.mipLevels
    ensures MipTrace(info, p, viewType, isD3D12)[2 + 4 * (i - 1)..2 + 4 * i] == MipLevelCommands(info.texture, p, viewType, i, isD3D12)
  {
    var t := info.texture;
    var head := [MipOpening(info), BindPipeline(p)];
    var levels := MipLevelsCommands(t, p, viewType, t.mipLevels, isD3D12);
    var tail := [MipClosing(t, isD3D12), Submit, Wait];
    MipLevelsAt(t, p, viewType, t.mipLevels, isD3D12, i);
    SliceOfAppend(head + levels, tail, 2 + 4 * (i - 1), 2 + 4 * i);
    assert (head + levels)[2 + 4 * (i - 1)..2 + 4 * i] == levels[4 * (i - 1)..4 * i];
  }

  /** The mipmap pass dispatches exactly once per level after the first. */
  lemma {:induction false} MipDispatchCount(t: Texture, p: Pipeline, viewType: ViewType, count: nat, isD3D12: bool)
    requires 1 <= count
    ensures DispatchCount(MipLevelsCommands(t, p, viewType, count, isD3D12)) == count - 1
  {
    if count > 1 {
      MipDispatchCount(t, p, viewType, count - 1, isD3D12);
      var block := MipLevelCommands(t, p, viewType, count - 1, isD3D12);
      DispatchCountAppend(MipLevelsCommands(t, p, viewType, count - 1, isD3D12), block);
      assert DispatchCount(block[3..]) == 0 by { assert block[3..][1..] == []; }
      assert DispatchCount(block[2..]) == 1 by { assert block[2..][1..] == block[3..]; }
      assert DispatchCount(block[1..]) == 1 by { assert block[1..][1..] == block[2..]; }
    }
  }

  /** On Vulkan, each level's block takes its level from GENERAL back to GENERAL. */
  lemma {:induction false} MipLevelsReplay(t: Texture, p: Pipeline, viewType: ViewType, count: nat)
    requires count <= t.mipLevels
    ensures Replay(Fill(t.mipLevels, General), t.image, MipLevelsCommands(t, p, viewType, count, false)) == Some(Fill(t.mipLevels, General))
  {
    var all := Fill(t.mipLevels, General);
    if count > 1 {
      var i := count - 1;
      MipLevelsReplay(t, p, viewType, count - 1);
      var block := MipLevelCommands(t, p, viewType, i, false);
      MipLevelBrackets(t, p, viewType, i, false);
      ReplayAppend(all, t.image, MipLevelsCommands(t, p, viewType, count - 1, false), block);
      ReplayBracket(all, t.image, block);
      assert all[i := General] == all;
    }
  }

  /**
   * A block that opens with a barrier on one level of `image`, closes with a barrier on the
   * same level from the layout the first set, and touches `image` nowhere else moves that
   * level from the first barrier's old layout to the second's new layout.
   */
  lemma ReplayBracket(state: seq<Layout>, image: nat, block: seq<Command>)
    requires |block| == 4 && block[0].Barrier? && block[0].image == image && block[0].range.MipLevel?
    requires block[0].range.level < |state| && state[block[0].range.level] == block[0].oldLayout
    requires !(block[1].Barrier? && block[1].image == image) && !(block[2].Barrier? && block[2].image == image)
    requires block[3].Barrier? && block[3].image == image && block[3].range == block[0].range
    requires block[3].oldLayout == block[0].newLayout
    ensures Replay(state, image, block) == Some(state[block[0].range.level := block[3].newLayout])
  {
    var mid := ApplyBarrier(state, block[0].range, block[0].newLayout);
    ReplayBarrier(state, image, block[0], block[1..]);
    ReplaySkip(mid, image, block[1], block[2..]);
    ReplaySkip(mid, image, block[2], block[3..]);
    ReplayBarrier(mid, image, block[3], []);
    assert block == [block[0]] + block[1..] && block[1..] == [block[1]] + block[2..];
    assert block[2..] == [block[2]] + block[3..] && block[3..] == [block[3]] + [];
    assert ApplyBarrier(mid, block[3].range, block[3].newLayout) == state[block[0].range.level := block[3].newLayout];
  }

  /**
   * On Vulkan the mipmap trace is layout-consistent: every barrier names the layout its
   * levels are in, starting from the caller's layout, and every level ends in GENERAL.
   */
  lemma MipTraceReplays(info: ResourceInfo, p: Pipeline, viewType: ViewType)
    requires 1 <= info.texture.mipLevels
    ensures Replay(Fill(info.texture.mipLevels, info.oldLayout), info.texture.image, MipTrace(info, p, viewType, false))
              == Some(Fill(info.texture.mipLevels, General))
  {
    var t := info.texture;
    var all := Fill(t.mipLevels, General);
    var levels := MipLevelsCommands(t, p, viewType, t.mipLevels, false);
    var head := [MipOpening(info), BindPipeline(p)];
    var tail := [MipClosing(t, false), Submit, Wait];
    assert MipTrace(info, p, viewType, false) == head + (levels + tail);
    ReplayAppend(Fill(t.mipLevels, info.oldLayout), t.image, head, levels + tail);
    ReplayBarrier(Fill(t.mipLevels, info.oldLayout), t.image, head[0], head[1..]);
    ReplaySkip(all, t.image, head[1], []);
    assert head == [head[0]] + head[1..] && head[1..] == [head[1]] + [];
    ReplayAppend(all, t.image, levels, tail);
    MipLevelsReplay(t, p, viewType, t.mipLevels);
    ReplayBarrier(all, t.image, tail[0], tail[1..]);
    ReplayUntouched(all, t.image, tail[1..]);
    assert tail == [tail[0]] + tail[1..];
  }

  // ---------------------------------------------------------------- whole-texture passes

  /** No command of `trace` is a barrier on `image`. */
  predicate Untouched(trace: seq<Command>, image: nat)
  {
    forall k :: 0 <= k < |trace| ==> !(trace[k].Barrier? && trace[k].image == image)
  }

  lemma UntouchedAppend(a: seq<Command>, b: seq<Command>, image: nat)
    requires Untouched(a, image) && Untouched(b, image)
    ensures Untouched(a + b, image)
  {
    forall k | 0 <= k < |a + b|
      ensures !((a + b)[k].Barrier? && (a + b)[k].image == image)
    {
      if k >= |a| {
        assert (a + b)[k] == b[k - |a|];
      }
    }
  }

  /**
   * A trace whose only barriers on `image` are at most one whole-texture barrier from the
   * layout every level is in, then one whole-texture barrier from the layout that leaves
   * them in, leaves every level in the second barrier's new layout.
   */
  lemma ReplayAround(n: nat, l: Layout, image: nat, a: seq<Command>, pre: seq<Command>, m: seq<Command>, post: Command, z: seq<Command>)
    requires Untouched(a, image) && Untouched(m, image) && Untouched(z, image)
    requires post.Barrier? && post.image == image && post.range == AllSubresources
    requires |pre| <= 1 && (|pre| == 0 ==> post.oldLayout == l)
    requires |pre| == 1 ==> pre[0].Barrier? && pre[0].image == image && pre[0].range == AllSubresources
                            && pre[0].oldLayout == l && pre[0].newLayout == post.oldLayout
    ensures Replay(Fill(n, l), image, a + pre + m + [post] + z) == Some(Fill(n, post.newLayout))
  {
    var mid := Fill(n, post.oldLayout);
    assert a + pre + m + [post] + z == a + (pre + (m + ([post] + z)));
    ReplayAppend(Fill(n, l), image, a, pre + (m + ([post] + z)));
    ReplayUntouched(Fill(n, l), image, a);
    if |pre| == 1 {
      assert pre == [pre[0]];
      ReplayBarrier(Fill(n, l), image, pre[0], m + ([post] + z));
    } else {
      assert pre + (m + ([post] + z)) == m + ([post] + z);
    }
    ReplayAppend(mid, image, m, [post] + z);
    ReplayUntouched(mid, image, m);
    ReplayBarrier(mid, image, post, z);
    ReplayUntouched(Fill(n, post.newLayout), image, z);
  }

  /** The barrier that takes a pass's input or output texture from the caller's layout to `newLayout`. */
  function PreBarrier(info: ResourceInfo, newLayout: Layout, dstAccess: set<AccessBit>): (c: Command)
    ensures c.Barrier? && c.image == info.texture.image && c.range == AllSubresources
    ensures c.oldLayout == info.oldLayout && c.newLayout == newLayout
  {
    Barrier(info.texture.image, info.srcStage, AllSubresources, info.oldLayout, newLayout, info.srcAccess, dstAccess)
  }

  /** The pre-dispatch barrier of a pass that records it only when the texture is not yet in `newLayout`. */
  function OptionalPre(info: ResourceInfo, newLayout: Layout, dstAccess: set<AccessBit>): (pre: seq<Command>)
    ensures |pre| <= 1 && (|pre| == 0 <==> info.oldLayout == newLayout)
    ensures |pre| == 1 ==> pre[0] == PreBarrier(info, newLayout, dstAccess)
  {
    if info.oldLayout != newLayout then [PreBarrier(info, newLayout, dstAccess)] else []
  }

  /** The barrier that returns a texture from `from` to GENERAL after the dispatches. */
  function PostBarrier(image: nat, from: Layout, srcAccess: set<AccessBit>): (c: Command)
    ensures c.Barrier? && c.image == image && c.range == AllSubresources
    ensures c.oldLayout == from && c.newLayout == General
  {
    Barrier(image, ComputeShader, AllSubresources, from, General, srcAccess, {ShaderRead})
  }

  // ---------------------------------------------------------------- EquirectangularToCube

  /** The set of the conversion: the equirectangular image sampled, the cube's six faces as storage. */
  function EquirectangularToCubeSet(cube: ResourceInfo, equirect: ResourceInfo, isD3D12: bool): DescriptorSet
  {
    DescriptorSet([ImageBinding(true, View(equirect.texture.image, Type2D, 0, 1), ReadLayout(isD3D12)),
                   ImageBinding(false, View(cube.texture.image, Type2DArray, 0, 6), StorageLayout(isD3D12))], None)
  }

  /**
   * The trace EquirectangularToCube records and submits. Each pre-dispatch barrier is left
   * out when the texture is already in the layout it would move it to.
   */
  function EquirectangularToCubeTrace(cube: ResourceInfo, equirect: ResourceInfo, p: Pipeline, isD3D12: bool): seq<Command>
  {
    var read := ReadLayout(isD3D12);
    var storage := StorageLayout(isD3D12);
    OptionalPre(equirect, read, {ShaderRead}) + [BindPipeline(p)]
      + OptionalPre(cube, storage, {ShaderRead, ShaderWrite})
      + [BindSets(p, EquirectangularToCubeSet(cube, equirect, isD3D12)),
         Dispatch(Groups(cube.texture.width, 32), Groups(cube.texture.height, 32), 6)]
      + [PostBarrier(cube.texture.image, storage, {ShaderRead, ShaderWrite})]
      + [PostBarrier(equirect.texture.image, read, {ShaderWrite}), Submit, Wait]
  }

  /**
   * For distinct textures, the conversion is layout-consistent on both APIs, with or without
   * its optional barriers, and leaves every level of both textures in GENERAL.
   */
  lemma EquirectangularToCubeReplays(cube: ResourceInfo, equirect: ResourceInfo, p: Pipeline, isD3D12: bool)
    requires cube.texture.image != equirect.texture.image
    ensures Replay(Fill(equirect.texture.mipLevels, equirect.oldLayout), equirect.texture.image,
                   EquirectangularToCubeTrace(cube, equirect, p, isD3D12)) == Some(Fill(equirect.texture.mipLevels, General))
    ensures Replay(Fill(cube.texture.mipLevels, cube.oldLayout), cube.texture.image,
                   EquirectangularToCubeTrace(cube, equirect, p, isD3D12)) == Some(Fill(cube.texture.mipLevels, General))
  {
    EquirectangularReplays(cube, equirect, p, isD3D12);
    CubeReplays(cube, equirect, p, isD3D12);
  }

  /** The cube: its optional barrier after the pipeline bind, its post barrier after the dispatch. */
  lemma CubeReplays(cube: ResourceInfo, equirect: ResourceInfo, p: Pipeline, isD3D12: bool)
    requires cube.texture.image != equirect.texture.image
    ensures Replay(Fill(cube.texture.mipLevels, cube.oldLayout), cube.texture.image,
                   EquirectangularToCubeTrace(cube, equirect, p, isD3D12)) == Some(Fill(cube.texture.mipLevels, General))
  {
    var read := ReadLayout(isD3D12);
    var storage := StorageLayout(isD3D12);
    var c := cube.texture.image;
    var ePre := OptionalPre(equirect, read, {ShaderRead});
    var cPre := OptionalPre(cube, storage, {ShaderRead, ShaderWrite});
    var work := [BindSets(p, EquirectangularToCubeSet(cube, equirect, isD3D12)),
                 Dispatch(Groups(cube.texture.width, 32), Groups(cube.texture.height, 32), 6)];
    var cPost := PostBarrier(c, storage, {ShaderRead, ShaderWrite});
    var ePost := PostBarrier(equirect.texture.image, read, {ShaderWrite});
    UntouchedAppend(ePre, [BindPipeline(p)], c);
    ReplayAround(cube.texture.mipLevels, cube.oldLayout, c, ePre + [BindPipeline(p)], cPre, work, cPost, [ePost, Submit, Wait]);
  }

  /** The equirectangular texture: its optional barrier first, its post barrier last. */
  lemma EquirectangularReplays(cube: ResourceInfo, equirect: ResourceInfo, p: Pipeline, isD3D12: bool)
    requires cube.texture.image != equirect.texture.image
    ensures Replay(Fill(equirect.texture.mipLevels, equirect.oldLayout), equirect.texture.image,
                   EquirectangularToCubeTrace(cube, equirect, p, isD3D12)) == Some(Fill(equirect.texture.mipLevels, General))
  {
    var read := ReadLayout(isD3D12);
    var storage := StorageLayout(isD3D12);
    var e := equirect.texture.image;
    var ePre := OptionalPre(equirect, read, {ShaderRead});
    var cPre := OptionalPre(cube, storage, {ShaderRead, ShaderWrite});
    var work := [BindSets(p, EquirectangularToCubeSet(cube, equirect, isD3D12)),
                 Dispatch(Groups(cube.texture.width, 32), Groups(cube.texture.height, 32), 6)];
    var cPost := PostBarrier(cube.texture.image, storage, {ShaderRead, ShaderWrite});
    var ePost := PostBarrier(e, read, {ShaderWrite});
    var middle := [BindPipeline(p)] + cPre + work + [cPost];
    UntouchedAppend([BindPipeline(p)], cPre, e);
    UntouchedAppend([BindPipeline(p)] + cPre, work, e);
    UntouchedAppend([BindPipeline(p)] + cPre + work, [cPost], e);
    AppendRegroup(ePre, [BindPipeline(p)], cPre, work, [cPost], [ePost], [Submit, Wait]);
    assert [ePost, Submit, Wait] == [ePost] + [Submit, Wait];
    ReplayAround(equirect.texture.mipLevels, equirect.oldLayout, e, [], ePre, middle, ePost, [Submit, Wait]);
  }

  /** Regrouping a chain of concatenations around its first part and its last two. */
  lemma AppendRegroup(a: seq<Command>, b: seq<Command>, c: seq<Command>, d: seq<Command>, e: seq<Command>, f: seq<Command>, g: seq<Command>)
    ensures a + b + c + d + e + (f + g) == [] + a + (b + c + d + e) + f + g
  {
  }

  // ---------------------------------------------------------------- DiffuseIrradiance

  /** The set of the diffuse pass: the environment cube sampled, the irradiance map's six faces as storage. */
  function DiffuseIrradianceSet(diffuse: ResourceInfo, environment: ResourceInfo, isD3D12: bool): DescriptorSet
  {
    DescriptorSet([ImageBinding(true, View(environment.texture.image, TypeCube, 0, 6), ReadLayout(isD3D12)),
                   ImageBinding(false, View(diffuse.texture.image, Type2DArray, 0, 6), StorageLayout(isD3D12))], None)
  }

  /** The trace DiffuseIrradiance records and submits; both pre-dispatch barriers are always recorded. */
  function DiffuseIrradianceTrace(diffuse: ResourceInfo, environment: ResourceInfo, p: Pipeline, isD3D12: bool): seq<Command>
  {
    var read := ReadLayout(isD3D12);
    var storage := StorageLayout(isD3D12);
    [PreBarrier(environment, read, {ShaderRead})] + [BindPipeline(p)]
      + [PreBarrier(diffuse, storage, {ShaderRead, ShaderWrite})]
      + [BindSets(p, DiffuseIrradianceSet(diffuse, environment, isD3D12)),
         Dispatch(Groups(diffuse.texture.width, 32), Groups(diffuse.texture.height, 32), 6)]
      + [PostBarrier(diffuse.texture.image, storage, {ShaderRead, ShaderWrite})]
      + [PostBarrier(environment.texture.image, read, {ShaderWrite}), Submit, Wait]
  }

  /**
   * For distinct textures, the diffuse pass is layout-consistent on both APIs and leaves
   * every level of both textures in GENERAL.
   */
  lemma DiffuseIrradianceReplays(diffuse: ResourceInfo, environment: ResourceInfo, p: Pipeline, isD3D12: bool)
    requires diffuse.texture.image != environment.texture.image
    ensures Replay(Fill(environment.texture.mipLevels, environment.oldLayout), environment.texture.image,
                   DiffuseIrradianceTrace(diffuse, environment, p, isD3D12)) == Some(Fill(environment.texture.mipLevels, General))
    ensures Replay(Fill(diffuse.texture.mipLevels, diffuse.oldLayout), diffuse.texture.image,
                   DiffuseIrradianceTrace(diffuse, environment, p, isD3D12)) == Some(Fill(diffuse.texture.mipLevels, General))
  {
    var read := ReadLayout(isD3D12);
    var storage := StorageLayout(isD3D12);
    var env := environment.texture.image;
    var out := diffuse.texture.image;
    var envPre := [PreBarrier(environment, read, {ShaderRead})];
    var outPre := [PreBarrier(diffuse, storage, {ShaderRead, ShaderWrite})];
    var work := [BindSets(p, DiffuseIrradianceSet(diffuse, environment, isD3D12)),
                 Dispatch(Groups(diffuse.texture.width, 32), Groups(diffuse.texture.height, 32), 6)];
    var outPost := PostBarrier(out, storage, {ShaderRead, ShaderWrite});
    var envPost := PostBarrier(env, read, {ShaderWrite});
    UntouchedAppend(envPre, [BindPipeline(p)], out);
    ReplayAround(diffuse.texture.mipLevels, diffuse.oldLayout, out, envPre + [BindPipeline(p)], outPre, work, outPost, [envPost, Submit, Wait]);
    var middle := [BindPipeline(p)] + outPre + work + [outPost];
    UntouchedAppend([BindPipeline(p)], outPre, env);
    UntouchedAppend([BindPipeline(p)] + outPre, work, env);
    UntouchedAppend([BindPipeline(p)] + outPre + work, [outPost], env);
    AppendRegroup(envPre, [BindPipeline(p)], outPre, work, [outPost], [envPost], [Submit, Wait]);
    assert [envPost, Submit, Wait] == [envPost] + [Submit, Wait];
    ReplayAround(environment.texture.mipLevels, environment.oldLayout, env, [], envPre, middle, envPost, [Submit, Wait]);
  }

  // ---------------------------------------------------------------- SpecularIrradiance

  /**
   * Set i of the specular pass: the environment cube sampled, level i of the output's six
   * faces as storage, and the uniform buffer holding level i's roughness.
   */
  function SpecularIrradianceSet(specular: ResourceInfo, environment: ResourceInfo, i: nat, isD3D12: bool): DescriptorSet
  {
    DescriptorSet([ImageBinding(true, View(environment.texture.image, TypeCube, 0, 6), ReadLayout(isD3D12)),
                   ImageBinding(false, View(specular.texture.image, Type2DArray, i, 6), StorageLayout(isD3D12))], Some(i))
  }

  /** Where level i's commands start among the level commands: three per level, four on D3D12. */
  function SpecularLevelStart(i: nat, isD3D12: bool): nat
  {
    if isD3D12 then 4 * i else 3 * i
  }

  /**
   * The commands for level i of the specular pass: the forced copy of its roughness into its
   * uniform buffer, on D3D12 a buffer barrier after it, its set and its dispatch.
   */
  function SpecularLevelCommands(specular: ResourceInfo, environment: ResourceInfo, p: Pipeline, i: nat, isD3D12: bool): (block: seq<Command>)
    requires i < specular.texture.mipLevels
    ensures |block| == SpecularLevelStart(i + 1, isD3D12) - SpecularLevelStart(i, isD3D12)
    ensures forall k :: 0 <= k < |block| ==> !block[k].Barrier?
  {
    var levels := specular.texture.mipLevels;
    [UniformCopy(i, Roughness(i, levels))]
      + (if isD3D12 then [UniformBarrier(i)] else [])
      + [BindSets(p, SpecularIrradianceSet(specular, environment, i, isD3D12)),
         Dispatch(Groups(Shr(specular.texture.width, i), 32), Groups(Shr(specular.texture.height, i), 32), 6)]
  }

  /**
   * Level i's block uploads roughness i / levels, which lies in [0, 1), to the uniform buffer of
   * level i; on D3D12 a barrier on that buffer follows; the set writes level i of the output
   * and reads that buffer; the block's only dispatch comes last and covers the six faces.
   */
  lemma SpecularLevelContents(specular: ResourceInfo, environment: ResourceInfo, p: Pipeline, i: nat, isD3D12: bool)
    requires i < specular.texture.mipLevels
    ensures var block := SpecularLevelCommands(specular, environment, p, i, isD3D12);
            && block[0] == UniformCopy(i, Roughness(i, specular.texture.mipLevels)) && 0.0 <= block[0].roughness < 1.0
            && (isD3D12 ==> block[1] == UniformBarrier(i))
            && var sets := block[|block| - 2];
            && sets.BindSets? && sets.descriptors.uniformLevel == Some(i)
            && |sets.descriptors.images| == 2 && sets.descriptors.images[1].view.level == i
            && sets.descriptors.images[1].view.image == specular.texture.image
            && block[|block| - 1].Dispatch? && block[|block| - 1].z == 6
            && forall k :: 0 <= k < |block| - 1 ==> !block[k].Dispatch?
  {
  }

  /** The commands for levels 0 .. count - 1 of the specular pass, in order. */
  function SpecularLevelsCommands(specular: ResourceInfo, environment: ResourceInfo, p: Pipeline, count: nat, isD3D12: bool): (r: seq<Command>)
    requires count <= specular.texture.mipLevels
    ensures |r| == SpecularLevelStart(count, isD3D12)
  {
    if count == 0 then []
    else SpecularLevelsCommands(specular, environment, p, count - 1, isD3D12) + SpecularLevelCommands(specular, environment, p, count - 1, isD3D12)
  }

  /** The level commands hold no image barrier at all. */
  lemma {:induction false} SpecularLevelsUntouched(specular: ResourceInfo, environment: ResourceInfo, p: Pipeline, count: nat, isD3D12: bool, image: nat)
    requires count <= specular.texture.mipLevels
    ensures Untouched(SpecularLevelsCommands(specular, environment, p, count, isD3D12), image)
  {
    if count > 0 {
      SpecularLevelsUntouched(specular, environment, p, count - 1, isD3D12, image);
      UntouchedAppend(SpecularLevelsCommands(specular, environment, p, count - 1, isD3D12),
                      SpecularLevelCommands(specular, environment, p, count - 1, isD3D12), image);
    }
  }

  /** The trace SpecularIrradiance records and submits. */
  function SpecularIrradianceTrace(specular: ResourceInfo, environment: ResourceInfo, p: Pipeline, isD3D12: bool): seq<Command>
  {
    var read := ReadLayout(isD3D12);
    var storage := StorageLayout(isD3D12);
    [PreBarrier(environment, read, {ShaderRead})] + [BindPipeline(p)]
      + [PreBarrier(specular, storage, {ShaderRead, ShaderWrite})]
      + SpecularLevelsCommands(specular, environment, p, specular.texture.mipLevels, isD3D12)
      + [PostBarrier(specular.texture.image, storage, {ShaderRead, ShaderWrite})]
      + [PostBarrier(environment.texture.image, read, {ShaderWrite}), Submit, Wait]
  }

  /** Level i's commands sit at their start position among the level commands. */
  lemma {:induction false} SpecularLevelsAt(specular: ResourceInfo, environment: ResourceInfo, p: Pipeline, count: nat, isD3D12: bool, i: nat)
    requires i < count <= specular.texture.mipLevels
    ensures SpecularLevelsCommands(specular, environment, p, count, isD3D12)[SpecularLevelStart(i, isD3D12)..SpecularLevelStart(i + 1, isD3D12)]
              == SpecularLevelCommands(specular, environment, p, i, isD3D12)
  {
    var prev := SpecularLevelsCommands(specular, environment, p, count - 1, isD3D12);
    var last := SpecularLevelCommands(specular, environment, p, count - 1, isD3D12);
    var lo, hi := SpecularLevelStart(i, isD3D12), SpecularLevelStart(i + 1, isD3D12);
    assert i < count - 1 ==> hi <= |prev|;
    SliceOfAppend(prev, last, lo, hi);
    if i < count - 1 {
      SpecularLevelsAt(specular, environment, p, count - 1, isD3D12, i);
    }
  }

  /** The specular pass dispatches exactly once per mip level of its output. */
  lemma {:induction false} SpecularDispatchCount(specular: ResourceInfo, environment: ResourceInfo, p: Pipeline, count: nat, isD3D12: bool)
    requires count <= specular.texture.mipLevels
    ensures DispatchCount(SpecularLevelsCommands(specular, environment, p, count, isD3D12)) == count
  {
    if count > 0 {
      SpecularDispatchCount(specular, environment, p, count - 1, isD3D12);
      var block := SpecularLevelCommands(specular, environment, p, count - 1, isD3D12);
      DispatchCountAppend(SpecularLevelsCommands(specular, environment, p, count - 1, isD3D12), block);
      SpecularLevelContents(specular, environment, p, count - 1, isD3D12);
      SingleDispatch(block);
    }
  }

  /** A block whose last command is its only dispatch counts one dispatch. */
  lemma {:induction false} SingleDispatch(block: seq<Command>)
    requires |block| >= 1 && block[|block| - 1].Dispatch?
    requires forall k :: 0 <= k < |block| - 1 ==> !block[k].Dispatch?
    ensures DispatchCount(block) == 1
    decreases |block|
  {
    if |block| > 1 {
      SingleDispatch(block[1..]);
    } else {
      assert block[1..] == [];
    }
  }

  /**
   * The specular trace binds the pipeline once, then holds level i's block for each level
   * i in increasing order, at position 3 + its start, and dispatches once per level.
   */
  lemma SpecularTraceShape(specular: ResourceInfo, environment: ResourceInfo, p: Pipeline, isD3D12: bool)
    ensures var trace := SpecularIrradianceTrace(specular, environment, p, isD3D12);
            var levels := specular.texture.mipLevels;
            && |trace| == SpecularLevelStart(levels, isD3D12) + 7
            && trace[1] == BindPipeline(p)
            && DispatchCount(trace) == levels
            && forall i :: 0 <= i < levels ==>
                 trace[3 + SpecularLevelStart(i, isD3D12)..3 + SpecularLevelStart(i + 1, isD3D12)]
                   == SpecularLevelCommands(specular, environment, p, i, isD3D12)
  {
    SpecularTraceDispatches(specular, environment, p, isD3D12);
    forall i | 0 <= i < specular.texture.mipLevels
      ensures SpecularIrradianceTrace(specular, environment, p, isD3D12)[3 + SpecularLevelStart(i, isD3D12)..3 + SpecularLevelStart(i + 1, isD3D12)]
                == SpecularLevelCommands(specular, environment, p, i, isD3D12)
    {
      SpecularTraceBlock(specular, environment, p, isD3D12, i);
    }
  }

  lemma SpecularTraceDispatches(specular: ResourceInfo, environment: ResourceInfo, p: Pipeline, isD3D12: bool)
    ensures DispatchCount(SpecularIrradianceTrace(specular, environment, p, isD3D12)) == specular.texture.mipLevels
  {
    var read := ReadLayout(isD3D12);
    var storage := StorageLayout(isD3D12);
    var levels := specular.texture.mipLevels;
    var head := [PreBarrier(environment, read, {ShaderRead})] + [BindPipeline(p)] + [PreBarrier(specular, storage, {ShaderRead, ShaderWrite})];
    var body := SpecularLevelsCommands(specular, environment, p, levels, isD3D12);
    var post := [PostBarrier(specular.texture.image, storage, {ShaderRead, ShaderWrite})];
    var tail := [PostBarrier(environment.texture.image, read, {ShaderWrite}), Submit, Wait];
    SpecularDispatchCount(specular, environment, p, levels, isD3D12);
    DispatchCountAppend(head, body);
    DispatchCountAppend(head + body, post);
    DispatchCountAppend(head + body + post, tail);
    NoDispatches(head);
    NoDispatches(post);
    NoDispatches(tail);
  }

  /** A trace without dispatches counts none. */
  lemma {:induction false} NoDispatches(trace: seq<Command>)
    requires forall k :: 0 <= k < |trace| ==> !trace[k].Dispatch?
    ensures DispatchCount(trace) == 0
    decreases |trace|
  {
    if |trace| > 0 {
      NoDispatches(trace[1..]);
    }
  }

  lemma SpecularTraceBlock(specular: ResourceInfo, environment: ResourceInfo, p: Pipeline, isD3D12: bool, i: nat)
    requires i < specular.texture.mipLevels
    ensures SpecularIrradianceTrace(specular, environment, p, isD3D12)[3 + SpecularLevelStart(i, isD3D12)..3 + SpecularLevelStart(i + 1, isD3D12)]
              == SpecularLevelCommands(specular, environment, p, i, isD3D12)
  {
    var read := ReadLayout(isD3D12);
    var storage := StorageLayout(isD3D12);
    var levels := specular.texture.mipLevels;
    var head := [PreBarrier(environment, read, {ShaderRead})] + [BindPipeline(p)] + [PreBarrier(specular, storage, {ShaderRead, ShaderWrite})];
    var body := SpecularLevelsCommands(specular, environment, p, levels, isD3D12);
    var post := [PostBarrier(specular.texture.image, storage, {ShaderRead, ShaderWrite})];
    var tail := [PostBarrier(environment.texture.image, read, {ShaderWrite}), Submit, Wait];
    var lo := SpecularLevelStart(i, isD3D12);
    var hi := SpecularLevelStart(i + 1, isD3D12);
    SpecularLevelsAt(specular, environment, p, levels, isD3D12, i);
    SliceOfAppend(head + body + post, tail, 3 + lo, 3 + hi);
    SliceOfAppend(head + body, post, 3 + lo, 3 + hi);
    SliceOfAppend(head, body, 3 + lo, 3 + hi);
  }

  /**
   * For distinct textures, the specular pass is layout-consistent on both APIs and leaves
   * every level of both textures in GENERAL.
   */
  lemma SpecularIrradianceReplays(specular: ResourceInfo, environment: ResourceInfo, p: Pipeline, isD3D12: bool)
    requires specular.texture.image != environment.texture.image
    ensures Replay(Fill(environment.texture.mipLevels, environment.oldLayout), environment.texture.image,
                   SpecularIrradianceTrace(specular, environment, p, isD3D12)) == Some(Fill(environment.texture.mipLevels, General))
    ensures Replay(Fill(specular.texture.mipLevels, specular.oldLayout), specular.texture.image,
                   SpecularIrradianceTrace(specular, environment, p, isD3D12)) == Some(Fill(specular.texture.mipLevels, General))
  {
    var read := ReadLayout(isD3D12);
    var storage := StorageLayout(isD3D12);
    var env := environment.texture.image;
    var out := specular.texture.image;
    var envPre := [PreBarrier(environment, read, {ShaderRead})];
    var outPre := [PreBarrier(specular, storage, {ShaderRead, ShaderWrite})];
    var work := SpecularLevelsCommands(specular, environment, p, specular.texture.mipLevels, isD3D12);
    SpecularLevelsUntouched(specular, environment, p, specular.texture.mipLevels, isD3D12, env);
    SpecularLevelsUntouched(specular, environment, p, specular.texture.mipLevels, isD3D12, out);
    var outPost := PostBarrier(out, storage, {ShaderRead, ShaderWrite});
    var envPost := PostBarrier(env, read, {ShaderWrite});
    UntouchedAppend(envPre, [BindPipeline(p)], out);
    ReplayAround(specular.texture.mipLevels, specular.oldLayout, out, envPre + [BindPipeline(p)], outPre, work, outPost, [envPost, Submit, Wait]);
    var middle := [BindPipeline(p)] + outPre + work + [outPost];
    UntouchedAppend([BindPipeline(p)], outPre, env);
    UntouchedAppend([BindPipeline(p)] + outPre, work, env);
    UntouchedAppend([BindPipeline(p)] + outPre + work, [outPost], env);
    AppendRegroup(envPre, [BindPipeline(p)], outPre, work, [outPost], [envPost], [Submit, Wait]);
    assert [envPost, Submit, Wait] == [envPost] + [Submit, Wait];
    ReplayAround(environment.texture.mipLevels, environment.oldLayout, env, [], envPre, middle, envPost, [Submit, Wait]);
  }

  // ---------------------------------------------------------------- SpecularBRDF_LUT

  /** The trace SpecularBRDF_LUT records and submits: one single-layer dispatch over the table. */
  function SpecularBRDF_LUTTrace(info: ResourceInfo, p: Pipeline, isD3D12: bool): seq<Command>
  {
    var storage := StorageLayout(isD3D12);
    var t := info.texture;
    [PreBarrier(info, storage, {ShaderRead})]
      + [BindPipeline(p),
         BindSets(p, DescriptorSet([ImageBinding(false, View(t.image, Type2D, 0, 1), storage)], None)),
         Dispatch(Groups(t.width, 32), Groups(t.height, 32), 1)]
      + [PostBarrier(t.image, storage, {ShaderRead, ShaderWrite})]
      + [Submit, Wait]
  }

  /** The lookup-table pass is layout-consistent on both APIs and leaves every level in GENERAL. */
  lemma SpecularBRDF_LUTReplays(info: ResourceInfo, p: Pipeline, isD3D12: bool)
    ensures Replay(Fill(info.texture.mipLevels, info.oldLayout), info.texture.image, SpecularBRDF_LUTTrace(info, p, isD3D12))
              == Some(Fill(info.texture.mipLevels, General))
  {
    var storage := StorageLayout(isD3D12);
    var t := info.texture;
    var pre := [PreBarrier(info, storage, {ShaderRead})];
    var work := [BindPipeline(p),
                 BindSets(p, DescriptorSet([ImageBinding(false, View(t.image, Type2D, 0, 1), storage)], None)),
                 Dispatch(Groups(t.width, 32), Groups(t.height, 32), 1)];
    assert SpecularBRDF_LUTTrace(info, p, isD3D12) == [] + pre + work + [PostBarrier(t.image, storage, {ShaderRead, ShaderWrite})] + [Submit, Wait];
    ReplayAround(t.mipLevels, info.oldLayout, t.image, [], pre, work, PostBarrier(t.image, storage, {ShaderRead, ShaderWrite}), [Submit, Wait]);
  }

  // ---------------------------------------------------------------- the passes

  /**
   * The static pipeline slots of the ImageProcessing class as the fields of one object, the
   * pipelines whose shaders RecompileRenderPipelineShaders has recompiled, in order, and the
   * graphics API in use.
   */
  class ImageProcessing {
    const isD3D12: bool
    var mipMap: Option<Pipeline>
    var mipMapArray: Option<Pipeline>
    var equirectangularToCube: Option<Pipeline>
    var diffuseIrradiance: Option<Pipeline>
    var specularIrradiance: Option<Pipeline>
    var specularBRDF_LUT: Option<Pipeline>
    var created: nat
    var recompiled: seq<Pipeline>

    function Slots(): PipelineSlots
      reads this
    {
      PipelineSlots(mipMap, mipMapArray, equirectangularToCube, diffuseIrradiance, specularIrradiance, specularBRDF_LUT, created)
    }

    /** All slots start null. */
    constructor (isD3D12: bool)
      ensures this.isD3D12 == isD3D12 && Slots() == NoPipelines && recompiled == []
      ensures SlotsValid(Slots())
    {
      this.isD3D12 := isD3D12;
      mipMap := None;
      mipMapArray := None;
      equirectangularToCube := None;
      diffuseIrradiance := None;
      specularIrradiance := None;
      specularBRDF_LUT := None;
      created := 0;
      recompiled := [];
    }

    /** Loads a pipeline from `file`; it is the `created`-th pipeline loaded. */
    method CreatePipeline(file: PipelineFile) returns (p: Pipeline)
      modifies this`created
      ensures p == Pipeline(old(created), file) && created == old(created) + 1
    {
      p := Pipeline(created, file);
      created := created + 1;
    }

    /**
     * Records and submits the mipmap pass for a texture that asked for mipmaps and has none
     * yet, then marks it generated; any other texture is left alone and nothing is recorded.
     */
    method GenerateMipMaps(info: ResourceInfo) returns (trace: seq<Command>)
      modifies this, info.texture
      ensures recompiled == old(recompiled)
      ensures !info.texture.generateMipMaps || old(info.texture.generated) ==>
                trace == [] && Slots() == old(Slots()) && info.texture.generated == old(info.texture.generated)
      ensures info.texture.generateMipMaps && !old(info.texture.generated) ==>
                && info.texture.generated
                && Slots() == AfterMipMaps(old(Slots()), info.texture.arrayLayers)
                && trace == MipTrace(info, MipPipeline(old(Slots()), info.texture.arrayLayers),
                                     MipViewType(old(Slots()), info.texture.arrayLayers), isD3D12)
    {
      var t := info.texture;
      if !t.generateMipMaps || t.generated {
        return [];
      }
      var pipeline, viewType := MipMapSlots(t.arrayLayers);
      trace := [Barrier(t.image, info.srcStage, AllSubresources, info.oldLayout, General, info.srcAccess, {ShaderRead}),
                BindPipeline(pipeline)];
      var levels := RecordMipLevels(t, pipeline, viewType);
      var closingFrom := if isD3D12 then D3D12NonPixelShaderReadOnlyOptimal else General;
      trace := trace + levels + [Barrier(t.image, ComputeShader, AllSubresources, closingFrom, General, {ShaderWrite}, {ShaderRead}), Submit, Wait];
      t.generated := true;
    }

    /**
     * The slot updates of GenerateMipMaps: both mipmap pipelines are created if null, and
     * `pipeline`, a reference to the mipmap slot, is assigned the array pipeline for a
     * layered texture. Returns the pipeline bound and the view type of the mip views.
     */
    method MipMapSlots(layers: nat) returns (pipeline: Pipeline, viewType: ViewType)
      modifies this
      ensures recompiled == old(recompiled)
      ensures Slots() == AfterMipMaps(old(Slots()), layers)
      ensures pipeline == MipPipeline(old(Slots()), layers) && viewType == MipViewType(old(Slots()), layers)
    {
      if mipMap.None? {
        var p := CreatePipeline(MipmapFile);
        mipMap := Some(p);
      }
      if mipMapArray.None? {
        var p := CreatePipeline(MipmapArrayFile);
        mipMapArray := Some(p);
      }
      if layers > 1 {
        mipMap := mipMapArray;
      }
      pipeline := mipMap.value;
      viewType := if mipMap == mipMapArray then Type2DArray else Type2D;
    }

    /** Records the commands for mip levels 1 .. levels - 1, each reading the level above it. */
    method RecordMipLevels(t: Texture, pipeline: Pipeline, viewType: ViewType) returns (commands: seq<Command>)
      ensures commands == MipLevelsCommands(t, pipeline, viewType, t.mipLevels, isD3D12)
    {
      var writeLayout := if isD3D12 then D3D12UnorderedAccess else General;
      commands := [];
      var i := 1;
      while i < t.mipLevels
        invariant 1 <= i && (i <= t.mipLevels || i == 1)
        invariant commands == MipLevelsCommands(t, pipeline, viewType, i, isD3D12)
      {
        var range := MipLevel(i, t.arrayLayers);
        var block := [Barrier(t.image, ComputeShader, range, General, writeLayout, {ShaderWrite}, {ShaderRead, ShaderWrite}),
                      BindSets(pipeline, MipSet(t.image, viewType, i - 1, t.arrayLayers)),
                      Dispatch(Groups(Shr(t.width, i), 8), Groups(Shr(t.height, i), 8), t.arrayLayers),
                      Barrier(t.image, ComputeShader, range, writeLayout, General, {ShaderRead, ShaderWrite}, {ShaderRead})];
        assert block == MipLevelCommands(t, pipeline, viewType, i, isD3D12);
        commands := commands + block;
        i := i + 1;
      }
      assert i == t.mipLevels || t.mipLevels <= 1;
    }

    /** Records and submits the conversion of an equirectangular image into a cubemap. */
    method EquirectangularToCube(cube: ResourceInfo, equirect: ResourceInfo) returns (trace: seq<Command>)
      modifies this
      ensures recompiled == old(recompiled)
      ensures Slots() == AfterEquirectangularToCube(old(Slots()))
      ensures trace == EquirectangularToCubeTrace(cube, equirect, equirectangularToCube.value, isD3D12)
    {
      if equirectangularToCube.None? {
        var p := CreatePipeline(EquirectangularToCubeFile);
        equirectangularToCube := Some(p);
      }
      var pipeline := equirectangularToCube.value;
      var read := ReadLayout(isD3D12);
      var storage := StorageLayout(isD3D12);
      trace := [];
      if equirect.oldLayout != read {
        trace := trace + [PreBarrier(equirect, read, {ShaderRead})];
      }
      trace := trace + [BindPipeline(pipeline)];
      if cube.oldLayout != storage {
        trace := trace + [PreBarrier(cube, storage, {ShaderRead, ShaderWrite})];
      }
      trace := trace + [BindSets(pipeline, EquirectangularToCubeSet(cube, equirect, isD3D12)),
                        Dispatch(Groups(cube.texture.width, 32), Groups(cube.texture.height, 32), 6)];
      trace := trace + [PostBarrier(cube.texture.image, storage, {ShaderRead, ShaderWrite})];
      trace := trace + [PostBarrier(equirect.texture.image, read, {ShaderWrite}), Submit, Wait];
    }

    /** Records and submits the diffuse irradiance convolution of an environment cubemap. */
    method DiffuseIrradiance(diffuse: ResourceInfo, environment: ResourceInfo) returns (trace: seq<Command>)
      modifies this
      ensures recompiled == old(recompiled)
      ensures Slots() == AfterDiffuseIrradiance(old(Slots()))
      ensures trace == DiffuseIrradianceTrace(diffuse, environment, diffuseIrradiance.value, isD3D12)
    {
      if diffuseIrradiance.None? {
        var p := CreatePipeline(DiffuseIrradianceFile);
        diffuseIrradiance := Some(p);
      }
      var pipeline := diffuseIrradiance.value;
      var read := ReadLayout(isD3D12);
      var storage := StorageLayout(isD3D12);
      trace := [PreBarrier(environment, read, {ShaderRead})] + [BindPipeline(pipeline)];
      trace := trace + [PreBarrier(diffuse, storage, {ShaderRead, ShaderWrite})];
      trace := trace + [BindSets(pipeline, DiffuseIrradianceSet(diffuse, environment, isD3D12)),
                        Dispatch(Groups(diffuse.texture.width, 32), Groups(diffuse.texture.height, 32), 6)];
      trace := trace + [PostBarrier(diffuse.texture.image, storage, {ShaderRead, ShaderWrite})];
      trace := trace + [PostBarrier(environment.texture.image, read, {ShaderWrite}), Submit, Wait];
    }

    /**
     * Records and submits the specular irradiance prefilter: one uniform upload, set and
     * dispatch per mip level of the output, with roughness level / levels.
     */
    method SpecularIrradiance(specular: ResourceInfo, environment: ResourceInfo) returns (trace: seq<Command>)
      modifies this
      ensures recompiled == old(recompiled)
      ensures Slots() == AfterSpecularIrradiance(old(Slots()))
      ensures trace == SpecularIrradianceTrace(specular, environment, specularIrradiance.value, isD3D12)
    {
      if specularIrradiance.None? {
        var p := CreatePipeline(SpecularIrradianceFile);
        specularIrradiance := Some(p);
      }
      var pipeline := specularIrradiance.value;
      var read := ReadLayout(isD3D12);
      var storage := StorageLayout(isD3D12);
      var levels := specular.texture.mipLevels;
      var head := [PreBarrier(environment, read, {ShaderRead})] + [BindPipeline(pipeline)]
                  + [PreBarrier(specular, storage, {ShaderRead, ShaderWrite})];
      var body := RecordSpecularLevels(specular, environment, pipeline);
      trace := head + body + [PostBarrier(specular.texture.image, storage, {ShaderRead, ShaderWrite})]
               + [PostBarrier(environment.texture.image, read, {ShaderWrite}), Submit, Wait];
    }

    /**
     * Records, for each mip level of the output in turn, the forced upload of its roughness,
     * on D3D12 a barrier on the uniform buffer, its set and its dispatch.
     */
    method RecordSpecularLevels(specular: ResourceInfo, environment: ResourceInfo, pipeline: Pipeline) returns (commands: seq<Command>)
      ensures commands == SpecularLevelsCommands(specular, environment, pipeline, specular.texture.mipLevels, isD3D12)
    {
      var levels := specular.texture.mipLevels;
      commands := [];
      var i := 0;
      while i < levels
        invariant i <= levels
        invariant commands == SpecularLevelsCommands(specular, environment, pipeline, i, isD3D12)
      {
        // the upload is forced, so it always records the copy of the level's roughness
        var block := [UniformCopy(i, Roughness(i, levels))];
        if isD3D12 {
          block := block + [UniformBarrier(i)];
        }
        block := block + [BindSets(pipeline, SpecularIrradianceSet(specular, environment, i, isD3D12)),
                          Dispatch(Groups(Shr(specular.texture.width, i), 32), Groups(Shr(specular.texture.height, i), 32), 6)];
        commands := commands + block;
        i := i + 1;
      }
    }

    /** Records and submits the computation of the split-sum BRDF lookup table. */
    method SpecularBRDF_LUT(info: ResourceInfo) returns (trace: seq<Command>)
      modifies this
      ensures recompiled == old(recompiled)
      ensures Slots() == AfterSpecularBRDF_LUT(old(Slots()))
      ensures trace == SpecularBRDF_LUTTrace(info, specularBRDF_LUT.value, isD3D12)
    {
      if specularBRDF_LUT.None? {
        var p := CreatePipeline(SpecularBRDF_LUTFile);
        specularBRDF_LUT := Some(p);
      }
      var pipeline := specularBRDF_LUT.value;
      var storage := StorageLayout(isD3D12);
      var t := info.texture;
      trace := [PreBarrier(info, storage, {ShaderRead})];
      trace := trace + [BindPipeline(pipeline),
                        BindSets(pipeline, DescriptorSet([ImageBinding(false, View(t.image, Type2D, 0, 1), storage)], None)),
                        Dispatch(Groups(t.width, 32), Groups(t.height, 32), 1)];
      trace := trace + [PostBarrier(t.image, storage, {ShaderRead, ShaderWrite})] + [Submit, Wait];
    }

    /**
     * Recompiles the shaders of every pipeline that has been created, in slot order; the
     * lookup-table pipeline is never recompiled.
     */
    method RecompileRenderPipelineShaders()
      modifies this`recompiled
      ensures recompiled == old(recompiled) + RecompileList(Slots())
    {
      var done := [];
      if mipMap.Some? {
        done := done + [mipMap.value];
      }
      assert done == Present(mipMap);
      if mipMapArray.Some? {
        done := done + [mipMapArray.value];
      }
      assert done == Present(mipMap) + Present(mipMapArray);
      if equirectangularToCube.Some? {
        done := done + [equirectangularToCube.value];
      }
      assert done == Present(mipMap) + Present(mipMapArray) + Present(equirectangularToCube);
      if diffuseIrradiance.Some? {
        done := done + [diffuseIrradiance.value];
      }
      assert done == Present(mipMap) + Present(mipMapArray) + Present(equirectangularToCube) + Present(diffuseIrradiance);
      if specularIrradiance.Some? {
        done := done + [specularIrradiance.value];
      }
      recompiled := recompiled + done;
    }
  }
}
