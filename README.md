# GEAR_CORE asset pipeline and animation core, in Dafny

This project models the core of GEAR_CORE, a C++ game-engine library. The model covers
the path that takes an asset file to data the engine can draw and animate:

- **Model loading.** `ModelLoader::LoadModelData` walks an imported Assimp scene. It
  builds a node graph, converts each node's meshes (vertices, indices, bones, a material
  found in or added to the material registry) and extracts the scene's animation tracks.
  The older `assimp_loader` in `Utils/Assimp.h` flattens the same scene into a list of
  meshes with texture bindings.
- **Animation.** `Animator::Update` runs each animation sequence. For every node track it
  claims a mesh of that name, finds the keyframe pair around the elapsed time and
  interpolates the translation, rotation or scale. A track whose name no mesh carries is
  still interpolated, into the update held for whichever node was matched last; the model
  keeps this behaviour.
- **Image processing.** `ImageProcessing` records the compute passes that generate
  mipmaps, turn an equirectangular map into a cubemap, and precompute the diffuse and
  specular irradiance maps and the BRDF lookup table. Each pass creates its pipeline
  lazily, on first use.
- **Batch rendering.** `BatchRenderer2D` batches textured quads. It has a fixed index
  buffer of two triangles per quad, a texture slot table and a flush that draws the batch.
- **Uniform buffers.** A `UniformBuffer` has an upload buffer and a device buffer. They
  are carved from two shared memory blocks that are created on first use. The copy
  between the buffers is recorded once unless it is forced.

## How it is modelled

- Assimp's scene is a value (module `Scene`). Pointers become indices into the scene's
  mesh list. A null pointer or a failed import becomes `None`.
- Each core file keeps its own form:
  - The loaders' loops are methods, proved equal to functions that describe the result.
  - The objects the engine updates in place are classes: `ModelBuilder`,
    `MaterialRegistry`, `Loader`, `Renderer`, `ImageProcessing`, `Texture`,
    `MemoryBlocks` and `Buffers`.
  - The batch renderer's index buffer and vertex buffer are arrays.
- The GPU work of an image-processing pass is the sequence of commands it records
  (barriers, pipeline and descriptor bindings, dispatches, submit and wait). `Replay`
  replays the layout transitions of one image over that sequence. The replay lemmas
  state two things about every image a pass touches:
  - each barrier's old layout is the layout the image is actually in;
  - the pass leaves the image in the GENERAL layout.
- Floating-point values are reals. The trigonometry and normalisation of SLERP are
  parameters (`SlerpPrimitives`). For those, only the algebraic properties the proofs
  rely on are assumed.
- Undefined behaviour in the C++ is an explicit outcome in the model:
  - a `% 0` on an empty keyframe track becomes `Failure(EmptyTrack)`;
  - a division by a zero-length keyframe interval becomes `NonFinite`.

## Model

| member | source | states |
|---|---|---|
| Animator.KeyframeIndex | GEAR_CORE/src/Animation/Animator.cpp:60-75 | the scan result is the unset sentinel exactly when every keyframe lies after the elapsed time; otherwise it is the first keyframe whose timepoint is not after it |
| Animator.ScanKeyframes | GEAR_CORE/src/Animation/Animator.cpp:60-75 | the scanning loop returns the index KeyframeIndex specifies |
| Animator.SortedTrackScan | GEAR_CORE/src/Animation/Animator.cpp:60-75 | on a time-sorted track the scan only ever picks keyframe 0 or nothing, and it picks 0 exactly when the first keyframe is not after the elapsed time |
| Animator.Successor | GEAR_CORE/src/Animation/Animator.cpp:77-78 | the size_t increment of the keyframe index: a set index moves to the next one, and the unset sentinel wraps to 0 |
| Animator.BracketOf | GEAR_CORE/src/Animation/Animator.cpp:77-78 | both keyframes of the interpolation pair are in range for a non-empty track |
| Animator.UnsetBracketWrapsToStart | GEAR_CORE/src/Animation/Animator.cpp:77-78 | with no keyframe found, the second keyframe of the pair is keyframe 0 |
| Animator.FoundBracketIsConsecutive | GEAR_CORE/src/Animation/Animator.cpp:77-78 | a found index j pairs keyframe j with keyframe j + 1, or with keyframe 0 when j is the last |
| Animator.LerpPoint | GEAR_CORE/src/Animation/Animator.cpp:80-81 | the lerp point is finite exactly when the two timepoints differ, and then it maps the first timepoint to 0 and the elapsed time to itself along the interval |
| Animator.InterpolateTranslation | GEAR_CORE/src/Animation/Animator.cpp:103-106 | t = 0 gives the start, t = 1 the end, and equal endpoints give that point |
| Animator.InterpolateScale | GEAR_CORE/src/Animation/Animator.cpp:146-149 | t = 0 gives the start, t = 1 the end, and equal endpoints give that point |
| Animator.InterpolationStaysOnSegment | GEAR_CORE/src/Animation/Animator.cpp:103-106 | for t in [0, 1], each coordinate of the interpolated translation and scale lies between the endpoints' coordinates |
| Animator.AlignEnd | GEAR_CORE/src/Animation/Animator.cpp:124-133 | the end quaternion is negated exactly when the dot product is negative; the aligned dot product is non-negative and clamped to at most 1 |
| Animator.InterpolateRotation | GEAR_CORE/src/Animation/Animator.cpp:108-144 | the result is normalised whenever the normalisation is idempotent |
| Animator.RotationIgnoresEndSign | GEAR_CORE/src/Animation/Animator.cpp:108-144 | interpolating towards -end gives the same rotation as towards end (q and -q are one rotation) |
| Animator.MatchMesh | GEAR_CORE/src/Animation/Animator.cpp:38-58 | the mesh search loop claims the track's node exactly as the claim rule says: it pushes the previous update and starts a fresh one when a mesh has the track's name and the current update is not already for it |
| Animator.ApplyTrack | GEAR_CORE/src/Animation/Animator.cpp:60-98 | a track fails exactly when it has no keyframes (the `% 0`); otherwise the field of the track's kind receives the interpolation between the keyframes the scan brackets (non-finite when their timepoints coincide), every other field and the node name are kept, and an unclassified track changes nothing |
| Animator.TrackStep | GEAR_CORE/src/Animation/Animator.cpp:38-98 | one track pushes the previous update exactly when it claims a new node while one is held; the current node becomes the track's name when claimed; an unclaimed track with no node held changes nothing; once a node is held, the step fails exactly on an empty track and otherwise applies the track to the held update |
| Animator.UnmatchedTrackWritesHeldUpdate | GEAR_CORE/src/Animation/Animator.cpp:40-58 | a track whose name no mesh carries is still interpolated, into the update held for the node matched last, and pushes nothing |
| Animator.UnnamedUntilClaimed | GEAR_CORE/src/Animation/Animator.cpp:38-58 | when no mesh is unnamed, a pass that claims no node ends with an empty current update |
| Animator.TrackStepKeepsChained | GEAR_CORE/src/Animation/Animator.cpp:44-53 | each step keeps the pushed updates named and with no two neighbours for the same node |
| Animator.RunPassChained | GEAR_CORE/src/Animation/Animator.cpp:36-99 | a whole pass over one animation's tracks pushes only named updates, with no two neighbours for the same node |
| Animator.InterpolateTrack | GEAR_CORE/src/Animation/Animator.cpp:60-98 | the keyframe scan and the interpolation of one track compute ApplyTrack |
| Animator.RunPassFailurePersists | GEAR_CORE/src/Animation/Animator.cpp:38-99 | once a prefix of the tracks fails, the whole pass fails with the same error |
| Animator.RunTracks | GEAR_CORE/src/Animation/Animator.cpp:36-99 | the loop over one animation's tracks computes the pass function |
| Animator.UpdateSkipsNonAnimations | GEAR_CORE/src/Animation/Animator.cpp:28-35 | there is one outcome per sequence, and a sequence is skipped exactly when it is not an animation |
| Animator.UpdateAllFailurePersists | GEAR_CORE/src/Animation/Animator.cpp:28-100 | once a prefix of the sequences fails, the whole update fails with the same error |
| Animator.Update | GEAR_CORE/src/Animation/Animator.cpp:23-101 | the loop over the sequences computes UpdateAll |
| Animator.UpdateModel | GEAR_CORE/src/Animation/Animator.cpp:15-21 | updating a mesh runs Update over its model's animations and meshes |
| Animator.PastLastKeyframeExtrapolates | GEAR_CORE/src/Animation/Animator.cpp:60-81 | a track keyed at 0, 1 and 2 and read at 2.5 picks the pair (0, 1) with lerp point 2.5, so it extrapolates along the first interval |
| Scene.FlattenTriangles | GEAR_CORE/src/Utils/ModelLoader.cpp:137-143 | triangulated faces give three indices per face |
| Scene.FlattenAppend | GEAR_CORE/src/Utils/ModelLoader.cpp:138-143 | flattening two face lists one after the other concatenates their index lists |
| AssimpLoader.GearType | GEAR_CORE/src/Utils/Assimp.h:90-118 | the switch maps each Assimp texture type to its engine type, in both directions, and every other type to UNKNOWN |
| AssimpLoader.ConvertVertex | GEAR_CORE/src/Utils/Assimp.h:58-68 | the texture ID is 0; a position has w = 1 and a normal w = 0; each absent stream leaves its field zero |
| AssimpLoader.Vertices | GEAR_CORE/src/Utils/Assimp.h:56-70 | there is one converted vertex per source vertex, in order |
| AssimpLoader.VertexAgreesWithModelLoader | GEAR_CORE/src/Utils/Assimp.h:56-70 | both loaders convert a vertex to the same position, texture coordinate, normal and colour |
| AssimpLoader.TypeBindings | GEAR_CORE/src/Utils/Assimp.h:88-133 | one texture binding per file path, in order, all of the given type |
| AssimpLoader.BindingsMatchPaths | GEAR_CORE/src/Utils/Assimp.h:82-136 | the material's bindings are exactly the listed paths, each bound with the engine type of its Assimp type; there is one binding per listed path |
| AssimpLoader.ConvertAll | GEAR_CORE/src/Utils/Assimp.h:41-45 | one converted mesh per mesh reference |
| AssimpLoader.ConvertAllAt | GEAR_CORE/src/Utils/Assimp.h:41-45 | the k-th converted mesh is the conversion of the k-th reference |
| AssimpLoader.ConvertAllAppend | GEAR_CORE/src/Utils/Assimp.h:39-50 | converting two reference lists one after the other concatenates the results |
| AssimpLoader.ConvertNodeInPreOrder | GEAR_CORE/src/Utils/Assimp.h:39-50 | a node's meshes come out in the pre-order of the tree: its own meshes, then each child's subtree |
| AssimpLoader.ConvertForestInPreOrder | GEAR_CORE/src/Utils/Assimp.h:46-49 | the children's meshes come out in the pre-order of the children's subtrees |
| AssimpLoader.ProcessVertices | GEAR_CORE/src/Utils/Assimp.h:56-70 | the vertex loop produces the converted vertices |
| AssimpLoader.AddTypeTextures | GEAR_CORE/src/Utils/Assimp.h:84-134 | the texture loop appends one binding of the type's engine type per path |
| AssimpLoader.ProcessTextures | GEAR_CORE/src/Utils/Assimp.h:82-136 | the loop over all texture types yields the material's bindings |
| AssimpLoader.ProcessMesh | GEAR_CORE/src/Utils/Assimp.h:52-140 | the mesh has the converted vertices, the flattened face indices and the material's bindings |
| AssimpLoader.Loader.constructor | GEAR_CORE/src/Utils/Assimp.h:24 | the shared result list starts empty |
| AssimpLoader.Loader.LoadModel | GEAR_CORE/src/Utils/Assimp.h:25-37 | a failed import returns nothing and leaves the list alone; otherwise the list is cleared and holds the scene's meshes in tree pre-order, and that list is returned |
| AssimpLoader.Loader.ProcessNode | GEAR_CORE/src/Utils/Assimp.h:39-50 | the node's subtree's meshes are appended to the list |
| AssimpLoader.Loader.ProcessOwnMeshes | GEAR_CORE/src/Utils/Assimp.h:41-45 | the node's own meshes are appended in order |
| AssimpLoader.Loader.ProcessChildren | GEAR_CORE/src/Utils/Assimp.h:46-49 | each child's subtree is appended in turn |
| AssimpLoader.SameGeometry | GEAR_CORE/src/Utils/Assimp.h:52-78 | for the same mesh references, the two loaders produce the same number of meshes, the same indices and the same vertex positions |
| AssimpLoader.LoadersAgreeOnGeometry | GEAR_CORE/src/Utils/Assimp.h:25-37 | on a scene both loaders accept, they produce the same meshes in the same order, with the same indices and the same vertex positions |
| ModelLoader.PbrTextureType | GEAR_CORE/src/Utils/ModelLoader.cpp:185-203 | the switch maps each PBR Assimp type to its material slot, in both directions (both normal types to NORMAL), and every other type to UNKNOWN |
| ModelLoader.Dedup | GEAR_CORE/src/Utils/ModelLoader.cpp:336-346 | the result holds the same paths as the input, none twice, and is no longer |
| ModelLoader.DedupKeepsFirstOccurrenceOrder | GEAR_CORE/src/Utils/ModelLoader.cpp:336-346 | paths keep the order of their first occurrence |
| ModelLoader.DedupOfDistinct | GEAR_CORE/src/Utils/ModelLoader.cpp:336-346 | a list without duplicates is returned unchanged |
| ModelLoader.GetMaterialFilePath | GEAR_CORE/src/Utils/ModelLoader.cpp:327-349 | the loop returns the material's paths of the type with duplicates removed |
| ModelLoader.LastExisting | GEAR_CORE/src/Utils/ModelLoader.cpp:205-219 | nothing is found exactly when no path exists; a found path exists |
| ModelLoader.AddTextures | GEAR_CORE/src/Utils/ModelLoader.cpp:183-221 | the slot gets the last existing path, overwriting an earlier texture; with no existing path the map is unchanged |
| ModelLoader.TexturesComeFromExistingFiles | GEAR_CORE/src/Utils/ModelLoader.cpp:176-223 | every texture of the map is an existing file that the material lists under an Assimp type mapped to that slot |
| ModelLoader.AddTextureFiles | GEAR_CORE/src/Utils/ModelLoader.cpp:183-221 | the loop over one type's paths computes AddTextures |
| ModelLoader.AddTypeTextures | GEAR_CORE/src/Utils/ModelLoader.cpp:177-222 | one texture type's deduplicated paths are added to their slot |
| ModelLoader.CollectTextures | GEAR_CORE/src/Utils/ModelLoader.cpp:176-223 | the loop over all texture types builds the material's texture map |
| ModelLoader.MaterialRegistry.constructor | GEAR_CORE/src/Utils/ModelLoader.cpp:169 | the registry starts empty |
| ModelLoader.MaterialRegistry.FindMaterial | GEAR_CORE/src/Utils/ModelLoader.cpp:169-173 | a material is found exactly when its name is registered, and it is the registered one |
| ModelLoader.MaterialRegistry.AddMaterial | GEAR_CORE/src/Utils/ModelLoader.cpp:232 | the name is registered with the material |
| ModelLoader.ResolveMaterial | GEAR_CORE/src/Utils/ModelLoader.cpp:165-233 | a registered name reuses its material and leaves the registry alone; otherwise a new material is built and registered; the result is always the name's registered material, and earlier entries are kept |
| ModelLoader.ConvertVertex | GEAR_CORE/src/Utils/ModelLoader.cpp:111-133 | a position is the source point with w = 1; a normal has w = 0; texture coordinates and colours are copied from their streams; each absent stream leaves its field zero |
| ModelLoader.Vertices | GEAR_CORE/src/Utils/ModelLoader.cpp:108-134 | there is one converted vertex per source vertex, in order |
| ModelLoader.WeightPairs | GEAR_CORE/src/Utils/ModelLoader.cpp:153-158 | there is one (vertex ID, weight) pair per weight, in order |
| ModelLoader.Bones | GEAR_CORE/src/Utils/ModelLoader.cpp:146-162 | there is one bone per source bone, holding its weight pairs |
| ModelLoader.ProcessVertices | GEAR_CORE/src/Utils/ModelLoader.cpp:108-134 | the vertex loop produces the converted vertices |
| ModelLoader.ProcessIndices | GEAR_CORE/src/Utils/ModelLoader.cpp:137-143 | the face loops produce the faces' indices concatenated in order |
| ModelLoader.ProcessBones | GEAR_CORE/src/Utils/ModelLoader.cpp:146-162 | the bone loop produces the converted bones |
| ModelLoader.ChannelClass | GEAR_CORE/src/Utils/ModelLoader.cpp:262-320 | a channel is translation, rotation or scale by the first of "Translation", "Rotation" and "Scaling" in its name, in that order of precedence, and otherwise unclassified |
| ModelLoader.PositionKeyframes | GEAR_CORE/src/Utils/ModelLoader.cpp:266-278 | there is one keyframe per position key, with its time and its value as the translation |
| ModelLoader.RotationKeyframes | GEAR_CORE/src/Utils/ModelLoader.cpp:284-297 | there is one keyframe per rotation key, with its time and its (w, x, y, z) value as the orientation |
| ModelLoader.ScalingKeyframes | GEAR_CORE/src/Utils/ModelLoader.cpp:303-315 | there is one keyframe per scaling key, with its time and its value as the scale |
| ModelLoader.ChannelTrack | GEAR_CORE/src/Utils/ModelLoader.cpp:255-320 | a track is named after its channel and has the kind of the channel's class and that class's keys copied one keyframe per key, time and value; an unclassified channel has no keyframes |
| ModelLoader.TicksToFrames | GEAR_CORE/src/Utils/ModelLoader.cpp:250 | the uint32 cast truncates the ticks per second to the integer below, within uint32 range |
| ModelLoader.Tracks | GEAR_CORE/src/Utils/ModelLoader.cpp:253-322 | there is one track per channel, in order |
| ModelLoader.ExtractChannelsCurrent | GEAR_CORE/src/Utils/ModelLoader.cpp:253-322 | the animation being filled ends with one track per channel, after the tracks it started with |
| ModelLoader.ExtractChannelsAppends | GEAR_CORE/src/Utils/ModelLoader.cpp:253-322 | one copy of the animation is pushed per classified channel, after the animations already extracted |
| ModelLoader.ExtractChannelsSnapshots | GEAR_CORE/src/Utils/ModelLoader.cpp:253-322 | each pushed copy has the animation's header and a prefix of its tracks ending at a classified channel, with more tracks than its rank |
| ModelLoader.SingleAnimationIndexable | GEAR_CORE/src/Utils/ModelLoader.cpp:69-81 | with one source animation, the `nodeAnimations[i]` reads of the node graph stay in range |
| ModelLoader.ExtractedAnimationsShape | GEAR_CORE/src/Utils/ModelLoader.cpp:238-325 | every extracted animation is an animation sequence, and there is one per classified channel of the scene |
| ModelLoader.TwoAnimationsNotIndexable | GEAR_CORE/src/Utils/ModelLoader.cpp:69-81 | two source animations of one classified channel each make the read of track 1 of animation 1 go out of range |
| ModelLoader.CopyPositionKeys | GEAR_CORE/src/Utils/ModelLoader.cpp:265-278 | the loop produces the position keyframes |
| ModelLoader.CopyRotationKeys | GEAR_CORE/src/Utils/ModelLoader.cpp:283-297 | the loop produces the rotation keyframes |
| ModelLoader.CopyScalingKeys | GEAR_CORE/src/Utils/ModelLoader.cpp:302-315 | the loop produces the scaling keyframes |
| ModelLoader.ProcessChannel | GEAR_CORE/src/Utils/ModelLoader.cpp:257-320 | one channel becomes its track |
| ModelLoader.ProcessChannels | GEAR_CORE/src/Utils/ModelLoader.cpp:253-322 | the channel loop pushes a copy of the animation after every classified channel |
| ModelLoader.ProcessAnimations | GEAR_CORE/src/Utils/ModelLoader.cpp:238-325 | the loop over the scene's animations yields the extracted animations |
| ModelLoader.MeshesOf | GEAR_CORE/src/Utils/ModelLoader.cpp:94-237 | there is one mesh per reference, converted from it and named after the node; registry entries already present are kept |
| ModelLoader.ProcessMeshes | GEAR_CORE/src/Utils/ModelLoader.cpp:94-237 | the mesh loop produces those meshes and the updated registry |
| ModelLoader.LastMeshIndex | GEAR_CORE/src/Utils/ModelLoader.cpp:63-68 | no index is found exactly when no mesh carries the name; a found index is the last mesh with that name |
| ModelLoader.FindMeshIndex | GEAR_CORE/src/Utils/ModelLoader.cpp:63-68 | the loop computes LastMeshIndex |
| ModelLoader.AnimationMatch | GEAR_CORE/src/Utils/ModelLoader.cpp:69-81 | no match exactly when no animation i has a track i with the name; otherwise the last such animation, with the track index set to its last track |
| ModelLoader.FindAnimationIndex | GEAR_CORE/src/Utils/ModelLoader.cpp:69-81 | the two nested loops compute AnimationMatch |
| ModelLoader.TrackAtOtherPositionMissed | GEAR_CORE/src/Utils/ModelLoader.cpp:72-75 | a node whose track sits at position 1 of animation 0 gets no animation index |
| ModelLoader.OwnMeshesFound | GEAR_CORE/src/Utils/ModelLoader.cpp:57-68 | a node with meshes of its own gets the last of them; a node gets no mesh index exactly when it has none of its own and no earlier mesh carries its name |
| ModelLoader.Visit | GEAR_CORE/src/Utils/ModelLoader.cpp:44-81 | visiting a node takes its name, extracts the animations at the root when there are none yet (keeping them indexable), and keeps the registry's entries |
| ModelLoader.VisitMeshes | GEAR_CORE/src/Utils/ModelLoader.cpp:57-61 | the node's own meshes are appended, converted from its mesh references in order, each tagged with the node's name and its registry material |
| ModelLoader.VisitIndices | GEAR_CORE/src/Utils/ModelLoader.cpp:63-81 | the node's mesh index is LastMeshIndex and its animation indices are AnimationMatch, over the data gathered so far |
| ModelLoader.BuildNode | GEAR_CORE/src/Utils/ModelLoader.cpp:42-92 | the built node mirrors the source tree; every index in it is in range and points at a mesh or track of the node's name; the meshes grow by the subtree's meshes in pre-order, each tagged with the name of the node that references it and holding the registry's material for its scene material's name; earlier registry entries are kept |
| ModelLoader.BuildNodeIndices | GEAR_CORE/src/Utils/ModelLoader.cpp:63-81 | a node with meshes gets the last of its own; it has no mesh index exactly when it has none and no earlier mesh has its name; it has no animation index exactly when no animation i has a track i of its name |
| ModelLoader.BuildChildren | GEAR_CORE/src/Utils/ModelLoader.cpp:84-90 | each child is built and mirrors its source child with valid indices; the meshes grow by the children's subtrees in pre-order, each tagged with its owning node's name and its registry material; the animations are unchanged |
| ModelLoader.Load | GEAR_CORE/src/Utils/ModelLoader.cpp:14-40 | a failed import gives empty model data and leaves the registry alone; otherwise the graph mirrors the scene tree with valid indices, the meshes are the scene's meshes in pre-order, each tagged with its owning node's name and holding the registry's material for its scene material's name, and the animations are the extracted ones |
| ModelLoader.LoadSharesMaterials | GEAR_CORE/src/Utils/ModelLoader.cpp:94-237 | the k-th loaded mesh belongs to the k-th mesh-referencing node in pre-order, and meshes whose scene materials have the same name hold the same material instance |
| ModelLoader.ModelBuilder.constructor | GEAR_CORE/src/Utils/ModelLoader.cpp:36 | the model data starts with no meshes and no animations |
| ModelLoader.ModelBuilder.VisitNode | GEAR_CORE/src/Utils/ModelLoader.cpp:44-81 | the in-place visit of one node computes Visit on the builder's state and the registry |
| ModelLoader.ModelBuilder.BuildNodeGraph | GEAR_CORE/src/Utils/ModelLoader.cpp:42-92 | the recursive in-place build computes BuildNode |
| ModelLoader.ModelBuilder.BuildChildNodes | GEAR_CORE/src/Utils/ModelLoader.cpp:84-90 | the loop over the children computes BuildChildren |
| ModelLoader.LoadModelData | GEAR_CORE/src/Utils/ModelLoader.cpp:14-40 | loading a scene produces the model data and the registry that Load describes |
| ImageProcessing.Texture.constructor | GEAR_CORE/src/Graphics/ImageProcessing.cpp:34-35 | a new texture has its size, levels and layers, and its mipmaps are not generated yet |
| ImageProcessing.Shr | GEAR_CORE/src/Graphics/ImageProcessing.cpp:161-162 | a right shift never grows its operand |
| ImageProcessing.Groups | GEAR_CORE/src/Graphics/ImageProcessing.cpp:161-162 | the group count is at least 1; when the extent is at least one tile, the groups cover it to within less than one tile; a smaller extent gets one group |
| ImageProcessing.GroupsMonotone | GEAR_CORE/src/Graphics/ImageProcessing.cpp:311-312 | a larger extent never gets fewer groups |
| ImageProcessing.LevelGroupsNonIncreasing | GEAR_CORE/src/Graphics/ImageProcessing.cpp:642-643 | a later mip level never gets more groups than an earlier one |
| ImageProcessing.Roughness | GEAR_CORE/src/Graphics/ImageProcessing.cpp:555-560 | the roughness of a level is in [0, 1), and level 0 has roughness 0 |
| ImageProcessing.RoughnessIncreases | GEAR_CORE/src/Graphics/ImageProcessing.cpp:555-560 | a later level has a strictly greater roughness |
| ImageProcessing.Lazy | GEAR_CORE/src/Graphics/ImageProcessing.cpp:37-46 | a slot is always filled afterwards; a filled slot is kept and creates nothing; an empty slot gets a new pipeline for its file |
| ImageProcessing.AfterMipMaps | GEAR_CORE/src/Graphics/ImageProcessing.cpp:37-80 | both mipmap slots are filled; with more than one layer the plain slot becomes an alias of the array slot (the reference assignment); the other slots are untouched |
| ImageProcessing.AfterEquirectangularToCube | GEAR_CORE/src/Graphics/ImageProcessing.cpp:202-212 | the pass's slot is filled |
| ImageProcessing.AfterDiffuseIrradiance | GEAR_CORE/src/Graphics/ImageProcessing.cpp:355-365 | the pass's slot is filled |
| ImageProcessing.AfterSpecularIrradiance | GEAR_CORE/src/Graphics/ImageProcessing.cpp:496-506 | the pass's slot is filled |
| ImageProcessing.AfterSpecularBRDF_LUT | GEAR_CORE/src/Graphics/ImageProcessing.cpp:681-691 | the pass's slot is filled |
| ImageProcessing.MipMapsCreateLazily | GEAR_CORE/src/Graphics/ImageProcessing.cpp:37-80 | every slot holds a pipeline of its own file or the alias; a second run changes nothing; existing pipelines are kept and nothing new is created when both slots are filled |
| ImageProcessing.EquirectangularToCubeCreatesLazily | GEAR_CORE/src/Graphics/ImageProcessing.cpp:202-212 | the slots stay valid; a filled slot leaves everything unchanged; the step is idempotent |
| ImageProcessing.DiffuseIrradianceCreatesLazily | GEAR_CORE/src/Graphics/ImageProcessing.cpp:355-365 | the slots stay valid; a filled slot leaves everything unchanged; the step is idempotent |
| ImageProcessing.SpecularIrradianceCreatesLazily | GEAR_CORE/src/Graphics/ImageProcessing.cpp:496-506 | the slots stay valid; a filled slot leaves everything unchanged; the step is idempotent |
| ImageProcessing.SpecularBRDF_LUTCreatesLazily | GEAR_CORE/src/Graphics/ImageProcessing.cpp:681-691 | the slots stay valid; a filled slot leaves everything unchanged; the step is idempotent |
| ImageProcessing.MipMapAliasSticks | GEAR_CORE/src/Graphics/ImageProcessing.cpp:78-89 | after an array texture, every later mipmap pass uses the array pipeline with 2D-array views, whatever its layer count |
| ImageProcessing.RecompiledPipelines | GEAR_CORE/src/Graphics/ImageProcessing.cpp:788-801 | exactly the pipelines in the five listed slots are recompiled, never the BRDF table's; an aliased mipmap slot recompiles the array pipeline twice |
| ImageProcessing.OptionalPre | GEAR_CORE/src/Graphics/ImageProcessing.cpp:287-308 | the pre-dispatch barrier is recorded exactly when the old layout differs from the one the pass needs |
| ImageProcessing.PostBarrier | GEAR_CORE/src/Graphics/ImageProcessing.cpp:316-343 | a post-dispatch barrier covers the whole image and moves it from the pass's layout to GENERAL |
| ImageProcessing.MipLevelBrackets | GEAR_CORE/src/Graphics/ImageProcessing.cpp:146-176 | level i is bracketed by two barriers on that level's range, the second undoing the first into GENERAL; the set reads level i - 1 and writes level i; the dispatch covers every layer with at least one group per axis |
| ImageProcessing.MipTraceShape | GEAR_CORE/src/Graphics/ImageProcessing.cpp:131-195 | the recording is the whole-texture barrier, the pipeline binding, one four-command block per level 1 .. levels - 1, the closing barrier, submit and wait |
| ImageProcessing.MipDispatchCount | GEAR_CORE/src/Graphics/ImageProcessing.cpp:146-176 | one dispatch per generated level: levels - 1 |
| ImageProcessing.MipTraceReplays | GEAR_CORE/src/Graphics/ImageProcessing.cpp:131-189 | on Vulkan every barrier of the mipmap pass finds the texture in its old layout, and all levels end in GENERAL |
| ImageProcessing.EquirectangularToCubeReplays | GEAR_CORE/src/Graphics/ImageProcessing.cpp:277-346 | for two distinct images, each barrier finds its image in its old layout, and both images end in GENERAL |
| ImageProcessing.DiffuseIrradianceReplays | GEAR_CORE/src/Graphics/ImageProcessing.cpp:430-486 | for two distinct images, each barrier finds its image in its old layout, and both images end in GENERAL |
| ImageProcessing.SpecularLevelContents | GEAR_CORE/src/Graphics/ImageProcessing.cpp:624-646 | level i uploads its roughness (in [0, 1)), adds the uniform barrier on D3D12, binds a set with level i's uniform that writes level i of the cube, and ends with its only dispatch, over six faces |
| ImageProcessing.SpecularTraceShape | GEAR_CORE/src/Graphics/ImageProcessing.cpp:597-676 | the recording binds the pipeline second, holds one block per level in order, and dispatches once per level |
| ImageProcessing.SpecularIrradianceReplays | GEAR_CORE/src/Graphics/ImageProcessing.cpp:597-672 | for two distinct images, each barrier finds its image in its old layout, and both images end in GENERAL |
| ImageProcessing.SpecularBRDF_LUTReplays | GEAR_CORE/src/Graphics/ImageProcessing.cpp:747-781 | the barriers find the table in its old layout, and it ends in GENERAL |
| ImageProcessing.ImageProcessing.constructor | GEAR_CORE/src/Graphics/ImageProcessing.cpp:17-22 | all six pipeline slots start null and nothing is recompiled |
| ImageProcessing.ImageProcessing.CreatePipeline | GEAR_CORE/src/Graphics/ImageProcessing.cpp:37-46 | a new pipeline for the file, distinct from every earlier one |
| ImageProcessing.ImageProcessing.GenerateMipMaps | GEAR_CORE/src/Graphics/ImageProcessing.cpp:32-198 | a texture without mipmap generation, or already generated, is skipped with nothing recorded; otherwise the slots are filled lazily (with the alias), the mipmap recording is produced and the texture is marked generated |
| ImageProcessing.ImageProcessing.MipMapSlots | GEAR_CORE/src/Graphics/ImageProcessing.cpp:37-89 | the pipeline and the view type the pass uses, with the slots updated as AfterMipMaps says |
| ImageProcessing.ImageProcessing.RecordMipLevels | GEAR_CORE/src/Graphics/ImageProcessing.cpp:146-177 | the level loop records the blocks for levels 1 .. levels - 1 |
| ImageProcessing.ImageProcessing.EquirectangularToCube | GEAR_CORE/src/Graphics/ImageProcessing.cpp:200-351 | the slot is filled lazily and the pass's recording is produced with that pipeline |
| ImageProcessing.ImageProcessing.DiffuseIrradiance | GEAR_CORE/src/Graphics/ImageProcessing.cpp:353-492 | the slot is filled lazily and the pass's recording is produced with that pipeline |
| ImageProcessing.ImageProcessing.SpecularIrradiance | GEAR_CORE/src/Graphics/ImageProcessing.cpp:494-677 | the slot is filled lazily and the pass's recording is produced with that pipeline |
| ImageProcessing.ImageProcessing.RecordSpecularLevels | GEAR_CORE/src/Graphics/ImageProcessing.cpp:624-646 | the level loop records one block per mip level |
| ImageProcessing.ImageProcessing.SpecularBRDF_LUT | GEAR_CORE/src/Graphics/ImageProcessing.cpp:679-786 | the slot is filled lazily and the pass's recording is produced with that pipeline |
| ImageProcessing.ImageProcessing.RecompileRenderPipelineShaders | GEAR_CORE/src/Graphics/ImageProcessing.cpp:788-801 | the non-null pipelines among the five listed slots are recompiled, in order |
| BatchRenderer2D.QuadGroup | GEAR_CORE/src/Graphics/Renderer/BatchRenderer2D.cpp:45-50 | quad q's six indices all name one of its own four vertices |
| BatchRenderer2D.QuadIndices | GEAR_CORE/src/Graphics/Renderer/BatchRenderer2D.cpp:41-52 | six indices per quad |
| BatchRenderer2D.GenerateQuadIndices | GEAR_CORE/src/Graphics/Renderer/BatchRenderer2D.cpp:41-52 | the loop filling the array writes the index pattern of size / 6 quads |
| BatchRenderer2D.WriteQuadGroup | GEAR_CORE/src/Graphics/Renderer/BatchRenderer2D.cpp:45-51 | one iteration appends quad q's group after the entries already written |
| BatchRenderer2D.QuadIndicesPrefix | GEAR_CORE/src/Graphics/Renderer/BatchRenderer2D.cpp:43-52 | the pattern for fewer quads is a prefix of the pattern for more |
| BatchRenderer2D.QuadIndexGroup | GEAR_CORE/src/Graphics/Renderer/BatchRenderer2D.cpp:45-50 | quad q's entries are 4q, 4q+1, 4q+2, 4q+2, 4q+3, 4q: two triangles sharing a diagonal |
| BatchRenderer2D.QuadIndexAt | GEAR_CORE/src/Graphics/Renderer/BatchRenderer2D.cpp:43-52 | entry p is 4(p / 6) plus the pattern's (p mod 6)-th offset |
| BatchRenderer2D.QuadIndicesInRange | GEAR_CORE/src/Graphics/Renderer/BatchRenderer2D.cpp:41-52 | every index names one of the 4 * quads vertices |
| BatchRenderer2D.FirstIndex | GEAR_CORE/src/Graphics/Renderer/BatchRenderer2D.cpp:84-92 | the search finds nothing exactly when the ID is not in the table; otherwise it finds the first position holding it |
| BatchRenderer2D.ChooseSlotKnown | GEAR_CORE/src/Graphics/Renderer/BatchRenderer2D.cpp:84-92 | a known texture keeps the table and gets its position + 1 |
| BatchRenderer2D.ChooseSlotNew | GEAR_CORE/src/Graphics/Renderer/BatchRenderer2D.cpp:93-103 | a new texture ends last in the table with slot equal to the table size; the batch is flushed exactly when the grown table reaches the slot limit |
| BatchRenderer2D.SlotNamesTexture | GEAR_CORE/src/Graphics/Renderer/BatchRenderer2D.cpp:83-103 | the slot handed out always names the submitted texture in the table |
| BatchRenderer2D.ChooseSlotKeepsNoDuplicates | GEAR_CORE/src/Graphics/Renderer/BatchRenderer2D.cpp:83-103 | the table never holds a texture twice |
| BatchRenderer2D.ChooseSlotBounded | GEAR_CORE/src/Graphics/Renderer/BatchRenderer2D.cpp:93-101 | with at least two slots, a table within the limit stays within it |
| BatchRenderer2D.QuadVertex | GEAR_CORE/src/Graphics/Renderer/BatchRenderer2D.cpp:108-131 | every written vertex carries the chosen slot as its texture ID |
| BatchRenderer2D.Renderer.constructor | GEAR_CORE/src/Graphics/Renderer/BatchRenderer2D.cpp:9-58 | the renderer starts with the quad index pattern, an empty slot table, nothing batched and nothing drawn |
| BatchRenderer2D.Renderer.Flush | GEAR_CORE/src/Graphics/Renderer/BatchRenderer2D.cpp:145-183 | one draw of the batched indices with the bound textures; with too many slots the table's head is erased; the index count resets |
| BatchRenderer2D.Renderer.AcquireSlot | GEAR_CORE/src/Graphics/Renderer/BatchRenderer2D.cpp:83-103 | the table and slot are ChooseSlot's, and a flush draws and resets the batch exactly when ChooseSlot flushes |
| BatchRenderer2D.Renderer.WriteQuad | GEAR_CORE/src/Graphics/Renderer/BatchRenderer2D.cpp:105-135 | four vertices are written at the batch position and the position advances by four; nothing else in the buffer changes |
| BatchRenderer2D.Renderer.Submit | GEAR_CORE/src/Graphics/Renderer/BatchRenderer2D.cpp:72-143 | a rejected object changes nothing but the last object; an accepted quad takes its slot, writes its four vertices and adds six indices to the batch |
| UniformBuffer.MemoryBlocks.constructor | GEAR_CORE/src/graphics/uniformbuffer.cpp:10-12 | both shared memory blocks start null |
| UniformBuffer.MemoryBlocks.InitialiseMemory | GEAR_CORE/src/graphics/uniformbuffer.cpp:49-68 | both blocks exist afterwards; an existing block is kept; a missing one is created with the next block id, 32 MB and its host-visible-and-coherent or device-local properties, the CPU block first; the count of created blocks grows by the number created |
| UniformBuffer.Buffers.constructor | GEAR_CORE/src/graphics/uniformbuffer.cpp:14-43 | the upload buffer (transfer source, in the host block) and the device buffer (transfer destination and uniform, in the device block) have the requested size, the view covers the device buffer, and nothing is uploaded yet |
| UniformBuffer.Buffers.SubmitData | GEAR_CORE/src/graphics/uniformbuffer.cpp:70-73 | one host write of the data into the upload buffer is recorded, and nothing else changes |
| UniformBuffer.Buffers.Upload | GEAR_CORE/src/graphics/uniformbuffer.cpp:75-82 | the copy is recorded and the buffer marked uploaded exactly when it was not uploaded yet or the upload is forced; otherwise nothing changes |

## Left out

- Timing, rendering and the GPU:
  - Animator's timer is left out. The elapsed time is a parameter of Update.
  - GPU execution of the recorded commands is left out: what the shaders compute, the
    fence wait, `DeviceWaitIdle`, and the command pool and command buffer objects.
  - Descriptor pools, image views and uniform-buffer objects are reduced to the values
    their commands carry.
  - BatchRenderer2D's OpenGL calls (buffer mapping, texture binding, shader enable) are
    recorded as draws or left out. So is the commented-out depth pass.
- Numbers and geometry:
  - Floating point is modelled as reals. Rounding, NaN propagation and the float casts of
    the lerp point are not modelled.
  - The trigonometry and normalisation of SLERP are parameters.
  - Matrix conversion (`Convert_aiMatrix4x4ToMat4`), node transforms, bone offset matrices,
    tangents' values and the `UnitScaleFactor` read are left out. Only the shape of the
    vertex and bone data is kept.
- `AddMaterialProperties` in both loaders is left out. It copies material constants
  that no modelled operation reads.
- Files outside this model:
  - Material.h, Texture.h, Animation.h, ModelLoader.h and the miru library are not part
    of this model.
  - The material registry is a map from name to material. A texture is its file path.
  - `TransitionSubResources` is taken to emit one barrier per transition.
- The two loaders' texture functions:
  - `GetMaterialFilePath` in Assimp.h starts its inner loop from an unset iterator, which
    is undefined behaviour. Its result is therefore a parameter (`PathLister`) of the
    Assimp loader.
  - Assimp materials are values.
  - The Assimp texture-type numbering is the library's own (AI_TEXTURE_TYPE_MAX = 18). In
    the library this numbering comes from, the loops never reach the UNKNOWN case.
- `Animator::Update(sequences, count)` casts a `Sequence` array to `Animation*`. The
  model reads sequence i as an animation. It does not model the stride mismatch of that
  cast for i >= 1.
- `BatchRenderer2D::Submit` compares the object's file name with "res/obj/quad.obj" by
  pointer. The model takes the comparison's outcome as a boolean of the object.
- Pipeline objects are values: a creation number and the pipeline file. Creation only
  gives them their identity. Loading the pipeline files is left out.
- Concurrency is left out. Every operation runs to completion on one thread.
- ImageProcessing.MipTraceReplays: stated for Vulkan only. On D3D12 the closing barrier
  relies on the implicit state promotion after `Dispatch`, which the model does not
  track.
- ImageProcessing.Shr: a shift by 32 or more is undefined in C++ for a uint32. The model
  treats it as repeated halving, so levels beyond 32 get one work group per axis.
- ImageProcessing.ImageProcessing.GenerateMipMaps: with zero mip levels, the C++
  `levels - 1` wraps around in the descriptor pool size. The model records no levels in
  that case.
- ModelLoader.LoadModelData: requires the extracted animations to be indexable, meaning
  animation i has more than i tracks whenever it has any. Otherwise the node graph's
  `nodeAnimations[i]` read goes out of range, which is undefined behaviour.
  TwoAnimationsNotIndexable shows a scene that breaks this requirement.
- Animator.UnnamedUntilClaimed and Animator.RunPassChained: require that no mesh has an
  empty name. A mesh with an empty name can be claimed by a track with an empty name,
  which resets the current update.
- BatchRenderer2D.Renderer.Submit: requires the mapped vertex buffer to have room for the
  quad's four vertices. The source advances its write pointer with no bound check, so
  writing past the buffer is undefined behaviour that the model excludes.
- ModelLoader.TicksToFrames: states the truncation only for values within uint32 range.
  A cast of a larger double is undefined in C++.
- A reader might expect looping playback past the last keyframe, so that keyframes at 0,
  1 and 2 read at 2.5 interpolate between keyframe 2 and keyframe 0. The scan at
  Animator.cpp:60-78 instead stops at the first keyframe whose timepoint is not after the
  elapsed time. On a sorted
  track that is keyframe 0 whenever the time has reached the first keyframe. The model
  follows the code. SortedTrackScan and PastLastKeyframeExtrapolates state the
  consequence.
