# Invisible City point clouds — a Dafny model

This project models the three pieces of the Unity side of *Invisible City* that hold checkable logic:

- **The offline point-cloud bake** (`PointCloudSamplerEditor.Bake`). It builds a cumulative
  triangle-area table for a mesh and draws `ceil(totalArea * 300)` samples. Each sample picks a
  triangle with a binary search over that table, folds a random `(u, v)` into the unit triangle and
  interpolates the corners. The result is saved as a `PointCloudData` asset named after the mesh.
- **The per-cloud buffers** (`BuildingPointCloudRenderer`). `Awake` sizes a position buffer and a
  memory buffer to the asset's point count, uploads the positions and fills memory with 1.0.
  `OnDestroy` releases whichever buffers exist.
- **The per-frame dispatch** (`LateUpdate` of the visibility manager in `VisibilityManager.cs`). It
  gives up unless a shader, a valid kernel, a camera and the depth texture are all there. It then sets
  the frame parameters once and dispatches `ceil(count / 64)` groups of 64 threads for each renderer
  with points, in array order.

Modules, one per concern:

| file | module | what |
|---|---|---|
| geometry.dfy | `Geometry` | `Option`, `Vec3`, the `PointCloudData` record |
| area_cdf.dfy | `AreaCdf` | prefix sums of triangle areas and the loop that builds them |
| triangle_search.dfy | `TriangleSearch` | inverse-CDF reference lookup and the binary search |
| barycentric.dfy | `Barycentric` | the `(u, v)` fold and barycentric interpolation |
| asset_naming.dfy | `AssetNaming` | the asset path built from a mesh name |
| sampler.dfy | `Sampler` | meshes, areas, normals, sample count, `Bake` |
| renderer.dfy | `PointCloudRenderer` | buffer lifecycle: `Awake`, accessors, `OnDestroy` |
| dispatch.dfy | `VisibilityDispatch` | `LateUpdate` as the call sequence it issues to the compute shader, and the plan it carries out |

How the source's inputs are treated:

- Floats become exact reals.
- The area of a triangle (half a cross-product magnitude) is a parameter function returning a
  non-negative real.
- `.normalized` is a parameter function.
- `Random.value` is a parameter `random: nat -> [0, 1]`, giving the k-th draw. Sample `p` uses draws
  `3p` (the triangle), `3p+1` (`u`) and `3p+2` (`v`), the order in which the loop calls it.
- `LateUpdate` is modelled as the list of calls it makes on the compute shader (`SetFloat`,
  `SetBuffer`, `Dispatch`, ...). A replay function then reads off, for every `Dispatch`, the parameters
  bound at that moment. The main theorem says these dispatches are exactly an abstract plan: which
  renderers, in which order, with how many groups.
- Null references that the code dereferences are modelled by what C# does:
  - no compute shader: the guard returns;
  - no `Camera.main`: `cam.projectionMatrix` throws before anything is set;
  - a null entry in `renderers`: `r.PointCount` throws and the rest of the loop is abandoned;
  - a destroyed renderer left in `renderers`: its `PointCount` is still readable. With points, the
    count is set on the shader and then `r.transform` throws, abandoning the rest of the loop; without
    points it is skipped as usual;
  - no asset on a renderer: `Awake` throws before writing any modelled field.

## Behaviour notes

- The memory buffer starts at all ones ("fully visible"); there is no setting for the start value.
- An asset with zero points is not rejected by the code. `Awake` writes the count 0, and then the
  position buffer's constructor throws, because a `GraphicsBuffer` cannot have zero elements. Both
  buffers stay null, and the manager skips the renderer because its count is 0.
- A missing depth texture makes the whole frame a no-op, so memory is held unchanged. The occlusion
  stage is not skipped on its own.
- The memory rates are plain floats passed to the shader unchanged. Their `[Range(0,1)]` attribute
  only bounds the inspector's slider.
- Nothing reallocates buffers for a reloaded cloud: each renderer allocates once, in `Awake`.

## Model

| member | source | states |
|---|---|---|
| AreaCdf.BuildCdf | unity/invisible_city/Assets/Editor/PointCloudSamplerEditor.cs:27-37 | the accumulation loop yields a table whose entry i is the total area of triangles 0..i, and the total area |
| AreaCdf.TotalArea | unity/invisible_city/Assets/Editor/PointCloudSamplerEditor.cs:28-37 | the total area is the last table entry, 0 when there are no triangles, and never negative |
| AreaCdf.CdfNonDecreasing | unity/invisible_city/Assets/Editor/PointCloudSamplerEditor.cs:34-36 | with non-negative areas the cumulative table never decreases |
| AreaCdf.CdfStep | unity/invisible_city/Assets/Editor/PointCloudSamplerEditor.cs:35-36 | each triangle's area is the step of the table at its index |
| TriangleSearch.InverseCdf | unity/invisible_city/Assets/Editor/PointCloudSamplerEditor.cs:46-53 | the intended lookup: the least t with r < cdf[t], or the last triangle if none |
| TriangleSearch.LowerBound | unity/invisible_city/Assets/Editor/PointCloudSamplerEditor.cs:47-53 | the binary search terminates on any non-empty non-decreasing table and returns exactly that least index (or the last one) |
| TriangleSearch.InverseCdfInterval | unity/invisible_city/Assets/Editor/PointCloudSamplerEditor.cs:46-53 | for 0 <= r < totalArea, triangle t is chosen if and only if r lies in [cdf[t-1], cdf[t]), a slice as wide as its area, so a chosen triangle has positive area |
| Barycentric.Fold | unity/invisible_city/Assets/Editor/PointCloudSamplerEditor.cs:59-60 | for u, v in [0,1] the folded pair has u >= 0, v >= 0, u + v <= 1; a pair with u + v <= 1 is unchanged; one above the diagonal is reflected strictly below it |
| Barycentric.FoldIdempotent | unity/invisible_city/Assets/Editor/PointCloudSamplerEditor.cs:59-60 | folding a folded pair changes nothing |
| Barycentric.FoldTwoToOne | unity/invisible_city/Assets/Editor/PointCloudSamplerEditor.cs:59-60 | each point strictly below the diagonal has exactly two preimages in the unit square, one on each side, so the fold keeps the draw uniform |
| Barycentric.InterpolateIsCombination | unity/invisible_city/Assets/Editor/PointCloudSamplerEditor.cs:61 | v0 + u(v1-v0) + v(v2-v0) is the combination of the corners with weights (1-u-v, u, v) |
| Barycentric.InterpolateWeightsInUnit | unity/invisible_city/Assets/Editor/PointCloudSamplerEditor.cs:61 | inside the unit triangle all three weights lie in [0, 1] |
| Barycentric.Interpolate | unity/invisible_city/Assets/Editor/PointCloudSamplerEditor.cs:61 | the weights (0,0), (1,0) and (0,1) give the triangle's three corners |
| AssetNaming.ReplaceSpaces | unity/invisible_city/Assets/Editor/PointCloudSamplerEditor.cs:72 | the rewritten name has the same length, with `_` exactly where the name had a space |
| AssetNaming.ReplaceSpacesProperties | unity/invisible_city/Assets/Editor/PointCloudSamplerEditor.cs:72 | the rewritten name holds no space, keeps every other character, and rewriting is idempotent |
| AssetNaming.AssetPath | unity/invisible_city/Assets/Editor/PointCloudSamplerEditor.cs:72-73 | the path is the save directory, `/`, the rewritten name and `.asset`, and has no space |
| AssetNaming.AssetPathSameIff | unity/invisible_city/Assets/Editor/PointCloudSamplerEditor.cs:72-73 | two meshes share an asset path if and only if their rewritten names agree, so "a b" and "a_b" overwrite each other |
| Sampler.TriangleCount | unity/invisible_city/Assets/Editor/PointCloudSamplerEditor.cs:26 | the count of complete index triples; fewer than three trailing indices are ignored |
| Sampler.TriangleAreas | unity/invisible_city/Assets/Editor/PointCloudSamplerEditor.cs:29-34 | one non-negative area per complete triangle, in order |
| Sampler.SampleNormal | unity/invisible_city/Assets/Editor/PointCloudSamplerEditor.cs:64-66 | the normal is `Vector3.up` when the mesh lacks one normal per vertex, and otherwise the normalized sum of the triangle's three corner normals |
| Sampler.Ceil | unity/invisible_city/Assets/Editor/PointCloudSamplerEditor.cs:39 | the least integer not below x |
| Sampler.TargetCount | unity/invisible_city/Assets/Editor/PointCloudSamplerEditor.cs:39 | the sample count is ceil(totalArea * 300), and it is 0 exactly when the total area is 0 |
| Sampler.ScaledDraw | unity/invisible_city/Assets/Editor/PointCloudSamplerEditor.cs:46 | the scaled draw lies in [0, totalArea], below totalArea unless the draw is 1 |
| Sampler.ChoiceAt | unity/invisible_city/Assets/Editor/PointCloudSamplerEditor.cs:46-60 | a sample's triangle index is always a real triangle of the mesh |
| Sampler.SampleOnSurface | unity/invisible_city/Assets/Editor/PointCloudSamplerEditor.cs:55-62 | every sampled position is a combination of its triangle's corners with weights in [0, 1] summing to 1 |
| Sampler.SampleTriangleHasArea | unity/invisible_city/Assets/Editor/PointCloudSamplerEditor.cs:46-53 | unless the triangle draw is exactly 1, the sample's triangle has positive area and the scaled draw lies in its slice of the table |
| Sampler.Bake | unity/invisible_city/Assets/Editor/PointCloudSamplerEditor.cs:16-82 | no mesh gives no result. Otherwise exactly ceil(totalArea * 300) samples are drawn, positions and normals have that same length, and sample p is the inverse-CDF/fold choice of draws 3p..3p+2. The path is the mesh's asset path. No triangle is looked up when the area is 0 |
| PointCloudRenderer.FillOnes | unity/invisible_city/Assets/Scripts/BuildingPointCloudRenderer.cs:50-51 | the array has pointCount entries, every one exactly 1.0 |
| PointCloudRenderer.Awake | unity/invisible_city/Assets/Scripts/BuildingPointCloudRenderer.cs:29-64 | with an asset of at least one point, the count is the asset's position count, the position buffer holds those positions in order, and the memory buffer holds as many ones, both live and of equal length. With no asset, or an asset of no points (the buffer constructor throws at line 35), the count is 0 and both buffers stay null. Buffers end up live exactly in the first case |
| PointCloudRenderer.Release | unity/invisible_city/Assets/Scripts/BuildingPointCloudRenderer.cs:68-69 | `?.Release()` releases an existing buffer and leaves a null one null |
| PointCloudRenderer.OnDestroy | unity/invisible_city/Assets/Scripts/BuildingPointCloudRenderer.cs:66-70 | the component is destroyed, both existing buffers end released, absent ones stay absent, and the count is kept |
| PointCloudRenderer.OnDestroyLifecycle | unity/invisible_city/Assets/Scripts/BuildingPointCloudRenderer.cs:66-70 | destroying keeps buffers and count consistent, takes a live component to Released, leaves the fields of one that never allocated untouched, and is harmless when repeated |
| PointCloudRenderer.PositionBuffer | unity/invisible_city/Assets/Scripts/BuildingPointCloudRenderer.cs:25 | on a consistent component the position buffer exists whenever the count is non-zero, and holds one position per point |
| PointCloudRenderer.MemoryBuffer | unity/invisible_city/Assets/Scripts/BuildingPointCloudRenderer.cs:26 | on a consistent component the memory buffer exists exactly when the position buffer does, and holds one value per point |
| PointCloudRenderer.PointCount | unity/invisible_city/Assets/Scripts/BuildingPointCloudRenderer.cs:27 | on a consistent component a non-zero count means both buffers exist, and the count is the position buffer's length |
| PointCloudRenderer.AccessorsAfterAwake | unity/invisible_city/Assets/Scripts/BuildingPointCloudRenderer.cs:25-27 | after `Awake` the accessors expose the asset's count, its positions in order and a memory buffer of as many ones |
| VisibilityDispatch.GroupCount | unity/invisible_city/Assets/Scripts/VisibilityManager.cs:55 | groups * 64 >= cnt and (groups - 1) * 64 < cnt, so every point gets a thread and fewer than 64 are spare |
| VisibilityDispatch.ToSingle | unity/invisible_city/Assets/Scripts/VisibilityManager.cs:55 | the `int` to `float` conversion of `cnt / 64f` keeps counts below 2^24 exact and is never more than half a float spacing off |
| VisibilityDispatch.FloatGroupCount | unity/invisible_city/Assets/Scripts/VisibilityManager.cs:55 | `Mathf.CeilToInt(cnt / 64f)` is the exact group count of the rounded count, covers the rounded count, and equals the exact group count below 2^24 points |
| VisibilityDispatch.FloatGroupCountMissesPoint | unity/invisible_city/Assets/Scripts/VisibilityManager.cs:55 | at 2^24 + 1 points the single-precision computation dispatches 262144 groups, one point short |
| VisibilityDispatch.FrameSetup | unity/invisible_city/Assets/Scripts/VisibilityManager.cs:44-49 | the frame-wide calls include no per-renderer call and no dispatch |
| VisibilityDispatch.PerRenderer | unity/invisible_city/Assets/Scripts/VisibilityManager.cs:57-63 | a renderer's calls set its count first and end in its one dispatch, whose groups cover every point; only per-renderer calls are made |
| VisibilityDispatch.RendererCommands | unity/invisible_city/Assets/Scripts/VisibilityManager.cs:51-63 | the loop makes only per-renderer calls, and never dispatches zero groups |
| VisibilityDispatch.LateUpdate | unity/invisible_city/Assets/Scripts/VisibilityManager.cs:33-64 | no call at all unless every guard passes; otherwise the frame setup comes first and nothing after it sets a frame-wide parameter again |
| VisibilityDispatch.Reach | unity/invisible_city/Assets/Scripts/VisibilityManager.cs:51-58 | the loop reaches every entry up to the first one that throws: a null entry, or a destroyed renderer with points |
| VisibilityDispatch.PlanFrom | unity/invisible_city/Assets/Scripts/VisibilityManager.cs:51-63 | every planned dispatch is a reached renderer with points and its group count, in strictly increasing array order |
| VisibilityDispatch.PlanFromComplete | unity/invisible_city/Assets/Scripts/VisibilityManager.cs:51-63 | every reached renderer with points is planned |
| VisibilityDispatch.ReplaySetup | unity/invisible_city/Assets/Scripts/VisibilityManager.cs:44-49 | the frame setup dispatches nothing and binds the depth texture, screen size, time step, both rates and the view-projection |
| VisibilityDispatch.ReplayPerRenderer | unity/invisible_city/Assets/Scripts/VisibilityManager.cs:57-63 | a renderer's calls make one dispatch with its count, transform and both buffers bound |
| VisibilityDispatch.ReplayRendererCommands | unity/invisible_city/Assets/Scripts/VisibilityManager.cs:51-63 | the loop's dispatches correspond one to one, in order, with the plan, and each keeps the frame parameters |
| VisibilityDispatch.LateUpdateFollowsPlan | unity/invisible_city/Assets/Scripts/VisibilityManager.cs:33-64 | `LateUpdate` dispatches exactly the plan. Each dispatch has its renderer's count, transform, buffers and group count, and the one set of frame parameters. The rates reach the kernel unchanged, so they lie in [0, 1] whenever the manager's fields do |
| VisibilityDispatch.NoDispatchUnlessRunning | unity/invisible_city/Assets/Scripts/VisibilityManager.cs:35-42 | a missing shader, negative kernel, missing camera or missing depth texture means no call on the shader at all, so no memory buffer is written. Otherwise the frame setup comes first |
| VisibilityDispatch.EachRendererWithPointsOnce | unity/invisible_city/Assets/Scripts/VisibilityManager.cs:51-63 | when no entry throws, a renderer is dispatched if and only if it has points, at most once, in array order. A null entry, or a destroyed renderer with points, stops every renderer from it on, itself included |

## Findings

| source | as written | input that shows it | evidently intended | confidence | as-written member | corrected member |
|---|---|---|---|---|---|---|
| unity/invisible_city/Assets/Scripts/VisibilityManager.cs:55 | `Mathf.CeilToInt(cnt / 64f)` converts the point count to single precision before dividing | cnt = 16777217 (2^24 + 1): the count rounds to 16777216, giving 262144 groups and 16777216 threads, so one point is never updated | enough groups for every point: (cnt + 63) / 64 | not executed; low (needs a cloud of more than 2^24 points, and 262144 groups already exceed the usual limit of 65535 thread groups per dispatch dimension, so such a dispatch fails under either formula) | VisibilityDispatch.FloatGroupCountMissesPoint | VisibilityDispatch.GroupCount |

The as-written computation is `VisibilityDispatch.FloatGroupCount`. It rounds to the nearest single,
ties to even, and its contract shows it agrees with the exact ceiling below 2^24 points.

## Left out

- `GetMesh`, `Selection`, `AssetDatabase`, `Directory` and `Debug.Log`: editor and file-system I/O. `Bake` takes the mesh (or its absence) directly and returns the asset and path it would save.
- Float geometry: the cross-product magnitude and `.normalized` need square roots, so they are parameter functions.
- Single-precision rounding in the area sums, in `totalArea * DENSITY` and in the interpolation is not modelled. The sums are exact reals, and `CeilToInt` overflow is not modelled.
- VisibilityDispatch.LateUpdate: dispatches the corrected `GroupCount`, not the single-precision `Mathf.CeilToInt(cnt / 64f)`; the two agree below 2^24 points (see Findings).
- The `[Range(0,1)]` bound on the memory rates is not assumed: the model takes any real rate, and the bound on what the kernel receives holds only when the manager's fields are in range.
- Sampler.Bake: requires that every corner index it reads names a vertex. Unity meshes guarantee this; the source would throw otherwise.
- The compute shader `CSMain` is not part of this model: frustum test, depth comparison and the learn/forget memory update. The model shows when it is dispatched and with what, not what it writes.
- VFX Graph and rendering calls in `Awake`: `SetGraphicsBuffer`, `SetUInt` of the spawn count, the point colour, hiding the `MeshRenderer`, `SendEvent`. Also left out: GPU allocation details such as strides, and every failure of the `GraphicsBuffer` constructor other than the zero-element one.
- Shader parameters persist between frames on a real compute shader. The replay starts each frame from nothing bound, which is harmless because every dispatch follows a full frame setup.
- The view-projection and local-to-world matrices are opaque values. Their computation from the camera and transform is not modelled.
- A `PointCloudData` whose `positions` array is itself null is not modelled. Arrays are always present.
- `PointCloudVisibilityManager.cs`, an earlier unguarded version of the same dispatch loop, is not part of this model. Also not modelled: `CopyDepthFeature.cs`, `PCRuntimeVisualizer.cs`, `test.cs`, `PlayerMovement.cs`, `CameraSwitcher.cs` and the Grasshopper geometry scripts. These are rendering plumbing, debugging, input, or geometry-kernel wrappers.
