# Direct Delta Mush skinning, modelled in Dafny

This project models the core of a Unity implementation of Direct Delta Mush
skinning. Each frame, the skinning component (`DDMSkinnedMeshGPUVar0`)
deforms a mesh by one of two routes, or leaves the job to Unity's renderer:

- **Compute path.** It uploads one bone matrix per bone and dispatches a
  compute shader over the vertices in thread groups.
- **CPU reference path.** For every vertex it reads a bounded,
  sentinel-terminated list of precomputed omega matrices and sums
  `bone · omega` over that list. It then builds gamma from R = U·Vᵀ, where
  U and Vᵀ come from the SVD of the 3×3 cross-covariance block, and from the
  translation t = q − R p. Gamma is applied to the bind-pose vertex and to
  its normal. Last, it takes the bounds of the result.
- **Comparison mode.** The renderer's own linear-blend skinning stays on and
  nothing is deformed.

The component also keeps a process-wide cache of mesh adjacency tables. A
table has two forms: the flat, serialisable `AdjacencyMatrix` struct and the
`int[,]` form. Separately, `DDMUtils` computes omega in closed form.
`psi(i, j)`, `p_i` and `w'(i, j)` are sums over the input matrices, and
each one is memoised behind a flag array. `C` and `B` are MathNet
`SparseMatrix` objects in the source; the model reads every input as a dense
matrix, which gives the same entries. A small runtime component
(`TestDDMRuntime`) pushes parameter overrides into deformers. A negative
setting means "keep the current value".

Files:

- `optional.dfy`: the Option type.
- `linalg.dfy`: the real 3×3 and 4×4 matrix algebra the code uses.
- `deform.dfy`: the per-vertex CPU step and `Bounds`.
- `adjacency.dfy`: the adjacency struct and the cache.
- `skinned_mesh.dfy`: the component class.
- `ddm_utils.dfy`: `DDMUtils`.
- `test_runtime.dfy`: `TestDDMRuntime`.

Two points where the model takes a stand:

- The code does not correct reflections after the SVD: `R = U · Vᵀ` is
  used as it comes, even when its determinant is −1. The model follows the
  code.
- The SVD is a parameter `svd: Mat3 -> Svd3`, so every contract about the
  deformation holds whatever factors the SVD returns.

## Model

| member | source | states |
|---|---|---|
| Deform.OmegaMatrix | MeshDeformUnity/Assets/Scripts/DirectDeltaMush/DDMSkinnedMeshGPUVar0.cs:487-503 | the ten stored coefficients unpack into a symmetric 4×4 matrix |
| Deform.OmegaPackRoundTrip | MeshDeformUnity/Assets/Scripts/DirectDeltaMush/DDMSkinnedMeshGPUVar0.cs:487-503 | unpacking loses nothing: packing the unpacked matrix gives back the record, and a symmetric matrix is recovered from its ten coefficients |
| Deform.ActiveCount | MeshDeformUnity/Assets/Scripts/DirectDeltaMush/DDMSkinnedMeshGPUVar0.cs:485-486 | the scan reads exactly the slots before the first negative bone index: every slot it reads is non-negative, and the slot where it stops is negative |
| Deform.BlendOmegas | MeshDeformUnity/Assets/Scripts/DirectDeltaMush/DDMSkinnedMeshGPUVar0.cs:482-532 | the loop with its `break` computes the blend: the identity when the first slot is the sentinel, otherwise bone·omega summed over the active slots in slot order |
| Deform.BlendIgnoresSlotsAfterSentinel | MeshDeformUnity/Assets/Scripts/DirectDeltaMush/DDMSkinnedMeshGPUVar0.cs:505-512 | slots after the sentinel are never read: two lists that agree up to and including the sentinel blend to the same matrix and meet the same bone-range condition |
| Deform.ExtractUpperBlock | MeshDeformUnity/Assets/Scripts/DirectDeltaMush/DDMSkinnedMeshGPUVar0.cs:534-541 | the nested copy loop yields Q, entry for entry the upper-left 3×3 block of mat4 |
| Deform.AssembleGamma | MeshDeformUnity/Assets/Scripts/DirectDeltaMush/DDMSkinnedMeshGPUVar0.cs:559-575 | gamma holds R in its upper-left block and t in column 3, and its bottom row is (0, 0, 0, 1) because it starts from the zero matrix |
| Deform.DeformVertex | MeshDeformUnity/Assets/Scripts/DirectDeltaMush/DDMSkinnedMeshGPUVar0.cs:482-585 | the per-vertex body returns gamma(blend) applied to the bind vertex as a point and to the bind normal as a direction |
| Deform.PositionAboutBlendedCentre | MeshDeformUnity/Assets/Scripts/DirectDeltaMush/DDMSkinnedMeshGPUVar0.cs:543-581 | with t = q − R p, the deformed point is both R v + t and q + R (v − p): gamma turns the point about the blended centre p, then moves it to q |
| Deform.NormalIsRotated | MeshDeformUnity/Assets/Scripts/DirectDeltaMush/DDMSkinnedMeshGPUVar0.cs:583-584 | MultiplyVector applies only R to a normal, without the translation |
| Deform.UnboundVertex | MeshDeformUnity/Assets/Scripts/DirectDeltaMush/DDMSkinnedMeshGPUVar0.cs:482-486 | a vertex whose first slot is the sentinel keeps mat4 = I: M is the identity, t is zero and the vertex is only multiplied by the R the SVD returns for I |
| Deform.BoundsOfContains | MeshDeformUnity/Assets/Scripts/DirectDeltaMush/DDMSkinnedMeshGPUVar0.cs:587-589 | the encapsulated bounds contain every deformed vertex and, since `new Bounds()` starts at the origin, the origin too |
| Deform.BoundsOfTight | MeshDeformUnity/Assets/Scripts/DirectDeltaMush/DDMSkinnedMeshGPUVar0.cs:587-589 | each face of the bounds lies on some vertex's coordinate or on the origin, so the box is no larger than that |
| Adjacency.FlattenIndexing | MeshDeformUnity/Assets/Scripts/DirectDeltaMush/DDMSkinnedMeshGPUVar0.cs:257 | the block copy lays the rows of the array end to end: entry (r, c) is at flat offset r·h + c |
| Adjacency.FromGrid | MeshDeformUnity/Assets/Scripts/DirectDeltaMush/DDMSkinnedMeshGPUVar0.cs:252-258 | the struct keeps both dimensions, and entry (r, c) of the array lands at flat index r·h + c |
| Adjacency.FromGridAt | MeshDeformUnity/Assets/Scripts/DirectDeltaMush/DDMSkinnedMeshGPUVar0.cs:252-258 | row r, column c of the array is stored at flat index r·h + c, and that index lies inside the storage |
| Adjacency.FromGridLength | MeshDeformUnity/Assets/Scripts/DirectDeltaMush/DDMSkinnedMeshGPUVar0.cs:256 | the storage holds exactly w·h entries |
| Adjacency.Data | MeshDeformUnity/Assets/Scripts/DirectDeltaMush/DDMSkinnedMeshGPUVar0.cs:260-273 | the getter fails when a dimension is negative or the storage is longer than w·h, and in no other case the model can express (a null storage is not among them); otherwise it builds a w×h array whose entry (r, c) is storage[r·h + c], or 0 where the storage does not reach |
| Adjacency.DataAt | MeshDeformUnity/Assets/Scripts/DirectDeltaMush/DDMSkinnedMeshGPUVar0.cs:265-271 | once the getter succeeds, entry (r, c) of the array it builds is storage[r·h + c], or 0 past the end of the storage |
| Adjacency.DataOfFromGrid | MeshDeformUnity/Assets/Scripts/DirectDeltaMush/DDMSkinnedMeshGPUVar0.cs:252-273 | round trip: reading back the struct built from an array gives that array |
| Adjacency.FromGridOfData | MeshDeformUnity/Assets/Scripts/DirectDeltaMush/DDMSkinnedMeshGPUVar0.cs:252-273 | converse round trip: a struct whose storage is exactly w·h long is what the constructor makes of its own data |
| Adjacency.LookupHitIgnoresArguments | MeshDeformUnity/Assets/Scripts/DirectDeltaMush/DDMSkinnedMeshGPUVar0.cs:287-291 | on a hit the stored table is returned and the map is unchanged, whatever the tolerance and the builder |
| Adjacency.LookupMissInserts | MeshDeformUnity/Assets/Scripts/DirectDeltaMush/DDMSkinnedMeshGPUVar0.cs:307-313 | on a miss the table is built from the mesh with 32 neighbours and the squared tolerance; the mesh becomes a key and every other entry is kept |
| Adjacency.LookupIsStable | MeshDeformUnity/Assets/Scripts/DirectDeltaMush/DDMSkinnedMeshGPUVar0.cs:280-334 | a second call for the same mesh returns the first call's table and leaves the map as the first call left it |
| Adjacency.AdjacencyCache.GetCachedAdjacencyMatrix | MeshDeformUnity/Assets/Scripts/DirectDeltaMush/DDMSkinnedMeshGPUVar0.cs:280-334 | the returned table and the new map are those of the hit/miss lookup on the old map |
| SkinnedMesh.DispatchTable | MeshDeformUnity/Assets/Scripts/DirectDeltaMush/DDMSkinnedMeshGPUVar0.cs:30-36 | `actuallyUseCompute` holds iff compute is on and the mode is Off. Each of the three paths is taken exactly under its condition; both directions are stated |
| SkinnedMesh.ThreadGroups | MeshDeformUnity/Assets/Scripts/DirectDeltaMush/DDMSkinnedMeshGPUVar0.cs:598-599 | g = (vCount + s − 1)/s is the least number of groups of s that covers every vertex: g·s ≥ vCount and (g − 1)·s < vCount |
| SkinnedMesh.DDMSkinnedMesh.constructor | MeshDeformUnity/Assets/Scripts/DirectDeltaMush/DDMSkinnedMeshGPUVar0.cs:106-194 | the defaults are 30 iterations, λ = 0.9, tolerance 1e-4 and mode Off. The mesh's adjacency table is taken from the process-wide cache with that tolerance: the table and the new map are those of the cache lookup. Compute is switched off unless both the compute shader and the duct-taped rendering shader are present; `computeAvailable` stands for that test. The output arrays are fresh and zeroed, and the CPU output mesh is a copy of the source mesh |
| SkinnedMesh.DDMSkinnedMesh.GenerateBoneMatrices | MeshDeformUnity/Assets/Scripts/DirectDeltaMush/DDMSkinnedMeshGPUVar0.cs:340-371 | a fresh array with one matrix per bone; bone i is localToWorld_i · bindpose_i |
| SkinnedMesh.DDMSkinnedMesh.ExtendPrefix | MeshDeformUnity/Assets/Scripts/DirectDeltaMush/DDMSkinnedMeshGPUVar0.cs:446-585 | appending vertex i's deformed position and normal to the deformed first i vertices gives the deformed first i + 1 |
| SkinnedMesh.DDMSkinnedMesh.DeformVertices | MeshDeformUnity/Assets/Scripts/DirectDeltaMush/DDMSkinnedMeshGPUVar0.cs:446-585 | after the loop, output entry v of either array is vertex (or normal) v deformed by its own omega row, for every v |
| SkinnedMesh.DDMSkinnedMesh.EncapsulateAll | MeshDeformUnity/Assets/Scripts/DirectDeltaMush/DDMSkinnedMeshGPUVar0.cs:587-589 | the loop computes the bounds of all deformed vertices, grown in order from `new Bounds()` |
| SkinnedMesh.DDMSkinnedMesh.UpdateMeshOnCPU | MeshDeformUnity/Assets/Scripts/DirectDeltaMush/DDMSkinnedMeshGPUVar0.cs:432-594 | the published vertices and normals are the deformed ones for the current pose, and the published bounds are their bounds |
| SkinnedMesh.DDMSkinnedMesh.UpdateMeshOnGPU | MeshDeformUnity/Assets/Scripts/DirectDeltaMush/DDMSkinnedMeshGPUVar0.cs:596-607 | the bone buffer holds the bone matrices and the dispatch uses ThreadGroups(vCount, group size) groups |
| SkinnedMesh.DDMSkinnedMesh.UpdateBase | MeshDeformUnity/Assets/Scripts/DirectDeltaMush/DDMSkinnedMeshGPUVar0.cs:212-238 | skinning is enabled exactly in comparison mode. The chosen path leaves its results, and the state of each path not taken is unchanged. Only the chosen path's inputs must fit: nothing in comparison mode, the bind poses on the compute path |
| ClosedFormOmega.PsiIsSymmetric | MeshDeformUnity/Assets/Scripts/DirectDeltaMush/DDMUtils.cs:61-76 | psi(i, j) is symmetric |
| ClosedFormOmega.PsiWeightEntries | MeshDeformUnity/Assets/Scripts/DirectDeltaMush/DDMUtils.cs:63-76 | psi[3,3] is the total weight Σ B[k,i]·W[k,j]. psi[r,3] and psi[3,r] are the weighted position sums Σ B·W·V[k,r]. Skipping vertices with a zero factor changes neither |
| ClosedFormOmega.PiIsWeightedPosition | MeshDeformUnity/Assets/Scripts/DirectDeltaMush/DDMUtils.cs:89-97 | p_i[r] = Σ_b Σ_k B[k,i]·W[k,b]·V[k,r] |
| ClosedFormOmega.OmegaWithoutBlend | MeshDeformUnity/Assets/Scripts/DirectDeltaMush/DDMUtils.cs:131-132 | with dm_blend = 0, omega(i, j) is psi(i, j) |
| ClosedFormOmega.OmegaShape | MeshDeformUnity/Assets/Scripts/DirectDeltaMush/DDMUtils.cs:125-132 | omega(i, j) is symmetric. Its last column is (1 − dm_blend) times psi's, because the p_i block has zeros there |
| ClosedFormOmega.ClearedFlags | MeshDeformUnity/Assets/Scripts/DirectDeltaMush/DDMUtils.cs:36-52 | the flag arrays have the cache's shapes, and the nested loop leaves every flag false |
| ClosedFormOmega.DDMUtils.constructor | MeshDeformUnity/Assets/Scripts/DirectDeltaMush/DDMUtils.cs:7-31 | the inputs are the given public fields; the memo arrays do not exist yet |
| ClosedFormOmega.DDMUtils.InitCache | MeshDeformUnity/Assets/Scripts/DirectDeltaMush/DDMUtils.cs:33-53 | fresh memo arrays of shape n × num_transforms (and n), every flag cleared, so the cache invariant holds |
| ClosedFormOmega.DDMUtils.ComputePsi | MeshDeformUnity/Assets/Scripts/DirectDeltaMush/DDMUtils.cs:55-81 | returns psi(i, j) and keeps the cache invariant. A hit changes nothing; a miss stores into entry (i, j) and no other |
| ClosedFormOmega.DDMUtils.ComputePi | MeshDeformUnity/Assets/Scripts/DirectDeltaMush/DDMUtils.cs:83-101 | returns p_i and keeps the cache invariant. A hit changes nothing; a miss fills psi(i, b) for every bone and leaves other vertices' entries alone |
| ClosedFormOmega.DDMUtils.SumPsiColumns | MeshDeformUnity/Assets/Scripts/DirectDeltaMush/DDMUtils.cs:89-97 | the loop sums the last columns of psi(i, b) over all bones, going through the memo, and yields p_i |
| ClosedFormOmega.DDMUtils.ComputeWPrime | MeshDeformUnity/Assets/Scripts/DirectDeltaMush/DDMUtils.cs:103-121 | returns w'(i, j) = Σ_k W[k,j]·C[k,i] and is memoised like psi |
| ClosedFormOmega.DDMUtils.ComputeOmega | MeshDeformUnity/Assets/Scripts/DirectDeltaMush/DDMUtils.cs:123-133 | returns (1 − dm_blend)·psi(i, j) + (dm_blend·w'(i, j))·P, with p_i p_iᵀ in P's upper-left block, and leaves all three memo entries valid. It changes no other vertex's p_i or psi entries and no other w' entry |
| ClosedFormOmega.MemoIgnoresBlend | MeshDeformUnity/Assets/Scripts/DirectDeltaMush/DDMUtils.cs:55-133 | dm_blend is read only by compute_omega: psi, w' and p_i are the same for any two inputs that differ only in the blend factor |
| ClosedFormOmega.DDMUtils.BlendChangeKeepsValid | MeshDeformUnity/Assets/Scripts/DirectDeltaMush/DDMUtils.cs:9 | assigning the public field dm_blend, with nothing else changed, keeps every flagged memo entry equal to its definition, so the cache invariant still holds |
| TestRuntime.OverrideRule | MeshDeformUnity/Assets/Scripts/TestRuntime/TestDDMRuntime.cs:18-21 | a non-negative setting replaces the value and a negative one keeps it. Overriding twice with the same setting equals overriding once |
| TestRuntime.OverrideRealRule | MeshDeformUnity/Assets/Scripts/TestRuntime/TestDDMRuntime.cs:22-25 | the same rule for the floating-point settings |
| TestRuntime.TestDDMRuntime.constructor | MeshDeformUnity/Assets/Scripts/TestRuntime/TestDDMRuntime.cs:8-12 | every setting starts at −1 |
| TestRuntime.TestDDMRuntime.DefaultsOverrideNothing | MeshDeformUnity/Assets/Scripts/TestRuntime/TestDDMRuntime.cs:8-12 | with the default settings no parameter of a deformer changes |
| TestRuntime.TestDDMRuntime.UpdateValues | MeshDeformUnity/Assets/Scripts/TestRuntime/TestDDMRuntime.cs:14-32 | each of the three parameters follows the override rule, no other state of the deformer changes, and a null deformer is left alone |
| TestRuntime.TestDDMRuntime.UpdateDeltaMushValues | MeshDeformUnity/Assets/Scripts/TestRuntime/TestDDMRuntime.cs:34-49 | the overload for the classic deformer overrides the iteration count and the tolerance, never a smoothing factor |

## Left out

- Floating point: all arithmetic is over the reals, with no rounding. The `!= 0` tests of compute_psi and the `>= 0.0f` tests of UpdateValues are exact comparisons, and NaN is not modelled.
- The SVD itself (MathNet's `Svd`) is the parameter `svd`. Nothing is proved about orthogonality or the determinant of R, because the code does not correct reflections.
- Unity and GPU plumbing is out of scope: SkinnedMeshRenderer, ComputeBuffer set-up and release, shader binding, Graphics.DrawMesh, DrawVerticesVsSkin, and `mesh.bounds = skin.bounds`. The compute kernel's own work is out of scope too; the model records only the bone upload and the group count.
- The animated bone transforms are the `pose` parameter; reading them from the scene graph is not modelled.
- MeshUtils.BuildAdjacencyMatrix, DDMUtilsGPU and DDMUtilsIterative are not part of this model. The builder is a function parameter of the cache. The constructor keeps the adjacency table it gets from the cache, but the GPU precomputation that turns that table into omegas is not modelled, so the omega table is given to the constructor.
- The omega table is read back from the GPU in Start only when compute is off. The model always has it, so the null-table failure of a CPU frame after compute is switched off at runtime is not modelled.
- The code under `WITH_SCALE_MATRIX` is not modelled; the symbol is not defined.
- The JSON persistence code is commented out in the source, and `readCachedADjacencyMatrix` is an unused parameter; neither is modelled.
- 32-bit integer overflow of `w * h` and of `vCount + computeThreadGroupSizeX - 1` is not modelled; integers are unbounded.
- The cache hands out the same `int[,]` object to every caller. The model returns the table as a value, so aliasing through a caller's writes is not captured.
- The copy of the bone matrices into MathNet DenseMatrix form is an identity copy and is folded away. The unused deltaV/deltaN arrays of DeformedMesh and the Debug.Log calls are omitted.
- Awake's scene search stays out: FindObjectsOfType and the loops over the found scripts are I/O on the scene. The two UpdateValues overloads it calls are modelled, the second under the name UpdateDeltaMushValues.
- DeltaMushSkinnedMesh.cs is not part of this model. Its class here holds only the two parameters UpdateValues writes.
- DDMSkinnedMesh.UpdateMeshOnCPU: requires a bind pose for every bone, a bone for every omega slot read and a normal for every vertex, where the source would throw an index exception. UpdateBase requires these only on the CPU path.
- DDMSkinnedMesh.GenerateBoneMatrices, DDMSkinnedMesh.UpdateMeshOnGPU: these require a bind pose for every bone, where the source would throw. UpdateBase requires this only on the compute path.
- DDMSkinnedMesh.constructor: a mesh without normals is accepted, as in the source, and only the CPU path demands them. The model folds the field initialisers and InitBase into one constructor, so the cache is always called with the default tolerance 1e-4. In the source InitBase passes the field's value at that moment. That value can come from Unity's inspector, or from TestDDMRuntime.UpdateValues, which Awake runs before InitBase. Neither kind of write reaches the lookup in the model. The same holds for `iterations` and `smoothLambda`, which feed only the omega precomputation, and that is not modelled.
- DDMUtils.ComputePsi, DDMUtils.ComputePi, DDMUtils.ComputeWPrime, DDMUtils.ComputeOmega: these require indices in range, where the source would throw. The model also fixes the shapes of C, W, B and V exactly (`OmegaInputs.Wf`). The source also accepts larger matrices, since it reads only W[k,j], B[k,i], C[k,i] and V[k,0..2] for k, i < n and j < num_transforms. Their `requires Valid()` also rules out two behaviours of the source:
  - the cache not yet initialised, where the source throws a NullReferenceException at the first flag test, because InitCache has not run;
  - a caller reassigning n, C, W, B or V after entries were cached, where the source returns the stale entries, because it never clears its memo.

  A change of dm_blend alone keeps `Valid()` (DDMUtils.BlendChangeKeepsValid).
- DDMUtils.ComputePsi, DDMUtils.ComputePi: the memo hands out its own DenseMatrix or DenseVector. A hit returns the stored object, and a miss stores the new result and returns that same object. A caller that writes into the returned matrix or vector therefore changes the memo, and the flagged entry no longer equals psi or p_i. The model stores and returns values, so writes through the returned object are not modelled.
- DDMUtils.constructor: `n` and `num_transforms` are C# `int` and are `nat` in the model. A negative value, for which InitCache's array allocation throws an OverflowException, cannot be expressed.
- Adjacency.Data: the storage is a sequence and is never null. The ArgumentNullException that Buffer.BlockCopy throws for the null storage of a default-constructed struct is not modelled.
- DDMSkinnedMesh.UpdateMeshOnGPU: requires a positive thread-group size; the source divides by it and would throw for zero.
- Some loops are written as methods of their own, with the same iterations: DeformVertices, EncapsulateAll, SumPsiColumns and ClearedFlags.
