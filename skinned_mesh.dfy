/**
 * The Direct Delta Mush skinning component (DDMSkinnedMeshGPUVar0): its
 * tunable parameters, the choice between the compute-shader path, the CPU
 * reference path and plain linear-blend skinning, the bone matrices, the CPU
 * deformation of every vertex into the output arrays with the bounds of the
 * result, and the thread-group count of the compute dispatch.
 *
 * The animated bone transforms (`skin.bones[i].localToWorldMatrix`) are read
 * from the scene each frame; here they are the `pose` parameter. The SVD is the
 * `svd` parameter, as in module Deform.
 */
module SkinnedMesh {
  import opened LinAlg
  import opened Deform
  import Adjacency

  datatype DebugMode = Off | CompareWithLinearBlend

  /** The `actuallyUseCompute` property: the compute shader deforms the mesh
      only when it is enabled and the linear-blend comparison is not shown. */
  function ActuallyUseCompute(useCompute: bool, debugMode: DebugMode): bool {
    useCompute && debugMode != CompareWithLinearBlend
  }

  /** What one UpdateBase call does with the mesh. */
  datatype UpdatePath = GpuDeform | CpuDeform | LinearBlendOnly

  /** The branch UpdateBase takes: no deformation in comparison mode (the
      renderer's own skinning stays on), otherwise exactly one of the two
      deformation paths. */
  function ChosenPath(useCompute: bool, debugMode: DebugMode): UpdatePath {
    if debugMode == CompareWithLinearBlend then LinearBlendOnly
    else if ActuallyUseCompute(useCompute, debugMode) then GpuDeform
    else CpuDeform
  }

  /** The decision table of UpdateBase, in both directions for every path. */
  lemma DispatchTable(useCompute: bool, debugMode: DebugMode)
    ensures ActuallyUseCompute(useCompute, debugMode) <==> (useCompute && debugMode == Off)
    ensures ChosenPath(useCompute, debugMode) == GpuDeform
            <==> ActuallyUseCompute(useCompute, debugMode)
    ensures ChosenPath(useCompute, debugMode) == CpuDeform
            <==> (!useCompute && debugMode == Off)
    ensures ChosenPath(useCompute, debugMode) == LinearBlendOnly
            <==> debugMode == CompareWithLinearBlend
  {
  }

  /** `(vCount + size - 1) / size`. Both operands are non-negative, so C#'s
      truncating division agrees with Dafny's. */
  function ThreadGroups(vCount: nat, size: nat): (groups: nat)
    requires size > 0
    ensures groups * size >= vCount
    ensures (groups - 1) * size < vCount
  {
    var total := vCount + size - 1;
    var q := total / size;
    assert total == q * size + total % size;
    assert (q - 1) * size == q * size - size;
    q
  }

  /** Bone matrix i is localToWorld_i * bindpose_i, one per bone. */
  function BoneMatrices(pose: seq<Mat4>, bindposes: seq<Mat4>): seq<Mat4>
    requires |pose| <= |bindposes|
  {
    seq(|pose|, i requires 0 <= i < |pose| => Mul4(pose[i], bindposes[i]))
  }

  class DDMSkinnedMesh {
    // Inspector parameters.
    var iterations: int
    var smoothLambda: real
    var useCompute: bool
    var adjacencyMatchingVertexTolerance: real
    var debugMode: DebugMode

    // Fixed when the component starts.
    const vCount: nat
    const computeThreadGroupSizeX: nat
    const bindposes: seq<Mat4>
    const bindVertices: seq<Vec3>
    const bindNormals: seq<Vec3>
    /** vCount rows of MaxOmegaCount packed omegas (`omegaWithIdxs[vi, i]`). */
    const omegaWithIdxs: seq<seq<OmegaWithIndex>>
    /** The table InitBase takes from the adjacency cache. */
    const adjacencyMatrix: Adjacency.IntGrid
    /** `deformedMesh.vertices` and `deformedMesh.normals`. */
    const deformedVertices: array<Vec3>
    const deformedNormals: array<Vec3>

    // What the frame leaves behind.
    /** `meshForCPUOutput`: vertices, normals and bounds. */
    var cpuVertices: seq<Vec3>
    var cpuNormals: seq<Vec3>
    var cpuBounds: Bounds
    /** The content of `bonesCB` and the group count of the last Dispatch. */
    var gpuBones: seq<Mat4>
    var dispatchedGroups: nat
    /** `skin.enabled`. */
    var skinEnabled: bool

    ghost predicate Valid() {
      && |bindVertices| == vCount
      && |omegaWithIdxs| == vCount
      && (forall v :: 0 <= v < vCount ==> |omegaWithIdxs[v]| == MaxOmegaCount)
      && deformedVertices.Length == vCount
      && deformedNormals.Length == vCount
      && deformedVertices != deformedNormals
    }

    /** What the CPU path indexes exists: a bind pose for every bone, a bone
        for every omega it reads, and a normal for every vertex (the source
        throws otherwise; a mesh without normals has none). */
    ghost predicate CpuInputsFit(pose: seq<Mat4>) {
      && |pose| <= |bindposes|
      && (forall v :: 0 <= v < |omegaWithIdxs| ==> SlotsInRange(|pose|, omegaWithIdxs[v]))
      && |bindNormals| == vCount
    }

    /** Vertex v deformed by its own omegas. */
    ghost function TargetPosition(bones: seq<Mat4>, svd: Mat3 -> Svd3, v: nat): Vec3
      requires Valid() && v < vCount && SlotsInRange(|bones|, omegaWithIdxs[v])
    {
      DeformedPosition(bones, omegaWithIdxs[v], bindVertices[v], svd)
    }

    /** Normal v deformed by its vertex's omegas. */
    ghost function TargetNormal(bones: seq<Mat4>, svd: Mat3 -> Svd3, v: nat): Vec3
      requires Valid() && v < vCount && v < |bindNormals| && SlotsInRange(|bones|, omegaWithIdxs[v])
    {
      DeformedNormal(bones, omegaWithIdxs[v], bindNormals[v], svd)
    }

    /** `ps` holds the first |ps| vertices and `ns` their normals, each
        deformed by the bones. */
    ghost predicate DeformedPrefix(bones: seq<Mat4>, svd: Mat3 -> Svd3, ps: seq<Vec3>, ns: seq<Vec3>)
      requires Valid() && |bindNormals| == vCount
      requires forall v :: 0 <= v < vCount ==> SlotsInRange(|bones|, omegaWithIdxs[v])
    {
      && |ps| <= vCount && |ns| == |ps|
      && (forall v {:trigger TargetPosition(bones, svd, v)} ::
            0 <= v < |ps| ==> ps[v] == TargetPosition(bones, svd, v))
      && (forall v {:trigger TargetNormal(bones, svd, v)} ::
            0 <= v < |ns| ==> ns[v] == TargetNormal(bones, svd, v))
    }

    /** Every vertex and normal deformed by the bones. */
    ghost predicate DeformedBy(bones: seq<Mat4>, svd: Mat3 -> Svd3, ps: seq<Vec3>, ns: seq<Vec3>)
      requires Valid() && |bindNormals| == vCount
      requires forall v :: 0 <= v < vCount ==> SlotsInRange(|bones|, omegaWithIdxs[v])
    {
      |ps| == vCount && DeformedPrefix(bones, svd, ps, ns)
    }

    /** Appending the next deformed vertex and normal extends the prefix. */
    lemma ExtendPrefix(bones: seq<Mat4>, svd: Mat3 -> Svd3, ps: seq<Vec3>, ns: seq<Vec3>,
                       vertex: Vec3, normal: Vec3)
      requires Valid() && |bindNormals| == vCount
      requires forall v :: 0 <= v < vCount ==> SlotsInRange(|bones|, omegaWithIdxs[v])
      requires DeformedPrefix(bones, svd, ps, ns) && |ps| < vCount
      requires vertex == TargetPosition(bones, svd, |ps|)
      requires normal == TargetNormal(bones, svd, |ps|)
      ensures DeformedPrefix(bones, svd, ps + [vertex], ns + [normal])
    {
      var ps', ns' := ps + [vertex], ns + [normal];
      forall v | 0 <= v < |ps'| ensures ps'[v] == TargetPosition(bones, svd, v) {
        if v < |ps| {
          assert ps'[v] == ps[v];
        }
      }
      forall v | 0 <= v < |ns'| ensures ns'[v] == TargetNormal(bones, svd, v) {
        if v < |ns| {
          assert ns'[v] == ns[v];
        }
      }
    }

    /** The field initialisers, InitBase and Start: the default parameters,
        the mesh's adjacency table taken from the process-wide cache with the
        default tolerance 0.0001, `useCompute` switched off unless both the
        compute shader and the duct-taped shader are present (the flag
        `computeAvailable`), fresh zeroed output arrays, and the output mesh
        a copy of the source mesh. */
    constructor (mesh: Adjacency.Mesh, bindNormals: seq<Vec3>, bindposes: seq<Mat4>,
                 omegas: seq<seq<OmegaWithIndex>>, meshBounds: Bounds,
                 computeAvailable: bool, kernelGroupSizeX: nat,
                 cache: Adjacency.AdjacencyCache, build: Adjacency.Builder)
      requires |omegas| == |mesh.vertices|
      requires forall v :: 0 <= v < |omegas| ==> |omegas[v]| == MaxOmegaCount
      modifies cache
      ensures Valid()
      ensures iterations == 30 && smoothLambda == 0.9 && adjacencyMatchingVertexTolerance == 0.0001
      ensures Adjacency.CacheResult(adjacencyMatrix, cache.entries)
              == Adjacency.Lookup(old(cache.entries), mesh, 0.0001, build)
      ensures debugMode == Off && useCompute == computeAvailable
      ensures computeThreadGroupSizeX == (if computeAvailable then kernelGroupSizeX else 0)
      ensures vCount == |mesh.vertices| && this.bindposes == bindposes
      ensures bindVertices == mesh.vertices && this.bindNormals == bindNormals
      ensures omegaWithIdxs == omegas
      ensures fresh(deformedVertices) && fresh(deformedNormals)
      ensures forall v :: 0 <= v < vCount ==> deformedVertices[v] == ZeroVec3
      ensures forall v :: 0 <= v < vCount ==> deformedNormals[v] == ZeroVec3
      ensures cpuVertices == bindVertices && cpuNormals == bindNormals && cpuBounds == meshBounds
      ensures gpuBones == [] && dispatchedGroups == 0 && skinEnabled
    {
      iterations := 30;
      smoothLambda := 0.9;
      adjacencyMatchingVertexTolerance := 0.0001;
      debugMode := Off;
      var table := cache.GetCachedAdjacencyMatrix(mesh, 0.0001, build);
      adjacencyMatrix := table;
      vCount := |mesh.vertices|;
      this.bindposes := bindposes;
      bindVertices := mesh.vertices;
      this.bindNormals := bindNormals;
      omegaWithIdxs := omegas;
      deformedVertices := new Vec3[|mesh.vertices|](_ => ZeroVec3);
      deformedNormals := new Vec3[|mesh.vertices|](_ => ZeroVec3);
      cpuVertices := mesh.vertices;
      cpuNormals := bindNormals;
      cpuBounds := meshBounds;
      gpuBones := [];
      dispatchedGroups := 0;
      skinEnabled := true;
      if computeAvailable {
        computeThreadGroupSizeX := kernelGroupSizeX;
        useCompute := true;
      } else {
        computeThreadGroupSizeX := 0;
        useCompute := false;
      }
    }

    /** One fresh matrix per bone, bone i being localToWorld_i * bindpose_i. */
    method GenerateBoneMatrices(pose: seq<Mat4>) returns (boneMatrices: array<Mat4>)
      requires |pose| <= |bindposes|
      ensures fresh(boneMatrices)
      ensures boneMatrices[..] == BoneMatrices(pose, bindposes)
    {
      boneMatrices := new Mat4[|pose|];
      for i := 0 to |pose|
        invariant forall j :: 0 <= j < i ==> boneMatrices[j] == Mul4(pose[j], bindposes[j])
      {
        boneMatrices[i] := Mul4(pose[i], bindposes[i]);
      }
    }

    /** The per-vertex loop of UpdateMeshOnCPU: iteration vi writes entry vi
        of both output arrays, and the entries already written are the
        deformed prefix. */
    method DeformVertices(bones: seq<Mat4>, svd: Mat3 -> Svd3)
      requires Valid() && |bindNormals| == vCount
      requires forall v :: 0 <= v < vCount ==> SlotsInRange(|bones|, omegaWithIdxs[v])
      modifies deformedVertices, deformedNormals
      ensures DeformedBy(bones, svd, deformedVertices[..], deformedNormals[..])
    {
      ghost var ps: seq<Vec3> := [];
      ghost var ns: seq<Vec3> := [];
      for vi := 0 to vCount
        invariant |ps| == vi && deformedVertices[..vi] == ps && deformedNormals[..vi] == ns
        invariant DeformedPrefix(bones, svd, ps, ns)
      {
        var vertex, normal := DeformVertex(bones, omegaWithIdxs[vi], bindVertices[vi],
                                           bindNormals[vi], svd);
        ExtendPrefix(bones, svd, ps, ns, vertex, normal);
        deformedVertices[vi] := vertex;
        deformedNormals[vi] := normal;
        ps, ns := ps + [vertex], ns + [normal];
        assert deformedVertices[..vi + 1] == deformedVertices[..vi] + [vertex];
        assert deformedNormals[..vi + 1] == deformedNormals[..vi] + [normal];
      }
      assert deformedVertices[..] == deformedVertices[..vCount];
      assert deformedNormals[..] == deformedNormals[..vCount];
    }

    /** `new Bounds()` grown by every deformed vertex in turn. */
    method EncapsulateAll() returns (bounds: Bounds)
      ensures bounds == BoundsOf(deformedVertices[..])
    {
      bounds := OriginBounds;
      for i := 0 to deformedVertices.Length
        invariant bounds == BoundsOf(deformedVertices[..i])
      {
        assert deformedVertices[..i + 1][..i] == deformedVertices[..i];
        bounds := Encapsulate(bounds, deformedVertices[i]);
      }
      assert deformedVertices[..deformedVertices.Length] == deformedVertices[..];
    }

    /** The CPU reference path: deform every vertex and normal, then publish
        them with their bounds, which contain every deformed vertex. */
    method UpdateMeshOnCPU(pose: seq<Mat4>, svd: Mat3 -> Svd3)
      requires Valid() && CpuInputsFit(pose)
      modifies deformedVertices, deformedNormals, this`cpuVertices, this`cpuNormals, this`cpuBounds
      ensures DeformedBy(BoneMatrices(pose, bindposes), svd, cpuVertices, cpuNormals)
      ensures cpuVertices == deformedVertices[..] && cpuNormals == deformedNormals[..]
      ensures cpuBounds == BoundsOf(cpuVertices)
    {
      var boneMatrices := GenerateBoneMatrices(pose);
      DeformVertices(boneMatrices[..], svd);
      var bounds := EncapsulateAll();
      cpuVertices := deformedVertices[..];
      cpuNormals := deformedNormals[..];
      cpuBounds := bounds;
    }

    /** The compute path as far as the model goes: one group per
        computeThreadGroupSizeX vertices, rounded up, and the bone matrices
        uploaded to the bone buffer. */
    method UpdateMeshOnGPU(pose: seq<Mat4>)
      requires computeThreadGroupSizeX > 0
      requires |pose| <= |bindposes|
      modifies this`gpuBones, this`dispatchedGroups
      ensures dispatchedGroups == ThreadGroups(vCount, computeThreadGroupSizeX)
      ensures gpuBones == BoneMatrices(pose, bindposes)
    {
      var threadGroupsX := (vCount + computeThreadGroupSizeX - 1) / computeThreadGroupSizeX;
      var boneMatrices := GenerateBoneMatrices(pose);
      gpuBones := boneMatrices[..];
      dispatchedGroups := threadGroupsX;
    }

    /** One frame (LateUpdate): run the path ChosenPath selects and enable the
        renderer's own skinning exactly in comparison mode. The state of the
        path not taken is left as it was. Only the chosen path's inputs must
        fit: comparison mode reads neither the pose nor the omegas. */
    method UpdateBase(pose: seq<Mat4>, svd: Mat3 -> Svd3)
      requires Valid()
      requires ChosenPath(useCompute, debugMode) == CpuDeform ==> CpuInputsFit(pose)
      requires ChosenPath(useCompute, debugMode) == GpuDeform ==>
                 |pose| <= |bindposes| && computeThreadGroupSizeX > 0
      modifies deformedVertices, deformedNormals, this`cpuVertices, this`cpuNormals, this`cpuBounds
      modifies this`gpuBones, this`dispatchedGroups, this`skinEnabled
      ensures skinEnabled <==> debugMode == CompareWithLinearBlend
      ensures ChosenPath(useCompute, debugMode) == GpuDeform ==>
                && dispatchedGroups == ThreadGroups(vCount, computeThreadGroupSizeX)
                && gpuBones == BoneMatrices(pose, bindposes)
      ensures ChosenPath(useCompute, debugMode) == CpuDeform ==>
                && DeformedBy(BoneMatrices(pose, bindposes), svd, cpuVertices, cpuNormals)
                && cpuVertices == deformedVertices[..] && cpuNormals == deformedNormals[..]
                && cpuBounds == BoundsOf(cpuVertices)
      ensures ChosenPath(useCompute, debugMode) != GpuDeform ==>
                unchanged(this`gpuBones, this`dispatchedGroups)
      ensures ChosenPath(useCompute, debugMode) != CpuDeform ==>
                unchanged(this`cpuVertices, this`cpuNormals, this`cpuBounds)
                && unchanged(deformedVertices, deformedNormals)
    {
      var compareWithSkinning := debugMode == CompareWithLinearBlend;
      if !compareWithSkinning {
        if ActuallyUseCompute(useCompute, debugMode) {
          UpdateMeshOnGPU(pose);
        } else {
          UpdateMeshOnCPU(pose, svd);
        }
      }
      skinEnabled := compareWithSkinning;
    }
  }
}
