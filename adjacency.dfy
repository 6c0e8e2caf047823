/**
 * The adjacency table of a mesh in its two forms (the `int[,]` the smoother
 * uses and the flat, serialisable AdjacencyMatrix struct), and the
 * process-wide cache that maps each mesh to its table
 * (DDMSkinnedMeshGPUVar0.GetCachedAdjacencyMatrix).
 */
module Adjacency {
  import opened Optional
  import opened LinAlg
  import Deform

  /** A C# `int[,]`: `w` rows (GetLength(0)) of `h` entries (GetLength(1)).
      The dimensions are kept explicitly so that an array with no rows still
      has a column count. */
  datatype IntGrid = IntGrid(w: nat, h: nat, cells: seq<seq<int>>) {
    predicate Valid() {
      |cells| == w && forall r :: 0 <= r < w ==> |cells[r]| == h
    }
  }

  /** The serialisable struct: both dimensions and the row-major storage. Its
      fields are public, so any values are possible. */
  datatype AdjacencyMatrix = AdjacencyMatrix(w: int, h: int, storage: seq<int>)

  /** r * h computed by repeated addition; keeping the index arithmetic of the
      flat form linear spares the solver. */
  function RowStart(r: nat, h: nat): nat {
    if r == 0 then 0 else RowStart(r - 1, h) + h
  }

  lemma {:induction false} RowStartIsProduct(r: nat, h: nat)
    ensures RowStart(r, h) == r * h
  {
    if r > 0 {
      RowStartIsProduct(r - 1, h);
    }
  }

  lemma {:induction false} RowStartMonotone(r: nat, w: nat, h: nat)
    requires r < w
    ensures RowStart(r, h) + h <= RowStart(w, h)
  {
    if r < w - 1 {
      RowStartMonotone(r, w - 1, h);
    }
  }

  /** Every flat index below w*h is the start of some row plus a column. */
  lemma {:induction false} Decompose(k: nat, w: nat, h: nat) returns (r: nat, c: nat)
    requires k < RowStart(w, h)
    ensures r < w && c < h && k == RowStart(r, h) + c
  {
    if k < RowStart(w - 1, h) {
      r, c := Decompose(k, w - 1, h);
    } else {
      r, c := w - 1, k - RowStart(w - 1, h);
    }
  }

  /** The rows laid end to end, as Buffer.BlockCopy copies a rectangular array. */
  function Flatten(rows: seq<seq<int>>, h: nat): (flat: seq<int>)
    requires forall r :: 0 <= r < |rows| ==> |rows[r]| == h
    ensures |flat| == RowStart(|rows|, h)
  {
    if |rows| == 0 then [] else rows[0] + Flatten(rows[1..], h)
  }

  /** Row r, column c of the rows lands at r*h + c of the flat form. */
  lemma {:induction false} FlattenAt(rows: seq<seq<int>>, h: nat, r: nat, c: nat)
    requires forall i :: 0 <= i < |rows| ==> |rows[i]| == h
    requires r < |rows| && c < h
    ensures RowStart(r, h) + c < |Flatten(rows, h)|
    ensures Flatten(rows, h)[RowStart(r, h) + c] == rows[r][c]
  {
    RowStartMonotone(r, |rows|, h);
    if r > 0 {
      FlattenAt(rows[1..], h, r - 1, c);
      assert rows[1..][r - 1] == rows[r];
    }
  }

  lemma FlattenIndexing(rows: seq<seq<int>>, h: nat)
    requires forall i :: 0 <= i < |rows| ==> |rows[i]| == h
    ensures forall r: nat :: r < |rows| ==> RowStart(r, h) + h <= |Flatten(rows, h)|
    ensures forall r: nat, c: nat :: r < |rows| && c < h ==>
              Flatten(rows, h)[RowStart(r, h) + c] == rows[r][c]
  {
    forall r: nat | r < |rows| ensures RowStart(r, h) + h <= |Flatten(rows, h)| {
      RowStartMonotone(r, |rows|, h);
    }
    forall r: nat, c: nat | r < |rows| && c < h
      ensures Flatten(rows, h)[RowStart(r, h) + c] == rows[r][c]
    {
      FlattenAt(rows, h, r, c);
    }
  }

  /** `new AdjacencyMatrix(src)`: the dimensions, and row r, column c of the
      array at flat index r*h + c (RowStart(r, h) is r*h, RowStartIsProduct). */
  function FromGrid(src: IntGrid): (am: AdjacencyMatrix)
    requires src.Valid()
    ensures am.w == src.w && am.h == src.h && |am.storage| == RowStart(src.w, src.h)
    ensures forall r: nat :: r < src.w ==> RowStart(r, src.h) + src.h <= |am.storage|
    ensures forall r: nat, c: nat :: r < src.w && c < src.h ==>
              am.storage[RowStart(r, src.h) + c] == src.cells[r][c]
  {
    FlattenIndexing(src.cells, src.h);
    var flat := Flatten(src.cells, src.h);
    AdjacencyMatrix(src.w, src.h, flat)
  }

  /** The storage of a w x h struct holds w*h entries. */
  lemma FromGridLength(src: IntGrid)
    requires src.Valid()
    ensures |FromGrid(src).storage| == src.w * src.h
  {
    RowStartIsProduct(src.w, src.h);
  }

  /** Row r, column c of the array is storage[r*h + c]. */
  lemma FromGridAt(src: IntGrid, r: nat, c: nat)
    requires src.Valid() && r < src.w && c < src.h
    ensures r * src.h + c < |FromGrid(src).storage|
    ensures FromGrid(src).storage[r * src.h + c] == src.cells[r][c]
  {
    RowStartIsProduct(r, src.h);
  }

  /** Entry k of the storage, or 0 where the copy does not reach. */
  function StoredAt(storage: seq<int>, k: int): int {
    if 0 <= k < |storage| then storage[k] else 0
  }

  /** The `data` getter. `new int[w, h]` throws for a negative dimension and
      Buffer.BlockCopy throws when the storage holds more than w*h entries;
      both are None. Entries the storage does not reach stay 0. */
  function Data(am: AdjacencyMatrix): (g: Option<IntGrid>)
    ensures g.Some? <==> (am.w >= 0 && am.h >= 0 && |am.storage| <= am.w * am.h)
    ensures g.Some? ==> g.value.Valid() && g.value.w == am.w && g.value.h == am.h
    ensures g.Some? ==> forall r, c :: 0 <= r < am.w && 0 <= c < am.h ==>
              g.value.cells[r][c] == StoredAt(am.storage, RowStart(r, am.h) + c)
  {
    if am.w < 0 || am.h < 0 || |am.storage| > am.w * am.h then None
    else
      Some(IntGrid(am.w, am.h,
        seq(am.w, r requires 0 <= r < am.w =>
          seq(am.h, c requires 0 <= c < am.h => StoredAt(am.storage, RowStart(r, am.h) + c)))))
  }

  /** Row r, column c of the array read back is storage[r*h + c], or 0 past
      the end of the storage. */
  lemma DataAt(am: AdjacencyMatrix, r: nat, c: nat)
    requires Data(am).Some? && r < am.w && c < am.h
    ensures Data(am).value.cells[r][c] == StoredAt(am.storage, r * am.h + c)
  {
    RowStartIsProduct(r, am.h);
  }

  /** Flattening then reading back gives the source array, entry by entry. */
  lemma DataOfFromGrid(src: IntGrid)
    requires src.Valid()
    ensures Data(FromGrid(src)) == Some(src)
  {
    var am := FromGrid(src);
    FromGridLength(src);
    assert Data(am).Some?;
    var g := Data(am).value;
    forall r | 0 <= r < src.w ensures g.cells[r] == src.cells[r] {
      forall c | 0 <= c < src.h ensures g.cells[r][c] == src.cells[r][c] {
        var k := RowStart(r, src.h) + c;
        assert k < |am.storage|;
        assert am.storage[k] == src.cells[r][c];
        assert g.cells[r][c] == StoredAt(am.storage, k);
      }
    }
    assert g.cells == src.cells;
  }

  /** Conversely, a struct whose storage is exactly w*h long is what the
      constructor makes of its own data. */
  lemma FromGridOfData(am: AdjacencyMatrix)
    requires am.w >= 0 && am.h >= 0 && |am.storage| == am.w * am.h
    ensures Data(am).Some? && FromGrid(Data(am).value) == am
  {
    var g := Data(am).value;
    var flat := Flatten(g.cells, g.h);
    RowStartIsProduct(am.w, am.h);
    forall k | 0 <= k < |am.storage| ensures flat[k] == am.storage[k] {
      var r, c := Decompose(k, am.w, am.h);
      FlattenAt(g.cells, g.h, r, c);
    }
  }

  // ------------------------------------------------------------------- cache

  /** A mesh as the cache sees it: an object (the dictionary compares meshes
      by reference) with its vertex positions and triangle index list. */
  class Mesh {
    const vertices: seq<Vec3>
    const triangles: seq<int>

    constructor (vertices: seq<Vec3>, triangles: seq<int>)
      ensures this.vertices == vertices && this.triangles == triangles
    {
      this.vertices := vertices;
      this.triangles := triangles;
    }
  }

  /** MeshUtils.BuildAdjacencyMatrix(vertices, triangles, maxNeighbours,
      toleranceSquared), which is not part of this model. */
  type Builder = (seq<Vec3>, seq<int>, int, real) -> IntGrid

  datatype CacheResult = CacheResult(table: IntGrid, entries: map<Mesh, IntGrid>)

  /** One call of the cache on the map as it stands: a hit returns the stored
      table; a miss builds the table with MaxOmegaCount neighbours and the
      squared tolerance and inserts it. */
  function Lookup(entries: map<Mesh, IntGrid>, mesh: Mesh, tolerance: real,
                  build: Builder): CacheResult
  {
    if mesh in entries then CacheResult(entries[mesh], entries)
    else
      var table := build(mesh.vertices, mesh.triangles, Deform.MaxOmegaCount,
                         tolerance * tolerance);
      CacheResult(table, entries[mesh := table])
  }

  /** On a hit nothing is built: the result depends neither on the tolerance
      nor on the builder, and the map is unchanged. */
  lemma LookupHitIgnoresArguments(entries: map<Mesh, IntGrid>, mesh: Mesh,
                                  t1: real, b1: Builder, t2: real, b2: Builder)
    requires mesh in entries
    ensures Lookup(entries, mesh, t1, b1) == Lookup(entries, mesh, t2, b2)
    ensures Lookup(entries, mesh, t1, b1) == CacheResult(entries[mesh], entries)
  {
  }

  /** On a miss the new table is built from the mesh with MaxOmegaCount and
      tolerance^2, the mesh becomes a key, and every other entry is kept. */
  lemma LookupMissInserts(entries: map<Mesh, IntGrid>, mesh: Mesh, tolerance: real,
                          build: Builder)
    requires mesh !in entries
    ensures var res := Lookup(entries, mesh, tolerance, build);
      && res.table == build(mesh.vertices, mesh.triangles, Deform.MaxOmegaCount,
                            tolerance * tolerance)
      && res.entries.Keys == entries.Keys + {mesh}
      && res.entries[mesh] == res.table
      && forall m :: m in entries ==> res.entries[m] == entries[m]
  {
  }

  /** A second call for the same mesh returns the same table whatever its
      arguments and leaves the map as the first call left it. */
  lemma LookupIsStable(entries: map<Mesh, IntGrid>, mesh: Mesh, t1: real, b1: Builder,
                       t2: real, b2: Builder)
    ensures var first := Lookup(entries, mesh, t1, b1);
      Lookup(first.entries, mesh, t2, b2) == first
  {
  }

  /** The process-wide map from mesh to adjacency table. */
  class AdjacencyCache {
    var entries: map<Mesh, IntGrid>

    constructor ()
      ensures entries == map[]
    {
      entries := map[];
    }

    method GetCachedAdjacencyMatrix(mesh: Mesh, tolerance: real, build: Builder)
      returns (table: IntGrid)
      modifies this
      ensures CacheResult(table, entries) == Lookup(old(entries), mesh, tolerance, build)
    {
      if mesh in entries {
        return entries[mesh];
      }
      table := build(mesh.vertices, mesh.triangles, Deform.MaxOmegaCount,
                     tolerance * tolerance);
      entries := entries[mesh := table];
    }
  }
}
