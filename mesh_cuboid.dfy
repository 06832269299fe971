/**
 * `Mesh.cuboid(size:material:)` (Sources/SwiftVulkanRenderer/Mesh/Mesh+cuboid.swift):
 * six faces of four vertices each, every face with its own outward normal,
 * drawn as two triangles per face. The vertex table is written face by face:
 * each entry is `size / 2` scaled by its corner's signs (`CORNERS`, in table
 * order) with its face's normal.
 */
module Cuboids {
  import opened Common
  import opened Meshes

  /** The outward normals of the faces in table order: front, right, left, back, top, bottom. */
  const FACE_NORMALS: seq<Vec3> := [
    Vec3(0.0, 0.0, 1.0), Vec3(1.0, 0.0, 0.0), Vec3(-1.0, 0.0, 0.0),
    Vec3(0.0, 0.0, -1.0), Vec3(0.0, 1.0, 0.0), Vec3(0.0, -1.0, 0.0)]

  /** The corner each vertex sits at, as the signs that scale `size / 2`. */
  const CORNERS: seq<Vec3> := [
    Vec3(-1.0, -1.0, 1.0), Vec3(1.0, -1.0, 1.0), Vec3(1.0, 1.0, 1.0), Vec3(-1.0, 1.0, 1.0),
    Vec3(1.0, -1.0, 1.0), Vec3(1.0, -1.0, -1.0), Vec3(1.0, 1.0, -1.0), Vec3(1.0, 1.0, 1.0),
    Vec3(-1.0, -1.0, -1.0), Vec3(-1.0, -1.0, 1.0), Vec3(-1.0, 1.0, 1.0), Vec3(-1.0, 1.0, -1.0),
    Vec3(1.0, -1.0, -1.0), Vec3(-1.0, -1.0, -1.0), Vec3(-1.0, 1.0, -1.0), Vec3(1.0, 1.0, -1.0),
    Vec3(-1.0, 1.0, 1.0), Vec3(1.0, 1.0, 1.0), Vec3(1.0, 1.0, -1.0), Vec3(-1.0, 1.0, -1.0),
    Vec3(-1.0, -1.0, -1.0), Vec3(1.0, -1.0, -1.0), Vec3(1.0, -1.0, 1.0), Vec3(-1.0, -1.0, 1.0)]

  /** The index table, face by face: two triangles over each face's four vertices. */
  const CUBOID_INDICES: seq<uint32> :=
    [0, 1, 2, 0, 2, 3]
    + [4, 5, 6, 4, 6, 7]
    + [8, 9, 10, 8, 10, 11]
    + [12, 13, 14, 12, 14, 15]
    + [16, 17, 18, 16, 18, 19]
    + [20, 21, 22, 20, 22, 23]

  /** Face `f`'s four vertices: at `size / 2` scaled by their corners' signs, all with the face's normal. */
  function FaceVertices(size: Vec3, f: nat): seq<Vertex>
    requires f < 6
  {
    var h := Scale(size, 0.5);
    [Vertex(Mul(h, CORNERS[4 * f]), FACE_NORMALS[f]), Vertex(Mul(h, CORNERS[4 * f + 1]), FACE_NORMALS[f]),
     Vertex(Mul(h, CORNERS[4 * f + 2]), FACE_NORMALS[f]), Vertex(Mul(h, CORNERS[4 * f + 3]), FACE_NORMALS[f])]
  }

  /** The first `n` faces' vertices of the table. */
  function Faces(size: Vec3, n: nat): (vs: seq<Vertex>)
    requires n <= 6
    ensures |vs| == 4 * n
  {
    if n == 0 then [] else Faces(size, n - 1) + FaceVertices(size, n - 1)
  }

  /** The vertex table for a cuboid of the given size centred at the origin. */
  function CuboidVertices(size: Vec3): seq<Vertex> {
    Faces(size, 6)
  }

  /** `cuboid(size:material:)`: a fresh mesh over the vertex and index tables; the size defaults to the unit cube. */
  method Cuboid(size: Vec3 := Vec3(1.0, 1.0, 1.0)) returns (mesh: Mesh)
    ensures fresh(mesh) && mesh.vertices == CuboidVertices(size) && mesh.indices == CUBOID_INDICES
  {
    mesh := new Mesh(CuboidVertices(size), CUBOID_INDICES);
  }

  /** The index table is a strip of six quads. */
  lemma {:induction false} CuboidIndicesAreQuads()
    ensures CUBOID_INDICES == QuadStrip(6)
  {
    assert QuadIndices(0) == [0, 1, 2, 0, 2, 3];
    assert QuadIndices(4) == [4, 5, 6, 4, 6, 7];
    assert QuadIndices(8) == [8, 9, 10, 8, 10, 11];
    assert QuadIndices(12) == [12, 13, 14, 12, 14, 15];
    assert QuadIndices(16) == [16, 17, 18, 16, 18, 19];
    assert QuadIndices(20) == [20, 21, 22, 20, 22, 23];
    assert QuadStrip(6) == QuadIndices(0) + QuadIndices(4) + QuadIndices(8) + QuadIndices(12) + QuadIndices(16) + QuadIndices(20);
  }

  lemma {:induction false} FacesAt(size: Vec3, n: nat, f: nat)
    requires f < n <= 6
    ensures Faces(size, n)[4 * f .. 4 * f + 4] == FaceVertices(size, f)
  {
    var prev, last := Faces(size, n - 1), FaceVertices(size, n - 1);
    if f < n - 1 {
      FacesAt(size, n - 1, f);
      SliceOfAppendLeft(prev, last, 4 * f, 4 * f + 4);
    } else {
      SliceOfAppendRight(prev, last, 4 * f, 4 * f + 4);
    }
  }

  /**
   * 24 vertices and 36 indices; face `f` is vertices `4f` to `4f + 3`, which
   * share that face's normal, and is drawn by indices `6f` to `6f + 5`, the
   * triangles (`4f`, `4f + 1`, `4f + 2`) and (`4f`, `4f + 2`, `4f + 3`).
   */
  lemma {:induction false} CuboidFaces(size: Vec3, f: nat)
    requires f < 6
    ensures |CuboidVertices(size)| == 24 && |CUBOID_INDICES| == 36
    ensures CuboidVertices(size)[4 * f .. 4 * f + 4] == FaceVertices(size, f)
    ensures forall j :: 4 * f <= j < 4 * f + 4 ==> CuboidVertices(size)[j].normal == FACE_NORMALS[f]
    ensures CUBOID_INDICES[6 * f .. 6 * f + 6] == QuadIndices(4 * f)
  {
    CuboidIndicesAreQuads();
    QuadStripAt(6, f);
    FacesAt(size, 6, f);
    forall j | 4 * f <= j < 4 * f + 4 ensures CuboidVertices(size)[j].normal == FACE_NORMALS[f] {
      assert CuboidVertices(size)[j] == FaceVertices(size, f)[j - 4 * f];
    }
  }

  /** Every index names one of the 24 vertices, and every vertex is named by some index. */
  lemma {:induction false} CuboidIndicesCover()
    ensures IndicesBelow(CUBOID_INDICES, 24) && ReferencesAll(CUBOID_INDICES, 24)
  {
    CuboidIndicesAreQuads();
    QuadStripCovers(6);
  }
}
