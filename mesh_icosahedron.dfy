/**
 * `Mesh.icosahedron(material:)` (Sources/SwiftVulkanRenderer/Mesh/Mesh+icosahedron.swift):
 * a table of 20 triangles, three vertices each, written out with zero
 * normals; a loop then gives the three vertices of every face the normal
 * `(p2 - p1) × (p3 - p1)` of that face, in place. The indices are `0..<60`.
 *
 * The table's coordinates are `±a` and `±b` with `a = 1/2` and
 * `b = 1 / (2 phi)`; `b` involves a square root and is an input here.
 */
module Icosahedra {
  import opened Common
  import opened Meshes

  /** `a`: half the edge-to-edge extent of the three golden rectangles. */
  const A: real := 0.5

  /** The number of faces the normal loop visits. */
  const FACE_COUNT: nat := 20

  // ------------------------------------------------------------------ the table

  /** The corners of face `f` as the table lists them, three rows per face. */
  function IcosahedronFace(b: real, f: nat): (ps: seq<Vec3>)
    requires f < FACE_COUNT
    ensures |ps| == 3
  {
    match f
    case 0 => [Vec3(b, A, 0.0), Vec3(0.0, b, -A), Vec3(-b, A, 0.0)]
    case 1 => [Vec3(-b, A, 0.0), Vec3(0.0, b, A), Vec3(b, A, 0.0)]
    case 2 => [Vec3(0.0, -b, A), Vec3(0.0, b, A), Vec3(-A, 0.0, b)]
    case 3 => [Vec3(A, 0.0, b), Vec3(0.0, b, A), Vec3(0.0, -b, A)]
    case 4 => [Vec3(0.0, -b, -A), Vec3(0.0, b, -A), Vec3(A, 0.0, -b)]
    case 5 => [Vec3(-A, 0.0, -b), Vec3(0.0, b, -A), Vec3(0.0, -b, -A)]
    case 6 => [Vec3(b, -A, 0.0), Vec3(0.0, -b, A), Vec3(-b, -A, 0.0)]
    case 7 => [Vec3(-b, -A, 0.0), Vec3(0.0, -b, -A), Vec3(b, -A, 0.0)]
    case 8 => [Vec3(-A, 0.0, b), Vec3(-b, A, 0.0), Vec3(-A, 0.0, -b)]
    case 9 => [Vec3(-A, 0.0, -b), Vec3(-b, -A, 0.0), Vec3(-A, 0.0, b)]
    case 10 => [Vec3(A, 0.0, -b), Vec3(b, A, 0.0), Vec3(A, 0.0, b)]
    case 11 => [Vec3(A, 0.0, b), Vec3(b, -A, 0.0), Vec3(A, 0.0, -b)]
    case 12 => [Vec3(-A, 0.0, b), Vec3(0.0, b, A), Vec3(-b, A, 0.0)]
    case 13 => [Vec3(b, A, 0.0), Vec3(0.0, b, A), Vec3(A, 0.0, b)]
    case 14 => [Vec3(-b, A, 0.0), Vec3(0.0, b, -A), Vec3(-A, 0.0, -b)]
    case 15 => [Vec3(A, 0.0, -b), Vec3(0.0, b, -A), Vec3(b, A, 0.0)]
    case 16 => [Vec3(-A, 0.0, -b), Vec3(0.0, -b, -A), Vec3(-b, -A, 0.0)]
    case 17 => [Vec3(b, -A, 0.0), Vec3(0.0, -b, -A), Vec3(A, 0.0, -b)]
    case 18 => [Vec3(-b, -A, 0.0), Vec3(0.0, -b, A), Vec3(-A, 0.0, b)]
    case _ => [Vec3(A, 0.0, b), Vec3(0.0, -b, A), Vec3(b, -A, 0.0)]
  }

  /** A face's corners as table rows: `Vertex(position:normal: .zero)`. */
  function ZeroNormals(ps: seq<Vec3>): (r: seq<Vertex>)
    requires |ps| == 3
    ensures |r| == 3 && forall c :: 0 <= c < 3 ==> r[c] == Vertex(ps[c], ZERO)
  {
    [Vertex(ps[0], ZERO), Vertex(ps[1], ZERO), Vertex(ps[2], ZERO)]
  }

  /** The first `n` faces of the table. */
  function IcosahedronTable(b: real, n: nat): (vs: seq<Vertex>)
    requires n <= FACE_COUNT
    ensures |vs| == 3 * n
  {
    if n == 0 then [] else IcosahedronTable(b, n - 1) + ZeroNormals(IcosahedronFace(b, n - 1))
  }

  /** Row `3f + c` of the table is corner `c` of face `f`, with the zero normal. */
  lemma {:induction false} TableAt(b: real, n: nat, f: nat, c: nat)
    requires f < n <= FACE_COUNT && c < 3
    ensures IcosahedronTable(b, n)[3 * f + c] == Vertex(IcosahedronFace(b, f)[c], ZERO)
  {
    if f < n - 1 {
      TableAt(b, n - 1, f, c);
      TablePrefix(b, n, 3 * f + c);
    } else {
      TableLast(b, f, c);
    }
  }

  /** The rows of the first `n - 1` faces stay put when face `n - 1` is appended. */
  lemma {:induction false} TablePrefix(b: real, n: nat, k: nat)
    requires 0 < n <= FACE_COUNT && k < 3 * (n - 1)
    ensures IcosahedronTable(b, n)[k] == IcosahedronTable(b, n - 1)[k]
  {
    var prev, last := IcosahedronTable(b, n - 1), ZeroNormals(IcosahedronFace(b, n - 1));
    assert IcosahedronTable(b, n) == prev + last;
    assert (prev + last)[k] == prev[k];
  }

  /** The last face appended lands at rows `3f` to `3f + 2`. */
  lemma {:induction false} TableLast(b: real, f: nat, c: nat)
    requires f < FACE_COUNT && c < 3
    ensures IcosahedronTable(b, f + 1)[3 * f + c] == Vertex(IcosahedronFace(b, f)[c], ZERO)
  {
    var prev, last := IcosahedronTable(b, f), ZeroNormals(IcosahedronFace(b, f));
    assert IcosahedronTable(b, f + 1) == prev + last;
    assert (prev + last)[3 * f + c] == last[c];
  }

  /**
   * A corner of the three golden rectangles: its coordinates are `0`, `±b`,
   * `±a` in cyclic order.
   */
  predicate IsCorner(b: real, p: Vec3) {
    || (p.x == 0.0 && (p.y == b || p.y == -b) && (p.z == A || p.z == -A))
    || ((p.x == b || p.x == -b) && (p.y == A || p.y == -A) && p.z == 0.0)
    || ((p.x == A || p.x == -A) && p.y == 0.0 && (p.z == b || p.z == -b))
  }

  /** Every corner is at squared distance `a² + b²` from the centre. */
  lemma {:induction false} CornerEquidistant(b: real, p: Vec3)
    requires IsCorner(b, p)
    ensures Norm2(p) == A * A + b * b
  {
    assert p.x * p.x == 0.0 || p.x * p.x == b * b || p.x * p.x == A * A;
  }

  /** Every point the table lists is a corner of the golden rectangles. */
  lemma {:induction false} FaceCorners(b: real, f: nat, c: nat)
    requires f < FACE_COUNT && c < 3
    ensures IsCorner(b, IcosahedronFace(b, f)[c])
  {
  }

  // ------------------------------------------------------------------ face normals

  /** The normal of the triangle (`v1`, `v2`, `v3`): `(p2 - p1) × (p3 - p1)`. */
  function FaceNormal(v1: Vertex, v2: Vertex, v3: Vertex): Vec3 {
    Cross(Sub(v2.position, v1.position), Sub(v3.position, v1.position))
  }

  /** The triangle with its three vertices' normals replaced by the face normal. */
  function WithNormal(v1: Vertex, v2: Vertex, v3: Vertex): (r: seq<Vertex>)
    ensures |r| == 3
  {
    var normal := FaceNormal(v1, v2, v3);
    [v1.(normal := normal), v2.(normal := normal), v3.(normal := normal)]
  }

  /** The first `n` triangles of `vertices`, each with its face normal. */
  function NormalFaces(vertices: seq<Vertex>, n: nat): (r: seq<Vertex>)
    requires 3 * n <= |vertices|
    ensures |r| == 3 * n
  {
    if n == 0 then []
    else NormalFaces(vertices, n - 1) + WithNormal(vertices[3 * n - 3], vertices[3 * n - 2], vertices[3 * n - 1])
  }

  /** `vertices` after the first `n` faces have their normals: the rest as it was. */
  function WithFaceNormals(vertices: seq<Vertex>, n: nat): (r: seq<Vertex>)
    requires 3 * n <= |vertices|
    ensures |r| == |vertices|
  {
    NormalFaces(vertices, n) + vertices[3 * n..]
  }

  /**
   * Writing three vertices over the first three of `rest`, right after
   * `done`, appends them to `done`.
   */
  lemma {:induction false} ReplaceThree(done: seq<Vertex>, rest: seq<Vertex>, w: seq<Vertex>, i: nat)
    requires |rest| >= 3 && |w| == 3 && i == |done|
    ensures (done + rest)[i := w[0]][i + 1 := w[1]][i + 2 := w[2]] == (done + w) + rest[3..]
  {
    var lhs := (done + rest)[i := w[0]][i + 1 := w[1]][i + 2 := w[2]];
    var rhs := (done + w) + rest[3..];
    assert |lhs| == |rhs|;
    forall k | 0 <= k < |lhs| ensures lhs[k] == rhs[k] {
      if k >= i + 3 {
        assert rhs[k] == rest[3..][k - i - 3];
      }
    }
  }

  /**
   * The face loop of `icosahedron`: for each of the first `nFaces` faces, read
   * its three vertices, set each one's normal to the face normal, and write
   * them back to slots `3f`, `3f + 1`, `3f + 2`. Reading past the list traps.
   */
  method SetFaceNormals(vertices: seq<Vertex>, nFaces: nat) returns (result: seq<Vertex>)
    requires 3 * nFaces <= |vertices|
    ensures result == WithFaceNormals(vertices, nFaces)
  {
    result := vertices;
    assert result == NormalFaces(vertices, 0) + vertices[0..];
    for faceIndex := 0 to nFaces
      invariant result == NormalFaces(vertices, faceIndex) + vertices[3 * faceIndex..]
    {
      FaceStep(vertices, faceIndex, result);
      var vertex1 := result[faceIndex * 3 + 0];
      var vertex2 := result[faceIndex * 3 + 1];
      var vertex3 := result[faceIndex * 3 + 2];
      var a := Sub(vertex2.position, vertex1.position);
      var b := Sub(vertex3.position, vertex1.position);
      var normal := Cross(a, b);
      vertex1 := vertex1.(normal := normal);
      vertex2 := vertex2.(normal := normal);
      vertex3 := vertex3.(normal := normal);
      result := result[faceIndex * 3 + 0 := vertex1];
      result := result[faceIndex * 3 + 1 := vertex2];
      result := result[faceIndex * 3 + 2 := vertex3];
    }
  }

  /**
   * One pass of the face loop: with the first `f` faces done, slots `3f` to
   * `3f + 2` still hold face `f` as it was, and writing them back with the
   * face normal makes `f + 1` faces done.
   */
  lemma {:induction false} FaceStep(vertices: seq<Vertex>, f: nat, result: seq<Vertex>)
    requires 3 * f + 3 <= |vertices| && result == NormalFaces(vertices, f) + vertices[3 * f..]
    ensures result[3 * f] == vertices[3 * f] && result[3 * f + 1] == vertices[3 * f + 1]
            && result[3 * f + 2] == vertices[3 * f + 2]
    ensures var normal := FaceNormal(vertices[3 * f], vertices[3 * f + 1], vertices[3 * f + 2]);
            result[3 * f := vertices[3 * f].(normal := normal)]
                  [3 * f + 1 := vertices[3 * f + 1].(normal := normal)]
                  [3 * f + 2 := vertices[3 * f + 2].(normal := normal)]
            == NormalFaces(vertices, f + 1) + vertices[3 * (f + 1)..]
  {
    var done, rest := NormalFaces(vertices, f), vertices[3 * f..];
    assert result[3 * f] == rest[0] && result[3 * f + 1] == rest[1] && result[3 * f + 2] == rest[2];
    var w := WithNormal(vertices[3 * f], vertices[3 * f + 1], vertices[3 * f + 2]);
    ReplaceThree(done, rest, w, 3 * f);
    DropDrop(vertices, 3 * f, 3);
  }

  /** Dropping `i` elements and then `k` more drops `i + k`. */
  lemma {:induction false} DropDrop(s: seq<Vertex>, i: nat, k: nat)
    requires i + k <= |s|
    ensures s[i..][k..] == s[i + k..]
  {
    assert forall m :: 0 <= m < |s| - i - k ==> s[i..][k..][m] == s[i + k + m];
  }

  lemma {:induction false} NormalFacesAt(vertices: seq<Vertex>, n: nat, f: nat)
    requires f < n && 3 * n <= |vertices|
    ensures NormalFaces(vertices, n)[3 * f .. 3 * f + 3] == WithNormal(vertices[3 * f], vertices[3 * f + 1], vertices[3 * f + 2])
  {
    var prev, last := NormalFaces(vertices, n - 1), WithNormal(vertices[3 * n - 3], vertices[3 * n - 2], vertices[3 * n - 1]);
    if f < n - 1 {
      NormalFacesAt(vertices, n - 1, f);
      SliceOfAppendLeft(prev, last, 3 * f, 3 * f + 3);
    } else {
      SliceOfAppendRight(prev, last, 3 * f, 3 * f + 3);
    }
  }

  /**
   * Vertex `c` of face `f` comes back with its position as it was and the
   * face normal, the same for all three vertices of the face.
   */
  lemma {:induction false} FaceGetsNormal(vertices: seq<Vertex>, n: nat, f: nat, c: nat)
    requires f < n && 3 * n <= |vertices| && c < 3
    ensures WithFaceNormals(vertices, n)[3 * f + c]
         == vertices[3 * f + c].(normal := FaceNormal(vertices[3 * f], vertices[3 * f + 1], vertices[3 * f + 2]))
  {
    NormalFacesAt(vertices, n, f);
    var faces := NormalFaces(vertices, n);
    assert faces[3 * f + c] == faces[3 * f .. 3 * f + 3][c];
    assert WithFaceNormals(vertices, n)[3 * f + c] == faces[3 * f + c];
  }

  /** Slots past the first `n` faces are left as they were. */
  lemma {:induction false} RestUntouched(vertices: seq<Vertex>, n: nat, k: nat)
    requires 3 * n <= k < |vertices|
    ensures WithFaceNormals(vertices, n)[k] == vertices[k]
  {
    assert WithFaceNormals(vertices, n)[k] == vertices[3 * n..][k - 3 * n];
  }

  // ------------------------------------------------------------------ the generator

  /** The vertex list `icosahedron` returns. */
  function IcosahedronVertices(b: real): seq<Vertex> {
    WithFaceNormals(IcosahedronTable(b, FACE_COUNT), FACE_COUNT)
  }

  /** `icosahedron()`: the table, the indices `0..<60`, the face loop. */
  method Icosahedron(b: real) returns (mesh: Mesh)
    ensures fresh(mesh)
    ensures mesh.vertices == IcosahedronVertices(b) && mesh.indices == Iota(3 * FACE_COUNT)
  {
    var vertices := IcosahedronTable(b, FACE_COUNT);
    var indices := Iota(60);
    var nFaces := FACE_COUNT;
    vertices := SetFaceNormals(vertices, nFaces);
    mesh := new Mesh(vertices, indices);
  }

  /** 60 vertices, drawn in order by the indices `0..<60`. */
  lemma {:induction false} IcosahedronCounts(b: real)
    ensures var vs := IcosahedronVertices(b);
            && |vs| == 60 && IndicesBelow(Iota(60), 60) && Gather(vs, Iota(60)) == vs
  {
    FlatVerticesOfIota(IcosahedronVertices(b));
  }

  /**
   * Vertex `3f + c` sits at corner `c` of face `f` of the table, at squared
   * distance `a² + b²` from the centre like every other vertex, with the
   * normal `(p2 - p1) × (p3 - p1)` of its face's corners.
   */
  lemma {:induction false} IcosahedronFaces(b: real, f: nat, c: nat)
    requires f < FACE_COUNT && c < 3
    ensures var vs, ps := IcosahedronVertices(b), IcosahedronFace(b, f);
            && vs[3 * f + c].position == ps[c]
            && Norm2(vs[3 * f + c].position) == A * A + b * b
            && vs[3 * f + c].normal == Cross(Sub(ps[1], ps[0]), Sub(ps[2], ps[0]))
  {
    var table := IcosahedronTable(b, FACE_COUNT);
    FaceGetsNormal(table, FACE_COUNT, f, c);
    TableAt(b, FACE_COUNT, f, 0);
    TableAt(b, FACE_COUNT, f, 1);
    TableAt(b, FACE_COUNT, f, 2);
    TableAt(b, FACE_COUNT, f, c);
    FaceCorners(b, f, c);
    CornerEquidistant(b, IcosahedronFace(b, f)[c]);
  }
}
