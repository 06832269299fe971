/**
 * `Mesh.sphere(subdivisionCount:material:)` (Sources/SwiftVulkanRenderer/Mesh/Mesh+sphere.swift):
 * the icosahedron, subdivided `subdivisionCount` times. Each pass splits
 * every face into four (`subdivideFace`) and pushes the twelve new vertices
 * out onto the sphere of radius 1/2, so the face count goes `20, 80, 320, ...`
 * and the vertex list stays three vertices per face. The indices are
 * `0..<vertices.count`.
 *
 * `FVec3.normalized()` takes a square root and is an input here: any map
 * `normalize` of vectors. The lemmas that speak about the sphere ask only
 * that it returns unit vectors.
 */
module Spheres {
  import opened Common
  import opened Meshes
  import opened Icosahedra

  /** The `radius:` every pass of `sphere` passes to `subdivideFace`. */
  const RADIUS: real := 0.5

  /** `p + (q - p) / 2`. */
  function Midpoint(p: Vec3, q: Vec3): Vec3 {
    Add(p, Scale(Sub(q, p), 0.5))
  }

  /** `Vertex(position: p.normalized() * radius, normal: p.normalized())`. */
  function Project(p: Vec3, normalize: Vec3 -> Vec3, radius: real): Vertex {
    Vertex(Scale(normalize(p), radius), normalize(p))
  }

  /** `positions.map { ... }` with `Project`. */
  function ProjectAll(positions: seq<Vec3>, normalize: Vec3 -> Vec3, radius: real): (r: seq<Vertex>)
    ensures |r| == |positions|
  {
    if positions == [] then [] else [Project(positions[0], normalize, radius)] + ProjectAll(positions[1..], normalize, radius)
  }

  lemma {:induction false} ProjectAllAt(positions: seq<Vec3>, normalize: Vec3 -> Vec3, radius: real, k: nat)
    requires k < |positions|
    ensures ProjectAll(positions, normalize, radius)[k] == Project(positions[k], normalize, radius)
  {
    if k > 0 {
      ProjectAllAt(positions[1..], normalize, radius, k - 1);
    }
  }

  /**
   * The twelve positions of `subdivideFace`: the middle triangle of the
   * edge midpoints, then the corner triangles at `v1`, `v2` and `v3`.
   */
  function SubdivisionPositions(v1: Vertex, v2: Vertex, v3: Vertex): (ps: seq<Vec3>)
    ensures |ps| == 12
  {
    var mid1 := Midpoint(v1.position, v2.position);
    var mid2 := Midpoint(v2.position, v3.position);
    var mid3 := Midpoint(v3.position, v1.position);
    [mid1, mid2, mid3,
     v1.position, mid1, mid3,
     mid1, v2.position, mid2,
     mid2, v3.position, mid3]
  }

  /** `subdivideFace(v1, v2, v3, radius:)`. */
  function SubdivideFace(v1: Vertex, v2: Vertex, v3: Vertex, normalize: Vec3 -> Vec3, radius: real): (r: seq<Vertex>)
    ensures |r| == 12
  {
    ProjectAll(SubdivisionPositions(v1, v2, v3), normalize, radius)
  }

  /**
   * The four triangles `subdivideFace` returns. The first joins the
   * projected midpoints of the edges `v1 v2`, `v2 v3`, `v3 v1` (each midpoint
   * halfway along its edge); the other three keep one projected corner each,
   * `v1`, `v2`, `v3` in turn, and share their other two vertices with the
   * first triangle.
   */
  lemma {:induction false} SubdivideFaceTriangles(v1: Vertex, v2: Vertex, v3: Vertex, normalize: Vec3 -> Vec3, radius: real)
    ensures var r, mid1, mid2, mid3 := SubdivideFace(v1, v2, v3, normalize, radius),
              Midpoint(v1.position, v2.position), Midpoint(v2.position, v3.position), Midpoint(v3.position, v1.position);
            && Sub(mid1, v1.position) == Sub(v2.position, mid1)
            && Sub(mid2, v2.position) == Sub(v3.position, mid2)
            && Sub(mid3, v3.position) == Sub(v1.position, mid3)
            && r[0] == Project(mid1, normalize, radius)
            && r[1] == Project(mid2, normalize, radius)
            && r[2] == Project(mid3, normalize, radius)
            && r[3] == Project(v1.position, normalize, radius) && r[4] == r[0] && r[5] == r[2]
            && r[6] == r[0] && r[7] == Project(v2.position, normalize, radius) && r[8] == r[1]
            && r[9] == r[1] && r[10] == Project(v3.position, normalize, radius) && r[11] == r[2]
  {
    var ps := SubdivisionPositions(v1, v2, v3);
    ProjectAllAt(ps, normalize, radius, 0);
    ProjectAllAt(ps, normalize, radius, 1);
    ProjectAllAt(ps, normalize, radius, 2);
    ProjectAllAt(ps, normalize, radius, 3);
    ProjectAllAt(ps, normalize, radius, 4);
    ProjectAllAt(ps, normalize, radius, 5);
    ProjectAllAt(ps, normalize, radius, 6);
    ProjectAllAt(ps, normalize, radius, 7);
    ProjectAllAt(ps, normalize, radius, 8);
    ProjectAllAt(ps, normalize, radius, 9);
    ProjectAllAt(ps, normalize, radius, 10);
    ProjectAllAt(ps, normalize, radius, 11);
  }

  /** The inner loop of `sphere`: the first `n` faces of `vertices`, each subdivided, in order. */
  function SubdividePass(vertices: seq<Vertex>, n: nat, normalize: Vec3 -> Vec3): (r: seq<Vertex>)
    requires 3 * n <= |vertices|
    ensures |r| == 12 * n
  {
    if n == 0 then []
    else SubdividePass(vertices, n - 1, normalize)
         + SubdivideFace(vertices[3 * n - 3], vertices[3 * n - 2], vertices[3 * n - 1], normalize, RADIUS)
  }

  /** `4ⁿ`. */
  function Pow4(n: nat): (r: nat)
    ensures r >= 1
  {
    if n == 0 then 1 else 4 * Pow4(n - 1)
  }

  /**
   * What the outer loop of `sphere` makes of `vertices`, three per face for
   * `nFaces` faces, with `s` passes still to go.
   */
  function Subdivided(vertices: seq<Vertex>, nFaces: nat, s: nat, normalize: Vec3 -> Vec3): (r: seq<Vertex>)
    requires |vertices| == 3 * nFaces
    decreases s
  {
    if s == 0 then vertices
    else Subdivided(SubdividePass(vertices, nFaces, normalize), 4 * nFaces, s - 1, normalize)
  }

  /** Each pass multiplies the face count by four and keeps three vertices per face. */
  lemma {:induction false} SubdividedCount(vertices: seq<Vertex>, nFaces: nat, s: nat, normalize: Vec3 -> Vec3)
    requires |vertices| == 3 * nFaces
    ensures |Subdivided(vertices, nFaces, s, normalize)| == 3 * (nFaces * Pow4(s))
    decreases s
  {
    if s > 0 {
      SubdividedCount(SubdividePass(vertices, nFaces, normalize), 4 * nFaces, s - 1, normalize);
      Pow4Step(nFaces, s);
    }
  }

  lemma {:induction false} Pow4Step(n: nat, s: nat)
    requires s > 0
    ensures (4 * n) * Pow4(s - 1) == n * Pow4(s)
  {
    assert Pow4(s) == 4 * Pow4(s - 1);
  }

  /** The vertex list `sphere` returns. */
  function SphereVertices(b: real, subdivisionCount: nat, normalize: Vec3 -> Vec3): seq<Vertex> {
    Subdivided(IcosahedronVertices(b), FACE_COUNT, subdivisionCount, normalize)
  }

  /**
   * `sphere(subdivisionCount:)`. A negative count traps in the range
   * `0..<subdivisionCount`, and so does a vertex count that does not fit the
   * `UInt32` of the index range.
   */
  method Sphere(subdivisionCount: int, b: real, normalize: Vec3 -> Vec3) returns (mesh: Mesh)
    requires 0 <= subdivisionCount && 60 * Pow4(subdivisionCount) < UINT32_LIMIT
    ensures fresh(mesh)
    ensures mesh.vertices == SphereVertices(b, subdivisionCount, normalize)
    ensures |mesh.vertices| == 60 * Pow4(subdivisionCount)
    ensures mesh.indices == Iota(|mesh.vertices|)
  {
    var icosahedron := Icosahedron(b);
    var vertices := SubdivideRepeatedly(icosahedron.vertices, subdivisionCount, normalize);
    SubdividedCount(icosahedron.vertices, FACE_COUNT, subdivisionCount, normalize);
    mesh := new Mesh(vertices, Iota(|vertices|));
  }

  /**
   * The outer loop of `sphere`, from the icosahedron's 20 faces: pass after
   * pass replaces the vertices by their subdivision and multiplies the face
   * count by four.
   */
  method SubdivideRepeatedly(icosahedronVertices: seq<Vertex>, subdivisionCount: nat, normalize: Vec3 -> Vec3)
    returns (vertices: seq<Vertex>)
    requires |icosahedronVertices| == 3 * FACE_COUNT
    ensures vertices == Subdivided(icosahedronVertices, FACE_COUNT, subdivisionCount, normalize)
  {
    vertices := icosahedronVertices;
    var nFaces := 20;
    for subdivisionIndex := 0 to subdivisionCount
      invariant |vertices| == 3 * nFaces
      invariant Subdivided(vertices, nFaces, subdivisionCount - subdivisionIndex, normalize)
                == Subdivided(icosahedronVertices, FACE_COUNT, subdivisionCount, normalize)
    {
      var updatedVertices := SubdivideAll(vertices, nFaces, normalize);
      vertices := updatedVertices;
      nFaces := nFaces * 4;
    }
  }

  /** One pass of `sphere`'s outer loop: every face of `vertices`, subdivided, in order. */
  method SubdivideAll(vertices: seq<Vertex>, nFaces: nat, normalize: Vec3 -> Vec3) returns (updatedVertices: seq<Vertex>)
    requires |vertices| == 3 * nFaces
    ensures updatedVertices == SubdividePass(vertices, nFaces, normalize)
  {
    updatedVertices := [];
    for faceIndex := 0 to nFaces
      invariant updatedVertices == SubdividePass(vertices, faceIndex, normalize)
    {
      var subdivisionVertices := SubdivideFace(vertices[faceIndex * 3 + 0], vertices[faceIndex * 3 + 1],
                                               vertices[faceIndex * 3 + 2], normalize, RADIUS);
      updatedVertices := updatedVertices + subdivisionVertices;
    }
  }

  /**
   * After `n` passes: `20·4ⁿ` faces, `60·4ⁿ` vertices, drawn in order by the
   * indices `0..<60·4ⁿ`; with no pass, the icosahedron's vertices unchanged.
   */
  lemma {:induction false} SphereCounts(b: real, n: nat, normalize: Vec3 -> Vec3)
    requires 60 * Pow4(n) <= UINT32_LIMIT
    ensures var vs := SphereVertices(b, n, normalize);
            && |vs| == 60 * Pow4(n)
            && IndicesBelow(Iota(|vs|), |vs|) && Gather(vs, Iota(|vs|)) == vs
            && (n == 0 ==> vs == IcosahedronVertices(b))
  {
    SubdividedCount(IcosahedronVertices(b), FACE_COUNT, n, normalize);
    FlatVerticesOfIota(SphereVertices(b, n, normalize));
  }

  /** `normalize` returns unit vectors. */
  ghost predicate UnitNormalize(normalize: Vec3 -> Vec3) {
    forall p :: Norm2(normalize(p)) == 1.0
  }

  /** A vertex at `radius` from the centre whose normal points straight out. */
  predicate OnSphere(v: Vertex, radius: real) {
    v.position == Scale(v.normal, radius) && Norm2(v.normal) == 1.0
  }

  lemma {:induction false} Norm2Scale(u: Vec3, s: real)
    ensures Norm2(Scale(u, s)) == s * s * Norm2(u)
  {
  }

  /** Every vertex of a pass lies on the sphere. */
  lemma {:induction false} PassOnSphere(vertices: seq<Vertex>, n: nat, normalize: Vec3 -> Vec3, k: nat)
    requires UnitNormalize(normalize) && 3 * n <= |vertices| && k < 12 * n
    ensures OnSphere(SubdividePass(vertices, n, normalize)[k], RADIUS)
  {
    var prev := SubdividePass(vertices, n - 1, normalize);
    var ps := SubdivisionPositions(vertices[3 * n - 3], vertices[3 * n - 2], vertices[3 * n - 1]);
    var last := ProjectAll(ps, normalize, RADIUS);
    if k < 12 * (n - 1) {
      PassOnSphere(vertices, n - 1, normalize, k);
      assert (prev + last)[k] == prev[k];
    } else {
      ProjectAllAt(ps, normalize, RADIUS, k - 12 * (n - 1));
      assert (prev + last)[k] == last[k - 12 * (n - 1)];
    }
  }

  /** After at least one pass, every vertex lies on the sphere. */
  lemma {:induction false} SubdividedOnSphere(vertices: seq<Vertex>, nFaces: nat, s: nat, normalize: Vec3 -> Vec3, k: nat)
    requires UnitNormalize(normalize) && |vertices| == 3 * nFaces && 1 <= s
    requires k < |Subdivided(vertices, nFaces, s, normalize)|
    ensures OnSphere(Subdivided(vertices, nFaces, s, normalize)[k], RADIUS)
    decreases s
  {
    var pass := SubdividePass(vertices, nFaces, normalize);
    if s == 1 {
      PassOnSphere(vertices, nFaces, normalize, k);
    } else {
      SubdividedOnSphere(pass, 4 * nFaces, s - 1, normalize, k);
    }
  }

  /**
   * With at least one subdivision and a `normalize` that returns unit
   * vectors, every vertex of the sphere is at distance 1/2 from the centre
   * (the diameter is 1) and its normal points straight out from the centre.
   */
  lemma {:induction false} SphereOnSurface(b: real, n: nat, normalize: Vec3 -> Vec3, k: nat)
    requires UnitNormalize(normalize) && 1 <= n && k < |SphereVertices(b, n, normalize)|
    ensures var v := SphereVertices(b, n, normalize)[k];
            && v.position == Scale(v.normal, RADIUS)
            && Norm2(v.position) == RADIUS * RADIUS
  {
    var v := SphereVertices(b, n, normalize)[k];
    SubdividedOnSphere(IcosahedronVertices(b), FACE_COUNT, n, normalize, k);
    Norm2Scale(v.normal, RADIUS);
  }
}
