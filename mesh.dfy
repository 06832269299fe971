/**
 * `Mesh` (Sources/SwiftVulkanRenderer/Mesh/Mesh.swift): a vertex list and a
 * list of 32-bit indices into it, compared and hashed by object identity
 * (a Dafny class reference is compared the same way), and the shared
 * vocabulary of the mesh generators: vectors, vertices, index ranges.
 *
 * Vector components are exact reals: the generators' sums, differences and
 * cross products are modelled exactly and float rounding is not.
 */
module Meshes {
  import opened Common

  /** `FVec3`. */
  datatype Vec3 = Vec3(x: real, y: real, z: real)

  const ZERO: Vec3 := Vec3(0.0, 0.0, 0.0)

  function Add(u: Vec3, v: Vec3): Vec3 {
    Vec3(u.x + v.x, u.y + v.y, u.z + v.z)
  }

  function Sub(u: Vec3, v: Vec3): Vec3 {
    Vec3(u.x - v.x, u.y - v.y, u.z - v.z)
  }

  /** The component-wise product `u * v`. */
  function Mul(u: Vec3, v: Vec3): Vec3 {
    Vec3(u.x * v.x, u.y * v.y, u.z * v.z)
  }

  function Scale(u: Vec3, s: real): Vec3 {
    Vec3(u.x * s, u.y * s, u.z * s)
  }

  function Cross(u: Vec3, v: Vec3): Vec3 {
    Vec3(u.y * v.z - u.z * v.y, u.z * v.x - u.x * v.z, u.x * v.y - u.y * v.x)
  }

  /** The squared length `|p|²`. */
  function Norm2(p: Vec3): real {
    p.x * p.x + p.y * p.y + p.z * p.z
  }

  /** The vertex the generators build with `Vertex(position:normal:)`. */
  datatype Vertex = Vertex(position: Vec3, normal: Vec3)

  /** Every index names one of `n` vertices. */
  predicate IndicesBelow(indices: seq<uint32>, n: int) {
    forall k :: 0 <= k < |indices| ==> indices[k] < n
  }

  lemma {:induction false} IndicesBelowWeaken(indices: seq<uint32>, n: int, m: int)
    requires IndicesBelow(indices, n) && n <= m
    ensures IndicesBelow(indices, m)
  {
  }

  /** Two lists of indices below `n` joined stay below `n`. */
  lemma {:induction false} IndicesBelowAppend(a: seq<uint32>, b: seq<uint32>, n: int)
    requires IndicesBelow(a, n) && IndicesBelow(b, n)
    ensures IndicesBelow(a + b, n)
  {
    forall k | 0 <= k < |a + b| ensures (a + b)[k] < n {
      if k >= |a| {
        assert (a + b)[k] == b[k - |a|];
      }
    }
  }

  /** Some index names vertex `v`. */
  predicate References(indices: seq<uint32>, v: int) {
    exists k :: 0 <= k < |indices| && indices[k] == v
  }

  /** Every one of `n` vertices is named by some index. */
  predicate ReferencesAll(indices: seq<uint32>, n: int) {
    forall v :: 0 <= v < n ==> References(indices, v)
  }

  class Mesh {
    var vertices: seq<Vertex>
    var indices: seq<uint32>

    constructor(vertices: seq<Vertex>, indices: seq<uint32>)
      ensures this.vertices == vertices && this.indices == indices
    {
      this.vertices := vertices;
      this.indices := indices;
    }

    /**
     * `flatVertices`: the vertex each index names, in index order. An index
     * past the vertex list traps, so every index must be in range.
     */
    function FlatVertices(): (flat: seq<Vertex>)
      reads this
      requires IndicesBelow(indices, |vertices|)
      ensures |flat| == |indices|
      ensures forall k :: 0 <= k < |indices| ==> flat[k] == vertices[indices[k]]
    {
      Gather(vertices, indices)
    }
  }

  /** `indices.map { vertices[Int($0)] }`. */
  function Gather(vertices: seq<Vertex>, indices: seq<uint32>): (flat: seq<Vertex>)
    requires IndicesBelow(indices, |vertices|)
    ensures |flat| == |indices|
    ensures forall k :: 0 <= k < |indices| ==> flat[k] == vertices[indices[k]]
  {
    if indices == [] then []
    else [vertices[indices[0]]] + Gather(vertices, indices[1..])
  }

  /** `Array(0..<UInt32(n))`: the indices `0, 1, ..., n - 1`. */
  function Iota(n: nat): (r: seq<uint32>)
    requires n <= UINT32_LIMIT
    ensures |r| == n
    ensures forall k :: 0 <= k < n ==> r[k] == k
  {
    if n == 0 then [] else Iota(n - 1) + [(n - 1) as uint32]
  }

  /**
   * A mesh whose indices are `0..<|vertices|` draws its vertices in order:
   * its flat vertex list is its vertex list.
   */
  lemma {:induction false} FlatVerticesOfIota(vertices: seq<Vertex>)
    requires |vertices| <= UINT32_LIMIT
    ensures IndicesBelow(Iota(|vertices|), |vertices|)
    ensures Gather(vertices, Iota(|vertices|)) == vertices
  {
    var flat := Gather(vertices, Iota(|vertices|));
    assert forall k :: 0 <= k < |vertices| ==> flat[k] == vertices[k];
  }

  /**
   * The six indices of a quad whose corners start at vertex `s`: triangles
   * (`s`, `s + 1`, `s + 2`) and (`s`, `s + 2`, `s + 3`).
   */
  function QuadIndices(s: nat): (r: seq<uint32>)
    requires s + 3 < UINT32_LIMIT
  {
    [s as uint32, (s + 1) as uint32, (s + 2) as uint32, s as uint32, (s + 2) as uint32, (s + 3) as uint32]
  }

  /** The indices of `n` quads laid out four vertices apart: quad `f` uses vertices `4f` to `4f + 3`. */
  function QuadStrip(n: nat): (r: seq<uint32>)
    requires 4 * n <= UINT32_LIMIT
    ensures |r| == 6 * n
  {
    if n == 0 then [] else QuadStrip(n - 1) + QuadIndices(4 * (n - 1))
  }

  /** Quad `f` of the strip is drawn by indices `6f` to `6f + 5`. */
  lemma {:induction false} QuadStripAt(n: nat, f: nat)
    requires 4 * n <= UINT32_LIMIT && f < n
    ensures QuadStrip(n)[6 * f .. 6 * f + 6] == QuadIndices(4 * f)
  {
    var prev, last := QuadStrip(n - 1), QuadIndices(4 * (n - 1));
    if f < n - 1 {
      QuadStripAt(n - 1, f);
      SliceOfAppendLeft(prev, last, 6 * f, 6 * f + 6);
    } else {
      SliceOfAppendRight(prev, last, 6 * f, 6 * f + 6);
    }
  }

  /** Every index of the strip names one of its `4n` vertices. */
  lemma {:induction false} QuadStripBelow(n: nat)
    requires 4 * n <= UINT32_LIMIT
    ensures IndicesBelow(QuadStrip(n), 4 * n)
  {
    if n > 0 {
      var r := QuadStrip(n);
      QuadStripBelow(n - 1);
      forall k | 0 <= k < |r| ensures r[k] < 4 * n {
        if k < 6 * (n - 1) {
          assert r[k] == QuadStrip(n - 1)[k];
        } else {
          assert r[k] == QuadIndices(4 * (n - 1))[k - 6 * (n - 1)];
        }
      }
    }
  }

  /** Every index of the strip names one of its `4n` vertices, and each of them is named. */
  lemma {:induction false} QuadStripCovers(n: nat)
    requires 4 * n <= UINT32_LIMIT
    ensures IndicesBelow(QuadStrip(n), 4 * n) && ReferencesAll(QuadStrip(n), 4 * n)
  {
    QuadStripBelow(n);
    if n > 0 {
      var r := QuadStrip(n);
      QuadStripCovers(n - 1);
      forall v | 0 <= v < 4 * n ensures References(r, v) {
        if v < 4 * (n - 1) {
          assert References(QuadStrip(n - 1), v);
          var k :| 0 <= k < |QuadStrip(n - 1)| && QuadStrip(n - 1)[k] == v;
          assert r[k] == v;
        } else {
          var j := v - 4 * (n - 1);
          var k := 6 * (n - 1) + (if j == 3 then 5 else j);
          assert r[k] == QuadIndices(4 * (n - 1))[k - 6 * (n - 1)];
        }
      }
    }
  }
}
