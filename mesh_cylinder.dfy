/**
 * `Mesh.cylinder(divisionCount:material:)` (Sources/SwiftVulkanRenderer/Mesh/Mesh+cylinder.swift):
 * a top fan, a bottom fan and a band of side quads around `d = divisionCount`
 * base positions on the unit circle. The base positions come from `cos` and
 * `sin` and are an input here; everything built from them is modelled.
 *
 * Vertex layout: top rim `0..<d`, top centre `d`, bottom rim
 * `d + 1 ..< 2d + 1`, bottom centre `2d + 1`, then four vertices per side face
 * from `2d + 2` on: `6d + 2` in all.
 */
module Cylinders {
  import opened Common
  import opened Meshes

  /** Half the height, up and down: `FVec3(0, height / 2, 0)` with height 1. */
  const HALF_UP: Vec3 := Vec3(0.0, 0.5, 0.0)
  const HALF_DOWN: Vec3 := Vec3(0.0, -0.5, 0.0)

  /** The normals of the caps. */
  const UP: Vec3 := Vec3(0.0, 1.0, 0.0)
  const DOWN: Vec3 := Vec3(0.0, -1.0, 0.0)

  // ------------------------------------------------------------------ indices

  /** Every index plus `offset` still fits a `UInt32`. */
  predicate Shiftable(indices: seq<uint32>, offset: nat) {
    offset < UINT32_LIMIT && IndicesBelow(indices, UINT32_LIMIT - offset)
  }

  /** `additionalIndices.map { $0 + offset }`. */
  function Offset(indices: seq<uint32>, offset: nat): (r: seq<uint32>)
    requires Shiftable(indices, offset)
    ensures |r| == |indices|
  {
    if indices == [] then [] else [(indices[0] + offset) as uint32] + Offset(indices[1..], offset)
  }

  lemma {:induction false} OffsetAt(indices: seq<uint32>, offset: nat, k: nat)
    requires Shiftable(indices, offset) && k < |indices|
    ensures Offset(indices, offset)[k] == indices[k] + offset
  {
    if k > 0 {
      OffsetAt(indices[1..], offset, k - 1);
    }
  }

  lemma {:induction false} OffsetZero(indices: seq<uint32>)
    requires IndicesBelow(indices, UINT32_LIMIT)
    ensures Shiftable(indices, 0) && Offset(indices, 0) == indices
  {
    forall k | 0 <= k < |indices| ensures Offset(indices, 0)[k] == indices[k] {
      OffsetAt(indices, 0, k);
    }
  }

  /** Shifting commutes with slicing. */
  lemma {:induction false} OffsetSlice(indices: seq<uint32>, offset: nat, i: nat, j: nat)
    requires Shiftable(indices, offset) && i <= j <= |indices|
    ensures Shiftable(indices[i..j], offset)
    ensures Offset(indices, offset)[i..j] == Offset(indices[i..j], offset)
  {
    forall k | 0 <= k < j - i ensures Offset(indices, offset)[i..j][k] == Offset(indices[i..j], offset)[k] {
      OffsetAt(indices, offset, i + k);
      OffsetAt(indices[i..j], offset, k);
    }
  }

  /**
   * `mergeIndices(indices:additionalIndices:offset:)`: the indices so far,
   * then the additional ones moved up by `offset`. The `UInt32` addition
   * traps on overflow, so every shifted index must fit.
   */
  function MergeIndices(indices: seq<uint32>, additionalIndices: seq<uint32>, offset: nat): (r: seq<uint32>)
    requires Shiftable(additionalIndices, offset)
    ensures |r| == |indices| + |additionalIndices|
  {
    indices + Offset(additionalIndices, offset)
  }

  /** After the indices so far, additional index `k` comes back moved up by `offset`. */
  lemma {:induction false} MergeIndicesAt(indices: seq<uint32>, additionalIndices: seq<uint32>, offset: nat, k: nat)
    requires Shiftable(additionalIndices, offset) && k < |additionalIndices|
    ensures MergeIndices(indices, additionalIndices, offset)[|indices| + k] == additionalIndices[k] + offset
  {
    OffsetAt(additionalIndices, offset, k);
  }

  /**
   * Merging indices below `low` with additional ones below `high` at `offset`
   * stays below any `n` that is at least `low` and `high + offset`.
   */
  lemma {:induction false} MergeIndicesBelow(indices: seq<uint32>, additionalIndices: seq<uint32>, offset: nat,
                                             low: int, high: int, n: int)
    requires IndicesBelow(indices, low) && IndicesBelow(additionalIndices, high)
    requires low <= n && high + offset <= n <= UINT32_LIMIT && offset < UINT32_LIMIT
    ensures Shiftable(additionalIndices, offset)
    ensures IndicesBelow(MergeIndices(indices, additionalIndices, offset), n)
  {
    IndicesBelowWeaken(additionalIndices, high, UINT32_LIMIT - offset);
    var r := MergeIndices(indices, additionalIndices, offset);
    forall k | 0 <= k < |r| ensures r[k] < n {
      if k < |indices| {
        assert r[k] == indices[k];
      } else {
        MergeIndicesAt(indices, additionalIndices, offset, k - |indices|);
      }
    }
  }

  /** A run of the indices so far comes back as it was. */
  lemma {:induction false} MergeIndicesKeeps(indices: seq<uint32>, additionalIndices: seq<uint32>, offset: nat, i: nat, j: nat)
    requires Shiftable(additionalIndices, offset) && i <= j <= |indices|
    ensures MergeIndices(indices, additionalIndices, offset)[i..j] == indices[i..j]
  {
    SliceOfAppendLeft(indices, Offset(additionalIndices, offset), i, j);
  }

  /** Top triangle `i` around the centre `d`: (`i + 1`, `i`, `d`), closing the fan with 0 for the last. */
  function TopTriangle(d: nat, i: nat): seq<uint32>
    requires i < d < UINT32_LIMIT
  {
    if i == d - 1 then [0, i as uint32, d as uint32] else [(i + 1) as uint32, i as uint32, d as uint32]
  }

  /** Bottom triangle `i`: (`i`, `i + 1`, `d`), closing with 0 for the last. */
  function BottomTriangle(d: nat, i: nat): seq<uint32>
    requires i < d < UINT32_LIMIT
  {
    if i == d - 1 then [i as uint32, 0, d as uint32] else [i as uint32, (i + 1) as uint32, d as uint32]
  }

  /** The first `n` triangles of the top fan. */
  function TopFan(d: nat, n: nat): (r: seq<uint32>)
    requires n <= d < UINT32_LIMIT
    ensures |r| == 3 * n
  {
    if n == 0 then [] else TopFan(d, n - 1) + TopTriangle(d, n - 1)
  }

  /** The first `n` triangles of the bottom fan. */
  function BottomFan(d: nat, n: nat): (r: seq<uint32>)
    requires n <= d < UINT32_LIMIT
    ensures |r| == 3 * n
  {
    if n == 0 then [] else BottomFan(d, n - 1) + BottomTriangle(d, n - 1)
  }

  /** The largest `divisionCount` whose indices all fit a `UInt32`: `6d + 1 < 2^32`. */
  predicate DivisionCountFits(d: int) {
    0 <= d && 6 * d + 1 < UINT32_LIMIT
  }

  /** The fans and the strip each stay below their vertex count. */
  lemma {:induction false} FansBelow(d: nat, n: nat)
    requires n <= d < UINT32_LIMIT
    ensures IndicesBelow(TopFan(d, n), d + 1) && IndicesBelow(BottomFan(d, n), d + 1)
  {
    if n > 0 {
      FansBelow(d, n - 1);
      var top, bottom := TopTriangle(d, n - 1), BottomTriangle(d, n - 1);
      assert IndicesBelow(top, d + 1) && IndicesBelow(bottom, d + 1);
      IndicesBelowAppend(TopFan(d, n - 1), top, d + 1);
      IndicesBelowAppend(BottomFan(d, n - 1), bottom, d + 1);
    }
  }

  /**
   * The three `mergeIndices` calls of `cylinder`: the top run at offset 0, the
   * bottom run past the top's `d + 1` vertices, the side run past both caps'
   * `2d + 2`.
   */
  function MergeRuns(top: seq<uint32>, bottom: seq<uint32>, side: seq<uint32>, d: nat): seq<uint32>
    requires Shiftable(top, 0) && Shiftable(bottom, d + 1) && Shiftable(side, 2 * d + 2)
  {
    MergeIndices(MergeIndices(MergeIndices([], top, 0), bottom, d + 1), side, 2 * d + 2)
  }

  /** The index list `cylinder` returns: top fan, bottom fan, side strip. */
  function CylinderIndices(d: nat): (r: seq<uint32>)
    requires DivisionCountFits(d)
  {
    FansBelow(d, d);
    QuadStripBelow(d);
    MergeRuns(TopFan(d, d), BottomFan(d, d), QuadStrip(d), d)
  }

  /** The merged list is the top run as it was, then the bottom and side runs shifted. */
  lemma {:induction false} MergeRunsLayout(top: seq<uint32>, bottom: seq<uint32>, side: seq<uint32>, d: nat)
    requires Shiftable(top, 0) && Shiftable(bottom, d + 1) && Shiftable(side, 2 * d + 2)
    ensures var r, t, b := MergeRuns(top, bottom, side, d), |top|, |bottom|;
            && |r| == t + b + |side|
            && r[..t] == top
            && r[t .. t + b] == Offset(bottom, d + 1)
            && r[t + b ..] == Offset(side, 2 * d + 2)
  {
    var first := MergeIndices([], top, 0);
    var low, high := Offset(bottom, d + 1), Offset(side, 2 * d + 2);
    var caps := MergeIndices(first, bottom, d + 1);
    var r := MergeRuns(top, bottom, side, d);
    var t, b := |top|, |bottom|;
    OffsetZero(top);
    assert first == top;
    assert caps == top + low && r == caps + high;
    SliceOfAppendLeft(caps, high, 0, t);
    SliceOfAppendLeft(top, low, 0, t);
    SliceOfAppendLeft(caps, high, t, t + b);
    SliceOfAppendRight(top, low, t, t + b);
    SliceOfAppendRight(caps, high, t + b, |r|);
    assert low[0..b] == low && high[0..|side|] == high;
  }

  /** With the top and bottom runs below `d + 1` and the side run below `4d`, every merged index is below `6d + 2`. */
  lemma {:induction false} MergeRunsBelow(top: seq<uint32>, bottom: seq<uint32>, side: seq<uint32>, d: nat)
    requires 6 * d + 2 < UINT32_LIMIT
    requires IndicesBelow(top, d + 1) && IndicesBelow(bottom, d + 1) && IndicesBelow(side, 4 * d)
    ensures Shiftable(top, 0) && Shiftable(bottom, d + 1) && Shiftable(side, 2 * d + 2)
    ensures IndicesBelow(MergeRuns(top, bottom, side, d), 6 * d + 2)
  {
    MergeIndicesBelow([], top, 0, 0, d + 1, 2 * d + 2);
    var first := MergeIndices([], top, 0);
    MergeIndicesBelow(first, bottom, d + 1, 2 * d + 2, d + 1, 2 * d + 2);
    var caps := MergeIndices(first, bottom, d + 1);
    MergeIndicesBelow(caps, side, 2 * d + 2, 2 * d + 2, 4 * d, 6 * d + 2);
  }

  /**
   * Positions `lo ..< hi` of a list whose positions `start ..< end` are `run`
   * shifted: positions `i ..< j` of `run`, shifted, where `lo = start + i` and
   * `hi = start + j`.
   */
  lemma {:induction false} ShiftedRunSlice(r: seq<uint32>, run: seq<uint32>, start: nat, end: nat, offset: nat, lo: nat, hi: nat, i: nat, j: nat)
    requires Shiftable(run, offset) && start <= end <= |r| && r[start..end] == Offset(run, offset)
    requires lo == start + i && hi == start + j && i <= j && hi <= end
    ensures Shiftable(run[i..j], offset)
    ensures r[lo..hi] == Offset(run[i..j], offset)
  {
    SliceOfSlice(r, start, end, i, j);
    OffsetSlice(run, offset, i, j);
  }

  /** The cylinder's index list in its three runs. */
  lemma {:induction false} CylinderRuns(d: nat)
    requires DivisionCountFits(d)
    ensures (FansBelow(d, d); QuadStripBelow(d);
             var r := CylinderIndices(d);
             && |r| == 12 * d
             && r[..3 * d] == TopFan(d, d)
             && r[3 * d .. 6 * d] == Offset(BottomFan(d, d), d + 1)
             && r[6 * d .. 12 * d] == Offset(QuadStrip(d), 2 * d + 2))
  {
    FansBelow(d, d);
    QuadStripBelow(d);
    MergeRunsLayout(TopFan(d, d), BottomFan(d, d), QuadStrip(d), d);
  }

  // ------------------------------------------------------------------ vertices

  /** `basePositions.map { Vertex(position: $0 + lift, normal: normal) }`. */
  function Rim(basePositions: seq<Vec3>, lift: Vec3, normal: Vec3): (r: seq<Vertex>)
    ensures |r| == |basePositions|
  {
    if basePositions == [] then []
    else [Vertex(Add(basePositions[0], lift), normal)] + Rim(basePositions[1..], lift, normal)
  }

  lemma {:induction false} RimAt(basePositions: seq<Vec3>, lift: Vec3, normal: Vec3, i: nat)
    requires i < |basePositions|
    ensures Rim(basePositions, lift, normal)[i] == Vertex(Add(basePositions[i], lift), normal)
  {
    if i > 0 {
      RimAt(basePositions[1..], lift, normal, i - 1);
    }
  }

  /**
   * Side face `f`: base position `f` and the next one round the circle
   * (`(f + 1) % d`), each lifted to the top and dropped to the bottom, in the
   * order top `f`, top next, bottom next, bottom `f`; all four carry the
   * normal `(p2 - p1) × (p4 - p1)`.
   */
  function SideFace(basePositions: seq<Vec3>, f: nat): seq<Vertex>
    requires f < |basePositions|
  {
    var d := |basePositions|;
    var p1 := Add(basePositions[f], HALF_UP);
    var p2 := Add(basePositions[(f + 1) % d], HALF_UP);
    var p3 := Add(basePositions[(f + 1) % d], HALF_DOWN);
    var p4 := Add(basePositions[f], HALF_DOWN);
    var normal := Cross(Sub(p2, p1), Sub(p4, p1));
    [Vertex(p1, normal), Vertex(p2, normal), Vertex(p3, normal), Vertex(p4, normal)]
  }

  /** The first `n` side faces' vertices. */
  function SideVertices(basePositions: seq<Vec3>, n: nat): (r: seq<Vertex>)
    requires n <= |basePositions|
    ensures |r| == 4 * n
  {
    if n == 0 then [] else SideVertices(basePositions, n - 1) + SideFace(basePositions, n - 1)
  }

  /** The vertex list `cylinder` returns. */
  function CylinderVertices(basePositions: seq<Vec3>): seq<Vertex> {
    Rim(basePositions, HALF_UP, UP) + [Vertex(HALF_UP, UP)]
    + Rim(basePositions, HALF_DOWN, DOWN) + [Vertex(HALF_DOWN, DOWN)]
    + SideVertices(basePositions, |basePositions|)
  }

  // ------------------------------------------------------------------ the generator

  /**
   * `cylinder(divisionCount:)`, given the `divisionCount` points on the unit
   * circle its first loop computes. A negative count, or one whose indices
   * overflow `UInt32`, traps.
   */
  method Cylinder(divisionCount: int, basePositions: seq<Vec3>) returns (mesh: Mesh)
    requires DivisionCountFits(divisionCount) && |basePositions| == divisionCount
    ensures fresh(mesh)
    ensures mesh.vertices == CylinderVertices(basePositions) && mesh.indices == CylinderIndices(divisionCount)
  {
    var d := divisionCount;
    FansBelow(d, d);
    QuadStripBelow(d);
    var vertices, indices := Caps(basePositions);

    var sideIndices, sideVertices := SideBand(basePositions);
    IndicesBelowWeaken(sideIndices, 4 * d, UINT32_LIMIT - |vertices|);
    indices := MergeIndices(indices, sideIndices, |vertices|);
    vertices := vertices + sideVertices;
    assert indices == MergeRuns(TopFan(d, d), BottomFan(d, d), QuadStrip(d), d);
    mesh := new Mesh(vertices, indices);
  }

  /** The first two blocks of `cylinder`, from empty lists: the top cap, then the bottom cap. */
  method Caps(basePositions: seq<Vec3>) returns (vertices: seq<Vertex>, indices: seq<uint32>)
    requires DivisionCountFits(|basePositions|)
    ensures |vertices| == 2 * |basePositions| + 2 && |indices| == 6 * |basePositions|
    ensures vertices == Rim(basePositions, HALF_UP, UP) + [Vertex(HALF_UP, UP)]
                        + Rim(basePositions, HALF_DOWN, DOWN) + [Vertex(HALF_DOWN, DOWN)]
    ensures (FansBelow(|basePositions|, |basePositions|);
             indices == MergeIndices(MergeIndices([], TopFan(|basePositions|, |basePositions|), 0),
                                     BottomFan(|basePositions|, |basePositions|), |basePositions| + 1))
  {
    var d := |basePositions|;
    FansBelow(d, d);
    vertices, indices := [], [];

    var topIndices := TopFanLoop(d);
    vertices, indices := AppendCap(vertices, indices, topIndices, basePositions, HALF_UP, UP);
    assert vertices == Rim(basePositions, HALF_UP, UP) + [Vertex(HALF_UP, UP)];

    var bottomIndices := BottomFanLoop(d);
    vertices, indices := AppendCap(vertices, indices, bottomIndices, basePositions, HALF_DOWN, DOWN);
  }

  /**
   * One cap of `cylinder`: its fan merged in after the vertices so far, then
   * the rim (every base position moved by `lift`) and the centre at `lift`,
   * all with the cap's normal.
   */
  method AppendCap(vertices: seq<Vertex>, indices: seq<uint32>, capIndices: seq<uint32>,
                   basePositions: seq<Vec3>, lift: Vec3, normal: Vec3)
    returns (vertices': seq<Vertex>, indices': seq<uint32>)
    requires |vertices| + |basePositions| < UINT32_LIMIT
    requires IndicesBelow(capIndices, |basePositions| + 1)
    ensures Shiftable(capIndices, |vertices|)
    ensures indices' == MergeIndices(indices, capIndices, |vertices|)
    ensures vertices' == vertices + Rim(basePositions, lift, normal) + [Vertex(lift, normal)]
    ensures |vertices'| == |vertices| + |basePositions| + 1
  {
    IndicesBelowWeaken(capIndices, |basePositions| + 1, UINT32_LIMIT - |vertices|);
    indices' := MergeIndices(indices, capIndices, |vertices|);
    vertices' := vertices + Rim(basePositions, lift, normal);
    vertices' := vertices' + [Vertex(lift, normal)];
  }

  /** The top loop of `cylinder`: the fan around the top centre, index `divisionCount`. */
  method TopFanLoop(divisionCount: nat) returns (topIndices: seq<uint32>)
    requires DivisionCountFits(divisionCount)
    ensures topIndices == TopFan(divisionCount, divisionCount)
  {
    var centerIndex := divisionCount as uint32;
    topIndices := [];
    for i := 0 to divisionCount
      invariant topIndices == TopFan(divisionCount, i)
    {
      if i == divisionCount - 1 {
        topIndices := topIndices + [0, i as uint32, centerIndex];
      } else {
        topIndices := topIndices + [(i + 1) as uint32, i as uint32, centerIndex];
      }
    }
  }

  /** The bottom loop of `cylinder`: the fan around the same local centre index, wound the other way. */
  method BottomFanLoop(divisionCount: nat) returns (bottomIndices: seq<uint32>)
    requires DivisionCountFits(divisionCount)
    ensures bottomIndices == BottomFan(divisionCount, divisionCount)
  {
    var centerIndex := divisionCount as uint32;
    bottomIndices := [];
    for i := 0 to divisionCount
      invariant bottomIndices == BottomFan(divisionCount, i)
    {
      if i == divisionCount - 1 {
        bottomIndices := bottomIndices + [i as uint32, 0, centerIndex];
      } else {
        bottomIndices := bottomIndices + [i as uint32, (i + 1) as uint32, centerIndex];
      }
    }
  }

  /** The side loop of `cylinder`: one quad per face, its indices starting at the face's first vertex. */
  method SideBand(basePositions: seq<Vec3>) returns (sideIndices: seq<uint32>, sideVertices: seq<Vertex>)
    requires DivisionCountFits(|basePositions|)
    ensures sideIndices == QuadStrip(|basePositions|) && sideVertices == SideVertices(basePositions, |basePositions|)
  {
    var d := |basePositions|;
    sideIndices, sideVertices := [], [];
    for faceIndex := 0 to d
      invariant sideIndices == QuadStrip(faceIndex) && sideVertices == SideVertices(basePositions, faceIndex)
    {
      var basePos1 := basePositions[faceIndex];
      var basePos2 := basePositions[(faceIndex + 1) % d];
      var p1, p2 := Add(basePos1, HALF_UP), Add(basePos2, HALF_UP);
      var p3, p4 := Add(basePos2, HALF_DOWN), Add(basePos1, HALF_DOWN);
      var normal := Cross(Sub(p2, p1), Sub(p4, p1));
      var faceStartIndex := |sideVertices|;
      sideIndices := sideIndices + [faceStartIndex as uint32, (faceStartIndex + 1) as uint32, (faceStartIndex + 2) as uint32,
                                    faceStartIndex as uint32, (faceStartIndex + 2) as uint32, (faceStartIndex + 3) as uint32];
      sideVertices := sideVertices + [Vertex(p1, normal), Vertex(p2, normal), Vertex(p3, normal), Vertex(p4, normal)];
    }
  }

  // ------------------------------------------------------------------ properties

  /** `6d + 2` vertices and `12d` indices, every index naming one of the vertices. */
  lemma {:induction false} CylinderCounts(basePositions: seq<Vec3>)
    requires DivisionCountFits(|basePositions|)
    ensures var d := |basePositions|;
            && |CylinderVertices(basePositions)| == 6 * d + 2
            && |CylinderIndices(d)| == 12 * d
            && IndicesBelow(CylinderIndices(d), 6 * d + 2)
  {
    var d := |basePositions|;
    FansBelow(d, d);
    QuadStripBelow(d);
    MergeRunsBelow(TopFan(d, d), BottomFan(d, d), QuadStrip(d), d);
  }

  /** Top triangle `i` comes first, at indices `3i ..< 3i + 3`, unshifted. */
  lemma {:induction false} TopFanAt(d: nat, n: nat, i: nat)
    requires i < n <= d < UINT32_LIMIT
    ensures TopFan(d, n)[3 * i .. 3 * i + 3] == TopTriangle(d, i)
  {
    if i < n - 1 {
      TopFanAt(d, n - 1, i);
      SliceOfAppendLeft(TopFan(d, n - 1), TopTriangle(d, n - 1), 3 * i, 3 * i + 3);
    } else {
      SliceOfAppendRight(TopFan(d, n - 1), TopTriangle(d, n - 1), 3 * i, 3 * i + 3);
    }
  }

  lemma {:induction false} BottomFanAt(d: nat, n: nat, i: nat)
    requires i < n <= d < UINT32_LIMIT
    ensures BottomFan(d, n)[3 * i .. 3 * i + 3] == BottomTriangle(d, i)
  {
    if i < n - 1 {
      BottomFanAt(d, n - 1, i);
      SliceOfAppendLeft(BottomFan(d, n - 1), BottomTriangle(d, n - 1), 3 * i, 3 * i + 3);
    } else {
      SliceOfAppendRight(BottomFan(d, n - 1), BottomTriangle(d, n - 1), 3 * i, 3 * i + 3);
    }
  }

  /** Top triangle `i` is indices `3i ..< 3i + 3` of the cylinder, unshifted. */
  lemma {:induction false} CylinderTopTriangle(d: nat, i: nat)
    requires DivisionCountFits(d) && i < d
    ensures |CylinderIndices(d)| == 12 * d
    ensures CylinderIndices(d)[3 * i .. 3 * i + 3] == TopTriangle(d, i)
  {
    CylinderRuns(d);
    SliceOfSlice(CylinderIndices(d), 0, 3 * d, 3 * i, 3 * i + 3);
    TopFanAt(d, d, i);
  }

  /** Bottom triangle `i` is indices `3d + 3i ..< 3d + 3i + 3`, shifted past the top's `d + 1` vertices. */
  lemma {:induction false} CylinderBottomTriangle(d: nat, i: nat)
    requires DivisionCountFits(d) && i < d
    ensures |CylinderIndices(d)| == 12 * d
    ensures (FansBelow(d, d); Shiftable(BottomTriangle(d, i), d + 1))
    ensures CylinderIndices(d)[3 * d + 3 * i .. 3 * d + 3 * i + 3] == Offset(BottomTriangle(d, i), d + 1)
  {
    FansBelow(d, d);
    CylinderRuns(d);
    BottomFanAt(d, d, i);
    BottomRunTriangle(CylinderIndices(d), BottomFan(d, d), BottomTriangle(d, i), d, i);
  }

  /** The step of `CylinderBottomTriangle` that needs only the bottom run's layout. */
  lemma {:induction false} BottomRunTriangle(r: seq<uint32>, fan: seq<uint32>, triangle: seq<uint32>, d: nat, i: nat)
    requires DivisionCountFits(d) && i < d && |r| == 12 * d && |fan| == 3 * d
    requires Shiftable(fan, d + 1) && r[3 * d .. 6 * d] == Offset(fan, d + 1)
    requires fan[3 * i .. 3 * i + 3] == triangle
    ensures Shiftable(triangle, d + 1)
    ensures r[3 * d + 3 * i .. 3 * d + 3 * i + 3] == Offset(triangle, d + 1)
  {
    ShiftedRunSlice(r, fan, 3 * d, 6 * d, d + 1, 3 * d + 3 * i, 3 * d + 3 * i + 3, 3 * i, 3 * i + 3);
  }

  /** Side face `f` is indices `6d + 6f ..< 6d + 6f + 6`: the quad over its own four vertices, `2d + 2 + 4f` on. */
  lemma {:induction false} CylinderSideFace(d: nat, f: nat)
    requires DivisionCountFits(d) && f < d
    ensures |CylinderIndices(d)| == 12 * d
    ensures CylinderIndices(d)[6 * d + 6 * f .. 6 * d + 6 * f + 6] == QuadIndices(2 * d + 2 + 4 * f)
  {
    QuadStripBelow(d);
    CylinderRuns(d);
    QuadStripAt(d, f);
    SideQuad(CylinderIndices(d), QuadStrip(d), d, f);
  }

  /** The step of `CylinderSideFace` that needs only the side run's layout. */
  lemma {:induction false} SideQuad(r: seq<uint32>, strip: seq<uint32>, d: nat, f: nat)
    requires DivisionCountFits(d) && f < d && |r| == 12 * d && |strip| == 6 * d
    requires Shiftable(strip, 2 * d + 2) && r[6 * d .. 12 * d] == Offset(strip, 2 * d + 2)
    requires strip[6 * f .. 6 * f + 6] == QuadIndices(4 * f)
    ensures r[6 * d + 6 * f .. 6 * d + 6 * f + 6] == QuadIndices(2 * d + 2 + 4 * f)
  {
    ShiftedRunSlice(r, strip, 6 * d, 12 * d, 2 * d + 2, 6 * d + 6 * f, 6 * d + 6 * f + 6, 6 * f, 6 * f + 6);
    OffsetQuad(4 * f, 2 * d + 2, 2 * d + 2 + 4 * f);
  }

  /** A quad moved up by `offset` is the quad `offset` further on. */
  lemma {:induction false} OffsetQuad(s: nat, offset: nat, t: nat)
    requires t == s + offset && t + 3 < UINT32_LIMIT
    ensures Shiftable(QuadIndices(s), offset) && Offset(QuadIndices(s), offset) == QuadIndices(t)
  {
    var q := QuadIndices(s);
    forall k | 0 <= k < 6 ensures Offset(q, offset)[k] == QuadIndices(t)[k] {
      OffsetAt(q, offset, k);
    }
  }

  /** The bottom fan winds the other way: triangle `i` is the top's with its first two corners swapped. */
  lemma {:induction false} OppositeWinding(d: nat, i: nat)
    requires i < d < UINT32_LIMIT
    ensures var t := TopTriangle(d, i);
            BottomTriangle(d, i) == [t[1], t[0], t[2]]
  {
  }

  /** The caps: base position `i` lifted by half the height, then the top centre; the same dropped, then the bottom centre. */
  lemma {:induction false} CylinderCapVertices(basePositions: seq<Vec3>, i: nat)
    requires i < |basePositions|
    ensures var d, vs := |basePositions|, CylinderVertices(basePositions);
            && |vs| == 6 * d + 2
            && vs[i] == Vertex(Add(basePositions[i], HALF_UP), UP)
            && vs[d] == Vertex(HALF_UP, UP)
            && vs[d + 1 + i] == Vertex(Add(basePositions[i], HALF_DOWN), DOWN)
            && vs[2 * d + 1] == Vertex(HALF_DOWN, DOWN)
  {
    var d := |basePositions|;
    var top := Rim(basePositions, HALF_UP, UP) + [Vertex(HALF_UP, UP)];
    var caps := top + Rim(basePositions, HALF_DOWN, DOWN) + [Vertex(HALF_DOWN, DOWN)];
    var vs := CylinderVertices(basePositions);
    assert vs == caps + SideVertices(basePositions, d);
    RimAt(basePositions, HALF_UP, UP, i);
    RimAt(basePositions, HALF_DOWN, DOWN, i);
    assert vs[i] == caps[i] == top[i];
    assert vs[d] == caps[d] == top[d];
    assert vs[d + 1 + i] == caps[d + 1 + i] == Rim(basePositions, HALF_DOWN, DOWN)[i];
  }

  /** Side face `f` is vertices `2d + 2 + 4f ..< 2d + 2 + 4f + 4`. */
  lemma {:induction false} CylinderSideVertices(basePositions: seq<Vec3>, f: nat)
    requires f < |basePositions|
    ensures var d, vs := |basePositions|, CylinderVertices(basePositions);
            && |vs| == 6 * d + 2
            && vs[2 * d + 2 + 4 * f .. 2 * d + 2 + 4 * f + 4] == SideFace(basePositions, f)
  {
    var d := |basePositions|;
    var caps := Rim(basePositions, HALF_UP, UP) + [Vertex(HALF_UP, UP)]
                + Rim(basePositions, HALF_DOWN, DOWN) + [Vertex(HALF_DOWN, DOWN)];
    SideVerticesAt(basePositions, d, f);
    SliceOfAppendRight(caps, SideVertices(basePositions, d), 2 * d + 2 + 4 * f, 2 * d + 2 + 4 * f + 4);
  }

  lemma {:induction false} SideVerticesAt(basePositions: seq<Vec3>, n: nat, f: nat)
    requires f < n <= |basePositions|
    ensures SideVertices(basePositions, n)[4 * f .. 4 * f + 4] == SideFace(basePositions, f)
  {
    if f < n - 1 {
      SideVerticesAt(basePositions, n - 1, f);
      SliceOfAppendLeft(SideVertices(basePositions, n - 1), SideFace(basePositions, n - 1), 4 * f, 4 * f + 4);
    } else {
      SliceOfAppendRight(SideVertices(basePositions, n - 1), SideFace(basePositions, n - 1), 4 * f, 4 * f + 4);
    }
  }
}
