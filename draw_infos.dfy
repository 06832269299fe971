/**
 * The three `BufferSerializableStruct` conformances of the renderer, as
 * values of the layout engine: `MaterialDrawInfo`
 * (Sources/SwiftVulkanRenderer/Materials/MaterialDrawInfo.swift),
 * `ObjectDrawInfo` and `PushConstantBlock` (the two
 * Sources/SwiftVulkanRenderer/Renderer/Raytracing/RaytracingVulkanRenderer+*.swift
 * extensions). The lemmas pin down the numbers the general rules give them.
 */
module DrawInfos {
  import opened Common
  import opened Layout

  /** The all-zero matrix (`.zero`): sixteen +0.0 floats. */
  const ZERO_MATRIX: Mat4 := [Float32(0), Float32(0), Float32(0), Float32(0), Float32(0), Float32(0), Float32(0), Float32(0),
                              Float32(0), Float32(0), Float32(0), Float32(0), Float32(0), Float32(0), Float32(0), Float32(0)]

  /** The FVec3 `.zero`. */
  const ZERO_VEC3: Value := FVec3Value(Float32(0), Float32(0), Float32(0))

  // ------------------------------------------------------------------ MaterialDrawInfo

  /** `MaterialDrawInfo` declares one serializable member, `textureIndex: UInt32`. */
  function MaterialDrawInfoType(): LayoutType {
    StructType([UInt32Type])
  }

  function MaterialDrawInfo(textureIndex: uint32): (v: Value)
    ensures WellFormed(v) && TypeOf(v) == MaterialDrawInfoType()
  {
    var v := StructValue([UInt32Value(textureIndex)]);
    assert MemberTypes(v, 1) == [UInt32Type] by {
      assert MemberTypes(v, 0) == [];
    }
    v
  }

  /** `serializationMeasureInstance`. */
  function MaterialDrawInfoMeasure(): (v: Value)
    ensures v == MaterialDrawInfo(0) && TypeOf(v) == MaterialDrawInfoType()
  {
    StructValue([UInt32Value(0)])
  }

  /** Alignment `toMultipleOf16(4)` = 16 and size 1 × 16 = 16. */
  lemma {:induction false} MaterialDrawInfoLayout()
    ensures BaseAlignment(MaterialDrawInfoType()) == 16
    ensures Size(MaterialDrawInfoType()) == 16
    ensures MembersExtent(MaterialDrawInfoType(), 1) == 4 && Padding(MaterialDrawInfoType()) == 12
  {
    var t := MaterialDrawInfoType();
    assert LargestMemberSize(t, 1) == 4 by {
      assert LargestMemberSize(t, 0) == 0;
    }
    assert Times(1, 16) == 16;
  }

  /** `serialize` writes the index's four bytes at relative offset 0 and leaves the other 12 alone. */
  lemma {:induction false} MaterialDrawInfoImage(textureIndex: uint32)
    ensures Image(MaterialDrawInfo(textureIndex)) == Written(Le32(textureIndex)) + Untouched(12)
  {
    var v := MaterialDrawInfo(textureIndex);
    MaterialDrawInfoLayout();
    MembersStep(v, 0);
    assert MembersImage(v, 1) == Image(UInt32Value(textureIndex));
  }

  // ------------------------------------------------------------------ ObjectDrawInfo

  /** The members in declaration order: the transformation matrix, then four `UInt32`s. */
  function ObjectDrawInfoType(): LayoutType {
    StructType([Matrix4Type, UInt32Type, UInt32Type, UInt32Type, UInt32Type])
  }

  /** `ObjectDrawInfo(transformationMatrix:firstVertexIndex:vertexCount:materialIndex:p:)`, `p` defaulting to 0. */
  function ObjectDrawInfo(transformationMatrix: Mat4, firstVertexIndex: uint32, vertexCount: uint32,
                          materialIndex: uint32, p: uint32 := 0): (v: Value)
    ensures WellFormed(v) && TypeOf(v) == ObjectDrawInfoType()
  {
    var v := StructValue([Matrix4Value(transformationMatrix), UInt32Value(firstVertexIndex), UInt32Value(vertexCount),
                          UInt32Value(materialIndex), UInt32Value(p)]);
    assert MemberTypes(v, 5) == ObjectDrawInfoType().members by {
      assert MemberTypes(v, 0) == [];
      assert MemberTypes(v, 1) == [Matrix4Type];
      assert MemberTypes(v, 2) == [Matrix4Type, UInt32Type];
      assert MemberTypes(v, 3) == [Matrix4Type, UInt32Type, UInt32Type];
      assert MemberTypes(v, 4) == [Matrix4Type, UInt32Type, UInt32Type, UInt32Type];
    }
    v
  }

  /** `serializationMeasureInstance`: everything zero. */
  function ObjectDrawInfoMeasure(): (v: Value)
    ensures v == ObjectDrawInfo(ZERO_MATRIX, 0, 0, 0, 0) && TypeOf(v) == ObjectDrawInfoType()
  {
    StructValue([Matrix4Value(ZERO_MATRIX), UInt32Value(0), UInt32Value(0), UInt32Value(0), UInt32Value(0)])
  }

  /** The 64-byte matrix is the largest member: alignment `toMultipleOf16(64)` = 64, size 5 × 64 = 320. */
  lemma {:induction false} ObjectDrawInfoLayout()
    ensures BaseAlignment(ObjectDrawInfoType()) == 64
    ensures Size(ObjectDrawInfoType()) == 320
  {
    var t := ObjectDrawInfoType();
    assert LargestMemberSize(t, 5) == 64 by {
      assert LargestMemberSize(t, 1) == 64 by {
        assert LargestMemberSize(t, 0) == 0;
      }
      assert LargestMemberSize(t, 2) == 64;
      assert LargestMemberSize(t, 3) == 64;
      assert LargestMemberSize(t, 4) == 64;
    }
    assert Times(5, 64) == 320 by {
      TimesIsProduct(5, 64);
    }
  }

  /** The running offsets of `serialize`: the matrix at +0, the `UInt32`s at +64, +68, +72 and +76, ending at 80. */
  lemma {:induction false} ObjectDrawInfoOffsets()
    ensures MembersExtent(ObjectDrawInfoType(), 1) == 64
    ensures MembersExtent(ObjectDrawInfoType(), 2) == 68
    ensures MembersExtent(ObjectDrawInfoType(), 3) == 72
    ensures MembersExtent(ObjectDrawInfoType(), 4) == 76
    ensures MembersExtent(ObjectDrawInfoType(), 5) == 80
    ensures Padding(ObjectDrawInfoType()) == 240
  {
    var t := ObjectDrawInfoType();
    assert MembersExtent(t, 0) == 0;
    ObjectDrawInfoLayout();
  }

  /**
   * `serialize` writes the transposed matrix and the four words back to
   * back (80 bytes) and leaves the remaining 240 of the 320 alone.
   */
  lemma {:induction false} ObjectDrawInfoImage(transformationMatrix: Mat4, firstVertexIndex: uint32, vertexCount: uint32,
                                               materialIndex: uint32, p: uint32)
    ensures Image(ObjectDrawInfo(transformationMatrix, firstVertexIndex, vertexCount, materialIndex, p)) ==
              Written(FloatsBytes(Transposed(transformationMatrix)))
              + Written(Le32(firstVertexIndex)) + Written(Le32(vertexCount))
              + Written(Le32(materialIndex)) + Written(Le32(p))
              + Untouched(240)
  {
    var v := ObjectDrawInfo(transformationMatrix, firstVertexIndex, vertexCount, materialIndex, p);
    var matrix := Written(FloatsBytes(Transposed(transformationMatrix)));
    var first, count := Written(Le32(firstVertexIndex)), Written(Le32(vertexCount));
    var material, last := Written(Le32(materialIndex)), Written(Le32(p));
    assert MembersImage(v, 1) == matrix by {
      MembersStep(v, 0);
      assert MembersImage(v, 0) == [];
    }
    assert MembersImage(v, 2) == matrix + first by {
      MembersStep(v, 1);
    }
    assert MembersImage(v, 3) == matrix + first + count by {
      MembersStep(v, 2);
    }
    assert MembersImage(v, 4) == matrix + first + count + material by {
      MembersStep(v, 3);
    }
    assert MembersImage(v, 5) == matrix + first + count + material + last by {
      MembersStep(v, 4);
    }
    assert Padding(ObjectDrawInfoType()) == 240 by {
      ObjectDrawInfoOffsets();
    }
    assert Image(v) == MembersImage(v, 5) + Untouched(Padding(ObjectDrawInfoType()));
  }

  // ------------------------------------------------------------------ PushConstantBlock

  /** Three `FVec3` members: camera position, forward direction, right direction. */
  function PushConstantBlockType(): LayoutType {
    StructType([FVec3Type, FVec3Type, FVec3Type])
  }

  function PushConstantBlock(cameraPosition: Value, cameraForwardDirection: Value, cameraRightDirection: Value): (v: Value)
    requires cameraPosition.FVec3Value? && cameraForwardDirection.FVec3Value? && cameraRightDirection.FVec3Value?
    ensures WellFormed(v) && TypeOf(v) == PushConstantBlockType()
  {
    var v := StructValue([cameraPosition, cameraForwardDirection, cameraRightDirection]);
    assert MemberTypes(v, 3) == PushConstantBlockType().members by {
      assert MemberTypes(v, 0) == [];
      assert MemberTypes(v, 1) == [FVec3Type];
      assert MemberTypes(v, 2) == [FVec3Type, FVec3Type];
    }
    v
  }

  /** `serializationMeasureInstance`: three zero vectors. */
  function PushConstantBlockMeasure(): (v: Value)
    ensures v == PushConstantBlock(ZERO_VEC3, ZERO_VEC3, ZERO_VEC3) && TypeOf(v) == PushConstantBlockType()
  {
    StructValue([ZERO_VEC3, ZERO_VEC3, ZERO_VEC3])
  }

  /** Each `FVec3` has size 16, so alignment 16 and size 3 × 16 = 48, with no padding behind the members. */
  lemma {:induction false} PushConstantBlockLayout()
    ensures BaseAlignment(PushConstantBlockType()) == 16
    ensures Size(PushConstantBlockType()) == 48
    ensures MembersExtent(PushConstantBlockType(), 1) == 16
    ensures MembersExtent(PushConstantBlockType(), 2) == 32
    ensures MembersExtent(PushConstantBlockType(), 3) == 48
    ensures Padding(PushConstantBlockType()) == 0
  {
    var t := PushConstantBlockType();
    assert LargestMemberSize(t, 3) == 16 by {
      assert LargestMemberSize(t, 1) == 16 by {
        assert LargestMemberSize(t, 0) == 0;
      }
      assert LargestMemberSize(t, 2) == 16;
    }
    assert MembersExtent(t, 0) == 0;
    assert Times(3, 16) == 48 by {
      TimesIsProduct(3, 16);
    }
  }

  /**
   * The vectors land at +0, +16 and +32, twelve bytes each: bytes 12-15,
   * 28-31 and 44-47 are left alone and every other byte is written.
   */
  lemma {:induction false} PushConstantBlockImage(cameraPosition: Value, cameraForwardDirection: Value, cameraRightDirection: Value)
    requires cameraPosition.FVec3Value? && cameraForwardDirection.FVec3Value? && cameraRightDirection.FVec3Value?
    ensures var img := Image(PushConstantBlock(cameraPosition, cameraForwardDirection, cameraRightDirection));
            && |img| == 48
            && img[0..16] == Image(cameraPosition)
            && img[16..32] == Image(cameraForwardDirection)
            && img[32..48] == Image(cameraRightDirection)
            && forall i :: 0 <= i < 48 ==> (img[i].None? <==> 12 <= i < 16 || 28 <= i < 32 || 44 <= i)
  {
    var v := PushConstantBlock(cameraPosition, cameraForwardDirection, cameraRightDirection);
    var a, b, c := Image(cameraPosition), Image(cameraForwardDirection), Image(cameraRightDirection);
    assert MembersImage(v, 1) == a by {
      MembersStep(v, 0);
      assert MembersImage(v, 0) == [];
    }
    assert MembersImage(v, 2) == a + b by {
      MembersStep(v, 1);
    }
    assert MembersImage(v, 3) == a + b + c by {
      MembersStep(v, 2);
    }
    var img := Image(v);
    assert img == a + b + c by {
      PushConstantBlockLayout();
    }
    FVec3Gap(cameraPosition);
    FVec3Gap(cameraForwardDirection);
    FVec3Gap(cameraRightDirection);
    ThirdsGaps(a, b, c);
  }

  /** Twelve written bytes followed by four left alone. */
  predicate GapAtEnd(img: seq<Option<byte>>) {
    |img| == 16 && forall j :: 0 <= j < 16 ==> (img[j].None? <==> 12 <= j)
  }

  lemma {:induction false} FVec3Gap(v: Value)
    requires v.FVec3Value?
    ensures GapAtEnd(Image(v))
  {
    forall j | 0 <= j < 16 ensures Image(v)[j].None? <==> 12 <= j {
      FVec3ImageAt(v, j);
    }
  }

  /** Three such images back to back leave bytes 12-15, 28-31 and 44-47 alone. */
  lemma {:induction false} ThirdsGaps(a: seq<Option<byte>>, b: seq<Option<byte>>, c: seq<Option<byte>>)
    requires GapAtEnd(a) && GapAtEnd(b) && GapAtEnd(c)
    ensures forall i :: 0 <= i < 48 ==> ((a + b + c)[i].None? <==> 12 <= i < 16 || 28 <= i < 32 || 44 <= i)
  {
    forall i | 0 <= i < 48 ensures (a + b + c)[i].None? <==> 12 <= i < 16 || 28 <= i < 32 || 44 <= i {
      ThirdsAt(a, b, c, i);
    }
  }

  /** Byte `i` of three 16-byte images laid back to back. */
  lemma {:induction false} ThirdsAt(a: seq<Option<byte>>, b: seq<Option<byte>>, c: seq<Option<byte>>, i: nat)
    requires |a| == 16 && |b| == 16 && |c| == 16 && i < 48
    ensures (a + b + c)[i] == if i < 16 then a[i] else if i < 32 then b[i - 16] else c[i - 32]
  {
  }

  /** An `FVec3` writes its first twelve bytes and not the last four. */
  lemma {:induction false} FVec3ImageAt(v: Value, i: nat)
    requires v.FVec3Value? && i < 16
    ensures |Image(v)| == 16
    ensures Image(v)[i].None? <==> i >= 12
  {
    var bs := Le32(v.x.bits) + Le32(v.y.bits) + Le32(v.z.bits);
    if i < 12 {
      WrittenAt(bs, i);
    } else {
      assert Image(v)[i] == Untouched(4)[i - 12];
      UntouchedAt(4, i - 12);
    }
  }

  lemma {:induction false} UntouchedAt(n: nat, i: nat)
    requires i < n
    ensures Untouched(n)[i] == None
  {
    if i > 0 {
      UntouchedAt(n - 1, i - 1);
    }
  }
}
