/**
 * The two scene records that serialize themselves as plain float arrays
 * rather than through `BufferSerializable`: `SceneUniformObject`
 * (Sources/SwiftVulkanRenderer/Scene/SceneUniformObject.swift) and
 * `SceneObjectDrawInfo` (Sources/SwiftVulkanRenderer/Scene/SceneObjectDrawInfo.swift).
 * Both emit their matrices transposed, which is exactly what the layout
 * engine writes for a `Matrix4` member; the lemmas say so byte for byte.
 */
module SceneRecords {
  import opened Common
  import opened Layout
  import opened DrawInfos

  /** `MemoryLayout<Float>.size`. */
  const FLOAT_SIZE: nat := 4

  /** The view and projection matrices; the projection defaults to the zero matrix. */
  datatype SceneUniformObject = SceneUniformObject(viewMatrix: Mat4, projectionMatrix: Mat4 := ZERO_MATRIX)
  {
    /** `serializedSize`: 32 floats. */
    static function SerializedSize(): nat {
      FLOAT_SIZE * 32
    }

    /**
     * `serializedData`: the view matrix's elements, transposed, then the
     * projection matrix's: float `4 * r + c` of each half is element
     * (`c`, `r`) of its matrix.
     */
    function SerializedData(): (data: seq<Float32>)
      ensures |data| * FLOAT_SIZE == SerializedSize()
      ensures forall r, c :: 0 <= r < 4 && 0 <= c < 4 ==>
                data[4 * r + c] == Element(viewMatrix, c, r) && data[16 + 4 * r + c] == Element(projectionMatrix, c, r)
    {
      Transposed(viewMatrix) + Transposed(projectionMatrix)
    }
  }

  /** One object's transformation matrix. */
  datatype SceneObjectDrawInfo = SceneObjectDrawInfo(transformationMatrix: Mat4)
  {
    /** `serializedSize`: 16 floats. */
    static function SerializedSize(): nat {
      FLOAT_SIZE * 16
    }

    /** `serializedData`: the transformation matrix's elements, transposed. */
    function SerializedData(): (data: seq<Float32>)
      ensures |data| * FLOAT_SIZE == SerializedSize()
      ensures forall r, c :: 0 <= r < 4 && 0 <= c < 4 ==> data[4 * r + c] == Element(transformationMatrix, c, r)
    {
      Transposed(transformationMatrix)
    }
  }

  lemma {:induction false} FloatsBytesConcat(a: seq<Float32>, b: seq<Float32>)
    ensures FloatsBytes(a + b) == FloatsBytes(a) + FloatsBytes(b)
  {
    if a == [] {
      assert a + b == b;
    } else {
      assert (a + b)[0] == a[0] && (a + b)[1..] == a[1..] + b;
      FloatsBytesConcat(a[1..], b);
    }
  }

  /** A byte sequence holds its own written image. */
  lemma {:induction false} HoldsOwnBytes(bs: seq<byte>)
    ensures Holds(bs, 0, Written(bs))
  {
    HoldsMeans(bs, 0, Written(bs));
    forall i | 0 <= i < |bs| ensures Written(bs)[i] == Some(bs[i]) {
      WrittenAt(bs, i);
    }
  }

  /**
   * The bytes of a uniform object's data are what serializing its two
   * matrices as `Matrix4` values back to back writes, so a reader of two
   * matrices at byte 0 and byte 64 gets the view and the projection back.
   */
  lemma {:induction false} SceneUniformObjectBytes(u: SceneUniformObject)
    ensures var bytes := FloatsBytes(u.SerializedData());
            && |bytes| == SceneUniformObject.SerializedSize()
            && Written(bytes) == Image(Matrix4Value(u.viewMatrix)) + Image(Matrix4Value(u.projectionMatrix))
            && Decode(Matrix4Type, bytes, 0) == Matrix4Value(u.viewMatrix)
            && Decode(Matrix4Type, bytes, 64) == Matrix4Value(u.projectionMatrix)
  {
    var view, projection := FloatsBytes(Transposed(u.viewMatrix)), FloatsBytes(Transposed(u.projectionMatrix));
    var bytes := FloatsBytes(u.SerializedData());
    FloatsBytesConcat(Transposed(u.viewMatrix), Transposed(u.projectionMatrix));
    WrittenConcat(view, projection);
    HoldsOwnBytes(bytes);
    HoldsSplit(bytes, 0, Written(view), 64, Written(projection));
    DecodeReadsMatrix(Matrix4Value(u.viewMatrix), bytes, 0);
    DecodeReadsMatrix(Matrix4Value(u.projectionMatrix), bytes, 64);
  }

  /** The bytes of an object's data are the image of its matrix as a `Matrix4` value, and read back as it. */
  lemma {:induction false} SceneObjectDrawInfoBytes(d: SceneObjectDrawInfo)
    ensures var bytes := FloatsBytes(d.SerializedData());
            && |bytes| == SceneObjectDrawInfo.SerializedSize()
            && Written(bytes) == Image(Matrix4Value(d.transformationMatrix))
            && Decode(Matrix4Type, bytes, 0) == Matrix4Value(d.transformationMatrix)
  {
    var bytes := FloatsBytes(d.SerializedData());
    HoldsOwnBytes(bytes);
    DecodeReadsMatrix(Matrix4Value(d.transformationMatrix), bytes, 0);
  }
}
