/**
 * The material registry of Sources/SwiftVulkanRenderer/Materials/MaterialSystem.swift
 * and the materials it registers (Sources/SwiftVulkanRenderer/Materials/Material.swift).
 *
 * A material is identified by its object identity: `Material`'s `==` is
 * `===` and its hash combines only `ObjectIdentifier(self)`, which is what a
 * Dafny class reference is and how a Dafny `map` keyed by references
 * compares keys. The first load of a material appends a draw record and,
 * for a Lambertian material, uploads its texture; later loads return the
 * cached index.
 */
module Materials {
  import opened Common
  import opened Layout
  import opened GpuMemory
  import opened VulkanTypes
  import opened GpuResources
  import DataMemory

  /** The `Material` subclasses `loadMaterial` tells apart. */
  datatype MaterialKind =
    | Lambertian
    | Dielectric(refractiveIndex: Float32)
    | OtherMaterial

  /** `Material`: a texture, mutable, and the subclass the instance belongs to. */
  class Material {
    var texture: RgbaImage
    const kind: MaterialKind

    constructor(kind: MaterialKind, texture: RgbaImage)
      ensures this.kind == kind && this.texture == texture
    {
      this.kind := kind;
      this.texture := texture;
    }
  }

  /**
   * Equality is identity: two materials built from the same kind and texture
   * are still two materials, and neither is found under the other's key.
   */
  method DistinctInstances(kind: MaterialKind, texture: RgbaImage) returns (m1: Material, m2: Material)
    ensures m1 != m2
    ensures m1.kind == m2.kind == kind && m1.texture == m2.texture == texture
    ensures m2 !in map[m1 := 0]
  {
    m1 := new Material(kind, texture);
    m2 := new Material(kind, texture);
  }

  /**
   * The record `loadMaterial` builds, `MaterialDrawInfo(type:textureIndex:refractiveIndex:)`:
   * type 1 for a Lambertian, 0 for a Dielectric.
   */
  datatype MaterialDrawRecord = MaterialDrawRecord(materialType: uint32, textureIndex: uint32, refractiveIndex: Float32)

  /** Why a load stops: an error thrown by the memory manager, or a trap. */
  datatype LoadError =
    | Thrown(error: AllocError)
    | Trapped(trap: Trap)

  /** An `Int` to `UInt32` conversion of a value outside `0..<2^32`. */
  const CONVERSION_TRAP: Trap := Trap("integer conversion out of range")

  /** The `fatalError` of a material that is neither Lambertian nor Dielectric. */
  const UNSUPPORTED_TRAP: Trap := Trap("unsupported material type")

  /** What reaches the graphics queue, in order. */
  datatype QueueEvent =
    | Submitted(commandBuffer: Handle, commands: seq<Command>)  // `endSingleTimeCommands`
    | DeviceWaitIdle                                           // `vkDeviceWaitIdle`

  // ------------------------------------------------------------------ the record's layout

  /** The record's members in order: two `UInt32`s and a `Float`. */
  function RecordType(): LayoutType {
    StructType([UInt32Type, UInt32Type, FloatType])
  }

  function RecordValue(d: MaterialDrawRecord): (v: Value)
    ensures WellFormed(v) && TypeOf(v) == RecordType()
  {
    var v := StructValue([UInt32Value(d.materialType), UInt32Value(d.textureIndex), FloatValue(d.refractiveIndex)]);
    assert MemberTypes(v, 3) == RecordType().members by {
      assert MemberTypes(v, 0) == [];
      assert MemberTypes(v, 1) == [UInt32Type];
      assert MemberTypes(v, 2) == [UInt32Type, UInt32Type];
    }
    v
  }

  /** The records as values of the layout engine, in order. */
  function RecordValues(ds: seq<MaterialDrawRecord>): (vs: seq<Value>)
    ensures |vs| == |ds|
    ensures forall j :: 0 <= j < |vs| ==> WellFormed(vs[j]) && TypeOf(vs[j]) == RecordType()
  {
    if ds == [] then [] else [RecordValue(ds[0])] + RecordValues(ds[1..])
  }

  lemma {:induction false} RecordValuesAt(ds: seq<MaterialDrawRecord>, j: nat)
    requires j < |ds|
    ensures RecordValues(ds)[j] == RecordValue(ds[j])
  {
    if j > 0 {
      RecordValuesAt(ds[1..], j - 1);
    }
  }

  /** Each member is 4 bytes: alignment `toMultipleOf16(4)` = 16, size 3 × 16 = 48, of which 12 are written. */
  lemma {:induction false} RecordLayout()
    ensures BaseAlignment(RecordType()) == 16 && Size(RecordType()) == 48
    ensures MembersExtent(RecordType(), 3) == 12 && Padding(RecordType()) == 36
  {
    var t := RecordType();
    assert LargestMemberSize(t, 3) == 4 by {
      assert LargestMemberSize(t, 0) == 0;
      assert LargestMemberSize(t, 1) == 4;
      assert LargestMemberSize(t, 2) == 4;
    }
    assert MembersExtent(t, 0) == 0;
    assert Times(3, 16) == 48 by {
      TimesIsProduct(3, 16);
    }
  }

  /** A record serializes as its three words back to back, then 36 bytes left alone. */
  lemma {:induction false} RecordImage(d: MaterialDrawRecord)
    ensures Image(RecordValue(d)) ==
              Written(Le32(d.materialType)) + Written(Le32(d.textureIndex)) + Written(Le32(d.refractiveIndex.bits)) + Untouched(36)
  {
    var v := RecordValue(d);
    RecordLayout();
    MembersStep(v, 0);
    MembersStep(v, 1);
    MembersStep(v, 2);
    assert MembersImage(v, 0) == [];
  }

  /**
   * What `updateGPUData` leaves in the data buffer: record `j` is read back
   * from byte `48 * j` of the buffer's range.
   */
  lemma {:induction false} StoredRecordsRoundTrip(buf: seq<byte>, base: nat, ds: seq<MaterialDrawRecord>, j: nat)
    requires j < |ds| && ArrayFits(base, |ds|, 48, 48, |buf|)
    ensures Size(RecordType()) == 48 && base + 48 * j + 48 <= |buf|
    ensures Decode(RecordType(), StoredImages(buf, base, Images(RecordValues(ds)), 48, |ds|), base + 48 * j) == RecordValue(ds[j])
  {
    RecordLayout();
    StoredValuesRoundTrip(buf, base, RecordValues(ds), RecordType(), j);
    RecordValuesAt(ds, j);
  }

  /** `StoreArrayRoundTrip` for values 48 bytes long stored 48 bytes apart. */
  lemma {:induction false} StoredValuesRoundTrip(buf: seq<byte>, base: nat, vs: seq<Value>, t: LayoutType, j: nat)
    requires forall k :: 0 <= k < |vs| ==> WellFormed(vs[k]) && TypeOf(vs[k]) == t
    requires Size(t) == 48 && j < |vs| && ArrayFits(base, |vs|, 48, 48, |buf|)
    ensures base + 48 * j + 48 <= |buf|
    ensures Decode(t, StoredImages(buf, base, Images(vs), 48, |vs|), base + 48 * j) == vs[j]
  {
    TimesIsProduct(j, 48);
    StoreArrayRoundTrip(buf, base, vs, t, 48, j);
  }

  /** The store of `updateGPUData`: the records' images, packed 48 bytes apart from the start of `buffer`. */
  method StoreRecords(buffer: ManagedGPUBuffer, ds: seq<MaterialDrawRecord>)
    requires buffer.Valid() && ArrayFits(0, |ds|, 48, 48, buffer.Size())
    modifies buffer.memory`mapped, buffer.memory`mapCalls, buffer.memory.contents
    ensures |ds| > 0 ==> buffer.memory.mapped
    ensures buffer.memory.contents[..] == StoredImages(old(buffer.memory.contents[..]), buffer.range.lower, Images(RecordValues(ds)), 48, |ds|)
  {
    var records, t := RecordValues(ds), RecordType();
    RecordLayout();
    assert ArrayStride(t, Size(t), false) == 48;
    buffer.StoreArray(records, t, Size(t), 0, false);
  }

  /** The image `loadTextureImage` creates for a texture, whatever format, tiling and usage it asks for. */
  function TextureImageInfo(width: uint32, height: uint32): ImageCreateInfo {
    ImageCreateInfo(width, height, VK_FORMAT_R8G8B8A8_SRGB, VK_IMAGE_TILING_OPTIMAL,
                    VK_IMAGE_USAGE_TRANSFER_DST_BIT | VK_IMAGE_USAGE_SAMPLED_BIT)
  }

  /**
   * The commands that upload a staged texture: to transfer layout, copy
   * from the staging buffer, to shader-read layout.
   */
  function UploadCommands(staging: Handle, image: Handle, width: uint32, height: uint32): (cs: seq<Command>)
    ensures |cs| == 3
    ensures cs[0].TransitionLayout? && cs[0].oldLayout == VK_IMAGE_LAYOUT_UNDEFINED
    ensures cs[2].TransitionLayout? && cs[2].newLayout == VK_IMAGE_LAYOUT_SHADER_READ_ONLY_OPTIMAL
    ensures cs[0].newLayout == cs[2].oldLayout == VK_IMAGE_LAYOUT_TRANSFER_DST_OPTIMAL
    ensures cs[1] == CopyBufferToImage(staging, image, width, height)
    ensures forall k :: 0 <= k < 3 && cs[k].TransitionLayout? ==> cs[k].image == image && cs[k].format == VK_FORMAT_R8G8B8A8_SRGB
  {
    [TransitionLayout(image, VK_FORMAT_R8G8B8A8_SRGB, VK_IMAGE_LAYOUT_UNDEFINED, VK_IMAGE_LAYOUT_TRANSFER_DST_OPTIMAL),
     CopyBufferToImage(staging, image, width, height),
     TransitionLayout(image, VK_FORMAT_R8G8B8A8_SRGB, VK_IMAGE_LAYOUT_TRANSFER_DST_OPTIMAL, VK_IMAGE_LAYOUT_SHADER_READ_ONLY_OPTIMAL)]
  }

  // ------------------------------------------------------------------ the registry

  class MaterialSystem {
    const materialDataMemoryManager: DataMemory.MemoryManager
    const materialDataBuffer: ManagedGPUBuffer
    var materialDrawInfoIndices: map<Material, nat>
    var materialDrawInfos: seq<MaterialDrawRecord>
    /** The registered materials in the order they were first loaded: material `i` has index `i`. */
    ghost var loadOrder: seq<Material>

    const materialImagesMemoryManager: DataMemory.MemoryManager
    const materialImagesStagingMemoryManager: DataMemory.MemoryManager
    var materialImages: seq<ManagedGPUImage>
    const materialImagesStagingBuffer: ManagedGPUBuffer

    /** The submissions and waits of the texture uploads, oldest first. */
    var queueLog: seq<QueueEvent>

    /**
     * The indices are a bijection between the registered materials and
     * `0..<|materialDrawInfos|`, whose inverse is the load order (so distinct
     * materials have distinct indices, see `IndicesDistinct`). Every record's
     * texture index names a loaded image.
     */
    ghost predicate Valid()
      reads this, materialImagesMemoryManager, materialImagesMemoryManager.memory,
            materialImagesStagingBuffer, materialDataBuffer
    {
      && |loadOrder| == |materialDrawInfos|
      && (forall m :: m in materialDrawInfoIndices ==>
            materialDrawInfoIndices[m] < |loadOrder| && loadOrder[materialDrawInfoIndices[m]] == m)
      && (forall i :: 0 <= i < |loadOrder| ==> loadOrder[i] in materialDrawInfoIndices && materialDrawInfoIndices[loadOrder[i]] == i)
      && (forall i :: 0 <= i < |materialDrawInfos| ==> materialDrawInfos[i].textureIndex as int < |materialImages|)
      && materialImagesMemoryManager.Valid()
      && materialImagesStagingBuffer.Valid()
      && materialDataBuffer.Valid()
    }

    /**
     * `init`, once its memory managers and buffers exist (they are made by
     * the driver calls of the memory managers): nothing is registered yet.
     */
    constructor(materialDataMemoryManager: DataMemory.MemoryManager, materialDataBuffer: ManagedGPUBuffer,
                materialImagesMemoryManager: DataMemory.MemoryManager,
                materialImagesStagingMemoryManager: DataMemory.MemoryManager, materialImagesStagingBuffer: ManagedGPUBuffer)
      requires materialImagesMemoryManager.Valid() && materialImagesStagingBuffer.Valid() && materialDataBuffer.Valid()
      ensures Valid()
      ensures this.materialDataMemoryManager == materialDataMemoryManager && this.materialDataBuffer == materialDataBuffer
      ensures this.materialImagesMemoryManager == materialImagesMemoryManager
      ensures this.materialImagesStagingMemoryManager == materialImagesStagingMemoryManager
      ensures this.materialImagesStagingBuffer == materialImagesStagingBuffer
      ensures materialDrawInfoIndices == map[] && materialDrawInfos == [] && materialImages == [] && queueLog == []
      ensures loadOrder == []
    {
      this.materialDataMemoryManager := materialDataMemoryManager;
      this.materialDataBuffer := materialDataBuffer;
      this.materialImagesMemoryManager := materialImagesMemoryManager;
      this.materialImagesStagingMemoryManager := materialImagesStagingMemoryManager;
      this.materialImagesStagingBuffer := materialImagesStagingBuffer;
      materialDrawInfoIndices := map[];
      loadOrder := [];
      materialDrawInfos := [];
      materialImages := [];
      queueLog := [];
    }

    /** Distinct materials are registered under distinct indices. */
    lemma IndicesDistinct(m1: Material, m2: Material)
      requires Valid() && m1 in materialDrawInfoIndices && m2 in materialDrawInfoIndices && m1 != m2
      ensures materialDrawInfoIndices[m1] != materialDrawInfoIndices[m2]
    {
    }

    /** Every index from 0 up to the number of records belongs to exactly one registered material. */
    lemma IndicesCover(i: nat)
      requires Valid() && i < |materialDrawInfos|
      ensures exists m :: m in materialDrawInfoIndices && materialDrawInfoIndices[m] == i
    {
      assert loadOrder[i] in materialDrawInfoIndices;
    }

    /** The staging store of a texture stays inside the staging buffer (the store does not check). */
    predicate Stageable(image: RgbaImage)
      reads materialImagesStagingBuffer
    {
      |image.pixels| == image.width * image.height * 4 <= materialImagesStagingBuffer.Size()
    }

    /**
     * `loadMaterial`: a registered material yields its index and changes
     * nothing. A new one gets the next index, `|materialDrawInfos|`, and one
     * more record: a Lambertian uploads its texture first and its record
     * names the new image (type 1, refractive index 0); a Dielectric uploads
     * nothing and its record names the last image loaded so far (type 0),
     * which traps when there is none; anything else traps.
     */
    method LoadMaterial(material: Material, image: Handle, imageView: Handle, requirementSize: nat, commandBuffer: CommandBuffer)
      returns (r: Result<nat, LoadError>)
      requires Valid() && (material !in materialDrawInfoIndices && material.kind.Lambertian? ==> Stageable(material.texture))
      modifies this, materialImagesMemoryManager`deviceCalls, materialImagesMemoryManager.memory`usedRanges
      modifies materialImagesStagingBuffer.memory`mapped, materialImagesStagingBuffer.memory`mapCalls
      modifies materialImagesStagingBuffer.memory.contents, commandBuffer
      ensures Valid()
      ensures old(material in materialDrawInfoIndices) ==>
                && r == Success(old(materialDrawInfoIndices[material]))
                && unchanged(this)
                && unchanged(materialImagesMemoryManager, materialImagesMemoryManager.memory)
                && unchanged(materialImagesStagingBuffer.memory, materialImagesStagingBuffer.memory.contents)
                && unchanged(commandBuffer)
      ensures r.Success? ==> material in materialDrawInfoIndices && materialDrawInfoIndices[material] == r.value
      ensures old(material !in materialDrawInfoIndices) && r.Success? ==>
                && r.value == old(|materialDrawInfos|)
                && materialDrawInfoIndices == old(materialDrawInfoIndices)[material := r.value]
                && |materialDrawInfos| == old(|materialDrawInfos|) + 1
                && materialDrawInfos[..r.value] == old(materialDrawInfos)
                && match material.kind
                   case Lambertian =>
                     && |materialImages| == old(|materialImages|) + 1
                     && materialImages[..old(|materialImages|)] == old(materialImages)
                     && old(|materialImages|) < UINT32_LIMIT
                     && materialDrawInfos[r.value] == MaterialDrawRecord(1, old(|materialImages|) as uint32, Float32(0))
                   case Dielectric(refractiveIndex) =>
                     && materialImages == old(materialImages)
                     && 0 < old(|materialImages|) <= UINT32_LIMIT
                     && materialDrawInfos[r.value] == MaterialDrawRecord(0, (old(|materialImages|) - 1) as uint32, refractiveIndex)
                   case OtherMaterial => false
      ensures r.Failure? ==>
                && materialDrawInfoIndices == old(materialDrawInfoIndices)
                && materialDrawInfos == old(materialDrawInfos)
      ensures old(material !in materialDrawInfoIndices) ==>
                && (material.kind.OtherMaterial? ==> r == Failure(Trapped(UNSUPPORTED_TRAP)))
                && (material.kind.Dielectric? ==>
                      (r.Failure? <==> old(|materialImages|) == 0 || old(|materialImages|) > UINT32_LIMIT)
                      && (r.Failure? ==> r == Failure(Trapped(CONVERSION_TRAP))))
                && (!material.kind.Lambertian? ==> unchanged(commandBuffer) && queueLog == old(queueLog))
    {
      if material in materialDrawInfoIndices {
        return Success(materialDrawInfoIndices[material]);
      }
      var drawInfo: MaterialDrawRecord;
      match material.kind {
        case Dielectric(refractiveIndex) =>
          var textureIndex := |materialImages| - 1;
          if textureIndex < 0 || textureIndex >= UINT32_LIMIT {
            return Failure(Trapped(CONVERSION_TRAP));
          }
          drawInfo := MaterialDrawRecord(0, textureIndex as uint32, refractiveIndex);
        case Lambertian =>
          var loaded := FirstLoadMaterial(material, image, imageView, requirementSize, commandBuffer);
          if loaded.Failure? {
            return Failure(loaded.error);
          }
          drawInfo := loaded.value;
        case OtherMaterial =>
          return Failure(Trapped(UNSUPPORTED_TRAP));
      }
      var index := Register(material, drawInfo);
      return Success(index);
    }

    /** The tail of `loadMaterial`: the record is appended and the material mapped to its position. */
    method Register(material: Material, drawInfo: MaterialDrawRecord) returns (index: nat)
      requires Valid() && material !in materialDrawInfoIndices && (drawInfo.textureIndex as int) < |materialImages|
      modifies this`materialDrawInfos, this`materialDrawInfoIndices, this`loadOrder
      ensures Valid()
      ensures index == old(|materialDrawInfos|)
      ensures materialDrawInfos == old(materialDrawInfos) + [drawInfo]
      ensures materialDrawInfoIndices == old(materialDrawInfoIndices)[material := index]
    {
      materialDrawInfos := materialDrawInfos + [drawInfo];
      index := |materialDrawInfos| - 1;
      materialDrawInfoIndices := materialDrawInfoIndices[material := index];
      loadOrder := loadOrder + [material];
    }
    /**
     * `firstLoadMaterial(lambertian:)`: uploads the texture, appends the new
     * image and builds a record of type 1 naming it. A failed upload appends
     * nothing.
     */
    method FirstLoadMaterial(lambertian: Material, image: Handle, imageView: Handle, requirementSize: nat, commandBuffer: CommandBuffer)
      returns (r: Result<MaterialDrawRecord, LoadError>)
      requires Valid() && Stageable(lambertian.texture)
      modifies this`materialImages, this`queueLog, materialImagesMemoryManager`deviceCalls, materialImagesMemoryManager.memory`usedRanges
      modifies materialImagesStagingBuffer.memory`mapped, materialImagesStagingBuffer.memory`mapCalls
      modifies materialImagesStagingBuffer.memory.contents, commandBuffer
      ensures Valid()
      ensures r.Success? ==>
                && old(|materialImages|) < UINT32_LIMIT
                && r.value == MaterialDrawRecord(1, old(|materialImages|) as uint32, Float32(0))
                && |materialImages| == old(|materialImages|) + 1
                && materialImages[..old(|materialImages|)] == old(materialImages)
                && materialImages[old(|materialImages|)].image == image
      ensures r.Failure? ==>
                && (r.error.Thrown? || r.error == Trapped(CONVERSION_TRAP))
                && (r.error.Thrown? || lambertian.texture.width >= UINT32_LIMIT || lambertian.texture.height >= UINT32_LIMIT ==>
                      materialImages == old(materialImages))
    {
      var loadedTexture := LoadTextureImage(lambertian.texture, image, imageView, requirementSize, commandBuffer);
      if loadedTexture.Failure? {
        return Failure(loadedTexture.error);
      }
      materialImages := materialImages + [loadedTexture.value];
      var textureIndex := |materialImages| - 1;
      if textureIndex >= UINT32_LIMIT {
        return Failure(Trapped(CONVERSION_TRAP));
      }
      return Success(MaterialDrawRecord(1, textureIndex as uint32, Float32(0)));
    }

    /**
     * `loadTextureImage(image:)`: creates the device image (its size
     * converted to `UInt32`, which traps past 2^32 - 1), stages the pixels
     * at the start of the staging buffer, records the layout transition,
     * the copy and the second transition into `commandBuffer`, submits it
     * and waits for the device to go idle.
     */
    method LoadTextureImage(cpuImage: RgbaImage, image: Handle, imageView: Handle, requirementSize: nat, commandBuffer: CommandBuffer)
      returns (r: Result<ManagedGPUImage, LoadError>)
      requires Valid() && Stageable(cpuImage)
      modifies this`queueLog, materialImagesMemoryManager`deviceCalls, materialImagesMemoryManager.memory`usedRanges
      modifies materialImagesStagingBuffer.memory`mapped, materialImagesStagingBuffer.memory`mapCalls
      modifies materialImagesStagingBuffer.memory.contents, commandBuffer
      ensures Valid()
      ensures cpuImage.width >= UINT32_LIMIT || cpuImage.height >= UINT32_LIMIT ==>
                && r == Failure(Trapped(CONVERSION_TRAP))
                && materialImagesMemoryManager.memory.usedRanges == old(materialImagesMemoryManager.memory.usedRanges)
                && materialImagesMemoryManager.deviceCalls == old(materialImagesMemoryManager.deviceCalls)
                && materialImagesStagingBuffer.memory.contents[..] == old(materialImagesStagingBuffer.memory.contents[..])
                && commandBuffer.commands == old(commandBuffer.commands) && queueLog == old(queueLog)
      ensures cpuImage.width < UINT32_LIMIT && cpuImage.height < UINT32_LIMIT ==>
                var width, height := cpuImage.width as uint32, cpuImage.height as uint32;
                var memory := materialImagesMemoryManager.memory;
                var staging := materialImagesStagingBuffer;
                var a := AllocateRange(old(memory.usedRanges), memory.size, requirementSize);
                && (a.Failure? ==>
                      && r == Failure(Thrown(a.error))
                      && memory.usedRanges == old(memory.usedRanges)
                      && materialImagesMemoryManager.deviceCalls ==
                           old(materialImagesMemoryManager.deviceCalls) + [CreateImage(TextureImageInfo(width, height))]
                      && staging.memory.contents[..] == old(staging.memory.contents[..])
                      && commandBuffer.commands == old(commandBuffer.commands) && queueLog == old(queueLog))
                && (a.Success? ==>
                      && r == Success(ManagedGPUImage(memory, a.value, image, imageView))
                      && memory.usedRanges == old(memory.usedRanges) + [a.value]
                      && materialImagesMemoryManager.deviceCalls ==
                           old(materialImagesMemoryManager.deviceCalls)
                           + [CreateImage(TextureImageInfo(width, height)), BindImageMemory(image, a.value.lower),
                              CreateImageView(image, VK_FORMAT_R8G8B8A8_SRGB)]
                      && staging.memory.contents[..] == Overlay(old(staging.memory.contents[..]), staging.range.lower, Written(cpuImage.pixels))
                      && commandBuffer.commands == old(commandBuffer.commands) + UploadCommands(staging.buffer, image, width, height)
                      && queueLog == old(queueLog) + [Submitted(commandBuffer.handle, commandBuffer.commands), DeviceWaitIdle])
    {
      if cpuImage.width >= UINT32_LIMIT || cpuImage.height >= UINT32_LIMIT {
        return Failure(Trapped(CONVERSION_TRAP));
      }
      var width, height := cpuImage.width as uint32, cpuImage.height as uint32;
      var gpuImage := materialImagesMemoryManager.GetImage(width, height, VK_FORMAT_R8G8B8A8_SRGB, VK_IMAGE_TILING_OPTIMAL,
                                                           VK_IMAGE_USAGE_TRANSFER_DST_BIT | VK_IMAGE_USAGE_SAMPLED_BIT,
                                                           image, imageView, requirementSize);
      if gpuImage.Failure? {
        return Failure(Thrown(gpuImage.error));
      }
      StageAndSubmit(cpuImage, image, width, height, commandBuffer);
      return Success(gpuImage.value);
    }

    /**
     * The second half of `loadTextureImage`: the pixels are stored at the
     * start of the staging buffer, the upload commands are recorded, the
     * command buffer is submitted and the device is waited for.
     */
    method StageAndSubmit(cpuImage: RgbaImage, image: Handle, width: uint32, height: uint32, commandBuffer: CommandBuffer)
      requires Valid() && Stageable(cpuImage)
      modifies this`queueLog, materialImagesStagingBuffer.memory`mapped, materialImagesStagingBuffer.memory`mapCalls
      modifies materialImagesStagingBuffer.memory.contents, commandBuffer
      ensures Valid()
      ensures materialImagesStagingBuffer.memory.contents[..] ==
                Overlay(old(materialImagesStagingBuffer.memory.contents[..]), materialImagesStagingBuffer.range.lower, Written(cpuImage.pixels))
      ensures commandBuffer.commands == old(commandBuffer.commands) + UploadCommands(materialImagesStagingBuffer.buffer, image, width, height)
      ensures queueLog == old(queueLog) + [Submitted(commandBuffer.handle, commandBuffer.commands), DeviceWaitIdle]
    {
      materialImagesStagingBuffer.StoreImage(cpuImage);
      commandBuffer.Record(TransitionLayout(image, VK_FORMAT_R8G8B8A8_SRGB, VK_IMAGE_LAYOUT_UNDEFINED, VK_IMAGE_LAYOUT_TRANSFER_DST_OPTIMAL));
      commandBuffer.Record(CopyBufferToImage(materialImagesStagingBuffer.buffer, image, width, height));
      commandBuffer.Record(TransitionLayout(image, VK_FORMAT_R8G8B8A8_SRGB, VK_IMAGE_LAYOUT_TRANSFER_DST_OPTIMAL, VK_IMAGE_LAYOUT_SHADER_READ_ONLY_OPTIMAL));
      queueLog := queueLog + [Submitted(commandBuffer.handle, commandBuffer.commands), DeviceWaitIdle];
    }

    /**
     * `updateGPUData`: all records are stored into the data buffer from its
     * start with the packed stride, the record size 48 (see
     * `StoredRecordsRoundTrip`). The store does not check that they fit.
     */
    method UpdateGPUData()
      requires Valid() && ArrayFits(0, |materialDrawInfos|, 48, 48, materialDataBuffer.Size())
      modifies materialDataBuffer.memory`mapped, materialDataBuffer.memory`mapCalls, materialDataBuffer.memory.contents
      ensures Valid()
      ensures materialDataBuffer.memory.contents[..] ==
                StoredImages(old(materialDataBuffer.memory.contents[..]), materialDataBuffer.range.lower,
                             Images(RecordValues(materialDrawInfos)), 48, |materialDrawInfos|)
    {
      StoreRecords(materialDataBuffer, materialDrawInfos);
    }
  }
}
