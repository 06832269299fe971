# SwiftVulkanRenderer bookkeeping, modelled in Dafny

This project models the CPU-side bookkeeping of SwiftVulkanRenderer that sits
between a scene and GPU memory, and proves properties of that model. Vulkan
itself is not modelled: device objects are opaque handles, and the calls the
code makes to the driver are recorded in logs.

- **Memory arena** (`gpu_memory.dfy`, `memory_manager.dfy`,
  `legacy_memory_manager.dfy`). `ManagedGPUMemory` is a block of fixed size
  together with the ranges carved from it. Both generations of
  `MemoryManager` bump-allocate: a new range starts where the last one ends.
  A range is granted only when its end lies strictly below the block size.
  Nothing is ever freed. The invariant `Packed` says the ranges start at 0,
  are contiguous, are in bounds, and are therefore pairwise disjoint.
- **Byte layout** (`layout.dfy`). This covers `BufferSerializable` for
  `UInt32`, `Float`, `FVec2`, `FVec3`, `FpRGBColor`, `Matrix4` and structs:
  - the base alignment and size rules, including `toMultipleOf16`;
  - the struct `serialize` loop, which writes the members tightly one after
    another;
  - a reader (`Decode`), used to prove that what `serialize` writes reads
    back as the value.

  The image of a value is a sequence of `Option<byte>`. `None` marks a byte
  that `serialize` leaves alone, such as the fourth float of an `FVec3` or a
  struct's padding.
- **Layout instances** (`draw_infos.dfy`, `scene_records.dfy`). These are
  `MaterialDrawInfo`, `ObjectDrawInfo`, `PushConstantBlock`, and the
  transposed-matrix serialisers `SceneUniformObject` and
  `SceneObjectDrawInfo`. The model pins down their alignments, sizes, member
  offsets and untouched bytes.
- **Buffers** (`gpu_resources.dfy`). A `ManagedGPUBuffer` writes in place
  into the host view of its block, which is an `array<byte>`. It maps the
  block lazily. Its array `store` puts element `i` at `offset + i * stride`.
  It can also record copies into a command buffer.
- **Material registry** (`materials.dfy`). Materials are deduplicated by
  object identity. A new material gets the next index. A Lambertian material
  uploads its texture through a staging buffer, and the upload is recorded as
  an ordered command and queue log.
- **Meshes** (`mesh*.dfy`). This covers `flatVertices`, the cuboid and
  icosahedron tables, the cylinder's index runs and `mergeIndices`, and the
  sphere's subdivision loop.
- **Helpers**:
  - `vulkan_helpers.dfy`: `makeApiVersion` on `bv32`, and the first-fit
    `findMemoryType`.
  - `deferred.dfy`: the `Deferred` property wrapper.
  - `buffer_copy.dfy`: `asUnsafeMutableBufferPointer`.

Modelling choices:

- **Errors and traps.** The errors the code throws, and its traps, are
  `Failure` outcomes of a `Result`. A trap here means a force unwrap, a
  failing `UInt32(...)`/`Int(...)` conversion, or `fatalError`.
- **Floats.** They are opaque 32-bit patterns in the layout engine. Mesh
  positions are exact reals.
- **Parameters in place of missing code.** A few things the code relies on
  are not declared in the source shown, so they become parameters. These are
  a type's `serializedStride`, the block's `map()`, and the handles and
  sizes the driver returns.

Behaviour of the code worth stating plainly:

- **Strict end bound.** The allocator refuses a range whose end equals the
  block size (Data/MemoryManager.swift:34-39), so a request that would
  exactly fill the block is rejected.
- **Record size of three 4-byte members.** A struct of three 4-byte members
  has alignment 16 and size 3 × 16 = 48. `updateGPUData` stores the records
  with the packed stride (Materials/MaterialSystem.swift:91-95), so
  consecutive records are 48 bytes apart.
- **Only the code's operations.** The code has no scene-sync state machine,
  no dirty flags, no material removal and no layout-transition table, so the
  model has none either.

## Model

| member | source | states |
|---|---|---|
| GpuMemory.AllocateIsBump | Sources/SwiftVulkanRenderer/Data/MemoryManager.swift:33-46 | a granted range starts at the last range's upper bound (0 when there is none) and is exactly as long as requested |
| GpuMemory.AllocateSucceedsIff | Sources/SwiftVulkanRenderer/Data/MemoryManager.swift:34-39 | a request is granted if and only if its end is strictly below the block size; otherwise, for a representable end, it fails with the capacity error |
| GpuMemory.AllocateKeepsPacked | Sources/SwiftVulkanRenderer/Data/MemoryManager.swift:33-46 | appending a granted range keeps the used ranges contiguous, starting at 0, well formed and below the size |
| GpuMemory.PackedNextOffset | Sources/SwiftVulkanRenderer/Data/MemoryManager.swift:34 | for packed ranges the next offset equals the total number of bytes handed out |
| GpuMemory.PackedDisjoint | Sources/SwiftVulkanRenderer/Data/MemoryManager.swift:33-46 | packed ranges are sorted and pairwise disjoint, and all lie in [0, size) |
| GpuMemory.ManagedGPUMemory.constructor | Sources/SwiftVulkanRenderer/Data/ManagedGPUMemory.swift:3-14 | a new block keeps its handle and size (both immutable) and has no used ranges |
| GpuMemory.ManagedGPUMemory.Map | Sources/SwiftVulkanRenderer/Data/ManagedGPUBuffer.swift:10-11 | mapping leaves the block mapped and counts one more mapping call |
| DataMemory.MemoryManager.constructor | Sources/SwiftVulkanRenderer/Data/MemoryManager.swift:9-31 | construction allocates exactly one block of `minAllocSize` bytes (10 MiB by default) of the given memory type, with no used ranges, unmapped |
| DataMemory.MemoryManager.AllocateMemoryRange | Sources/SwiftVulkanRenderer/Data/MemoryManager.swift:33-46 | the outcome is the bump allocation; on success the range is appended as the last used range, on failure the used ranges are unchanged; the arena invariant is kept |
| DataMemory.MemoryManager.GetBuffer | Sources/SwiftVulkanRenderer/Data/MemoryManager.swift:48-72 | the buffer takes a range of the requirement size (not the `size` argument), is bound at its start and carries exactly that range; a refused request binds and appends nothing; a negative size traps |
| DataMemory.MemoryManager.GetImage | Sources/SwiftVulkanRenderer/Data/MemoryManager.swift:74-169 | the image is created as sRGB RGBA8, optimal tiling, transfer-destination and sampled whatever the caller asks, takes one range of the requirement size, is bound at its start, and its view uses the caller's format; a refused request appends nothing |
| RendererMemory.MemoryManager.constructor | Sources/SwiftVulkanRenderer/Renderer/MemoryManager.swift:8-29 | the pool is always one block of 10 × 1024 × 1024 bytes with no used ranges |
| RendererMemory.MemoryManager.GetBuffer | Sources/SwiftVulkanRenderer/Renderer/MemoryManager.swift:31-62 | the offset is the last upper bound or 0; the request is refused unless offset + requirement < size, in which case nothing is bound or appended; on success `offset..<end` is appended and the buffer carries that range |
| Layout.ToMultipleOf16Bounds | Sources/SwiftVulkanRenderer/Data/BufferSerializable.swift:159-164 | for x ≥ 0 the result is a multiple of 16 in [x, x + 16) |
| Layout.ToMultipleOf16IsLeast | Sources/SwiftVulkanRenderer/Data/BufferSerializable.swift:159-164 | the result is the least multiple of 16 that is ≥ x |
| Layout.MemberTypes | Sources/SwiftVulkanRenderer/Data/BufferSerializable.swift:118-128 | one member type for each of the first n serializable members |
| Layout.MemberTypesAt | Sources/SwiftVulkanRenderer/Data/BufferSerializable.swift:118-128 | entry k of the member types is the type of member k |
| Layout.TimesIsProduct | Sources/SwiftVulkanRenderer/Data/BufferSerializable.swift:114-116 | the repeated addition in the struct size rule is the product count × alignment |
| Layout.LargestMemberSizeIsMaximum | Sources/SwiftVulkanRenderer/Data/BufferSerializable.swift:106-112 | the `reduce` seeded with 0 yields the largest member size: at least every member's size, equal to one of them, and 0 with no members |
| Layout.MembersExtentMonotone | Sources/SwiftVulkanRenderer/Data/BufferSerializable.swift:130-137 | the running offset of `serialize` never decreases |
| Layout.MembersExtentBelowLargest | Sources/SwiftVulkanRenderer/Data/BufferSerializable.swift:130-137 | the bytes written by the first n members are at most n times the largest member size |
| Layout.MembersExtentFits | Sources/SwiftVulkanRenderer/Data/BufferSerializable.swift:106-137 | the sum of member sizes never exceeds the struct's serialized size |
| Layout.Le32RoundTrip | Sources/SwiftVulkanRenderer/Data/BufferSerializable.swift:61-75 | the four little-endian bytes of a 32-bit word read back as the word |
| Layout.FloatsBytesAt | Sources/SwiftVulkanRenderer/Data/BufferSerializable.swift:56-58 | float k of a float array occupies bytes 4k to 4k + 3 |
| Layout.Transposed | Sources/SwiftVulkanRenderer/Data/BufferSerializable.swift:56-58 | element (r, c) of the transposed matrix is element (c, r) of the matrix |
| Layout.TransposedTwice | Sources/SwiftVulkanRenderer/Data/BufferSerializable.swift:56-58 | transposing twice gives the matrix back, so the matrix can be recovered from what is written |
| Layout.ImageLength | Sources/SwiftVulkanRenderer/Data/BufferSerializable.swift:13-137 | every value's image is exactly its type's `serializedSize` long |
| Layout.MembersImageLength | Sources/SwiftVulkanRenderer/Data/BufferSerializable.swift:130-137 | the first n members' images together are as long as the sum of their sizes |
| Layout.MembersStep | Sources/SwiftVulkanRenderer/Data/BufferSerializable.swift:133-136 | member k is written right after members 0..k-1 |
| Layout.MembersImageAt | Sources/SwiftVulkanRenderer/Data/BufferSerializable.swift:130-137 | member k's image sits at relative offset Σ_{j<k} size(member j) |
| Layout.OverlayAt | Sources/SwiftVulkanRenderer/Data/BufferSerializable.swift:10 | writing an image at an offset sets exactly the image's written bytes and leaves every other byte as it was |
| Layout.OverlayHolds | Sources/SwiftVulkanRenderer/Data/BufferSerializable.swift:10 | after a write, the buffer holds the image at that offset |
| Layout.OverlayElsewhere | Sources/SwiftVulkanRenderer/Data/BufferSerializable.swift:10 | a write to a disjoint range does not disturb an image held elsewhere |
| Layout.OverlayConcat | Sources/SwiftVulkanRenderer/Data/BufferSerializable.swift:130-137 | writing two images back to back is writing their concatenation |
| Layout.OverlayUntouched | Sources/SwiftVulkanRenderer/Data/BufferSerializable.swift:20-23 | an image of untouched bytes changes nothing |
| Layout.HoldsWritten | Sources/SwiftVulkanRenderer/Data/BufferSerializable.swift:69-71 | a buffer holding written bytes contains exactly those bytes |
| Layout.DecodeReadsScalar | Sources/SwiftVulkanRenderer/Data/BufferSerializable.swift:61-75 | a serialized `UInt32` or `Float` reads back as itself |
| Layout.DecodeReadsFVec2 | Sources/SwiftVulkanRenderer/Data/BufferSerializable.swift:25-36 | a serialized `FVec2` reads back as itself |
| Layout.DecodeReadsFVec3 | Sources/SwiftVulkanRenderer/Data/BufferSerializable.swift:13-24 | a serialized `FVec3` (three floats written out of 16 bytes) reads back as itself |
| Layout.DecodeReadsColor | Sources/SwiftVulkanRenderer/Data/BufferSerializable.swift:37-48 | a serialized `FpRGBColor` reads back as itself |
| Layout.DecodeReadsMatrix | Sources/SwiftVulkanRenderer/Data/BufferSerializable.swift:49-59 | a serialized `Matrix4`, written transposed, reads back as itself |
| Layout.DecodeReadsStruct | Sources/SwiftVulkanRenderer/Data/BufferSerializable.swift:130-137 | a serialized struct reads back as itself |
| Layout.DecodeReadsMember | Sources/SwiftVulkanRenderer/Data/BufferSerializable.swift:130-137 | member k of a serialized struct reads back at its running offset |
| Layout.DecodeReadsImage | Sources/SwiftVulkanRenderer/Data/BufferSerializable.swift:13-137 | any well-formed value, nested structs included, reads back from a buffer holding its image |
| Layout.SerializeRoundTrip | Sources/SwiftVulkanRenderer/Data/BufferSerializable.swift:10-137 | `deserialize(serialize(x)) == x` at any offset of any buffer it fits |
| Layout.StoreBytes | Sources/SwiftVulkanRenderer/Data/BufferSerializable.swift:69-71 | copying bytes into the buffer at an offset sets exactly those bytes and leaves the rest |
| Layout.Serialize | Sources/SwiftVulkanRenderer/Data/BufferSerializable.swift:10-137 | `serialize(into:offset:)` of any value leaves the buffer as the old contents overlaid with the value's image at the offset |
| Layout.SerializeStruct | Sources/SwiftVulkanRenderer/Data/BufferSerializable.swift:130-137 | a struct's `serialize` overlays its image (members then untouched padding) at the offset |
| Layout.SerializeMembers | Sources/SwiftVulkanRenderer/Data/BufferSerializable.swift:132-136 | the member loop with a running offset writes each member at the offset plus the sizes of those before it |
| DrawInfos.MaterialDrawInfo | Sources/SwiftVulkanRenderer/Materials/MaterialDrawInfo.swift:1-6 | the value is a well-formed instance of the one-member struct type (`textureIndex: UInt32`) |
| DrawInfos.MaterialDrawInfoMeasure | Sources/SwiftVulkanRenderer/Materials/MaterialDrawInfo.swift:8-10 | the measure instance has `textureIndex` 0 |
| DrawInfos.MaterialDrawInfoLayout | Sources/SwiftVulkanRenderer/Materials/MaterialDrawInfo.swift:1-11 | base alignment toMultipleOf16(4) = 16, size 1 × 16 = 16, 4 bytes used and 12 of padding |
| DrawInfos.MaterialDrawInfoImage | Sources/SwiftVulkanRenderer/Materials/MaterialDrawInfo.swift:1-11 | `serialize` writes the index's 4 bytes at relative offset 0 and leaves 12 bytes alone |
| DrawInfos.ObjectDrawInfo | Sources/SwiftVulkanRenderer/Renderer/Raytracing/RaytracingVulkanRenderer+ObjectDrawInfo.swift:4-9 | the value is a well-formed instance of the struct type (matrix, then four `UInt32`s), with `p` defaulting to 0 |
| DrawInfos.ObjectDrawInfoMeasure | Sources/SwiftVulkanRenderer/Renderer/Raytracing/RaytracingVulkanRenderer+ObjectDrawInfo.swift:11-13 | the measure instance is all zeros |
| DrawInfos.ObjectDrawInfoLayout | Sources/SwiftVulkanRenderer/Renderer/Raytracing/RaytracingVulkanRenderer+ObjectDrawInfo.swift:4-13 | base alignment toMultipleOf16(64) = 64 and size 5 × 64 = 320 |
| DrawInfos.ObjectDrawInfoOffsets | Sources/SwiftVulkanRenderer/Renderer/Raytracing/RaytracingVulkanRenderer+ObjectDrawInfo.swift:5-9 | members are written at +0, +64, +68, +72 and +76, ending at 80, leaving 240 bytes of padding |
| DrawInfos.ObjectDrawInfoImage | Sources/SwiftVulkanRenderer/Renderer/Raytracing/RaytracingVulkanRenderer+ObjectDrawInfo.swift:4-13 | the image is the transposed matrix's bytes, the four words, then 240 untouched bytes |
| DrawInfos.PushConstantBlock | Sources/SwiftVulkanRenderer/Renderer/Raytracing/RaytracingVulkanRenderer+PushConstantBlock.swift:4-7 | three `FVec3` values make a well-formed instance of the three-vector struct type |
| DrawInfos.PushConstantBlockMeasure | Sources/SwiftVulkanRenderer/Renderer/Raytracing/RaytracingVulkanRenderer+PushConstantBlock.swift:9-11 | the measure instance is three zero vectors |
| DrawInfos.PushConstantBlockLayout | Sources/SwiftVulkanRenderer/Renderer/Raytracing/RaytracingVulkanRenderer+PushConstantBlock.swift:4-11 | base alignment 16, size 3 × 16 = 48, members at +0, +16, +32, no padding |
| DrawInfos.PushConstantBlockImage | Sources/SwiftVulkanRenderer/Renderer/Raytracing/RaytracingVulkanRenderer+PushConstantBlock.swift:4-11 | each vector's image sits in its 16-byte slot, and exactly bytes 12-15, 28-31 and 44-47 are left untouched |
| DrawInfos.FVec3Gap | Sources/SwiftVulkanRenderer/Data/BufferSerializable.swift:13-24 | an `FVec3` of size 16 writes its first 12 bytes and not its last 4 |
| DrawInfos.FVec3ImageAt | Sources/SwiftVulkanRenderer/Data/BufferSerializable.swift:18-23 | byte i of an `FVec3` image is untouched if and only if i ≥ 12 |
| SceneRecords.SceneUniformObject.SerializedData | Sources/SwiftVulkanRenderer/Scene/SceneUniformObject.swift:8-14 | 32 floats (serializedSize / 4): float 4r + c is element (c, r) of the view matrix, float 16 + 4r + c the same of the projection matrix |
| SceneRecords.SceneObjectDrawInfo.SerializedData | Sources/SwiftVulkanRenderer/Scene/SceneObjectDrawInfo.swift:6-12 | 16 floats (serializedSize / 4), exactly the transposed transformation matrix |
| SceneRecords.SceneUniformObjectBytes | Sources/SwiftVulkanRenderer/Scene/SceneUniformObject.swift:8-14 | the 128 bytes are the images of the two matrices as `Matrix4` values, and read back as the view matrix at 0 and the projection at 64 |
| SceneRecords.SceneObjectDrawInfoBytes | Sources/SwiftVulkanRenderer/Scene/SceneObjectDrawInfo.swift:6-12 | the 64 bytes are the matrix's `Matrix4` image and read back as the matrix |
| SceneRecords.FloatsBytesConcat | Sources/SwiftVulkanRenderer/Scene/SceneUniformObject.swift:13 | the bytes of two float lists joined are the two lists' bytes joined |
| GpuResources.ArrayStrideBounds | Sources/SwiftVulkanRenderer/Data/ManagedGPUBuffer.swift:45-51 | with `strideMultiple16` the stride is the least multiple of 16 at least `serializedStride`; without it, it is `serializedSize` |
| GpuResources.StoredImagesStep | Sources/SwiftVulkanRenderer/Data/ManagedGPUBuffer.swift:52-54 | storing element n at offset + n × stride extends the stored prefix by one element |
| GpuResources.StoredImagesHold | Sources/SwiftVulkanRenderer/Data/ManagedGPUBuffer.swift:45-55 | when the stride is at least the element size, every element's image survives the later stores |
| GpuResources.StoreArrayRoundTrip | Sources/SwiftVulkanRenderer/Data/ManagedGPUBuffer.swift:45-55 | after an array store, element i reads back from offset + i × stride |
| GpuResources.FlattenLayout | Sources/SwiftVulkanRenderer/Data/ManagedGPUBuffer.swift:29-31 | an array's storage is count × stride bytes, with element i's slot at i × stride |
| GpuResources.CopiedBytes | Sources/SwiftVulkanRenderer/Data/ManagedGPUBuffer.swift:29-31 | the copy takes exactly count × size bytes from the start of the storage |
| GpuResources.CopiedElement | Sources/SwiftVulkanRenderer/Data/ManagedGPUBuffer.swift:26-31 | element i's size data bytes arrive, at i × stride, exactly when i × stride + size ≤ count × size |
| GpuResources.CopiedWhenPacked | Sources/SwiftVulkanRenderer/Data/ManagedGPUBuffer.swift:26-31 | when stride equals size, the whole storage is copied and element i arrives whole at i × size |
| GpuResources.CopiedWithPadding | Sources/SwiftVulkanRenderer/Data/ManagedGPUBuffer.swift:26-31 | with size 5 and stride 8, two elements copy as the first slot whole (padding included) and only 2 bytes of the second |
| GpuResources.ManagedGPUBuffer.constructor | Sources/SwiftVulkanRenderer/Data/ManagedGPUBuffer.swift:20-24 | the buffer keeps its block, handle and range, and a range inside the block gives a valid buffer |
| GpuResources.ManagedGPUBuffer.DataPointer | Sources/SwiftVulkanRenderer/Data/ManagedGPUBuffer.swift:9-14 | the pointer is the range's lower bound into the block, and the block is mapped once, only when it was not mapped |
| GpuResources.ManagedGPUBuffer.StoreAlignedCStructs | Sources/SwiftVulkanRenderer/Data/ManagedGPUBuffer.swift:28-32 | the first count × size bytes of the stride-spaced storage are copied to the range start plus `offset` (default 0), and nothing else in the block changes |
| GpuResources.ManagedGPUBuffer.StoreData | Sources/SwiftVulkanRenderer/Data/ManagedGPUBuffer.swift:34-39 | the `Data` store always traps with "untested" before writing |
| GpuResources.ManagedGPUBuffer.Store | Sources/SwiftVulkanRenderer/Data/ManagedGPUBuffer.swift:41-43 | a single value is serialized starting at byte `offset` (default 0) of the buffer, and nothing else changes |
| GpuResources.ManagedGPUBuffer.StoreArray | Sources/SwiftVulkanRenderer/Data/ManagedGPUBuffer.swift:45-55 | element i is serialized at offset + i × stride, with `offset` defaulting to 0 and the stride chosen by `strideMultiple16` (default true) |
| GpuResources.ManagedGPUBuffer.StoreElements | Sources/SwiftVulkanRenderer/Data/ManagedGPUBuffer.swift:52-54 | the loop leaves the buffer as all elements stored, in order, one stride apart |
| GpuResources.ManagedGPUBuffer.StoreImage | Sources/SwiftVulkanRenderer/Data/ManagedGPUBuffer.swift:57-59 | the image's width × height × 4 bytes are copied to the start of the buffer |
| GpuResources.ManagedGPUBuffer.Copy | Sources/SwiftVulkanRenderer/Data/ManagedGPUBuffer.swift:66-73 | one region {srcRange.lowerBound, dstOffset, srcRange.count} from the source buffer into this one is recorded |
| GpuResources.ManagedGPUBuffer.CopyImage | Sources/SwiftVulkanRenderer/Data/ManagedGPUBuffer.swift:75-95 | one copy of the image, in transfer-source layout, into this buffer is recorded |
| Materials.Material.constructor | Sources/SwiftVulkanRenderer/Materials/Material.swift:6-8 | a material keeps its texture |
| Materials.DistinctInstances | Sources/SwiftVulkanRenderer/Materials/Material.swift:10-16 | two materials with the same texture are unequal and are distinct dictionary keys |
| Materials.RecordValue | Sources/SwiftVulkanRenderer/Materials/MaterialSystem.swift:47-50 | a draw record is a well-formed struct of two `UInt32`s and a `Float` |
| Materials.RecordValues | Sources/SwiftVulkanRenderer/Materials/MaterialSystem.swift:91-95 | the records as layout values, one per record, all of the record type |
| Materials.RecordLayout | Sources/SwiftVulkanRenderer/Materials/MaterialSystem.swift:91-95 | a record has alignment 16 and size 48, of which 12 bytes are written |
| Materials.RecordImage | Sources/SwiftVulkanRenderer/Materials/MaterialSystem.swift:91-95 | a record serializes as its three words back to back, then 36 untouched bytes |
| Materials.StoredRecordsRoundTrip | Sources/SwiftVulkanRenderer/Materials/MaterialSystem.swift:91-95 | after the packed store, record j reads back from byte 48j |
| Materials.StoreRecords | Sources/SwiftVulkanRenderer/Materials/MaterialSystem.swift:92-94 | the records are stored from the buffer start with the packed stride 48 |
| Materials.UploadCommands | Sources/SwiftVulkanRenderer/Materials/MaterialSystem.swift:77-83 | the upload records a transition UNDEFINED → TRANSFER_DST, the copy from staging, then TRANSFER_DST → SHADER_READ_ONLY, all on the sRGB RGBA8 image |
| Materials.MaterialSystem.constructor | Sources/SwiftVulkanRenderer/Materials/MaterialSystem.swift:18-34 | a new registry keeps its managers and buffers and has no materials, records, images or uploads |
| Materials.MaterialSystem.IndicesDistinct | Sources/SwiftVulkanRenderer/Materials/MaterialSystem.swift:55-57 | distinct materials have distinct indices |
| Materials.MaterialSystem.IndicesCover | Sources/SwiftVulkanRenderer/Materials/MaterialSystem.swift:55-57 | every index below the record count belongs to a registered material |
| Materials.MaterialSystem.LoadMaterial | Sources/SwiftVulkanRenderer/Materials/MaterialSystem.swift:40-60 | a known material yields its cached index and has no effect at all: registry, memory manager, staging memory and command buffer are unchanged; a new one gets the previous record count as index and exactly one more record; a Lambertian appends one image and gets record (1, new image index, 0); a Dielectric appends none and gets (0, image count − 1, its index), trapping when no image is loaded; any other kind traps |
| Materials.MaterialSystem.Register | Sources/SwiftVulkanRenderer/Materials/MaterialSystem.swift:55-59 | the record is appended and the material mapped to its position, keeping the registry a bijection |
| Materials.MaterialSystem.FirstLoadMaterial | Sources/SwiftVulkanRenderer/Materials/MaterialSystem.swift:62-67 | a successful first load appends exactly one image and builds the record (1, its index, 0) |
| Materials.MaterialSystem.LoadTextureImage | Sources/SwiftVulkanRenderer/Materials/MaterialSystem.swift:69-88 | the device image is created, the pixels staged, the three upload commands recorded, then the buffer submitted and the device waited on; a size past `UInt32` traps before anything happens |
| Materials.MaterialSystem.StageAndSubmit | Sources/SwiftVulkanRenderer/Materials/MaterialSystem.swift:76-86 | staging, then the upload commands, then submit and wait idle, in that order |
| Materials.MaterialSystem.UpdateGPUData | Sources/SwiftVulkanRenderer/Materials/MaterialSystem.swift:91-95 | the whole record array is stored into the data buffer with the packed stride |
| Meshes.Mesh.constructor | Sources/SwiftVulkanRenderer/Mesh/Mesh.swift:7-10 | a mesh keeps its vertices and indices |
| Meshes.Mesh.FlatVertices | Sources/SwiftVulkanRenderer/Mesh/Mesh.swift:20-22 | `flatVertices` has one vertex per index, vertex k being `vertices[indices[k]]`, with every index in range |
| Meshes.Gather | Sources/SwiftVulkanRenderer/Mesh/Mesh.swift:21 | the map over the indices has their length and picks the indexed vertex at each position |
| Meshes.Iota | Sources/SwiftVulkanRenderer/Mesh/Mesh+sphere.swift:23 | `Array(0..<UInt32(n))` has n entries, entry k being k |
| Meshes.FlatVerticesOfIota | Sources/SwiftVulkanRenderer/Mesh/Mesh+sphere.swift:23 | indices `0..<n` are in range and draw the vertex list unchanged |
| Meshes.IndicesBelowAppend | Sources/SwiftVulkanRenderer/Mesh/Mesh+cylinder.swift:93-97 | two index lists in range stay in range when joined |
| Meshes.QuadStrip | Sources/SwiftVulkanRenderer/Mesh/Mesh+cuboid.swift:51-68 | a strip of n quads has 6n indices |
| Meshes.QuadStripAt | Sources/SwiftVulkanRenderer/Mesh/Mesh+cuboid.swift:52-67 | quad f is drawn by indices 6f..6f+5 as (4f, 4f+1, 4f+2) and (4f, 4f+2, 4f+3) |
| Meshes.QuadStripBelow | Sources/SwiftVulkanRenderer/Mesh/Mesh+cylinder.swift:67-76 | every index of the strip is below 4n |
| Meshes.QuadStripCovers | Sources/SwiftVulkanRenderer/Mesh/Mesh+cuboid.swift:51-68 | every index of the strip is below 4n and every one of the 4n vertices is referenced |
| Cuboids.Faces | Sources/SwiftVulkanRenderer/Mesh/Mesh+cuboid.swift:6-36 | the first n faces contribute four vertices each |
| Cuboids.Cuboid | Sources/SwiftVulkanRenderer/Mesh/Mesh+cuboid.swift:4-70 | `cuboid(size:)` returns a fresh mesh over the vertex and index tables, the size defaulting to (1, 1, 1) |
| Cuboids.CuboidIndicesAreQuads | Sources/SwiftVulkanRenderer/Mesh/Mesh+cuboid.swift:51-68 | the 36 literal indices are the strip of six quads |
| Cuboids.FacesAt | Sources/SwiftVulkanRenderer/Mesh/Mesh+cuboid.swift:6-36 | face f occupies vertices 4f..4f+3 |
| Cuboids.CuboidFaces | Sources/SwiftVulkanRenderer/Mesh/Mesh+cuboid.swift:6-68 | 24 vertices and 36 indices; face f's four vertices share its normal literal, and indices 6f..6f+5 are its two triangles |
| Cuboids.CuboidIndicesCover | Sources/SwiftVulkanRenderer/Mesh/Mesh+cuboid.swift:51-68 | every index is below 24 and every vertex is referenced |
| Cylinders.Offset | Sources/SwiftVulkanRenderer/Mesh/Mesh+cylinder.swift:95 | shifting keeps the length |
| Cylinders.OffsetAt | Sources/SwiftVulkanRenderer/Mesh/Mesh+cylinder.swift:95 | shifted index k is index k plus the offset |
| Cylinders.OffsetZero | Sources/SwiftVulkanRenderer/Mesh/Mesh+cylinder.swift:32 | a shift by 0, as for the top run, changes nothing |
| Cylinders.MergeIndices | Sources/SwiftVulkanRenderer/Mesh/Mesh+cylinder.swift:93-97 | the merged list's length is the sum of the two lengths |
| Cylinders.MergeIndicesAt | Sources/SwiftVulkanRenderer/Mesh/Mesh+cylinder.swift:93-97 | after the existing indices, additional index k comes back moved up by the offset |
| Cylinders.MergeIndicesKeeps | Sources/SwiftVulkanRenderer/Mesh/Mesh+cylinder.swift:93-97 | the existing indices are a prefix of the merged list |
| Cylinders.MergeIndicesBelow | Sources/SwiftVulkanRenderer/Mesh/Mesh+cylinder.swift:93-97 | merged indices stay below n when the existing ones and the shifted additional ones do |
| Cylinders.TopFan | Sources/SwiftVulkanRenderer/Mesh/Mesh+cylinder.swift:24-31 | n top triangles have 3n indices |
| Cylinders.BottomFan | Sources/SwiftVulkanRenderer/Mesh/Mesh+cylinder.swift:40-47 | n bottom triangles have 3n indices |
| Cylinders.FansBelow | Sources/SwiftVulkanRenderer/Mesh/Mesh+cylinder.swift:23-47 | both fans' indices are below d + 1 (the rim and the centre) |
| Cylinders.MergeRunsLayout | Sources/SwiftVulkanRenderer/Mesh/Mesh+cylinder.swift:32-85 | the index list is the top run as it was, the bottom run shifted by d + 1, then the side run shifted by 2d + 2 |
| Cylinders.MergeRunsBelow | Sources/SwiftVulkanRenderer/Mesh/Mesh+cylinder.swift:32-85 | with runs in range, every merged index is below 6d + 2 |
| Cylinders.CylinderRuns | Sources/SwiftVulkanRenderer/Mesh/Mesh+cylinder.swift:21-85 | the cylinder's 12d indices are the top fan, the shifted bottom fan and the shifted side strip |
| Cylinders.Rim | Sources/SwiftVulkanRenderer/Mesh/Mesh+cylinder.swift:33-35 | one rim vertex per base position |
| Cylinders.RimAt | Sources/SwiftVulkanRenderer/Mesh/Mesh+cylinder.swift:33-35 | rim vertex i is base position i lifted, with the cap's normal |
| Cylinders.SideVertices | Sources/SwiftVulkanRenderer/Mesh/Mesh+cylinder.swift:56-84 | n side faces contribute four vertices each |
| Cylinders.Cylinder | Sources/SwiftVulkanRenderer/Mesh/Mesh+cylinder.swift:5-89 | `cylinder(divisionCount:)` returns a fresh mesh over the modelled vertex and index lists |
| Cylinders.Caps | Sources/SwiftVulkanRenderer/Mesh/Mesh+cylinder.swift:18-52 | the caps give 2d + 2 vertices (top rim, its centre, bottom rim, its centre) and 6d indices (the top fan at offset 0, the bottom fan at offset d + 1) |
| Cylinders.AppendCap | Sources/SwiftVulkanRenderer/Mesh/Mesh+cylinder.swift:32-36 | one cap merges its fan at the current vertex count and appends the rim and the centre |
| Cylinders.TopFanLoop | Sources/SwiftVulkanRenderer/Mesh/Mesh+cylinder.swift:24-31 | the loop builds the top fan |
| Cylinders.BottomFanLoop | Sources/SwiftVulkanRenderer/Mesh/Mesh+cylinder.swift:40-47 | the loop builds the bottom fan |
| Cylinders.SideBand | Sources/SwiftVulkanRenderer/Mesh/Mesh+cylinder.swift:54-84 | the loop builds the quad strip and the side faces' vertices |
| Cylinders.CylinderCounts | Sources/SwiftVulkanRenderer/Mesh/Mesh+cylinder.swift:10-88 | 6d + 2 vertices and 12d indices, all below 6d + 2 |
| Cylinders.TopFanAt | Sources/SwiftVulkanRenderer/Mesh/Mesh+cylinder.swift:25-30 | top triangle i is [i + 1, i, d], or [0, i, d] for the last |
| Cylinders.BottomFanAt | Sources/SwiftVulkanRenderer/Mesh/Mesh+cylinder.swift:41-46 | bottom triangle i is [i, i + 1, d], or [i, 0, d] for the last |
| Cylinders.CylinderTopTriangle | Sources/SwiftVulkanRenderer/Mesh/Mesh+cylinder.swift:24-32 | top triangle i is indices 3i..3i+2 of the cylinder, unshifted |
| Cylinders.CylinderBottomTriangle | Sources/SwiftVulkanRenderer/Mesh/Mesh+cylinder.swift:40-48 | bottom triangle i is indices 3d + 3i.. of the cylinder, shifted by d + 1 |
| Cylinders.CylinderSideFace | Sources/SwiftVulkanRenderer/Mesh/Mesh+cylinder.swift:67-85 | side face f is indices 6d + 6f.. of the cylinder: the quad {0,1,2,0,2,3} + 2d + 2 + 4f |
| Cylinders.OppositeWinding | Sources/SwiftVulkanRenderer/Mesh/Mesh+cylinder.swift:25-47 | bottom triangle i is top triangle i with its first two corners swapped |
| Cylinders.CylinderCapVertices | Sources/SwiftVulkanRenderer/Mesh/Mesh+cylinder.swift:33-52 | vertex i is base position i lifted up, vertex d the top centre, vertex d + 1 + i base position i dropped, vertex 2d + 1 the bottom centre |
| Cylinders.CylinderSideVertices | Sources/SwiftVulkanRenderer/Mesh/Mesh+cylinder.swift:56-86 | side face f's vertices are 2d + 2 + 4f.., built from base positions f and (f + 1) mod d |
| Cylinders.SideVerticesAt | Sources/SwiftVulkanRenderer/Mesh/Mesh+cylinder.swift:56-84 | side face f occupies vertices 4f..4f+3 of the side block |
| Spheres.ProjectAll | Sources/SwiftVulkanRenderer/Mesh/Mesh+sphere.swift:40 | the map keeps the length |
| Spheres.ProjectAllAt | Sources/SwiftVulkanRenderer/Mesh/Mesh+sphere.swift:40 | position k becomes the vertex at `normalized() * radius` with normal `normalized()` |
| Spheres.SubdivisionPositions | Sources/SwiftVulkanRenderer/Mesh/Mesh+sphere.swift:29-38 | twelve positions |
| Spheres.SubdivideFace | Sources/SwiftVulkanRenderer/Mesh/Mesh+sphere.swift:28-42 | `subdivideFace` returns 12 vertices |
| Spheres.SubdivideFaceTriangles | Sources/SwiftVulkanRenderer/Mesh/Mesh+sphere.swift:28-42 | the midpoints halve the edges, and the output is the middle triangle (mid1, mid2, mid3), then the corner triangles at v1, v2 and v3 |
| Spheres.SubdividePass | Sources/SwiftVulkanRenderer/Mesh/Mesh+sphere.swift:15-18 | a pass over n faces yields 12n vertices |
| Spheres.Pow4 | Sources/SwiftVulkanRenderer/Mesh/Mesh+sphere.swift:20 | 4ⁿ is at least 1 |
| Spheres.SubdividedCount | Sources/SwiftVulkanRenderer/Mesh/Mesh+sphere.swift:13-21 | each pass multiplies the face count by 4 and keeps three vertices per face |
| Spheres.Sphere | Sources/SwiftVulkanRenderer/Mesh/Mesh+sphere.swift:7-24 | `sphere` returns 60 × 4ⁿ vertices and the indices `0..<count` |
| Spheres.SubdivideRepeatedly | Sources/SwiftVulkanRenderer/Mesh/Mesh+sphere.swift:13-21 | the outer loop yields the icosahedron subdivided n times |
| Spheres.SubdivideAll | Sources/SwiftVulkanRenderer/Mesh/Mesh+sphere.swift:14-18 | the inner loop yields every face subdivided, in order |
| Spheres.SphereCounts | Sources/SwiftVulkanRenderer/Mesh/Mesh+sphere.swift:8-23 | 60 × 4ⁿ vertices drawn in order by their indices, and with no subdivision the icosahedron's vertices unchanged |
| Spheres.PassOnSphere | Sources/SwiftVulkanRenderer/Mesh/Mesh+sphere.swift:40 | with a unit `normalized()`, every vertex of a pass lies at radius 0.5 with an outward normal |
| Spheres.SubdividedOnSphere | Sources/SwiftVulkanRenderer/Mesh/Mesh+sphere.swift:13-21 | after at least one pass, every vertex lies on the sphere |
| Spheres.SphereOnSurface | Sources/SwiftVulkanRenderer/Mesh/Mesh+sphere.swift:7-24 | with a subdivision, every vertex of the sphere is its normal scaled by 0.5, at squared distance 0.25 |
| Icosahedra.IcosahedronFace | Sources/SwiftVulkanRenderer/Mesh/Mesh+icosahedron.swift:11-91 | each face of the table lists three corners |
| Icosahedra.ZeroNormals | Sources/SwiftVulkanRenderer/Mesh/Mesh+icosahedron.swift:11-91 | each table row is the corner with the `.zero` normal |
| Icosahedra.IcosahedronTable | Sources/SwiftVulkanRenderer/Mesh/Mesh+icosahedron.swift:11-91 | n faces give 3n rows |
| Icosahedra.TableAt | Sources/SwiftVulkanRenderer/Mesh/Mesh+icosahedron.swift:11-91 | row 3f + c is corner c of face f with the zero normal |
| Icosahedra.CornerEquidistant | Sources/SwiftVulkanRenderer/Mesh/Mesh+icosahedron.swift:7-9 | every corner of the golden rectangles is at squared distance a² + b² from the centre |
| Icosahedra.FaceCorners | Sources/SwiftVulkanRenderer/Mesh/Mesh+icosahedron.swift:11-91 | every table position is a corner of the golden rectangles |
| Icosahedra.WithNormal | Sources/SwiftVulkanRenderer/Mesh/Mesh+icosahedron.swift:98-106 | a triangle with its normals replaced has three vertices |
| Icosahedra.NormalFaces | Sources/SwiftVulkanRenderer/Mesh/Mesh+icosahedron.swift:97-110 | n faces with their normals give 3n vertices |
| Icosahedra.WithFaceNormals | Sources/SwiftVulkanRenderer/Mesh/Mesh+icosahedron.swift:97-110 | the face loop keeps the vertex count |
| Icosahedra.SetFaceNormals | Sources/SwiftVulkanRenderer/Mesh/Mesh+icosahedron.swift:95-110 | the in-place loop leaves the first n faces with their face normals and the rest unchanged |
| Icosahedra.FaceStep | Sources/SwiftVulkanRenderer/Mesh/Mesh+icosahedron.swift:98-109 | at step f the face's vertices are still the originals, and writing them back with the normal advances the loop by one face |
| Icosahedra.NormalFacesAt | Sources/SwiftVulkanRenderer/Mesh/Mesh+icosahedron.swift:97-110 | face f of the result is face f of the input with its normal set |
| Icosahedra.FaceGetsNormal | Sources/SwiftVulkanRenderer/Mesh/Mesh+icosahedron.swift:101-109 | all three vertices of a face get the normal (p2 − p1) × (p3 − p1), and their positions are unchanged |
| Icosahedra.RestUntouched | Sources/SwiftVulkanRenderer/Mesh/Mesh+icosahedron.swift:95-110 | slots past the first n faces are left as they were |
| Icosahedra.Icosahedron | Sources/SwiftVulkanRenderer/Mesh/Mesh+icosahedron.swift:6-113 | `icosahedron` returns the table after the face loop with the indices `0..<60` |
| Icosahedra.IcosahedronCounts | Sources/SwiftVulkanRenderer/Mesh/Mesh+icosahedron.swift:11-93 | 60 vertices, drawn in order by the indices `0..<60` |
| Icosahedra.IcosahedronFaces | Sources/SwiftVulkanRenderer/Mesh/Mesh+icosahedron.swift:11-110 | vertex 3f + c keeps the table's position, which lies on the enclosing sphere, and has face f's normal |
| VulkanHelpers.ApiVersionRoundTrip | Sources/SwiftVulkanRenderer/Vulkan/VulkanHelpers.swift:3-5 | for variant < 2³, major < 2⁷, minor < 2¹⁰ and patch < 2¹², each field is recovered by its shift and mask |
| VulkanHelpers.ApiVersionFieldsRoundTrip | Sources/SwiftVulkanRenderer/Vulkan/VulkanHelpers.swift:3-5 | every 32-bit version is the packing of its four decoded fields, which fit their ranges |
| VulkanHelpers.ApiVersionValue | Sources/SwiftVulkanRenderer/Vulkan/VulkanHelpers.swift:3-5 | with fitting fields the bitwise or is the sum variant·2²⁹ + major·2²² + minor·2¹² + patch |
| VulkanHelpers.ApiVersionOverflow | Sources/SwiftVulkanRenderer/Vulkan/VulkanHelpers.swift:3-5 | an oversized field spills: major 128 packs like variant 1, and variant 8 is shifted out entirely |
| VulkanHelpers.FirstSuitableIsLeast | Sources/SwiftVulkanRenderer/Vulkan/VulkanHelpers.swift:17-23 | the search finds the least index whose filter bit is set and whose flags include the properties, and finds none only when no index qualifies |
| VulkanHelpers.FindMemoryType | Sources/SwiftVulkanRenderer/Vulkan/VulkanHelpers.swift:7-26 | the loop returns the first suitable memory type, and fails (the `fatalError`) exactly when none qualifies |
| VulkanHelpers.HasPropertiesExtra | Sources/SwiftVulkanRenderer/Vulkan/VulkanHelpers.swift:20 | extra flags on a memory type never disqualify it |
| Deferreds.Deferred.constructor | Sources/SwiftVulkanRenderer/Deferred.swift:14 | a fresh wrapper holds `nil` |
| Deferreds.Deferred.WrappedValue | Sources/SwiftVulkanRenderer/Deferred.swift:6 | the read succeeds exactly when a value is stored, and returns it; otherwise it traps |
| Deferreds.Deferred.SetWrappedValue | Sources/SwiftVulkanRenderer/Deferred.swift:7 | after a set, the stored value and the read are the new value |
| Deferreds.Deferred.ProjectedValue | Sources/SwiftVulkanRenderer/Deferred.swift:10-12 | the projected value is the wrapper object itself, so it reaches the same stored value |
| Deferreds.ReadAfterWrites | Sources/SwiftVulkanRenderer/Deferred.swift:1-16 | a read before any set traps; after two sets, a read through the projected value returns the last value set |
| BufferPointers.AsUnsafeMutableBufferPointer | Sources/SwiftVulkanRenderer/Helpers/Array+asUnsafeMutableBufferPointer.swift:4-8 | the result is freshly allocated, has the array's count, and holds element i of the array at i |

## Left out

- Vulkan calls are not modelled. This covers device, buffer, image, view,
  command-buffer, submit and wait calls. They appear only as entries of a
  call, command or queue log. The handles and the memory requirement sizes
  they return are parameters.
- `findMemoryType` reads the device's memory-type table through a foreign
  call. The table is a parameter of 32 property-flag words plus the count.
- Float arithmetic is not modelled. In the layout engine floats are opaque
  bit patterns. Mesh positions are exact reals, so rounding is not captured.
- Several mesh inputs are parameters, because they come from float
  functions:
  - the cylinder's `cos`/`sin` base positions;
  - the icosahedron's `b = 1 / (2φ)`, which needs `sqrt`;
  - `normalized()`.
- `ManagedGPUBuffer.getData` is left out, because it reinterprets raw
  memory as an arbitrary type.
- `Mesh.loadObj` wraps a foreign parser and is left out.
- The `manager` back-pointer of `ManagedGPUMemory` is never read, and is
  left out.
- `memory.map()` and `memory.dataPointer` are not declared by
  `ManagedGPUMemory`. The model adds the mapping state and a host view of
  the block.
- `S.serializedStride` is not declared by `BufferSerializable`. It is a
  parameter of the array store.
- Material subclasses are a closed kind, with three cases: Lambertian,
  Dielectric and any other kind, which traps.
- The hash of `Material` and `Mesh` is object identity. Dafny compares class
  references the same way, so no separate hash is modelled.
- `MaterialDrawInfo` declares one field, yet the registry builds it with
  three (type, texture index, refractive index). The registry's record is
  modelled as two `UInt32`s and a `Float`, in that order.
- `ManagedGPUBuffer` never checks bounds. Its stores require that the bytes
  fit the buffer, so an overrun is not modelled.
- Multiplications of `UInt32` indices in the mesh generators are not checked
  for wrap-around. The generators require their counts to fit `UInt32`
  instead.
- VulkanHelpers.HasPropertiesExtra: states only that extra flags never
  disqualify a type. It does not state the full superset characterisation
  of the `&` test.
- Cylinders.Cylinder: requires `6d + 1 < 2³²` so that the `UInt32(...)` conversions of the indices cannot trap; that trap is not modelled.
- The mesh generators' `material:` argument is dropped: `Mesh` has no material field and `Mesh.init` takes none, so the generators never store it.
- Meshes.Mesh.FlatVertices: requires every index to be below the vertex count; an out-of-range index traps in Swift, and that trap is not modelled.
- Spheres.Sphere: requires `60 × 4ⁿ < 2³²`, the `UInt32(vertices.count)`
  conversion.
- Deferreds.Deferred.ProjectedValue: the projection is the wrapper itself, so
  `value` can be read through it without trapping. Swift's `$name` syntax is
  not modelled.
- The scene manager, renderers, camera, fences and semaphores are left out,
  because they are Vulkan plumbing and application code.
