/**
 * `ManagedGPUBuffer` (Sources/SwiftVulkanRenderer/Data/ManagedGPUBuffer.swift):
 * a range of a memory block, written from the host through the block's
 * lazily mapped pointer, and `ManagedGPUImage`, an image bound to a range.
 * The stores perform no bounds checks; the model states the bytes they
 * write as a precondition instead.
 */
module GpuResources {
  import opened Common
  import opened Layout
  import opened GpuMemory
  import opened VulkanTypes

  /** `ManagedGPUImage`: an image and its view, bound to `memoryRange` of `memory`. */
  datatype ManagedGPUImage = ManagedGPUImage(memory: ManagedGPUMemory, memoryRange: ByteRange, image: Handle, imageView: Handle)

  /** A `Swim.Image<RGBA, UInt8>`: four bytes per pixel, row after row. */
  datatype RgbaImage = RgbaImage(width: nat, height: nat, pixels: seq<byte>)

  /** The reason a call stops the program. */
  datatype Trap = Trap(message: string)

  // ------------------------------------------------------------------ products without the solver's nonlinear arithmetic

  lemma {:induction false} MulStep(k: nat, s: nat)
    ensures (k + 1) * s == k * s + s
  {
  }

  lemma {:induction false} MulMonotone(a: nat, b: nat, s: nat)
    requires a <= b
    ensures a * s <= b * s
    decreases b - a
  {
    if a < b {
      MulMonotone(a, b - 1, s);
      MulStep(b - 1, s);
    }
  }

  // ------------------------------------------------------------------ array stores

  /** The stride of an array `store`: `toMultipleOf16(S.serializedStride)`, or `S.serializedSize` when packed. */
  function ArrayStride(elementType: LayoutType, serializedStride: nat, strideMultiple16: bool): nat {
    if strideMultiple16 then
      ToMultipleOf16Bounds(serializedStride);
      ToMultipleOf16(serializedStride)
    else Size(elementType)
  }

  /**
   * A rounded stride is a multiple of 16 no smaller than the declared one;
   * either stride leaves room for a whole element when the declared stride does.
   */
  lemma {:induction false} ArrayStrideBounds(elementType: LayoutType, serializedStride: nat, strideMultiple16: bool)
    ensures strideMultiple16 ==> ArrayStride(elementType, serializedStride, strideMultiple16) % 16 == 0
    ensures strideMultiple16 ==> serializedStride <= ArrayStride(elementType, serializedStride, strideMultiple16) < serializedStride + 16
    ensures !strideMultiple16 ==> ArrayStride(elementType, serializedStride, strideMultiple16) == Size(elementType)
    ensures (strideMultiple16 ==> Size(elementType) <= serializedStride) ==>
              Size(elementType) <= ArrayStride(elementType, serializedStride, strideMultiple16)
  {
    ToMultipleOf16Bounds(serializedStride);
  }

  /** Element `i` of an `n`-element array written from `base` ends inside `limit` bytes. */
  predicate ArrayFits(base: nat, n: nat, stride: nat, elementSize: nat, limit: int) {
    n == 0 || base + Times(n - 1, stride) + elementSize <= limit
  }

  /** The image of each element of an array. */
  ghost function Images(data: seq<Value>): (imgs: seq<seq<Option<byte>>>)
    requires forall j :: 0 <= j < |data| ==> WellFormed(data[j])
    ensures |imgs| == |data|
  {
    if data == [] then [] else [Image(data[0])] + Images(data[1..])
  }

  lemma {:induction false} ImagesAt(data: seq<Value>, j: nat)
    requires forall k :: 0 <= k < |data| ==> WellFormed(data[k])
    requires j < |data|
    ensures Images(data)[j] == Image(data[j])
  {
    if j > 0 {
      ImagesAt(data[1..], j - 1);
    }
  }

  /**
   * The bytes after the first `n` images are written, in order, image `i`
   * at `base + i * stride` (`Times(i, stride)`, see `TimesIsProduct`).
   */
  ghost function StoredImages(buf: seq<byte>, base: nat, imgs: seq<seq<Option<byte>>>, stride: nat, n: nat): (r: seq<byte>)
    requires n <= |imgs|
    ensures |r| == |buf|
  {
    if n == 0 then buf
    else Overlay(StoredImages(buf, base, imgs, stride, n - 1), base + Times(n - 1, stride), imgs[n - 1])
  }

  /** One more image written at its slot. */
  lemma {:induction false} StoredImagesStep(buf: seq<byte>, base: nat, imgs: seq<seq<Option<byte>>>, stride: nat, n: nat,
                                            before: seq<byte>, at: nat, after: seq<byte>)
    requires n < |imgs| && before == StoredImages(buf, base, imgs, stride, n)
    requires at == base + Times(n, stride) && after == Overlay(before, at, imgs[n])
    ensures after == StoredImages(buf, base, imgs, stride, n + 1)
  {
  }

  /**
   * When the stride leaves room for a whole image, every image of an array
   * store is still in place once the later ones are written.
   */
  lemma {:induction false} StoredImagesHold(buf: seq<byte>, base: nat, imgs: seq<seq<Option<byte>>>, size: nat, stride: nat, n: nat, i: nat)
    requires forall j :: 0 <= j < |imgs| ==> |imgs[j]| == size
    requires size <= stride && i < n <= |imgs| && ArrayFits(base, n, stride, size, |buf|)
    ensures Holds(StoredImages(buf, base, imgs, stride, n), base + Times(i, stride), imgs[i])
  {
    var before := StoredImages(buf, base, imgs, stride, n - 1);
    var at, lastAt := base + Times(i, stride), base + Times(n - 1, stride);
    SlotBounds(base, stride, size, i, n, |buf|);
    if i == n - 1 {
      OverlayHolds(before, at, imgs[i]);
    } else {
      StoredImagesHold(buf, base, imgs, size, stride, n - 1, i);
      OverlayElsewhere(before, at, imgs[i], lastAt, imgs[n - 1]);
    }
  }

  /** Slot `i` of an array that fits ends inside the limit, and before the last slot starts. */
  lemma {:induction false} SlotBounds(base: nat, stride: nat, size: nat, i: nat, n: nat, limit: int)
    requires size <= stride && i < n && ArrayFits(base, n, stride, size, limit)
    ensures base + Times(i, stride) + size <= limit
    ensures i < n - 1 ==> base + Times(i, stride) + size <= base + Times(n - 1, stride)
  {
    TimesCountMonotone(i, n - 1, stride);
    if i < n - 1 {
      TimesCountMonotone(i + 1, n - 1, stride);
    }
  }

  /**
   * Element `index` of an array that fits: its image is the `index`-th, and
   * the offset the loop computes (a product) is its slot, which ends inside `limit`.
   */
  lemma {:induction false} ElementSlot(data: seq<Value>, t: LayoutType, stride: nat, offset: nat, index: nat, limit: int)
    requires forall j :: 0 <= j < |data| ==> WellFormed(data[j]) && TypeOf(data[j]) == t
    requires index < |data| && ArrayFits(offset, |data|, stride, Size(t), limit)
    ensures WellFormed(data[index]) && Images(data)[index] == Image(data[index])
    ensures index * stride == Times(index, stride)
    ensures offset + index * stride + Size(TypeOf(data[index])) <= limit
  {
    ImagesAt(data, index);
    TimesIsProduct(index, stride);
    TimesCountMonotone(index, |data| - 1, stride);
  }

  lemma {:induction false} TimesCountMonotone(a: nat, b: nat, s: nat)
    requires a <= b
    ensures Times(a, s) <= Times(b, s)
    decreases b - a
  {
    if a < b {
      TimesCountMonotone(a, b - 1, s);
    }
  }

  /**
   * Round trip of an array store: with a stride at least the element size,
   * a reader of the element type finds element `i` at `base + i * stride`.
   */
  lemma {:induction false} StoreArrayRoundTrip(buf: seq<byte>, base: nat, data: seq<Value>, t: LayoutType, stride: nat, i: nat)
    requires forall j :: 0 <= j < |data| ==> WellFormed(data[j]) && TypeOf(data[j]) == t
    requires Size(t) <= stride && i < |data| && ArrayFits(base, |data|, stride, Size(t), |buf|)
    ensures base + Times(i, stride) + Size(t) <= |buf|
    ensures Decode(t, StoredImages(buf, base, Images(data), stride, |data|), base + Times(i, stride)) == data[i]
  {
    var imgs := Images(data);
    ImagesLength(data, t);
    SlotBounds(base, stride, Size(t), i, |data|, |buf|);
    StoredImagesHold(buf, base, imgs, Size(t), stride, |data|, i);
    ImagesAt(data, i);
    ReadBack(data[i], t, StoredImages(buf, base, imgs, stride, |data|), base + Times(i, stride));
  }

  /** Every element's image is as long as the element type's size. */
  lemma {:induction false} ImagesLength(data: seq<Value>, t: LayoutType)
    requires forall j :: 0 <= j < |data| ==> WellFormed(data[j]) && TypeOf(data[j]) == t
    ensures forall j :: 0 <= j < |data| ==> |Images(data)[j]| == Size(t)
  {
    forall j | 0 <= j < |data| ensures |Images(data)[j]| == Size(t) {
      ImagesAt(data, j);
      ImageLength(data[j]);
    }
  }

  /** `DecodeReadsImage` for a reader that knows the type. */
  lemma {:induction false} ReadBack(v: Value, t: LayoutType, buf: seq<byte>, at: nat)
    requires WellFormed(v) && TypeOf(v) == t && at + Size(t) <= |buf| && Holds(buf, at, Image(v))
    ensures Decode(t, buf, at) == v
  {
    DecodeReadsImage(v, buf, at);
  }

  // ------------------------------------------------------------------ C structs

  /**
   * The storage of a Swift array of C structs: each element occupies
   * `MemoryLayout<T>.stride` bytes, its `MemoryLayout<T>.size` bytes of data
   * followed by the padding up to the stride. An element here is its whole
   * slot, padding included.
   */
  function Flatten(elements: seq<seq<byte>>): seq<byte> {
    if elements == [] then [] else Flatten(elements[..|elements| - 1]) + elements[|elements| - 1]
  }

  /** The storage is `count * stride` bytes long, and element `i` occupies bytes `i * stride ..< (i + 1) * stride`. */
  lemma {:induction false} FlattenLayout(elements: seq<seq<byte>>, elementStride: nat, i: nat)
    requires forall j :: 0 <= j < |elements| ==> |elements[j]| == elementStride
    ensures |Flatten(elements)| == |elements| * elementStride
    ensures i < |elements| ==> Flatten(elements)[i * elementStride..(i + 1) * elementStride] == elements[i]
  {
    if elements != [] {
      var n := |elements|;
      var prefix := elements[..n - 1];
      FlattenLayout(prefix, elementStride, i);
      MulStep(n - 1, elementStride);
      if i < n - 1 {
        MulMonotone(i + 1, n - 1, elementStride);
        MulStep(i, elementStride);
        ConcatLeft(Flatten(prefix), elements[n - 1], i * elementStride, (i + 1) * elementStride);
      } else if i == n - 1 {
        MulStep(i, elementStride);
        ConcatRight(Flatten(prefix), elements[n - 1], i * elementStride, (i + 1) * elementStride);
      }
    }
  }

  /** The slots of an array of C structs: each is `stride` bytes, of which the first `size` are the data. */
  predicate StructSlots(elements: seq<seq<byte>>, elementSize: nat, elementStride: nat) {
    elementSize <= elementStride && forall j :: 0 <= j < |elements| ==> |elements[j]| == elementStride
  }

  /**
   * What `storeAlignedCStructs` copies: `count * MemoryLayout<T>.size` bytes
   * read from the start of the array's storage, whose elements lie
   * `MemoryLayout<T>.stride` apart.
   */
  function CopiedBytes(elements: seq<seq<byte>>, elementSize: nat, elementStride: nat): (bytes: seq<byte>)
    requires StructSlots(elements, elementSize, elementStride)
    ensures |bytes| == |elements| * elementSize
  {
    FlattenLayout(elements, elementStride, 0);
    ScaleMonotone(|elements|, elementSize, elementStride);
    Flatten(elements)[..|elements| * elementSize]
  }

  /**
   * Element `i`'s data is among the copied bytes, at `i * stride`, exactly
   * when its slot starts early enough: its `size` data bytes end within
   * `count * size`.
   */
  lemma {:induction false} CopiedElement(elements: seq<seq<byte>>, elementSize: nat, elementStride: nat, i: nat)
    requires StructSlots(elements, elementSize, elementStride) && i < |elements|
    requires i * elementStride + elementSize <= |elements| * elementSize
    ensures CopiedBytes(elements, elementSize, elementStride)[i * elementStride..i * elementStride + elementSize]
            == elements[i][..elementSize]
  {
    var n, all := |elements|, Flatten(elements);
    var at, next, total := i * elementStride, (i + 1) * elementStride, n * elementSize;
    FlattenLayout(elements, elementStride, i);
    MulStep(i, elementStride);
    ScaleMonotone(n, elementSize, elementStride);
    assert all[at..next] == elements[i] && |all| == n * elementStride;
    PrefixWindow(all, total, at, elementSize, next);
  }

  /** `n * a <= n * b` for `a <= b`. */
  lemma {:induction false} ScaleMonotone(n: nat, a: nat, b: nat)
    requires a <= b
    ensures n * a <= n * b
  {
    MulMonotone(a, b, n);
    assert a * n == n * a && b * n == n * b;
  }

  /** A window of a prefix, read as the start of a slice that begins where the window does. */
  lemma {:induction false} PrefixWindow(all: seq<byte>, total: nat, at: nat, len: nat, next: nat)
    requires at + len <= total <= |all| && at + len <= next <= |all|
    ensures all[..total][at..at + len] == all[at..next][..len]
  {
    assert forall k :: 0 <= k < len ==> all[..total][at..at + len][k] == all[at + k] == all[at..next][..len][k];
  }

  /**
   * When the stride equals the size (no padding, as for the C types the
   * method is meant for), the whole storage is copied and every element
   * arrives whole, element `i` at `i * size`.
   */
  lemma {:induction false} CopiedWhenPacked(elements: seq<seq<byte>>, elementSize: nat, i: nat)
    requires StructSlots(elements, elementSize, elementSize)
    ensures CopiedBytes(elements, elementSize, elementSize) == Flatten(elements)
    ensures i < |elements| ==>
              CopiedBytes(elements, elementSize, elementSize)[i * elementSize..(i + 1) * elementSize] == elements[i]
  {
    FlattenLayout(elements, elementSize, i);
    assert Flatten(elements)[..|elements| * elementSize] == Flatten(elements);
  }

  /**
   * With padding, the copy falls short of the storage: for two 8-byte slots
   * holding 5 data bytes each, the copied 10 bytes are the first slot whole,
   * padding included, and only the first 2 bytes of the second.
   */
  lemma {:induction false} CopiedWithPadding(first: seq<byte>, second: seq<byte>)
    requires |first| == 8 && |second| == 8
    ensures CopiedBytes([first, second], 5, 8) == first + second[..2]
  {
    var elements := [first, second];
    assert [first][..0] == [];
    assert Flatten([first]) == first;
    assert elements[..1] == [first];
    assert Flatten(elements) == first + second;
    assert (first + second)[..10] == first + second[..2];
  }

  // ------------------------------------------------------------------ the buffer

  class ManagedGPUBuffer {
    const memory: ManagedGPUMemory
    var buffer: Handle
    var range: ByteRange

    /** The range lies inside the block's host view. */
    predicate Valid()
      reads this
    {
      range.lower <= range.upper <= memory.size && memory.Valid()
    }

    /** `size`: the number of bytes of the range. */
    function Size(): int
      reads this
    {
      range.Count()
    }

    constructor(memory: ManagedGPUMemory, buffer: Handle, range: ByteRange)
      requires memory.Valid() && range.lower <= range.upper <= memory.size
      ensures Valid()
      ensures this.memory == memory && this.buffer == buffer && this.range == range
    {
      this.memory := memory;
      this.buffer := buffer;
      this.range := range;
    }

    /**
     * `dataPointer`: maps the block the first time it is needed, and only
     * then, and points at the start of the range.
     */
    method DataPointer() returns (p: nat)
      modifies memory`mapped, memory`mapCalls
      ensures p == range.lower && memory.mapped
      ensures memory.mapCalls == if old(memory.mapped) then old(memory.mapCalls) else old(memory.mapCalls) + 1
    {
      if !memory.mapped {
        memory.Map();
      }
      p := range.lower;
    }

    /**
     * `storeAlignedCStructs(_:offset:)`: `count * size` bytes copied to
     * `offset` from the start of the array's storage, whose elements lie
     * `stride` apart (see `CopiedElement`, `CopiedWhenPacked`).
     */
    method StoreAlignedCStructs(data: seq<seq<byte>>, elementSize: nat, elementStride: nat, offset: nat := 0)
      requires Valid() && StructSlots(data, elementSize, elementStride)
      requires offset + |data| * elementSize <= Size()
      modifies memory`mapped, memory`mapCalls, memory.contents
      ensures memory.mapped
      ensures memory.contents[..] ==
                Overlay(old(memory.contents[..]), range.lower + offset, Written(CopiedBytes(data, elementSize, elementStride)))
    {
      var p := DataPointer();
      StoreBytes(memory.contents, p + offset, CopiedBytes(data, elementSize, elementStride));
    }

    /** `store(_: Data, offset:)`: stops at `fatalError("untested")` before touching anything. */
    method StoreData(data: seq<byte>, offset: nat := 0) returns (trap: Trap)
      ensures trap == Trap("untested")
    {
      trap := Trap("untested");
    }

    /** `store(_: S, offset:)`: the value is serialized at `offset` of the buffer. */
    method Store(v: Value, offset: nat := 0)
      requires Valid() && WellFormed(v) && offset + Layout.Size(TypeOf(v)) <= Size()
      modifies memory`mapped, memory`mapCalls, memory.contents
      ensures memory.mapped
      ensures memory.contents[..] == Overlay(old(memory.contents[..]), range.lower + offset, Image(v))
    {
      var p := DataPointer();
      Serialize(v, memory.contents, p + offset);
    }

    /**
     * `store(_: [S], offset:, strideMultiple16:)`: element `i` is serialized
     * at `offset + i * stride`, in order; all elements have the type `t`
     * whose declared stride is `serializedStride`.
     */
    method StoreArray(data: seq<Value>, t: LayoutType, serializedStride: nat, offset: nat := 0, strideMultiple16: bool := true)
      requires Valid() && forall j :: 0 <= j < |data| ==> WellFormed(data[j]) && TypeOf(data[j]) == t
      requires ArrayFits(offset, |data|, ArrayStride(t, serializedStride, strideMultiple16), Layout.Size(t), Size())
      modifies memory`mapped, memory`mapCalls, memory.contents
      ensures |data| > 0 ==> memory.mapped
      ensures memory.contents[..] ==
        StoredImages(old(memory.contents[..]), range.lower + offset, Images(data), ArrayStride(t, serializedStride, strideMultiple16), |data|)
    {
      StoreElements(data, t, ArrayStride(t, serializedStride, strideMultiple16), offset);
    }

    /** The loop of an array `store`: element `index` is serialized at `offset + index * stride`. */
    method StoreElements(data: seq<Value>, t: LayoutType, stride: nat, offset: nat)
      requires Valid() && forall j :: 0 <= j < |data| ==> WellFormed(data[j]) && TypeOf(data[j]) == t
      requires ArrayFits(offset, |data|, stride, Layout.Size(t), Size())
      modifies memory`mapped, memory`mapCalls, memory.contents
      ensures |data| > 0 ==> memory.mapped
      ensures memory.contents[..] == StoredImages(old(memory.contents[..]), range.lower + offset, Images(data), stride, |data|)
    {
      ghost var initial, base := memory.contents[..], range.lower + offset;
      ghost var imgs := Images(data);
      for index := 0 to |data|
        invariant memory.contents[..] == StoredImages(initial, base, imgs, stride, index)
        invariant index > 0 ==> memory.mapped
      {
        ghost var before := memory.contents[..];
        ElementSlot(data, t, stride, offset, index, Size());
        Store(data[index], offset + index * stride);
        StoredImagesStep(initial, base, imgs, stride, index, before, base + index * stride, memory.contents[..]);
      }
    }

    /** `store(_: Image)`: the image's `width * height * 4` bytes, copied to the start of the buffer. */
    method StoreImage(image: RgbaImage)
      requires Valid() && |image.pixels| == image.width * image.height * 4 <= Size()
      modifies memory`mapped, memory`mapCalls, memory.contents
      ensures memory.mapped
      ensures memory.contents[..] == Overlay(old(memory.contents[..]), range.lower, Written(image.pixels))
    {
      var p := DataPointer();
      StoreBytes(memory.contents, p, image.pixels);
    }

    /** `copy(from:srcRange:dstOffset:commandBuffer:)`: records one copy region into this buffer. */
    method Copy(src: ManagedGPUBuffer, srcRange: ByteRange, dstOffset: nat, commandBuffer: CommandBuffer)
      requires srcRange.lower <= srcRange.upper
      modifies commandBuffer
      ensures commandBuffer.commands ==
        old(commandBuffer.commands) + [CopyBuffer(src.buffer, buffer, [BufferCopy(srcRange.lower, dstOffset, srcRange.Count())])]
    {
      commandBuffer.Record(CopyBuffer(src.buffer, buffer, [BufferCopy(srcRange.lower, dstOffset, srcRange.upper - srcRange.lower)]));
    }

    /** `copy(image:extent:commandBuffer:)`: records a copy of the whole image into the start of this buffer. */
    method CopyImage(image: ManagedGPUImage, width: uint32, height: uint32, commandBuffer: CommandBuffer)
      modifies commandBuffer
      ensures commandBuffer.commands ==
        old(commandBuffer.commands) + [CopyImageToBuffer(image.image, VK_IMAGE_LAYOUT_TRANSFER_SRC_OPTIMAL, buffer, width, height)]
    {
      commandBuffer.Record(CopyImageToBuffer(image.image, VK_IMAGE_LAYOUT_TRANSFER_SRC_OPTIMAL, buffer, width, height));
    }
  }
}
