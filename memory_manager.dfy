/**
 * The memory manager of Sources/SwiftVulkanRenderer/Data/MemoryManager.swift:
 * one device-memory block allocated up front, from which buffers and images
 * take consecutive ranges. The driver calls it makes are recorded in
 * `deviceCalls`; the handles and memory requirements the driver would report
 * are parameters.
 */
module DataMemory {
  import opened Common
  import opened GpuMemory
  import opened VulkanTypes
  import opened GpuResources

  /** The default `minAllocSize`: 10 MiB. */
  const DEFAULT_MIN_ALLOC_SIZE: nat := 10 * 1024 * 1024

  class MemoryManager {
    const memoryTypeIndex: uint32
    const minAllocSize: nat
    const memory: ManagedGPUMemory
    var deviceCalls: seq<DeviceCall>

    /** The block is as large as `minAllocSize` and its used ranges are packed. */
    predicate Valid()
      reads this, memory
    {
      && memory.Valid()
      && memory.size == minAllocSize
      && Packed(memory.usedRanges, memory.size)
    }

    /**
     * `init` with `allocateManagedMemory`: one `vkAllocateMemory` of
     * `minAllocSize` bytes from the given memory type, which yields the
     * handle `deviceMemory`; no range is used yet.
     */
    constructor(memoryTypeIndex: uint32, deviceMemory: Handle, minAllocSize: nat := DEFAULT_MIN_ALLOC_SIZE)
      ensures Valid() && fresh(memory) && fresh(memory.contents)
      ensures this.memoryTypeIndex == memoryTypeIndex && this.minAllocSize == minAllocSize
      ensures memory.memory == deviceMemory && memory.size == minAllocSize && memory.usedRanges == []
      ensures !memory.mapped
      ensures deviceCalls == [AllocateMemory(minAllocSize, memoryTypeIndex)]
    {
      this.memoryTypeIndex := memoryTypeIndex;
      this.minAllocSize := minAllocSize;
      deviceCalls := [AllocateMemory(minAllocSize, memoryTypeIndex)];
      memory := new ManagedGPUMemory(deviceMemory, minAllocSize);
    }

    /**
     * `allocateMemoryRange(size:)`: the bump allocation. A granted range is
     * appended to the used ranges; a refused one changes nothing.
     */
    method AllocateMemoryRange(request: nat) returns (r: Result<ByteRange, AllocError>)
      requires Valid()
      modifies memory`usedRanges
      ensures Valid()
      ensures r == AllocateRange(old(memory.usedRanges), memory.size, request)
      ensures r.Success? ==> memory.usedRanges == old(memory.usedRanges) + [r.value]
      ensures r.Failure? ==> memory.usedRanges == old(memory.usedRanges)
    {
      var ranges := memory.usedRanges;
      var memoryOffset := if |ranges| == 0 then 0 else ranges[|ranges| - 1].upper;
      var memoryEnd := memoryOffset + request;
      if memoryEnd >= UINT64_LIMIT || memoryEnd > INT_MAX {
        return Failure(ArithmeticTrap);
      }
      if !(memoryEnd < memory.size) {
        return Failure(MemoryCapacityExceeded);
      }
      var range := ByteRange(memoryOffset, memoryEnd);
      AllocateKeepsPacked(ranges, memory.size, request);
      memory.usedRanges := ranges + [range];
      return Success(range);
    }

    /**
     * `getBuffer(size:usage:)`: creates a buffer of `size` bytes (the driver
     * calls it `buffer` and asks for `requirementSize` bytes), takes a range
     * of the requirement size and binds the buffer at its start. A negative
     * `size` traps in the `VkDeviceSize` conversion before anything happens;
     * a refused range leaves the buffer created but unbound.
     */
    method GetBuffer(size: int, usage: Flags, buffer: Handle, requirementSize: nat) returns (r: Result<ManagedGPUBuffer, AllocError>)
      requires Valid()
      modifies this`deviceCalls, memory`usedRanges
      ensures Valid()
      ensures size < 0 ==> r == Failure(ArithmeticTrap) && deviceCalls == old(deviceCalls)
      ensures size < 0 || AllocateRange(old(memory.usedRanges), memory.size, requirementSize).Failure? ==>
                memory.usedRanges == old(memory.usedRanges)
      ensures size >= 0 ==>
                var a := AllocateRange(old(memory.usedRanges), memory.size, requirementSize);
                && r.Success? == a.Success?
                && (a.Failure? ==> r == Failure(a.error) && deviceCalls == old(deviceCalls) + [CreateBuffer(size, usage)])
                && (a.Success? ==>
                      && fresh(r.value) && r.value.Valid()
                      && r.value.memory == memory && r.value.buffer == buffer && r.value.range == a.value
                      && memory.usedRanges == old(memory.usedRanges) + [a.value]
                      && deviceCalls == old(deviceCalls) + [CreateBuffer(size, usage), BindBufferMemory(buffer, a.value.lower)])
    {
      if size < 0 {
        return Failure(ArithmeticTrap);
      }
      deviceCalls := deviceCalls + [CreateBuffer(size, usage)];
      var memoryRange := AllocateMemoryRange(requirementSize);
      if memoryRange.Failure? {
        return Failure(memoryRange.error);
      }
      deviceCalls := deviceCalls + [BindBufferMemory(buffer, memoryRange.value.lower)];
      var managed := new ManagedGPUBuffer(memory, buffer, memoryRange.value);
      return Success(managed);
    }

    /**
     * `getImage(width:height:format:tiling:usage:)` with `createImage` and
     * `createImageView`: the image is always created as an sRGB RGBA8 image
     * with optimal tiling, usable as a transfer destination and for sampling,
     * whatever `tiling` and `usage` ask for; it takes a range of the
     * requirement size and is bound at its start, and its view uses the
     * caller's `format`. The driver names the image `image` and the view
     * `imageView`.
     */
    method GetImage(width: uint32, height: uint32, format: nat, tiling: nat, usage: Flags,
                    image: Handle, imageView: Handle, requirementSize: nat) returns (r: Result<ManagedGPUImage, AllocError>)
      requires Valid()
      modifies this`deviceCalls, memory`usedRanges
      ensures Valid()
      ensures var a := AllocateRange(old(memory.usedRanges), memory.size, requirementSize);
              var created := CreateImage(ImageCreateInfo(width, height, VK_FORMAT_R8G8B8A8_SRGB, VK_IMAGE_TILING_OPTIMAL,
                                                         VK_IMAGE_USAGE_TRANSFER_DST_BIT | VK_IMAGE_USAGE_SAMPLED_BIT));
              && (a.Failure? ==>
                    && r == Failure(a.error)
                    && memory.usedRanges == old(memory.usedRanges)
                    && deviceCalls == old(deviceCalls) + [created])
              && (a.Success? ==>
                    && r == Success(ManagedGPUImage(memory, a.value, image, imageView))
                    && memory.usedRanges == old(memory.usedRanges) + [a.value]
                    && deviceCalls == old(deviceCalls) + [created, BindImageMemory(image, a.value.lower), CreateImageView(image, format)])
    {
      var info := ImageCreateInfo(width, height, VK_FORMAT_R8G8B8A8_SRGB, VK_IMAGE_TILING_OPTIMAL,
                                  VK_IMAGE_USAGE_TRANSFER_DST_BIT | VK_IMAGE_USAGE_SAMPLED_BIT);
      deviceCalls := deviceCalls + [CreateImage(info)];
      var memoryRange := AllocateMemoryRange(requirementSize);
      if memoryRange.Failure? {
        return Failure(memoryRange.error);
      }
      deviceCalls := deviceCalls + [BindImageMemory(image, memoryRange.value.lower)];
      deviceCalls := deviceCalls + [CreateImageView(image, format)];
      return Success(ManagedGPUImage(memory, memoryRange.value, image, imageView));
    }
  }
}
