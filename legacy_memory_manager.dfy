/**
 * The older memory manager of
 * Sources/SwiftVulkanRenderer/Renderer/MemoryManager.swift: a fixed 10 MiB
 * block, from which only buffers are taken, with the bump allocation written
 * out inside `getBuffer`. It grants and refuses exactly the ranges the newer
 * manager's `allocateMemoryRange` does (`AllocateRange`).
 */
module RendererMemory {
  import opened Common
  import opened GpuMemory
  import opened VulkanTypes
  import opened GpuResources

  /** The block size `allocateMemory` asks for: 10 MiB. */
  const BLOCK_SIZE: nat := 10 * 1024 * 1024

  class MemoryManager {
    const memoryTypeIndex: uint32
    const memory: ManagedGPUMemory
    var deviceCalls: seq<DeviceCall>

    /** The block is 10 MiB and its used ranges are packed. */
    predicate Valid()
      reads this, memory
    {
      && memory.Valid()
      && memory.size == BLOCK_SIZE
      && Packed(memory.usedRanges, memory.size)
    }

    /** `init` with `allocateMemory`: one `vkAllocateMemory` of 10 MiB, which yields `deviceMemory`. */
    constructor(memoryTypeIndex: uint32, deviceMemory: Handle)
      ensures Valid() && fresh(memory) && fresh(memory.contents)
      ensures this.memoryTypeIndex == memoryTypeIndex
      ensures memory.memory == deviceMemory && memory.usedRanges == [] && !memory.mapped
      ensures deviceCalls == [AllocateMemory(BLOCK_SIZE, memoryTypeIndex)]
    {
      this.memoryTypeIndex := memoryTypeIndex;
      deviceCalls := [AllocateMemory(BLOCK_SIZE, memoryTypeIndex)];
      memory := new ManagedGPUMemory(deviceMemory, BLOCK_SIZE);
    }

    /**
     * `getBuffer(size:usage:)`: creates the buffer (a negative `size` traps
     * first), computes the next range inline and, when it ends below the
     * block size, binds the buffer at its start, records the range and
     * returns a buffer over it. A refused range binds and records nothing.
     */
    method GetBuffer(size: int, usage: Flags, buffer: Handle, requirementSize: nat) returns (r: Result<ManagedGPUBuffer, AllocError>)
      requires Valid()
      modifies this`deviceCalls, memory`usedRanges
      ensures Valid()
      ensures size < 0 ==> r == Failure(ArithmeticTrap) && deviceCalls == old(deviceCalls)
      ensures size < 0 || AllocateRange(old(memory.usedRanges), memory.size, requirementSize).Failure? ==>
                memory.usedRanges == old(memory.usedRanges)
      ensures size >= 0 ==>
                var a := AllocateRange(old(memory.usedRanges), memory.size, requirementSize);
                && r.Success? == a.Success?
                && (a.Failure? ==> r == Failure(a.error) && deviceCalls == old(deviceCalls) + [CreateBuffer(size, usage)])
                && (a.Success? ==>
                      && fresh(r.value) && r.value.Valid()
                      && r.value.memory == memory && r.value.buffer == buffer && r.value.range == a.value
                      && memory.usedRanges == old(memory.usedRanges) + [a.value]
                      && deviceCalls == old(deviceCalls) + [CreateBuffer(size, usage), BindBufferMemory(buffer, a.value.lower)])
    {
      if size < 0 {
        return Failure(ArithmeticTrap);
      }
      deviceCalls := deviceCalls + [CreateBuffer(size, usage)];
      var memoryOffset := if |memory.usedRanges| == 0 then 0 else memory.usedRanges[|memory.usedRanges| - 1].upper;
      var memoryEnd := memoryOffset + requirementSize;
      if memoryEnd >= UINT64_LIMIT || memoryEnd > INT_MAX {
        return Failure(ArithmeticTrap);
      }
      if !(memoryEnd < memory.size) {
        return Failure(MemoryCapacityExceeded);
      }
      deviceCalls := deviceCalls + [BindBufferMemory(buffer, memoryOffset)];
      AllocateKeepsPacked(memory.usedRanges, memory.size, requirementSize);
      memory.usedRanges := memory.usedRanges + [ByteRange(memoryOffset, memoryEnd)];
      var managed := new ManagedGPUBuffer(memory, buffer, ByteRange(memoryOffset, memoryEnd));
      return Success(managed);
    }
  }
}
