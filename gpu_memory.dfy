/**
 * The device-memory arena (Sources/SwiftVulkanRenderer/Data/ManagedGPUMemory.swift)
 * and the bump allocation both memory managers perform on it: a new range
 * starts where the last used range ends, and is granted only when it ends
 * strictly below the arena's size. Nothing is ever freed.
 */
module GpuMemory {
  import opened Common

  /** A Swift `Range`: the bytes `lower..<upper`. */
  datatype ByteRange = ByteRange(lower: nat, upper: nat) {
    /** `range.count`. */
    function Count(): int {
      upper - lower
    }
  }

  /** Why a range request yields no range. */
  datatype AllocError =
    | MemoryCapacityExceeded  // the thrown `MemoryCapacityExceededError`
    | ArithmeticTrap          // a `UInt64` addition that overflows, or an `Int(...)` conversion out of range

  /** `usedRanges.last?.upperBound ?? 0`. */
  function NextOffset(ranges: seq<ByteRange>): nat {
    if ranges == [] then 0 else ranges[|ranges| - 1].upper
  }

  /**
   * The outcome of asking for `request` more bytes of an arena of `size`
   * bytes whose used ranges are `ranges`: `memoryEnd` is computed in
   * `VkDeviceSize` (it traps past 2^64), converted to `Int` (it traps past
   * `Int.max`) and must lie strictly below `size`.
   */
  function AllocateRange(ranges: seq<ByteRange>, size: int, request: nat): Result<ByteRange, AllocError> {
    var offset := NextOffset(ranges);
    var end := offset + request;
    if end >= UINT64_LIMIT || end > INT_MAX then Failure(ArithmeticTrap)
    else if end < size then Success(ByteRange(offset, end))
    else Failure(MemoryCapacityExceeded)
  }

  /**
   * The arena invariant: the used ranges are well formed, start at 0, each
   * begins where the previous one ends, and every one ends strictly below
   * `size`.
   */
  predicate Packed(ranges: seq<ByteRange>, size: int) {
    && (|ranges| > 0 ==> ranges[0].lower == 0)
    && (forall i :: 0 <= i < |ranges| ==> ranges[i].lower <= ranges[i].upper < size)
    && (forall i :: 0 < i < |ranges| ==> ranges[i].lower == ranges[i - 1].upper)
  }

  /** The bytes handed out so far. */
  function TotalCount(ranges: seq<ByteRange>): int {
    if ranges == [] then 0 else TotalCount(ranges[..|ranges| - 1]) + ranges[|ranges| - 1].Count()
  }

  /** A granted range starts where the last one ended and is exactly as long as requested. */
  lemma AllocateIsBump(ranges: seq<ByteRange>, size: int, request: nat)
    requires AllocateRange(ranges, size, request).Success?
    ensures AllocateRange(ranges, size, request).value == ByteRange(NextOffset(ranges), NextOffset(ranges) + request)
    ensures AllocateRange(ranges, size, request).value.Count() == request
  {
  }

  /**
   * For an arena no larger than `Int.max`, a request is granted exactly when
   * it ends strictly below the size: a range ending at the size is refused.
   */
  lemma AllocateSucceedsIff(ranges: seq<ByteRange>, size: int, request: nat)
    requires size <= INT_MAX
    ensures AllocateRange(ranges, size, request).Success? <==> NextOffset(ranges) + request < size
    ensures !AllocateRange(ranges, size, request).Success? && NextOffset(ranges) + request <= INT_MAX ==>
              AllocateRange(ranges, size, request) == Failure(MemoryCapacityExceeded)
  {
  }

  /** Appending a granted range keeps the arena packed. */
  lemma AllocateKeepsPacked(ranges: seq<ByteRange>, size: int, request: nat)
    requires Packed(ranges, size) && AllocateRange(ranges, size, request).Success?
    ensures Packed(ranges + [AllocateRange(ranges, size, request).value], size)
  {
    var r := AllocateRange(ranges, size, request).value;
    var rs := ranges + [r];
    forall i | 0 < i < |rs| ensures rs[i].lower == rs[i - 1].upper {
      if i < |ranges| {
        assert rs[i] == ranges[i] && rs[i - 1] == ranges[i - 1];
      }
    }
  }

  /** In a packed arena the next range starts right behind everything handed out so far. */
  lemma {:induction false} PackedNextOffset(ranges: seq<ByteRange>, size: int)
    requires Packed(ranges, size)
    ensures NextOffset(ranges) == TotalCount(ranges)
  {
    if |ranges| > 0 {
      var prefix := ranges[..|ranges| - 1];
      assert Packed(prefix, size) by {
        forall i | 0 < i < |prefix| ensures prefix[i].lower == prefix[i - 1].upper {
          assert prefix[i] == ranges[i] && prefix[i - 1] == ranges[i - 1];
        }
      }
      PackedNextOffset(prefix, size);
      if |prefix| > 0 {
        assert prefix[|prefix| - 1] == ranges[|ranges| - 2];
      }
    }
  }

  /** In a packed arena the ranges are sorted, pairwise disjoint and lie within `0..<size`. */
  lemma {:induction false} PackedDisjoint(ranges: seq<ByteRange>, size: int, i: nat, j: nat)
    requires Packed(ranges, size) && i < j < |ranges|
    ensures ranges[i].upper <= ranges[j].lower
    ensures 0 <= ranges[i].lower && ranges[j].upper < size
    decreases j - i
  {
    if i + 1 < j {
      PackedDisjoint(ranges, size, i, j - 1);
      assert ranges[j].lower == ranges[j - 1].upper;
    }
  }

  /**
   * `ManagedGPUMemory`: a device-memory block of fixed `size` and the ranges
   * carved from it. The source declares no mapping state; the model adds the
   * host view every buffer store goes through (`contents`, one byte per byte
   * of the block) and whether it is mapped yet (`mapped`).
   */
  class ManagedGPUMemory {
    const memory: Handle
    const size: nat
    var usedRanges: seq<ByteRange>
    const contents: array<byte>
    var mapped: bool
    ghost var mapCalls: nat

    /** The host view covers the block. */
    predicate Valid() {
      contents.Length == size
    }

    /** `init(manager:memory:size:)`: no range is used yet. */
    constructor(memory: Handle, size: nat)
      ensures this.memory == memory && this.size == size
      ensures usedRanges == [] && !mapped && mapCalls == 0 && fresh(contents) && Valid()
    {
      this.memory := memory;
      this.size := size;
      usedRanges := [];
      contents := new byte[size];
      mapped := false;
      mapCalls := 0;
    }

    /** `map()`: makes the block's contents reachable from the host (`vkMapMemory`). */
    method Map()
      modifies this`mapped, this`mapCalls
      ensures mapped && mapCalls == old(mapCalls) + 1
    {
      mapped := true;
      mapCalls := mapCalls + 1;
    }
  }
}
