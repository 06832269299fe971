/**
 * The two free helpers of Sources/SwiftVulkanRenderer/Vulkan/VulkanHelpers.swift:
 * `makeApiVersion`, which packs a Vulkan API version into one `UInt32` as
 * the "Version Numbers" section of the Vulkan specification lays it out
 * (variant in bits 29-31, major in 22-28, minor in 12-21, patch in 0-11),
 * and `findMemoryType`, the first-fit search over the device's memory types.
 *
 * Swift's `<<` on `UInt32` drops the bits shifted out, exactly like `<<` on
 * `bv32`, so the packing is modelled on `bv32`.
 */
module VulkanHelpers {
  import opened Common

  // ------------------------------------------------------------------ makeApiVersion

  /** `makeApiVersion(variant:major:minor:patch:)`. */
  function MakeApiVersion(variant: bv32, major: bv32, minor: bv32, patch: bv32): bv32 {
    (variant << 29) | (major << 22) | (minor << 12) | patch
  }

  /** `VK_API_VERSION_VARIANT`: the top three bits. */
  function ApiVersionVariant(version: bv32): bv32 {
    version >> 29
  }

  /** `VK_API_VERSION_MAJOR`: seven bits from bit 22. */
  function ApiVersionMajor(version: bv32): bv32 {
    (version >> 22) & 0x7F
  }

  /** `VK_API_VERSION_MINOR`: ten bits from bit 12. */
  function ApiVersionMinor(version: bv32): bv32 {
    (version >> 12) & 0x3FF
  }

  /** `VK_API_VERSION_PATCH`: the low twelve bits. */
  function ApiVersionPatch(version: bv32): bv32 {
    version & 0xFFF
  }

  /** Each field fits its bit range. */
  predicate FieldsFit(variant: bv32, major: bv32, minor: bv32, patch: bv32) {
    variant < 8 && major < 0x80 && minor < 0x400 && patch < 0x1000
  }

  /** Fields that fit their bit ranges occupy disjoint bits, and each is read back by its shift and mask. */
  lemma {:induction false} ApiVersionRoundTrip(variant: bv32, major: bv32, minor: bv32, patch: bv32)
    requires FieldsFit(variant, major, minor, patch)
    ensures var version := MakeApiVersion(variant, major, minor, patch);
            && ApiVersionVariant(version) == variant
            && ApiVersionMajor(version) == major
            && ApiVersionMinor(version) == minor
            && ApiVersionPatch(version) == patch
  {
  }

  /** Every version word is the packing of its four fields: decoding then packing gives the word back. */
  lemma {:induction false} ApiVersionFieldsRoundTrip(version: bv32)
    ensures FieldsFit(ApiVersionVariant(version), ApiVersionMajor(version), ApiVersionMinor(version), ApiVersionPatch(version))
    ensures MakeApiVersion(ApiVersionVariant(version), ApiVersionMajor(version),
                           ApiVersionMinor(version), ApiVersionPatch(version)) == version
  {
  }

  /**
   * With fitting fields the bitwise or is a sum: the version is
   * `variant · 2²⁹ + major · 2²² + minor · 2¹² + patch`.
   */
  lemma {:induction false} ApiVersionValue(variant: bv32, major: bv32, minor: bv32, patch: bv32)
    requires FieldsFit(variant, major, minor, patch)
    ensures MakeApiVersion(variant, major, minor, patch) == variant * 0x2000_0000 + major * 0x40_0000 + minor * 0x1000 + patch
  {
  }

  /** A field too wide for its range spills into the next field (or off the top): `major` 128 reads back as variant 1, major 0. */
  lemma {:induction false} ApiVersionOverflow()
    ensures MakeApiVersion(0, 0x80, 0, 0) == MakeApiVersion(1, 0, 0, 0)
    ensures MakeApiVersion(8, 0, 0, 0) == 0
  {
  }

  // ------------------------------------------------------------------ findMemoryType

  /** `VK_MAX_MEMORY_TYPES`: the length of the `memoryTypes` array of `VkPhysicalDeviceMemoryProperties`. */
  const MAX_MEMORY_TYPES: nat := 32

  /** Bit `i` of a 32-bit mask, `1 << i` in the source. */
  function Bit(i: nat): bv32
    requires i < 32
  {
    1 << i
  }

  /** `flags & properties == properties`: the type has every requested property, and possibly more. */
  predicate HasProperties(flags: bv32, properties: bv32) {
    flags & properties == properties
  }

  /** Memory type `i` is allowed by the filter and has the requested properties. */
  predicate Suitable(typeFilter: bv32, properties: bv32, propertyFlags: seq<bv32>, i: nat)
    requires i < |propertyFlags| && i < 32
  {
    typeFilter & Bit(i) != 0 && HasProperties(propertyFlags[i], properties)
  }

  /** The memory types after the device filled in `VkPhysicalDeviceMemoryProperties`. */
  predicate TableFits(memoryTypeCount: nat, propertyFlags: seq<bv32>) {
    |propertyFlags| == MAX_MEMORY_TYPES && memoryTypeCount <= MAX_MEMORY_TYPES
  }

  /** Reference definition: the first suitable type among `from..count`, if any. */
  function FirstSuitable(typeFilter: bv32, properties: bv32, propertyFlags: seq<bv32>, from: nat, count: nat): (r: Option<nat>)
    requires TableFits(count, propertyFlags) && from <= count
    decreases count - from
  {
    if from == count then None
    else if Suitable(typeFilter, properties, propertyFlags, from) then Some(from)
    else FirstSuitable(typeFilter, properties, propertyFlags, from + 1, count)
  }

  /** The reference search finds the least suitable index, and finds nothing only when no index qualifies. */
  lemma {:induction false} FirstSuitableIsLeast(typeFilter: bv32, properties: bv32, propertyFlags: seq<bv32>, from: nat, count: nat)
    requires TableFits(count, propertyFlags) && from <= count
    ensures var r := FirstSuitable(typeFilter, properties, propertyFlags, from, count);
            && (r.Some? ==> from <= r.value < count && Suitable(typeFilter, properties, propertyFlags, r.value)
                            && forall j :: from <= j < r.value ==> !Suitable(typeFilter, properties, propertyFlags, j))
            && (r.None? <==> forall j :: from <= j < count ==> !Suitable(typeFilter, properties, propertyFlags, j))
    decreases count - from
  {
    if from < count && !Suitable(typeFilter, properties, propertyFlags, from) {
      FirstSuitableIsLeast(typeFilter, properties, propertyFlags, from + 1, count);
    }
  }

  /** Why `findMemoryType` gives up: its `fatalError`. */
  datatype MemoryTypeError = NoSuitableMemoryType

  /**
   * `findMemoryType(physicalDevice:typeFilter:properties:)`, with the
   * device's memory types passed in as `memoryTypeCount` and the 32
   * `propertyFlags` entries `vkGetPhysicalDeviceMemoryProperties` fills in.
   * The loop returns at the first suitable index; when none is found the
   * source traps, modelled as the failure outcome.
   */
  method FindMemoryType(typeFilter: bv32, properties: bv32, memoryTypeCount: nat, propertyFlags: seq<bv32>)
    returns (r: Result<uint32, MemoryTypeError>)
    requires TableFits(memoryTypeCount, propertyFlags)
    ensures r.Success? ==> FirstSuitable(typeFilter, properties, propertyFlags, 0, memoryTypeCount) == Some(r.value)
    ensures r.Failure? <==> FirstSuitable(typeFilter, properties, propertyFlags, 0, memoryTypeCount).None?
  {
    for index := 0 to memoryTypeCount
      invariant FirstSuitable(typeFilter, properties, propertyFlags, 0, memoryTypeCount)
                == FirstSuitable(typeFilter, properties, propertyFlags, index, memoryTypeCount)
    {
      if Suitable(typeFilter, properties, propertyFlags, index) {
        return Success(index);
      }
    }
    return Failure(NoSuitableMemoryType);
  }

  /**
   * The property test is a superset test: extra flags on a type never
   * disqualify it.
   */
  lemma {:induction false} HasPropertiesExtra(flags: bv32, properties: bv32, extra: bv32)
    requires HasProperties(flags, properties)
    ensures HasProperties(flags | extra, properties)
  {
  }
}
