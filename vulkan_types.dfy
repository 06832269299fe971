/**
 * The few Vulkan values the modelled code passes around, and the calls it
 * makes into the driver, recorded in order. Handles are opaque numbers; the
 * driver's own behaviour is not part of this model.
 */
module VulkanTypes {
  import opened Common

  type Flags = bv32

  const VK_FORMAT_R8G8B8A8_SRGB: nat := 43
  const VK_IMAGE_TILING_OPTIMAL: nat := 0
  const VK_IMAGE_USAGE_TRANSFER_DST_BIT: Flags := 0x2
  const VK_IMAGE_USAGE_SAMPLED_BIT: Flags := 0x4
  const VK_BUFFER_USAGE_TRANSFER_SRC_BIT: Flags := 0x1
  const VK_BUFFER_USAGE_STORAGE_BUFFER_BIT: Flags := 0x20
  const VK_MEMORY_PROPERTY_DEVICE_LOCAL_BIT: Flags := 0x1
  const VK_MEMORY_PROPERTY_HOST_VISIBLE_BIT: Flags := 0x2
  const VK_MEMORY_PROPERTY_HOST_COHERENT_BIT: Flags := 0x4
  const VK_IMAGE_LAYOUT_UNDEFINED: nat := 0
  const VK_IMAGE_LAYOUT_SHADER_READ_ONLY_OPTIMAL: nat := 5
  const VK_IMAGE_LAYOUT_TRANSFER_SRC_OPTIMAL: nat := 6
  const VK_IMAGE_LAYOUT_TRANSFER_DST_OPTIMAL: nat := 7

  /** `VkImageCreateInfo`, reduced to the fields the code chooses. */
  datatype ImageCreateInfo = ImageCreateInfo(width: uint32, height: uint32, format: nat, tiling: nat, usage: Flags)

  /** `VkBufferCopy`. */
  datatype BufferCopy = BufferCopy(srcOffset: nat, dstOffset: nat, size: nat)

  /** A driver call outside any command buffer, as the memory managers make them. */
  datatype DeviceCall =
    | AllocateMemory(allocationSize: nat, memoryTypeIndex: uint32)
    | CreateBuffer(size: nat, usage: Flags)
    | BindBufferMemory(buffer: Handle, memoryOffset: nat)
    | CreateImage(info: ImageCreateInfo)
    | BindImageMemory(image: Handle, memoryOffset: nat)
    | CreateImageView(image: Handle, format: nat)

  /** A command recorded into a command buffer. */
  datatype Command =
    | CopyBuffer(srcBuffer: Handle, dstBuffer: Handle, regions: seq<BufferCopy>)
    | CopyImageToBuffer(image: Handle, imageLayout: nat, dstBuffer: Handle, width: uint32, height: uint32)
    | TransitionLayout(image: Handle, format: nat, oldLayout: nat, newLayout: nat)
    | CopyBufferToImage(srcBuffer: Handle, image: Handle, width: uint32, height: uint32)

  /** A `VkCommandBuffer` being recorded: the commands so far, oldest first. */
  class CommandBuffer {
    const handle: Handle
    var commands: seq<Command>

    constructor(handle: Handle)
      ensures this.handle == handle && commands == []
    {
      this.handle := handle;
      commands := [];
    }

    method Record(c: Command)
      modifies this
      ensures commands == old(commands) + [c]
    {
      commands := commands + [c];
    }
  }
}
