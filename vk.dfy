/** Vulkan-level vocabulary shared by the modules: handles, fixed-width integers, flag bits. */
module Vk {
  import opened Wrappers

  /** A dispatchable or non-dispatchable Vulkan handle; 0 is VK_NULL_HANDLE. */
  type Handle = nat

  const NullHandle: Handle := 0

  const U32Modulus: int := 0x1_0000_0000
  const U64Max: int := 0xFFFF_FFFF_FFFF_FFFF

  newtype uint32 = x: int | 0 <= x < 0x1_0000_0000
  newtype uint64 = x: int | 0 <= x <= 0xFFFF_FFFF_FFFF_FFFF

  /** An octet of host or device memory. */
  newtype byte = x: int | 0 <= x < 256

  /** A `VkFlags` bit mask (`vk::QueueFlags`, `vk::ImageUsageFlags`, ...). */
  type Flags = bv32

  /** `a & b` tested for non-zero, as `if (a & b)` does in C++. */
  predicate Intersects(a: Flags, b: Flags) {
    a & b != 0
  }

  /** Post-increment of a `uint32_t` counter: the value after `x++`. */
  function NextU32(x: uint32): (r: uint32)
    ensures x as int < U32Modulus - 1 ==> r as int == x as int + 1
    ensures x as int == U32Modulus - 1 ==> r == 0
  {
    if x as int == U32Modulus - 1 then 0 else x + 1
  }

  /** `VK_QUEUE_FAMILY_IGNORED` (`~0u`). */
  const QueueFamilyIgnored: uint32 := 0xFFFF_FFFF

  // VkQueueFlagBits
  const QueueGraphicsBit: Flags := 0x1
  const QueueComputeBit: Flags := 0x2
  const QueueTransferBit: Flags := 0x4

  /** A `VkFormat` value; 0 is `VK_FORMAT_UNDEFINED`. */
  type Format = uint32

  const FormatUndefined: Format := 0

  datatype Extent3D = Extent3D(width: uint32, height: uint32, depth: uint32)

  datatype ImageType = ImageType1D | ImageType2D | ImageType3D
  datatype ImageTiling = TilingOptimal | TilingLinear
  datatype SharingMode = SharingExclusive | SharingConcurrent
  datatype ImageLayout = LayoutUndefined | LayoutGeneral | LayoutOther(code: nat)
  datatype ImageViewType = ViewType1D | ViewType2D | ViewType3D | ViewTypeCube

  /** `VK_SAMPLE_COUNT_1_BIT`. */
  const SampleCount1Bit: Flags := 0x1
  /** `VK_IMAGE_ASPECT_COLOR_BIT`. */
  const ImageAspectColorBit: Flags := 0x1

  /** The `vk::ImageCreateInfo` fields the framework sets. */
  datatype ImageCreateInfo = ImageCreateInfo(
    imageType: ImageType,
    format: Format,
    extent: Extent3D,
    mipLevels: uint32,
    arrayLayers: uint32,
    samples: Flags,
    tiling: ImageTiling,
    usage: Flags,
    sharingMode: SharingMode,
    initialLayout: ImageLayout)

  /** `vk::ImageViewCreateInfo` with its subresource range written out. */
  datatype ImageViewCreateInfo = ImageViewCreateInfo(
    image: Handle,
    viewType: ImageViewType,
    format: Format,
    aspectMask: Flags,
    baseMipLevel: uint32,
    levelCount: uint32,
    baseArrayLayer: uint32,
    layerCount: uint32)

  /** The `vk::BufferCreateInfo` fields the framework sets. */
  datatype BufferCreateInfo = BufferCreateInfo(size: uint64, usage: Flags)

  /** `VkFenceCreateFlagBits::VK_FENCE_CREATE_SIGNALED_BIT`. */
  const FenceCreateSignaledBit: Flags := 0x1

  /**
   * What the host has asked the device to destroy or run, in order. Ordering properties
   * (cleanups before the device, the view before its image, ...) are stated on this log.
   */
  datatype DeviceCall =
    | DestroyImageView(view: Handle)
    | DestroyImage(image: Handle, memory: Handle)
    | DestroyBuffer(buffer: Handle, memory: Handle)
    | DestroyAllocator
    | DestroyFence(fence: Handle)
    | DestroyCommandPool(pool: Handle)
    | RunCleanup(id: nat)
    | DestroyDevice(device: Handle)
    | DestroyDebugUtilsMessenger(messenger: Handle)
    | DestroyDebugReportCallback(callback: Handle)
    | DestroyInstance(instance: Handle)
    | WriteMemory(memory: Handle, bytes: seq<byte>)
    | CreateCommandPool(pool: Handle, queueFamilyIndex: uint32)
    | Submit(queue: Handle, commands: seq<Command>, fence: Handle)

  /**
   * What a command buffer holds: its begin and end, the resources a task looked up while
   * recording (`None` is a null pointer), and opaque recorded commands.
   */
  datatype Command =
    | BeginCommands
    | EndCommands
    | BindImage(image: Option<Handle>)
    | BindImageView(view: Option<Handle>)
    | BindBuffer(buffer: Option<Handle>)
    | BindBufferView(bufferView: Option<Handle>)
    | Recorded(id: nat)

  /** The device-side effects, observed as an append-only log. */
  class DeviceLog {
    var calls: seq<DeviceCall>

    constructor ()
      ensures calls == []
    {
      calls := [];
    }

    method Append(c: DeviceCall)
      modifies this
      ensures calls == old(calls) + [c]
    {
      calls := calls + [c];
    }
  }
}
