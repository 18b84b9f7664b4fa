/**
 * `vkb::MemoryPool` with `ImageAllocation` and `BufferAllocation`: images and buffers allocated
 * through one process-wide VMA allocator, counted in the "Image Allocations" and
 * "Buffer Allocations" plots, and freed by the allocation objects' destructors.
 */
module MemoryPools {
  import opened Vk
  import opened Wrappers
  import Profiling
  import Contexts

  /** The addresses of the plot-name literals "Buffer Allocations" and "Image Allocations". */
  const BufferAllocationsPlot: Profiling.PlotName := 1
  const ImageAllocationsPlot: Profiling.PlotName := 2

  /** `MemoryUsage`, an enum class over `VkMemoryPropertyFlags`. */
  datatype MemoryUsage = GpuOnly | CpuOnly | CpuToGpu | LazyAlloc | Auto

  /** The enumerators' values, 0 to 4 in declaration order. */
  function UsageValue(u: MemoryUsage): uint32 {
    match u
    case GpuOnly => 0
    case CpuOnly => 1
    case CpuToGpu => 2
    case LazyAlloc => 3
    case Auto => 4
  }

  datatype VmaMemoryUsage =
    | VmaUsageUnknown | VmaUsageGpuOnly | VmaUsageCpuOnly | VmaUsageCpuToGpu | VmaUsageGpuToCpu
    | VmaUsageCpuCopy | VmaUsageGpuLazilyAllocated | VmaUsageAuto | VmaUsageAutoPreferDevice
    | VmaUsageAutoPreferHost

  /**
   * `to_vma_memory_usage` on the raw value an enum-class variable can hold: each enumerator has
   * its own VMA usage and every other value throws.
   */
  function ToVmaMemoryUsage(raw: uint32): (r: Result<VmaMemoryUsage>)
    ensures r.Err? <==> raw > 4
    ensures raw == UsageValue(GpuOnly) ==> r == Ok(VmaUsageGpuOnly)
    ensures raw == UsageValue(CpuOnly) ==> r == Ok(VmaUsageCpuOnly)
    ensures raw == UsageValue(CpuToGpu) ==> r == Ok(VmaUsageCpuToGpu)
    ensures raw == UsageValue(LazyAlloc) ==> r == Ok(VmaUsageGpuLazilyAllocated)
    ensures raw == UsageValue(Auto) ==> r == Ok(VmaUsageAuto)
  {
    if raw == UsageValue(CpuToGpu) then Ok(VmaUsageCpuToGpu)
    else if raw == UsageValue(GpuOnly) then Ok(VmaUsageGpuOnly)
    else if raw == UsageValue(CpuOnly) then Ok(VmaUsageCpuOnly)
    else if raw == UsageValue(LazyAlloc) then Ok(VmaUsageGpuLazilyAllocated)
    else if raw == UsageValue(Auto) then Ok(VmaUsageAuto)
    else Err(RuntimeError("Invalid memory usage"))
  }

  /** Distinct enumerators never share a VMA usage. */
  lemma ToVmaMemoryUsageInjective(a: MemoryUsage, b: MemoryUsage)
    ensures ToVmaMemoryUsage(UsageValue(a)).Ok?
    ensures ToVmaMemoryUsage(UsageValue(a)) == ToVmaMemoryUsage(UsageValue(b)) ==> a == b
  {
  }

  type LiveHandle = h: Handle | h != NullHandle witness 1

  /** What `vmaCreateImage` or `vmaCreateBuffer` answers; a success carries live handles. */
  datatype VmaOutcome = VmaCreated(handle: LiveHandle, allocation: LiveHandle) | VmaFailed(result: int)

  datatype ImageRequestRecord = ImageRequestRecord(info: ImageCreateInfo, usage: VmaMemoryUsage)
  datatype BufferRequestRecord = BufferRequestRecord(info: BufferCreateInfo, usage: VmaMemoryUsage)

  /**
   * VMA and the device as seen by the pool. The k-th call of each kind gets the k-th outcome of
   * its oracle; `allocator` is the function-local `static VmaAllocator` of
   * `MemoryPool::allocator`, shared by every pool and never reset.
   */
  class Driver {
    var allocator: Handle
    var allocatorAttempts: nat
    var imageRequests: seq<ImageRequestRecord>
    var bufferRequests: seq<BufferRequestRecord>
    var viewRequests: seq<ImageViewCreateInfo>
    /** The allocator `vmaCreateAllocator` yields on the k-th attempt; null when it fails. */
    const allocatorOutcome: nat -> Handle
    const imageOutcome: nat -> VmaOutcome
    const bufferOutcome: nat -> VmaOutcome
    /** The view `createImageView` returns on the k-th call; null stands for the thrown error. */
    const viewOutcome: nat -> Handle

    constructor (allocatorOutcome: nat -> Handle, imageOutcome: nat -> VmaOutcome,
                 bufferOutcome: nat -> VmaOutcome, viewOutcome: nat -> Handle)
      ensures allocator == NullHandle && allocatorAttempts == 0
      ensures imageRequests == [] && bufferRequests == [] && viewRequests == []
      ensures this.allocatorOutcome == allocatorOutcome && this.imageOutcome == imageOutcome
      ensures this.bufferOutcome == bufferOutcome && this.viewOutcome == viewOutcome
    {
      allocator, allocatorAttempts := NullHandle, 0;
      imageRequests, bufferRequests, viewRequests := [], [], [];
      this.allocatorOutcome, this.imageOutcome := allocatorOutcome, imageOutcome;
      this.bufferOutcome, this.viewOutcome := bufferOutcome, viewOutcome;
    }

    /** Whether `MemoryPool::allocator` would hand out an allocator now. */
    predicate AllocatorAvailable()
      reads this
    {
      allocator != NullHandle || allocatorOutcome(allocatorAttempts) != NullHandle
    }

    method CreateAllocator() returns (h: Handle)
      modifies this
      ensures h == old(allocatorOutcome(allocatorAttempts)) && allocator == h
      ensures allocatorAttempts == old(allocatorAttempts) + 1
      ensures imageRequests == old(imageRequests) && bufferRequests == old(bufferRequests)
      ensures viewRequests == old(viewRequests)
    {
      h := allocatorOutcome(allocatorAttempts);
      allocator := h;
      allocatorAttempts := allocatorAttempts + 1;
    }

    method CreateImage(info: ImageCreateInfo, usage: VmaMemoryUsage) returns (o: VmaOutcome)
      modifies this
      ensures o == imageOutcome(|old(imageRequests)|)
      ensures imageRequests == old(imageRequests) + [ImageRequestRecord(info, usage)]
      ensures allocator == old(allocator) && allocatorAttempts == old(allocatorAttempts)
      ensures bufferRequests == old(bufferRequests) && viewRequests == old(viewRequests)
    {
      o := imageOutcome(|imageRequests|);
      imageRequests := imageRequests + [ImageRequestRecord(info, usage)];
    }

    method CreateBuffer(info: BufferCreateInfo, usage: VmaMemoryUsage) returns (o: VmaOutcome)
      modifies this
      ensures o == bufferOutcome(|old(bufferRequests)|)
      ensures bufferRequests == old(bufferRequests) + [BufferRequestRecord(info, usage)]
      ensures allocator == old(allocator) && allocatorAttempts == old(allocatorAttempts)
      ensures imageRequests == old(imageRequests) && viewRequests == old(viewRequests)
    {
      o := bufferOutcome(|bufferRequests|);
      bufferRequests := bufferRequests + [BufferRequestRecord(info, usage)];
    }

    method CreateImageView(info: ImageViewCreateInfo) returns (view: Handle)
      modifies this
      ensures view == viewOutcome(|old(viewRequests)|)
      ensures viewRequests == old(viewRequests) + [info]
      ensures allocator == old(allocator) && allocatorAttempts == old(allocatorAttempts)
      ensures imageRequests == old(imageRequests) && bufferRequests == old(bufferRequests)
    {
      view := viewOutcome(|viewRequests|);
      viewRequests := viewRequests + [info];
    }
  }

  /** The view `allocate_image` creates: 2D, colour aspect, every mip level and array layer. */
  function ViewCreateInfoFor(image: Handle, info: ImageCreateInfo): (v: ImageViewCreateInfo)
    ensures v.image == image && v.format == info.format
    ensures v.viewType == ViewType2D && v.aspectMask == ImageAspectColorBit
    ensures v.baseMipLevel == 0 && v.levelCount == info.mipLevels
    ensures v.baseArrayLayer == 0 && v.layerCount == info.arrayLayers
  {
    ImageViewCreateInfo(image, ViewType2D, info.format, ImageAspectColorBit, 0, info.mipLevels,
                        0, info.arrayLayers)
  }

  /** `n` little-endian bytes of `x`: the object representation of an integer or pointer. */
  function LittleEndian(x: nat, n: nat): (bytes: seq<byte>)
    ensures |bytes| == n
  {
    if n == 0 then [] else [(x % 256) as byte] + LittleEndian(x / 256, n - 1)
  }

  function FromLittleEndian(bytes: seq<byte>): nat {
    if bytes == [] then 0 else bytes[0] as nat + 256 * FromLittleEndian(bytes[1..])
  }

  function Pow256(n: nat): nat {
    if n == 0 then 1 else 256 * Pow256(n - 1)
  }

  /** An integer that fits in `n` bytes is recovered from its `n` little-endian bytes. */
  lemma {:induction false} LittleEndianRoundTrip(x: nat, n: nat)
    requires x < Pow256(n)
    ensures FromLittleEndian(LittleEndian(x, n)) == x
  {
    if n > 0 {
      var q, m := x / 256, x % 256;
      assert x == 256 * q + m;
      assert q < Pow256(n - 1);
      LittleEndianRoundTrip(q, n - 1);
      var bytes := LittleEndian(x, n);
      assert bytes[1..] == LittleEndian(q, n - 1);
      assert bytes[0] as nat == m;
    }
  }

  /** `sizeof(const T*)` on the 64-bit targets the framework builds for. */
  const PointerSize: nat := 8

  /** The bytes the single-value `update` writes as written: the address `&data` itself. */
  function ValueUpdateBytesAsWritten(address: uint64): (bytes: seq<byte>)
    ensures |bytes| == PointerSize
  {
    LittleEndian(address as nat, PointerSize)
  }

  /** The bytes the single-value `update` evidently means to write: the value's own. */
  function ValueUpdateBytes<T>(value: T, encode: T -> seq<byte>): seq<byte> {
    encode(value)
  }

  /**
   * As written, what reaches the buffer is the argument's address: the written bytes decode back
   * to the address, for every value, and two values with different encodings are indistinguishable.
   */
  lemma ValueUpdateAsWrittenStoresAddress<T>(v1: T, v2: T, encode: T -> seq<byte>, address: uint64)
    requires encode(v1) != encode(v2)
    ensures FromLittleEndian(ValueUpdateBytesAsWritten(address)) == address as nat
    ensures ValueUpdateBytesAsWritten(address) != ValueUpdateBytes(v1, encode)
         || ValueUpdateBytesAsWritten(address) != ValueUpdateBytes(v2, encode)
  {
    assert Pow256(PointerSize) == 0x1_0000_0000_0000_0000 by {
      assert Pow256(4) == 0x1_0000_0000;
    }
    LittleEndianRoundTrip(address as nat, PointerSize);
  }

  /** `sizeof(uint32_t)`. */
  const Uint32Size: nat := 4

  /** The object representation of a `uint32_t`: its four little-endian bytes. */
  function Uint32Bytes(v: uint32): (bytes: seq<byte>)
    ensures |bytes| == Uint32Size
  {
    LittleEndian(v as nat, Uint32Size)
  }

  /**
   * Corrected, `update(uint32_t{v})` stores `sizeof(uint32_t)` bytes that decode back to `v`,
   * whatever the argument's address; as written it stores the eight address bytes instead, which
   * decode to the address and so to `v` only when the address happens to equal it.
   */
  lemma ValueUpdateRoundTrip(v: uint32, address: uint64)
    ensures |ValueUpdateBytes(v, Uint32Bytes)| == Uint32Size
    ensures FromLittleEndian(ValueUpdateBytes(v, Uint32Bytes)) == v as nat
    ensures |ValueUpdateBytesAsWritten(address)| != |ValueUpdateBytes(v, Uint32Bytes)|
    ensures FromLittleEndian(ValueUpdateBytesAsWritten(address)) == v as nat <==> address as nat == v as nat
  {
    assert Pow256(Uint32Size) == 0x1_0000_0000;
    LittleEndianRoundTrip(v as nat, Uint32Size);
    assert Pow256(PointerSize) == 0x1_0000_0000_0000_0000 by {
      assert Pow256(4) == 0x1_0000_0000;
    }
    LittleEndianRoundTrip(address as nat, PointerSize);
  }

  /** The bytes `update(const std::vector<T>&)` writes: the elements' encodings back to back. */
  function VectorBytes<T>(data: seq<T>, encode: T -> seq<byte>): seq<byte> {
    if data == [] then [] else encode(data[0]) + VectorBytes(data[1..], encode)
  }

  /**
   * With a fixed `sizeof(T)`, the vector update writes `|data| * sizeof(T)` bytes and element `i`
   * occupies bytes `[i * sizeof(T), (i + 1) * sizeof(T))`.
   */
  lemma {:induction false} VectorBytesLayout<T>(data: seq<T>, encode: T -> seq<byte>, size: nat, i: nat)
    requires forall x :: |encode(x)| == size
    requires i < |data|
    ensures |VectorBytes(data, encode)| == |data| * size
    ensures VectorBytes(data, encode)[i * size..(i + 1) * size] == encode(data[i])
  {
    VectorBytesLength(data, encode, size);
    VectorBytesAt(data, encode, size, i);
    StrideIsProduct(i, size);
    MulSuccessor(i, size);
  }

  /** Where element `i` starts when every element takes `size` bytes: `i * size`, added up. */
  function Stride(i: nat, size: nat): nat {
    if i == 0 then 0 else Stride(i - 1, size) + size
  }

  lemma {:induction false} StrideIsProduct(i: nat, size: nat)
    ensures Stride(i, size) == i * size
  {
    if i > 0 {
      StrideIsProduct(i - 1, size);
      MulSuccessor(i - 1, size);
    }
  }

  lemma MulSuccessor(n: nat, size: nat)
    ensures (n + 1) * size == n * size + size
  {
  }

  lemma {:induction false} VectorBytesAt<T>(data: seq<T>, encode: T -> seq<byte>, size: nat, i: nat)
    requires forall x :: |encode(x)| == size
    requires i < |data|
    ensures Stride(i, size) + size <= |VectorBytes(data, encode)|
    ensures VectorBytes(data, encode)[Stride(i, size)..Stride(i, size) + size] == encode(data[i])
  {
    var head, rest := encode(data[0]), VectorBytes(data[1..], encode);
    assert VectorBytes(data, encode) == head + rest;
    if i > 0 {
      VectorBytesAt(data[1..], encode, size, i - 1);
      SliceAfterPrefix(head, rest, Stride(i, size), Stride(i, size) + size);
    } else {
      assert (head + rest)[0..size] == head;
    }
  }

  /** A slice past a prefix is a slice of what follows it. */
  lemma SliceAfterPrefix<T>(head: seq<T>, rest: seq<T>, lo: nat, hi: nat)
    requires |head| <= lo <= hi <= |head| + |rest|
    ensures (head + rest)[lo..hi] == rest[lo - |head|..hi - |head|]
  {
  }

  lemma {:induction false} VectorBytesLength<T>(data: seq<T>, encode: T -> seq<byte>, size: nat)
    requires forall x :: |encode(x)| == size
    ensures |VectorBytes(data, encode)| == |data| * size
  {
    if data != [] {
      VectorBytesLength(data[1..], encode, size);
      assert |data| * size == size + (|data| - 1) * size;
    }
  }

  class ImageAllocation {
    const pool: MemoryPool
    var image: Handle
    var view: Handle
    var allocation: Handle

    constructor (pool: MemoryPool, image: Handle, view: Handle, allocation: Handle)
      ensures this.pool == pool && this.image == image && this.view == view
      ensures this.allocation == allocation
    {
      this.pool, this.image, this.view, this.allocation := pool, image, view, allocation;
    }

    /** `is_valid`: both the image and its memory are live. */
    predicate IsValid()
      reads this
    {
      image != NullHandle && allocation != NullHandle
    }

    /** `~ImageAllocation`: frees itself through its pool when still valid. */
    method Destroy()
      requires pool.driver.allocator != NullHandle
      modifies this, pool.stats, pool.context.log
      ensures !IsValid() && view == old(view)
      ensures old(IsValid()) ==>
        && pool.context.log.calls == old(pool.context.log.calls) + ImageFreeCalls(old(image), old(view), old(allocation))
        && pool.stats.plots == old(pool.stats.plots)[ImageAllocationsPlot := old(pool.stats.Value(ImageAllocationsPlot)) - 1]
      ensures !old(IsValid()) ==>
        && image == old(image) && allocation == old(allocation)
        && pool.context.log.calls == old(pool.context.log.calls)
        && pool.stats.plots == old(pool.stats.plots)
      ensures this in pool.images && old(pool.ImagesCounted()) ==> pool.ImagesCounted()
    {
      if IsValid() {
        pool.FreeImage(this);
      }
    }
  }

  class BufferAllocation {
    const pool: MemoryPool
    var buffer: Handle
    var allocation: Handle
    const byteSize: uint64

    constructor (pool: MemoryPool, buffer: Handle, allocation: Handle, size: uint64)
      ensures this.pool == pool && this.buffer == buffer && this.allocation == allocation
      ensures byteSize == size
    {
      this.pool, this.buffer, this.allocation, this.byteSize := pool, buffer, allocation, size;
    }

    /** `size()`: the size the buffer was created with, even after it is freed. */
    function Size(): uint64 {
      byteSize
    }

    /** `is_valid`: both the buffer and its memory are live. */
    predicate IsValid()
      reads this
    {
      buffer != NullHandle && allocation != NullHandle
    }

    /** `~BufferAllocation`: frees itself through its pool when still valid. */
    method Destroy()
      requires pool.driver.allocator != NullHandle
      modifies this, pool.stats, pool.context.log
      ensures !IsValid()
      ensures old(IsValid()) ==>
        && pool.context.log.calls == old(pool.context.log.calls) + [DestroyBuffer(old(buffer), old(allocation))]
        && pool.stats.plots == old(pool.stats.plots)[BufferAllocationsPlot := old(pool.stats.Value(BufferAllocationsPlot)) - 1]
      ensures !old(IsValid()) ==>
        && buffer == old(buffer) && allocation == old(allocation)
        && pool.context.log.calls == old(pool.context.log.calls)
        && pool.stats.plots == old(pool.stats.plots)
      ensures this in pool.buffers && old(pool.BuffersCounted()) ==> pool.BuffersCounted()
    {
      if IsValid() {
        pool.FreeBuffer(this);
      }
    }

    /** `update(const void *data, size_t size)`: the first `size` bytes at `data`. */
    method Update(data: seq<byte>, size: nat)
      requires size <= |data|
      requires pool.driver.allocator != NullHandle
      modifies pool.context.log
      ensures pool.context.log.calls == old(pool.context.log.calls) + UpdateCalls(IsValid(), allocation, data[..size])
    {
      pool.UpdateBuffer(this, data, size);
    }

    /** `update(const std::vector<T>&)`: `data.size() * sizeof(T)` bytes from `data.data()`. */
    method UpdateVector<T>(data: seq<T>, encode: T -> seq<byte>, elementSize: nat)
      requires forall x :: |encode(x)| == elementSize
      requires pool.driver.allocator != NullHandle
      modifies pool.context.log
      ensures pool.context.log.calls == old(pool.context.log.calls)
        + UpdateCalls(IsValid(), allocation, VectorBytes(data, encode))
    {
      var bytes := VectorBytes(data, encode);
      VectorBytesLength(data, encode, elementSize);
      pool.UpdateBuffer(this, bytes, |data| * elementSize);
      assert bytes[..|data| * elementSize] == bytes;
    }

    /**
     * `update(const T&)` as written: it forwards `&data`, so the `const T&` overload of
     * `update_buffer` is instantiated with a pointer type and copies `sizeof(const T*)` bytes of
     * that address.
     */
    method UpdateValueAsWritten<T>(value: T, address: uint64)
      requires pool.driver.allocator != NullHandle
      modifies pool.context.log
      ensures pool.context.log.calls == old(pool.context.log.calls)
        + UpdateCalls(IsValid(), allocation, ValueUpdateBytesAsWritten(address))
    {
      var pointerBytes := ValueUpdateBytesAsWritten(address);
      pool.UpdateBuffer(this, pointerBytes, PointerSize);
      assert pointerBytes[..PointerSize] == pointerBytes;
    }

    /** `update(const T&)` corrected: the `sizeof(T)` bytes of the value. */
    method UpdateValue<T>(value: T, encode: T -> seq<byte>)
      requires pool.driver.allocator != NullHandle
      modifies pool.context.log
      ensures pool.context.log.calls == old(pool.context.log.calls)
        + UpdateCalls(IsValid(), allocation, ValueUpdateBytes(value, encode))
    {
      var bytes := ValueUpdateBytes(value, encode);
      pool.UpdateBuffer(this, bytes, |bytes|);
      assert bytes[..|bytes|] == bytes;
    }
  }

  /** The calls `free_image` makes: the view first when there is one, then the image. */
  function ImageFreeCalls(image: Handle, view: Handle, allocation: Handle): (calls: seq<DeviceCall>)
    ensures |calls| >= 1 && calls[|calls| - 1] == DestroyImage(image, allocation)
    ensures (view != NullHandle) <==> (|calls| == 2 && calls[0] == DestroyImageView(view))
  {
    (if view != NullHandle then [DestroyImageView(view)] else []) + [DestroyImage(image, allocation)]
  }

  /** A buffer write happens only through a valid allocation: map, copy, unmap. */
  function UpdateCalls(valid: bool, allocation: Handle, bytes: seq<byte>): seq<DeviceCall> {
    if valid then [WriteMemory(allocation, bytes)] else []
  }

  class MemoryPool {
    const context: Contexts.Context
    const driver: Driver
    /** The `Plot<int64_t>` store, shared by every pool. */
    const stats: Profiling.PlotStore

    /** Every allocation object this pool has handed out (only the pool can construct them). */
    ghost var images: set<ImageAllocation>
    ghost var buffers: set<BufferAllocation>
    /** Images that exist on the device but whose view creation threw, so no object owns them. */
    ghost var leakedImages: nat
    /** The counters' values when the pool was made. */
    ghost var imageBase: int
    ghost var bufferBase: int

    /** `MemoryPool::make`. */
    constructor (context: Contexts.Context, driver: Driver, stats: Profiling.PlotStore)
      ensures this.context == context && this.driver == driver && this.stats == stats
      ensures images == {} && buffers == {} && leakedImages == 0
      ensures ImagesCounted() && BuffersCounted()
    {
      this.context, this.driver, this.stats := context, driver, stats;
      images, buffers, leakedImages := {}, {}, 0;
      imageBase := stats.Value(ImageAllocationsPlot);
      bufferBase := stats.Value(BufferAllocationsPlot);
      new;
      assert LiveImages() == {};
      assert LiveBuffers() == {};
    }

    ghost function LiveImages(): set<ImageAllocation>
      reads this, images
    {
      set a | a in images && a.IsValid()
    }

    ghost function LiveBuffers(): set<BufferAllocation>
      reads this, buffers
    {
      set b | b in buffers && b.IsValid()
    }

    /** "Image Allocations" = live image allocations (plus leaked images), relative to the start. */
    ghost predicate ImagesCounted()
      reads this, stats, images
    {
      stats.Value(ImageAllocationsPlot) == imageBase + leakedImages + |LiveImages()|
    }

    /** "Buffer Allocations" = live buffer allocations, relative to the start. */
    ghost predicate BuffersCounted()
      reads this, stats, buffers
    {
      stats.Value(BufferAllocationsPlot) == bufferBase + |LiveBuffers()|
    }

    /**
     * `allocator(context)`: creates the process-wide allocator on first use and registers its
     * destruction with this pool's context; a failed creation throws and is retried next time.
     */
    method Allocator() returns (r: Result<Handle>)
      modifies driver, context
      ensures r.Ok? <==> old(driver.AllocatorAvailable())
      ensures r.Ok? ==> r.value == driver.allocator && r.value != NullHandle
      ensures old(driver.allocator) != NullHandle ==>
        driver.allocator == old(driver.allocator) && driver.allocatorAttempts == old(driver.allocatorAttempts)
        && context.cleanupCallbacks == old(context.cleanupCallbacks)
      ensures old(driver.allocator) == NullHandle ==>
        && driver.allocatorAttempts == old(driver.allocatorAttempts) + 1
        && driver.allocator == old(driver.allocatorOutcome(driver.allocatorAttempts))
        && context.cleanupCallbacks == old(context.cleanupCallbacks)
             + (if r.Ok? then [Contexts.Callback(DestroyAllocator)] else [])
      ensures driver.imageRequests == old(driver.imageRequests)
      ensures driver.bufferRequests == old(driver.bufferRequests)
      ensures driver.viewRequests == old(driver.viewRequests)
      ensures context.device == old(context.device) && context.queueGroups == old(context.queueGroups)
    {
      if driver.allocator == NullHandle {
        var h := driver.CreateAllocator();
        if h == NullHandle {
          return Err(RuntimeError("Failed to create allocator"));
        }
        context.AddCleanupCallback(Contexts.Callback(DestroyAllocator));
      }
      return Ok(driver.allocator);
    }

    /**
     * What one `allocate_image` call does: an allocator, a VMA usage for `usage`, the image, the
     * count, and a view over the whole image. Each step can throw; the count is raised as soon as
     * the image exists, so a failing view creation leaves an uncounted-for image behind.
     */
    twostate predicate ImageAllocationOutcome(info: ImageCreateInfo, usage: uint32, new r: Result<ImageAllocation>)
      reads driver, stats, if r.Ok? then {r.value} else {}
    {
      var reached := old(driver.AllocatorAvailable()) && ToVmaMemoryUsage(usage).Ok?;
      var o := driver.imageOutcome(|old(driver.imageRequests)|);
      var created := reached && o.VmaCreated?;
      && driver.imageRequests == old(driver.imageRequests)
           + (if reached then [ImageRequestRecord(info, ToVmaMemoryUsage(usage).value)] else [])
      && stats.plots == (if created then old(stats.plots)[ImageAllocationsPlot := old(stats.Value(ImageAllocationsPlot)) + 1]
                         else old(stats.plots))
      && driver.viewRequests == old(driver.viewRequests)
           + (if created then [ViewCreateInfoFor(o.handle, info)] else [])
      && driver.bufferRequests == old(driver.bufferRequests)
      && (r.Ok? <==> created && driver.viewOutcome(|old(driver.viewRequests)|) != NullHandle)
      && (r.Ok? ==>
            && fresh(r.value) && r.value.pool == this
            && r.value.image == o.handle && r.value.allocation == o.allocation
            && r.value.view == driver.viewOutcome(|old(driver.viewRequests)|))
    }

    /** `allocate_image` on the device, the driver and the counters. */
    method CreateImageAllocation(info: ImageCreateInfo, usage: uint32) returns (r: Result<ImageAllocation>)
      modifies driver, context, stats
      ensures ImageAllocationOutcome(info, usage, r)
      ensures r.Ok? ==> r.value.IsValid()
      ensures r.Ok? ==> fresh(r.value) && stats.Value(ImageAllocationsPlot) == old(stats.Value(ImageAllocationsPlot)) + 1
      ensures r.Err? ==>
        stats.Value(ImageAllocationsPlot) - old(stats.Value(ImageAllocationsPlot)) in {0, 1}
      ensures stats.Value(BufferAllocationsPlot) == old(stats.Value(BufferAllocationsPlot))
      ensures context.device == old(context.device) && context.queueGroups == old(context.queueGroups)
      ensures r.Ok? ==> driver.allocator != NullHandle
      ensures old(driver.allocator) != NullHandle ==> driver.allocator == old(driver.allocator)
    {
      var alloc := Allocator();
      if alloc.Err? {
        return Err(alloc.error);
      }
      var vmaUsage := ToVmaMemoryUsage(usage);
      if vmaUsage.Err? {
        return Err(vmaUsage.error);
      }
      var outcome := driver.CreateImage(info, vmaUsage.value);
      if outcome.VmaFailed? {
        return Err(RuntimeError("Failed to allocate image"));
      }
      stats.Increment(ImageAllocationsPlot, 1);
      var view := driver.CreateImageView(ViewCreateInfoFor(outcome.handle, info));
      if view == NullHandle {
        return Err(RuntimeError("createImageView failed"));
      }
      var a := new ImageAllocation(this, outcome.handle, view, outcome.allocation);
      return Ok(a);
    }

    /** `allocate_image`, with the live-allocation accounting it keeps. */
    method AllocateImage(info: ImageCreateInfo, usage: uint32) returns (r: Result<ImageAllocation>)
      modifies this, driver, context, stats
      ensures ImageAllocationOutcome(info, usage, r)
      ensures context.device == old(context.device) && context.queueGroups == old(context.queueGroups)
      ensures images == old(images) + (if r.Ok? then {r.value} else {}) && buffers == old(buffers)
      ensures old(ImagesCounted()) ==> ImagesCounted()
      ensures old(BuffersCounted()) ==> BuffersCounted()
      ensures r.Ok? ==> driver.allocator != NullHandle
      ensures old(driver.allocator) != NullHandle ==> driver.allocator == old(driver.allocator)
    {
      ghost var live := LiveImages();
      ghost var liveBuffers := LiveBuffers();
      ghost var counted := stats.Value(ImageAllocationsPlot);
      r := CreateImageAllocation(info, usage);
      if r.Ok? {
        images := images + {r.value};
        assert LiveImages() == live + {r.value};
      } else if stats.Value(ImageAllocationsPlot) != counted {
        leakedImages := leakedImages + 1;
        assert LiveImages() == live;
      }
      assert LiveBuffers() == liveBuffers;
    }

    /** What one `allocate_buffer` call does: as for images, without a view. */
    twostate predicate BufferAllocationOutcome(info: BufferCreateInfo, usage: uint32, new r: Result<BufferAllocation>)
      reads driver, stats, if r.Ok? then {r.value} else {}
    {
      var reached := old(driver.AllocatorAvailable()) && ToVmaMemoryUsage(usage).Ok?;
      var o := driver.bufferOutcome(|old(driver.bufferRequests)|);
      var created := reached && o.VmaCreated?;
      && driver.bufferRequests == old(driver.bufferRequests)
           + (if reached then [BufferRequestRecord(info, ToVmaMemoryUsage(usage).value)] else [])
      && stats.plots == (if created then old(stats.plots)[BufferAllocationsPlot := old(stats.Value(BufferAllocationsPlot)) + 1]
                         else old(stats.plots))
      && driver.imageRequests == old(driver.imageRequests)
      && driver.viewRequests == old(driver.viewRequests)
      && (r.Ok? <==> created)
      && (r.Ok? ==>
            && fresh(r.value) && r.value.pool == this
            && r.value.buffer == o.handle && r.value.allocation == o.allocation
            && r.value.Size() == info.size)
    }

    /** `allocate_buffer` on the device, the driver and the counters. */
    method CreateBufferAllocation(info: BufferCreateInfo, usage: uint32) returns (r: Result<BufferAllocation>)
      modifies driver, context, stats
      ensures BufferAllocationOutcome(info, usage, r)
      ensures r.Ok? ==> r.value.IsValid()
    {
      var alloc := Allocator();
      if alloc.Err? {
        return Err(alloc.error);
      }
      var vmaUsage := ToVmaMemoryUsage(usage);
      if vmaUsage.Err? {
        return Err(vmaUsage.error);
      }
      var outcome := driver.CreateBuffer(info, vmaUsage.value);
      if outcome.VmaFailed? {
        return Err(RuntimeError("Failed to allocate buffer"));
      }
      stats.Increment(BufferAllocationsPlot, 1);
      var b := new BufferAllocation(this, outcome.handle, outcome.allocation, info.size);
      return Ok(b);
    }

    /** `allocate_buffer`, with the live-allocation accounting it keeps. */
    method AllocateBuffer(info: BufferCreateInfo, usage: uint32) returns (r: Result<BufferAllocation>)
      modifies this, driver, context, stats
      ensures BufferAllocationOutcome(info, usage, r)
      ensures buffers == old(buffers) + (if r.Ok? then {r.value} else {}) && images == old(images)
      ensures old(BuffersCounted()) ==> BuffersCounted()
      ensures old(ImagesCounted()) ==> ImagesCounted()
    {
      ghost var live := LiveBuffers();
      ghost var liveImages := LiveImages();
      r := CreateBufferAllocation(info, usage);
      assert stats.Value(ImageAllocationsPlot) == old(stats.Value(ImageAllocationsPlot));
      if r.Ok? {
        buffers := buffers + {r.value};
        assert LiveBuffers() == live + {r.value};
      }
      assert LiveImages() == liveImages;
    }

    /**
     * `free_image`. Its leading `allocator(context)` call finds the allocator that every
     * allocation was made with, so it changes nothing. The view handle is destroyed but not reset.
     */
    method FreeImage(a: ImageAllocation)
      requires driver.allocator != NullHandle
      modifies a, stats, context.log
      ensures !a.IsValid() && a.view == old(a.view)
      ensures old(a.IsValid()) ==>
        && context.log.calls == old(context.log.calls) + ImageFreeCalls(old(a.image), old(a.view), old(a.allocation))
        && stats.plots == old(stats.plots)[ImageAllocationsPlot := old(stats.Value(ImageAllocationsPlot)) - 1]
      ensures !old(a.IsValid()) ==>
        && a.image == old(a.image) && a.allocation == old(a.allocation)
        && context.log.calls == old(context.log.calls) && stats.plots == old(stats.plots)
      ensures a in images && old(ImagesCounted()) ==> ImagesCounted()
      ensures old(BuffersCounted()) ==> BuffersCounted()
    {
      ghost var live := LiveImages();
      ghost var liveBuffers := LiveBuffers();
      if !a.IsValid() {
        return;
      }
      if a.view != NullHandle {
        context.log.Append(DestroyImageView(a.view));
      }
      context.log.Append(DestroyImage(a.image, a.allocation));
      a.image := NullHandle;
      a.allocation := NullHandle;
      stats.Decrement(ImageAllocationsPlot, 1);
      if a in images {
        assert LiveImages() == live - {a};
      }
      assert LiveBuffers() == liveBuffers;
    }

    /** `free_buffer`: destroys a valid buffer and resets both its handles. */
    method FreeBuffer(b: BufferAllocation)
      requires driver.allocator != NullHandle
      modifies b, stats, context.log
      ensures !b.IsValid()
      ensures old(b.IsValid()) ==>
        && b.buffer == NullHandle && b.allocation == NullHandle
        && context.log.calls == old(context.log.calls) + [DestroyBuffer(old(b.buffer), old(b.allocation))]
        && stats.plots == old(stats.plots)[BufferAllocationsPlot := old(stats.Value(BufferAllocationsPlot)) - 1]
      ensures !old(b.IsValid()) ==>
        && b.buffer == old(b.buffer) && b.allocation == old(b.allocation)
        && context.log.calls == old(context.log.calls) && stats.plots == old(stats.plots)
      ensures b in buffers && old(BuffersCounted()) ==> BuffersCounted()
      ensures old(ImagesCounted()) ==> ImagesCounted()
    {
      ghost var live := LiveBuffers();
      ghost var liveImages := LiveImages();
      if !b.IsValid() {
        return;
      }
      context.log.Append(DestroyBuffer(b.buffer, b.allocation));
      b.buffer := NullHandle;
      b.allocation := NullHandle;
      stats.Decrement(BufferAllocationsPlot, 1);
      if b in buffers {
        assert LiveBuffers() == live - {b};
      }
      assert LiveImages() == liveImages;
    }

    /**
     * `update_buffer`: for a valid allocation, maps its memory, copies `size` bytes and unmaps.
     * Nothing compares `size` with the buffer's size.
     */
    method UpdateBuffer(b: BufferAllocation, data: seq<byte>, size: nat)
      requires size <= |data|
      requires driver.allocator != NullHandle
      modifies context.log
      ensures context.log.calls == old(context.log.calls) + UpdateCalls(b.IsValid(), b.allocation, data[..size])
    {
      if !b.IsValid() {
        return;
      }
      context.log.Append(WriteMemory(b.allocation, data[..size]));
    }
  }
}
