/**
 * `vkb::TaskRegistry`: hands out transient image and buffer handles for requests, alias handles
 * for reads and writes, and materialises an aliased image from the memory pool on first use,
 * caching the allocation per transient handle.
 */
module TaskRegistries {
  import opened Vk
  import opened Wrappers
  import MemoryPools
  import Contexts

  datatype TransientImageHandle = TransientImageHandle(id: uint32)
  datatype TransientBufferHandle = TransientBufferHandle(id: uint32)
  datatype AliasedImageHandle = AliasedImageHandle(id: uint32)
  datatype AliasedBufferHandle = AliasedBufferHandle(id: uint32)

  datatype ImageRequest = ImageRequest(usage: Flags, format: Format, extent: Extent3D)
  datatype BufferRequest = BufferRequest(usage: Flags, size: uint64)

  /** A value-initialised `ImageRequest`: what `operator[]` inserts for an unrequested handle. */
  const DefaultImageRequest: ImageRequest := ImageRequest(0, FormatUndefined, Extent3D(0, 0, 0))

  /** The counters and the request and alias tables: all of a registry but its allocations. */
  datatype RegistryTables = RegistryTables(
    nextTransientImageId: uint32,
    nextTransientBufferId: uint32,
    nextAliasImageId: uint32,
    nextAliasBufferId: uint32,
    requestedImages: map<TransientImageHandle, ImageRequest>,
    aliasedImages: map<AliasedImageHandle, TransientImageHandle>,
    requestedBuffers: map<TransientBufferHandle, BufferRequest>,
    unallocatedAliasBuffers: map<AliasedBufferHandle, TransientBufferHandle>)

  const EmptyTables: RegistryTables := RegistryTables(0, 0, 0, 0, map[], map[], map[], map[])

  /** A call a definition makes on the registry it is given. */
  datatype RegistryCall =
    | RequestImage(usage: Flags, format: Format, extent: Extent3D)
    | RequestBuffer(bufferUsage: Flags, size: uint64)
    | ReadImage(image: TransientImageHandle)
    | WriteImage(image: TransientImageHandle)
    | ReadBuffer(buffer: TransientBufferHandle)
    | WriteBuffer(buffer: TransientBufferHandle)

  datatype CallResult =
    | ImageRequested(image: TransientImageHandle)
    | BufferRequested(buffer: TransientBufferHandle)
    | ImageAliased(imageAlias: AliasedImageHandle)
    | BufferAliased(bufferAlias: AliasedBufferHandle)

  /** The four id spaces; reads and writes of one resource kind share one. */
  datatype IdSpace = TransientImages | TransientBuffers | ImageAliases | BufferAliases

  function SpaceOf(call: RegistryCall): IdSpace {
    match call
    case RequestImage(_, _, _) => TransientImages
    case RequestBuffer(_, _) => TransientBuffers
    case ReadImage(_) => ImageAliases
    case WriteImage(_) => ImageAliases
    case ReadBuffer(_) => BufferAliases
    case WriteBuffer(_) => BufferAliases
  }

  function Counter(t: RegistryTables, space: IdSpace): uint32 {
    match space
    case TransientImages => t.nextTransientImageId
    case TransientBuffers => t.nextTransientBufferId
    case ImageAliases => t.nextAliasImageId
    case BufferAliases => t.nextAliasBufferId
  }

  function ResultId(r: CallResult): uint32 {
    match r
    case ImageRequested(h) => h.id
    case BufferRequested(h) => h.id
    case ImageAliased(a) => a.id
    case BufferAliased(a) => a.id
  }

  /**
   * One registry call: take the id from its counter (post-increment, wrapping at 2^32) and
   * record the descriptor or the alias under it.
   */
  function Apply(t: RegistryTables, call: RegistryCall): (RegistryTables, CallResult) {
    match call
    case RequestImage(usage, format, extent) =>
      var h := TransientImageHandle(t.nextTransientImageId);
      (t.(nextTransientImageId := NextU32(t.nextTransientImageId),
          requestedImages := t.requestedImages[h := ImageRequest(usage, format, extent)]),
       ImageRequested(h))
    case RequestBuffer(usage, size) =>
      var h := TransientBufferHandle(t.nextTransientBufferId);
      (t.(nextTransientBufferId := NextU32(t.nextTransientBufferId),
          requestedBuffers := t.requestedBuffers[h := BufferRequest(usage, size)]),
       BufferRequested(h))
    case ReadImage(image) => AliasImage(t, image)
    case WriteImage(image) => AliasImage(t, image)
    case ReadBuffer(buffer) => AliasBuffer(t, buffer)
    case WriteBuffer(buffer) => AliasBuffer(t, buffer)
  }

  function AliasImage(t: RegistryTables, image: TransientImageHandle): (RegistryTables, CallResult) {
    var a := AliasedImageHandle(t.nextAliasImageId);
    (t.(nextAliasImageId := NextU32(t.nextAliasImageId), aliasedImages := t.aliasedImages[a := image]),
     ImageAliased(a))
  }

  function AliasBuffer(t: RegistryTables, buffer: TransientBufferHandle): (RegistryTables, CallResult) {
    var a := AliasedBufferHandle(t.nextAliasBufferId);
    (t.(nextAliasBufferId := NextU32(t.nextAliasBufferId),
        unallocatedAliasBuffers := t.unallocatedAliasBuffers[a := buffer]),
     BufferAliased(a))
  }

  /** A call's id comes from its own counter, which advances by one; the others stay. */
  lemma ApplyUsesItsCounter(t: RegistryTables, call: RegistryCall, space: IdSpace)
    ensures space == SpaceOf(call) ==> ResultId(Apply(t, call).1) == Counter(t, space)
    ensures Counter(Apply(t, call).0, space) ==
      if space == SpaceOf(call) then NextU32(Counter(t, space)) else Counter(t, space)
  {
  }

  /**
   * A request records its descriptor under the new handle only: every other handle, alias and
   * buffer entry reads as before. Identical descriptors still get their own handles.
   */
  lemma RequestImageTouchesOnlyNewHandle(t: RegistryTables, usage: Flags, format: Format, extent: Extent3D,
                                         other: TransientImageHandle)
    ensures var (t', r) := Apply(t, RequestImage(usage, format, extent));
      && r == ImageRequested(TransientImageHandle(t.nextTransientImageId))
      && t'.requestedImages[r.image] == ImageRequest(usage, format, extent)
      && (other != r.image ==>
            (other in t'.requestedImages <==> other in t.requestedImages)
            && (other in t.requestedImages ==> t'.requestedImages[other] == t.requestedImages[other]))
      && t'.aliasedImages == t.aliasedImages && t'.requestedBuffers == t.requestedBuffers
      && t'.unallocatedAliasBuffers == t.unallocatedAliasBuffers
  {
  }

  /** `read` and `write` are the same operation, for images and for buffers. */
  lemma ReadIsWrite(t: RegistryTables, image: TransientImageHandle, buffer: TransientBufferHandle)
    ensures Apply(t, ReadImage(image)) == Apply(t, WriteImage(image))
    ensures Apply(t, ReadBuffer(buffer)) == Apply(t, WriteBuffer(buffer))
    ensures Apply(t, ReadImage(image)).0.aliasedImages[Apply(t, ReadImage(image)).1.imageAlias] == image
  {
  }

  /** The calls in order, threading the tables; one result per call. */
  function RunCalls(t: RegistryTables, calls: seq<RegistryCall>): (r: (RegistryTables, seq<CallResult>))
    ensures |r.1| == |calls|
    decreases |calls|
  {
    if calls == [] then (t, [])
    else
      var (t1, first) := Apply(t, calls[0]);
      var (t2, rest) := RunCalls(t1, calls[1..]);
      (t2, [first] + rest)
  }

  /** How many of `calls` draw from `space`. */
  function CountIn(calls: seq<RegistryCall>, space: IdSpace): nat {
    if calls == [] then 0 else (if SpaceOf(calls[0]) == space then 1 else 0) + CountIn(calls[1..], space)
  }

  function Wrap(x: int): uint32 {
    (x % U32Modulus) as uint32
  }

  lemma NextIsWrap(x: uint32)
    ensures NextU32(x) == Wrap(x as int + 1)
  {
  }

  /**
   * Every id space is a counter that starts where the tables left it and post-increments: the
   * call at position `i` gets the counter plus the number of earlier calls in its own space,
   * modulo 2^32, whatever the other spaces do.
   */
  lemma {:induction false} IdsFollowCounter(t: RegistryTables, calls: seq<RegistryCall>, i: nat)
    requires i < |calls|
    ensures ResultId(RunCalls(t, calls).1[i]) == Wrap(Counter(t, SpaceOf(calls[i])) as int + CountIn(calls[..i], SpaceOf(calls[i])))
    decreases i
  {
    var space := SpaceOf(calls[i]);
    var t1 := Apply(t, calls[0]).0;
    ApplyUsesItsCounter(t, calls[0], space);
    if i == 0 {
      assert calls[..0] == [];
    } else {
      var k := CountIn(calls[1..][..i - 1], space);
      assert ResultId(RunCalls(t, calls).1[i]) == Wrap(Counter(t1, space) as int + k) by {
        IdsFollowCounter(t1, calls[1..], i - 1);
        assert calls[1..][i - 1] == calls[i];
        assert RunCalls(t, calls).1[i] == RunCalls(t1, calls[1..]).1[i - 1];
      }
      assert CountIn(calls[..i], space) == (if SpaceOf(calls[0]) == space then 1 else 0) + k by {
        assert calls[..i][1..] == calls[1..][..i - 1];
      }
      if SpaceOf(calls[0]) == space {
        NextIsWrap(Counter(t, space));
        WrapShift(Counter(t, space) as int + 1, k);
      }
    }
  }

  /** Wrapping before adding is wrapping after. */
  lemma WrapShift(a: int, k: int)
    ensures Wrap(Wrap(a) as int + k) == Wrap(a + k)
  {
    var q := a / U32Modulus;
    assert a == q * U32Modulus + Wrap(a) as int;
    assert a + k == q * U32Modulus + (Wrap(a) as int + k);
    ModAddMultiple(Wrap(a) as int + k, q);
  }

  lemma ModAddMultiple(x: int, q: int)
    ensures (q * U32Modulus + x) % U32Modulus == x % U32Modulus
  {
  }

  lemma {:induction false} CountInPrefix(calls: seq<RegistryCall>, i: nat, space: IdSpace)
    requires i < |calls|
    ensures CountIn(calls[..i], space) + (if SpaceOf(calls[i]) == space then 1 else 0) <= CountIn(calls, space)
    ensures SpaceOf(calls[i]) == space ==> CountIn(calls[..i], space) < CountIn(calls[..i + 1], space)
  {
    if i > 0 {
      CountInPrefix(calls[1..], i - 1, space);
      assert calls[..i][1..] == calls[1..][..i - 1];
      assert calls[..i + 1][1..] == calls[1..][..i];
    } else {
      assert calls[..1] == [calls[0]];
      assert calls[..1][1..] == [];
    }
  }

  lemma {:induction false} CountInMonotone(calls: seq<RegistryCall>, i: nat, j: nat, space: IdSpace)
    requires i <= j <= |calls|
    ensures CountIn(calls[..i], space) <= CountIn(calls[..j], space)
  {
    if i < j {
      CountInMonotone(calls, i, j - 1, space);
      assert calls[..j][..j - 1] == calls[..j - 1];
      CountInPrefix(calls[..j], j - 1, space);
    }
  }

  /**
   * Handles are pairwise distinct: two calls in the same id space get different ids as long as
   * that space hands out at most 2^32 ids from the starting counter.
   */
  lemma HandlesDistinct(t: RegistryTables, calls: seq<RegistryCall>, i: nat, j: nat)
    requires i < j < |calls| && SpaceOf(calls[i]) == SpaceOf(calls[j])
    requires CountIn(calls, SpaceOf(calls[i])) <= U32Modulus
    ensures RunCalls(t, calls).1[i] != RunCalls(t, calls).1[j]
  {
    var space := SpaceOf(calls[i]);
    IdsFollowCounter(t, calls, i);
    IdsFollowCounter(t, calls, j);
    var ci, cj := CountIn(calls[..i], space), CountIn(calls[..j], space);
    CountInPrefix(calls, i, space);
    CountInMonotone(calls, i + 1, j, space);
    CountInPrefix(calls, j, space);
    assert ci < cj < U32Modulus;
    WrapDistinct(Counter(t, space) as int, ci, cj);
  }

  /** Fewer than 2^32 steps apart, two counter values never wrap onto each other. */
  lemma WrapDistinct(c: int, x: int, y: int)
    requires 0 <= x < y < U32Modulus
    ensures Wrap(c + x) != Wrap(c + y)
  {
    var q := (c + x) / U32Modulus;
    var r := (c + x) % U32Modulus;
    assert c + y == q * U32Modulus + (r + (y - x));
    if r + (y - x) < U32Modulus {
      assert (c + y) % U32Modulus == r + (y - x);
    } else {
      assert c + y == (q + 1) * U32Modulus + (r + (y - x) - U32Modulus);
      assert (c + y) % U32Modulus == r + (y - x) - U32Modulus;
    }
  }

  /** The request `operator[]` reads: the recorded one, or a value-initialised one. */
  function RequestOrDefault(requests: map<TransientImageHandle, ImageRequest>, h: TransientImageHandle): ImageRequest {
    if h in requests then requests[h] else DefaultImageRequest
  }

  /**
   * The descriptor `find_or_create_image` materialises: 2D, one mip level and layer, one sample,
   * optimal tiling, exclusive sharing, undefined layout; format, extent and usage from `req`.
   */
  function RegistryImageInfo(req: ImageRequest): (info: ImageCreateInfo)
    ensures info.format == req.format && info.extent == req.extent && info.usage == req.usage
    ensures info.imageType == ImageType2D && info.mipLevels == 1 && info.arrayLayers == 1
    ensures info.samples == SampleCount1Bit && info.tiling == TilingOptimal
    ensures info.sharingMode == SharingExclusive && info.initialLayout == LayoutUndefined
  {
    ImageCreateInfo(ImageType2D, req.format, req.extent, 1, 1, SampleCount1Bit, TilingOptimal,
                    req.usage, SharingExclusive, LayoutUndefined)
  }

  /** The pool's view of a resolution: an allocation, or the error it threw. */
  function AsPoolResult(r: Result<Option<MemoryPools.ImageAllocation>>): Result<MemoryPools.ImageAllocation> {
    match r
    case Ok(Some(a)) => Ok(a)
    case Ok(None) => Err(RuntimeError("no allocation"))
    case Err(e) => Err(e)
  }

  twostate predicate PoolUntouched(pool: MemoryPools.MemoryPool)
    reads pool, pool.driver, pool.stats, pool.context
  {
    && unchanged(pool) && unchanged(pool.driver) && unchanged(pool.stats) && unchanged(pool.context)
  }

  class TaskRegistry {
    const context: Contexts.Context
    const pool: MemoryPools.MemoryPool
    var nextTransientImageId: uint32
    var nextTransientBufferId: uint32
    var nextAliasImageId: uint32
    var nextAliasBufferId: uint32
    var requestedImages: map<TransientImageHandle, ImageRequest>
    var aliasedImages: map<AliasedImageHandle, TransientImageHandle>
    var allocatedImages: map<TransientImageHandle, MemoryPools.ImageAllocation>
    var requestedBuffers: map<TransientBufferHandle, BufferRequest>
    var unallocatedAliasBuffers: map<AliasedBufferHandle, TransientBufferHandle>
    var allocatedBuffers: map<TransientBufferHandle, MemoryPools.BufferAllocation>

    constructor (context: Contexts.Context, pool: MemoryPools.MemoryPool)
      ensures this.context == context && this.pool == pool
      ensures Tables() == EmptyTables && allocatedImages == map[] && allocatedBuffers == map[]
    {
      this.context, this.pool := context, pool;
      nextTransientImageId, nextTransientBufferId := 0, 0;
      nextAliasImageId, nextAliasBufferId := 0, 0;
      requestedImages, aliasedImages, allocatedImages := map[], map[], map[];
      requestedBuffers, unallocatedAliasBuffers, allocatedBuffers := map[], map[], map[];
    }

    function Tables(): RegistryTables
      reads this
    {
      RegistryTables(nextTransientImageId, nextTransientBufferId, nextAliasImageId, nextAliasBufferId,
             requestedImages, aliasedImages, requestedBuffers, unallocatedAliasBuffers)
    }

    method SetTables(t: RegistryTables)
      modifies this
      ensures Tables() == t
      ensures allocatedImages == old(allocatedImages) && allocatedBuffers == old(allocatedBuffers)
    {
      nextTransientImageId, nextTransientBufferId := t.nextTransientImageId, t.nextTransientBufferId;
      nextAliasImageId, nextAliasBufferId := t.nextAliasImageId, t.nextAliasBufferId;
      requestedImages, aliasedImages := t.requestedImages, t.aliasedImages;
      requestedBuffers, unallocatedAliasBuffers := t.requestedBuffers, t.unallocatedAliasBuffers;
    }

    /** The copy constructor: equal tables and an equal (shared-pointer) allocation cache. */
    method Clone() returns (c: TaskRegistry)
      ensures fresh(c) && c.context == context && c.pool == pool
      ensures c.Tables() == Tables()
      ensures c.allocatedImages == allocatedImages && c.allocatedBuffers == allocatedBuffers
    {
      c := new TaskRegistry(context, pool);
      c.SetTables(Tables());
      c.allocatedImages, c.allocatedBuffers := allocatedImages, allocatedBuffers;
    }

    /**
     * Every cached allocation was made by this registry's pool and is one it handed out, so the
     * process-wide allocator exists.
     */
    ghost predicate CacheFromPool()
      reads this, pool, pool.driver
    {
      forall a :: a in allocatedImages.Values ==> a.pool == pool && a in pool.images && pool.driver.allocator != NullHandle
    }

    /** What `image(alias)` answers once `alias` has resolved: the cached allocation's image. */
    function CachedImage(alias: AliasedImageHandle): Option<Handle>
      reads this, allocatedImages.Values
    {
      if alias in aliasedImages && aliasedImages[alias] in allocatedImages
      then Some(allocatedImages[aliasedImages[alias]].image) else None
    }

    /** What `image_view(alias)` answers once `alias` has resolved: the cached allocation's view. */
    function CachedView(alias: AliasedImageHandle): Option<Handle>
      reads this, allocatedImages.Values
    {
      if alias in aliasedImages && aliasedImages[alias] in allocatedImages
      then Some(allocatedImages[aliasedImages[alias]].view) else None
    }

    /**
     * All that resolving `alias` may change in the registry and in the pool's set of handed-out
     * allocations: nothing for an unknown alias or a cached handle; otherwise the handle's request
     * is inserted (a default one when it was never requested) and, when the allocation succeeds,
     * the pool's new allocation is cached under the handle.
     */
    twostate predicate ResolutionEffect(alias: AliasedImageHandle, succeeded: bool)
      reads this, pool
    {
      && allocatedBuffers == old(allocatedBuffers)
      && if alias !in old(aliasedImages) || old(aliasedImages[alias]) in old(allocatedImages) then
           Tables() == old(Tables()) && allocatedImages == old(allocatedImages) && pool.images == old(pool.images)
         else
           var t := old(aliasedImages[alias]);
           && Tables() == old(Tables()).(requestedImages := old(requestedImages)[t := RequestOrDefault(old(requestedImages), t)])
           && if succeeded then
                && t in allocatedImages && allocatedImages == old(allocatedImages)[t := allocatedImages[t]]
                && pool.images == old(pool.images) + {allocatedImages[t]}
              else
                allocatedImages == old(allocatedImages) && pool.images == old(pool.images)
    }

    /** Any of `request_image`, `request_buffer`, `read` and `write`. */
    method Call(call: RegistryCall) returns (r: CallResult)
      modifies this
      ensures (Tables(), r) == Apply(old(Tables()), call)
      ensures allocatedImages == old(allocatedImages) && allocatedBuffers == old(allocatedBuffers)
    {
      var (t, res) := Apply(Tables(), call);
      SetTables(t);
      r := res;
    }

    /** `request_image`. */
    method RequestImage(usage: Flags, format: Format, extent: Extent3D) returns (h: TransientImageHandle)
      modifies this
      ensures (Tables(), ImageRequested(h)) == Apply(old(Tables()), RegistryCall.RequestImage(usage, format, extent))
      ensures allocatedImages == old(allocatedImages) && allocatedBuffers == old(allocatedBuffers)
    {
      h := TransientImageHandle(nextTransientImageId);
      nextTransientImageId := NextU32(nextTransientImageId);
      requestedImages := requestedImages[h := ImageRequest(usage, format, extent)];
    }

    /** `request_buffer`. */
    method RequestBuffer(usage: Flags, size: uint64) returns (h: TransientBufferHandle)
      modifies this
      ensures (Tables(), BufferRequested(h)) == Apply(old(Tables()), RegistryCall.RequestBuffer(usage, size))
      ensures allocatedImages == old(allocatedImages) && allocatedBuffers == old(allocatedBuffers)
    {
      h := TransientBufferHandle(nextTransientBufferId);
      nextTransientBufferId := NextU32(nextTransientBufferId);
      requestedBuffers := requestedBuffers[h := BufferRequest(usage, size)];
    }

    /** `read` and `write` on an image handle (identical bodies). */
    method AliasImage(image: TransientImageHandle) returns (a: AliasedImageHandle)
      modifies this
      ensures (Tables(), ImageAliased(a)) == Apply(old(Tables()), ReadImage(image))
      ensures (Tables(), ImageAliased(a)) == Apply(old(Tables()), WriteImage(image))
      ensures allocatedImages == old(allocatedImages) && allocatedBuffers == old(allocatedBuffers)
    {
      a := AliasedImageHandle(nextAliasImageId);
      nextAliasImageId := NextU32(nextAliasImageId);
      aliasedImages := aliasedImages[a := image];
    }

    /** `read` and `write` on a buffer handle: they only record the alias. */
    method AliasBuffer(buffer: TransientBufferHandle) returns (a: AliasedBufferHandle)
      modifies this
      ensures (Tables(), BufferAliased(a)) == Apply(old(Tables()), ReadBuffer(buffer))
      ensures (Tables(), BufferAliased(a)) == Apply(old(Tables()), WriteBuffer(buffer))
      ensures allocatedImages == old(allocatedImages) && allocatedBuffers == old(allocatedBuffers)
    {
      a := AliasedBufferHandle(nextAliasBufferId);
      nextAliasBufferId := NextU32(nextAliasBufferId);
      unallocatedAliasBuffers := unallocatedAliasBuffers[a := buffer];
    }

    /**
     * `find_or_create_image`: none for an unknown alias; the cached allocation of its transient
     * handle; or, on the first resolution, one pool allocation from the request (a default
     * request is inserted when the handle was never requested), cached only when it succeeds.
     */
    method FindOrCreateImage(alias: AliasedImageHandle) returns (r: Result<Option<MemoryPools.ImageAllocation>>)
      modifies this, pool, pool.driver, pool.context, pool.stats
      ensures allocatedBuffers == old(allocatedBuffers)
      ensures alias !in old(aliasedImages) ==>
        r == Ok(None) && Tables() == old(Tables()) && allocatedImages == old(allocatedImages)
        && PoolUntouched(pool)
      ensures alias in old(aliasedImages) && old(aliasedImages[alias]) in old(allocatedImages) ==>
        r == Ok(Some(old(allocatedImages[aliasedImages[alias]])))
        && Tables() == old(Tables()) && allocatedImages == old(allocatedImages)
        && PoolUntouched(pool)
      ensures alias in old(aliasedImages) && old(aliasedImages[alias]) !in old(allocatedImages) ==>
        var t := old(aliasedImages[alias]);
        var req := RequestOrDefault(old(requestedImages), t);
        && Tables() == old(Tables()).(requestedImages := old(requestedImages)[t := req])
        && pool.ImageAllocationOutcome(RegistryImageInfo(req), MemoryPools.UsageValue(MemoryPools.GpuOnly), AsPoolResult(r))
        && (r.Ok? ==> r.value.Some?)
        && allocatedImages == (if r.Ok? then old(allocatedImages)[t := r.value.value] else old(allocatedImages))
        && (old(pool.ImagesCounted()) ==> pool.ImagesCounted())
      ensures ResolutionEffect(alias, r.Ok?)
      ensures old(CacheFromPool()) ==> CacheFromPool()
      ensures forall a :: a in allocatedImages.Values ==> a in old(allocatedImages.Values) || fresh(a)
      ensures old(allocatedImages.Values) <= allocatedImages.Values
    {
      if alias !in aliasedImages {
        return Ok(None);
      }
      var t := aliasedImages[alias];
      if t in allocatedImages {
        return Ok(Some(allocatedImages[t]));
      }
      r := AllocateFor(alias);
    }

    /** `find_or_create_image` for an alias whose target is not cached yet. */
    method AllocateFor(alias: AliasedImageHandle) returns (r: Result<Option<MemoryPools.ImageAllocation>>)
      requires alias in aliasedImages && aliasedImages[alias] !in allocatedImages
      modifies this, pool, pool.driver, pool.context, pool.stats
      ensures allocatedBuffers == old(allocatedBuffers)
      ensures
        var t := old(aliasedImages[alias]);
        var req := RequestOrDefault(old(requestedImages), t);
        && Tables() == old(Tables()).(requestedImages := old(requestedImages)[t := req])
        && pool.ImageAllocationOutcome(RegistryImageInfo(req), MemoryPools.UsageValue(MemoryPools.GpuOnly), AsPoolResult(r))
        && (r.Ok? ==> r.value.Some?)
        && allocatedImages == (if r.Ok? then old(allocatedImages)[t := r.value.value] else old(allocatedImages))
        && (old(pool.ImagesCounted()) ==> pool.ImagesCounted())
      ensures ResolutionEffect(alias, r.Ok?)
      ensures old(CacheFromPool()) ==> CacheFromPool()
      ensures forall a :: a in allocatedImages.Values ==> a in old(allocatedImages.Values) || fresh(a)
      ensures old(allocatedImages.Values) <= allocatedImages.Values
    {
      var t := aliasedImages[alias];
      var req := RequestOrDefault(requestedImages, t);
      // The source records the request first; the allocation does not read the request table,
      // so recording it just after the call changes nothing.
      var a := pool.AllocateImage(RegistryImageInfo(req), MemoryPools.UsageValue(MemoryPools.GpuOnly));
      requestedImages := requestedImages[t := req];
      if a.Err? {
        return Err(a.error);
      }
      FreshKeyValues(allocatedImages, t, a.value);
      allocatedImages := allocatedImages[t := a.value];
      return Ok(Some(a.value));
    }

    /** Caching under a new key adds exactly that value to the cached ones. */
    static lemma FreshKeyValues<K, V>(m: map<K, V>, k: K, v: V)
      requires k !in m
      ensures m[k := v].Values == m.Values + {v}
    {
      forall x | x in m.Values
        ensures x in m[k := v].Values
      {
        var j :| j in m && m[j] == x;
        assert m[k := v][j] == x;
      }
      assert m[k := v][k] == v;
    }

    /** `image`: the image handle of the resolved allocation, or none. */
    method Image(alias: AliasedImageHandle) returns (r: Result<Option<Handle>>)
      modifies this, pool, pool.driver, pool.context, pool.stats
      ensures alias !in old(aliasedImages) ==> r == Ok(None) && Tables() == old(Tables()) && PoolUntouched(pool)
      ensures alias in old(aliasedImages) && old(aliasedImages[alias]) in old(allocatedImages) ==>
        r == Ok(Some(old(allocatedImages[aliasedImages[alias]].image))) && PoolUntouched(pool)
      ensures r.Ok? && r.value.Some? ==>
        && alias in old(aliasedImages) && old(aliasedImages[alias]) in allocatedImages
        && r.value.value == allocatedImages[old(aliasedImages[alias])].image
      ensures r.Ok? ==> r.value == CachedImage(alias)
      ensures ResolutionEffect(alias, r.Ok?)
      ensures old(CacheFromPool()) ==> CacheFromPool()
      ensures forall a :: a in allocatedImages.Values ==> a in old(allocatedImages.Values) || fresh(a)
      ensures old(allocatedImages.Values) <= allocatedImages.Values
    {
      var found := FindOrCreateImage(alias);
      if found.Err? {
        return Err(found.error);
      }
      if found.value.None? {
        return Ok(None);
      }
      return Ok(Some(found.value.value.image));
    }

    /** `image_view`: the view handle of the resolved allocation, or none. */
    method ImageView(alias: AliasedImageHandle) returns (r: Result<Option<Handle>>)
      modifies this, pool, pool.driver, pool.context, pool.stats
      ensures alias !in old(aliasedImages) ==> r == Ok(None) && Tables() == old(Tables()) && PoolUntouched(pool)
      ensures alias in old(aliasedImages) && old(aliasedImages[alias]) in old(allocatedImages) ==>
        r == Ok(Some(old(allocatedImages[aliasedImages[alias]].view))) && PoolUntouched(pool)
      ensures r.Ok? && r.value.Some? ==>
        && alias in old(aliasedImages) && old(aliasedImages[alias]) in allocatedImages
        && r.value.value == allocatedImages[old(aliasedImages[alias])].view
      ensures r.Ok? ==> r.value == CachedView(alias)
      ensures ResolutionEffect(alias, r.Ok?)
      ensures old(CacheFromPool()) ==> CacheFromPool()
      ensures forall a :: a in allocatedImages.Values ==> a in old(allocatedImages.Values) || fresh(a)
      ensures old(allocatedImages.Values) <= allocatedImages.Values
    {
      var found := FindOrCreateImage(alias);
      if found.Err? {
        return Err(found.error);
      }
      if found.value.None? {
        return Ok(None);
      }
      return Ok(Some(found.value.value.view));
    }

    /** `buffer`: buffers are never materialised, so this is null whatever was requested. */
    function Buffer(alias: AliasedBufferHandle): (r: Option<Handle>)
      ensures r == None
    {
      None
    }

    /** `buffer_view`: null whatever was requested. */
    function BufferView(alias: AliasedBufferHandle): (r: Option<Handle>)
      ensures r == None
    {
      None
    }
  }

  /**
   * The cache across aliases: once an alias of a transient handle resolved, any other alias of
   * the same handle resolves to the same allocation without a further pool call.
   */
  method ResolveThroughTwoAliases(reg: TaskRegistry, a1: AliasedImageHandle, a2: AliasedImageHandle)
    returns (r1: Result<Option<MemoryPools.ImageAllocation>>, r2: Result<Option<MemoryPools.ImageAllocation>>)
    requires a1 in reg.aliasedImages && a2 in reg.aliasedImages
    requires reg.aliasedImages[a1] == reg.aliasedImages[a2]
    modifies reg, reg.pool, reg.pool.driver, reg.pool.context, reg.pool.stats
    ensures r1.Ok? ==> r2 == r1
    ensures r1.Ok? ==> |reg.pool.driver.imageRequests| <= |old(reg.pool.driver.imageRequests)| + 1
    ensures old(reg.aliasedImages[a1]) in old(reg.allocatedImages) ==>
      reg.pool.driver.imageRequests == old(reg.pool.driver.imageRequests)
  {
    r1 := reg.FindOrCreateImage(a1);
    ghost var requests := reg.pool.driver.imageRequests;
    r2 := reg.FindOrCreateImage(a2);
    if r1.Ok? {
      assert reg.pool.driver.imageRequests == requests;
    }
  }
}
