# Vulkan-Samples framework core, modelled in Dafny

This project models the host-side bookkeeping of the Vulkan-Samples component framework (`vkb`,
`sg` and the GUI component) and proves properties of that model. Every call into Vulkan, VMA,
glslang, ImGui or the entt registry is replaced by data: a `Platform` or oracle parameter that
says what the driver answers, or an event log (`DeviceLog`) that records which device calls were
made and in what order.

Modules, one per core source file:

- `Wrappers`, `Vk`: `Option`/`Result`/`Outcome` for the source's null results and exceptions;
  handles, fixed-width integers with their wrap-around, queue flag bit sets, and the device-call log.
- `CacheMaps`, `UtilMaps`: `CacheMap` (find-or-insert with a factory, replace-emplace, clear) and
  `vkb::Map` (find-or-emplace, contains) as classes over a `map`.
- `Profiling`: the `Plot<int64_t>` counter store; `plot`, `increment`, `decrement`, `reset`.
- `MemoryPools`: `MemoryPool` with `ImageAllocation` and `BufferAllocation`. The process-wide VMA
  allocator is a `Driver` object. It is created lazily on first use, and destroying a context does
  not reset it, as in the code. It keeps the "Image Allocations" and "Buffer Allocations" counters
  equal to the live allocations. The module covers `to_vma_memory_usage`, the default image view,
  freeing through the allocations' destructors, and the three `update` overloads.
- `Fences`, `Synchronization`: `Fence` with its cached `signaled` flag, and `SynchronizationGroup`.
- `Contexts`: `Context` teardown (cleanups in reverse order, then device, messengers, instance),
  `add_cleanup_callback`, `get_queue`, `get_queue_family_index`.
- `ContextBuilders`: `InstanceBuilder`, `PhysicalDeviceSelector`, `DeviceBuilder` and `ContextBuilder`.
  They cover required versus optional extensions and layers, the validation-layer fallback list,
  the debug-messenger choice, device scoring, queue-family choice, the feature check and queue
  retrieval.
- `TaskRegistries`: `TaskRegistry` handle counters (32-bit, wrapping), aliases, and image
  materialisation from the memory pool, cached per transient handle.
- `TaskGraphs`: `TaskGraph` (`add_task`, `build`), `TaskGraphExecution::execute` (command pool,
  in-order recording, submit with a fence) and `TaskExecutionContext` (deferred cleanups in
  reverse order, fence waits and queries).
- `Loggers`: the two default debug callbacks, their severity and report-flag mappings, and their
  forwarding.
- `ShaderCompilers`: `FindShaderLanguage`, the `#define` preamble and `D<name>` process list, and
  the failure paths of `compile`.
- `SceneGraphs`, `DataViews`: node parent/child links, `reparent`, the root set, `create`,
  `reset`; `DataView::from_memory`.
- `Widgets`, `Guis`, `Plots`: `##` id normalisation, `WidgetBuilder`, group drawing order;
  `GUI::add`/`remove`/`draw` over the widget list and style; the `ScrollingBuffer` ring buffer.

Some behaviours of the code are easy to misread; the model follows the code:

- `Fence::is_signaled` is not a latch: a bound fence overwrites its cache with every status query,
  and a `wait_until` timeout clears it.
- Task-registry ids come from `uint32_t` counters that wrap after 2^32 ids; they are not
  monotonic forever.
- The VMA allocator is one per process, not one per context, and its cleanup callback does not
  reset it.
- Buffer aliases are never materialised; `buffer` and `buffer_view` always return null.
- `TaskGraph::build` copies the registry rather than moving it.
- `DeviceBuilder::build` reports a missing required extension as "Required layer is not
  available: ...". The model keeps that message.

## Model

| member | source | states |
|---|---|---|
| CacheMaps.InsertSize | components/core/include/core/containers/cache_map.hpp:25-33 | inserting a key grows the map by one exactly when the key was absent |
| CacheMaps.CacheMap.constructor | components/core/include/core/containers/cache_map.hpp:18 | a new cache map is empty |
| CacheMaps.CacheMap.FindOrInsert | components/core/include/core/containers/cache_map.hpp:25-33 | the result is the value now stored at the key; a present key leaves the map unchanged and returns the old value; an absent key gets exactly the factory's value and the size grows by one |
| CacheMaps.CacheMap.ReplaceEmplace | components/core/include/core/containers/cache_map.hpp:37-58 | afterwards the key maps to the given value and every other entry is unchanged, whichever branch runs; the size grows only for a new key |
| CacheMaps.CacheMap.Clear | components/core/include/core/containers/cache_map.hpp:62 | clearing leaves no entries |
| UtilMaps.Map.constructor | components/core/include/core/util/map.hpp:24 | a new map is empty |
| UtilMaps.Map.FindOrEmplace | components/core/include/core/util/map.hpp:30-38 | the key is present afterwards and the result is its value; an existing value is kept even if another is passed; an absent key gets the passed value; at most one entry is added |
| UtilMaps.FindOrEmplaceThenContains | components/core/include/core/util/map.hpp:30-43 | `contains` answers true for any key just passed to `find_or_emplace` |
| Profiling.PlotStore.constructor | components/core/include/core/util/profiling.hpp:72-79 | the store starts with no plots |
| Profiling.PlotStore.Plot | components/core/include/core/util/profiling.hpp:37-42 | the named plot holds the value and no other plot changes |
| Profiling.PlotStore.Increment | components/core/include/core/util/profiling.hpp:44-49 | the named plot grows by the amount, starting from 0 when it was absent; no other plot changes |
| Profiling.PlotStore.Decrement | components/core/include/core/util/profiling.hpp:51-56 | the named plot shrinks by the amount, starting from 0 when it was absent; no other plot changes |
| Profiling.PlotStore.Reset | components/core/include/core/util/profiling.hpp:58-63 | the named plot reads 0 and no other plot changes |
| Profiling.UpdateTouchesOnlyItsName | components/core/include/core/util/profiling.hpp:37-63 | writing one name leaves every other name's value as it was and gives the written name the written value |
| Profiling.IncrementThenDecrement | components/core/include/core/util/profiling.hpp:44-56 | incrementing and then decrementing one name by the same amount restores its value and leaves every other name unchanged |
| MemoryPools.ToVmaMemoryUsage | components/vulkan/src/pools/memory_pool.cpp:143-160 | each of the five enumerators maps to its own VMA usage (GPU_ONLY to GPU_ONLY, CPU_ONLY to CPU_ONLY, CPU_TO_GPU to CPU_TO_GPU, LAZY_ALLOC to GPU_LAZILY_ALLOCATED, AUTO to AUTO); any other raw value is an error ("Invalid memory usage"), and only such values are |
| MemoryPools.ToVmaMemoryUsageInjective | components/vulkan/src/pools/memory_pool.cpp:143-160 | every enumerator is accepted, and two enumerators with the same VMA usage are the same enumerator |
| MemoryPools.Driver.constructor | components/vulkan/src/pools/memory_pool.cpp:63 | the process-wide allocator starts null, with no VMA or device requests made |
| MemoryPools.Driver.CreateAllocator | components/vulkan/src/pools/memory_pool.cpp:78 | `vmaCreateAllocator` yields the next outcome of its oracle, counts one attempt and touches no other request log |
| MemoryPools.Driver.CreateImage | components/vulkan/src/pools/memory_pool.cpp:173 | `vmaCreateImage` answers the oracle's outcome for this call and records the request with its VMA usage |
| MemoryPools.Driver.CreateBuffer | components/vulkan/src/pools/memory_pool.cpp:209 | `vmaCreateBuffer` answers the oracle's outcome for this call and records the request with its VMA usage |
| MemoryPools.Driver.CreateImageView | components/vulkan/src/pools/memory_pool.cpp:192 | `createImageView` answers the oracle's view for this call and records the create info |
| MemoryPools.ViewCreateInfoFor | components/vulkan/src/pools/memory_pool.cpp:182-190 | the view is 2D over the new image, in the image's format, with the colour aspect, covering every mip level and array layer from 0 |
| MemoryPools.LittleEndianRoundTrip | components/vulkan/include/vulkan/pools/memory_pool.hpp:139-142 | the object representation of a value that fits in n bytes decodes back to that value |
| MemoryPools.ValueUpdateAsWrittenStoresAddress | components/vulkan/include/vulkan/pools/memory_pool.hpp:161-165 | as written, what the single-value update stores decodes to the argument's address, so two values with different bytes cannot both be stored faithfully |
| MemoryPools.ValueUpdateRoundTrip | components/vulkan/include/vulkan/pools/memory_pool.hpp:138-142 | corrected, `update(uint32_t{v})` stores `sizeof(uint32_t)` = 4 bytes that decode back to `v` for every `v`; as written (memory_pool.hpp:161-165) it stores 8 bytes, which decode to `v` only when the address equals `v` |
| MemoryPools.VectorBytesLayout | components/vulkan/include/vulkan/pools/memory_pool.hpp:132-136 | the vector update writes `size() * sizeof(T)` bytes, element i at bytes `[i*sizeof(T), (i+1)*sizeof(T))` |
| MemoryPools.ImageAllocation.constructor | components/vulkan/src/pools/memory_pool.cpp:54-59 | an image allocation holds the pool, image, view and memory it was given |
| MemoryPools.ImageAllocation.Destroy | components/vulkan/src/pools/memory_pool.cpp:46-52 | the destructor frees a valid allocation through its pool (view then image, count down by one) and does nothing to an invalid one |
| MemoryPools.BufferAllocation.constructor | components/vulkan/src/pools/memory_pool.cpp:33-36 | a buffer allocation holds the pool, buffer, memory and size it was given |
| MemoryPools.BufferAllocation.Destroy | components/vulkan/src/pools/memory_pool.cpp:38-44 | the destructor frees a valid allocation through its pool (one destroy call, count down by one) and does nothing to an invalid one |
| MemoryPools.BufferAllocation.Update | components/vulkan/include/vulkan/pools/memory_pool.hpp:150-153 | the raw update writes exactly the first `size` bytes, and only through a valid allocation |
| MemoryPools.BufferAllocation.UpdateVector | components/vulkan/include/vulkan/pools/memory_pool.hpp:155-159 | the vector update writes the elements' bytes back to back, and only through a valid allocation |
| MemoryPools.BufferAllocation.UpdateValueAsWritten | components/vulkan/include/vulkan/pools/memory_pool.hpp:161-165 | as written, the value update writes the eight bytes of the argument's address |
| MemoryPools.BufferAllocation.UpdateValue | components/vulkan/include/vulkan/pools/memory_pool.hpp:161-165 | corrected, the value update writes the value's own bytes |
| MemoryPools.ImageFreeCalls | components/vulkan/src/pools/memory_pool.cpp:247-253 | freeing an image always ends with the image's destruction, preceded by the view's exactly when there is a view |
| MemoryPools.MemoryPool.constructor | components/vulkan/src/pools/memory_pool.cpp:133-141 | a new pool has handed out nothing and both allocation counts agree with the live allocations |
| MemoryPools.MemoryPool.Allocator | components/vulkan/src/pools/memory_pool.cpp:61-87 | the allocator is created on first use only, its destruction is registered with the context exactly when creation succeeds, a failure is reported and retried on the next call, and an existing allocator is returned unchanged |
| MemoryPools.MemoryPool.CreateImageAllocation | components/vulkan/src/pools/memory_pool.cpp:162-195 | the allocator, the VMA usage, the image, the count and the view are reached in order, each failure stops the sequence; success yields a fresh valid allocation over the image the VMA oracle made and the view the device returned; "Image Allocations" rises by one on success, by at most one on failure, and the buffer counter stays |
| MemoryPools.MemoryPool.AllocateImage | components/vulkan/src/pools/memory_pool.cpp:162-195 | as above, and "Image Allocations" keeps counting the live image allocations (plus images whose view creation threw) |
| MemoryPools.MemoryPool.CreateBufferAllocation | components/vulkan/src/pools/memory_pool.cpp:197-218 | the allocator, the VMA usage, the buffer and the count are reached in order; success yields a fresh valid allocation with the requested size |
| MemoryPools.MemoryPool.AllocateBuffer | components/vulkan/src/pools/memory_pool.cpp:197-218 | as above, and "Buffer Allocations" keeps counting the live buffer allocations |
| MemoryPools.MemoryPool.FreeImage | components/vulkan/src/pools/memory_pool.cpp:238-260 | a valid image loses its image and memory handles (the view handle stays), the view is destroyed first when present, and the count drops by one; an invalid one is left alone; the count invariant is kept |
| MemoryPools.MemoryPool.FreeBuffer | components/vulkan/src/pools/memory_pool.cpp:220-236 | a valid buffer is destroyed, its handles reset and the count drops by one; an invalid one is left alone; the count invariant is kept |
| MemoryPools.MemoryPool.UpdateBuffer | components/vulkan/src/pools/memory_pool.cpp:262-275 | a valid allocation gets exactly the first `size` bytes written (map, copy, unmap); an invalid one gets nothing, and the size is not compared with the buffer's |
| Contexts.ReverseCleanupCallsAppend | components/vulkan/src/context.cpp:24-31 | callbacks registered later run earlier: the calls for `a + b` are those of `b` followed by those of `a` |
| Contexts.ReverseCleanupCallsMembers | components/vulkan/src/context.cpp:25-31 | a call is made exactly when some registered callback that is not empty performs it |
| Contexts.AppendIfLive | components/vulkan/src/context.cpp:33-50 | a destroy call is made exactly when its handle is not null |
| Contexts.TeardownOrder | components/vulkan/src/context.cpp:22-51 | teardown runs every cleanup before the device is destroyed, the debug-utils messenger right after the device, and the instance last |
| Contexts.FirstQueueGroup | components/vulkan/src/context.cpp:60-67 | the first group that shares a flag bit and holds a queue, and no earlier group qualifies; none exactly when no group qualifies |
| Contexts.QueueLookup | components/vulkan/src/context.cpp:58-70 | `get_queue` returns the first queue of the first group that shares a flag bit and holds a queue, and a null queue when no group qualifies |
| Contexts.FamilyLookup | components/vulkan/src/context.cpp:72-86 | `get_queue_family_index` returns the family of the first group holding the queue, or `VK_QUEUE_FAMILY_IGNORED` when no group holds it |
| Contexts.GroupHolding | components/vulkan/src/context.cpp:72-86 | the index of the first queue group holding the queue, none exactly when no group holds it |
| Contexts.Context.constructor | components/vulkan/src/context.cpp:22-51 | a context starts with every handle null and nothing registered |
| Contexts.Context.AddCleanupCallback | components/vulkan/src/context.cpp:53-56 | the callback is appended last and nothing else in the context changes |
| Contexts.Context.GetQueue | components/vulkan/src/context.cpp:58-70 | the context's `get_queue`: the first queue of its first group that shares a flag bit and holds a queue, and a null queue when none qualifies |
| Contexts.Context.GetQueueFamilyIndex | components/vulkan/src/context.cpp:72-86 | the context's `get_queue_family_index`: the family of its first group holding the queue, or `VK_QUEUE_FAMILY_IGNORED` when no group holds it |
| Contexts.Context.Destroy | components/vulkan/src/context.cpp:22-51 | the destructor's device calls are the cleanups in reverse order, then each owned handle that is not null: device, messengers, instance |
| Contexts.Context.RunCleanups | components/vulkan/src/context.cpp:24-31 | the loop runs the cleanups from the last registered to the first, skipping empty ones |
| Fences.WaitStepAgreesWithCache | components/vulkan/src/async/fence.cpp:48-69 | a wait reports true exactly when the fence is unbound or the device reports success, fails exactly on a bound fence whose device wait fails, and whenever a bound fence's wait returns, the cached flag equals what it returned |
| Fences.Fence.constructor | components/vulkan/src/async/fence.cpp:24-29 | the cached flag starts set exactly when the create flags carry the signaled bit, and the handle is the one `createFence` returned |
| Fences.Fence.IsSignaled | components/vulkan/src/async/fence.cpp:39-46 | a bound fence asks the device once and the cache becomes its answer, so a signaled fence can read unsignaled later; an unbound fence returns the cache unchanged |
| Fences.Fence.WaitUntil | components/vulkan/src/async/fence.cpp:48-69 | an unbound fence returns true without waiting; a bound one waits once with the given timeout, and success sets the cache and returns true, a timeout clears it and returns false, any other result fails and leaves it |
| Fences.Fence.Wait | components/vulkan/include/vulkan/async/synchronization.hpp:33-36 | `wait()` is `wait_until(UINT64_MAX)` with the boolean dropped; its failure still propagates |
| Fences.Fence.ReleaseHandle | components/vulkan/src/async/fence.cpp:71-75 | the handle is returned and the cache cleared, with no device call |
| Fences.Fence.Destroy | components/vulkan/src/async/fence.cpp:31-37 | the fence is destroyed exactly when both its context and its handle are present |
| Synchronization.SynchronizationGroup.constructor | components/vulkan/include/vulkan/async/synchronization.hpp:46-57 | a group takes over the points it is given, in order |
| Vk.NextU32 | components/vulkan/include/vulkan/graph/task_registry.hpp:70 | the post-incremented `uint32_t` counter grows by one and wraps to 0 after `2^32 - 1` |
| TaskRegistries.ApplyUsesItsCounter | components/vulkan/include/vulkan/graph/task_registry.hpp:68-108 | each call takes its handle from the counter of its own id space, which then advances by one with wrap-around, and the other counters stay |
| TaskRegistries.RequestImageTouchesOnlyNewHandle | components/vulkan/include/vulkan/graph/task_registry.hpp:68-73 | a request stores its descriptor under the new handle only; every other request, alias and buffer entry reads as before, so identical descriptors still get their own handles |
| TaskRegistries.ReadIsWrite | components/vulkan/include/vulkan/graph/task_registry.hpp:82-108 | `read` and `write` are the same operation for images and for buffers, and the new alias points at the given handle |
| TaskRegistries.RunCalls | components/vulkan/include/vulkan/graph/task_registry.hpp:68-108 | a run of registry calls yields one result per call |
| TaskRegistries.NextIsWrap | components/vulkan/include/vulkan/graph/task_registry.hpp:70 | post-incrementing is adding one modulo 2^32 |
| TaskRegistries.IdsFollowCounter | components/vulkan/include/vulkan/graph/task_registry.hpp:68-108 | the call at position i gets its space's starting counter plus the number of earlier calls in that space, modulo 2^32, whatever the other spaces do |
| TaskRegistries.HandlesDistinct | components/vulkan/include/vulkan/graph/task_registry.hpp:68-108 | two calls in the same id space get different handles as long as that space hands out at most 2^32 ids |
| TaskRegistries.WrapDistinct | components/vulkan/include/vulkan/graph/task_registry.hpp:142-146 | two counter values fewer than 2^32 steps apart never wrap onto each other |
| TaskRegistries.RegistryImageInfo | components/vulkan/include/vulkan/graph/task_registry.hpp:170-180 | the image to materialise is 2D with one mip level and one layer, one sample, optimal tiling, exclusive sharing and an undefined initial layout, in the requested format, extent and usage |
| TaskRegistries.TaskRegistry.constructor | components/vulkan/include/vulkan/graph/task_registry.hpp:62-64 | a registry starts with every counter at 0 and every table empty |
| TaskRegistries.TaskRegistry.SetTables | components/vulkan/include/vulkan/graph/task_registry.hpp:142-156 | the counters and the request and alias tables become the given ones; the allocation caches stay |
| TaskRegistries.TaskRegistry.Clone | components/vulkan/include/vulkan/graph/task_registry.hpp:139-202 | the implicit copy is a new registry with the same context, pool, tables and (shared) allocation caches |
| TaskRegistries.TaskRegistry.Call | components/vulkan/include/vulkan/graph/task_registry.hpp:68-108 | any request, read or write changes the tables only as the call's step on them says, and leaves the allocation caches alone |
| TaskRegistries.TaskRegistry.RequestImage | components/vulkan/include/vulkan/graph/task_registry.hpp:68-73 | `request_image` is the image-request step on the tables |
| TaskRegistries.TaskRegistry.RequestBuffer | components/vulkan/include/vulkan/graph/task_registry.hpp:75-80 | `request_buffer` is the buffer-request step on the tables |
| TaskRegistries.TaskRegistry.AliasImage | components/vulkan/include/vulkan/graph/task_registry.hpp:82-94 | `read` and `write` on an image handle are both the image-alias step on the tables |
| TaskRegistries.TaskRegistry.AliasBuffer | components/vulkan/include/vulkan/graph/task_registry.hpp:96-108 | `read` and `write` on a buffer handle are both the buffer-alias step on the tables |
| TaskRegistries.TaskRegistry.FindOrCreateImage | components/vulkan/include/vulkan/graph/task_registry.hpp:159-192 | an unknown alias yields none and touches nothing; a cached allocation is returned with no pool call; otherwise the request is read (a default one inserted when missing), one GPU-only allocation is made from it, and only a success is cached; what changes in the tables, the cache and the pool's handed-out allocations is exactly the resolution's effect, nothing cached is dropped, and a cache drawn from the pool stays so |
| TaskRegistries.TaskRegistry.AllocateFor | components/vulkan/include/vulkan/graph/task_registry.hpp:168-188 | the first resolution of a handle: the request (or a default one) is inserted, one GPU-only allocation is made from it, and it is cached under the handle only when it succeeds |
| TaskRegistries.TaskRegistry.FreshKeyValues | components/vulkan/include/vulkan/graph/task_registry.hpp:188 | emplacing under a handle not yet cached adds exactly the new allocation to the cached ones |
| TaskRegistries.TaskRegistry.Image | components/vulkan/include/vulkan/graph/task_registry.hpp:110-117 | the image handle of the resolved allocation, none for an unknown alias, and an existing allocation's image without any pool call; the registry and pool change only by the resolution's effect, and a success answers the handle cached under the alias |
| TaskRegistries.TaskRegistry.ImageView | components/vulkan/include/vulkan/graph/task_registry.hpp:119-126 | the view handle of the resolved allocation, none for an unknown alias, and an existing allocation's view without any pool call; the registry and pool change only by the resolution's effect, and a success answers the view cached under the alias |
| TaskRegistries.TaskRegistry.Buffer | components/vulkan/include/vulkan/graph/task_registry.hpp:128-131 | `buffer` is null whatever was requested |
| TaskRegistries.TaskRegistry.BufferView | components/vulkan/include/vulkan/graph/task_registry.hpp:133-136 | `buffer_view` is null whatever was requested |
| TaskRegistries.ResolveThroughTwoAliases | components/vulkan/include/vulkan/graph/task_registry.hpp:159-192 | once one alias of a transient handle resolves, another alias of the same handle resolves to the same allocation, with at most one pool allocation between them and none when it was already cached |
| TaskGraphs.ShapedAppend | components/vulkan/include/vulkan/graph/task_graph.hpp:154-162 | recording two pieces one after the other matches the two shapes one after the other |
| TaskGraphs.TasksCommandsAppend | components/vulkan/include/vulkan/graph/task_graph.hpp:154-160 | recording a task list split anywhere is recording the two halves in turn |
| TaskGraphs.TasksCleanupsAppend | components/vulkan/include/vulkan/graph/task_graph.hpp:154-160 | the cleanups a split task list defers are those of the first half followed by those of the second |
| TaskGraphs.TasksRecordAppended | components/vulkan/include/vulkan/graph/task_graph.hpp:154-160 | a closure appended last records its statements after everything before it |
| TaskGraphs.TasksSkipEmpty | components/vulkan/include/vulkan/graph/task_graph.hpp:156 | an empty closure is skipped and records nothing |
| TaskGraphs.TasksRecordFirst | components/vulkan/include/vulkan/graph/task_graph.hpp:154-160 | the first closure records before all the others |
| TaskGraphs.StepsCleanupsAreCallbacks | components/vulkan/include/vulkan/graph/task_graph.hpp:40-43 | a closure that defers only non-empty functions leaves only non-empty cleanups |
| TaskGraphs.TasksCleanupsAreCallbacks | components/vulkan/include/vulkan/graph/task_graph.hpp:40-43 | tasks that defer only non-empty functions leave only non-empty cleanups |
| TaskGraphs.LastEmpty | components/vulkan/include/vulkan/graph/task_graph.hpp:96-103 | the last empty cleanup, where the reverse loop meets a bad call first; none exactly when every cleanup is a real function |
| TaskGraphs.ConjoinWaitsTrue | components/vulkan/include/vulkan/graph/task_graph.hpp:70-81 | waiting over several fences is true exactly when every fence's wait is, and true for no fences |
| TaskGraphs.ConjoinWaitsSnoc | components/vulkan/include/vulkan/graph/task_graph.hpp:70-81 | after fences that all reported true, the wait's answer is the next fence's |
| TaskGraphs.TaskExecutionContext.constructor | components/vulkan/include/vulkan/graph/task_graph.hpp:32-33 | the execution context holds its own copy of the registry, equal to the one given, with no cleanups or fences |
| TaskGraphs.TaskExecutionContext.Defer | components/vulkan/include/vulkan/graph/task_graph.hpp:40-43 | `defer_cleanup` pushes the cleanup last and leaves the fences alone |
| TaskGraphs.TaskExecutionContext.AppendFence | components/vulkan/include/vulkan/graph/task_graph.hpp:65-68 | `append_fence` pushes the fence last and leaves the cleanups alone |
| TaskGraphs.TaskExecutionContext.WaitUntil | components/vulkan/include/vulkan/graph/task_graph.hpp:70-81 | the fences are waited on in order until the first that does not report true; the result is true exactly when all report true; for distinct fences each answer is that fence's own wait |
| TaskGraphs.TaskExecutionContext.IsSignaled | components/vulkan/include/vulkan/graph/task_graph.hpp:83-94 | the fences are queried in order until the first that is not signaled; the result is true exactly when all are; for distinct fences each answer is that fence's own status |
| TaskGraphs.TaskExecutionContext.Destroy | components/vulkan/include/vulkan/graph/task_graph.hpp:96-111 | the cleanups run from the last deferred to the first; calling an empty function stops the run there with a failure, after every later cleanup already ran, and nothing else happens; otherwise the members follow: the fences vector front to back, destroying each fence no other owner holds (each once), then the registry copy, freeing exactly the cached allocations no other owner holds, each once, and leaving them invalid; the log gets the cleanups', fences' and frees' calls in that order; the pool's image counter stays equal to its live allocations |
| TaskGraphs.TaskExecutionContext.RunCleanups | components/vulkan/include/vulkan/graph/task_graph.hpp:96-103 | the destructor's body: the cleanups' calls in reverse order, or, at an empty function, a failure after the later ones only |
| TaskGraphs.TaskExecutionContext.ReleaseMembers | components/vulkan/include/vulkan/graph/task_graph.hpp:105-111 | the members' destructors after the body: the fences' destroy calls front to back, then the frees of exactly the cached allocations no other owner holds, each once |
| TaskGraphs.TaskExecutionContext.ReleaseFences | components/vulkan/src/async/fence.cpp:31-37 | destroying the fences vector logs, front to back, the destroy call of each fence at its last reference when no other owner holds it |
| TaskGraphs.TaskExecutionContext.ReleaseImages | components/vulkan/src/pools/memory_pool.cpp:238-260 | destroying the registry copy frees each cached allocation no other owner holds exactly once, logging its view and image frees, and leaves each invalid |
| TaskGraphs.TaskExecutionContext.DestroyUnwinding | components/vulkan/include/vulkan/graph/task_graph.hpp:96-111 | destroying a context with no fences and only real cleanups whose last call is `last`: the allocations no one else holds are freed, and after `last` the log holds only image and view frees |
| TaskGraphs.FenceReleases | components/vulkan/src/async/fence.cpp:31-37 | destroying the fences vector makes only fence destroy calls |
| TaskGraphs.FenceReleasesDestroyEach | components/vulkan/include/vulkan/graph/task_graph.hpp:111 | destroying the vector destroys a handle exactly when some bound fence in it that no other owner holds has that handle |
| TaskGraphs.FenceReleasesPrefix | components/vulkan/include/vulkan/graph/task_graph.hpp:111 | a fence's destroy call, once made, stays among the calls of any longer run over the vector |
| TaskGraphs.FenceReleasesOnlyFrom | components/vulkan/include/vulkan/graph/task_graph.hpp:111 | every fence destroy call of a run comes from a bound, unheld fence of the part already destroyed |
| TaskGraphs.LastOccurrence | components/vulkan/include/vulkan/graph/task_graph.hpp:111 | the last position of the vector holding the same fence, after which that fence does not recur |
| TaskGraphs.ImageReleaseCalls | components/vulkan/src/pools/memory_pool.cpp:238-260 | freeing cached allocations makes only view and image destroy calls |
| TaskGraphs.ImageReleaseCallsFreeEach | components/vulkan/src/pools/memory_pool.cpp:46-52 | every valid allocation released gets its image and memory destroyed |
| TaskGraphs.RecordStep | components/vulkan/include/vulkan/graph/task_graph.hpp:45-63 | a lookup goes through the context's registry copy, changes it only by the resolution's effect and records the handle now cached under the alias (buffers always null); a command is recorded; a cleanup is deferred; only an image lookup can fail, and other statements leave the registry and pool alone |
| TaskGraphs.RecordTask | components/vulkan/include/vulkan/graph/task_graph.hpp:158 | a closure's statements run in order; success records its commands and defers its cleanups; a failure keeps the cleanups deferred before the failing statement |
| TaskGraphs.RecordTasks | components/vulkan/include/vulkan/graph/task_graph.hpp:152-162 | between begin and end, every non-empty task records its commands in order and defers its cleanups; a failure keeps exactly the cleanups deferred so far |
| TaskGraphs.TaskGraphExecution.constructor | components/vulkan/include/vulkan/graph/task_graph.hpp:120-123 | the execution takes its own copy of the registry and the tasks |
| TaskGraphs.TaskGraphExecution.Execute | components/vulkan/include/vulkan/graph/task_graph.hpp:125-176 | a command pool is created on the graphics queue's family and destroyed by the first deferred cleanup, so last; one submission to the graphics queue holds every task's commands in order between begin and end, with a fresh unsignaled fence kept by the returned context; on a failure, when no task deferred an empty function, the context is destroyed on the way out: every allocation it made is freed, and after the pool's destruction only image frees follow; the graph's registry is untouched |
| TaskGraphs.TaskGraphExecution.Record | components/vulkan/include/vulkan/graph/task_graph.hpp:154-162 | the tasks recorded between begin and end with their cleanups deferred after the pool's; on a throw, the context is destroyed at once with the outcome `execute` promises |
| TaskGraphs.TaskGraphExecution.Unwind | components/vulkan/include/vulkan/graph/task_graph.hpp:125-176 | leaving `execute` by an exception: the context's new allocations are freed and the pool's destruction is followed only by image frees |
| TaskGraphs.TaskGraphExecution.Prepare | components/vulkan/include/vulkan/graph/task_graph.hpp:127-140 | a new execution context, the graphics queue, the command pool on its family, and the pool's destruction deferred first |
| TaskGraphs.TaskGraphExecution.SubmitWithFence | components/vulkan/include/vulkan/graph/task_graph.hpp:162-173 | the commands are submitted with a new fence's released handle and that fence, unsignaled, is kept by the context |
| TaskGraphs.PoolDestroyedLast | components/vulkan/include/vulkan/graph/task_graph.hpp:137-140 | unwinding after a failing task, when no task deferred an empty function, every cleanup runs and the command pool is destroyed last |
| TaskGraphs.PoolThenFrees | components/vulkan/include/vulkan/graph/task_graph.hpp:137-140 | a log ending with the cleanups, whose last call is the pool's destruction, and then image frees only, holds that call with only frees after it |
| TaskGraphs.NoEmptyDeferralsPrefix | components/vulkan/include/vulkan/graph/task_graph.hpp:40-43 | the cleanups deferred before any failure point are all real functions when no task defers an empty one |
| TaskGraphs.RunCallsSnoc | components/vulkan/include/vulkan/graph/task_graph.hpp:199-205 | running one more registry call applies it to the tables reached so far and appends its result |
| TaskGraphs.TaskGraph.constructor | components/vulkan/include/vulkan/graph/task_graph.hpp:187-189 | a graph owns a new, empty registry over the given pool, and no tasks |
| TaskGraphs.TaskGraph.AddTask | components/vulkan/include/vulkan/graph/task_graph.hpp:199-205 | an empty definition adds nothing; a non-empty one makes its registry calls on the graph's registry at once, in order, and its closure is appended even if empty |
| TaskGraphs.TaskGraph.Build | components/vulkan/include/vulkan/graph/task_graph.hpp:207-210 | the execution gets a copy of the registry and the task list, which the graph no longer holds |
| Loggers.SeverityLevel | components/vulkan/src/util/logger.cpp:34-52 | a debug-utils severity never maps to Debug |
| Loggers.SeverityLevelInverse | components/vulkan/src/util/logger.cpp:34-52 | each level other than Debug comes from its own severity bit and only from it (Verbose also from anything else); any value other than the info, warning and error bits means Verbose |
| Loggers.ReportCombinedIsVerbose | components/vulkan/src/util/logger.cpp:89-110 | report flags are compared as a whole value, so two different report bits together fall through to Verbose |
| Loggers.ReportLevel | components/vulkan/src/util/logger.cpp:89-110 | the level of a debug-report flag value: Debug, Error and Info each exactly for their own bit, Warning exactly for the warning and performance-warning bits, and Verbose for anything else |
| Loggers.ReportLevelDistinguishes | components/vulkan/src/util/logger.cpp:89-110 | every single report bit gets a level other than Verbose, and only the warning and performance-warning bits share one |
| Loggers.DebugUtilsMessengerCallback | components/vulkan/src/util/logger.cpp:20-69 | the answer is always `VK_FALSE`; without `user_data` nothing is called; the simple callback comes first, with the mapped level, exactly when it is set and a message is present; the debug-utils callback comes last exactly when it is set; the report callback is never called |
| Loggers.DebugReportCallback | components/vulkan/src/util/logger.cpp:71-128 | the answer is always `VK_FALSE`; without `user_data` nothing is called; the simple callback comes first with the mapped level whenever it is set, even for a null message; the debug-report callback comes last exactly when it is set; the debug-utils callback is never called |
| ShaderCompilers.FindShaderLanguageInverse | components/vulkan/src/shaders/glsl_shader_compiler.cpp:36-85 | every glslang language is reached from its own stage bit and from no other listed stage; a value that is no listed stage (zero, a combination, an unknown bit) falls back to Vertex |
| ShaderCompilers.FindShaderLanguage | components/vulkan/src/shaders/glsl_shader_compiler.cpp:36-85 | the language is the one whose stage bit was given, or the Vertex fallback |
| ShaderCompilers.PreambleAppend | components/vulkan/src/shaders/glsl_shader_compiler.cpp:103-107 | the preamble of two runs of definitions is their two preambles one after the other |
| ShaderCompilers.PreambleContainsEachDefinition | components/vulkan/src/shaders/glsl_shader_compiler.cpp:103-107 | each definition's `#define` line sits in the preamble right after the lines of the definitions before it |
| ShaderCompilers.ProcessesPointwise | components/vulkan/src/shaders/glsl_shader_compiler.cpp:103-107 | the process list has one `D<name>` entry per definition, at the same position |
| ShaderCompilers.Compile | components/vulkan/src/shaders/glsl_shader_compiler.cpp:88-169 | glslang gets the stage's language, the source, the entry point, the `#define` preamble and the process list; its SPIR-V is returned when translation is reached, and an empty vector when parsing, linking or the intermediate fails |
| SceneGraphs.Without | components/scene_graph/src/scene_graph.cpp:56 | the erase-remove drops every occurrence of the node and keeps every other element |
| SceneGraphs.WithoutNoDuplicates | components/scene_graph/src/scene_graph.cpp:56 | dropping a node keeps a child list free of duplicates |
| SceneGraphs.WithoutKeeps | components/scene_graph/src/scene_graph.cpp:56 | every other child stays in the list |
| SceneGraphs.AppendNoDuplicates | components/scene_graph/src/scene_graph.cpp:63 | appending a node not yet listed keeps the list free of duplicates |
| SceneGraphs.SceneGraph.constructor | components/scene_graph/src/scene_graph.cpp:88-90 | a new scene graph has no roots and no entities |
| SceneGraphs.SceneGraph.CreateEntity | components/scene_graph/src/scene_graph.cpp:21-25 | each node gets an entity id the registry has not handed out before |
| SceneGraphs.SceneGraph.AddRoot | components/scene_graph/src/scene_graph.cpp:108-111 | the root set gains the node (once, however often it is added) and nothing else changes |
| SceneGraphs.SceneGraph.RemoveRoot | components/scene_graph/src/scene_graph.cpp:113-116 | the root set loses the node and nothing else changes |
| SceneGraphs.SceneGraph.Reset | components/scene_graph/src/scene_graph.cpp:92-96 | the registry and the root set are cleared |
| SceneGraphs.SceneGraph.Roots | components/scene_graph/src/scene_graph.cpp:103-106 | `roots()` lists every root exactly once and nothing else |
| SceneGraphs.Node.constructor | components/scene_graph/src/scene_graph.cpp:21-25 | a new node has its entity, no parent and no children |
| SceneGraphs.Node.Reparent | components/scene_graph/src/scene_graph.cpp:52-69 | the node leaves its old parent's children (every occurrence), takes the new parent and is appended last to its children; with no new parent it becomes a root, and it is never removed from the roots; on any node set holding the nodes involved, the links change as the value-level reparent says |
| SceneGraphs.SetChildren | components/scene_graph/src/scene_graph.cpp:56 | assigning one node's children changes that node's entry and no other link |
| SceneGraphs.SetParent | components/scene_graph/src/scene_graph.cpp:59 | assigning one node's parent changes that node's entry and no other link |
| SceneGraphs.ReparentLinksLinked | components/scene_graph/src/scene_graph.cpp:52-69 | reparenting a node of a consistently linked set to a member of the set, or to none, keeps it consistent: parents list their children, children name their parent, and no child is listed twice |
| SceneGraphs.AddUnlinked | components/scene_graph/src/scene_graph.cpp:6-8 | a new node with no links joins a consistent set and keeps it consistent |
| SceneGraphs.Create | components/scene_graph/src/scene_graph.cpp:6-19 | a new node with a fresh entity; with no parent it becomes a root, otherwise it is the parent's last child and not a root; a consistently linked set stays consistent with the new node |
| SceneGraphs.LinksOfJoin | components/scene_graph/src/scene_graph.cpp:6-19 | the links of a set with one more node are the set's links plus that node's |
| DataViews.Viewed | components/scene_graph/include/scene_graph/assets/buffer.hpp:17-21 | the bytes a view stands for are exactly `size` bytes long |
| DataViews.FromMemory | components/scene_graph/include/scene_graph/assets/buffer.hpp:23-31 | `from_memory` takes the bytes over and views all of them, from offset 0 |
| DataViews.FromMemoryRoundTrip | components/scene_graph/include/scene_graph/assets/buffer.hpp:23-31 | viewing what `from_memory` built gives back exactly the bytes it was given |
| Widgets.NormalizeId | components/gui/include/gui/widget.hpp:36-43 | the kept id always starts with `##`; an id that already does is kept as it is, any other gets `##` in front |
| Widgets.NormalizeIdIdempotent | components/gui/include/gui/widget.hpp:36-43 | normalising a normalised id changes nothing |
| Widgets.NormalizeIdKeepsSuffix | components/gui/include/gui/widget.hpp:36-43 | normalisation only ever adds in front: the given id is always a suffix of the kept one |
| Widgets.NewWidget | components/gui/include/gui/widget.hpp:36-43 | a leaf widget keeps the normalised id |
| Widgets.NewGroup | components/gui/src/widget.cpp:27-30 | a widget group keeps the normalised id and takes the widgets over in order |
| Widgets.DrawnAll | components/gui/src/widget.cpp:34-40 | one draw event per leaf, in order, all with the same delta |
| Widgets.DrawnAllAppend | components/gui/src/widget.cpp:34-40 | the draws of two runs of leaves are the two runs of draws one after the other |
| Widgets.TraceDrawsEachLeaf | components/gui/src/widget.cpp:34-40 | drawing a widget draws every leaf below it exactly once, depth first and left to right, with the same delta |
| Widgets.TraceAllDrawsEachLeaf | components/gui/src/widget.cpp:34-40 | drawing a list of widgets in turn draws all their leaves in order |
| Widgets.Draw | components/gui/src/widget.cpp:34-40 | a leaf draws itself; a group's loop draws its children in order, so every leaf below once, with the same delta |
| Widgets.WidgetBuilder.constructor | components/gui/include/gui/widget.hpp:57-64 | a builder keeps the normalised id, as a widget does, and starts with no widgets |
| Widgets.WidgetBuilder.With | components/gui/src/widget.cpp:46-50 | `with` appends the widget last and returns the same builder |
| Widgets.WidgetBuilder.Done | components/gui/src/widget.cpp:52-55 | `done` yields a group with the builder's id holding the collected widgets in call order, and the builder is left empty |
| Guis.Style.constructor | components/gui/src/gui.cpp:94 | a style object of the given kind |
| Guis.FirstWithId | components/gui/src/gui.cpp:59-66 | the position of the first widget with the id, none exactly when no widget has it |
| Guis.WithoutId | components/gui/src/gui.cpp:75-85 | no kept widget has the id, and a list without the id is kept whole |
| Guis.WithoutIdAppend | components/gui/src/gui.cpp:75-85 | filtering out an id distributes over concatenation, so the widgets that stay keep their relative order |
| Guis.WithoutIdKeeps | components/gui/src/gui.cpp:75-85 | every widget with another id survives the filter |
| Guis.AddedUnique | components/gui/src/gui.cpp:55-69 | with unique ids, `add` keeps every widget with another id, in order, and puts the new widget last |
| Guis.EraseOnlyMatch | components/gui/src/gui.cpp:59-66 | erasing the only widget with an id is filtering that id out |
| Guis.AddedKeepsIdsUnique | components/gui/src/gui.cpp:55-69 | `add` keeps the widget ids unique and the new widget is the last one |
| Guis.WithoutIdIndices | components/gui/src/gui.cpp:75-85 | filtering a list with unique ids keeps the ids unique |
| Guis.WithoutIdOrigin | components/gui/src/gui.cpp:75-85 | every widget the filter keeps comes from the list |
| Guis.WithoutIdPrefixStep | components/gui/src/gui.cpp:77-84 | one more widget of the list is either dropped by the filter or kept at the end |
| Guis.RemovePrefixedIdMissesNormalized | components/gui/src/gui.cpp:73 | `remove` always puts `##` in front, so `remove("##x")` never removes the widget created as `"x"` or `"##x"` |
| Guis.Gui.constructor | components/gui/src/gui.cpp:44-48 | the instance starts with no widgets, no style, no last style and nothing applied |
| Guis.Gui.UseStyle | components/gui/src/gui.cpp:50-53 | the style is replaced and nothing else changes, not even the last applied style |
| Guis.Gui.Add | components/gui/src/gui.cpp:55-69 | the loop erases the first widget with the new widget's id and the new widget is appended last |
| Guis.Gui.Remove | components/gui/src/gui.cpp:71-86 | the one-pass erase loop removes every widget whose id is `##` followed by the argument, and keeps the rest in order |
| Guis.Gui.Draw | components/gui/src/gui.cpp:88-114 | `draw` installs a dark theme when no style is set, applies the style exactly when it is not the object applied last, and then draws every widget in list order, so every leaf once |
| Plots.Last | components/gui/include/gui/widgets/plot.hpp:45-51 | the last n points (all of them when fewer), in order |
| Plots.LastOfLast | components/gui/include/gui/widgets/plot.hpp:45-51 | keeping the last n after each append is keeping the last n of everything appended |
| Plots.WindowAt | components/gui/include/gui/widgets/plot.hpp:45-51 | the i-th oldest point sits i places after `Offset`, counting round the end |
| Plots.OverwriteOldest | components/gui/include/gui/widgets/plot.hpp:48-50 | overwriting the point at `Offset` of a full buffer and moving `Offset` on drops the oldest point and puts the new one last |
| Plots.MaxY | components/gui/include/gui/widgets/plot.hpp:71-81 | the maximum is never below 0, at least every point's y, and either 0 or some point's y |
| Plots.ScrollingBuffer.constructor | components/gui/include/gui/widgets/plot.hpp:34-39 | a new buffer has the given capacity, `Offset` 0, no points and no maximum computed yet |
| Plots.ScrollingBuffer.AddPoint | components/gui/include/gui/widgets/plot.hpp:41-59 | below capacity the point is appended; at capacity it overwrites the point at `Offset`, which moves on by one modulo `MaxSize`; either way the points, oldest first, are the last `MaxSize` of the old ones plus the new one; a due recalculation sets the maximum |
| Plots.ScrollingBuffer.Erase | components/gui/include/gui/widgets/plot.hpp:61-68 | the buffer is left empty with `Offset` 0; the maximum is not reset |
| Plots.ScrollingBuffer.CalculateMax | components/gui/include/gui/widgets/plot.hpp:71-81 | the maximum becomes the largest y, or 0 when none is above 0, and the points are untouched |
| Plots.AddedPointsKeepLast | components/gui/include/gui/widgets/plot.hpp:41-51 | points added one by one to an empty buffer leave exactly the last `MaxSize` of them, oldest first |
| ContextBuilders.OfferedAdd | components/vulkan/src/context_builder.cpp:248-256 | whether one more optional name is enabled depends only on whether the driver offers that name |
| ContextBuilders.EnabledIsOffered | components/vulkan/src/context_builder.cpp:231-256 | once every required name has passed the availability check, a build enables exactly the required names plus the offered optional ones, and each of them is offered |
| ContextBuilders.InstanceRequest | components/vulkan/src/context_builder.cpp:45-81 | an instance request never makes the required and optional sets overlap |
| ContextBuilders.InstanceRequestsOutcome | components/vulkan/src/context_builder.cpp:45-81 | after any run of instance requests, a name is required exactly when it was once requested as Required, and optional exactly when it was requested as Optional and never as Required; the two sets stay disjoint |
| ContextBuilders.InstanceRequestsOrderFree | components/vulkan/src/context_builder.cpp:45-81 | two runs of instance requests that make the same requests, in any order and with repeats, leave the same sets |
| ContextBuilders.DeviceRequestKeepsBoth | components/vulkan/src/context_builder.cpp:481-506 | unlike the instance builder, the device builder keeps a name asked for both ways in both sets, whatever the order of the calls |
| ContextBuilders.CheckRequired | components/vulkan/src/context_builder.cpp:231-239 | passes exactly when every required name is offered; otherwise fails with the message followed by a missing name |
| ContextBuilders.CollectEnabled | components/vulkan/src/context_builder.cpp:242-256 | the set of enabled names is every required name plus every offered optional one |
| ContextBuilders.InsertAll | components/vulkan/src/context_builder.cpp:242-245 | the loop inserts every name into the set |
| ContextBuilders.InsertOffered | components/vulkan/src/context_builder.cpp:248-256 | the loop inserts exactly the names the driver offers |
| ContextBuilders.CollectEnabledList | components/vulkan/src/context_builder.cpp:591-604 | the vector of enabled layers holds the required layers first, each once, and then each offered optional layer once, so a layer both required and optional appears twice; as a multiset it is the required layers plus the offered optional ones |
| ContextBuilders.SplitMultiset | components/vulkan/src/context_builder.cpp:591-604 | a vector's elements are those of its two halves |
| ContextBuilders.AppendAll | components/vulkan/src/context_builder.cpp:591-594 | the vector keeps its contents as a prefix and gains each name exactly once after them |
| ContextBuilders.AppendOffered | components/vulkan/src/context_builder.cpp:596-604 | the vector keeps its contents as a prefix and gains each offered name exactly once and nothing else |
| ContextBuilders.FirstAvailableEntry | components/vulkan/src/context_builder.cpp:147-160 | the chosen validation entry is complete and no earlier entry is; no choice means no entry is complete |
| ContextBuilders.InstanceBuilder.constructor | components/vulkan/src/context_builder.cpp:35-37 | a new builder has no extensions, layers or logger callbacks |
| ContextBuilders.InstanceBuilder.SetApplicationInfo | components/vulkan/src/context_builder.cpp:39-43 | stores the application info and changes nothing else |
| ContextBuilders.InstanceBuilder.RequestExtension | components/vulkan/src/context_builder.cpp:45-62 | an Optional request is ignored for a name already required; a Required one also erases the name from the optional set; layers are untouched |
| ContextBuilders.InstanceBuilder.RequestLayer | components/vulkan/src/context_builder.cpp:64-81 | the same rule for layers; extensions are untouched |
| ContextBuilders.InstanceBuilder.RequestExtensionAndLayer | components/vulkan/src/context_builder.cpp:83-88 | one request of each kind, with the same mode |
| ContextBuilders.InstanceBuilder.AddLoggerCallback | components/vulkan/src/context_builder.cpp:90-94 | appends the callbacks after the ones already added |
| ContextBuilders.InstanceBuilder.EnableValidationLayers | components/vulkan/src/context_builder.cpp:101-161 | requests as Required every layer of the first complete priority entry, and nothing when none is complete |
| ContextBuilders.InstanceBuilder.RequestRequiredLayers | components/vulkan/src/context_builder.cpp:152-155 | every layer of the chosen entry becomes required and is no longer optional; nothing else changes |
| ContextBuilders.InstanceBuilder.Build | components/vulkan/src/context_builder.cpp:191-381 | with logger callbacks, debug utils (preferred) or else debug report is requested as Optional; the build fails exactly when a required extension or layer is missing, and then leaves the context as it was; otherwise it enables the required names plus the offered optional ones and installs the instance and the chosen messenger |
| ContextBuilders.FindDebugExtension | components/vulkan/src/context_builder.cpp:198-228 | debug utils is found exactly when offered; only when it is not does debug report count |
| ContextBuilders.AllLayersAreAvailable | components/vulkan/src/context_builder.cpp:125-144 | true exactly when every layer of the entry is offered |
| ContextBuilders.ToInt32 | components/vulkan/src/context_builder.cpp:450 | the returned score lies in the 32-bit signed range and equals the exact value whenever that value fits |
| ContextBuilders.TypeScore | components/vulkan/src/context_builder.cpp:441-455 | the `type_preference` lambda: `PreferredScore - i * DefaultScore` (as a 32-bit `int`) with i the first position of the device's type in the priority order, and `RejectedScore` when the type is not listed |
| ContextBuilders.TypeScoreAt | components/vulkan/src/context_builder.cpp:441-452 | a device type scores `PreferredScore - i * DefaultScore`, with i its first position in the priority order |
| ContextBuilders.TypeScoreAbsent | components/vulkan/src/context_builder.cpp:454-455 | a device type missing from the priority order scores `RejectedScore` |
| ContextBuilders.TypePreference | components/vulkan/src/context_builder.cpp:434-439 | an empty priority order gives the default preference |
| ContextBuilders.DefaultTypeScores | components/vulkan/src/context_builder.cpp:459-468 | the default order scores discrete 100, integrated 90, virtual 80, CPU 70 and other 60 |
| ContextBuilders.TypePreferenceRanks | components/vulkan/src/context_builder.cpp:445-452 | within the first eleven positions, a type earlier in the order scores strictly higher, and no score is negative |
| ContextBuilders.WrappedScoreRanksRejectedFirst | components/vulkan/src/context_builder.cpp:417-429 | with the `uint32_t` sum as written, a rejected CPU device (-1, read as 2^32 - 1) outranks a preferred discrete GPU (100) |
| ContextBuilders.DeviceScoreRanksListedFirst | components/vulkan/src/context_builder.cpp:417-429 | with a signed sum and a priority order of at most eleven entries, a device of a listed type outranks a device of an unlisted type |
| ContextBuilders.TypePreferenceRankBreaksAtTwelve | components/vulkan/src/context_builder.cpp:441-455 | past eleven positions the ranking breaks: a type first listed at position 11 scores -10, below an unlisted type's -1, so a device of an unlisted type outranks it |
| ContextBuilders.DeviceScore | components/vulkan/src/context_builder.cpp:417-429 | the signed score sum: one score function gives exactly its own score, and non-negative scores give a non-negative sum |
| ContextBuilders.DeviceScoreAppend | components/vulkan/src/context_builder.cpp:417-429 | summing the score functions in two groups and adding the results gives the whole sum |
| ContextBuilders.WrappedScore | components/vulkan/src/context_builder.cpp:417-429 | the `uint32_t` sum as written is the signed sum modulo 2^32, always in `[0, 2^32)` |
| ContextBuilders.PhysicalDeviceSelector.constructor | components/vulkan/src/context_builder.cpp:383-386 | a new selector has no score functions |
| ContextBuilders.PhysicalDeviceSelector.Score | components/vulkan/src/context_builder.cpp:388-392 | appends the score function |
| ContextBuilders.PhysicalDeviceSelector.SumScores | components/vulkan/src/context_builder.cpp:417-422 | the loop adds up every score function's value for the device |
| ContextBuilders.PhysicalDeviceSelector.Select | components/vulkan/src/context_builder.cpp:399-432 | does nothing without an instance; with no devices, fails and leaves the context alone; otherwise installs a device whose summed score no other device exceeds, and the rest of the context stays; the debug messengers are kept |
| ContextBuilders.FirstFamily | components/vulkan/src/context_builder.cpp:616-619 | the index of the first queue family sharing a flag bit with the request, or the family count when there is none |
| ContextBuilders.ResolveQueues | components/vulkan/src/context_builder.cpp:614-652 | succeeds exactly when every request has a family sharing a bit with it, and that first family presents all of the request's surfaces; each request then yields its group on that family, with `count` null queues; otherwise fails with one of the two messages |
| ContextBuilders.CheckFeatures | components/vulkan/src/context_builder.cpp:655-717 | passes exactly when every enabled feature is supported; otherwise fails naming the first enabled feature in the list that is unsupported |
| ContextBuilders.WithQueues | components/vulkan/src/context_builder.cpp:737-746 | each group keeps its family, flags and surfaces, and queue i of a group is the device's queue i of that family |
| ContextBuilders.DeviceBuilder.constructor | components/vulkan/src/context_builder.cpp:470-473 | a new builder has no queue requests, names or enabled features |
| ContextBuilders.DeviceBuilder.RequestQueue | components/vulkan/src/context_builder.cpp:475-479 | appends the queue request and changes nothing else |
| ContextBuilders.DeviceBuilder.RequestExtension | components/vulkan/src/context_builder.cpp:481-493 | adds the name to the required or the optional set, according to the mode, and never removes it from the other |
| ContextBuilders.DeviceBuilder.RequestLayer | components/vulkan/src/context_builder.cpp:495-506 | the same for layers |
| ContextBuilders.DeviceBuilder.RequestExtensionAndLayer | components/vulkan/src/context_builder.cpp:508-513 | one request of each kind, with the same mode |
| ContextBuilders.DeviceBuilder.EnableFeatures | components/vulkan/src/context_builder.cpp:515-519 | the enabled features become what the callback makes of them |
| ContextBuilders.DeviceBuilder.ResolveExtensions | components/vulkan/src/context_builder.cpp:538-574 | the portability subset becomes required whenever the device offers it; the step fails, naming a missing required extension, exactly when one is missing; otherwise it enables every required extension plus the offered optional ones |
| ContextBuilders.DeviceBuilder.Build | components/vulkan/src/context_builder.cpp:526-747 | does nothing without an instance and a physical device; otherwise fails with no queue requests, and succeeds exactly when every required extension and layer is offered, every queue request can be served and every enabled feature is supported; on success it installs the created device and one queue group per request, in request order, filled with the device's queues; the debug messengers are kept |
| ContextBuilders.ContextBuilder.constructor | components/vulkan/src/context_builder.cpp:749-766 | the three stages start empty and the starting instance is kept |
| ContextBuilders.ContextBuilder.Build | components/vulkan/src/context_builder.cpp:783-801 | on success, a fresh context with no cleanup callbacks and no device calls; it uses the starting instance when there is one and the built one otherwise; with an instance, the physical device is an enumerated one of maximal score; with both, the device is the created one and the queue groups are one per request, on its first matching family, filled with the device's queues; when a stage throws, `~Context` runs on the partial context, destroying whatever messengers and instance it holds, the starting instance included |
| ContextBuilders.ContextBuilder.RunStages | components/vulkan/src/context_builder.cpp:787-798 | the three stages on a fresh context; a failure never leaves a device, and with a starting instance leaves that instance and no messengers |

## Left out

- Vulkan, VMA and glslang themselves: command recording, `queue.submit`, `vmaCreate*`, `createImageView`, `createFence`, `vmaMapMemory`/`memcpy`, parsing, linking and SPIR-V generation. They are oracles or parameters that answer with a handle, a result code or bytes.
- `createInstance`, `createDevice`, the debug messenger creation, `volkInitialize`/`volkLoad*` and the dispatcher set-up: they are taken to succeed with the handles in `Platform`, so their failures are not modelled.
- `vmaMapMemory`'s result code, which `update_buffer` ignores: the copy is modelled as always reaching the allocation.
- A `createFence` failure in the `Fence` constructor is not modelled.
- `SynchronizationGroup::wait_until` and `is_signaled`: their bodies are not part of the model, because the interface has no virtual dispatch here. The task execution context's own fence loops are modelled.
- `MemoryPool::poll_stats`: it needs the wall clock and VMA heap budgets.
- The Tracy calls in `profiling.hpp` and in the memory pool, and the `operator new/delete` overrides, are not modelled. The `double`/`float` plot stores are also left out; only `int64_t` is modelled.
- Profiling.PlotStore.Increment: the `int64_t` counters are unbounded integers, so signed overflow is not modelled. The task-registry `uint32_t` wrap-around is modelled.
- The protected constructors and `friend` access of the allocation classes: Dafny modules here have no access control.
- TaskGraphs.TaskGraph.AddTask: a task definition is a fixed list of registry calls plus its recording closure. Data flow between the calls of one definition (one call's handle passed to the next) is not modelled.
- The recorded command stream is compared only up to which image handles the registry's lookups returned. The commands themselves are opaque.
- The aggregated logger lambdas that `InstanceBuilder::build` installs, and `enable_default_logger` with its level switch and `LOG*` output.
- ContextBuilders.PhysicalDeviceSelector.Select: `std::sort` is not stable, so among devices with equal scores the code's choice is unspecified. The model promises only a device with a maximal score.
- ContextBuilders.PhysicalDeviceSelector.Select: it uses the signed score sum, the corrected behaviour under "## Findings". The as-written `uint32_t` sum is `ContextBuilders.WrappedScore`.
- ContextBuilders.ContextBuilder.Build: on a failure that comes after the instance builder created an instance, the contract states the teardown calls of whatever the partial context holds but not which handles those are.
- SceneGraphs.SceneGraph.CreateEntity: entity ids come from a counter, so the entt registry's id recycling after `reset` is not modelled.
- `Node::world_matrix`, local transforms and the mesh data: these are glm floating-point matrices.
- Guis.Gui.Draw: styles are compared by object identity. A style freed and reallocated at the same address after `use_style` (pointer ABA) is not modelled.
- ImGui and ImPlot drawing: the IO set-up, `NewFrame`/`Render` in `GUI::draw`, `GUI::initialize`/`destroy`, `Plot::draw` and its static buffers, and the renderer under `framework/gui`.
- `GUI::instance()` and `SceneGraph::get()` are process-wide singletons; here they are explicit objects passed to the callers.
- Floating-point values are `real`: there are no NaNs and no rounding, and `float` and `double` are not told apart.
- Plots.ScrollingBuffer.AddPoint: the once-a-second clock that triggers `calculate_max` is the `recalculate` parameter, and the `std::cout` tracing is dropped.
- Plots.ScrollingBuffer.AddPoint: a capacity of 0 or less would divide by zero in the source, so `Valid()` requires a positive capacity.
- ShaderCompilers.Compile: `FinalizeProcess` and the glslang process bookkeeping on the failure paths are not modelled; the result is the empty vector.
- A `std::vector` that `build` moves from is taken to be empty afterwards.
- TaskGraphs.TaskExecutionContext.Destroy: `std::vector` destroys its elements front to back here, as libstdc++ does; the standard leaves that order open.
- TaskGraphs.TaskExecutionContext.Destroy: `shared_ptr` reference counts are not modelled; the fences and allocations other owners still hold are given as sets, and the map releases its allocations in an unspecified order.
- TaskGraphs.TaskExecutionContext.Destroy: the exact log is stated when every fence belongs to the execution context, as the ones `execute` makes do.
- TaskGraphs.TaskGraphExecution.Execute: on a failure it states which allocations end up freed and that only image frees follow the pool's destruction, not the exact sequence of free calls. When a task deferred an empty function, the termination is modelled only as a failed outcome.
- Image decoding (`stb.cpp`), the asset loader declarations, `scripts/tracy.py`, the platform entry point and the virtual file system are outside the core and are not modelled.

## Findings

| source | as written | input that shows it | evidently intended | confidence | as-written member | corrected member |
|---|---|---|---|---|---|---|
| components/vulkan/include/vulkan/pools/memory_pool.hpp:161-165 | `BufferAllocation::update(const T &data)` passes `&data` to `update_buffer<T>(allocation, const T &)`, which then deduces a pointer type and writes the 8 bytes of the argument's address | `update(uint32_t{5})` writes the address of the temporary, not `05 00 00 00`; two different values at the same address store the same bytes | write `sizeof(T)` bytes of the value itself, as `update_buffer(allocation, &data, sizeof(T))` does | not executed | MemoryPools.ValueUpdateAsWrittenStoresAddress, MemoryPools.BufferAllocation.UpdateValueAsWritten | MemoryPools.ValueUpdateRoundTrip, MemoryPools.BufferAllocation.UpdateValue |
| components/vulkan/src/context_builder.cpp:417-429 | `select` adds each `int` score into a `uint32_t` and sorts by that, so `RejectedScore` (-1) becomes 2^32 - 1 | one score function `type_preference({eDiscreteGpu})` with a CPU device and a discrete GPU: the CPU scores 4294967295, the GPU 100, and the CPU is selected | a signed sum, under which a device of a listed type outranks a rejected one | not executed | ContextBuilders.WrappedScore, ContextBuilders.WrappedScoreRanksRejectedFirst | ContextBuilders.DeviceScore, ContextBuilders.DeviceScoreRanksListedFirst, ContextBuilders.PhysicalDeviceSelector.Select |
