/**
 * `vkb::Context`: the instance, physical device and device handles, the queue groups the device
 * was built with, and the cleanup callbacks run when the context is destroyed.
 */
module Contexts {
  import opened Vk
  import opened Wrappers

  /** A `std::function<void()>` cleanup: empty, or one whose effect on the device is `effect`. */
  datatype CleanupCallback = EmptyCallback | Callback(effect: DeviceCall)

  /** `Context::QueueGroup`. */
  datatype QueueGroup = QueueGroup(
    familyIndex: uint32,
    supportedQueues: Flags,
    queues: seq<Handle>,
    presentationSurfaces: seq<Handle>)

  /**
   * The device calls made by running `cbs` from the last to the first, skipping empty
   * callbacks: the cleanup half of `~Context`.
   */
  function ReverseCleanupCalls(cbs: seq<CleanupCallback>): seq<DeviceCall> {
    if cbs == [] then []
    else ReverseCleanupCalls(cbs[1..]) + (if cbs[0].Callback? then [cbs[0].effect] else [])
  }

  /** Callbacks registered later run earlier: a stack discipline. */
  lemma {:induction false} ReverseCleanupCallsAppend(a: seq<CleanupCallback>, b: seq<CleanupCallback>)
    ensures ReverseCleanupCalls(a + b) == ReverseCleanupCalls(b) + ReverseCleanupCalls(a)
  {
    if a == [] {
      assert a + b == b;
    } else {
      assert (a + b)[1..] == a[1..] + b;
      ReverseCleanupCallsAppend(a[1..], b);
    }
  }

  /** A call is made exactly when some registered, non-empty callback has it as its effect. */
  lemma {:induction false} ReverseCleanupCallsMembers(cbs: seq<CleanupCallback>, c: DeviceCall)
    ensures c in ReverseCleanupCalls(cbs) <==> exists i :: 0 <= i < |cbs| && cbs[i] == Callback(c)
  {
    if cbs != [] {
      ReverseCleanupCallsMembers(cbs[1..], c);
      assert forall i :: 1 <= i < |cbs| ==> cbs[i] == cbs[1..][i - 1];
      if exists i :: 0 <= i < |cbs| && cbs[i] == Callback(c) {
        var i :| 0 <= i < |cbs| && cbs[i] == Callback(c);
        if i > 0 {
          assert cbs[1..][i - 1] == Callback(c);
        }
      }
    }
  }

  /** The whole device-call sequence of `~Context`: cleanups, device, messengers, instance. */
  function TeardownCalls(cbs: seq<CleanupCallback>, device: Handle, utilsMessenger: Handle,
                         reportCallback: Handle, instance: Handle): seq<DeviceCall>
  {
    ReverseCleanupCalls(cbs)
    + IfLive(device, DestroyDevice(device))
    + IfLive(utilsMessenger, DestroyDebugUtilsMessenger(utilsMessenger))
    + IfLive(reportCallback, DestroyDebugReportCallback(reportCallback))
    + IfLive(instance, DestroyInstance(instance))
  }

  /** A destroy call that is made only for a non-null handle. */
  function IfLive(h: Handle, call: DeviceCall): seq<DeviceCall> {
    if h != NullHandle then [call] else []
  }

  method AppendIfLive(log: DeviceLog, h: Handle, call: DeviceCall)
    modifies log
    ensures log.calls == old(log.calls) + IfLive(h, call)
  {
    if h != NullHandle {
      log.Append(call);
    }
  }

  /**
   * The teardown order: every cleanup runs before the device is destroyed, the device before the
   * debug messengers, and the instance goes last.
   */
  lemma TeardownOrder(cbs: seq<CleanupCallback>, device: Handle, utilsMessenger: Handle,
                      reportCallback: Handle, instance: Handle)
    requires device != NullHandle && instance != NullHandle
    ensures var calls := TeardownCalls(cbs, device, utilsMessenger, reportCallback, instance);
      var n := |ReverseCleanupCalls(cbs)|;
      && calls[..n] == ReverseCleanupCalls(cbs)
      && calls[n] == DestroyDevice(device)
      && calls[|calls| - 1] == DestroyInstance(instance)
      && (utilsMessenger != NullHandle ==> calls[n + 1] == DestroyDebugUtilsMessenger(utilsMessenger))
  {
  }

  /** The index of the first group sharing a flag bit with `flags` and holding a queue. */
  function FirstQueueGroup(groups: seq<QueueGroup>, flags: Flags): (r: Option<nat>)
    ensures r.Some? ==>
      && r.value < |groups|
      && Intersects(groups[r.value].supportedQueues, flags) && |groups[r.value].queues| > 0
      && forall j :: 0 <= j < r.value ==>
           !(Intersects(groups[j].supportedQueues, flags) && |groups[j].queues| > 0)
    ensures r.None? ==> forall j :: 0 <= j < |groups| ==>
           !(Intersects(groups[j].supportedQueues, flags) && |groups[j].queues| > 0)
  {
    if groups == [] then None
    else if Intersects(groups[0].supportedQueues, flags) && |groups[0].queues| > 0 then Some(0)
    else match FirstQueueGroup(groups[1..], flags)
      case None => None
      case Some(i) => Some(i + 1)
  }

  /** `get_queue`: `queues[0]` of the first matching group, or a null queue. */
  function QueueLookup(groups: seq<QueueGroup>, flags: Flags): (q: Handle)
    ensures (forall j :: 0 <= j < |groups| ==>
               !(Intersects(groups[j].supportedQueues, flags) && |groups[j].queues| > 0)) ==> q == NullHandle
    ensures (exists j :: 0 <= j < |groups| && Intersects(groups[j].supportedQueues, flags) && |groups[j].queues| > 0) ==>
      exists j :: 0 <= j < |groups| && Intersects(groups[j].supportedQueues, flags) && |groups[j].queues| > 0
        && q == groups[j].queues[0]
        && forall k :: 0 <= k < j ==> !(Intersects(groups[k].supportedQueues, flags) && |groups[k].queues| > 0)
  {
    match FirstQueueGroup(groups, flags)
    case Some(i) => groups[i].queues[0]
    case None => NullHandle
  }

  /** The index of the first group holding `queue`. */
  function GroupHolding(groups: seq<QueueGroup>, queue: Handle): (r: Option<nat>)
    ensures r.Some? ==>
      && r.value < |groups| && queue in groups[r.value].queues
      && forall j :: 0 <= j < r.value ==> queue !in groups[j].queues
    ensures r.None? ==> forall j :: 0 <= j < |groups| ==> queue !in groups[j].queues
  {
    if groups == [] then None
    else if queue in groups[0].queues then Some(0)
    else match GroupHolding(groups[1..], queue)
      case None => None
      case Some(i) => Some(i + 1)
  }

  /** `get_queue_family_index`: the family of the first group holding `queue`, else IGNORED. */
  function FamilyLookup(groups: seq<QueueGroup>, queue: Handle): (r: uint32)
    ensures (forall j :: 0 <= j < |groups| ==> queue !in groups[j].queues) ==> r == QueueFamilyIgnored
    ensures (exists j :: 0 <= j < |groups| && queue in groups[j].queues) ==>
      exists j :: 0 <= j < |groups| && queue in groups[j].queues && r == groups[j].familyIndex
        && forall k :: 0 <= k < j ==> queue !in groups[k].queues
  {
    if groups == [] then QueueFamilyIgnored
    else if queue in groups[0].queues then groups[0].familyIndex
    else
      var r := FamilyLookup(groups[1..], queue);
      assert forall j :: 1 <= j < |groups| ==> groups[j] == groups[1..][j - 1];
      r
  }

  class Context {
    var instance: Handle
    var physicalDevice: Handle
    var device: Handle
    var cleanupCallbacks: seq<CleanupCallback>
    var queueGroups: seq<QueueGroup>
    var debugUtilsMessenger: Handle
    var debugReportCallback: Handle
    /** Where the device-side effects of this context and everything built on it are observed. */
    const log: DeviceLog

    /** The private `Context()`: every handle null, nothing registered. */
    constructor (log: DeviceLog)
      ensures this.log == log
      ensures instance == NullHandle && physicalDevice == NullHandle && device == NullHandle
      ensures cleanupCallbacks == [] && queueGroups == []
      ensures debugUtilsMessenger == NullHandle && debugReportCallback == NullHandle
    {
      this.log := log;
      instance, physicalDevice, device := NullHandle, NullHandle, NullHandle;
      cleanupCallbacks, queueGroups := [], [];
      debugUtilsMessenger, debugReportCallback := NullHandle, NullHandle;
    }

    /** `add_cleanup_callback`: appends at the end. */
    method AddCleanupCallback(callback: CleanupCallback)
      modifies this
      ensures cleanupCallbacks == old(cleanupCallbacks) + [callback]
      ensures queueGroups == old(queueGroups) && device == old(device) && instance == old(instance)
      ensures physicalDevice == old(physicalDevice)
      ensures debugUtilsMessenger == old(debugUtilsMessenger) && debugReportCallback == old(debugReportCallback)
    {
      cleanupCallbacks := cleanupCallbacks + [callback];
    }

    /** `get_queue`: `queues[0]` of the first group sharing a bit with `flags` and holding a queue. */
    function GetQueue(flags: Flags): (q: Handle)
      reads this
      ensures FirstQueueGroup(queueGroups, flags).None? ==> q == NullHandle
      ensures FirstQueueGroup(queueGroups, flags).Some? ==>
        q == queueGroups[FirstQueueGroup(queueGroups, flags).value].queues[0]
    {
      QueueLookup(queueGroups, flags)
    }

    /** `get_queue_family_index`: the family of the first group holding `queue`, else IGNORED. */
    function GetQueueFamilyIndex(queue: Handle): (r: uint32)
      reads this
      ensures GroupHolding(queueGroups, queue).None? ==> r == QueueFamilyIgnored
      ensures GroupHolding(queueGroups, queue).Some? ==>
        r == queueGroups[GroupHolding(queueGroups, queue).value].familyIndex
    {
      FamilyLookup(queueGroups, queue)
    }

    /** `~Context`: the reverse cleanup loop, then the owned handles. */
    method Destroy()
      modifies log
      ensures log.calls == old(log.calls)
        + TeardownCalls(cleanupCallbacks, device, debugUtilsMessenger, debugReportCallback, instance)
    {
      ghost var c0 := log.calls;
      RunCleanups();
      ghost var c1 := log.calls;
      AppendIfLive(log, device, DestroyDevice(device));
      ghost var c2 := log.calls;
      AppendIfLive(log, debugUtilsMessenger, DestroyDebugUtilsMessenger(debugUtilsMessenger));
      ghost var c3 := log.calls;
      AppendIfLive(log, debugReportCallback, DestroyDebugReportCallback(debugReportCallback));
      ghost var c4 := log.calls;
      AppendIfLive(log, instance, DestroyInstance(instance));
      assert log.calls == c4 + IfLive(instance, DestroyInstance(instance));
      assert c4 == c0 + ReverseCleanupCalls(cleanupCallbacks)
        + IfLive(device, DestroyDevice(device))
        + IfLive(debugUtilsMessenger, DestroyDebugUtilsMessenger(debugUtilsMessenger))
        + IfLive(debugReportCallback, DestroyDebugReportCallback(debugReportCallback));
    }

    /** The cleanup loop of `~Context`: from the last registered callback to the first. */
    method RunCleanups()
      modifies log
      ensures log.calls == old(log.calls) + ReverseCleanupCalls(cleanupCallbacks)
    {
      var i := |cleanupCallbacks|;
      while i > 0
        invariant 0 <= i <= |cleanupCallbacks|
        invariant log.calls == old(log.calls) + ReverseCleanupCalls(cleanupCallbacks[i..])
      {
        assert cleanupCallbacks[i - 1..][1..] == cleanupCallbacks[i..];
        if cleanupCallbacks[i - 1].Callback? {
          log.Append(cleanupCallbacks[i - 1].effect);
        }
        i := i - 1;
      }
    }
  }
}
