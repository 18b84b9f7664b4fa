/**
 * `vkb::ContextBuilder` and its three stages: `InstanceBuilder` (required/optional instance
 * extensions and layers, validation-layer fallback, debug-messenger choice), `PhysicalDeviceSelector`
 * (summed scores, `type_preference`) and `DeviceBuilder` (device extensions and layers, queue-family
 * choice, feature check). Everything the driver reports is a field of `Platform`.
 */
module ContextBuilders {
  import opened Vk
  import opened Wrappers
  import Contexts

  /**
   * A `const char *` name: the `std::set`s compare addresses, availability checks compare the
   * text with `strcmp`.
   */
  datatype CName = CName(address: nat, text: string)

  /** A string literal of the builder's own; equal literals are taken to share storage. */
  function Literal(text: string): CName {
    CName(0, text)
  }

  datatype InclusionMode = Required | Optional

  /** A required and an optional name set (`required_extensions`/`optional_extensions`, ...). */
  datatype NameSets = NameSets(required: set<CName>, optional: set<CName>)

  const NoNames := NameSets({}, {})

  /** The driver offers `name` when some enumerated name has the same text. */
  predicate Available(name: CName, available: seq<string>) {
    name.text in available
  }

  predicate AllAvailable(names: set<CName>, available: seq<string>) {
    forall n :: n in names ==> Available(n, available)
  }

  /** The names of a set that the driver offers. */
  function Offered(names: set<CName>, available: seq<string>): set<CName> {
    set n | n in names && Available(n, available)
  }

  /** One more name is offered or not, independently of the others. */
  lemma OfferedAdd(names: set<CName>, n: CName, available: seq<string>)
    ensures Offered(names + {n}, available) == Offered(names, available) + (if Available(n, available) then {n} else {})
  {
  }

  /** What a build enables: every required name and every offered optional one. */
  function Enabled(s: NameSets, available: seq<string>): set<CName> {
    s.required + Offered(s.optional, available)
  }

  /** Once the required names are all offered, everything enabled is offered, and nothing else is enabled. */
  lemma EnabledIsOffered(s: NameSets, available: seq<string>)
    requires AllAvailable(s.required, available)
    ensures forall n :: n in Enabled(s, available) ==> Available(n, available)
    ensures forall n :: n in Enabled(s, available) <==> n in s.required || (n in s.optional && Available(n, available))
    ensures s.required <= Enabled(s, available)
  {
  }

  /*** Instance requests: Required wins and erases from Optional. ***/

  /** `InstanceBuilder::request_extension` / `request_layer`. */
  function InstanceRequest(s: NameSets, name: CName, mode: InclusionMode): (r: NameSets)
    ensures s.required !! s.optional ==> r.required !! r.optional
  {
    match mode
    case Optional => if name in s.required then s else s.(optional := s.optional + {name})
    case Required => NameSets(s.required + {name}, s.optional - {name})
  }

  /** A run of instance requests, in call order. */
  function InstanceRequests(s: NameSets, requests: seq<(CName, InclusionMode)>): NameSets {
    if requests == [] then s
    else
      var last := requests[|requests| - 1];
      InstanceRequest(InstanceRequests(s, requests[..|requests| - 1]), last.0, last.1)
  }

  predicate RequestedAs(requests: seq<(CName, InclusionMode)>, name: CName, mode: InclusionMode) {
    exists i :: 0 <= i < |requests| && requests[i] == (name, mode)
  }

  /**
   * After any instance requests, a name is required exactly when it was ever requested as
   * Required, and optional exactly when it was requested as Optional and never as Required; the
   * two sets stay disjoint.
   */
  lemma {:induction false} InstanceRequestsOutcome(s: NameSets, requests: seq<(CName, InclusionMode)>)
    requires s.required !! s.optional
    ensures var r := InstanceRequests(s, requests);
      && r.required !! r.optional
      && (forall n :: n in r.required <==> n in s.required || RequestedAs(requests, n, Required))
      && (forall n :: n in r.optional <==>
            (n in s.optional || RequestedAs(requests, n, Optional)) && n !in r.required)
  {
    if requests != [] {
      var front := requests[..|requests| - 1];
      var last := requests[|requests| - 1];
      InstanceRequestsOutcome(s, front);
      forall n, m
        ensures RequestedAs(requests, n, m) <==> RequestedAs(front, n, m) || last == (n, m)
      {
        if RequestedAs(requests, n, m) {
          var i :| 0 <= i < |requests| && requests[i] == (n, m);
          if i < |front| {
            assert front[i] == requests[i];
          }
        }
        if RequestedAs(front, n, m) {
          var i :| 0 <= i < |front| && front[i] == (n, m);
          assert requests[i] == front[i];
        }
      }
    }
  }

  /** Consequently the order of the requests does not matter: only which were made. */
  lemma InstanceRequestsOrderFree(a: seq<(CName, InclusionMode)>, b: seq<(CName, InclusionMode)>)
    requires forall i :: 0 <= i < |a| ==> a[i] in b
    requires forall i :: 0 <= i < |b| ==> b[i] in a
    ensures InstanceRequests(NoNames, a) == InstanceRequests(NoNames, b)
  {
    InstanceRequestsOutcome(NoNames, a);
    InstanceRequestsOutcome(NoNames, b);
    forall n, m
      ensures RequestedAs(a, n, m) <==> RequestedAs(b, n, m)
    {
      if RequestedAs(a, n, m) {
        var i :| 0 <= i < |a| && a[i] == (n, m);
        assert a[i] in b;
      }
      if RequestedAs(b, n, m) {
        var i :| 0 <= i < |b| && b[i] == (n, m);
        assert b[i] in a;
      }
    }
    var ra, rb := InstanceRequests(NoNames, a), InstanceRequests(NoNames, b);
    assert ra.required == rb.required;
    assert ra.optional == rb.optional;
  }

  /*** Device requests: the two sets are filled independently. ***/

  /** `DeviceBuilder::request_extension` / `request_layer`. */
  function DeviceRequest(s: NameSets, name: CName, mode: InclusionMode): NameSets {
    match mode
    case Required => s.(required := s.required + {name})
    case Optional => s.(optional := s.optional + {name})
  }

  /** A name requested both ways ends up in both sets. */
  lemma DeviceRequestKeepsBoth(s: NameSets, name: CName)
    ensures var r := DeviceRequest(DeviceRequest(s, name, Required), name, Optional);
      name in r.required && name in r.optional
    ensures var r := DeviceRequest(DeviceRequest(s, name, Optional), name, Required);
      name in r.required && name in r.optional
  {
  }

  /** The sets of names a run of searches finds — `set<CName>` to `set<CName>` loops. */
  method CheckRequired(required: set<CName>, available: seq<string>, message: string) returns (o: Outcome)
    ensures o == Pass <==> AllAvailable(required, available)
    ensures o.Fail? ==> exists n :: n in required && !Available(n, available) && o.error == RuntimeError(message + n.text)
  {
    var pending := required;
    while pending != {}
      invariant pending <= required
      invariant forall n :: n in required - pending ==> Available(n, available)
      decreases |pending|
    {
      var n :| n in pending;
      if !Available(n, available) {
        return Fail(RuntimeError(message + n.text));
      }
      pending := pending - {n};
    }
    return Pass;
  }

  /** Adds every required name, then every offered optional one. */
  method CollectEnabled(s: NameSets, available: seq<string>) returns (enabled: set<CName>)
    ensures enabled == Enabled(s, available)
  {
    enabled := InsertAll({}, s.required);
    enabled := InsertOffered(enabled, s.optional, available);
  }

  /** The loop over the required names: each one is inserted. */
  method InsertAll(into: set<CName>, names: set<CName>) returns (r: set<CName>)
    ensures r == into + names
  {
    r := into;
    var pending := names;
    ghost var done: set<CName> := {};
    while pending != {}
      invariant done + pending == names && r == into + done
      decreases pending
    {
      var n :| n in pending;
      r := r + {n};
      done := done + {n};
      pending := pending - {n};
    }
  }

  /** The loop over the optional names: each one the driver offers is inserted. */
  method InsertOffered(into: set<CName>, names: set<CName>, available: seq<string>) returns (r: set<CName>)
    ensures r == into + Offered(names, available)
  {
    r := into;
    var pending := names;
    ghost var done: set<CName> := {};
    while pending != {}
      invariant done + pending == names && r == into + Offered(done, available)
      decreases pending
    {
      var n :| n in pending;
      OfferedAdd(done, n, available);
      if Available(n, available) {
        r := r + {n};
      }
      done := done + {n};
      pending := pending - {n};
    }
  }

  /**
   * As `CollectEnabled`, into a `std::vector`: the required names first, then the offered optional
   * ones, so a name both required and optional appears twice.
   */
  method CollectEnabledList(s: NameSets, available: seq<string>) returns (enabled: seq<CName>)
    ensures |s.required| <= |enabled|
    ensures multiset(enabled[..|s.required|]) == multiset(s.required)
    ensures multiset(enabled[|s.required|..]) == multiset(Offered(s.optional, available))
    ensures multiset(enabled) == multiset(s.required) + multiset(Offered(s.optional, available))
  {
    var required := AppendAll([], s.required);
    enabled := AppendOffered(required, s.optional, available);
    SplitMultiset(enabled, |required|);
    assert multiset(enabled[|required|..]) == multiset(enabled) - multiset(required);
  }

  /** A sequence's multiset is that of its prefix and its suffix together. */
  lemma SplitMultiset<T>(e: seq<T>, n: nat)
    requires n <= |e|
    ensures multiset(e) == multiset(e[..n]) + multiset(e[n..])
  {
    assert e == e[..n] + e[n..];
  }

  /** `InsertAll` into a vector. */
  method AppendAll(into: seq<CName>, names: set<CName>) returns (r: seq<CName>)
    ensures multiset(r) == multiset(into) + multiset(names)
    ensures |r| == |into| + |names| && r[..|into|] == into
  {
    r := into;
    var pending := names;
    ghost var done: set<CName> := {};
    while pending != {}
      invariant done + pending == names && done !! pending
      invariant multiset(r) == multiset(into) + multiset(done)
      invariant |r| == |into| + |done| && r[..|into|] == into
      decreases pending
    {
      var n :| n in pending;
      AppendStep(r, into, done, n);
      r := r + [n];
      done := done + {n};
      pending := pending - {n};
    }
  }

  /** `InsertOffered` into a vector. */
  method AppendOffered(into: seq<CName>, names: set<CName>, available: seq<string>) returns (r: seq<CName>)
    ensures multiset(r) == multiset(into) + multiset(Offered(names, available))
    ensures |into| <= |r| && r[..|into|] == into
  {
    r := into;
    var pending := names;
    ghost var done: set<CName> := {};
    while pending != {}
      invariant done + pending == names && done !! pending
      invariant multiset(r) == multiset(into) + multiset(Offered(done, available))
      invariant |into| <= |r| && r[..|into|] == into
      decreases pending
    {
      var n :| n in pending;
      AppendOfferedStep(r, into, done, n, available);
      if Available(n, available) {
        r := r + [n];
      }
      done := done + {n};
      pending := pending - {n};
    }
  }

  /** Appending a name not yet collected adds it once to the collected multiset. */
  lemma AppendStep(r: seq<CName>, into: seq<CName>, kept: set<CName>, n: CName)
    requires multiset(r) == multiset(into) + multiset(kept) && n !in kept
    ensures multiset(r + [n]) == multiset(into) + multiset(kept + {n})
  {
    assert multiset(kept + {n}) == multiset(kept) + multiset{n};
  }

  /** One step of `AppendOffered`: a name not seen yet is appended exactly when it is offered. */
  lemma AppendOfferedStep(r: seq<CName>, into: seq<CName>, done: set<CName>, n: CName, available: seq<string>)
    requires multiset(r) == multiset(into) + multiset(Offered(done, available)) && n !in done
    ensures multiset(if Available(n, available) then r + [n] else r)
      == multiset(into) + multiset(Offered(done + {n}, available))
  {
    OfferedAdd(done, n, available);
    if Available(n, available) {
      AppendStep(r, into, Offered(done, available), n);
    }
  }

  /*** The driver. ***/

  datatype PhysicalDeviceType = OtherType | IntegratedGpu | DiscreteGpu | VirtualGpu | CpuType

  datatype PhysicalDevice = PhysicalDevice(handle: Handle, deviceType: PhysicalDeviceType)

  /** Everything the builders ask the loader, the instance and the physical devices. */
  datatype Platform = Platform(
    instanceExtensions: seq<string>,
    instanceLayers: seq<string>,
    createdInstance: Handle,
    createdMessenger: Handle,
    createdReportCallback: Handle,
    physicalDevices: seq<PhysicalDevice>,
    deviceExtensions: Handle -> seq<string>,
    deviceLayers: Handle -> seq<string>,
    queueFamilies: Handle -> seq<Flags>,
    surfaceSupport: (Handle, nat, Handle) -> bool,
    supportedFeatures: Handle -> set<nat>,
    createdDevice: Handle,
    deviceQueue: (nat, nat) -> Handle)

  /*** InstanceBuilder ***/

  const DebugUtilsExtensionName := "VK_EXT_debug_utils"
  const DebugReportExtensionName := "VK_EXT_debug_report"

  /** The messenger `build` sets up: debug utils when offered, else debug report, else none. */
  datatype DebugExtension = NoDebugExtension | DebugUtils | DebugReport

  function ChosenDebugExtension(hasLoggers: bool, available: seq<string>): DebugExtension {
    if !hasLoggers then NoDebugExtension
    else if DebugUtilsExtensionName in available then DebugUtils
    else if DebugReportExtensionName in available then DebugReport
    else NoDebugExtension
  }

  /** The optional request `build` makes for the chosen messenger's extension. */
  function DebugRequest(s: NameSets, choice: DebugExtension): NameSets {
    match choice
    case NoDebugExtension => s
    case DebugUtils => InstanceRequest(s, Literal(DebugUtilsExtensionName), Optional)
    case DebugReport => InstanceRequest(s, Literal(DebugReportExtensionName), Optional)
  }

  /** The validation layers `enable_validation_layers` tries, most preferred first. */
  const ValidationLayerPriorityList: seq<seq<CName>> := [
    [Literal("VK_LAYER_KHRONOS_validation")],
    [Literal("VK_LAYER_LUNARG_standard_validation")],
    [Literal("VK_LAYER_GOOGLE_threading"), Literal("VK_LAYER_LUNARG_parameter_validation"),
     Literal("VK_LAYER_LUNARG_object_tracker"), Literal("VK_LAYER_LUNARG_core_validation"),
     Literal("VK_LAYER_GOOGLE_unique_objects")],
    [Literal("VK_LAYER_LUNARG_core_validation")]
  ]

  predicate EntryAvailable(entry: seq<CName>, available: seq<string>) {
    forall i :: 0 <= i < |entry| ==> Available(entry[i], available)
  }

  /** The first entry of `entries`, from `from` on, whose layers are all offered. */
  function FirstAvailableEntry(entries: seq<seq<CName>>, available: seq<string>, from: nat := 0): (r: Option<nat>)
    requires from <= |entries|
    ensures r.Some? ==>
      && from <= r.value < |entries| && EntryAvailable(entries[r.value], available)
      && forall j :: from <= j < r.value ==> !EntryAvailable(entries[j], available)
    ensures r.None? ==> forall j :: from <= j < |entries| ==> !EntryAvailable(entries[j], available)
    decreases |entries| - from
  {
    if from == |entries| then None
    else if EntryAvailable(entries[from], available) then Some(from)
    else FirstAvailableEntry(entries, available, from + 1)
  }

  class InstanceBuilder {
    var requiredExtensions: set<CName>
    var requiredLayers: set<CName>
    var optionalExtensions: set<CName>
    var optionalLayers: set<CName>
    /** The `shared_ptr<LoggerCallbacks>` list, by identity. */
    var loggerCallbacks: seq<nat>
    var applicationInfo: nat

    constructor ()
      ensures Extensions() == NoNames && Layers() == NoNames && loggerCallbacks == []
    {
      requiredExtensions, requiredLayers, optionalExtensions, optionalLayers := {}, {}, {}, {};
      loggerCallbacks, applicationInfo := [], 0;
    }

    function Extensions(): NameSets
      reads this
    {
      NameSets(requiredExtensions, optionalExtensions)
    }

    function Layers(): NameSets
      reads this
    {
      NameSets(requiredLayers, optionalLayers)
    }

    method SetApplicationInfo(info: nat)
      modifies this
      ensures applicationInfo == info
      ensures Extensions() == old(Extensions()) && Layers() == old(Layers()) && loggerCallbacks == old(loggerCallbacks)
    {
      applicationInfo := info;
    }

    /** `request_extension`: Optional only when not already required; Required erases from Optional. */
    method RequestExtension(name: CName, mode: InclusionMode)
      modifies this
      ensures Extensions() == InstanceRequest(old(Extensions()), name, mode)
      ensures Layers() == old(Layers()) && loggerCallbacks == old(loggerCallbacks)
      ensures applicationInfo == old(applicationInfo)
    {
      if mode == Optional {
        if name !in requiredExtensions {
          optionalExtensions := optionalExtensions + {name};
        }
      } else {
        optionalExtensions := optionalExtensions - {name};
        requiredExtensions := requiredExtensions + {name};
      }
    }

    /** `request_layer`, with the same rule. */
    method RequestLayer(name: CName, mode: InclusionMode)
      modifies this
      ensures Layers() == InstanceRequest(old(Layers()), name, mode)
      ensures Extensions() == old(Extensions()) && loggerCallbacks == old(loggerCallbacks)
      ensures applicationInfo == old(applicationInfo)
    {
      if mode == Optional {
        if name !in requiredLayers {
          optionalLayers := optionalLayers + {name};
        }
      } else {
        optionalLayers := optionalLayers - {name};
        requiredLayers := requiredLayers + {name};
      }
    }

    /** `request_layer(extension_name, layer_name, mode)`. */
    method RequestExtensionAndLayer(extension: CName, layer: CName, mode: InclusionMode)
      modifies this
      ensures Extensions() == InstanceRequest(old(Extensions()), extension, mode)
      ensures Layers() == InstanceRequest(old(Layers()), layer, mode)
      ensures loggerCallbacks == old(loggerCallbacks) && applicationInfo == old(applicationInfo)
    {
      RequestExtension(extension, mode);
      RequestLayer(layer, mode);
    }

    /** `add_logger_callback`. */
    method AddLoggerCallback(callbacks: nat)
      modifies this
      ensures loggerCallbacks == old(loggerCallbacks) + [callbacks]
      ensures Extensions() == old(Extensions()) && Layers() == old(Layers()) && applicationInfo == old(applicationInfo)
    {
      loggerCallbacks := loggerCallbacks + [callbacks];
    }

    /**
     * `enable_validation_layers`: requests as Required every layer of the first priority entry
     * whose layers are all offered; requests nothing when no entry is complete.
     */
    method EnableValidationLayers(available: seq<string>)
      modifies this
      ensures var k := FirstAvailableEntry(ValidationLayerPriorityList, available);
        && (k.None? ==> Layers() == old(Layers()))
        && (k.Some? ==>
              && requiredLayers == old(requiredLayers) + (set l | l in ValidationLayerPriorityList[k.value])
              && optionalLayers == old(optionalLayers) - (set l | l in ValidationLayerPriorityList[k.value]))
      ensures Extensions() == old(Extensions()) && loggerCallbacks == old(loggerCallbacks)
      ensures applicationInfo == old(applicationInfo)
    {
      var list := ValidationLayerPriorityList;
      var i := 0;
      while i < |list|
        invariant 0 <= i <= |list|
        invariant FirstAvailableEntry(list, available) == FirstAvailableEntry(list, available, i)
        invariant unchanged(this)
      {
        var complete := AllLayersAreAvailable(list[i], available);
        if complete {
          RequestRequiredLayers(list[i]);
          return;
        }
        i := i + 1;
      }
    }

    /** Requests every layer of `entry` as Required, in order. */
    method RequestRequiredLayers(entry: seq<CName>)
      modifies this
      ensures requiredLayers == old(requiredLayers) + (set l | l in entry)
      ensures optionalLayers == old(optionalLayers) - (set l | l in entry)
      ensures Extensions() == old(Extensions()) && loggerCallbacks == old(loggerCallbacks)
      ensures applicationInfo == old(applicationInfo)
    {
      var j := 0;
      while j < |entry|
        invariant 0 <= j <= |entry|
        invariant requiredLayers == old(requiredLayers) + (set l | l in entry[..j])
        invariant optionalLayers == old(optionalLayers) - (set l | l in entry[..j])
        invariant Extensions() == old(Extensions()) && loggerCallbacks == old(loggerCallbacks)
        invariant applicationInfo == old(applicationInfo)
      {
        assert entry[..j + 1] == entry[..j] + [entry[j]];
        RequestLayer(entry[j], Required);
        j := j + 1;
      }
      assert entry[..j] == entry;
    }

    /**
     * `build`: picks the debug messenger and requests its extension as Optional, throws on the
     * first missing required extension and then on the first missing required layer, enables the
     * required names plus the offered optional ones, and creates the instance and the messenger.
     */
    method Build(context: Contexts.Context, platform: Platform) returns (r: Result<(set<CName>, set<CName>, DebugExtension)>)
      modifies this, context
      ensures var choice := ChosenDebugExtension(|old(loggerCallbacks)| > 0, platform.instanceExtensions);
        && Extensions() == DebugRequest(old(Extensions()), choice)
        && (r.Ok? ==> r.value == (Enabled(Extensions(), platform.instanceExtensions),
                                  Enabled(Layers(), platform.instanceLayers), choice))
        && (r.Ok? && choice == DebugUtils ==> context.debugUtilsMessenger == platform.createdMessenger)
        && (r.Ok? && choice == DebugReport ==> context.debugReportCallback == platform.createdReportCallback)
      ensures Layers() == old(Layers()) && loggerCallbacks == old(loggerCallbacks)
      ensures r.Err? <==>
        !AllAvailable(requiredExtensions, platform.instanceExtensions) || !AllAvailable(requiredLayers, platform.instanceLayers)
      ensures r.Ok? ==> context.instance == platform.createdInstance
      ensures r.Err? ==> unchanged(context)
      ensures context.cleanupCallbacks == old(context.cleanupCallbacks) && context.queueGroups == old(context.queueGroups)
      ensures context.physicalDevice == old(context.physicalDevice) && context.device == old(context.device)
    {
      var choice := NoDebugExtension;
      if |loggerCallbacks| > 0 {
        var hasUtils, hasReport := FindDebugExtension(platform.instanceExtensions);
        if hasUtils {
          choice := DebugUtils;
          RequestExtension(Literal(DebugUtilsExtensionName), Optional);
        } else if hasReport {
          choice := DebugReport;
          RequestExtension(Literal(DebugReportExtensionName), Optional);
        }
      }
      var extensionCheck := CheckRequired(requiredExtensions, platform.instanceExtensions, "Required extension is not available: ");
      if extensionCheck.Fail? {
        return Err(extensionCheck.error);
      }
      var extensions := CollectEnabled(Extensions(), platform.instanceExtensions);
      var layerCheck := CheckRequired(requiredLayers, platform.instanceLayers, "Required layer is not available: ");
      if layerCheck.Fail? {
        return Err(layerCheck.error);
      }
      var layers := CollectEnabled(Layers(), platform.instanceLayers);
      context.instance := platform.createdInstance;
      if choice == DebugUtils {
        context.debugUtilsMessenger := platform.createdMessenger;
      } else if choice == DebugReport {
        context.debugReportCallback := platform.createdReportCallback;
      }
      return Ok((extensions, layers, choice));
    }
  }

  /** The scan of the offered instance extensions: it stops at debug utils, which is preferred. */
  method FindDebugExtension(available: seq<string>) returns (utils: bool, report: bool)
    ensures utils <==> DebugUtilsExtensionName in available
    ensures !utils ==> (report <==> DebugReportExtensionName in available)
  {
    utils, report := false, false;
    var i := 0;
    while i < |available|
      invariant 0 <= i <= |available|
      invariant DebugUtilsExtensionName !in available[..i]
      invariant report <==> DebugReportExtensionName in available[..i]
    {
      assert available[..i + 1] == available[..i] + [available[i]];
      if available[i] == DebugUtilsExtensionName {
        return true, report;
      } else if available[i] == DebugReportExtensionName {
        report := true;
      }
      i := i + 1;
    }
    assert available[..i] == available;
  }

  /** The `all_layers_are_available` lambda. */
  method AllLayersAreAvailable(requested: seq<CName>, available: seq<string>) returns (b: bool)
    ensures b <==> EntryAvailable(requested, available)
  {
    var i := 0;
    while i < |requested|
      invariant 0 <= i <= |requested|
      invariant forall k :: 0 <= k < i ==> Available(requested[k], available)
    {
      if requested[i].text !in available {
        return false;
      }
      i := i + 1;
    }
    return true;
  }

  /*** PhysicalDeviceSelector ***/

  const RejectedScore: int := -1
  const DefaultScore: int := 10
  const PreferredScore: int := 100

  /** A `ScoreFunction`: an `int` for each physical device. */
  type ScoreFunction = PhysicalDevice -> int

  /** Two's-complement truncation to a 32-bit `int`. */
  function ToInt32(x: int): (r: int)
    ensures -0x8000_0000 <= r < 0x8000_0000
    ensures -0x8000_0000 <= x < 0x8000_0000 ==> r == x
  {
    var m := x % U32Modulus;
    if m >= 0x8000_0000 then m - U32Modulus else m
  }

  /** The `type_preference` lambda, from position `from` on: `PreferredScore - i * DefaultScore` at the first match. */
  function TypeScore(order: seq<PhysicalDeviceType>, t: PhysicalDeviceType, from: nat := 0): (r: int)
    requires from <= |order|
    ensures t !in order[from..] ==> r == RejectedScore
    ensures t in order[from..] ==> r == ToInt32(PreferredScore - (from + FirstIndex(order[from..], t)) * DefaultScore)
    decreases |order| - from
  {
    if from == |order| then RejectedScore
    else if order[from] == t then ToInt32(PreferredScore - from * DefaultScore)
    else
      assert order[from..][1..] == order[from + 1..];
      TypeScore(order, t, from + 1)
  }

  /** The score of a type is fixed by its first position in the order. */
  lemma {:induction false} TypeScoreAt(order: seq<PhysicalDeviceType>, t: PhysicalDeviceType, from: nat, i: nat)
    requires from <= i < |order| && order[i] == t
    requires forall k :: from <= k < i ==> order[k] != t
    ensures TypeScore(order, t, from) == ToInt32(PreferredScore - i * DefaultScore)
    decreases i - from
  {
    if from < i {
      TypeScoreAt(order, t, from + 1, i);
    }
  }

  /** A type missing from the order gets RejectedScore. */
  lemma {:induction false} TypeScoreAbsent(order: seq<PhysicalDeviceType>, t: PhysicalDeviceType, from: nat)
    requires from <= |order|
    requires forall k :: from <= k < |order| ==> order[k] != t
    ensures TypeScore(order, t, from) == RejectedScore
    decreases |order| - from
  {
    if from < |order| {
      TypeScoreAbsent(order, t, from + 1);
    }
  }

  const DefaultTypeOrder: seq<PhysicalDeviceType> := [DiscreteGpu, IntegratedGpu, VirtualGpu, CpuType, OtherType]

  function DefaultTypePreference(): ScoreFunction {
    (d: PhysicalDevice) => TypeScore(DefaultTypeOrder, d.deviceType)
  }

  /** `type_preference`: the default order when the list is empty. */
  function TypePreference(order: seq<PhysicalDeviceType>): (f: ScoreFunction)
    ensures order == [] ==> f == DefaultTypePreference()
  {
    if order == [] then DefaultTypePreference()
    else (d: PhysicalDevice) => TypeScore(order, d.deviceType)
  }

  /** The default order scores discrete 100, integrated 90, virtual 80, CPU 70 and other 60. */
  lemma DefaultTypeScores(d: PhysicalDevice)
    ensures TypePreference([])(d) == match d.deviceType
      case DiscreteGpu => 100 case IntegratedGpu => 90 case VirtualGpu => 80 case CpuType => 70 case OtherType => 60
  {
    var o := DefaultTypeOrder;
    var s := TypeScore(o, d.deviceType);
    assert TypeScore(o, d.deviceType, 5) == RejectedScore;
  }

  /** Earlier in the order scores higher, for the first eleven positions. */
  lemma TypePreferenceRanks(order: seq<PhysicalDeviceType>, i: nat, j: nat)
    requires i < j < |order| && j <= 10
    requires forall k :: 0 <= k < i ==> order[k] != order[i]
    requires forall k :: 0 <= k < j ==> order[k] != order[j]
    ensures TypeScore(order, order[i]) > TypeScore(order, order[j]) >= 0
  {
    TypeScoreAt(order, order[i], 0, i);
    TypeScoreAt(order, order[j], 0, j);
  }

  /** A device's score as `select` means it: the signed sum of every score function. */
  function DeviceScore(scores: seq<ScoreFunction>, d: PhysicalDevice): (r: int)
    ensures |scores| == 1 ==> r == scores[0](d)
    ensures (forall i :: 0 <= i < |scores| ==> scores[i](d) >= 0) ==> r >= 0
  {
    if scores == [] then 0 else DeviceScore(scores[..|scores| - 1], d) + scores[|scores| - 1](d)
  }

  /** The score functions can be summed in any grouping: the score of `a + b` is the two scores added. */
  lemma {:induction false} DeviceScoreAppend(a: seq<ScoreFunction>, b: seq<ScoreFunction>, d: PhysicalDevice)
    ensures DeviceScore(a + b, d) == DeviceScore(a, d) + DeviceScore(b, d)
    decreases |b|
  {
    if b != [] {
      assert (a + b)[..|a + b| - 1] == a + b[..|b| - 1];
      DeviceScoreAppend(a, b[..|b| - 1], d);
    } else {
      assert a + b == a;
    }
  }

  /** The score as written: each `int` converted to `uint32_t` and summed modulo 2^32. */
  function WrappedScore(scores: seq<ScoreFunction>, d: PhysicalDevice): (r: int)
    ensures 0 <= r < U32Modulus && r == DeviceScore(scores, d) % U32Modulus
  {
    if scores == [] then 0
    else
      var w := WrappedScore(scores[..|scores| - 1], d);
      ModOfSum(DeviceScore(scores[..|scores| - 1], d), scores[|scores| - 1](d));
      (w + scores[|scores| - 1](d)) % U32Modulus
  }

  /** Reducing the first addend modulo 2^32 first does not change the sum modulo 2^32. */
  lemma ModOfSum(x: int, y: int)
    ensures (x % U32Modulus + y) % U32Modulus == (x + y) % U32Modulus
  {
    var q := x / U32Modulus;
    assert x == q * U32Modulus + x % U32Modulus;
    assert x + y == (x % U32Modulus + y) + q * U32Modulus;
  }

  /**
   * As written, a device that `type_preference` rejects (-1, wrapped to 2^32 - 1) outranks the
   * preferred discrete GPU (100).
   */
  lemma WrappedScoreRanksRejectedFirst()
    ensures var scores := [TypePreference([DiscreteGpu])];
      WrappedScore(scores, PhysicalDevice(1, CpuType)) == 0xFFFF_FFFF
      && WrappedScore(scores, PhysicalDevice(2, DiscreteGpu)) == 100
      && WrappedScore(scores, PhysicalDevice(1, CpuType)) > WrappedScore(scores, PhysicalDevice(2, DiscreteGpu))
  {
    var scores := [TypePreference([DiscreteGpu])];
    assert scores[..0] == [];
    assert TypeScore([DiscreteGpu], CpuType, 1) == RejectedScore;
  }

  /** With the signed sum, a device of a listed type outranks one of an unlisted type. */
  lemma DeviceScoreRanksListedFirst(order: seq<PhysicalDeviceType>, listed: PhysicalDevice, unlisted: PhysicalDevice)
    requires 0 < |order| <= 11 && listed.deviceType in order && unlisted.deviceType !in order
    ensures DeviceScore([TypePreference(order)], listed) > DeviceScore([TypePreference(order)], unlisted)
  {
    var scores := [TypePreference(order)];
    assert scores[..0] == [];
    TypeScoreAbsent(order, unlisted.deviceType, 0);
    var i := FirstIndex(order, listed.deviceType);
    TypeScoreAt(order, listed.deviceType, 0, i);
  }

  /**
   * Past eleven positions the ranking breaks in the source: a type first listed at position 11
   * scores 100 - 110 = -10, below the -1 of a type that is not listed at all.
   */
  lemma TypePreferenceRankBreaksAtTwelve()
    ensures var order := seq(11, _ => CpuType) + [DiscreteGpu];
      && TypeScore(order, DiscreteGpu) == -10 && TypeScore(order, VirtualGpu) == RejectedScore
      && DeviceScore([TypePreference(order)], PhysicalDevice(1, DiscreteGpu))
           < DeviceScore([TypePreference(order)], PhysicalDevice(2, VirtualGpu))
  {
    var order := seq(11, _ => CpuType) + [DiscreteGpu];
    TypeScoreAt(order, DiscreteGpu, 0, 11);
    TypeScoreAbsent(order, VirtualGpu, 0);
  }

  function FirstIndex<T(==)>(s: seq<T>, x: T): (i: nat)
    requires x in s
    ensures i < |s| && s[i] == x && forall k :: 0 <= k < i ==> s[k] != x
  {
    if s[0] == x then 0 else FirstIndex(s[1..], x) + 1
  }

  class PhysicalDeviceSelector {
    var scoreFunctions: seq<ScoreFunction>

    constructor ()
      ensures scoreFunctions == []
    {
      scoreFunctions := [];
    }

    /** `score`: appends a score function. */
    method Score(f: ScoreFunction)
      modifies this
      ensures scoreFunctions == old(scoreFunctions) + [f]
    {
      scoreFunctions := scoreFunctions + [f];
    }

    /** The inner summing loop of `select`, with the signed sum. */
    method SumScores(d: PhysicalDevice) returns (score: int)
      ensures score == DeviceScore(scoreFunctions, d)
    {
      score := 0;
      var i := 0;
      while i < |scoreFunctions|
        invariant 0 <= i <= |scoreFunctions|
        invariant score == DeviceScore(scoreFunctions[..i], d)
      {
        assert scoreFunctions[..i + 1][..i] == scoreFunctions[..i];
        score := score + scoreFunctions[i](d);
        i := i + 1;
      }
      assert scoreFunctions[..i] == scoreFunctions;
    }

    /**
     * `select`: nothing without an instance; throws on an empty device list; otherwise the chosen
     * device has a maximal score.
     */
    method Select(context: Contexts.Context, devices: seq<PhysicalDevice>) returns (o: Outcome)
      modifies context
      ensures old(context.instance) == NullHandle ==> o == Pass && unchanged(context)
      ensures old(context.instance) != NullHandle && devices == [] ==>
        o == Fail(RuntimeError("No physical devices available")) && unchanged(context)
      ensures old(context.instance) != NullHandle && devices != [] ==>
        && o == Pass
        && exists i :: 0 <= i < |devices| && context.physicalDevice == devices[i].handle
             && forall j :: 0 <= j < |devices| ==> DeviceScore(scoreFunctions, devices[j]) <= DeviceScore(scoreFunctions, devices[i])
      ensures context.instance == old(context.instance) && context.device == old(context.device)
      ensures context.queueGroups == old(context.queueGroups) && context.cleanupCallbacks == old(context.cleanupCallbacks)
      ensures context.debugUtilsMessenger == old(context.debugUtilsMessenger)
      ensures context.debugReportCallback == old(context.debugReportCallback)
    {
      if context.instance == NullHandle {
        return Pass;
      }
      if devices == [] {
        return Fail(RuntimeError("No physical devices available"));
      }
      var best := 0;
      var bestScore := SumScores(devices[0]);
      var i := 1;
      while i < |devices|
        invariant 1 <= i <= |devices| && best < |devices|
        invariant bestScore == DeviceScore(scoreFunctions, devices[best])
        invariant forall j :: 0 <= j < i ==> DeviceScore(scoreFunctions, devices[j]) <= bestScore
        invariant unchanged(context)
      {
        var s := SumScores(devices[i]);
        if s > bestScore {
          best, bestScore := i, s;
        }
        i := i + 1;
      }
      context.physicalDevice := devices[best].handle;
      return Pass;
    }
  }

  /*** DeviceBuilder ***/

  const PortabilitySubsetName := "VK_KHR_portability_subset"

  /** `DeviceBuilder::QueueRequest`. */
  datatype QueueRequest = QueueRequest(queueType: Flags, count: uint32, surfaces: seq<Handle>, flags: Flags)

  /** The `vk::PhysicalDeviceFeatures` members, in the order `build` checks them. */
  const FeatureNames: seq<string> := [
    "robustBufferAccess", "fullDrawIndexUint32", "imageCubeArray", "independentBlend", "geometryShader",
    "tessellationShader", "sampleRateShading", "dualSrcBlend", "logicOp", "multiDrawIndirect",
    "drawIndirectFirstInstance", "depthClamp", "depthBiasClamp", "fillModeNonSolid", "depthBounds",
    "wideLines", "largePoints", "alphaToOne", "multiViewport", "samplerAnisotropy",
    "textureCompressionETC2", "textureCompressionASTC_LDR", "textureCompressionBC", "occlusionQueryPrecise",
    "pipelineStatisticsQuery", "vertexPipelineStoresAndAtomics", "fragmentStoresAndAtomics",
    "shaderTessellationAndGeometryPointSize", "shaderImageGatherExtended", "shaderStorageImageExtendedFormats",
    "shaderStorageImageMultisample", "shaderStorageImageReadWithoutFormat", "shaderStorageImageWriteWithoutFormat",
    "shaderUniformBufferArrayDynamicIndexing", "shaderSampledImageArrayDynamicIndexing",
    "shaderStorageBufferArrayDynamicIndexing", "shaderStorageImageArrayDynamicIndexing", "shaderClipDistance",
    "shaderCullDistance", "shaderFloat64", "shaderInt64", "shaderInt16", "shaderResourceResidency",
    "shaderResourceMinLod", "sparseBinding", "sparseResidencyBuffer", "sparseResidencyImage2D",
    "sparseResidencyImage3D", "sparseResidency2Samples", "sparseResidency4Samples", "sparseResidency8Samples",
    "sparseResidency16Samples", "sparseResidencyAliased", "variableMultisampleRate", "inheritedQueries"
  ]

  /** The first family, from `from` on, sharing a flag bit with the request (`std::find_if`). */
  function FirstFamily(families: seq<Flags>, queueType: Flags, from: nat := 0): (r: nat)
    requires from <= |families|
    ensures from <= r <= |families|
    ensures r < |families| ==> Intersects(families[r], queueType)
    ensures forall j :: from <= j < r ==> !Intersects(families[j], queueType)
    decreases |families| - from
  {
    if from == |families| then from
    else if Intersects(families[from], queueType) then from
    else FirstFamily(families, queueType, from + 1)
  }

  /** The queue group a request yields on family `family`, its queues still null. */
  function RequestedGroup(request: QueueRequest, family: nat): Contexts.QueueGroup {
    Contexts.QueueGroup((family % U32Modulus) as uint32, request.queueType,
                        seq(request.count as int, _ => NullHandle), request.surfaces)
  }

  predicate SurfacesSupported(request: QueueRequest, family: nat, support: (nat, Handle) -> bool) {
    forall k :: 0 <= k < |request.surfaces| ==> support(family, request.surfaces[k])
  }

  /** Some family shares a bit with the request, and the first such presents all its surfaces. */
  predicate Servable(request: QueueRequest, families: seq<Flags>, support: (nat, Handle) -> bool) {
    FirstFamily(families, request.queueType) < |families|
    && SurfacesSupported(request, FirstFamily(families, request.queueType), support)
  }

  /** Every request can be served. */
  predicate QueuesServable(requests: seq<QueueRequest>, families: seq<Flags>, support: (nat, Handle) -> bool) {
    forall i :: 0 <= i < |requests| ==> Servable(requests[i], families, support)
  }

  /**
   * The queue-request loop of `DeviceBuilder::build`: the first family sharing a bit with each
   * request, which must present every one of its surfaces.
   */
  method ResolveQueues(requests: seq<QueueRequest>, families: seq<Flags>, support: (nat, Handle) -> bool)
    returns (r: Result<seq<Contexts.QueueGroup>>)
    ensures r.Ok? <==> QueuesServable(requests, families, support)
    ensures r.Ok? ==> |r.value| == |requests| && forall i :: 0 <= i < |requests| ==>
      r.value[i] == RequestedGroup(requests[i], FirstFamily(families, requests[i].queueType))
    ensures r.Err? ==> r.error in {RuntimeError("No queue family supports the requested queue type"),
                                   RuntimeError("No queue family supports the requested presentation surface")}
  {
    var groups: seq<Contexts.QueueGroup> := [];
    var i := 0;
    while i < |requests|
      invariant 0 <= i <= |requests| && |groups| == i
      invariant QueuesServable(requests[..i], families, support)
      invariant forall k :: 0 <= k < i ==> groups[k] == RequestedGroup(requests[k], FirstFamily(families, requests[k].queueType))
    {
      var request := requests[i];
      var family := FirstFamily(families, request.queueType);
      if family == |families| {
        assert !QueuesServable(requests, families, support) by {
          assert requests[i] == request;
        }
        return Err(RuntimeError("No queue family supports the requested queue type"));
      }
      var valid := true;
      var k := 0;
      while k < |request.surfaces|
        invariant 0 <= k <= |request.surfaces|
        invariant forall m :: 0 <= m < k ==> support(family, request.surfaces[m])
      {
        if !support(family, request.surfaces[k]) {
          valid := false;
          break;
        }
        k := k + 1;
      }
      if !valid {
        assert !QueuesServable(requests, families, support) by {
          assert requests[i] == request;
          assert !support(family, request.surfaces[k]);
        }
        return Err(RuntimeError("No queue family supports the requested presentation surface"));
      }
      assert Servable(request, families, support);
      assert requests[..i + 1] == requests[..i] + [request];
      groups := groups + [RequestedGroup(request, family)];
      i := i + 1;
    }
    assert requests[..i] == requests;
    return Ok(groups);
  }

  /** The `FEATURE_CHECK` list: throws on the first enabled feature the device lacks. */
  method CheckFeatures(enabled: set<nat>, supported: set<nat>) returns (o: Outcome)
    ensures o == Pass <==> forall f :: 0 <= f < |FeatureNames| && f in enabled ==> f in supported
    ensures o.Fail? ==> exists f :: (0 <= f < |FeatureNames| && f in enabled && f !in supported
      && o.error == RuntimeError(FeatureNames[f] + " is not supported")
      && forall g :: 0 <= g < f && g in enabled ==> g in supported)
  {
    var f := 0;
    while f < |FeatureNames|
      invariant 0 <= f <= |FeatureNames|
      invariant forall g :: 0 <= g < f && g in enabled ==> g in supported
    {
      if f in enabled && f !in supported {
        return Fail(RuntimeError(FeatureNames[f] + " is not supported"));
      }
      f := f + 1;
    }
    return Pass;
  }

  /** The queue handles of each group, fetched from the device by family and index. */
  function WithQueues(groups: seq<Contexts.QueueGroup>, deviceQueue: (nat, nat) -> Handle): (r: seq<Contexts.QueueGroup>)
    ensures |r| == |groups|
    ensures forall g :: 0 <= g < |groups| ==>
      && r[g].familyIndex == groups[g].familyIndex && r[g].supportedQueues == groups[g].supportedQueues
      && r[g].presentationSurfaces == groups[g].presentationSurfaces && |r[g].queues| == |groups[g].queues|
      && forall i :: 0 <= i < |groups[g].queues| ==> r[g].queues[i] == deviceQueue(groups[g].familyIndex as nat, i)
  {
    seq(|groups|, g requires 0 <= g < |groups| =>
      groups[g].(queues := seq(|groups[g].queues|, i requires 0 <= i => deviceQueue(groups[g].familyIndex as nat, i))))
  }

  /** The queue group of each request, on the first family sharing a bit with it. */
  function RequestedGroups(requests: seq<QueueRequest>, families: seq<Flags>): seq<Contexts.QueueGroup> {
    seq(|requests|, i requires 0 <= i < |requests| => RequestedGroup(requests[i], FirstFamily(families, requests[i].queueType)))
  }

  /** What `DeviceBuilder::build` passes to `createDevice`. */
  datatype DeviceCreation = DeviceCreation(extensions: set<CName>, layers: seq<CName>, queueGroups: seq<Contexts.QueueGroup>, features: set<nat>)

  class DeviceBuilder {
    var queueRequests: seq<QueueRequest>
    var requiredExtensions: set<CName>
    var requiredLayers: set<CName>
    var optionalExtensions: set<CName>
    var optionalLayers: set<CName>
    var enabledFeatures: set<nat>

    constructor ()
      ensures queueRequests == [] && Extensions() == NoNames && Layers() == NoNames && enabledFeatures == {}
    {
      queueRequests := [];
      requiredExtensions, requiredLayers, optionalExtensions, optionalLayers := {}, {}, {}, {};
      enabledFeatures := {};
    }

    function Extensions(): NameSets
      reads this
    {
      NameSets(requiredExtensions, optionalExtensions)
    }

    function Layers(): NameSets
      reads this
    {
      NameSets(requiredLayers, optionalLayers)
    }

    /** `request_queue`: appends the request. */
    method RequestQueue(queueType: Flags, count: uint32, surfaces: seq<Handle>, flags: Flags)
      modifies this
      ensures queueRequests == old(queueRequests) + [QueueRequest(queueType, count, surfaces, flags)]
      ensures Extensions() == old(Extensions()) && Layers() == old(Layers()) && enabledFeatures == old(enabledFeatures)
    {
      queueRequests := queueRequests + [QueueRequest(queueType, count, surfaces, flags)];
    }

    /** `request_extension`: adds to one set and never removes from the other. */
    method RequestExtension(name: CName, mode: InclusionMode)
      modifies this
      ensures Extensions() == DeviceRequest(old(Extensions()), name, mode)
      ensures Layers() == old(Layers()) && queueRequests == old(queueRequests) && enabledFeatures == old(enabledFeatures)
    {
      if mode == Required {
        requiredExtensions := requiredExtensions + {name};
      } else {
        optionalExtensions := optionalExtensions + {name};
      }
    }

    /** `request_layer`, likewise. */
    method RequestLayer(name: CName, mode: InclusionMode)
      modifies this
      ensures Layers() == DeviceRequest(old(Layers()), name, mode)
      ensures Extensions() == old(Extensions()) && queueRequests == old(queueRequests) && enabledFeatures == old(enabledFeatures)
    {
      if mode == Required {
        requiredLayers := requiredLayers + {name};
      } else {
        optionalLayers := optionalLayers + {name};
      }
    }

    /** `request_layer(extension_name, layer_name, mode)`. */
    method RequestExtensionAndLayer(extension: CName, layer: CName, mode: InclusionMode)
      modifies this
      ensures Extensions() == DeviceRequest(old(Extensions()), extension, mode)
      ensures Layers() == DeviceRequest(old(Layers()), layer, mode)
      ensures queueRequests == old(queueRequests) && enabledFeatures == old(enabledFeatures)
    {
      RequestExtension(extension, mode);
      RequestLayer(layer, mode);
    }

    /** `enable_features`: the callback edits the enabled features in place. */
    method EnableFeatures(callback: set<nat> -> set<nat>)
      modifies this
      ensures enabledFeatures == callback(old(enabledFeatures))
      ensures Extensions() == old(Extensions()) && Layers() == old(Layers()) && queueRequests == old(queueRequests)
    {
      enabledFeatures := callback(enabledFeatures);
    }

    /** The extension part of `build`: the portability subset becomes required whenever it is offered. */
    method ResolveExtensions(available: seq<string>) returns (r: Result<set<CName>>)
      modifies this
      ensures Extensions() == if PortabilitySubsetName in available
        then old(Extensions()).(required := old(requiredExtensions) + {Literal(PortabilitySubsetName)})
        else old(Extensions())
      ensures Layers() == old(Layers()) && queueRequests == old(queueRequests) && enabledFeatures == old(enabledFeatures)
      ensures r.Ok? <==> AllAvailable(requiredExtensions, available)
      ensures r.Ok? ==> r.value == Enabled(Extensions(), available)
      ensures r.Err? ==> exists n :: (n in requiredExtensions && !Available(n, available)
        && r.error == RuntimeError("Required layer is not available: " + n.text))
    {
      if PortabilitySubsetName in available {
        requiredExtensions := requiredExtensions + {Literal(PortabilitySubsetName)};
      }
      var check := CheckRequired(requiredExtensions, available, "Required layer is not available: ");
      if check.Fail? {
        return Err(check.error);
      }
      var enabled := CollectEnabled(Extensions(), available);
      return Ok(enabled);
    }

    /**
     * `build`: nothing without an instance and a physical device; otherwise throws when no queue
     * was requested, when a required extension or layer is missing, when a request has no family
     * or an unsupported surface, or when an enabled feature is unsupported; then creates the
     * device and installs one queue group per request with the device's queues.
     */
    method Build(context: Contexts.Context, platform: Platform) returns (r: Result<Option<DeviceCreation>>)
      modifies this, context
      ensures old(context.instance) == NullHandle || old(context.physicalDevice) == NullHandle ==>
        r == Ok(None) && unchanged(context) && unchanged(this)
      ensures old(context.instance) != NullHandle && old(context.physicalDevice) != NullHandle ==>
        var gpu := old(context.physicalDevice);
        && (old(queueRequests) == [] ==> r == Err(RuntimeError("No queues requested - must request at least one queue")))
        && (r.Ok? <==>
              && old(queueRequests) != []
              && AllAvailable(requiredExtensions, platform.deviceExtensions(gpu))
              && AllAvailable(requiredLayers, platform.deviceLayers(gpu))
              && QueuesServable(queueRequests, platform.queueFamilies(gpu), (f: nat, s: Handle) => platform.surfaceSupport(gpu, f, s))
              && forall f :: 0 <= f < |FeatureNames| && f in enabledFeatures ==> f in platform.supportedFeatures(gpu))
        && (r.Ok? ==>
              && r.value.Some?
              && r.value.value.extensions == Enabled(Extensions(), platform.deviceExtensions(gpu))
              && multiset(r.value.value.layers) == multiset(requiredLayers)
                   + multiset(Offered(optionalLayers, platform.deviceLayers(gpu)))
              && r.value.value.features == enabledFeatures
              && context.device == platform.createdDevice
              && context.queueGroups == WithQueues(r.value.value.queueGroups, platform.deviceQueue)
              && |context.queueGroups| == |queueRequests|
              && forall i :: 0 <= i < |queueRequests| ==>
                   r.value.value.queueGroups[i]
                     == RequestedGroup(queueRequests[i], FirstFamily(platform.queueFamilies(gpu), queueRequests[i].queueType)))
      ensures (PortabilitySubsetName in platform.deviceExtensions(old(context.physicalDevice))
               && old(context.instance) != NullHandle && old(context.physicalDevice) != NullHandle
               && old(queueRequests) != []) ==>
        Literal(PortabilitySubsetName) in requiredExtensions
      ensures Layers() == old(Layers()) && queueRequests == old(queueRequests) && enabledFeatures == old(enabledFeatures)
      ensures context.instance == old(context.instance) && context.physicalDevice == old(context.physicalDevice)
      ensures r.Err? ==> context.device == old(context.device) && context.queueGroups == old(context.queueGroups)
      ensures context.cleanupCallbacks == old(context.cleanupCallbacks)
      ensures context.debugUtilsMessenger == old(context.debugUtilsMessenger)
      ensures context.debugReportCallback == old(context.debugReportCallback)
    {
      if context.instance == NullHandle || context.physicalDevice == NullHandle {
        return Ok(None);
      }
      if queueRequests == [] {
        return Err(RuntimeError("No queues requested - must request at least one queue"));
      }
      var gpu := context.physicalDevice;
      var extensions := ResolveExtensions(platform.deviceExtensions(gpu));
      if extensions.Err? {
        return Err(extensions.error);
      }
      var layerCheck := CheckRequired(requiredLayers, platform.deviceLayers(gpu), "Required layer is not available: ");
      if layerCheck.Fail? {
        return Err(layerCheck.error);
      }
      var layers := CollectEnabledList(Layers(), platform.deviceLayers(gpu));
      var groups := ResolveQueues(queueRequests, platform.queueFamilies(gpu), (f: nat, s: Handle) => platform.surfaceSupport(gpu, f, s));
      if groups.Err? {
        return Err(groups.error);
      }
      var featureCheck := CheckFeatures(enabledFeatures, platform.supportedFeatures(gpu));
      if featureCheck.Fail? {
        return Err(featureCheck.error);
      }
      context.device := platform.createdDevice;
      context.queueGroups := WithQueues(groups.value, platform.deviceQueue);
      return Ok(Some(DeviceCreation(extensions.value, layers, groups.value, enabledFeatures)));
    }
  }

  /*** ContextBuilder ***/

  class ContextBuilder {
    const startingInstance: Handle
    const instanceBuilder: InstanceBuilder
    const physicalDeviceSelector: PhysicalDeviceSelector
    const deviceBuilder: DeviceBuilder

    constructor (instance: Handle)
      ensures startingInstance == instance
      ensures fresh(instanceBuilder) && fresh(physicalDeviceSelector) && fresh(deviceBuilder)
      ensures instanceBuilder.Extensions() == NoNames && instanceBuilder.Layers() == NoNames
      ensures physicalDeviceSelector.scoreFunctions == [] && deviceBuilder.queueRequests == []
    {
      startingInstance := instance;
      instanceBuilder := new InstanceBuilder();
      physicalDeviceSelector := new PhysicalDeviceSelector();
      deviceBuilder := new DeviceBuilder();
    }

    /**
     * `build`: a fresh context; the starting instance when there is one, otherwise the instance
     * builder's; then the physical-device selection and the device. When a stage throws, the
     * `unique_ptr` holding the context runs `~Context` on it as the exception leaves (`partial`
     * is that context): whatever instance and messengers it holds by then are destroyed, the
     * starting instance included.
     */
    method Build(platform: Platform, log: DeviceLog) returns (r: Result<Contexts.Context>, ghost partial: Contexts.Context)
      modifies instanceBuilder, deviceBuilder, log
      ensures r.Ok? ==> fresh(r.value) && r.value.log == log && r.value == partial
      ensures r.Ok? ==> log.calls == old(log.calls)
      ensures r.Ok? && startingInstance != NullHandle ==> r.value.instance == startingInstance
      ensures r.Ok? && startingInstance == NullHandle ==> r.value.instance == platform.createdInstance
      ensures r.Ok? && r.value.instance != NullHandle ==>
        exists i :: 0 <= i < |platform.physicalDevices| && r.value.physicalDevice == platform.physicalDevices[i].handle
          && forall j :: 0 <= j < |platform.physicalDevices| ==>
               DeviceScore(physicalDeviceSelector.scoreFunctions, platform.physicalDevices[j])
                 <= DeviceScore(physicalDeviceSelector.scoreFunctions, platform.physicalDevices[i])
      ensures r.Ok? && r.value.instance != NullHandle && r.value.physicalDevice != NullHandle ==>
        && r.value.device == platform.createdDevice
        && r.value.queueGroups == WithQueues(
             RequestedGroups(deviceBuilder.queueRequests, platform.queueFamilies(r.value.physicalDevice)),
             platform.deviceQueue)
      ensures r.Ok? && (r.value.instance == NullHandle || r.value.physicalDevice == NullHandle) ==>
        r.value.device == NullHandle && r.value.queueGroups == []
      ensures r.Ok? ==> r.value.cleanupCallbacks == []
      ensures r.Err? ==>
        && fresh(partial) && partial.log == log && partial.cleanupCallbacks == [] && partial.device == NullHandle
        && log.calls == old(log.calls) + Contexts.TeardownCalls([], NullHandle, partial.debugUtilsMessenger,
                                                                partial.debugReportCallback, partial.instance)
      ensures r.Err? && startingInstance != NullHandle ==>
        && partial.instance == startingInstance
        && partial.debugUtilsMessenger == NullHandle && partial.debugReportCallback == NullHandle
    {
      var context := new Contexts.Context(log);
      partial := context;
      var o := RunStages(context, platform);
      if o.Fail? {
        context.Destroy();
        return Err(o.error), partial;
      }
      return Ok(context), partial;
    }

    /** The three stages of `build` on the fresh `context`; the first exception ends them. */
    method RunStages(context: Contexts.Context, platform: Platform) returns (o: Outcome)
      requires context.instance == NullHandle && context.physicalDevice == NullHandle && context.device == NullHandle
      requires context.cleanupCallbacks == [] && context.queueGroups == []
      requires context.debugUtilsMessenger == NullHandle && context.debugReportCallback == NullHandle
      modifies instanceBuilder, deviceBuilder, context
      ensures context.cleanupCallbacks == []
      ensures o.Pass? && startingInstance != NullHandle ==> context.instance == startingInstance
      ensures o.Pass? && startingInstance == NullHandle ==> context.instance == platform.createdInstance
      ensures o.Pass? && context.instance != NullHandle ==>
        exists i :: 0 <= i < |platform.physicalDevices| && context.physicalDevice == platform.physicalDevices[i].handle
          && forall j :: 0 <= j < |platform.physicalDevices| ==>
               DeviceScore(physicalDeviceSelector.scoreFunctions, platform.physicalDevices[j])
                 <= DeviceScore(physicalDeviceSelector.scoreFunctions, platform.physicalDevices[i])
      ensures o.Pass? && context.instance != NullHandle && context.physicalDevice != NullHandle ==>
        && context.device == platform.createdDevice
        && context.queueGroups == WithQueues(
             RequestedGroups(deviceBuilder.queueRequests, platform.queueFamilies(context.physicalDevice)),
             platform.deviceQueue)
      ensures o.Pass? && (context.instance == NullHandle || context.physicalDevice == NullHandle) ==>
        context.device == NullHandle && context.queueGroups == []
      ensures o.Fail? ==> context.device == NullHandle
      ensures o.Fail? && startingInstance != NullHandle ==>
        && context.instance == startingInstance
        && context.debugUtilsMessenger == NullHandle && context.debugReportCallback == NullHandle
    {
      if startingInstance != NullHandle {
        context.instance := startingInstance;
      } else {
        var created := instanceBuilder.Build(context, platform);
        if created.Err? {
          return Fail(created.error);
        }
      }
      var selected := physicalDeviceSelector.Select(context, platform.physicalDevices);
      if selected.Fail? {
        return selected;
      }
      var device := deviceBuilder.Build(context, platform);
      if device.Err? {
        return Fail(device.error);
      }
      if device.value.Some? {
        assert device.value.value.queueGroups
          == RequestedGroups(deviceBuilder.queueRequests, platform.queueFamilies(context.physicalDevice));
      }
      return Pass;
    }
  }
}
