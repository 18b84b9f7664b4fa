/**
 * The default debug callbacks `debug_utils_messenger_callback` and `debug_callback`: they map the
 * driver's severity or report flags to a `LogLevel`, forward to the `LoggerCallbacks` found
 * through `user_data`, and always answer `VK_FALSE`. A call is modelled by the callbacks it
 * invokes, in order.
 */
module Loggers {
  import opened Vk
  import opened Wrappers

  datatype LogLevel = Verbose | Debug | Info | Warning | Error

  // VkDebugUtilsMessageSeverityFlagBitsEXT
  const SeverityVerboseBit: Flags := 0x1
  const SeverityInfoBit: Flags := 0x10
  const SeverityWarningBit: Flags := 0x100
  const SeverityErrorBit: Flags := 0x1000

  // VkDebugReportFlagBitsEXT
  const ReportInformationBit: Flags := 0x1
  const ReportWarningBit: Flags := 0x2
  const ReportPerformanceWarningBit: Flags := 0x4
  const ReportErrorBit: Flags := 0x8
  const ReportDebugBit: Flags := 0x10

  /** `VK_FALSE`, the only answer either callback gives. */
  const VkFalse: bool := false

  /** Which of the `std::function` members of a `LoggerCallbacks` are set. */
  datatype LoggerCallbacks = LoggerCallbacks(simple: bool, debugUtils: bool, debugReport: bool)

  /** `VkDebugUtilsMessengerCallbackDataEXT`, down to its `pMessage` (`None` for null). */
  datatype CallbackData = CallbackData(message: Option<string>)

  /** The arguments of a `debug_callback` call after `flags`. */
  datatype ReportMessage = ReportMessage(objectType: nat, object: uint64, location: nat, messageCode: int,
                                         layerPrefix: string, message: string)

  /** A forwarded call, in the order the callback makes them. */
  datatype Invocation =
    | Simple(level: LogLevel, text: string)
    | DebugUtilsForward(severity: Flags, messageType: Flags, data: Option<CallbackData>)
    | DebugReportForward(flags: Flags, report: ReportMessage)

  /** The level for a debug-utils severity: the four single bits, anything else Verbose. */
  function SeverityLevel(severity: Flags): (l: LogLevel)
    ensures l != Debug
  {
    if severity == SeverityVerboseBit then Verbose
    else if severity == SeverityInfoBit then Info
    else if severity == SeverityWarningBit then Warning
    else if severity == SeverityErrorBit then Error
    else Verbose
  }

  /** The severity bit that stands for a level, the reference the mapping is checked against. */
  function LevelSeverity(l: LogLevel): Flags
    requires l != Debug
  {
    match l
    case Verbose => SeverityVerboseBit
    case Info => SeverityInfoBit
    case Warning => SeverityWarningBit
    case Error => SeverityErrorBit
  }

  /** Each level except Debug comes from exactly its own bit, and any other value means Verbose. */
  lemma SeverityLevelInverse(l: LogLevel, severity: Flags)
    requires l != Debug
    ensures SeverityLevel(LevelSeverity(l)) == l
    ensures l != Verbose ==> (SeverityLevel(severity) == l <==> severity == LevelSeverity(l))
    ensures severity !in {SeverityInfoBit, SeverityWarningBit, SeverityErrorBit} ==> SeverityLevel(severity) == Verbose
  {
  }

  /** The level for report flags, compared as a whole value; combined or unknown flags give Verbose. */
  function ReportLevel(flags: Flags): (l: LogLevel)
    ensures l == Debug <==> flags == ReportDebugBit
    ensures l == Error <==> flags == ReportErrorBit
    ensures l == Info <==> flags == ReportInformationBit
    ensures l == Warning <==> flags == ReportWarningBit || flags == ReportPerformanceWarningBit
  {
    if flags == ReportInformationBit then Info
    else if flags == ReportWarningBit then Warning
    else if flags == ReportPerformanceWarningBit then Warning
    else if flags == ReportErrorBit then Error
    else if flags == ReportDebugBit then Debug
    else Verbose
  }

  const ReportBits: seq<Flags> := [ReportInformationBit, ReportWarningBit, ReportPerformanceWarningBit,
                                   ReportErrorBit, ReportDebugBit]

  /** Two different report bits together are not matched by any case. */
  lemma ReportCombinedIsVerbose(i: nat, j: nat)
    requires i < |ReportBits| && j < |ReportBits| && i != j
    ensures ReportLevel(ReportBits[i] | ReportBits[j]) == Verbose
  {
  }

  /** Only the warning and performance-warning bits share a level; the others are told apart. */
  lemma ReportLevelDistinguishes(i: nat, j: nat)
    requires i < |ReportBits| && j < |ReportBits| && i < j
    ensures ReportLevel(ReportBits[i]) == ReportLevel(ReportBits[j]) <==> i == 1 && j == 2
    ensures ReportLevel(ReportBits[i]) != Verbose
  {
  }

  /**
   * `debug_utils_messenger_callback`: with no `user_data` nothing is called; otherwise the simple
   * callback with the mapped level when it is set and a message is present, then the debug-utils
   * callback when it is set.
   */
  function DebugUtilsMessengerCallback(severity: Flags, messageType: Flags, data: Option<CallbackData>,
                                       userData: Option<LoggerCallbacks>): (r: (bool, seq<Invocation>))
    ensures r.0 == VkFalse
    ensures userData.None? ==> r.1 == []
    ensures forall k :: 0 <= k < |r.1| ==> !r.1[k].DebugReportForward?
    ensures userData.Some? && userData.value.simple && data.Some? && data.value.message.Some? ==>
      |r.1| > 0 && r.1[0] == Simple(SeverityLevel(severity), data.value.message.value)
    ensures forall k :: 0 <= k < |r.1| && r.1[k].Simple? ==>
      k == 0 && userData.Some? && userData.value.simple && data.Some? && data.value.message.Some?
    ensures userData.Some? && userData.value.debugUtils ==>
      |r.1| > 0 && r.1[|r.1| - 1] == DebugUtilsForward(severity, messageType, data)
    ensures forall k :: 0 <= k < |r.1| && r.1[k].DebugUtilsForward? ==>
      k == |r.1| - 1 && userData.Some? && userData.value.debugUtils
  {
    if userData.None? then (VkFalse, [])
    else
      var callbacks := userData.value;
      var simple := if callbacks.simple && data.Some? && data.value.message.Some?
        then [Simple(SeverityLevel(severity), data.value.message.value)] else [];
      var forward := if callbacks.debugUtils then [DebugUtilsForward(severity, messageType, data)] else [];
      (VkFalse, simple + forward)
  }

  /**
   * `debug_callback`: with no `user_data` nothing is called; otherwise the simple callback with
   * the mapped level when it is set (whatever the message), then the debug-report callback.
   */
  function DebugReportCallback(flags: Flags, report: ReportMessage, userData: Option<LoggerCallbacks>)
    : (r: (bool, seq<Invocation>))
    ensures r.0 == VkFalse
    ensures userData.None? ==> r.1 == []
    ensures forall k :: 0 <= k < |r.1| ==> !r.1[k].DebugUtilsForward?
    ensures userData.Some? && userData.value.simple ==> |r.1| > 0 && r.1[0] == Simple(ReportLevel(flags), report.message)
    ensures forall k :: 0 <= k < |r.1| && r.1[k].Simple? ==> k == 0 && userData.Some? && userData.value.simple
    ensures userData.Some? && userData.value.debugReport ==>
      |r.1| > 0 && r.1[|r.1| - 1] == DebugReportForward(flags, report)
    ensures forall k :: 0 <= k < |r.1| && r.1[k].DebugReportForward? ==>
      k == |r.1| - 1 && userData.Some? && userData.value.debugReport
  {
    if userData.None? then (VkFalse, [])
    else
      var callbacks := userData.value;
      var simple := if callbacks.simple then [Simple(ReportLevel(flags), report.message)] else [];
      var forward := if callbacks.debugReport then [DebugReportForward(flags, report)] else [];
      (VkFalse, simple + forward)
  }
}
