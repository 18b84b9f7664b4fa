/**
 * `vkb::Fence`: a `VkFence` with a cached `signaled` flag that the status query, the wait and
 * `release_handle` overwrite. The device's answers are oracles indexed by call order.
 */
module Fences {
  import opened Vk
  import opened Wrappers
  import Contexts

  /** What `waitForFences` answers. */
  datatype WaitResult = WaitSuccess | WaitTimeout | WaitFailure(code: int)

  /**
   * One `wait_until` step on a fence: its result and the new cached flag. `bound` says whether the
   * fence has both a context and a handle; `answer` is the device's result when it does.
   */
  function WaitStep(bound: bool, signaled: bool, answer: WaitResult): (Result<bool>, bool) {
    if !bound then (Ok(true), signaled)
    else match answer
      case WaitSuccess => (Ok(true), true)
      case WaitTimeout => (Ok(false), false)
      case WaitFailure(_) => (Err(RuntimeError("Failed to wait for fence")), signaled)
  }

  /**
   * The wait reports true exactly when the fence is unbound or the device reports success, and
   * whenever a bound fence's wait returns, the cached flag agrees with what it returned.
   */
  lemma WaitStepAgreesWithCache(bound: bool, signaled: bool, answer: WaitResult)
    ensures WaitStep(bound, signaled, answer).0 == Ok(true) <==> !bound || answer == WaitSuccess
    ensures WaitStep(bound, signaled, answer).0.Err? <==> bound && answer.WaitFailure?
    ensures bound && WaitStep(bound, signaled, answer).0.Ok? ==>
      WaitStep(bound, signaled, answer).1 == WaitStep(bound, signaled, answer).0.value
  {
  }

  class Fence {
    const context: Contexts.Context?
    const handle: Handle
    var signaled: bool
    /** The timeouts passed to `waitForFences`, in call order. */
    var waits: seq<uint64>
    /** How many `getFenceStatus` queries were made. */
    var statusQueries: nat
    /** Whether the k-th `getFenceStatus` answers `eSuccess`. */
    const deviceStatus: nat -> bool
    /** The result of the k-th `waitForFences`. */
    const waitResult: nat -> WaitResult

    /** `Fence(context, flags)`: `handle` is what `createFence` returned. */
    constructor (context: Contexts.Context?, flags: Flags, handle: Handle,
                 deviceStatus: nat -> bool, waitResult: nat -> WaitResult)
      ensures this.context == context && this.handle == handle
      ensures signaled <==> flags & FenceCreateSignaledBit != 0
      ensures waits == [] && statusQueries == 0
      ensures this.deviceStatus == deviceStatus && this.waitResult == waitResult
    {
      this.context, this.handle := context, handle;
      signaled := flags & FenceCreateSignaledBit != 0;
      waits, statusQueries := [], 0;
      this.deviceStatus, this.waitResult := deviceStatus, waitResult;
    }

    /** Both a context and a handle are present. */
    predicate Bound() {
      context != null && handle != NullHandle
    }

    /** `is_signaled`: a bound fence asks the device and overwrites the cache, so it is no latch. */
    method IsSignaled() returns (r: bool)
      modifies this
      ensures r == signaled
      ensures Bound() ==> signaled == deviceStatus(old(statusQueries)) && statusQueries == old(statusQueries) + 1
      ensures !Bound() ==> signaled == old(signaled) && statusQueries == old(statusQueries)
      ensures waits == old(waits)
    {
      if Bound() {
        signaled := deviceStatus(statusQueries);
        statusQueries := statusQueries + 1;
      }
      r := signaled;
    }

    /** `wait_until(timeout)`: an unbound fence returns true without waiting. */
    method WaitUntil(timeout: uint64) returns (r: Result<bool>)
      modifies this
      ensures (r, signaled) == WaitStep(Bound(), old(signaled), waitResult(|old(waits)|))
      ensures waits == old(waits) + (if Bound() then [timeout] else [])
      ensures statusQueries == old(statusQueries)
    {
      if !Bound() {
        return Ok(true);
      }
      var answer := waitResult(|waits|);
      waits := waits + [timeout];
      match answer
      case WaitSuccess =>
        signaled := true;
        return Ok(true);
      case WaitTimeout =>
        signaled := false;
        return Ok(false);
      case WaitFailure(_) =>
        return Err(RuntimeError("Failed to wait for fence"));
    }

    /** `wait()`: `wait_until(UINT64_MAX)` with the boolean dropped; a failure still throws. */
    method Wait() returns (o: Outcome)
      modifies this
      ensures signaled == WaitStep(Bound(), old(signaled), waitResult(|old(waits)|)).1
      ensures o.Fail? <==> WaitStep(Bound(), old(signaled), waitResult(|old(waits)|)).0.Err?
      ensures waits == old(waits) + (if Bound() then [U64Max as uint64] else [])
      ensures statusQueries == old(statusQueries)
    {
      var r := WaitUntil(U64Max as uint64);
      if r.Err? {
        return Fail(r.error);
      }
      return Pass;
    }

    /** `release_handle`: clears the cache and hands out the handle, which the fence keeps owning. */
    method ReleaseHandle() returns (h: Handle)
      modifies this
      ensures h == handle && !signaled
      ensures waits == old(waits) && statusQueries == old(statusQueries)
    {
      signaled := false;
      return handle;
    }

    /** `~Fence`: destroys the handle only when both the context and the handle are present. */
    method Destroy()
      modifies if context != null then {context.log} else {}
      ensures context != null ==>
        context.log.calls == old(context.log.calls) + (if handle != NullHandle then [DestroyFence(handle)] else [])
    {
      if Bound() {
        context.log.Append(DestroyFence(handle));
      }
    }
  }
}
