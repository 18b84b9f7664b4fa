/**
 * `vkb::TaskGraph`, `TaskGraphExecution` and `TaskExecutionContext`: definitions run eagerly
 * against the graph's registry and leave recording closures behind; `build` hands a copy of the
 * registry and the closures to an execution; `execute` records every closure, in order, into one
 * command buffer, submits it with a fence and returns the context that owns the deferred
 * cleanups and the fence.
 */
module TaskGraphs {
  import opened Vk
  import opened Wrappers
  import Contexts
  import Fences
  import MemoryPools
  import opened TaskRegistries

  /** A statement of a recording closure: a resource lookup, a command, or a deferred cleanup. */
  datatype TaskStep =
    | UseImage(imageAlias: AliasedImageHandle)
    | UseImageView(viewAlias: AliasedImageHandle)
    | UseBuffer(bufferAlias: AliasedBufferHandle)
    | UseBufferView(bufferViewAlias: AliasedBufferHandle)
    | RecordCommand(id: nat)
    | DeferCleanup(cleanup: Contexts.CleanupCallback)

  /** An `ExecutionFunction`: empty, or a closure whose statements are `steps`. */
  datatype ExecutionFunction = EmptyExecution | Execution(steps: seq<TaskStep>)

  /**
   * A `DefinitionFunction`: empty, or a closure that makes `calls` on the registry and builds its
   * recording closure from their results.
   */
  datatype DefinitionFunction =
    | EmptyDefinition
    | Definition(calls: seq<RegistryCall>, capture: seq<CallResult> -> ExecutionFunction)

  /** A command with any looked-up image handle forgotten. */
  function Skeleton(c: Command): Command {
    match c
    case BindImage(_) => BindImage(None)
    case BindImageView(_) => BindImageView(None)
    case _ => c
  }

  /** `cs` are the commands `shape` describes, up to looked-up image handles. */
  predicate Shaped(cs: seq<Command>, shape: seq<Command>) {
    |cs| == |shape| && forall j :: 0 <= j < |cs| ==> Skeleton(cs[j]) == shape[j]
  }

  lemma {:induction false} ShapedAppend(a: seq<Command>, s: seq<Command>, b: seq<Command>, t: seq<Command>)
    requires Shaped(a, s) && Shaped(b, t)
    ensures Shaped(a + b, s + t)
  {
    forall j | 0 <= j < |a + b|
      ensures Skeleton((a + b)[j]) == (s + t)[j]
    {
      if j >= |a| {
        assert (a + b)[j] == b[j - |a|] && (s + t)[j] == t[j - |a|];
      }
    }
  }

  /** The commands one statement records, up to looked-up image handles; buffers are always null. */
  function StepCommands(s: TaskStep): seq<Command> {
    match s
    case UseImage(_) => [BindImage(None)]
    case UseImageView(_) => [BindImageView(None)]
    case UseBuffer(_) => [BindBuffer(None)]
    case UseBufferView(_) => [BindBufferView(None)]
    case RecordCommand(id) => [Recorded(id)]
    case DeferCleanup(_) => []
  }

  function StepCleanups(s: TaskStep): seq<Contexts.CleanupCallback> {
    if s.DeferCleanup? then [s.cleanup] else []
  }

  function StepsCommands(steps: seq<TaskStep>): seq<Command> {
    if steps == [] then [] else StepsCommands(steps[..|steps| - 1]) + StepCommands(steps[|steps| - 1])
  }

  function StepsCleanups(steps: seq<TaskStep>): seq<Contexts.CleanupCallback> {
    if steps == [] then [] else StepsCleanups(steps[..|steps| - 1]) + StepCleanups(steps[|steps| - 1])
  }

  function TaskSteps(task: ExecutionFunction): seq<TaskStep> {
    if task.Execution? then task.steps else []
  }

  /** What the tasks record, in order; empty closures record nothing. */
  function TasksCommands(tasks: seq<ExecutionFunction>): seq<Command> {
    if tasks == [] then [] else TasksCommands(tasks[..|tasks| - 1]) + StepsCommands(TaskSteps(tasks[|tasks| - 1]))
  }

  /** The cleanups the tasks defer, in order. */
  function TasksCleanups(tasks: seq<ExecutionFunction>): seq<Contexts.CleanupCallback> {
    if tasks == [] then [] else TasksCleanups(tasks[..|tasks| - 1]) + StepsCleanups(TaskSteps(tasks[|tasks| - 1]))
  }

  /** Recording a task list split anywhere is recording the two halves one after the other. */
  lemma {:induction false} TasksCommandsAppend(a: seq<ExecutionFunction>, b: seq<ExecutionFunction>)
    ensures TasksCommands(a + b) == TasksCommands(a) + TasksCommands(b)
    decreases |b|
  {
    if b == [] {
      assert a + b == a;
    } else {
      var front, last := b[..|b| - 1], b[|b| - 1];
      assert TasksCommands(a + b) == TasksCommands(a + front) + StepsCommands(TaskSteps(last)) by {
        assert (a + b)[..|a + b| - 1] == a + front;
        assert (a + b)[|a + b| - 1] == last;
      }
      TasksCommandsAppend(a, front);
      ConcatAssociates(TasksCommands(a), TasksCommands(front), StepsCommands(TaskSteps(last)));
    }
  }

  /** Likewise for the cleanups the tasks defer. */
  lemma {:induction false} TasksCleanupsAppend(a: seq<ExecutionFunction>, b: seq<ExecutionFunction>)
    ensures TasksCleanups(a + b) == TasksCleanups(a) + TasksCleanups(b)
    decreases |b|
  {
    if b == [] {
      assert a + b == a;
    } else {
      var front, last := b[..|b| - 1], b[|b| - 1];
      assert TasksCleanups(a + b) == TasksCleanups(a + front) + StepsCleanups(TaskSteps(last)) by {
        assert (a + b)[..|a + b| - 1] == a + front;
        assert (a + b)[|a + b| - 1] == last;
      }
      TasksCleanupsAppend(a, front);
      ConcatAssociates(TasksCleanups(a), TasksCleanups(front), StepsCleanups(TaskSteps(last)));
    }
  }

  /** Every recording closure is run once, in insertion order; empty ones are skipped. */
  lemma TasksRecordAppended(tasks: seq<ExecutionFunction>, steps: seq<TaskStep>)
    ensures TasksCommands(tasks + [Execution(steps)]) == TasksCommands(tasks) + StepsCommands(steps)
  {
    assert (tasks + [Execution(steps)])[..|tasks|] == tasks;
  }

  lemma TasksSkipEmpty(tasks: seq<ExecutionFunction>)
    ensures TasksCommands(tasks + [EmptyExecution]) == TasksCommands(tasks)
  {
    assert (tasks + [EmptyExecution])[..|tasks|] == tasks;
  }

  lemma TasksRecordFirst(tasks: seq<ExecutionFunction>, steps: seq<TaskStep>)
    ensures TasksCommands([Execution(steps)] + tasks) == StepsCommands(steps) + TasksCommands(tasks)
  {
    var first := [Execution(steps)];
    assert TasksCommands(first) == StepsCommands(steps) by {
      assert first[..0] == [];
    }
    TasksCommandsAppend(first, tasks);
  }

  predicate AllCallbacks(cbs: seq<Contexts.CleanupCallback>) {
    forall j :: 0 <= j < |cbs| ==> cbs[j].Callback?
  }

  /** No task defers an empty `std::function`. */
  predicate NoEmptyDeferrals(tasks: seq<ExecutionFunction>) {
    forall i, j :: 0 <= i < |tasks| && 0 <= j < |TaskSteps(tasks[i])| && TaskSteps(tasks[i])[j].DeferCleanup? ==>
      TaskSteps(tasks[i])[j].cleanup.Callback?
  }

  lemma {:induction false} StepsCleanupsAreCallbacks(steps: seq<TaskStep>)
    requires forall j :: 0 <= j < |steps| && steps[j].DeferCleanup? ==> steps[j].cleanup.Callback?
    ensures AllCallbacks(StepsCleanups(steps))
  {
    if steps != [] {
      StepsCleanupsAreCallbacks(steps[..|steps| - 1]);
    }
  }

  lemma {:induction false} TasksCleanupsAreCallbacks(tasks: seq<ExecutionFunction>)
    requires NoEmptyDeferrals(tasks)
    ensures AllCallbacks(TasksCleanups(tasks))
  {
    if tasks != [] {
      var last := |tasks| - 1;
      assert NoEmptyDeferrals(tasks[..last]) by {
        forall i, j | 0 <= i < last && 0 <= j < |TaskSteps(tasks[..last][i])| && TaskSteps(tasks[..last][i])[j].DeferCleanup?
          ensures TaskSteps(tasks[..last][i])[j].cleanup.Callback?
        {
          assert tasks[..last][i] == tasks[i];
        }
      }
      TasksCleanupsAreCallbacks(tasks[..last]);
      StepsCleanupsAreCallbacks(TaskSteps(tasks[last]));
    }
  }

  /** The highest index holding an empty cleanup, if any. */
  function LastEmpty(cbs: seq<Contexts.CleanupCallback>): (r: Option<nat>)
    ensures r.None? <==> AllCallbacks(cbs)
    ensures r.Some? ==>
      && r.value < |cbs| && cbs[r.value].EmptyCallback?
      && forall j :: r.value < j < |cbs| ==> cbs[j].Callback?
  {
    if cbs == [] then None
    else if cbs[|cbs| - 1].EmptyCallback? then Some(|cbs| - 1)
    else
      var r := LastEmpty(cbs[..|cbs| - 1]);
      assert forall j :: 0 <= j < |cbs| - 1 ==> cbs[j] == cbs[..|cbs| - 1][j];
      r
  }

  /** The first answer that is not `Ok(true)`, or `Ok(true)`: `wait_until` over several fences. */
  function ConjoinWaits(answers: seq<Result<bool>>): Result<bool> {
    if answers == [] then Ok(true)
    else if answers[0] != Ok(true) then answers[0]
    else ConjoinWaits(answers[1..])
  }

  /** The conjunction is true exactly when every answer is, and vacuously true for none. */
  lemma {:induction false} ConjoinWaitsTrue(answers: seq<Result<bool>>)
    ensures ConjoinWaits(answers) == Ok(true) <==> forall i :: 0 <= i < |answers| ==> answers[i] == Ok(true)
    ensures ConjoinWaits([]) == Ok(true)
  {
    if answers != [] && answers[0] == Ok(true) {
      ConjoinWaitsTrue(answers[1..]);
      assert forall i :: 1 <= i < |answers| ==> answers[i] == answers[1..][i - 1];
    }
  }

  lemma {:induction false} ConjoinWaitsSnoc(answers: seq<Result<bool>>, a: Result<bool>)
    requires forall i :: 0 <= i < |answers| ==> answers[i] == Ok(true)
    ensures ConjoinWaits(answers + [a]) == a
  {
    if answers == [] {
      assert answers + [a] == [a];
      assert [a][1..] == [];
    } else {
      assert (answers + [a])[1..] == answers[1..] + [a];
      ConjoinWaitsSnoc(answers[1..], a);
    }
  }

  predicate Distinct<T(==)>(s: seq<T>) {
    forall i, j :: 0 <= i < j < |s| ==> s[i] != s[j]
  }

  /** The `destroyFence` call, if any, of the fence at `i` when the `fences` vector is destroyed. */
  function FenceRelease(fences: seq<Fences.Fence>, held: set<Fences.Fence>, i: nat): seq<DeviceCall>
    requires i < |fences|
  {
    if fences[i] !in held && fences[i] !in fences[i + 1..] && fences[i].Bound()
    then [DestroyFence(fences[i].handle)] else []
  }

  /**
   * The calls destroying the first `n` elements of the `fences` vector, front to back: a fence no
   * other owner holds is destroyed where its last reference goes, and destroys its handle when bound.
   */
  function FenceReleases(fences: seq<Fences.Fence>, held: set<Fences.Fence>, n: nat): (calls: seq<DeviceCall>)
    requires n <= |fences|
    ensures forall c :: c in calls ==> c.DestroyFence?
  {
    if n == 0 then [] else FenceReleases(fences, held, n - 1) + FenceRelease(fences, held, n - 1)
  }

  /**
   * Destroying the vector destroys exactly the handles of the bound fences that no other owner
   * holds, each fence once whatever its number of occurrences.
   */
  lemma {:induction false} FenceReleasesDestroyEach(fences: seq<Fences.Fence>, held: set<Fences.Fence>, h: Handle)
    ensures DestroyFence(h) in FenceReleases(fences, held, |fences|) <==>
      exists i :: 0 <= i < |fences| && fences[i] !in held && fences[i].Bound() && fences[i].handle == h
  {
    if exists i :: 0 <= i < |fences| && fences[i] !in held && fences[i].Bound() && fences[i].handle == h {
      var i :| 0 <= i < |fences| && fences[i] !in held && fences[i].Bound() && fences[i].handle == h;
      var j := LastOccurrence(fences, i);
      FenceReleasesPrefix(fences, held, j + 1, |fences|);
      assert FenceRelease(fences, held, j) == [DestroyFence(h)];
    } else {
      FenceReleasesOnlyFrom(fences, held, |fences|, h);
    }
  }

  /** The last position holding the same fence as position `i`. */
  function LastOccurrence(fences: seq<Fences.Fence>, i: nat): (j: nat)
    requires i < |fences|
    ensures i <= j < |fences| && fences[j] == fences[i] && fences[i] !in fences[j + 1..]
    decreases |fences| - i
  {
    if fences[i] !in fences[i + 1..] then i
    else
      var k :| i + 1 <= k < |fences| && fences[k] == fences[i];
      LastOccurrence(fences, k)
  }

  lemma {:induction false} FenceReleasesPrefix(fences: seq<Fences.Fence>, held: set<Fences.Fence>, m: nat, n: nat)
    requires 0 < m <= n <= |fences|
    ensures forall c :: c in FenceRelease(fences, held, m - 1) ==> c in FenceReleases(fences, held, n)
    decreases n
  {
    if m < n {
      FenceReleasesPrefix(fences, held, m, n - 1);
    }
  }

  lemma {:induction false} FenceReleasesOnlyFrom(fences: seq<Fences.Fence>, held: set<Fences.Fence>, n: nat, h: Handle)
    requires n <= |fences|
    ensures DestroyFence(h) in FenceReleases(fences, held, n) ==>
      exists i :: 0 <= i < n && fences[i] !in held && fences[i].Bound() && fences[i].handle == h
  {
    if n > 0 {
      FenceReleasesOnlyFrom(fences, held, n - 1, h);
      if DestroyFence(h) in FenceRelease(fences, held, n - 1) {
        assert fences[n - 1].handle == h;
      }
    }
  }

  /** What `~ImageAllocation` logs for `a`: its frees when it is still valid. */
  function ImageRelease(a: MemoryPools.ImageAllocation): seq<DeviceCall>
    reads a
  {
    if a.IsValid() then MemoryPools.ImageFreeCalls(a.image, a.view, a.allocation) else []
  }

  /** The frees of the allocations, in the order the registry's map releases them. */
  function ImageReleaseCalls(allocs: seq<MemoryPools.ImageAllocation>): (calls: seq<DeviceCall>)
    reads allocs
    ensures forall c :: c in calls ==> c.DestroyImageView? || c.DestroyImage?
  {
    if allocs == [] then [] else ImageReleaseCalls(allocs[..|allocs| - 1]) + ImageRelease(allocs[|allocs| - 1])
  }

  /** Every valid allocation released has its image and memory destroyed. */
  lemma {:induction false} ImageReleaseCallsFreeEach(allocs: seq<MemoryPools.ImageAllocation>, i: nat)
    requires i < |allocs| && allocs[i].IsValid()
    ensures DestroyImage(allocs[i].image, allocs[i].allocation) in ImageReleaseCalls(allocs)
  {
    var front := allocs[..|allocs| - 1];
    if i < |allocs| - 1 {
      assert front[i] == allocs[i];
      ImageReleaseCallsFreeEach(front, i);
    }
  }

  class TaskExecutionContext {
    const context: Contexts.Context
    /** The context's own copy of the registry. */
    const registry: TaskRegistry
    var deferredCleanups: seq<Contexts.CleanupCallback>
    var fences: seq<Fences.Fence>

    /** `TaskExecutionContext(context, registry)`: copies the registry. */
    constructor (context: Contexts.Context, registry: TaskRegistry)
      ensures this.context == context && fresh(this.registry)
      ensures this.registry.pool == registry.pool && this.registry.context == registry.context
      ensures this.registry.Tables() == registry.Tables()
      ensures this.registry.allocatedImages == registry.allocatedImages
      ensures deferredCleanups == [] && fences == []
    {
      var copy := registry.Clone();
      this.context := context;
      this.registry := copy;
      deferredCleanups, fences := [], [];
    }

    /** `defer_cleanup`: pushes onto the cleanup stack. */
    method Defer(cleanup: Contexts.CleanupCallback)
      modifies this
      ensures deferredCleanups == old(deferredCleanups) + [cleanup] && fences == old(fences)
    {
      deferredCleanups := deferredCleanups + [cleanup];
    }

    /** `append_fence`. */
    method AppendFence(fence: Fences.Fence)
      modifies this
      ensures fences == old(fences) + [fence] && deferredCleanups == old(deferredCleanups)
    {
      fences := fences + [fence];
    }

    /**
     * `wait_until`: waits on each fence in order and stops at the first that does not report
     * true. `answers` are the fences' results; for distinct fences each is that fence's reply.
     */
    method WaitUntil(timeout: uint64) returns (r: Result<bool>, ghost answers: seq<Result<bool>>)
      modifies fences
      ensures |answers| <= |fences|
      ensures r == ConjoinWaits(answers)
      ensures forall i :: 0 <= i < |answers| - 1 ==> answers[i] == Ok(true)
      ensures |answers| < |fences| ==> answers != [] && answers[|answers| - 1] != Ok(true)
      ensures Distinct(fences) ==> forall i :: 0 <= i < |answers| ==>
        answers[i] == Fences.WaitStep(fences[i].Bound(), old(fences[i].signaled), fences[i].waitResult(|old(fences[i].waits)|)).0
    {
      answers := [];
      var i := 0;
      while i < |fences|
        invariant 0 <= i <= |fences| && |answers| == i
        invariant forall k :: 0 <= k < i ==> answers[k] == Ok(true)
        invariant Distinct(fences) ==> forall k :: 0 <= k < i ==>
          answers[k] == Fences.WaitStep(fences[k].Bound(), old(fences[k].signaled), fences[k].waitResult(|old(fences[k].waits)|)).0
        invariant Distinct(fences) ==> forall k :: i <= k < |fences| ==>
          fences[k].signaled == old(fences[k].signaled) && fences[k].waits == old(fences[k].waits)
      {
        var a := fences[i].WaitUntil(timeout);
        ConjoinWaitsSnoc(answers, a);
        answers := answers + [a];
        if a != Ok(true) {
          return a, answers;
        }
        i := i + 1;
      }
      ConjoinWaitsTrue(answers);
      return Ok(true), answers;
    }

    /**
     * `is_signaled`: queries each fence in order and stops at the first that is not signaled.
     * For distinct fences each answer is what that fence reports.
     */
    method IsSignaled() returns (r: bool, ghost answers: seq<bool>)
      modifies fences
      ensures |answers| <= |fences|
      ensures r <==> |answers| == |fences| && forall i :: 0 <= i < |answers| ==> answers[i]
      ensures forall i :: 0 <= i < |answers| - 1 ==> answers[i]
      ensures |answers| < |fences| ==> answers != [] && !answers[|answers| - 1]
      ensures Distinct(fences) ==> forall i :: 0 <= i < |answers| ==>
        answers[i] == if fences[i].Bound() then fences[i].deviceStatus(old(fences[i].statusQueries)) else old(fences[i].signaled)
    {
      answers := [];
      var i := 0;
      while i < |fences|
        invariant 0 <= i <= |fences| && |answers| == i
        invariant forall k :: 0 <= k < i ==> answers[k]
        invariant Distinct(fences) ==> forall k :: 0 <= k < i ==>
          answers[k] == if fences[k].Bound() then fences[k].deviceStatus(old(fences[k].statusQueries)) else old(fences[k].signaled)
        invariant Distinct(fences) ==> forall k :: i <= k < |fences| ==>
          fences[k].signaled == old(fences[k].signaled) && fences[k].statusQueries == old(fences[k].statusQueries)
      {
        var s := fences[i].IsSignaled();
        answers := answers + [s];
        if !s {
          assert !answers[i];
          return false, answers;
        }
        i := i + 1;
      }
      return true, answers;
    }

    /** Every fence belongs to this context, as the ones `execute` makes do. */
    predicate FencesOn()
      reads this
    {
      forall i :: 0 <= i < |fences| ==> fences[i].context == context
    }

    /** The logs the fences' destructors write to. */
    function FenceLogs(): set<DeviceLog>
      reads this
    {
      set i | 0 <= i < |fences| && fences[i].context != null :: fences[i].context.log
    }

    /**
     * `~TaskExecutionContext`. The body runs the deferred cleanups from the last to the first;
     * calling an empty `std::function` throws from the destructor, which terminates, so nothing
     * after it runs. Then the members go in reverse order of declaration: the `fences` vector,
     * whose fences this context was the last owner of are destroyed, and the registry copy, whose
     * cached allocations this context was the last owner of are freed (`freed`, in the map's
     * unspecified order). `heldFences` and `heldImages` are what another `shared_ptr` still holds.
     */
    method Destroy(heldFences: set<Fences.Fence>, heldImages: set<MemoryPools.ImageAllocation>)
      returns (o: Outcome, ghost freed: seq<MemoryPools.ImageAllocation>)
      requires registry.CacheFromPool()
      modifies context.log, FenceLogs(), registry.allocatedImages.Values - heldImages, registry.pool.stats,
               registry.pool.context.log
      ensures LastEmpty(deferredCleanups).Some? ==>
        && o.Fail? && freed == []
        && context.log.calls == old(context.log.calls)
             + Contexts.ReverseCleanupCalls(deferredCleanups[LastEmpty(deferredCleanups).value + 1..])
        && (registry.pool.context.log != context.log ==>
              registry.pool.context.log.calls == old(registry.pool.context.log.calls))
      ensures LastEmpty(deferredCleanups).None? ==>
        && o == Pass && Distinct(freed)
        && (forall a :: a in freed <==> a in registry.allocatedImages.Values - heldImages)
        && (old(allocated(freed)))
        && (forall i :: 0 <= i < |freed| ==> !freed[i].IsValid())
      ensures LastEmpty(deferredCleanups).None? && FencesOn() && registry.pool.context.log == context.log ==>
        context.log.calls == old(context.log.calls) + Contexts.ReverseCleanupCalls(deferredCleanups)
          + FenceReleases(fences, heldFences, |fences|) + old(ImageReleaseCalls(freed))
      ensures LastEmpty(deferredCleanups).None? && FencesOn() && registry.pool.context.log != context.log ==>
        && context.log.calls == old(context.log.calls) + Contexts.ReverseCleanupCalls(deferredCleanups)
             + FenceReleases(fences, heldFences, |fences|)
        && registry.pool.context.log.calls == old(registry.pool.context.log.calls) + old(ImageReleaseCalls(freed))
      ensures old(registry.pool.ImagesCounted()) ==> registry.pool.ImagesCounted()
    {
      assert forall a :: a in registry.allocatedImages.Values ==> old(allocated(a));
      ghost var counted := registry.pool.ImagesCounted();
      o := RunCleanups();
      assert counted ==> registry.pool.ImagesCounted();
      if o.Fail? {
        return o, [];
      }
      label Members:
      freed := ReleaseMembers(heldFences, heldImages);
      assert counted ==> registry.pool.ImagesCounted();
      assert forall i :: 0 <= i < |freed| ==> freed[i] in freed;
      assert forall i :: 0 <= i < |freed| ==> freed[i] in registry.allocatedImages.Values;
      assert forall i :: 0 <= i < |freed| ==> old(allocated(freed[i]));
      assert old(allocated(freed));
      assert old@Members(ImageReleaseCalls(freed)) == old(ImageReleaseCalls(freed));
    }

    /**
     * `Destroy` of a context that holds no fence and no empty cleanup, whose last cleanup to run
     * makes the call `last`: after it, only the frees of the cached allocations follow.
     */
    method DestroyUnwinding(heldImages: set<MemoryPools.ImageAllocation>, ghost last: DeviceCall)
      returns (ghost freed: seq<MemoryPools.ImageAllocation>)
      requires registry.CacheFromPool() && fences == [] && LastEmpty(deferredCleanups).None?
      requires var calls := Contexts.ReverseCleanupCalls(deferredCleanups); |calls| > 0 && calls[|calls| - 1] == last
      modifies context.log, registry.allocatedImages.Values - heldImages, registry.pool.stats, registry.pool.context.log
      ensures forall a :: a in registry.allocatedImages.Values - heldImages ==> !a.IsValid()
      ensures registry.pool.context.log == context.log ==>
        exists n :: 0 <= n < |context.log.calls| && context.log.calls[n] == last
          && forall j :: n < j < |context.log.calls| ==>
               context.log.calls[j].DestroyImageView? || context.log.calls[j].DestroyImage?
      ensures registry.pool.context.log != context.log ==>
        |context.log.calls| > 0 && context.log.calls[|context.log.calls| - 1] == last
    {
      ghost var cleanups := Contexts.ReverseCleanupCalls(deferredCleanups);
      assert FenceLogs() == {};
      assert FencesOn() && FenceReleases(fences, {}, |fences|) == [];
      ghost var before := context.log.calls;
      label Call:
      var _, f := Destroy({}, heldImages);
      freed := f;
      assert forall a :: a in registry.allocatedImages.Values - heldImages ==> a in freed;
      if registry.pool.context.log == context.log {
        ghost var frees := old@Call(ImageReleaseCalls(freed));
        assert context.log.calls == before + cleanups + [] + frees;
        PoolThenFrees(before, cleanups, frees, last);
      } else {
        assert context.log.calls == before + cleanups + [];
      }
    }

    /** The members' destructors, after the body: the fences, then the registry copy. */
    method ReleaseMembers(heldFences: set<Fences.Fence>, heldImages: set<MemoryPools.ImageAllocation>)
      returns (ghost freed: seq<MemoryPools.ImageAllocation>)
      requires registry.CacheFromPool()
      modifies FenceLogs(), registry.allocatedImages.Values - heldImages, registry.pool.stats, registry.pool.context.log
      ensures Distinct(freed) && (forall a :: a in freed <==> a in registry.allocatedImages.Values - heldImages)
      ensures old(allocated(freed)) && forall i :: 0 <= i < |freed| ==> !freed[i].IsValid()
      ensures FencesOn() && registry.pool.context.log == context.log ==>
        context.log.calls == old(context.log.calls) + FenceReleases(fences, heldFences, |fences|) + old(ImageReleaseCalls(freed))
      ensures FencesOn() && registry.pool.context.log != context.log ==>
        && context.log.calls == old(context.log.calls) + FenceReleases(fences, heldFences, |fences|)
        && registry.pool.context.log.calls == old(registry.pool.context.log.calls) + old(ImageReleaseCalls(freed))
      ensures old(registry.pool.ImagesCounted()) ==> registry.pool.ImagesCounted()
    {
      ghost var cached := registry.allocatedImages.Values - heldImages;
      assert forall a :: a in cached ==> old(allocated(a));
      ghost var counted := registry.pool.ImagesCounted();
      ReleaseFences(heldFences);
      assert counted ==> registry.pool.ImagesCounted();
      label Images:
      freed := ReleaseImages(heldImages);
      assert forall a :: a in freed ==> a in cached;
      assert forall i :: 0 <= i < |freed| ==> freed[i] in freed;
      assert old@Images(ImageReleaseCalls(freed)) == old(ImageReleaseCalls(freed));
    }

    /** The destructor's body: the deferred cleanups from the last to the first. */
    method RunCleanups() returns (o: Outcome)
      modifies context.log
      ensures LastEmpty(deferredCleanups).None? ==>
        o == Pass && context.log.calls == old(context.log.calls) + Contexts.ReverseCleanupCalls(deferredCleanups)
      ensures LastEmpty(deferredCleanups).Some? ==>
        o.Fail? && context.log.calls == old(context.log.calls)
          + Contexts.ReverseCleanupCalls(deferredCleanups[LastEmpty(deferredCleanups).value + 1..])
      ensures old(registry.pool.ImagesCounted()) ==> registry.pool.ImagesCounted()
    {
      var i := |deferredCleanups|;
      while i > 0
        invariant 0 <= i <= |deferredCleanups|
        invariant AllCallbacks(deferredCleanups[i..])
        invariant context.log.calls == old(context.log.calls) + Contexts.ReverseCleanupCalls(deferredCleanups[i..])
      {
        assert deferredCleanups[i - 1..][1..] == deferredCleanups[i..];
        if deferredCleanups[i - 1].EmptyCallback? {
          assert forall j :: i <= j < |deferredCleanups| ==> deferredCleanups[j] == deferredCleanups[i..][j - i];
          return Fail(RuntimeError("bad_function_call"));
        }
        context.log.Append(deferredCleanups[i - 1].effect);
        i := i - 1;
      }
      assert deferredCleanups[0..] == deferredCleanups;
      return Pass;
    }

    /** Destroying `fences`, front to back: each fence goes where its last reference goes. */
    method ReleaseFences(heldFences: set<Fences.Fence>)
      modifies FenceLogs()
      ensures FencesOn() ==> context.log.calls == old(context.log.calls) + FenceReleases(fences, heldFences, |fences|)
      ensures old(registry.pool.ImagesCounted()) ==> registry.pool.ImagesCounted()
    {
      var i := 0;
      while i < |fences|
        invariant 0 <= i <= |fences|
        invariant FencesOn() ==> context.log.calls == old(context.log.calls) + FenceReleases(fences, heldFences, i)
      {
        if fences[i] !in heldFences && fences[i] !in fences[i + 1..] {
          fences[i].Destroy();
        }
        i := i + 1;
      }
    }

    /** Destroying the registry copy: each cached allocation no one else holds is freed. */
    method ReleaseImages(heldImages: set<MemoryPools.ImageAllocation>) returns (ghost freed: seq<MemoryPools.ImageAllocation>)
      requires registry.CacheFromPool()
      modifies registry.allocatedImages.Values - heldImages, registry.pool.stats, registry.pool.context.log
      ensures Distinct(freed) && forall a :: a in freed <==> a in registry.allocatedImages.Values - heldImages
      ensures old(allocated(freed))
      ensures forall i :: 0 <= i < |freed| ==> !freed[i].IsValid()
      ensures registry.pool.context.log.calls == old(registry.pool.context.log.calls) + old(ImageReleaseCalls(freed))
      ensures old(registry.pool.ImagesCounted()) ==> registry.pool.ImagesCounted()
    {
      var pending := registry.allocatedImages.Values - heldImages;
      ghost var owned := pending;
      freed := [];
      while pending != {}
        invariant pending <= owned && owned == registry.allocatedImages.Values - heldImages
        invariant Distinct(freed) && forall a :: a in freed <==> a in owned - pending
        invariant old(allocated(freed))
        invariant forall a :: a in pending ==>
          a.image == old(a.image) && a.view == old(a.view) && a.allocation == old(a.allocation)
        invariant forall i :: 0 <= i < |freed| ==> !freed[i].IsValid()
        invariant registry.pool.context.log.calls == old(registry.pool.context.log.calls) + old(ImageReleaseCalls(freed))
        invariant old(registry.pool.ImagesCounted()) ==> registry.pool.ImagesCounted()
        decreases pending
      {
        var a :| a in pending;
        assert a in registry.pool.images && a.pool == registry.pool;
        ghost var release := ImageRelease(a);
        assert release == old(ImageRelease(a));
        a.Destroy();
        assert a !in freed;
        assert (freed + [a])[..|freed|] == freed;
        assert old(ImageReleaseCalls(freed + [a])) == old(ImageReleaseCalls(freed)) + release;
        freed := freed + [a];
        pending := pending - {a};
      }
    }
  }

  /**
   * Runs one statement of a closure: a lookup goes through the execution context's registry copy
   * (and may throw), a command is recorded, a cleanup is deferred.
   */
  method RecordStep(exec: TaskExecutionContext, step: TaskStep) returns (recorded: seq<Command>, o: Outcome)
    requires exec.registry.CacheFromPool()
    modifies exec, exec.registry, exec.registry.pool, exec.registry.pool.driver,
             exec.registry.pool.context, exec.registry.pool.stats
    ensures exec.fences == old(exec.fences)
    ensures o.Pass? ==>
      && Shaped(recorded, StepCommands(step))
      && exec.deferredCleanups == old(exec.deferredCleanups) + StepCleanups(step)
    ensures o.Fail? ==> (step.UseImage? || step.UseImageView?) && exec.deferredCleanups == old(exec.deferredCleanups)
    ensures o.Pass? && step.UseImage? ==> recorded == [BindImage(exec.registry.CachedImage(step.imageAlias))]
    ensures o.Pass? && step.UseImageView? ==> recorded == [BindImageView(exec.registry.CachedView(step.viewAlias))]
    ensures step.UseImage? ==> exec.registry.ResolutionEffect(step.imageAlias, o.Pass?)
    ensures step.UseImageView? ==> exec.registry.ResolutionEffect(step.viewAlias, o.Pass?)
    ensures !(step.UseImage? || step.UseImageView?) ==>
      && recorded == StepCommands(step) && unchanged(exec.registry) && PoolUntouched(exec.registry.pool)
    ensures exec.registry.CacheFromPool()
    ensures forall a :: a in exec.registry.allocatedImages.Values ==> a in old(exec.registry.allocatedImages.Values) || fresh(a)
    ensures old(exec.registry.allocatedImages.Values) <= exec.registry.allocatedImages.Values
    ensures exec.registry.pool.images <= old(exec.registry.pool.images) + exec.registry.allocatedImages.Values
  {
    recorded, o := [], Pass;
    match step {
      case UseImage(a) =>
        var image := exec.registry.Image(a);
        if image.Err? {
          return [], Fail(image.error);
        }
        recorded := [BindImage(image.value)];
      case UseImageView(a) =>
        var view := exec.registry.ImageView(a);
        if view.Err? {
          return [], Fail(view.error);
        }
        recorded := [BindImageView(view.value)];
      case UseBuffer(a) =>
        recorded := [BindBuffer(exec.registry.Buffer(a))];
      case UseBufferView(a) =>
        recorded := [BindBufferView(exec.registry.BufferView(a))];
      case RecordCommand(id) =>
        recorded := [Recorded(id)];
      case DeferCleanup(c) =>
        exec.Defer(c);
    }
  }

  /** Runs a closure's statements in order, stopping at the first that throws. */
  method RecordTask(exec: TaskExecutionContext, steps: seq<TaskStep>) returns (recorded: seq<Command>, o: Outcome)
    requires exec.registry.CacheFromPool()
    modifies exec, exec.registry, exec.registry.pool, exec.registry.pool.driver,
             exec.registry.pool.context, exec.registry.pool.stats
    ensures exec.fences == old(exec.fences)
    ensures o.Pass? ==>
      && Shaped(recorded, StepsCommands(steps))
      && exec.deferredCleanups == old(exec.deferredCleanups) + StepsCleanups(steps)
    ensures o.Fail? ==> exists k ::
      && 0 <= k < |steps|
      && exec.deferredCleanups == old(exec.deferredCleanups) + StepsCleanups(steps[..k])
    ensures exec.registry.CacheFromPool()
    ensures forall a :: a in exec.registry.allocatedImages.Values ==> a in old(exec.registry.allocatedImages.Values) || fresh(a)
    ensures old(exec.registry.allocatedImages.Values) <= exec.registry.allocatedImages.Values
    ensures exec.registry.pool.images <= old(exec.registry.pool.images) + exec.registry.allocatedImages.Values
  {
    recorded := [];
    var i := 0;
    while i < |steps|
      invariant 0 <= i <= |steps|
      invariant exec.fences == old(exec.fences)
      invariant Shaped(recorded, StepsCommands(steps[..i]))
      invariant exec.deferredCleanups == old(exec.deferredCleanups) + StepsCleanups(steps[..i])
      invariant exec.registry.CacheFromPool()
      invariant forall a :: a in exec.registry.allocatedImages.Values ==> a in old(exec.registry.allocatedImages.Values) || fresh(a)
      invariant old(exec.registry.allocatedImages.Values) <= exec.registry.allocatedImages.Values
      invariant exec.registry.pool.images <= old(exec.registry.pool.images) + exec.registry.allocatedImages.Values
    {
      assert steps[..i + 1][..i] == steps[..i];
      var more, outcome := RecordStep(exec, steps[i]);
      if outcome.Fail? {
        return recorded, outcome;
      }
      ShapedAppend(recorded, StepsCommands(steps[..i]), more, StepCommands(steps[i]));
      recorded := recorded + more;
      i := i + 1;
    }
    assert steps[..i] == steps;
    o := Pass;
  }

  lemma {:induction false} TasksPrefixStep(tasks: seq<ExecutionFunction>, i: nat)
    requires i < |tasks|
    ensures TasksCommands(tasks[..i + 1]) == TasksCommands(tasks[..i]) + StepsCommands(TaskSteps(tasks[i]))
    ensures TasksCleanups(tasks[..i + 1]) == TasksCleanups(tasks[..i]) + StepsCleanups(TaskSteps(tasks[i]))
  {
    assert tasks[..i + 1][..i] == tasks[..i];
    assert tasks[..i + 1][i] == tasks[i];
  }

  lemma {:induction false} ShapeStep(tasks: seq<ExecutionFunction>, i: nat, shape: seq<Command>)
    requires i < |tasks| && shape == [BeginCommands] + TasksCommands(tasks[..i])
    ensures shape + StepsCommands(TaskSteps(tasks[i])) == [BeginCommands] + TasksCommands(tasks[..i + 1])
    ensures TasksCleanups(tasks[..i + 1]) == TasksCleanups(tasks[..i]) + StepsCleanups(TaskSteps(tasks[i]))
    ensures !tasks[i].Execution? ==> StepsCommands(TaskSteps(tasks[i])) == [] && StepsCleanups(TaskSteps(tasks[i])) == []
  {
    TasksPrefixStep(tasks, i);
    var done, more := TasksCommands(tasks[..i]), StepsCommands(TaskSteps(tasks[i]));
    assert TasksCommands(tasks[..i + 1]) == done + more;
    ConcatAssociates([BeginCommands], done, more);
  }

  lemma ConcatAssociates<T>(a: seq<T>, b: seq<T>, c: seq<T>)
    ensures a + b + c == a + (b + c)
  {
  }

  /** Records every non-empty task, in order, between the command buffer's begin and end. */
  method RecordTasks(exec: TaskExecutionContext, tasks: seq<ExecutionFunction>) returns (commands: seq<Command>, o: Outcome)
    requires exec.registry.CacheFromPool()
    modifies exec, exec.registry, exec.registry.pool, exec.registry.pool.driver,
             exec.registry.pool.context, exec.registry.pool.stats
    ensures exec.fences == old(exec.fences)
    ensures o.Pass? ==>
      && Shaped(commands, [BeginCommands] + TasksCommands(tasks) + [EndCommands])
      && exec.deferredCleanups == old(exec.deferredCleanups) + TasksCleanups(tasks)
    ensures o.Fail? ==> exists n, k ::
      && 0 <= n < |tasks| && 0 <= k <= |TaskSteps(tasks[n])|
      && exec.deferredCleanups == old(exec.deferredCleanups) + TasksCleanups(tasks[..n]) + StepsCleanups(TaskSteps(tasks[n])[..k])
    ensures exec.registry.CacheFromPool()
    ensures forall a :: a in exec.registry.allocatedImages.Values ==> a in old(exec.registry.allocatedImages.Values) || fresh(a)
    ensures old(exec.registry.allocatedImages.Values) <= exec.registry.allocatedImages.Values
    ensures exec.registry.pool.images <= old(exec.registry.pool.images) + exec.registry.allocatedImages.Values
  {
    commands := [BeginCommands];
    ghost var shape := [BeginCommands];
    assert tasks[..0] == [];
    var i := 0;
    while i < |tasks|
      invariant 0 <= i <= |tasks|
      invariant exec.fences == old(exec.fences)
      invariant shape == [BeginCommands] + TasksCommands(tasks[..i])
      invariant Shaped(commands, shape)
      invariant exec.deferredCleanups == old(exec.deferredCleanups) + TasksCleanups(tasks[..i])
      invariant exec.registry.CacheFromPool()
      invariant forall a :: a in exec.registry.allocatedImages.Values ==> a in old(exec.registry.allocatedImages.Values) || fresh(a)
      invariant old(exec.registry.allocatedImages.Values) <= exec.registry.allocatedImages.Values
      invariant exec.registry.pool.images <= old(exec.registry.pool.images) + exec.registry.allocatedImages.Values
    {
      ShapeStep(tasks, i, shape);
      if tasks[i].Execution? {
        ghost var before := exec.deferredCleanups;
        var recorded, outcome := RecordTask(exec, tasks[i].steps);
        if outcome.Fail? {
          ghost var k :| 0 <= k < |tasks[i].steps| && exec.deferredCleanups == before + StepsCleanups(tasks[i].steps[..k]);
          assert TaskSteps(tasks[i]) == tasks[i].steps;
          return commands, outcome;
        }
        ShapedAppend(commands, shape, recorded, StepsCommands(tasks[i].steps));
        ConcatAssociates(old(exec.deferredCleanups), TasksCleanups(tasks[..i]), StepsCleanups(tasks[i].steps));
        commands := commands + recorded;
      } else {
        assert TasksCleanups(tasks[..i + 1]) == TasksCleanups(tasks[..i]);
      }
      shape := shape + StepsCommands(TaskSteps(tasks[i]));
      i := i + 1;
    }
    assert tasks[..i] == tasks;
    ShapedAppend(commands, shape, [EndCommands], [EndCommands]);
    commands := commands + [EndCommands];
    return commands, Pass;
  }

  class TaskGraphExecution {
    const context: Contexts.Context
    const registry: TaskRegistry
    var tasks: seq<ExecutionFunction>

    /** `TaskGraphExecution(context, registry, tasks)`: copies the registry, takes the tasks. */
    constructor (context: Contexts.Context, registry: TaskRegistry, tasks: seq<ExecutionFunction>)
      ensures this.context == context && fresh(this.registry) && this.tasks == tasks
      ensures this.registry.pool == registry.pool && this.registry.context == registry.context
      ensures this.registry.Tables() == registry.Tables()
      ensures this.registry.allocatedImages == registry.allocatedImages
    {
      var copy := registry.Clone();
      this.context := context;
      this.registry := copy;
      this.tasks := tasks;
    }

    /**
     * `execute`: a fresh execution context over its own registry copy; a command pool on the
     * graphics queue's family whose destruction is the first deferred cleanup (so it runs last);
     * every task recorded in order into one command buffer; the buffer submitted with a new
     * fence's released handle; that fence appended. When a task throws, the context is destroyed
     * on the way out and its cleanups run.
     */
    method Execute(commandPool: Handle, fenceHandle: Handle,
                   fenceStatus: nat -> bool, fenceWait: nat -> Fences.WaitResult)
      returns (r: Result<TaskExecutionContext>)
      requires registry.CacheFromPool()
      modifies context.log, registry.pool, registry.pool.driver, registry.pool.context, registry.pool.stats,
               registry.pool.context.log
      ensures unchanged(registry)
      ensures r.Ok? ==>
        var exec := r.value;
        var queue := old(context.GetQueue(QueueGraphicsBit));
        && fresh(exec) && exec.context == context && fresh(exec.registry)
        && exec.deferredCleanups == [Contexts.Callback(DestroyCommandPool(commandPool))] + TasksCleanups(tasks)
        && |exec.fences| == 1 && fresh(exec.fences[0])
        && exec.fences[0].handle == fenceHandle && exec.fences[0].context == context && !exec.fences[0].signaled
        && |context.log.calls| == |old(context.log.calls)| + 2
        && context.log.calls[..|old(context.log.calls)|] == old(context.log.calls)
        && context.log.calls[|old(context.log.calls)|]
             == CreateCommandPool(commandPool, old(context.GetQueueFamilyIndex(queue)))
        && var submit := context.log.calls[|old(context.log.calls)| + 1];
        && submit.Submit? && submit.queue == queue && submit.fence == fenceHandle
        && Shaped(submit.commands, [BeginCommands] + TasksCommands(tasks) + [EndCommands])
        && exec.registry.CacheFromPool() && exec.FencesOn()
      ensures r.Err? && NoEmptyDeferrals(tasks) ==>
        forall a :: a in registry.pool.images && a !in old(registry.pool.images) ==> !a.IsValid()
      ensures r.Err? && NoEmptyDeferrals(tasks) && registry.pool.context.log == context.log ==>
        exists n :: 0 <= n < |context.log.calls| && context.log.calls[n] == DestroyCommandPool(commandPool)
          && forall j :: n < j < |context.log.calls| ==>
               context.log.calls[j].DestroyImageView? || context.log.calls[j].DestroyImage?
      ensures r.Err? && NoEmptyDeferrals(tasks) && registry.pool.context.log != context.log ==>
        |context.log.calls| > 0 && context.log.calls[|context.log.calls| - 1] == DestroyCommandPool(commandPool)
    {
      var exec, queue := Prepare(commandPool);
      var commands, outcome := Record(exec, commandPool);
      if outcome.Fail? {
        return Err(outcome.error);
      }
      var _ := SubmitWithFence(exec, queue, commands, fenceHandle, fenceStatus, fenceWait);
      return Ok(exec);
    }

    /**
     * The tasks recorded into `exec`, a fresh execution context whose only cleanup so far is the
     * command pool's destruction; when a task throws, `exec` is destroyed before `execute` is left.
     */
    method Record(exec: TaskExecutionContext, commandPool: Handle) returns (commands: seq<Command>, o: Outcome)
      requires exec.context == context && exec.registry.pool == registry.pool && exec.registry != registry
      requires exec.fences == [] && exec.deferredCleanups == [Contexts.Callback(DestroyCommandPool(commandPool))]
      requires registry.CacheFromPool() && exec.registry.CacheFromPool()
      requires exec.registry.allocatedImages == registry.allocatedImages
      modifies exec, exec.registry, registry.pool, registry.pool.driver, registry.pool.context, registry.pool.stats,
               context.log, registry.pool.context.log
      ensures o.Pass? ==>
        && exec.fences == [] && context.log.calls == old(context.log.calls)
        && Shaped(commands, [BeginCommands] + TasksCommands(tasks) + [EndCommands])
        && exec.deferredCleanups == [Contexts.Callback(DestroyCommandPool(commandPool))] + TasksCleanups(tasks)
        && exec.registry.CacheFromPool()
      ensures o.Fail? && NoEmptyDeferrals(tasks) ==>
        forall a :: a in registry.pool.images && a !in old(registry.pool.images) ==> !a.IsValid()
      ensures o.Fail? && NoEmptyDeferrals(tasks) ==>
        UnwoundAfter(context.log.calls, DestroyCommandPool(commandPool), registry.pool.context.log == context.log)
    {
      commands, o := RecordTasks(exec, tasks);
      if o.Fail? {
        ghost var n, k :| 0 <= n < |tasks| && 0 <= k <= |TaskSteps(tasks[n])|
          && exec.deferredCleanups == [Contexts.Callback(DestroyCommandPool(commandPool))]
               + TasksCleanups(tasks[..n]) + StepsCleanups(TaskSteps(tasks[n])[..k]);
        Unwind(exec, commandPool, n, k);
      }
    }

    /**
     * Leaving `execute` by the exception of task `n`, step `k`: the execution context is destroyed
     * with no fence yet, while the caller's registry still holds its own cached allocations.
     */
    method Unwind(exec: TaskExecutionContext, commandPool: Handle, ghost n: nat, ghost k: nat)
      requires n < |tasks| && k <= |TaskSteps(tasks[n])|
      requires exec.context == context && exec.registry.pool == registry.pool && exec.fences == []
      requires exec.registry.CacheFromPool()
      requires exec.deferredCleanups == [Contexts.Callback(DestroyCommandPool(commandPool))]
        + TasksCleanups(tasks[..n]) + StepsCleanups(TaskSteps(tasks[n])[..k])
      modifies context.log, exec.registry.allocatedImages.Values - registry.allocatedImages.Values,
               registry.pool.stats, registry.pool.context.log
      ensures NoEmptyDeferrals(tasks) ==>
        forall a :: a in exec.registry.allocatedImages.Values - registry.allocatedImages.Values ==> !a.IsValid()
      ensures NoEmptyDeferrals(tasks) ==>
        UnwoundAfter(context.log.calls, DestroyCommandPool(commandPool), registry.pool.context.log == context.log)
    {
      assert exec.FenceLogs() == {};
      if !NoEmptyDeferrals(tasks) {
        var _, _ := exec.Destroy({}, registry.allocatedImages.Values);
        return;
      }
      PoolDestroyedLast(tasks, n, k, commandPool, exec.deferredCleanups);
      var _ := exec.DestroyUnwinding(registry.allocatedImages.Values, DestroyCommandPool(commandPool));
    }

    /**
     * The start of `execute`: the execution context, the graphics queue, and a command pool on
     * its family whose destruction is deferred first.
     */
    method Prepare(commandPool: Handle) returns (exec: TaskExecutionContext, queue: Handle)
      modifies context.log
      ensures fresh(exec) && fresh(exec.registry) && exec.context == context && exec.registry.pool == registry.pool
      ensures exec.deferredCleanups == [Contexts.Callback(DestroyCommandPool(commandPool))] && exec.fences == []
      ensures exec.registry.allocatedImages == registry.allocatedImages
      ensures registry.CacheFromPool() ==> exec.registry.CacheFromPool()
      ensures queue == context.GetQueue(QueueGraphicsBit)
      ensures context.log.calls == old(context.log.calls) + [CreateCommandPool(commandPool, context.GetQueueFamilyIndex(queue))]
    {
      exec := new TaskExecutionContext(context, registry);
      queue := context.GetQueue(QueueGraphicsBit);
      var family := context.GetQueueFamilyIndex(queue);
      context.log.Append(CreateCommandPool(commandPool, family));
      exec.Defer(Contexts.Callback(DestroyCommandPool(commandPool)));
    }

    /** The end of `execute`: submits the commands with a new unsignaled fence, kept by `exec`. */
    method SubmitWithFence(exec: TaskExecutionContext, queue: Handle, commands: seq<Command>, fenceHandle: Handle,
                           fenceStatus: nat -> bool, fenceWait: nat -> Fences.WaitResult)
      returns (fence: Fences.Fence)
      modifies context.log, exec
      ensures fresh(fence) && fence.handle == fenceHandle && fence.context == context && !fence.signaled
      ensures exec.fences == old(exec.fences) + [fence] && exec.deferredCleanups == old(exec.deferredCleanups)
      ensures context.log.calls == old(context.log.calls) + [Submit(queue, commands, fenceHandle)]
    {
      fence := new Fences.Fence(context, 0, fenceHandle, fenceStatus, fenceWait);
      var released := fence.ReleaseHandle();
      context.log.Append(Submit(queue, commands, released));
      exec.AppendFence(fence);
    }
  }

  /**
   * How a log ends after unwinding whose last cleanup call is `c`: when the pool logs to the same
   * log, `c` is followed only by image frees; otherwise `c` is the last call.
   */
  predicate UnwoundAfter(calls: seq<DeviceCall>, c: DeviceCall, sameLog: bool) {
    if sameLog then
      exists n :: 0 <= n < |calls| && calls[n] == c
        && forall j :: n < j < |calls| ==> calls[j].DestroyImageView? || calls[j].DestroyImage?
    else
      |calls| > 0 && calls[|calls| - 1] == c
  }

  /** A log that ends with cleanups whose last call is `c`, then only image frees. */
  lemma PoolThenFrees(before: seq<DeviceCall>, cleanups: seq<DeviceCall>, frees: seq<DeviceCall>, c: DeviceCall)
    requires |cleanups| > 0 && cleanups[|cleanups| - 1] == c
    requires forall x :: x in frees ==> x.DestroyImageView? || x.DestroyImage?
    ensures var log := before + cleanups + [] + frees;
      exists n :: 0 <= n < |log| && log[n] == c && forall j :: n < j < |log| ==> log[j].DestroyImageView? || log[j].DestroyImage?
  {
    var log := before + cleanups + [] + frees;
    var n := |before| + |cleanups| - 1;
    assert log[n] == c;
    forall j | n < j < |log|
      ensures log[j].DestroyImageView? || log[j].DestroyImage?
    {
      assert log[j] == frees[j - n - 1];
    }
  }

  /**
   * Unwinding after a task throws: when no task deferred an empty cleanup, every cleanup runs
   * and the command pool, deferred first, is destroyed last.
   */
  lemma PoolDestroyedLast(tasks: seq<ExecutionFunction>, n: nat, k: nat, pool: Handle, cbs: seq<Contexts.CleanupCallback>)
    requires NoEmptyDeferrals(tasks) && n < |tasks| && k <= |TaskSteps(tasks[n])|
    requires cbs == [Contexts.Callback(DestroyCommandPool(pool))] + TasksCleanups(tasks[..n]) + StepsCleanups(TaskSteps(tasks[n])[..k])
    ensures LastEmpty(cbs).None?
    ensures var calls := Contexts.ReverseCleanupCalls(cbs); |calls| > 0 && calls[|calls| - 1] == DestroyCommandPool(pool)
  {
    var first := [Contexts.Callback(DestroyCommandPool(pool))];
    var rest := TasksCleanups(tasks[..n]) + StepsCleanups(TaskSteps(tasks[n])[..k]);
    NoEmptyDeferralsPrefix(tasks, n, k);
    ConcatAssociates(first, TasksCleanups(tasks[..n]), StepsCleanups(TaskSteps(tasks[n])[..k]));
    assert cbs == first + rest;
    assert AllCallbacks(cbs) by {
      forall j | 0 <= j < |cbs|
        ensures cbs[j].Callback?
      {
        if j > 0 {
          assert cbs[j] == rest[j - 1];
        }
      }
    }
    Contexts.ReverseCleanupCallsAppend(first, rest);
    assert Contexts.ReverseCleanupCalls(first) == [DestroyCommandPool(pool)] by {
      assert first[1..] == [];
    }
  }

  lemma NoEmptyDeferralsPrefix(tasks: seq<ExecutionFunction>, n: nat, k: nat)
    requires NoEmptyDeferrals(tasks) && n < |tasks| && k <= |TaskSteps(tasks[n])|
    ensures AllCallbacks(TasksCleanups(tasks[..n]) + StepsCleanups(TaskSteps(tasks[n])[..k]))
  {
    assert NoEmptyDeferrals(tasks[..n]) by {
      forall i, j | 0 <= i < n && 0 <= j < |TaskSteps(tasks[..n][i])| && TaskSteps(tasks[..n][i])[j].DeferCleanup?
        ensures TaskSteps(tasks[..n][i])[j].cleanup.Callback?
      {
        assert tasks[..n][i] == tasks[i];
      }
    }
    TasksCleanupsAreCallbacks(tasks[..n]);
    var steps := TaskSteps(tasks[n])[..k];
    assert forall j :: 0 <= j < |steps| ==> steps[j] == TaskSteps(tasks[n])[j];
    StepsCleanupsAreCallbacks(steps);
  }

  /** `RunCalls` extended by one call applies it to the tables reached so far. */
  lemma {:induction false} RunCallsSnoc(t: RegistryTables, calls: seq<RegistryCall>, c: RegistryCall)
    ensures RunCalls(t, calls + [c]).0 == Apply(RunCalls(t, calls).0, c).0
    ensures RunCalls(t, calls + [c]).1 == RunCalls(t, calls).1 + [Apply(RunCalls(t, calls).0, c).1]
    decreases |calls|
  {
    if calls == [] {
      assert calls + [c] == [c];
      assert [c][1..] == [];
    } else {
      assert (calls + [c])[1..] == calls[1..] + [c];
      RunCallsSnoc(Apply(t, calls[0]).0, calls[1..], c);
    }
  }

  class TaskGraph {
    const context: Contexts.Context
    const registry: TaskRegistry
    var tasks: seq<ExecutionFunction>

    constructor (context: Contexts.Context, pool: MemoryPools.MemoryPool)
      ensures this.context == context && fresh(registry) && registry.pool == pool
      ensures registry.Tables() == EmptyTables && registry.allocatedImages == map[]
      ensures tasks == []
    {
      this.context := context;
      var reg := new TaskRegistry(context, pool);
      this.registry := reg;
      tasks := [];
    }

    /**
     * `add_task`: runs a non-empty definition against the graph's registry at once and appends
     * the closure it returns, even when that closure is empty; an empty definition adds nothing.
     */
    method AddTask(definition: DefinitionFunction)
      modifies this, registry
      ensures definition.EmptyDefinition? ==> tasks == old(tasks) && registry.Tables() == old(registry.Tables())
      ensures definition.Definition? ==>
        var (t, results) := RunCalls(old(registry.Tables()), definition.calls);
        registry.Tables() == t && tasks == old(tasks) + [definition.capture(results)]
      ensures registry.allocatedImages == old(registry.allocatedImages)
    {
      if definition.EmptyDefinition? {
        return;
      }
      var results: seq<CallResult> := [];
      var i := 0;
      while i < |definition.calls|
        invariant 0 <= i <= |definition.calls|
        invariant registry.Tables() == RunCalls(old(registry.Tables()), definition.calls[..i]).0
        invariant results == RunCalls(old(registry.Tables()), definition.calls[..i]).1
        invariant registry.allocatedImages == old(registry.allocatedImages)
        invariant tasks == old(tasks)
      {
        RunCallsSnoc(old(registry.Tables()), definition.calls[..i], definition.calls[i]);
        assert definition.calls[..i + 1] == definition.calls[..i] + [definition.calls[i]];
        var res := registry.Call(definition.calls[i]);
        results := results + [res];
        i := i + 1;
      }
      assert definition.calls[..i] == definition.calls;
      tasks := tasks + [definition.capture(results)];
    }

    /** `build`: a copy of the registry and the task list moved out, leaving it empty. */
    method Build() returns (e: TaskGraphExecution)
      modifies this
      ensures fresh(e) && e.context == context && e.tasks == old(tasks) && tasks == []
      ensures fresh(e.registry) && e.registry.Tables() == registry.Tables()
      ensures e.registry.allocatedImages == registry.allocatedImages && e.registry.pool == registry.pool
    {
      e := new TaskGraphExecution(context, registry, tasks);
      tasks := [];
    }
  }
}
