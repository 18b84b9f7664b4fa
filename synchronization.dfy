/**
 * `vkb::SynchronizationPoint` and `SynchronizationGroup`. Dafny has no virtual dispatch here, so
 * the interface is the closed set of points the framework defines; the group's `wait_until` and
 * `is_signaled` bodies are not part of this model.
 */
module Synchronization {
  import Fences

  /** A shared pointer to some synchronization point; a group may hold groups. */
  datatype SyncPoint = FencePoint(fence: Fences.Fence) | GroupPoint(group: SynchronizationGroup)

  class SynchronizationGroup {
    /** The points the group owns, taken over from the caller's vector. */
    const points: seq<SyncPoint>

    constructor (points: seq<SyncPoint>)
      ensures this.points == points
    {
      this.points := points;
    }
  }
}
