/** The entry-count tracker of the v3 store (com.adi.kvstore.eviction.SimpleMemoryTracker). */
module MemoryTracking {
  import opened Wrappers

  /** The IllegalArgumentException of the constructor. */
  datatype TrackerError = NonPositiveMaxEntries

  class SimpleMemoryTracker {
    const maxEntries: int
    /** The AtomicInteger counter; decrement does not clamp it, so it may go negative. */
    var currentEntries: int

    /** Allocation once Create has checked the limit. */
    constructor (maxEntries: int)
      requires maxEntries > 0
      ensures this.maxEntries == maxEntries && currentEntries == 0
    {
      this.maxEntries := maxEntries;
      currentEntries := 0;
    }

    /**
     * new SimpleMemoryTracker(maxEntries): rejects a limit that is not positive; otherwise a tracker
     * at count 0, which is not over its limit.
     */
    static method Create(maxEntries: int) returns (r: Result<SimpleMemoryTracker, TrackerError>)
      ensures r.Failure? <==> maxEntries <= 0
      ensures r.Failure? ==> r.error == NonPositiveMaxEntries
      ensures r.Success? ==>
        && fresh(r.value)
        && r.value.maxEntries == maxEntries
        && r.value.currentEntries == 0
        && r.value.currentEntries <= r.value.maxEntries
    {
      if maxEntries <= 0 {
        return Failure(NonPositiveMaxEntries);
      }
      var tracker := new SimpleMemoryTracker(maxEntries);
      r := Success(tracker);
    }

    /** increment: adds exactly one. */
    method Increment()
      modifies this
      ensures currentEntries == old(currentEntries) + 1
    {
      currentEntries := currentEntries + 1;
    }

    /** decrement: subtracts exactly one, with no lower bound. */
    method Decrement()
      modifies this
      ensures currentEntries == old(currentEntries) - 1
    {
      currentEntries := currentEntries - 1;
    }

    /** isLimitExceeded: strictly more entries than the limit; a count equal to the limit is not exceeded. */
    method IsLimitExceeded() returns (exceeded: bool)
      ensures exceeded <==> currentEntries > maxEntries
    {
      exceeded := currentEntries > maxEntries;
    }

    /** getCurrentEntries: the count, read without changing anything. */
    method GetCurrentEntries() returns (count: int)
      ensures count == currentEntries
    {
      count := currentEntries;
    }
  }
}
