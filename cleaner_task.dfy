/** The background expiry sweep (com.adi.kvstore.concurrency.CleanerTask), one run at a time. */
module Cleaner {
  import opened Entries
  import opened Expiration
  import opened ConcurrentStorage

  /** The mappings a sweep at time now leaves: every entry that is not expired at now, unchanged. */
  function Expunged(m: map<string, Entry>, now: int): map<string, Entry> {
    map key | key in m && !IsExpired(m[key], now) :: m[key]
  }

  /**
   * After a sweep no remaining entry is expired at now; the keys removed are exactly those whose
   * entry was expired; every key that stays keeps the identical entry object.
   */
  lemma ExpungedRemovesExactlyExpired(m: map<string, Entry>, now: int)
    ensures forall key :: key in Expunged(m, now) ==> !IsExpired(Expunged(m, now)[key], now)
    ensures forall key :: key in m ==> (key !in Expunged(m, now) <==> IsExpired(m[key], now))
    ensures forall key :: key in Expunged(m, now) ==> key in m && Expunged(m, now)[key] == m[key]
  {
  }

  /** Entries without an expiry survive every sweep. */
  lemma ExpungedKeepsUnexpiring(m: map<string, Entry>, now: int, key: string)
    requires key in m && !m[key].HasExpiry()
    ensures key in Expunged(m, now) && Expunged(m, now)[key] == m[key]
  {
  }

  /** A second sweep at the same time removes nothing more. */
  lemma ExpungedIsIdempotent(m: map<string, Entry>, now: int)
    ensures Expunged(Expunged(m, now), now) == Expunged(m, now)
  {
  }

  class CleanerTask {
    const storageEngine: ConcurrentStorageEngine

    constructor (storageEngine: ConcurrentStorageEngine)
      ensures this.storageEngine == storageEngine
    {
      this.storageEngine := storageEngine;
    }

    /**
     * run: reads the clock once (the parameter now) and visits every mapping of entrySet, removing
     * each entry expired at now with the conditional remove.
     */
    method Run(now: int)
      modifies storageEngine
      ensures storageEngine.store == Expunged(old(storageEngine.store), now)
    {
      var snapshot := storageEngine.EntrySet();
      var pending := snapshot.Keys;
      while pending != {}
        invariant pending <= snapshot.Keys
        invariant storageEngine.store ==
          map key | key in snapshot && (key in pending || !IsExpired(snapshot[key], now)) :: snapshot[key]
        decreases pending
      {
        var key :| key in pending;
        var entry := snapshot[key];
        if IsExpired(entry, now) {
          var removed := storageEngine.RemoveMatching(key, entry);
        }
        pending := pending - {key};
      }
    }
  }
}
