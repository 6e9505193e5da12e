/**
 * The v2 store (com.adi.kvstore.impl.ConcurrentKVStore): lazy TTL over the concurrent storage engine,
 * removing expired entries with the conditional remove. Calls are modelled one at a time; the
 * background cleaner it schedules is Cleaner.CleanerTask.Run.
 */
module ConcurrentStore {
  import opened Wrappers
  import opened Entries
  import opened Expiration
  import opened Ttl
  import opened ConcurrentStorage

  class ConcurrentKVStore {
    const storageEngine: ConcurrentStorageEngine

    constructor (storageEngine: ConcurrentStorageEngine)
      ensures this.storageEngine == storageEngine
    {
      this.storageEngine := storageEngine;
    }

    /**
     * put(key, value): a blank key is rejected and nothing is stored; otherwise a new entry with
     * expiry -1 (never expires) replaces whatever the key held.
     */
    method Put(key: string, value: string) returns (r: Outcome<EntryError>)
      modifies storageEngine
      ensures r.Fail? <==> IsBlank(key)
      ensures r.Fail? ==> r.error == KeyNullOrBlank && storageEngine.store == old(storageEngine.store)
      ensures r.Pass? ==>
        && key in storageEngine.store && fresh(storageEngine.store[key])
        && storageEngine.store == old(storageEngine.store)[key := storageEngine.store[key]]
        && storageEngine.store[key].key == key && storageEngine.store[key].value == value
        && storageEngine.store[key].expiryTime == -1
    {
      var created := Entry.Create(Some(key), Some(value), -1);
      if created.Failure? {
        return Fail(created.error);
      }
      storageEngine.Put(key, created.value);
      r := Pass;
    }

    /** put(key, value, ttlMillis): as Put, with the expiry ExpiryFor(now, ttlMillis). */
    method PutWithTtl(key: string, value: string, ttlMillis: int, now: int) returns (r: Outcome<EntryError>)
      modifies storageEngine
      ensures r.Fail? <==> IsBlank(key)
      ensures r.Fail? ==> r.error == KeyNullOrBlank && storageEngine.store == old(storageEngine.store)
      ensures r.Pass? ==>
        && key in storageEngine.store && fresh(storageEngine.store[key])
        && storageEngine.store == old(storageEngine.store)[key := storageEngine.store[key]]
        && storageEngine.store[key].key == key && storageEngine.store[key].value == value
        && storageEngine.store[key].expiryTime == ExpiryFor(now, ttlMillis)
    {
      var expiryTime;
      if ttlMillis <= 0 {
        expiryTime := now;  // immediate expiration
      } else {
        expiryTime := now + ttlMillis;
      }
      var created := Entry.Create(Some(key), Some(value), expiryTime);
      if created.Failure? {
        return Fail(created.error);
      }
      storageEngine.Put(key, created.value);
      r := Pass;
    }

    /**
     * get(key): a miss with nothing changed for an unmapped key; a miss that removes that same entry
     * when it is expired at now (run alone, the conditional remove always finds it); otherwise the
     * entry's value, with storage unchanged.
     */
    method Get(key: string, now: int) returns (value: Option<string>)
      modifies storageEngine
      ensures key !in old(storageEngine.store) ==>
        value.None? && storageEngine.store == old(storageEngine.store)
      ensures key in old(storageEngine.store) && IsExpired(old(storageEngine.store)[key], now) ==>
        value.None? && storageEngine.store == old(storageEngine.store) - {key}
      ensures key in old(storageEngine.store) && !IsExpired(old(storageEngine.store)[key], now) ==>
        value == Some(old(storageEngine.store)[key].value) && storageEngine.store == old(storageEngine.store)
    {
      var entry := storageEngine.Get(key);
      if entry == null {
        return None;
      }
      if IsExpired(entry, now) {
        // conditional removal, so that a newer entry would not be deleted
        var removed := storageEngine.RemoveMatching(key, entry);
        return None;
      }
      value := Some(entry.value);
    }
  }

  /** put(key, value) without TTL is returned by get at any time afterwards. */
  method PutThenGet(key: string, value: string, now: int) returns (got: Option<string>)
    requires !IsBlank(key)
    ensures got == Some(value)
  {
    var engine := new ConcurrentStorageEngine();
    var store := new ConcurrentKVStore(engine);
    var r := store.Put(key, value);
    got := store.Get(key, now);
  }

  /**
   * A later put to the same key replaces the earlier entry: after put(key, first, ttlMillis) and
   * put(key, second), get returns second whatever the first TTL was.
   */
  method LastWriteWins(key: string, first: string, ttlMillis: int, second: string, now: int, later: int)
    returns (got: Option<string>)
    requires !IsBlank(key)
    ensures got == Some(second)
  {
    var engine := new ConcurrentStorageEngine();
    var store := new ConcurrentKVStore(engine);
    var r1 := store.PutWithTtl(key, first, ttlMillis, now);
    var r2 := store.Put(key, second);
    got := store.Get(key, later);
  }

  /** With a non-negative clock, a TTL that is not positive makes get a miss from now on, and that get empties the key. */
  method NonPositiveTtlIsMiss(key: string, value: string, ttlMillis: int, now: int, later: int)
    returns (got: Option<string>, present: bool)
    requires !IsBlank(key) && ttlMillis <= 0 && now >= 0 && later >= now
    ensures got.None? && !present
  {
    var engine := new ConcurrentStorageEngine();
    var store := new ConcurrentKVStore(engine);
    var r := store.PutWithTtl(key, value, ttlMillis, now);
    got := store.Get(key, later);
    var entry := engine.Get(key);
    present := entry != null;
  }
}
