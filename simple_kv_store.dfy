/**
 * The v1 store (com.adi.kvstore.impl.SimpleKVStore): lazy TTL over the in-memory storage engine.
 * The clock is the parameter now of each call that reads it.
 */
module SimpleStore {
  import opened Wrappers
  import opened Entries
  import opened Expiration
  import opened Ttl
  import opened InMemoryStorage

  class SimpleKVStore {
    const storageEngine: InMemoryStorageEngine

    constructor (storageEngine: InMemoryStorageEngine)
      ensures this.storageEngine == storageEngine
    {
      this.storageEngine := storageEngine;
    }

    /**
     * put(key, value): a blank key is rejected and nothing is stored; otherwise a new entry with
     * expiry -1 (never expires) replaces whatever the key held.
     */
    method Put(key: string, value: string) returns (r: Outcome<EntryError>)
      modifies storageEngine
      ensures r.Fail? <==> IsBlank(key)
      ensures r.Fail? ==> r.error == KeyNullOrBlank && storageEngine.store == old(storageEngine.store)
      ensures r.Pass? ==>
        && key in storageEngine.store && fresh(storageEngine.store[key])
        && storageEngine.store == old(storageEngine.store)[key := storageEngine.store[key]]
        && storageEngine.store[key].key == key && storageEngine.store[key].value == value
        && storageEngine.store[key].expiryTime == -1
    {
      var created := Entry.Create(Some(key), Some(value), -1);
      if created.Failure? {
        return Fail(created.error);
      }
      storageEngine.Put(key, created.value);
      r := Pass;
    }

    /** put(key, value, ttlMillis): as Put, with the expiry ExpiryFor(now, ttlMillis). */
    method PutWithTtl(key: string, value: string, ttlMillis: int, now: int) returns (r: Outcome<EntryError>)
      modifies storageEngine
      ensures r.Fail? <==> IsBlank(key)
      ensures r.Fail? ==> r.error == KeyNullOrBlank && storageEngine.store == old(storageEngine.store)
      ensures r.Pass? ==>
        && key in storageEngine.store && fresh(storageEngine.store[key])
        && storageEngine.store == old(storageEngine.store)[key := storageEngine.store[key]]
        && storageEngine.store[key].key == key && storageEngine.store[key].value == value
        && storageEngine.store[key].expiryTime == ExpiryFor(now, ttlMillis)
    {
      var expiryTime;
      if ttlMillis <= 0 {
        expiryTime := now;  // expire immediately
      } else {
        expiryTime := now + ttlMillis;
      }
      var created := Entry.Create(Some(key), Some(value), expiryTime);
      if created.Failure? {
        return Fail(created.error);
      }
      storageEngine.Put(key, created.value);
      r := Pass;
    }

    /**
     * get(key): a miss for an unmapped key; a miss that also removes the key when its entry is
     * expired at now (lazy cleanup); otherwise the entry's value, with storage unchanged.
     */
    method Get(key: string, now: int) returns (value: Option<string>)
      modifies storageEngine
      ensures key !in old(storageEngine.store) ==>
        value.None? && storageEngine.store == old(storageEngine.store)
      ensures key in old(storageEngine.store) && IsExpired(old(storageEngine.store)[key], now) ==>
        value.None? && storageEngine.store == old(storageEngine.store) - {key}
      ensures key in old(storageEngine.store) && !IsExpired(old(storageEngine.store)[key], now) ==>
        value == Some(old(storageEngine.store)[key].value) && storageEngine.store == old(storageEngine.store)
    {
      var entry := storageEngine.Get(key);
      if entry == null {
        return None;
      }
      if IsExpired(entry, now) {
        storageEngine.Remove(key);  // lazy cleanup
        return None;
      }
      value := Some(entry.value);
    }
  }

  /** A key that was never put is a miss. */
  method NeverPutIsMiss(key: string, now: int) returns (value: Option<string>)
    ensures value.None?
  {
    var engine := new InMemoryStorageEngine();
    var store := new SimpleKVStore(engine);
    value := store.Get(key, now);
  }

  /** put(key, value) without TTL is returned by get at any time afterwards. */
  method PutThenGet(key: string, value: string, now: int) returns (got: Option<string>)
    requires !IsBlank(key)
    ensures got == Some(value)
  {
    var engine := new InMemoryStorageEngine();
    var store := new SimpleKVStore(engine);
    var r := store.Put(key, value);
    got := store.Get(key, now);
  }

  /** The last write wins: put v1, put v2, get returns v2. */
  method LastWriteWins(key: string, first: string, second: string, now: int) returns (got: Option<string>)
    requires !IsBlank(key)
    ensures got == Some(second)
  {
    var engine := new InMemoryStorageEngine();
    var store := new SimpleKVStore(engine);
    var r1 := store.Put(key, first);
    var r2 := store.Put(key, second);
    got := store.Get(key, now);
  }

  /**
   * With a non-negative clock, put(key, value, ttlMillis) at now is seen by get at time t >= now
   * exactly while t < now + ttlMillis; a TTL that is not positive is a miss from now on.
   */
  method PutWithTtlThenGet(key: string, value: string, ttlMillis: int, now: int, t: int)
    returns (got: Option<string>)
    requires !IsBlank(key) && now >= 0 && t >= now
    ensures got == Some(value) <==> ttlMillis > 0 && t < now + ttlMillis
    ensures got != Some(value) ==> got.None?
  {
    var engine := new InMemoryStorageEngine();
    var store := new SimpleKVStore(engine);
    var r := store.PutWithTtl(key, value, ttlMillis, now);
    LiveWindow(engine.store[key], now, ttlMillis, t);
    got := store.Get(key, t);
  }
}
