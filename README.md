# In-memory key-value store: a Dafny model

This project models the core of `java-inmemory-kv-store`, a small in-memory key-value store that
grew in three versions over one immutable `Entry` type:

- **v1, `SimpleKVStore`**: a `HashMap`-backed storage engine with lazy TTL expiry. A `get` that
  finds an expired entry removes it and misses.
- **v2, `ConcurrentKVStore`**: the same over a `ConcurrentHashMap` engine. Expired entries are
  removed with the conditional `remove(key, expected)`, and a background `CleanerTask` sweeps
  expired entries.
- **v3, `EvictingKVStore`**: adds a bound on the number of entries. It is composed of
  - an LRU eviction policy, a deque of keys with the most recently used at the front;
  - an entry-count memory tracker;
  - an `evictIfNeeded` loop that polls the deque from the back while the count exceeds the limit.

Each Java class is one Dafny module:

| module | file |
|---|---|
| `Entries` | `entry.dfy` |
| `Expiration` | `expiration.dfy` |
| `Ttl` | `ttl.dfy` |
| `InMemoryStorage` | `in_memory_storage_engine.dfy` |
| `ConcurrentStorage` | `concurrent_storage_engine.dfy` |
| `MemoryTracking` | `memory_tracker.dfy` |
| `LruEviction` | `lru_eviction_policy.dfy` |
| `Cleaner` | `cleaner_task.dfy` |
| `SimpleStore` | `simple_kv_store.dfy` |
| `ConcurrentStore` | `concurrent_kv_store.dfy` |
| `EvictingStore` | `evicting_kv_store.dfy` |

`Wrappers` holds `Option`, `Result` and `Outcome`. Classes whose fields the Java code mutates are
Dafny classes:

- a storage engine holds a `map<string, Entry>` field;
- the eviction policy holds a `seq<string>` deque;
- the tracker holds an `int` counter.

Their methods state the new state in full.

`Entry` is a class with constant fields. `ConcurrentHashMap.remove(key, expected)` compares with
`Entry.equals`, which is not overridden, so it compares object identity.

The clock is not modelled as an object. Every operation that reads `clock.now()` takes the time
as a parameter `now`.

v3 is specified by a value-level mirror of its three parts: `EvictionState(store, order, count)`.

- `Consistent` is the sequential invariant:
  - the counter equals the number of stored keys;
  - the deque has no duplicates;
  - every stored key is in the deque.
- `Polled` is one pass of the eviction loop, and `Evicted` runs the whole loop.
- `Inserted` is what `putInternal` does before eviction.

The methods of `EvictingKVStore` are proved to leave exactly these states, and lemmas prove what
the states mean:

- the invariant is kept;
- the counter ends within the limit;
- the key just put survives;
- only polled keys are removed;
- with distinct keys and no reads, the least recently put key goes first.

Three points where the model follows the code rather than its comments:

- **v3 `put(key, value)` without a TTL** passes a TTL of `-1`, and `put(key, value, ttl)` turns
  every TTL that is not positive into the expiry time `now`. Such an entry is therefore already
  expired at any later `get`. v1 and v2 instead store `-1` as the expiry time, which never expires.
  The model keeps the `-1` of line 38; see `EvictingStore.PutWithoutTtlIsMiss`. This behaviour
  exists only once line 47 is corrected. As written, `put(key, value)` stores nothing either,
  because it goes through the recursive 3-argument overload (see Findings).
- **v3 `evictIfNeeded`** carries a comment saying that expired entries are not evicted there. The
  code removes whatever candidate is still stored, expired or not, and the model does the same.
- **The LRU deque** is documented as possibly holding duplicates under concurrency. Run one call at
  a time, it never does; that is part of `Consistent`.

## Model

| member | source | states |
|---|---|---|
| Entries.Entry.Create | src/main/java/com/adi/kvstore/core/Entry.java:14-25 | The constructor fails exactly when the key is null or blank (this error first) or the value is null. Otherwise it gives a new entry whose key, value and expiry time are the arguments. |
| Entries.Entry.HasExpiry | src/main/java/com/adi/kvstore/core/Entry.java:43-45 | Definition: an entry carries an expiry exactly when its expiry time is non-negative; -1 (any negative time) means none. |
| Expiration.IsExpired | src/main/java/com/adi/kvstore/expiration/DefaultExpirationPolicy.java:12-17 | Definition of the policy: false without an expiry, otherwise whether the time has reached the expiry time. The lemmas below state what it promises. |
| Expiration.NeverExpiresWithoutExpiry | src/main/java/com/adi/kvstore/expiration/DefaultExpirationPolicy.java:13-15 | An entry without expiry (a negative expiry time) is never expired. |
| Expiration.ExpiredAtExpiryTime | src/main/java/com/adi/kvstore/expiration/DefaultExpirationPolicy.java:16 | The boundary is inclusive: an entry is expired at its own expiry time and live at every earlier time. |
| Expiration.ExpiryIsMonotone | src/main/java/com/adi/kvstore/expiration/DefaultExpirationPolicy.java:16 | Once expired, an entry stays expired at every later time. |
| Expiration.DependsOnlyOnExpiryTime | src/main/java/com/adi/kvstore/expiration/DefaultExpirationPolicy.java:12-17 | Two entries with the same expiry time get the same verdict, whatever their keys and values. |
| Ttl.ExpiryFor | src/main/java/com/adi/kvstore/impl/SimpleKVStore.java:33-40 | The expiry time is never before now. It equals now exactly when the TTL is not positive, and otherwise lies exactly the TTL after now. |
| Ttl.LiveWindow | src/main/java/com/adi/kvstore/impl/SimpleKVStore.java:35-39 | With a non-negative clock, an entry put at now with a TTL is live at a time t >= now exactly when the TTL is positive and t < now + TTL. |
| InMemoryStorage.InMemoryStorageEngine.constructor | src/main/java/com/adi/kvstore/core/InMemoryStorageEngine.java:12 | A new engine maps nothing. |
| InMemoryStorage.InMemoryStorageEngine.Put | src/main/java/com/adi/kvstore/core/InMemoryStorageEngine.java:15-17 | The key maps to the given entry and every other mapping is unchanged. |
| InMemoryStorage.InMemoryStorageEngine.Get | src/main/java/com/adi/kvstore/core/InMemoryStorageEngine.java:20-22 | The result is null exactly when the key is unmapped, and is otherwise the key's entry. |
| InMemoryStorage.InMemoryStorageEngine.Remove | src/main/java/com/adi/kvstore/core/InMemoryStorageEngine.java:25-27 | The key is unmapped afterwards and every other mapping is unchanged. An unmapped key changes nothing. |
| InMemoryStorage.InMemoryStorageEngine.ContainsKey | src/main/java/com/adi/kvstore/core/InMemoryStorageEngine.java:30-32 | The result is true exactly when the key is mapped. |
| ConcurrentStorage.ConcurrentStorageEngine.constructor | src/main/java/com/adi/kvstore/concurrency/ConcurrentStorageEngine.java:16 | A new engine maps nothing. |
| ConcurrentStorage.ConcurrentStorageEngine.Put | src/main/java/com/adi/kvstore/concurrency/ConcurrentStorageEngine.java:21-23 | The key maps to the given entry and every other mapping is unchanged. |
| ConcurrentStorage.ConcurrentStorageEngine.Get | src/main/java/com/adi/kvstore/concurrency/ConcurrentStorageEngine.java:28-30 | The result is null exactly when the key is unmapped, and is otherwise the key's entry. |
| ConcurrentStorage.ConcurrentStorageEngine.Remove | src/main/java/com/adi/kvstore/concurrency/ConcurrentStorageEngine.java:35-37 | Unconditional removal: the key is unmapped and all else is unchanged. |
| ConcurrentStorage.ConcurrentStorageEngine.RemoveMatching | src/main/java/com/adi/kvstore/concurrency/ConcurrentStorageEngine.java:45-47 | The result is true exactly when the key maps to that very entry object. Then the key is removed; otherwise nothing changes. |
| ConcurrentStorage.ConcurrentStorageEngine.EntrySet | src/main/java/com/adi/kvstore/concurrency/ConcurrentStorageEngine.java:52-54 | The mappings returned are exactly the stored ones, with the same keys and entries, and the engine is unchanged. |
| MemoryTracking.SimpleMemoryTracker.Create | src/main/java/com/adi/kvstore/eviction/SimpleMemoryTracker.java:16-21 | Construction fails exactly when maxEntries is not positive. Otherwise it gives a new tracker with that limit and count 0. |
| MemoryTracking.SimpleMemoryTracker.Increment | src/main/java/com/adi/kvstore/eviction/SimpleMemoryTracker.java:24-26 | The count grows by one and the limit is unchanged. |
| MemoryTracking.SimpleMemoryTracker.Decrement | src/main/java/com/adi/kvstore/eviction/SimpleMemoryTracker.java:29-31 | The count drops by one and the limit is unchanged. |
| MemoryTracking.SimpleMemoryTracker.IsLimitExceeded | src/main/java/com/adi/kvstore/eviction/SimpleMemoryTracker.java:34-36 | The result is true exactly when the count is strictly greater than the limit. |
| MemoryTracking.SimpleMemoryTracker.GetCurrentEntries | src/main/java/com/adi/kvstore/eviction/SimpleMemoryTracker.java:41-43 | Returns the count and changes nothing. |
| LruEviction.RemoveFirst | src/main/java/com/adi/kvstore/eviction/LRUEvictionPolicy.java:28 | `Deque.remove(key)` leaves a deque without the key unchanged, and makes a deque holding it exactly one shorter. |
| LruEviction.RemoveFirstSplices | src/main/java/com/adi/kvstore/eviction/LRUEvictionPolicy.java:28 | Only the first occurrence is cut out; the elements before and after it keep their order. |
| LruEviction.RemoveFirstOfDistinct | src/main/java/com/adi/kvstore/eviction/LRUEvictionPolicy.java:28 | On a deque without duplicates, the result has none either and holds exactly the other keys. |
| LruEviction.TouchedKeepsNoDuplicates | src/main/java/com/adi/kvstore/eviction/LRUEvictionPolicy.java:27-29 | After an access the key is at the front, the deque holds the earlier keys plus this one, and no key appears twice. |
| LruEviction.AccessFreshKeys | src/main/java/com/adi/kvstore/eviction/LRUEvictionPolicy.java:23-30 | Accessing distinct keys not yet in the deque puts them in front in reverse access order, ahead of the old deque. |
| LruEviction.DistinctAccessesEvictInOrder | src/main/java/com/adi/kvstore/eviction/LRUEvictionPolicy.java:23-36 | After distinct accesses k1..kn on an empty deque, successive eviction candidates are k1..kn: least recently used first. |
| LruEviction.LRUEvictionPolicy.constructor | src/main/java/com/adi/kvstore/eviction/LRUEvictionPolicy.java:20 | A new policy's deque is empty. |
| LruEviction.Touched | src/main/java/com/adi/kvstore/eviction/LRUEvictionPolicy.java:28-29 | Definition of the deque after onAccess of a non-null key: its first occurrence removed (`RemoveFirst`), then the key added at the front. `OnAccess` is specified by it; `TouchedKeepsNoDuplicates` states its properties. |
| LruEviction.LRUEvictionPolicy.OnAccess | src/main/java/com/adi/kvstore/eviction/LRUEvictionPolicy.java:23-30 | A null key leaves the deque unchanged. Any other key is removed where it was (first occurrence) and added at the front. |
| LruEviction.LRUEvictionPolicy.SelectEvictionCandidate | src/main/java/com/adi/kvstore/eviction/LRUEvictionPolicy.java:33-36 | On an empty deque the result is null and the deque stays empty. Otherwise the back key is returned and removed. |
| Cleaner.Expunged | src/main/java/com/adi/kvstore/concurrency/CleanerTask.java:27-38 | Definition of the mappings one sweep at time now leaves: every mapping whose entry is not expired at now, unchanged. `Run` is specified by it; the three lemmas below state its properties. |
| Cleaner.ExpungedRemovesExactlyExpired | src/main/java/com/adi/kvstore/concurrency/CleanerTask.java:27-38 | After a sweep no remaining entry is expired at now. A key is removed exactly when its entry was expired, and every kept key holds the identical entry. |
| Cleaner.ExpungedKeepsUnexpiring | src/main/java/com/adi/kvstore/concurrency/CleanerTask.java:33 | An entry without expiry survives every sweep. |
| Cleaner.ExpungedIsIdempotent | src/main/java/com/adi/kvstore/concurrency/CleanerTask.java:27-38 | A second sweep at the same time removes nothing more. |
| Cleaner.CleanerTask.constructor | src/main/java/com/adi/kvstore/concurrency/CleanerTask.java:20-24 | The task holds the given storage engine; the policy is the default one and the clock is the parameter of `Run`. |
| Cleaner.CleanerTask.Run | src/main/java/com/adi/kvstore/concurrency/CleanerTask.java:27-38 | The loop over the entry-set snapshot, with conditional removal, leaves exactly the mappings not expired at now (`Expunged`). |
| SimpleStore.SimpleKVStore.constructor | src/main/java/com/adi/kvstore/impl/SimpleKVStore.java:19-23 | The store holds the given storage engine; the policy is the default one and the clock is the `now` parameter of each call. |
| SimpleStore.SimpleKVStore.Put | src/main/java/com/adi/kvstore/impl/SimpleKVStore.java:26-29 | A blank key is rejected and nothing changes. Otherwise the key maps to a new entry with that key, that value and expiry -1, and nothing else changes. |
| SimpleStore.SimpleKVStore.PutWithTtl | src/main/java/com/adi/kvstore/impl/SimpleKVStore.java:32-44 | As Put, with the expiry time `ExpiryFor(now, ttl)`. |
| SimpleStore.SimpleKVStore.Get | src/main/java/com/adi/kvstore/impl/SimpleKVStore.java:47-61 | An unmapped key misses with nothing changed. An expired entry misses and its key is removed. A live entry's value is returned with storage unchanged. |
| SimpleStore.NeverPutIsMiss | src/main/java/com/adi/kvstore/impl/SimpleKVStore.java:47-52 | On a fresh store every get misses. |
| SimpleStore.PutThenGet | src/main/java/com/adi/kvstore/impl/SimpleKVStore.java:26-60 | put without TTL, then get at any time, returns the value. |
| SimpleStore.LastWriteWins | src/main/java/com/adi/kvstore/impl/SimpleKVStore.java:26-29 | Two puts to one key, then get: the second value is returned. |
| SimpleStore.PutWithTtlThenGet | src/main/java/com/adi/kvstore/impl/SimpleKVStore.java:32-60 | With a non-negative clock, get at t >= now after put with a TTL returns the value exactly when the TTL is positive and t < now + TTL, and misses otherwise. |
| ConcurrentStore.ConcurrentKVStore.constructor | src/main/java/com/adi/kvstore/impl/ConcurrentKVStore.java:24-28 | The store holds the given storage engine; the policy is the default one and the clock is the `now` parameter of each call. Starting the cleaner schedule is left out. |
| ConcurrentStore.ConcurrentKVStore.Put | src/main/java/com/adi/kvstore/impl/ConcurrentKVStore.java:36-39 | A blank key is rejected and nothing changes. Otherwise the key maps to a new entry with that key, that value and expiry -1, and nothing else changes. |
| ConcurrentStore.ConcurrentKVStore.PutWithTtl | src/main/java/com/adi/kvstore/impl/ConcurrentKVStore.java:42-53 | As Put, with the expiry time `ExpiryFor(now, ttl)`. |
| ConcurrentStore.ConcurrentKVStore.Get | src/main/java/com/adi/kvstore/impl/ConcurrentKVStore.java:56-71 | An unmapped key misses. An expired entry misses and is removed by the conditional remove. A live entry's value is returned with storage unchanged. |
| ConcurrentStore.PutThenGet | src/main/java/com/adi/kvstore/impl/ConcurrentKVStore.java:36-70 | put without TTL, then get at any time, returns the value. |
| ConcurrentStore.LastWriteWins | src/main/java/com/adi/kvstore/impl/ConcurrentKVStore.java:36-53 | put with any TTL, then put without, then get: the second value is returned. |
| ConcurrentStore.NonPositiveTtlIsMiss | src/main/java/com/adi/kvstore/impl/ConcurrentKVStore.java:45-46 | With a non-negative clock, a TTL that is not positive makes a later get miss, and that get leaves the key unmapped. |
| EvictingStore.Polled | src/main/java/com/adi/kvstore/impl/EvictingKVStore.java:92-106 | One eviction pass drops exactly the back key of the deque; the rest of the deque is kept in order. |
| EvictingStore.Evicted | src/main/java/com/adi/kvstore/impl/EvictingKVStore.java:90-108 | Value-level mirror of the eviction loop: repeat `Polled` while the counter exceeds the limit and the deque is not empty. `EvictIfNeeded` and `PutInternal` are specified by it, and the lemmas below state its properties. |
| EvictingStore.EvictionOnlyRemoves | src/main/java/com/adi/kvstore/impl/EvictingKVStore.java:90-108 | Eviction leaves a front part of the deque. Storage loses keys but never changes an entry. |
| EvictingStore.PollKeepsConsistent | src/main/java/com/adi/kvstore/impl/EvictingKVStore.java:92-106 | One pass (skip a stale key, or remove a stored one and decrement) keeps count = stored keys, no duplicates, and every stored key in the deque. |
| EvictingStore.CountWithinOrder | src/main/java/com/adi/kvstore/impl/EvictingKVStore.java:91-95 | Under the invariant the counter never exceeds the deque's length, so the loop cannot stop on an empty deque while over the limit. |
| EvictingStore.EvictionKeepsConsistent | src/main/java/com/adi/kvstore/impl/EvictingKVStore.java:90-108 | `evictIfNeeded` keeps the invariant and ends with the counter within the limit. |
| EvictingStore.EvictionRemovesPolled | src/main/java/com/adi/kvstore/impl/EvictingKVStore.java:90-108 | A key is stored after eviction exactly when it was stored before and is still in the remaining deque. |
| EvictingStore.EvictionSparesMostRecent | src/main/java/com/adi/kvstore/impl/EvictingKVStore.java:61-65 | With a positive limit, eviction never removes the front key, and that key keeps its entry. |
| EvictingStore.Inserted | src/main/java/com/adi/kvstore/impl/EvictingKVStore.java:53-62 | Definition of the state after putInternal's storage put, counter update (only for a key not stored before) and onAccess, before eviction. `PutInternal` is specified by it; `InsertKeepsConsistent` and `PutSound` state its properties. |
| EvictingStore.InsertKeepsConsistent | src/main/java/com/adi/kvstore/impl/EvictingKVStore.java:53-62 | put, counting only a new key, then onAccess, keeps the invariant and puts the key at the front. |
| EvictingStore.PutSound | src/main/java/com/adi/kvstore/impl/EvictingKVStore.java:50-66 | After putInternal the invariant holds, at most maxEntries keys remain, and the key maps to the new entry; an overwrite is not counted twice. |
| EvictingStore.ExpiredRemovalSound | src/main/java/com/adi/kvstore/impl/EvictingKVStore.java:76-82 | Removing an expired stored key and decrementing once keeps the invariant. |
| EvictingStore.EvictingKVStore.constructor | src/main/java/com/adi/kvstore/impl/EvictingKVStore.java:28-34 | The store holds the given parts, which must already agree; fresh parts do. |
| EvictingStore.EvictingKVStore.Put | src/main/java/com/adi/kvstore/impl/EvictingKVStore.java:37-39 | The TTL -1 of line 38 is kept, so with line 47 corrected (see Findings), put without TTL gives the new entry the expiry time now. A blank key is rejected with nothing changed. |
| EvictingStore.EvictingKVStore.PutWithTtl | src/main/java/com/adi/kvstore/impl/EvictingKVStore.java:42-48 | putInternal with the expiry `ExpiryFor(now, ttl)`. |
| EvictingStore.EvictingKVStore.PutInternal | src/main/java/com/adi/kvstore/impl/EvictingKVStore.java:50-66 | A blank key is rejected with nothing changed. Otherwise the new state is `Evicted(Inserted(old, key, new entry))`: the key holds a new entry with exactly these fields, the invariant holds, and at most maxEntries keys remain. |
| EvictingStore.EvictingKVStore.Get | src/main/java/com/adi/kvstore/impl/EvictingKVStore.java:69-88 | Unmapped: a miss, nothing changes. Expired: a miss; the key is removed, the counter drops once and the deque is untouched. Live: the value is returned and the key moves to the front. |
| EvictingStore.EvictingKVStore.EvictIfNeeded | src/main/java/com/adi/kvstore/impl/EvictingKVStore.java:90-108 | The loop leaves exactly the state `Evicted(old state, maxEntries)`. |
| EvictingStore.PutAsWritten | src/main/java/com/adi/kvstore/impl/EvictingKVStore.java:42-48 | The public put(key, value, ttl) as written, which calls itself with the computed expiry time as the new TTL. |
| EvictingStore.PutAsWrittenNeverStores | src/main/java/com/adi/kvstore/impl/EvictingKVStore.java:47 | As written, put(key, value, ttl) overflows the stack at every stack depth and never reaches putInternal. |
| EvictingStore.PutWithoutTtlIsMiss | src/main/java/com/adi/kvstore/impl/EvictingKVStore.java:37-39 | With line 38's TTL -1 kept and line 47 corrected, and with a non-negative clock, put without TTL and then get at the same or a later time misses, and the counter is back to 0. |
| EvictingStore.ThreeInsertionsKeepAll | src/main/java/com/adi/kvstore/impl/EvictingKVStore.java:50-66 | With limit 3, three distinct keys put in turn all stay, most recent first, and the count is 1, 2, 3. |
| EvictingStore.FourthInsertionEvictsOldest | src/main/java/com/adi/kvstore/impl/EvictingKVStore.java:90-108 | With limit 3, a fourth distinct key evicts exactly the first one, the least recently used. |
| EvictingStore.FourPutsEvictOldest | src/main/java/com/adi/kvstore/impl/EvictingKVStore.java:50-108 | With limit 3, after putting k1..k4 with live TTLs, a get before expiry returns the values of k2, k3 and k4 and misses every other key, k1 included. |

## Left out

- The interfaces `KeyValueStore`, `StorageEngine`, `ExpirationPolicy`, `EvictionPolicy`,
  `MemoryTracker` and `Clock`. The model has no traits. Each store holds the concrete classes
  `ConsoleApp` wires in, and the expiration policy is always the default one (`Expiration.IsExpired`).
- `Clock` and `SystemClock`: the current time is a parameter `now`. The clock-based properties
  assume a non-negative time.
- Concurrency: every call runs alone. The atomicity of `ConcurrentHashMap`, `AtomicInteger` and
  `ConcurrentLinkedDeque`, and the interleavings that could leave duplicate keys in the deque, are
  not modelled.
- `ConcurrentStorage.ConcurrentStorageEngine.EntrySet`: returns a snapshot map, not the live,
  weakly consistent view of `ConcurrentHashMap.entrySet()`. The `ConcurrentHashMap` iteration order
  is not modelled either, and the cleaner's result does not depend on it.
- `BackgroundScheduler`, the v2 constructor's scheduling of the cleaner every 5000 ms, and
  `shutdown()`: threads and timers. One cleaner run is `Cleaner.CleanerTask.Run`.
- `ConsoleApp`: console I/O.
- Java's 64-bit `long` and 32-bit `int` arithmetic: times, TTLs and counters are unbounded
  integers, so there is no overflow of `now + ttlMillis` or of the counter.
- Null keys and values at the stores. They are modelled only at `Entries.Entry.Create` (as
  `Option`); the stores' methods take non-null strings. So the model leaves out:
  - the `IllegalArgumentException` that a put with a null key or a null value throws from `new Entry`
    (Entry.java:15-20, reached from every store's put);
  - v1 `get(null)`, which misses: the `HashMap` accepts a null key, and nothing is ever stored under it;
  - the `NullPointerException` that `ConcurrentHashMap` throws for v2 and v3 `get(null)`.
- `String.isBlank`: whitespace is the fixed set of characters `Character.isWhitespace` accepts.
  Supplementary code points are not modelled separately.

## Findings

| source | as written | input that shows it | evidently intended | confidence | as-written member | corrected member |
|---|---|---|---|---|---|---|
| src/main/java/com/adi/kvstore/impl/EvictingKVStore.java:47 | `put(key, value, expiryTime)` resolves to the same overload `put(String, String, long)`, so every put recurses until the stack overflows. This includes `put(key, value)`, whose line 38 calls that overload with -1. | any call, e.g. `put("k", "v", 1000)` or `put("k", "v")` | call `putInternal(key, value, expiryTime)`, the private method that is otherwise never called | high, not executed | EvictingStore.PutAsWrittenNeverStores | EvictingStore.EvictingKVStore.PutWithTtl |
