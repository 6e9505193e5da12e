/**
 * The v3 store (com.adi.kvstore.impl.EvictingKVStore): TTL handling plus LRU eviction against an
 * entry counter, composed of a ConcurrentStorageEngine, an LRUEvictionPolicy and a
 * SimpleMemoryTracker. Calls are modelled one at a time; the clock is the parameter now.
 */
module EvictingStore {
  import opened Wrappers
  import opened Entries
  import opened Expiration
  import opened Ttl
  import opened ConcurrentStorage
  import opened LruEviction
  import opened MemoryTracking

  /** What the store's three parts hold: the storage map, the access-order deque and the counter. */
  datatype EvictionState = EvictionState(store: map<string, Entry>, order: seq<string>, count: int)

  /**
   * The sequential invariant: the counter equals the number of stored keys, the deque has no
   * duplicates, and every stored key is in the deque.
   */
  ghost predicate Consistent(st: EvictionState) {
    && st.count == |st.store.Keys|
    && NoDuplicates(st.order)
    && forall key :: key in st.store ==> key in st.order
  }

  /**
   * One pass of evictIfNeeded's loop once the limit is exceeded: poll the back key; a key no longer
   * stored is skipped without touching the counter; a stored one, expired or not, is removed and
   * the counter decremented.
   */
  function Polled(st: EvictionState): (r: EvictionState)
    requires st.order != []
    ensures r.order == st.order[..|st.order| - 1]
  {
    var key := st.order[|st.order| - 1];
    var rest := st.order[..|st.order| - 1];
    if key in st.store then EvictionState(st.store - {key}, rest, st.count - 1)
    else EvictionState(st.store, rest, st.count)
  }

  /**
   * The state evictIfNeeded leaves: passes run while the counter exceeds maxEntries and the deque
   * is not empty.
   */
  function Evicted(st: EvictionState, maxEntries: int): EvictionState
    decreases |st.order|
  {
    if st.count <= maxEntries || st.order == [] then st else Evicted(Polled(st), maxEntries)
  }

  /**
   * Only keys polled from the back leave the deque, so what is left is a prefix of it, and the
   * storage map loses keys but never changes an entry.
   */
  lemma {:induction false} EvictionOnlyRemoves(st: EvictionState, maxEntries: int)
    ensures |Evicted(st, maxEntries).order| <= |st.order|
    ensures Evicted(st, maxEntries).order == st.order[..|Evicted(st, maxEntries).order|]
    ensures forall key :: key in Evicted(st, maxEntries).store ==>
      key in st.store && Evicted(st, maxEntries).store[key] == st.store[key]
    decreases |st.order|
  {
    if st.count > maxEntries && st.order != [] {
      var p := Polled(st);
      EvictionOnlyRemoves(p, maxEntries);
      var r := Evicted(p, maxEntries);
      assert p.order[..|r.order|] == st.order[..|r.order|];
    }
  }

  /** The state after putInternal's storage put, counter update and onAccess, before eviction. */
  function Inserted(st: EvictionState, key: string, entry: Entry): EvictionState {
    EvictionState(
      st.store[key := entry],
      Touched(st.order, key),
      if key in st.store then st.count else st.count + 1)
  }

  /** Dropping the back of a deque without duplicates leaves one without duplicates. */
  lemma NoDuplicatesInFront(s: seq<string>)
    requires NoDuplicates(s) && s != []
    ensures NoDuplicates(s[..|s| - 1])
  {
    var rest := s[..|s| - 1];
    forall i, j | 0 <= i < j < |rest|
      ensures rest[i] != rest[j]
    {
      assert rest[i] == s[i] && rest[j] == s[j];
    }
  }

  /** Every key of a set that occurs in s, other than s's back element, occurs in the front part. */
  lemma InFrontUnlessLast(keys: set<string>, s: seq<string>)
    requires s != [] && forall key :: key in keys ==> key in s
    ensures forall key :: key in keys && key != s[|s| - 1] ==> key in s[..|s| - 1]
  {
    var n := |s|;
    forall k | k in keys && k != s[n - 1]
      ensures k in s[..n - 1]
    {
      var i :| 0 <= i < n && s[i] == k;
      assert s[..n - 1][i] == k;
    }
  }

  /** Removing a stored key shrinks the key set by exactly one. */
  lemma RemovedKeyCount(m: map<string, Entry>, key: string)
    requires key in m
    ensures (m - {key}).Keys == m.Keys - {key}
    ensures |(m - {key}).Keys| == |m.Keys| - 1
  {
    assert m.Keys == (m.Keys - {key}) + {key};
  }

  /** One pass of evictIfNeeded keeps the invariant. */
  lemma PollKeepsConsistent(st: EvictionState)
    requires Consistent(st) && st.order != []
    ensures Consistent(Polled(st))
  {
    var key := st.order[|st.order| - 1];
    NoDuplicatesInFront(st.order);
    InFrontUnlessLast(st.store.Keys, st.order);
    if key in st.store {
      RemovedKeyCount(st.store, key);
    }
  }

  /** A set of keys that all occur in a sequence has no more members than the sequence has elements. */
  lemma {:induction false} KeysWithinSeq(keys: set<string>, s: seq<string>)
    requires forall key :: key in keys ==> key in s
    ensures |keys| <= |s|
    decreases |s|
  {
    if s != [] {
      forall key | key in keys - {s[0]}
        ensures key in s[1..]
      {
        var i :| 0 <= i < |s| && s[i] == key;
        assert s[1..][i - 1] == key;
      }
      KeysWithinSeq(keys - {s[0]}, s[1..]);
    }
  }

  /** Under the invariant the counter never exceeds the length of the deque. */
  lemma CountWithinOrder(st: EvictionState)
    requires Consistent(st)
    ensures st.count <= |st.order|
  {
    KeysWithinSeq(st.store.Keys, st.order);
  }

  /** Eviction keeps the invariant and brings the counter within the limit. */
  lemma {:induction false} EvictionKeepsConsistent(st: EvictionState, maxEntries: int)
    requires Consistent(st) && maxEntries >= 0
    ensures Consistent(Evicted(st, maxEntries))
    ensures Evicted(st, maxEntries).count <= maxEntries
    decreases |st.order|
  {
    if st.order == [] {
      assert st.store.Keys == {};
    } else if st.count > maxEntries {
      PollKeepsConsistent(st);
      EvictionKeepsConsistent(Polled(st), maxEntries);
    }
  }

  /**
   * Eviction removes exactly the stored keys among those it polled from the back of the deque:
   * a key stays stored iff it was stored and is still in the deque that is left.
   */
  lemma {:induction false} EvictionRemovesPolled(st: EvictionState, maxEntries: int)
    requires Consistent(st)
    ensures forall key :: key in Evicted(st, maxEntries).store <==> key in st.store && key in Evicted(st, maxEntries).order
    decreases |st.order|
  {
    if st.order != [] && st.count > maxEntries {
      var key := st.order[|st.order| - 1];
      var rest := st.order[..|st.order| - 1];
      PollKeepsConsistent(st);
      EvictionRemovesPolled(Polled(st), maxEntries);
      EvictionOnlyRemoves(Polled(st), maxEntries);
      var r := Evicted(Polled(st), maxEntries);
      forall k | k in r.order
        ensures k != key
      {
        var i :| 0 <= i < |r.order| && r.order[i] == k;
        assert rest[i] == k;
      }
    }
  }

  /** Eviction never removes the front key (the one just put or read) while the limit is positive. */
  lemma {:induction false} EvictionSparesMostRecent(st: EvictionState, maxEntries: int)
    requires Consistent(st) && maxEntries >= 1
    requires st.order != [] && st.order[0] in st.store
    ensures st.order[0] in Evicted(st, maxEntries).store
    ensures Evicted(st, maxEntries).store[st.order[0]] == st.store[st.order[0]]
    decreases |st.order|
  {
    if st.count > maxEntries {
      CountWithinOrder(st);
      assert st.order[|st.order| - 1] != st.order[0];
      PollKeepsConsistent(st);
      assert Polled(st).order[0] == st.order[0];
      EvictionSparesMostRecent(Polled(st), maxEntries);
    }
  }

  /** putInternal's storage put, counter update and onAccess keep the invariant. */
  lemma InsertKeepsConsistent(st: EvictionState, key: string, entry: Entry)
    requires Consistent(st)
    ensures Consistent(Inserted(st, key, entry))
    ensures Inserted(st, key, entry).order[0] == key
  {
    TouchedKeepsNoDuplicates(st.order, key);
    if key !in st.store {
      assert Inserted(st, key, entry).store.Keys == st.store.Keys + {key};
    } else {
      assert Inserted(st, key, entry).store.Keys == st.store.Keys;
    }
  }

  /**
   * A put keeps the invariant and leaves at most maxEntries keys, the new entry stored under its
   * key; an overwrite does not count the key twice.
   */
  lemma PutSound(st: EvictionState, key: string, entry: Entry, maxEntries: int)
    requires Consistent(st) && maxEntries >= 1
    ensures var r := Evicted(Inserted(st, key, entry), maxEntries);
      && Consistent(r)
      && r.count <= maxEntries
      && |r.store.Keys| <= maxEntries
      && key in r.store && r.store[key] == entry
  {
    var mid := Inserted(st, key, entry);
    InsertKeepsConsistent(st, key, entry);
    EvictionKeepsConsistent(mid, maxEntries);
    EvictionSparesMostRecent(mid, maxEntries);
  }

  /** Removing an expired stored key and decrementing the counter keeps the invariant. */
  lemma ExpiredRemovalSound(st: EvictionState, key: string)
    requires Consistent(st) && key in st.store
    ensures Consistent(EvictionState(st.store - {key}, st.order, st.count - 1))
  {
    RemovedKeyCount(st.store, key);
  }

  class EvictingKVStore {
    const storageEngine: ConcurrentStorageEngine
    const evictionPolicy: LRUEvictionPolicy
    const memoryTracker: SimpleMemoryTracker

    ghost function State(): EvictionState
      reads storageEngine, evictionPolicy, memoryTracker
    {
      EvictionState(storageEngine.store, evictionPolicy.accessOrder, memoryTracker.currentEntries)
    }

    /** The object invariant: a positive limit, the sequential invariant, and no more keys than the limit. */
    ghost predicate Valid()
      reads storageEngine, evictionPolicy, memoryTracker
    {
      && memoryTracker.maxEntries > 0
      && Consistent(State())
      && memoryTracker.currentEntries <= memoryTracker.maxEntries
    }

    /** Put finished: the key holds a new entry with these fields and the state is the evicted insertion. */
    ghost predicate PutDone(before: EvictionState, key: string, value: string, expiryTime: int)
      reads storageEngine, evictionPolicy, memoryTracker
    {
      && key in storageEngine.store
      && storageEngine.store[key].key == key
      && storageEngine.store[key].value == value
      && storageEngine.store[key].expiryTime == expiryTime
      && State() == Evicted(Inserted(before, key, storageEngine.store[key]), memoryTracker.maxEntries)
    }

    /**
     * The parts must agree with one another: fresh ones (empty storage, empty deque, counter 0) do,
     * and the store must own them, since a change behind its back would break the invariant.
     */
    constructor (storageEngine: ConcurrentStorageEngine, evictionPolicy: LRUEvictionPolicy, memoryTracker: SimpleMemoryTracker)
      requires memoryTracker.maxEntries > 0
      requires memoryTracker.currentEntries <= memoryTracker.maxEntries
      requires Consistent(EvictionState(storageEngine.store, evictionPolicy.accessOrder, memoryTracker.currentEntries))
      ensures this.storageEngine == storageEngine
      ensures this.evictionPolicy == evictionPolicy
      ensures this.memoryTracker == memoryTracker
      ensures Valid()
    {
      this.storageEngine := storageEngine;
      this.evictionPolicy := evictionPolicy;
      this.memoryTracker := memoryTracker;
    }

    /**
     * put(key, value) passes ttl -1, which put(key, value, ttl) maps to the expiry time now, so
     * an entry put without TTL is already expired for a get at the same or a later time.
     */
    method Put(key: string, value: string, now: int) returns (r: Outcome<EntryError>)
      requires Valid()
      modifies storageEngine, evictionPolicy, memoryTracker
      ensures Valid()
      ensures r.Fail? <==> IsBlank(key)
      ensures r.Fail? ==> r.error == KeyNullOrBlank && State() == old(State())
      ensures r.Pass? ==> PutDone(old(State()), key, value, now) && fresh(storageEngine.store[key])
    {
      r := PutWithTtl(key, value, -1, now);
    }

    /** put(key, value, ttlMillis): putInternal with the expiry ExpiryFor(now, ttlMillis). */
    method PutWithTtl(key: string, value: string, ttlMillis: int, now: int) returns (r: Outcome<EntryError>)
      requires Valid()
      modifies storageEngine, evictionPolicy, memoryTracker
      ensures Valid()
      ensures r.Fail? <==> IsBlank(key)
      ensures r.Fail? ==> r.error == KeyNullOrBlank && State() == old(State())
      ensures r.Pass? ==>
        PutDone(old(State()), key, value, ExpiryFor(now, ttlMillis)) && fresh(storageEngine.store[key])
    {
      var expiryTime := if ttlMillis <= 0 then now else now + ttlMillis;
      // The source calls put(key, value, expiryTime) here, which names this very overload and so
      // recurses without end (see PutAsWritten); the model calls putInternal, the evident intent.
      r := PutInternal(key, value, expiryTime);
    }

    /**
     * putInternal: a blank key is rejected with nothing changed. Otherwise the new entry replaces
     * the key's entry, the counter grows only for a key not stored before, the key moves to the
     * front of the deque, and eviction runs; the new entry survives it and at most maxEntries keys remain.
     */
    method PutInternal(key: string, value: string, expiryTime: int) returns (r: Outcome<EntryError>)
      requires Valid()
      modifies storageEngine, evictionPolicy, memoryTracker
      ensures Valid()
      ensures r.Fail? <==> IsBlank(key)
      ensures r.Fail? ==> r.error == KeyNullOrBlank && State() == old(State())
      ensures r.Pass? ==> PutDone(old(State()), key, value, expiryTime) && fresh(storageEngine.store[key])
      ensures |storageEngine.store.Keys| <= memoryTracker.maxEntries
    {
      var created := Entry.Create(Some(key), Some(value), expiryTime);
      if created.Failure? {
        return Fail(created.error);
      }
      var newEntry := created.value;
      ghost var before := State();

      var existing := storageEngine.Get(key);
      storageEngine.Put(key, newEntry);
      if existing == null {
        memoryTracker.Increment();  // only a new key is counted
      }
      evictionPolicy.OnAccess(Some(key));
      assert storageEngine.store == before.store[key := newEntry];
      assert memoryTracker.currentEntries == if key in before.store then before.count else before.count + 1;
      assert State() == Inserted(before, key, newEntry);

      PutSound(before, key, newEntry, memoryTracker.maxEntries);
      EvictIfNeeded();
      assert State() == Evicted(Inserted(before, key, newEntry), memoryTracker.maxEntries);
      r := Pass;
    }

    /**
     * get(key): a miss with nothing changed for an unmapped key. An entry expired at now is removed,
     * the counter drops by one, the deque is untouched and the result is a miss. A live entry's value
     * is returned and the key moves to the front of the deque.
     */
    method Get(key: string, now: int) returns (value: Option<string>)
      requires Valid()
      modifies storageEngine, evictionPolicy, memoryTracker
      ensures Valid()
      ensures key !in old(storageEngine.store) ==> value.None? && State() == old(State())
      ensures key in old(storageEngine.store) && IsExpired(old(storageEngine.store)[key], now) ==>
        && value.None?
        && State() == EvictionState(old(storageEngine.store) - {key}, old(evictionPolicy.accessOrder),
                                    old(memoryTracker.currentEntries) - 1)
      ensures key in old(storageEngine.store) && !IsExpired(old(storageEngine.store)[key], now) ==>
        && value == Some(old(storageEngine.store)[key].value)
        && State() == EvictionState(old(storageEngine.store), Touched(old(evictionPolicy.accessOrder), key),
                                    old(memoryTracker.currentEntries))
    {
      ghost var before := State();
      var entry := storageEngine.Get(key);
      if entry == null {
        return None;
      }
      if IsExpired(entry, now) {
        // expiration wins over eviction
        var removed := storageEngine.RemoveMatching(key, entry);
        if removed {
          memoryTracker.Decrement();
        }
        ExpiredRemovalSound(before, key);
        return None;
      }
      evictionPolicy.OnAccess(Some(key));
      TouchedKeepsNoDuplicates(before.order, key);
      value := Some(entry.value);
    }

    /**
     * evictIfNeeded: while the counter exceeds the limit, poll a candidate; stop when there is none;
     * skip a key no longer stored; otherwise remove its current entry and decrement. Each pass polls
     * one key from the deque, so the loop ends.
     */
    method EvictIfNeeded()
      requires memoryTracker.maxEntries > 0
      modifies storageEngine, evictionPolicy, memoryTracker
      ensures State() == Evicted(old(State()), memoryTracker.maxEntries)
    {
      while true
        invariant Evicted(State(), memoryTracker.maxEntries) == Evicted(old(State()), memoryTracker.maxEntries)
        decreases |evictionPolicy.accessOrder|
      {
        var exceeded := memoryTracker.IsLimitExceeded();
        if !exceeded {
          return;
        }
        var candidateKey := evictionPolicy.SelectEvictionCandidate();
        if candidateKey.None? {
          return;
        }
        var candidate := storageEngine.Get(candidateKey.value);
        if candidate == null {
          continue;
        }
        // expired entries are not skipped: they are evicted like any other
        var removed := storageEngine.RemoveMatching(candidateKey.value, candidate);
        if removed {
          memoryTracker.Decrement();
        }
      }
    }
  }

  /** The outcome of the public put(key, value, ttlMillis) as written. */
  datatype PutCall = StackOverflow | ReachedPutInternal(expiryTime: int)

  /**
   * put(key, value, ttlMillis) as written: it computes an expiry and calls put(key, value, expiryTime),
   * which is the same overload again; depth is the stack left for further activations.
   */
  function PutAsWritten(ttlMillis: int, now: int, depth: nat): PutCall
    decreases depth
  {
    if depth == 0 then StackOverflow
    else
      var expiryTime := if ttlMillis <= 0 then now else now + ttlMillis;
      PutAsWritten(expiryTime, now, depth - 1)
  }

  /** As written, every put overflows the stack and putInternal is never reached, whatever the stack depth. */
  lemma {:induction false} PutAsWrittenNeverStores(ttlMillis: int, now: int, depth: nat)
    ensures PutAsWritten(ttlMillis, now, depth) == StackOverflow
    decreases depth
  {
    if depth > 0 {
      PutAsWrittenNeverStores(if ttlMillis <= 0 then now else now + ttlMillis, now, depth - 1);
    }
  }

  /** A store over fresh parts with the given limit. */
  method NewStore(maxEntries: int) returns (store: EvictingKVStore)
    requires maxEntries > 0
    ensures fresh(store) && fresh(store.storageEngine) && fresh(store.evictionPolicy) && fresh(store.memoryTracker)
    ensures store.Valid() && store.memoryTracker.maxEntries == maxEntries
    ensures store.State() == EvictionState(map[], [], 0)
  {
    var engine := new ConcurrentStorageEngine();
    var policy := new LRUEvictionPolicy();
    var tracker := new SimpleMemoryTracker(maxEntries);
    store := new EvictingKVStore(engine, policy, tracker);
  }

  /**
   * With line 38's ttl -1 kept and line 47 corrected, put(key, value) without TTL stores an entry
   * that expires at once: with a non-negative clock, get at the same or a later time is a miss and
   * removes it again.
   */
  method PutWithoutTtlIsMiss(maxEntries: int, key: string, value: string, now: int, later: int)
    returns (got: Option<string>, count: int)
    requires maxEntries > 0 && !IsBlank(key) && now >= 0 && later >= now
    ensures got.None? && count == 0
  {
    var store := NewStore(maxEntries);
    var r := store.Put(key, value, now);
    PutSound(EvictionState(map[], [], 0), key, store.storageEngine.store[key], maxEntries);
    got := store.Get(key, later);
    count := store.memoryTracker.GetCurrentEntries();
  }

  /** With limit 3, three distinct keys put with no reads between all stay, most recent first. */
  lemma ThreeInsertionsKeepAll(k1: string, k2: string, k3: string, e1: Entry, e2: Entry, e3: Entry)
    requires k1 != k2 && k1 != k3 && k2 != k3
    ensures Evicted(Inserted(EvictionState(map[], [], 0), k1, e1), 3)
      == EvictionState(map[k1 := e1], [k1], 1)
    ensures Evicted(Inserted(EvictionState(map[k1 := e1], [k1], 1), k2, e2), 3)
      == EvictionState(map[k1 := e1, k2 := e2], [k2, k1], 2)
    ensures Evicted(Inserted(EvictionState(map[k1 := e1, k2 := e2], [k2, k1], 2), k3, e3), 3)
      == EvictionState(map[k1 := e1, k2 := e2, k3 := e3], [k3, k2, k1], 3)
  {
    assert RemoveFirst([k1], k2) == [k1];
    assert RemoveFirst([k2, k1], k3) == [k2, k1];
  }

  /** A fourth distinct key then evicts exactly k1, the least recently used. */
  lemma FourthInsertionEvictsOldest(k1: string, k2: string, k3: string, k4: string,
                                    e1: Entry, e2: Entry, e3: Entry, e4: Entry)
    requires k1 != k2 && k1 != k3 && k1 != k4 && k2 != k3 && k2 != k4 && k3 != k4
    ensures Evicted(Inserted(EvictionState(map[k1 := e1, k2 := e2, k3 := e3], [k3, k2, k1], 3), k4, e4), 3)
      == EvictionState(map[k2 := e2, k3 := e3, k4 := e4], [k4, k3, k2], 3)
  {
    var s3 := EvictionState(map[k1 := e1, k2 := e2, k3 := e3], [k3, k2, k1], 3);
    var full := map[k1 := e1, k2 := e2, k3 := e3, k4 := e4];
    assert RemoveFirst([k3, k2, k1], k4) == [k3, k2, k1];
    var s4 := EvictionState(full, [k4, k3, k2, k1], 4);
    assert Inserted(s3, k4, e4) == s4;
    var left := EvictionState(map[k2 := e2, k3 := e3, k4 := e4], [k4, k3, k2], 3);
    assert full - {k1} == left.store;
    assert Polled(s4) == left;
  }

  /** Puts k1, k2, k3 with values a, b, c and a 1000 ms TTL into a fresh store with limit 3. */
  method PutThreeKeys(now: int) returns (store: EvictingKVStore, ghost e1: Entry, ghost e2: Entry, ghost e3: Entry)
    requires now >= 0
    ensures fresh(store) && fresh(store.storageEngine) && fresh(store.evictionPolicy) && fresh(store.memoryTracker)
    ensures store.Valid() && store.memoryTracker.maxEntries == 3
    ensures store.State() == EvictionState(map["k1" := e1, "k2" := e2, "k3" := e3], ["k3", "k2", "k1"], 3)
    ensures e2.value == "b" && e2.expiryTime == now + 1000
    ensures e3.value == "c" && e3.expiryTime == now + 1000
  {
    store := NewStore(3);
    assert !IsWhitespace("k1"[0]) && !IsWhitespace("k2"[0]) && !IsWhitespace("k3"[0]);
    var r1 := store.PutWithTtl("k1", "a", 1000, now);
    e1 := store.storageEngine.store["k1"];
    ThreeInsertionsKeepAll("k1", "k2", "k3", e1, e1, e1);
    var r2 := store.PutWithTtl("k2", "b", 1000, now);
    e2 := store.storageEngine.store["k2"];
    ThreeInsertionsKeepAll("k1", "k2", "k3", e1, e2, e2);
    var r3 := store.PutWithTtl("k3", "c", 1000, now);
    e3 := store.storageEngine.store["k3"];
    ThreeInsertionsKeepAll("k1", "k2", "k3", e1, e2, e3);
  }

  /** Then puts k4 with value d: k1 is evicted, and k2, k3, k4 stay stored with their entries. */
  method PutFourKeys(now: int) returns (store: EvictingKVStore, ghost e2: Entry, ghost e3: Entry, ghost e4: Entry)
    requires now >= 0
    ensures fresh(store) && fresh(store.storageEngine) && fresh(store.evictionPolicy) && fresh(store.memoryTracker)
    ensures store.Valid()
    ensures store.storageEngine.store == map["k2" := e2, "k3" := e3, "k4" := e4]
    ensures e2.value == "b" && e2.expiryTime == now + 1000
    ensures e3.value == "c" && e3.expiryTime == now + 1000
    ensures e4.value == "d" && e4.expiryTime == now + 1000
  {
    ghost var e1;
    store, e1, e2, e3 := PutThreeKeys(now);
    assert !IsWhitespace("k4"[0]);
    var r4 := store.PutWithTtl("k4", "d", 1000, now);
    e4 := store.storageEngine.store["k4"];
    FourthInsertionEvictsOldest("k1", "k2", "k3", "k4", e1, e2, e3, e4);
  }

  /**
   * With limit 3, putting k1, k2, k3, k4 (1000 ms TTLs, no reads between) evicts exactly k1, the
   * least recently used: a get at any time before the TTLs run out finds k2, k3 and k4 with their
   * values and misses every other key, k1 included.
   */
  method FourPutsEvictOldest(now: int, t: int, key: string) returns (got: Option<string>)
    requires 0 <= now <= t < now + 1000
    ensures got == if key == "k2" then Some("b") else if key == "k3" then Some("c")
                   else if key == "k4" then Some("d") else None
  {
    var store, e2, e3, e4 := PutFourKeys(now);
    assert !IsExpired(e2, t) && !IsExpired(e3, t) && !IsExpired(e4, t);
    ghost var m := store.storageEngine.store;
    assert key in m <==> key == "k2" || key == "k3" || key == "k4";
    assert key in m ==> m[key].value == (if key == "k2" then "b" else if key == "k3" then "c" else "d");
    assert key in m ==> !IsExpired(m[key], t);
    got := store.Get(key, t);
  }
}
