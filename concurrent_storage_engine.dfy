/**
 * The storage engine of the v2 and v3 stores (com.adi.kvstore.concurrency.ConcurrentStorageEngine),
 * over a ConcurrentHashMap field; each call is modelled as one atomic step.
 */
module ConcurrentStorage {
  import opened Entries

  class ConcurrentStorageEngine {
    /** The ConcurrentHashMap: key to current entry (the map admits no null keys or entries). */
    var store: map<string, Entry>

    constructor ()
      ensures store == map[]
    {
      store := map[];
    }

    /** put: stores or replaces the entry for the key; every other key keeps its entry. */
    method Put(key: string, entry: Entry)
      modifies this
      ensures store == old(store)[key := entry]
    {
      store := store[key := entry];
    }

    /** get: the current entry, or null when the key is not mapped. */
    method Get(key: string) returns (entry: Entry?)
      ensures entry != null <==> key in store
      ensures entry != null ==> entry == store[key]
    {
      entry := if key in store then store[key] else null;
    }

    /** remove(key): removes the key unconditionally and touches nothing else. */
    method Remove(key: string)
      modifies this
      ensures store == old(store) - {key}
    {
      store := store - {key};
    }

    /**
     * remove(key, expectedEntry): removes the key only while it maps to that very entry object,
     * and reports whether it did; when it did not, the map is entirely unchanged.
     */
    method RemoveMatching(key: string, expectedEntry: Entry) returns (removed: bool)
      modifies this
      ensures removed <==> key in old(store) && old(store)[key] == expectedEntry
      ensures store == if removed then old(store) - {key} else old(store)
    {
      removed := key in store && store[key] == expectedEntry;
      if removed {
        store := store - {key};
      }
    }

    /** entrySet: exactly the current key to entry mappings. */
    method EntrySet() returns (mappings: map<string, Entry>)
      ensures mappings.Keys == store.Keys
      ensures forall key :: key in mappings ==> mappings[key] == store[key]
    {
      mappings := store;
    }
  }
}
