/** The single-threaded storage engine (com.adi.kvstore.core.InMemoryStorageEngine) over a HashMap field. */
module InMemoryStorage {
  import opened Entries

  class InMemoryStorageEngine {
    /** The HashMap: key to current entry. Entries are never null, since every caller stores a new Entry. */
    var store: map<string, Entry>

    constructor ()
      ensures store == map[]
    {
      store := map[];
    }

    /** put: maps key to entry, replacing any earlier entry and leaving every other key as it was. */
    method Put(key: string, entry: Entry)
      modifies this
      ensures store == old(store)[key := entry]
    {
      store := store[key := entry];
    }

    /** get: the current entry, or null when the key is not mapped. */
    method Get(key: string) returns (entry: Entry?)
      ensures entry != null <==> key in store
      ensures entry != null ==> entry == store[key]
    {
      entry := if key in store then store[key] else null;
    }

    /** remove: afterwards the key is unmapped; an absent key leaves the map as it was. */
    method Remove(key: string)
      modifies this
      ensures store == old(store) - {key}
      ensures key !in old(store) ==> store == old(store)
    {
      store := store - {key};
    }

    /** containsKey: whether the key is mapped, which is exactly when get returns an entry. */
    method ContainsKey(key: string) returns (contained: bool)
      ensures contained <==> key in store
    {
      contained := key in store;
    }
  }
}
