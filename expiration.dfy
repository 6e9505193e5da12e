/** The default TTL expiration policy (com.adi.kvstore.expiration.DefaultExpirationPolicy). */
module Expiration {
  import opened Entries

  /** isExpired(entry, currentTime): an entry without expiry never expires; otherwise from its expiry time on. */
  predicate IsExpired(entry: Entry, currentTime: int) {
    if !entry.HasExpiry() then false else currentTime >= entry.expiryTime
  }

  /** An entry without expiry (the -1 sentinel or any negative time) is live at every time. */
  lemma NeverExpiresWithoutExpiry(entry: Entry, currentTime: int)
    requires !entry.HasExpiry()
    ensures !IsExpired(entry, currentTime)
  {
  }

  /** The boundary is inclusive: an entry is already expired at its own expiry time. */
  lemma ExpiredAtExpiryTime(entry: Entry)
    requires entry.HasExpiry()
    ensures IsExpired(entry, entry.expiryTime)
    ensures forall t :: t < entry.expiryTime ==> !IsExpired(entry, t)
  {
  }

  /** Once expired, an entry stays expired at every later time. */
  lemma ExpiryIsMonotone(entry: Entry, t: int, later: int)
    requires t <= later && IsExpired(entry, t)
    ensures IsExpired(entry, later)
  {
  }

  /** The verdict reads only the expiry time, never the key or the value. */
  lemma DependsOnlyOnExpiryTime(a: Entry, b: Entry, currentTime: int)
    requires a.expiryTime == b.expiryTime
    ensures IsExpired(a, currentTime) == IsExpired(b, currentTime)
  {
  }
}
