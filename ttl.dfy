/**
 * The expiry-time computation the three stores share: a relative TTL in milliseconds becomes an
 * absolute expiry time, and a TTL that is not positive expires the entry at once.
 */
module Ttl {
  import opened Entries
  import opened Expiration

  /** The expiry time put(key, value, ttlMillis) gives the new entry at clock time now. */
  function ExpiryFor(now: int, ttlMillis: int): (expiryTime: int)
    ensures expiryTime >= now
    ensures expiryTime == now <==> ttlMillis <= 0
    ensures ttlMillis > 0 ==> expiryTime - now == ttlMillis
  {
    if ttlMillis <= 0 then now else now + ttlMillis
  }

  /**
   * With a clock that reads a non-negative time, an entry put at now with ttlMillis is live at time t
   * exactly when the TTL is positive and t is before now + ttlMillis; so a TTL that is not positive
   * makes the entry expired from now on.
   */
  lemma LiveWindow(entry: Entry, now: int, ttlMillis: int, t: int)
    requires now >= 0 && t >= now
    requires entry.expiryTime == ExpiryFor(now, ttlMillis)
    ensures !IsExpired(entry, t) <==> ttlMillis > 0 && t < now + ttlMillis
  {
  }
}
