/**
 * The cache entry (com.adi.kvstore.core.Entry): an immutable key, value and absolute expiry time.
 * A negative expiry time is the "never expires" sentinel; the stores use -1.
 */
module Entries {
  import opened Wrappers

  /**
   * The characters java.lang.Character.isWhitespace accepts: the Unicode space, line and paragraph
   * separators except the three non-breaking spaces (U+00A0, U+2007, U+202F), plus U+0009..U+000D
   * and U+001C..U+001F. All of them lie in the Basic Multilingual Plane.
   */
  predicate IsWhitespace(c: char) {
    || ('\U{0009}' <= c <= '\U{000D}')
    || ('\U{001C}' <= c <= '\U{0020}')
    || c == '\U{1680}'
    || ('\U{2000}' <= c <= '\U{2006}')
    || ('\U{2008}' <= c <= '\U{200A}')
    || c == '\U{2028}' || c == '\U{2029}' || c == '\U{205F}' || c == '\U{3000}'
  }

  /** String.isBlank: the string is empty or holds only whitespace. */
  predicate IsBlank(s: string) {
    forall i :: 0 <= i < |s| ==> IsWhitespace(s[i])
  }

  /** The two IllegalArgumentExceptions the Entry constructor throws. */
  datatype EntryError = KeyNullOrBlank | ValueNull

  /**
   * An entry. The fields are constants, so an Entry never changes after construction, and two
   * entries are the same entry only when they are the same object (Entry does not override equals).
   */
  class Entry {
    const key: string
    const value: string
    const expiryTime: int

    /** Allocation once the checks of Create have passed. */
    constructor (key: string, value: string, expiryTime: int)
      requires !IsBlank(key)
      ensures this.key == key && this.value == value && this.expiryTime == expiryTime
    {
      this.key := key;
      this.value := value;
      this.expiryTime := expiryTime;
    }

    /** The entry carries an expiry time; -1 (any negative value) means no expiration, 0 is an expiry. */
    predicate HasExpiry() {
      expiryTime >= 0
    }

    /**
     * new Entry(key, value, expiryTime): rejects a null or blank key first, then a null value;
     * otherwise a new entry whose getters return exactly the arguments.
     */
    static method Create(key: Option<string>, value: Option<string>, expiryTime: int)
      returns (r: Result<Entry, EntryError>)
      ensures r.Failure? <==> key.None? || IsBlank(key.value) || value.None?
      ensures r.Failure? ==>
        r.error == if key.None? || IsBlank(key.value) then KeyNullOrBlank else ValueNull
      ensures r.Success? ==>
        && fresh(r.value)
        && r.value.key == key.value && r.value.value == value.value
        && r.value.expiryTime == expiryTime
    {
      if key.None? || IsBlank(key.value) {
        return Failure(KeyNullOrBlank);
      }
      if value.None? {
        return Failure(ValueNull);
      }
      var entry := new Entry(key.value, value.value, expiryTime);
      r := Success(entry);
    }
  }
}
