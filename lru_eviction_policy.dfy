/**
 * The approximate LRU eviction policy (com.adi.kvstore.eviction.LRUEvictionPolicy): a deque of keys,
 * most recently used at the front, least recently used at the back.
 */
module LruEviction {
  import opened Wrappers

  /** No key occurs twice. */
  predicate NoDuplicates(s: seq<string>) {
    forall i, j :: 0 <= i < j < |s| ==> s[i] != s[j]
  }

  /** The position of the first occurrence of x. */
  function IndexOf(s: seq<string>, x: string): (i: nat)
    requires x in s
    ensures i < |s| && s[i] == x
    ensures forall j :: 0 <= j < i ==> s[j] != x
  {
    if s[0] == x then 0 else 1 + IndexOf(s[1..], x)
  }

  /** Deque.remove(Object): drops the first occurrence of x, if there is one. */
  function RemoveFirst(s: seq<string>, x: string): (r: seq<string>)
    ensures x !in s ==> r == s
    ensures x in s ==> |r| == |s| - 1
  {
    if s == [] then []
    else if s[0] == x then s[1..]
    else [s[0]] + RemoveFirst(s[1..], x)
  }

  /** Only the first occurrence goes; every other key keeps its place relative to the rest. */
  lemma {:induction false} RemoveFirstSplices(s: seq<string>, x: string)
    requires x in s
    ensures RemoveFirst(s, x) == s[..IndexOf(s, x)] + s[IndexOf(s, x) + 1..]
  {
    if s[0] != x {
      RemoveFirstSplices(s[1..], x);
      assert s[1..][..IndexOf(s[1..], x)] == s[1..IndexOf(s, x)];
      assert s[1..][IndexOf(s[1..], x) + 1..] == s[IndexOf(s, x) + 1..];
    }
  }

  /** A deque without duplicates loses exactly x and keeps every other key. */
  lemma {:induction false} RemoveFirstOfDistinct(s: seq<string>, x: string)
    requires NoDuplicates(s)
    ensures NoDuplicates(RemoveFirst(s, x))
    ensures forall y :: y in RemoveFirst(s, x) <==> y in s && y != x
  {
    if s != [] {
      var tail := s[1..];
      assert NoDuplicates(tail);
      assert s[0] !in tail by {
        forall j | 0 <= j < |tail|
          ensures tail[j] != s[0]
        {
          assert s[j + 1] == tail[j];
        }
      }
      assert forall y :: y in s <==> y == s[0] || y in tail by {
        assert s == [s[0]] + tail;
      }
      if s[0] != x {
        RemoveFirstOfDistinct(tail, x);
        var r := RemoveFirst(tail, x);
        assert RemoveFirst(s, x) == [s[0]] + r;
        forall i, j | 0 <= i < j < |[s[0]] + r|
          ensures ([s[0]] + r)[i] != ([s[0]] + r)[j]
        {
          if i == 0 {
            assert ([s[0]] + r)[j] == r[j - 1];
            assert r[j - 1] in r;
          } else {
            assert ([s[0]] + r)[i] == r[i - 1] && ([s[0]] + r)[j] == r[j - 1];
          }
        }
      }
    }
  }

  /** onAccess(key) for a non-null key: remove its first occurrence, then add it at the front. */
  function Touched(order: seq<string>, key: string): seq<string> {
    [key] + RemoveFirst(order, key)
  }

  /**
   * After onAccess(key) the key is at the front, the deque holds the earlier keys plus this one,
   * and a deque without duplicates still has none.
   */
  lemma TouchedKeepsNoDuplicates(order: seq<string>, key: string)
    requires NoDuplicates(order)
    ensures Touched(order, key)[0] == key
    ensures NoDuplicates(Touched(order, key))
    ensures forall y :: y in Touched(order, key) <==> y in order || y == key
  {
    RemoveFirstOfDistinct(order, key);
  }

  /** The deque after onAccess of each key in turn. */
  function AccessAll(order: seq<string>, keys: seq<string>): seq<string>
    decreases |keys|
  {
    if keys == [] then order else AccessAll(Touched(order, keys[0]), keys[1..])
  }

  /** The candidates that successive selectEvictionCandidate calls return until the deque is empty. */
  function Drain(order: seq<string>): seq<string>
    decreases |order|
  {
    if order == [] then [] else [order[|order| - 1]] + Drain(order[..|order| - 1])
  }

  function Reversed(s: seq<string>): seq<string> {
    if s == [] then [] else Reversed(s[1..]) + [s[0]]
  }

  lemma {:induction false} AccessFreshKeys(order: seq<string>, keys: seq<string>)
    requires NoDuplicates(keys)
    requires forall k :: k in keys ==> k !in order
    ensures AccessAll(order, keys) == Reversed(keys) + order
    decreases |keys|
  {
    if keys != [] {
      assert Touched(order, keys[0]) == [keys[0]] + order;
      assert NoDuplicates(keys[1..]);
      forall k | k in keys[1..]
        ensures k !in [keys[0]] + order
      {
        var j :| 0 <= j < |keys[1..]| && keys[1..][j] == k;
        assert keys[j + 1] == k;
      }
      AccessFreshKeys([keys[0]] + order, keys[1..]);
      assert Reversed(keys[1..]) + ([keys[0]] + order) == (Reversed(keys[1..]) + [keys[0]]) + order;
    }
  }

  lemma {:induction false} DrainReversed(keys: seq<string>)
    ensures Drain(Reversed(keys)) == keys
    decreases |keys|
  {
    if keys != [] {
      var r := Reversed(keys);
      assert r == Reversed(keys[1..]) + [keys[0]];
      assert r[..|r| - 1] == Reversed(keys[1..]);
      DrainReversed(keys[1..]);
      assert keys == [keys[0]] + keys[1..];
    }
  }

  /**
   * Accessing distinct keys k1, ..., kn in that order on an empty deque makes successive eviction
   * candidates come out as k1, k2, ..., kn: least recently used first.
   */
  lemma DistinctAccessesEvictInOrder(keys: seq<string>)
    requires NoDuplicates(keys)
    ensures Drain(AccessAll([], keys)) == keys
  {
    AccessFreshKeys([], keys);
    assert Reversed(keys) + [] == Reversed(keys);
    DrainReversed(keys);
  }

  class LRUEvictionPolicy {
    /** The ConcurrentLinkedDeque of keys, front first. */
    var accessOrder: seq<string>

    constructor ()
      ensures accessOrder == []
    {
      accessOrder := [];
    }

    /** onAccess: a null key is ignored; any other key moves (or is added) to the front. */
    method OnAccess(key: Option<string>)
      modifies this
      ensures key.None? ==> accessOrder == old(accessOrder)
      ensures key.Some? ==> accessOrder == Touched(old(accessOrder), key.value)
    {
      if key.None? {
        return;
      }
      accessOrder := RemoveFirst(accessOrder, key.value);
      accessOrder := [key.value] + accessOrder;
    }

    /**
     * selectEvictionCandidate (pollLast): null on an empty deque, which stays empty; otherwise the
     * back key, which is removed, so the deque is one shorter.
     */
    method SelectEvictionCandidate() returns (candidate: Option<string>)
      modifies this
      ensures old(accessOrder) == [] ==> candidate.None? && accessOrder == []
      ensures old(accessOrder) != [] ==>
        && candidate == Some(old(accessOrder)[|old(accessOrder)| - 1])
        && accessOrder == old(accessOrder)[..|old(accessOrder)| - 1]
    {
      if accessOrder == [] {
        return None;
      }
      candidate := Some(accessOrder[|accessOrder| - 1]);
      accessOrder := accessOrder[..|accessOrder| - 1];
    }
  }
}
