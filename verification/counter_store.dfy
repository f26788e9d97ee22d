/**
 The external key-to-counter store the activity service keeps its statistics
 in, reduced to the three primitives the service uses: read a counter (an
 absent key reads as zero), increment a counter by one (an absent key starts
 from zero), and clear every key. A store is an immutable finite map; each
 primitive returns the new store.
 */
module CounterStore {

  type Store = map<string, nat>

  /** The store before anything was counted, and after every flush. */
  const EMPTY: Store := map[]

  /** Reads a counter; a key that was never incremented reads as 0. */
  function Get(s: Store, k: string): (r: nat)
    ensures k in s ==> r == s[k]
    ensures k !in s ==> r == 0
  {
    if k in s then s[k] else 0
  }

  /** Atomic increment by one: `k` is created if absent, no other key changes. */
  function Incr(s: Store, k: string): (r: Store)
    ensures Get(r, k) == Get(s, k) + 1
    ensures r.Keys == s.Keys + {k}
    ensures forall k' :: k' != k ==> Get(r, k') == Get(s, k')
  {
    s[k := Get(s, k) + 1]
  }

  /** Removes every key, whatever the store held. */
  function Flush(s: Store): (r: Store)
    ensures |r| == 0
    ensures forall k :: Get(r, k) == 0
  {
    EMPTY
  }

  /** `s2` holds every counter of `s1` at the same or a higher value. */
  ghost predicate Dominates(s2: Store, s1: Store)
  {
    forall k :: Get(s1, k) <= Get(s2, k)
  }

  /** No key occurs twice in `keys`. */
  predicate Distinct(keys: seq<string>)
  {
    forall i, j :: 0 <= i < j < |keys| ==> keys[i] != keys[j]
  }

  /** The sum of the counters read for `keys`, a key listed twice counted twice. */
  function SumOf(s: Store, keys: seq<string>): nat
  {
    if |keys| == 0 then 0 else Get(s, keys[0]) + SumOf(s, keys[1..])
  }

  /** Every sum over the empty store is zero. */
  lemma {:induction false} SumOfEmpty(keys: seq<string>)
    ensures SumOf(EMPTY, keys) == 0
  {
    if |keys| > 0 {
      SumOfEmpty(keys[1..]);
    }
  }

  /** Incrementing `k` raises a sum by the number of times `k` is listed. */
  lemma {:induction false} SumOfIncr(s: Store, k: string, keys: seq<string>)
    ensures SumOf(Incr(s, k), keys) == SumOf(s, keys) + multiset(keys)[k]
  {
    if |keys| > 0 {
      SumOfIncr(s, k, keys[1..]);
      assert keys == [keys[0]] + keys[1..];
      assert multiset(keys) == multiset{keys[0]} + multiset(keys[1..]);
    }
  }

  /** A key of a list without repetitions is listed at most once, and exactly once if present. */
  lemma {:induction false} DistinctCount(keys: seq<string>, k: string)
    requires Distinct(keys)
    ensures multiset(keys)[k] == if k in keys then 1 else 0
  {
    if |keys| > 0 {
      var t := keys[1..];
      assert Distinct(t) by {
        forall i, j | 0 <= i < j < |t|
          ensures t[i] != t[j]
        {
          assert t[i] == keys[i + 1] && t[j] == keys[j + 1];
        }
      }
      DistinctCount(t, k);
      assert keys == [keys[0]] + t;
      assert multiset(keys) == multiset{keys[0]} + multiset(t);
      if keys[0] == k {
        assert k !in t by {
          forall j | 0 <= j < |t|
            ensures t[j] != k
          {
            assert t[j] == keys[j + 1];
          }
        }
      }
    }
  }

  /**
   Two increments raise a sum over a list without repetitions by the number of
   incremented keys it lists.
   */
  lemma SumOfIncrTwice(s: Store, k1: string, k2: string, keys: seq<string>)
    requires Distinct(keys)
    ensures SumOf(Incr(Incr(s, k1), k2), keys)
            == SumOf(s, keys) + (if k1 in keys then 1 else 0) + (if k2 in keys then 1 else 0)
  {
    SumOfIncr(s, k1, keys);
    SumOfIncr(Incr(s, k1), k2, keys);
    DistinctCount(keys, k1);
    DistinctCount(keys, k2);
  }
}
