/** src/memoize.js: a wrapper that caches a function's results, keyed by a
    serialisation of the argument list. The serialisation (`JSON.stringify`
    in the source) is the parameter `key`. */
module Memoize {

  /** The closure `memoize(fn)` returns, with the `Map` it owns. `called`
      records, in order, the arguments `fn` was actually applied to. */
  class Memoized<A, K(==), V> {
    const fn: A -> V
    const key: A -> K
    var cache: map<K, V>
    ghost var called: seq<A>

    /** Every cached value is `fn` of the one call that stored it, each key
        was computed exactly once, and nothing else was computed. */
    ghost predicate Valid()
      reads this
    {
      && (forall i, j :: 0 <= i < j < |called| ==> key(called[i]) != key(called[j]))
      && (forall i :: 0 <= i < |called| ==> key(called[i]) in cache && cache[key(called[i])] == fn(called[i]))
      && (forall k :: k in cache ==> exists i :: 0 <= i < |called| && key(called[i]) == k)
    }

    /** `memoize(fn)`: the cache starts empty. */
    constructor(fn: A -> V, key: A -> K)
      ensures this.fn == fn && this.key == key
      ensures cache == map[] && called == []
      ensures Valid()
    {
      this.fn := fn;
      this.key := key;
      cache := map[];
      called := [];
    }

    /** One call of the memoised function. */
    method Call(args: A) returns (v: V)
      requires Valid()
      modifies this
      ensures Valid()
      // a hit returns the stored value and changes nothing
      ensures key(args) in old(cache) ==> v == old(cache)[key(args)] && cache == old(cache) && called == old(called)
      // a miss calls `fn` once and stores its result under the key
      ensures key(args) !in old(cache) ==>
        v == fn(args) && cache == old(cache)[key(args) := v] && called == old(called) + [args]
      // the cache only grows, and a stored value is never replaced
      ensures forall k :: k in old(cache) ==> k in cache && cache[k] == old(cache)[k]
      ensures key(args) in cache && cache[key(args)] == v
    {
      var k := key(args);
      if k in cache {
        return cache[k];
      }
      v := fn(args);
      ghost var before := called;
      cache := cache[k := v];
      called := called + [args];
      assert forall i :: 0 <= i < |before| ==> called[i] == before[i];
      assert called[|before|] == args;
      forall k' | k' in cache ensures exists i :: 0 <= i < |called| && key(called[i]) == k' {
        if k' == k {
          assert key(called[|before|]) == k';
        } else {
          var i :| 0 <= i < |before| && key(before[i]) == k';
          assert key(called[i]) == k';
        }
      }
    }

    /** Whatever the history, the value cached for a key is `fn` of the first
        argument list that produced that key. */
    lemma FirstCallWins(k: K)
      requires Valid() && k in cache
      ensures exists i :: (0 <= i < |called| && key(called[i]) == k && cache[k] == fn(called[i])
        && forall j :: 0 <= j < |called| && j != i ==> key(called[j]) != k)
    {
      var i :| 0 <= i < |called| && key(called[i]) == k;
      assert forall j :: 0 <= j < |called| && j != i ==> key(called[j]) != k by {
        forall j | 0 <= j < |called| && j != i ensures key(called[j]) != k {
          if j < i { assert key(called[j]) != key(called[i]); }
          else { assert key(called[i]) != key(called[j]); }
        }
      }
    }
  }

  /** Two calls whose argument lists serialise alike get the first one's
      result, and the function runs only once. */
  method SameKeyTwice<A, K(==), V>(m: Memoized<A, K, V>, a: A, b: A) returns (x: V, y: V)
    requires m.Valid() && m.key(a) == m.key(b) && m.key(a) !in m.cache
    modifies m
    ensures x == y == m.fn(a)
    ensures m.called == old(m.called) + [a]
  {
    x := m.Call(a);
    y := m.Call(b);
  }
}
