// The bounded cache of parsed messages in convex/chatMessages/helpers.ts:
// a JavaScript `Map` from serialised message to parsed message whose
// insertion order doubles as recency order, refreshed on a hit and trimmed
// to `MAX_MESSAGE_CACHE` entries by evicting the oldest key.

module MessageCache {
  /** `MAX_MESSAGE_CACHE` */
  const MaxMessageCache: nat := 2000

  predicate Distinct(s: seq<string>) {
    forall i, j :: 0 <= i < j < |s| ==> s[i] != s[j]
  }

  /** `keys` with `key` deleted, the others kept in order (`Map.delete` on the key order). */
  function Without(keys: seq<string>, key: string): (r: seq<string>)
    ensures forall x :: x in r <==> x in keys && x != key
  {
    if keys == [] then []
    else (if keys[0] == key then [] else [keys[0]]) + Without(keys[1..], key)
  }

  lemma DistinctCons(x: string, tail: seq<string>)
    ensures Distinct([x] + tail) <==> x !in tail && Distinct(tail)
  {
    var r := [x] + tail;
    assert forall i :: 0 <= i < |tail| ==> tail[i] == r[i + 1];
    if Distinct(r) {
      forall i | 0 <= i < |tail| ensures tail[i] != x {
        assert r[i + 1] != r[0];
      }
    }
  }

  /** Deleting a key from distinct keys keeps them distinct and removes exactly one when present. */
  lemma {:induction false} WithoutDistinct(keys: seq<string>, key: string)
    requires Distinct(keys)
    ensures Distinct(Without(keys, key))
    ensures |Without(keys, key)| == if key in keys then |keys| - 1 else |keys|
  {
    if keys != [] {
      var rest := keys[1..];
      assert keys == [keys[0]] + rest;
      DistinctCons(keys[0], rest);
      WithoutDistinct(rest, key);
      if keys[0] != key {
        assert Without(keys, key) == [keys[0]] + Without(rest, key);
        DistinctCons(keys[0], Without(rest, key));
      }
    }
  }

  /** Distinct keys are as many as the set they form. */
  lemma {:induction false} DistinctCard(keys: seq<string>)
    requires Distinct(keys)
    ensures |set x | x in keys| == |keys|
  {
    if keys != [] {
      var init := keys[..|keys| - 1];
      var last := keys[|keys| - 1];
      assert Distinct(init) by {
        forall i, j | 0 <= i < j < |init| ensures init[i] != init[j] {
          assert init[i] == keys[i] && init[j] == keys[j];
        }
      }
      DistinctCard(init);
      assert last !in init by {
        forall i | 0 <= i < |init| ensures init[i] != last {
          assert init[i] == keys[i];
        }
      }
      assert keys == init + [last];
      assert (set x | x in keys) == (set x | x in init) + {last};
    }
  }

  /** Appending a new key keeps the keys distinct. */
  lemma AppendDistinct(keys: seq<string>, key: string)
    requires Distinct(keys) && key !in keys
    ensures Distinct(keys + [key])
  {
    var r := keys + [key];
    forall i, j | 0 <= i < j < |r| ensures r[i] != r[j] {
      assert r[i] == keys[i];
    }
  }

  /** Dropping the oldest key keeps the keys distinct and removes only that key. */
  lemma DropOldestDistinct(keys: seq<string>)
    requires Distinct(keys) && |keys| > 0
    ensures Distinct(keys[1..])
    ensures forall x :: x in keys[1..] <==> x in keys && x != keys[0]
  {
    var r := keys[1..];
    forall i, j | 0 <= i < j < |r| ensures r[i] != r[j] {
      assert r[i] == keys[i + 1] && r[j] == keys[j + 1];
    }
    forall x | x in keys && x != keys[0] ensures x in r {
      var i :| 0 <= i < |keys| && keys[i] == x;
      assert r[i - 1] == x;
    }
    forall i | 0 <= i < |r| ensures r[i] != keys[0] {
      assert r[i] == keys[i + 1];
    }
  }

  /** Deleting a key and setting it back to its value leaves the map as it was. */
  lemma ReinsertSame<V>(m: map<string, V>, key: string)
    requires key in m
    ensures (m - {key})[key := m[key]] == m
  {
  }

  /** The cache's invariant on its key order and its entries: distinct keys, the same keys, within the bound. */
  ghost predicate CacheInv<V>(order: seq<string>, entries: map<string, V>) {
    && Distinct(order)
    && (forall k :: k in order <==> k in entries)
    && |order| <= MaxMessageCache
  }

  /** The `Map`'s size is the number of keys in the order. */
  lemma SizeIsOrderLength<V>(order: seq<string>, entries: map<string, V>)
    requires Distinct(order) && forall k :: k in order <==> k in entries
    ensures |entries| == |order|
  {
    assert entries.Keys == set x | x in order;
    DistinctCard(order);
  }

  /** A hit moves the key to the newest position and keeps the invariant. */
  lemma HitKeeps<V>(order: seq<string>, entries: map<string, V>, key: string)
    requires CacheInv(order, entries) && key in entries
    ensures CacheInv(Without(order, key) + [key], entries)
  {
    WithoutDistinct(order, key);
    AppendDistinct(Without(order, key), key);
  }

  /** A miss appends the key; past the bound the oldest key goes, and the invariant holds again. */
  lemma MissKeeps<V>(order: seq<string>, entries: map<string, V>, key: string, v: V)
    requires CacheInv(order, entries) && key !in entries
    ensures var o, e := order + [key], entries[key := v];
      && |e| == |o|
      && (|o| <= MaxMessageCache ==> CacheInv(o, e))
      && (|o| > MaxMessageCache ==> |order| == MaxMessageCache && CacheInv(o[1..], e - {o[0]}))
  {
    var o, e := order + [key], entries[key := v];
    AppendDistinct(order, key);
    SizeIsOrderLength(o, e);
    if |o| > MaxMessageCache {
      DropOldestDistinct(o);
    }
  }

  /** `parsedMessageCache`: the cached values and the order their keys were (re)inserted, oldest first. */
  class Cache<V> {
    var order: seq<string>
    var entries: map<string, V>

    ghost predicate Valid()
      reads this
    {
      CacheInv(order, entries)
    }

    constructor ()
      ensures Valid() && order == [] && entries == map[]
    {
      order := [];
      entries := map[];
    }

    /**
     * `getOrSetLRU(key, compute)`: a hit returns the stored value and moves
     * the key to the newest position; a miss stores `computed` as the newest
     * entry and, when that makes more than `MAX_MESSAGE_CACHE` entries,
     * evicts the oldest one. The value returned is always cached afterwards.
     */
    method GetOrSet(key: string, computed: V) returns (value: V)
      requires Valid()
      modifies this
      ensures Valid()
      ensures key in old(entries) ==>
        value == old(entries)[key] && entries == old(entries) && order == Without(old(order), key) + [key]
      ensures key !in old(entries) && |old(order)| < MaxMessageCache ==>
        value == computed && entries == old(entries)[key := computed] && order == old(order) + [key]
      ensures key !in old(entries) && |old(order)| == MaxMessageCache ==>
        value == computed && order == old(order)[1..] + [key]
        && entries == old(entries)[key := computed] - {old(order)[0]}
      ensures key in entries && entries[key] == value && order[|order| - 1] == key
    {
      if key in entries {
        var hit := entries[key];
        HitKeeps(order, entries, key);
        ReinsertSame(entries, key);
        order := Without(order, key);
        entries := entries - {key};
        order := order + [key];
        entries := entries[key := hit];
        return hit;
      }
      value := computed;
      MissKeeps(order, entries, key, value);
      order := order + [key];
      entries := entries[key := value];
      if |entries| > MaxMessageCache {
        var oldest := order[0];
        order := order[1..];
        entries := entries - {oldest};
      }
    }
  }
}
