/**
 * The bounded least-recently-used cache behind schemaUpdateCache: Kafka's LRUCache,
 * a LinkedHashMap in access order that drops its eldest entry once it holds more
 * than its capacity.
 */
module SchemaCache {
  import opened Wrappers

  ghost predicate Distinct<K>(s: seq<K>)
  {
    forall i, j :: 0 <= i < j < |s| ==> s[i] != s[j]
  }

  /** `s` with every occurrence of `k` removed, the rest in order. */
  function Without<K(==,!new)>(s: seq<K>, k: K): (r: seq<K>)
    ensures forall x :: x in r <==> x in s && x != k
    ensures |r| <= |s| && (k in s ==> |r| < |s|)
    ensures Distinct(s) ==> Distinct(r)
  {
    if s == [] then []
    else if s[0] == k then Without(s[1..], k)
    else
      var rest := Without(s[1..], k);
      assert Distinct(s) ==> s[0] !in rest;
      [s[0]] + rest
  }

  /** Appending a fresh element keeps a sequence duplicate-free. */
  lemma AppendDistinct<K>(s: seq<K>, k: K)
    requires Distinct(s) && k !in s
    ensures Distinct(s + [k])
  {
  }

  /** Dropping the first element of a duplicate-free sequence removes exactly that element. */
  lemma DropFirst<K>(s: seq<K>)
    requires Distinct(s) && |s| > 0
    ensures Distinct(s[1..])
    ensures forall x :: x in s[1..] <==> x in s && x != s[0]
  {
  }

  /** A map whose keys are exactly the elements of a duplicate-free sequence has that sequence's length. */
  lemma {:induction false} SizeOfKeys<K(!new), V>(s: seq<K>, m: map<K, V>)
    requires Distinct(s)
    requires forall k :: k in m <==> k in s
    ensures |m| == |s|
  {
    if s == [] {
      assert m.Keys == {};
    } else {
      var k := s[|s| - 1];
      var rest := s[..|s| - 1];
      var m' := map j | j in m && j != k :: m[j];
      assert forall j :: j in m' <==> j in rest by {
        forall j ensures j in m' <==> j in rest {
          if j in rest {
            var i :| 0 <= i < |rest| && rest[i] == j;
            assert s[i] == j;
          }
          if j in s && j != k {
            var i :| 0 <= i < |s| && s[i] == j;
            assert i < |s| - 1;
            assert rest[i] == j;
          }
        }
      }
      SizeOfKeys(rest, m');
      assert m.Keys == m'.Keys + {k};
    }
  }

  class LruCache<K(==,!new), V> {
    const capacity: nat
    /** Keys from least to most recently used. */
    var order: seq<K>
    var entries: map<K, V>

    ghost predicate Valid()
      reads this
    {
      && Distinct(order)
      && (forall k :: k in entries <==> k in order)
      && |order| <= capacity
    }

    /** new LRUCache(capacity) */
    constructor (capacity: nat)
      ensures Valid()
      ensures this.capacity == capacity && entries == map[] && order == []
    {
      this.capacity := capacity;
      order := [];
      entries := map[];
    }

    /** The cache never holds more than its capacity. */
    lemma Bounded()
      requires Valid()
      ensures |entries| <= capacity
    {
      SizeOfKeys(order, entries);
    }

    /** get: the cached value, if any; a hit makes the key the most recently used. */
    method Get(k: K) returns (r: Option<V>)
      requires Valid()
      modifies this`order
      ensures Valid() && entries == old(entries)
      ensures r == if k in entries then Some(entries[k]) else None
      ensures order == if k in entries then Without(old(order), k) + [k] else old(order)
    {
      if k in entries {
        AppendDistinct(Without(order, k), k);
        order := Without(order, k) + [k];
        r := Some(entries[k]);
      } else {
        r := None;
      }
    }

    /**
     * put: stores `v` under `k` as the most recently used entry, then, if the cache
     * now exceeds its capacity, evicts the least recently used entry.
     */
    method Put(k: K, v: V)
      requires Valid()
      modifies this`order, this`entries
      ensures Valid()
      ensures var inserted := Without(old(order), k) + [k];
        if |inserted| > capacity then
          order == inserted[1..] && entries == old(entries)[k := v] - {inserted[0]}
        else
          order == inserted && entries == old(entries)[k := v]
      ensures capacity > 0 ==> k in entries && entries[k] == v
      ensures forall j :: j in entries ==> j == k || (j in old(entries) && entries[j] == old(entries)[j])
    {
      var inserted := Without(order, k) + [k];
      AppendDistinct(Without(order, k), k);
      entries := entries[k := v];
      if |inserted| > capacity {
        DropFirst(inserted);
        order := inserted[1..];
        entries := entries - {inserted[0]};
      } else {
        order := inserted;
      }
    }
  }
}
