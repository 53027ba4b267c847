/** Kotlin's `mutableMapOf()`, a LinkedHashMap: every key maps to its latest value,
    and iteration (`values`, `forEach`) follows the order in which keys were FIRST
    inserted; overwriting a key keeps its place. */
module LinkedMaps {

  datatype LinkedMap<K, V> = LinkedMap(keys: seq<K>, entries: map<K, V>)

  /** The insertion order lists every key of the map exactly once. */
  ghost predicate Valid<K, V>(m: LinkedMap<K, V>) {
    && (forall i, j :: 0 <= i < j < |m.keys| ==> m.keys[i] != m.keys[j])
    && m.entries.Keys == KeySet(m.keys)
  }

  function Empty<K, V>(): (r: LinkedMap<K, V>)
    ensures Valid(r) && r.entries == map[] && r.keys == []
  {
    LinkedMap([], map[])
  }

  /** `map.put(k, v)` */
  function Put<K, V>(m: LinkedMap<K, V>, k: K, v: V): (r: LinkedMap<K, V>)
    requires Valid(m)
    ensures Valid(r)
    ensures r.entries == m.entries[k := v]
    ensures k in m.entries ==> r.keys == m.keys
    ensures k !in m.entries ==> r.keys == m.keys + [k]
  {
    if k in m.entries then LinkedMap(m.keys, m.entries[k := v])
    else
      KeySetAppend(m.keys, k);
      LinkedMap(m.keys + [k], m.entries[k := v])
  }

  ghost function KeySet<K>(keys: seq<K>): set<K> {
    set i | 0 <= i < |keys| :: keys[i]
  }

  lemma KeySetAppend<K>(keys: seq<K>, k: K)
    ensures KeySet(keys + [k]) == KeySet(keys) + {k}
  {
    var ks := keys + [k];
    assert ks[|keys|] == k;
    forall x | x in KeySet(keys) ensures x in KeySet(ks) {
      var i :| 0 <= i < |keys| && keys[i] == x;
      assert ks[i] == x;
    }
  }

  /** `map.values.toList()` */
  function Values<K, V>(m: LinkedMap<K, V>): (r: seq<V>)
    requires Valid(m)
    ensures |r| == |m.keys|
    ensures forall i :: 0 <= i < |r| ==> r[i] == m.entries[m.keys[i]]
  {
    seq(|m.keys|, i requires 0 <= i < |m.keys| => m.entries[m.keys[i]])
  }

  /** The position of a present key in the insertion order. */
  function IndexOf<K(==)>(keys: seq<K>, k: K): (i: nat)
    requires k in keys
    ensures i < |keys| && keys[i] == k
    ensures forall j :: 0 <= j < i ==> keys[j] != k
  {
    if keys[0] == k then 0 else 1 + IndexOf(keys[1..], k)
  }

  /** What `put` does to the value list: a new key appends its value, a present
      key has its value replaced in place. */
  lemma PutValues<K, V>(m: LinkedMap<K, V>, k: K, v: V)
    requires Valid(m)
    ensures k !in m.entries ==> Values(Put(m, k, v)) == Values(m) + [v]
    ensures k in m.entries ==> Values(Put(m, k, v)) == Values(m)[IndexOf(m.keys, k) := v]
  {
    if k in m.entries {
      PutPresentValues(m, k, v);
    } else {
      var r := Put(m, k, v);
      assert forall i :: 0 <= i < |m.keys| ==> Values(r)[i] == r.entries[m.keys[i]];
      assert Values(r) == Values(m) + [v];
    }
  }

  lemma PutPresentValues<K, V>(m: LinkedMap<K, V>, k: K, v: V)
    requires Valid(m) && k in m.entries
    ensures Values(Put(m, k, v)) == Values(m)[IndexOf(m.keys, k) := v]
  {
    assert k in KeySet(m.keys);
    var j := IndexOf(m.keys, k);
    var r := Put(m, k, v);
    assert r.keys == m.keys;
    forall i | 0 <= i < |m.keys|
      ensures Values(r)[i] == Values(m)[j := v][i]
    {
      if i != j {
        assert m.keys[i] != k;
      }
    }
  }
}
