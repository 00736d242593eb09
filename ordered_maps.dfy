/** Python's OrderedDict: a lookup table that remembers the order in which keys were first inserted. */
module OrderedMaps {

  datatype OrderedMap<K, V> = OrderedMap(keys: seq<K>, entries: map<K, V>)

  /** The key order lists every key of the table exactly once. */
  ghost predicate Valid<K, V>(m: OrderedMap<K, V>)
  {
    && (forall k :: k in m.entries ==> k in m.keys)
    && (forall i :: 0 <= i < |m.keys| ==> m.keys[i] in m.entries)
    && (forall i, j :: 0 <= i < j < |m.keys| ==> m.keys[i] != m.keys[j])
  }

  /** `OrderedDict()` */
  function Empty<K, V>(): (m: OrderedMap<K, V>)
    ensures Valid(m) && |m.keys| == 0 && m.entries == map[]
  {
    OrderedMap([], map[])
  }

  /** `d[k] = v`: a new key goes last, an existing key keeps its place and gets the new value. */
  function Put<K, V>(m: OrderedMap<K, V>, k: K, v: V): (r: OrderedMap<K, V>)
    requires Valid(m)
    ensures Valid(r)
    ensures k in r.entries && r.entries[k] == v
    ensures r.entries.Keys == m.entries.Keys + {k}
    ensures forall k' :: k' != k && k' in m.entries ==> r.entries[k'] == m.entries[k']
    ensures k in m.entries ==> r.keys == m.keys
    ensures k !in m.entries ==> |r.keys| == |m.keys| + 1 && r.keys[..|m.keys|] == m.keys && r.keys[|m.keys|] == k
  {
    if k in m.entries then OrderedMap(m.keys, m.entries[k := v])
    else OrderedMap(m.keys + [k], m.entries[k := v])
  }
}
