/**
 A map that remembers insertion order: setting a present key keeps its place, deleting and setting again moves it last.
 */
module OrderedMaps {
  import opened Sorting

  datatype OrderedMap<K, V> = OrderedMap(keys: seq<K>, at: map<K, V>)

  ghost predicate Wf<K(!new), V>(m: OrderedMap<K, V>) {
    Distinct(m.keys) && forall k :: k in m.at <==> k in m.keys
  }

  function Put<K(==, !new), V>(m: OrderedMap<K, V>, k: K, v: V): OrderedMap<K, V> {
    OrderedMap(if k in m.at then m.keys else m.keys + [k], m.at[k := v])
  }

  function Drop<K(==, !new), V>(m: OrderedMap<K, V>, k: K): OrderedMap<K, V> {
    OrderedMap(Without(m.keys, k), m.at - {k})
  }

  function DropAll<K(==, !new), V>(m: OrderedMap<K, V>, ks: seq<K>): OrderedMap<K, V> {
    if ks == [] then m else Drop(DropAll(m, ks[..|ks| - 1]), ks[|ks| - 1])
  }

  lemma PutKeepsWf<K(!new), V>(m: OrderedMap<K, V>, k: K, v: V)
    requires Wf(m)
    ensures Wf(Put(m, k, v))
  {
  }

  lemma DropKeepsWf<K(!new), V>(m: OrderedMap<K, V>, k: K)
    requires Wf(m)
    ensures Wf(Drop(m, k)) && |Drop(m, k).keys| == |m.keys| - if k in m.at then 1 else 0
  {
    WithoutRemovesOne(m.keys, k);
  }

  lemma {:induction false} DropAllDrops<K(!new), V>(m: OrderedMap<K, V>, ks: seq<K>)
    requires Wf(m) && Distinct(ks) && forall k :: k in ks ==> k in m.at
    ensures var r := DropAll(m, ks);
            && Wf(r) && |r.keys| == |m.keys| - |ks|
            && (forall k :: k in r.at <==> k in m.at && k !in ks)
            && (forall k :: k in r.at ==> r.at[k] == m.at[k])
  {
    if ks == [] {
    } else {
      var init, last := ks[..|ks| - 1], ks[|ks| - 1];
      assert ks == init + [last];
      DropAllDrops(m, init);
      DropKeepsWf(DropAll(m, init), last);
      assert last !in init;
    }
  }
}
