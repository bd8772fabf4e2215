/** The insertion-ordered hash of src/ast.c, as a sequence of entries. */
module Containers {

  datatype Entry<+K, +V> = Entry(key: K, value: V)

  // The index of the first entry with the key, or |h|.
  function HashFind<K(==), V>(h: seq<Entry<K, V>>, k: K): (i: nat)
    ensures i <= |h|
    ensures i < |h| ==> h[i].key == k
    ensures forall j :: 0 <= j < i ==> h[j].key != k
  {
    if h == [] then 0 else if h[0].key == k then 0 else 1 + HashFind(h[1..], k)
  }

  predicate DistinctKeys<K(==), V>(h: seq<Entry<K, V>>) {
    forall i, j :: 0 <= i < j < |h| ==> h[i].key != h[j].key
  }

  predicate HasKey<K(==), V>(h: seq<Entry<K, V>>, k: K) {
    HashFind(h, k) < |h|
  }

  // rbs_hash_set: replace the value under a known key, append under a new one.
  function HashSet<K(==), V>(h: seq<Entry<K, V>>, k: K, v: V): seq<Entry<K, V>> {
    if HasKey(h, k) then h[HashFind(h, k) := Entry(h[HashFind(h, k)].key, v)] else h + [Entry(k, v)]
  }

  lemma HasKeyAfterSet<K, V>(h: seq<Entry<K, V>>, k: K, v: V, x: K)
    ensures HasKey(HashSet(h, k, v), x) <==> x == k || HasKey(h, x)
  {
    var g := HashSet(h, k, v);
    if HasKey(h, x) {
      assert g[HashFind(h, x)].key == x;
    }
    if x == k {
      assert g[HashFind(h, k)].key == k;
    }
    if HasKey(g, x) && x != k {
      assert h[HashFind(g, x)].key == x;
    }
  }
}
