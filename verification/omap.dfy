/**
 * Insertion-ordered maps. A JavaScript object whose keys are never
 * integer-like enumerates its own keys (`Object.entries`, `Object.keys`) in
 * insertion order, and assigning to an existing key keeps its position.
 */
module OrderedMaps {
  import opened Wrappers

  datatype OMap<K, V> = OMap(keys: seq<K>, m: map<K, V>) {

    /** No key is listed twice and the listed keys are exactly the mapped ones. */
    ghost predicate Valid() {
      && (forall i, j :: 0 <= i < j < |keys| ==> keys[i] != keys[j])
      && (forall i :: 0 <= i < |keys| ==> keys[i] in m)
      && (forall k <- m.Keys :: k in keys)
    }
  }

  function Empty<K, V>(): (r: OMap<K, V>)
    ensures r.Valid() && r.keys == [] && r.m == map[]
  {
    OMap([], map[])
  }

  /** Property lookup. */
  function Get<K, V>(o: OMap<K, V>, k: K): (r: Option<V>)
    ensures r.Some? <==> k in o.m
    ensures r.Some? ==> r.value == o.m[k]
  {
    if k in o.m then Some(o.m[k]) else None
  }

  /** Property assignment `o[k] = v`: a new key goes last, an existing key keeps its place. */
  function Put<K, V>(o: OMap<K, V>, k: K, v: V): (r: OMap<K, V>)
    requires o.Valid()
    ensures r.Valid()
    ensures r.m == o.m[k := v]
    ensures r.keys == if k in o.m then o.keys else o.keys + [k]
  {
    if k in o.m then OMap(o.keys, o.m[k := v]) else OMap(o.keys + [k], o.m[k := v])
  }

  /** `Object.entries`. */
  function Entries<K, V>(o: OMap<K, V>): (r: seq<(K, V)>)
    requires o.Valid()
    ensures |r| == |o.keys|
    ensures forall i :: 0 <= i < |r| ==> r[i] == (o.keys[i], o.m[o.keys[i]])
  {
    seq(|o.keys|, i requires 0 <= i < |o.keys| => (o.keys[i], o.m[o.keys[i]]))
  }

  /** `b` keeps every key of `a`, in the same order and with the same value. */
  ghost predicate Extends<K, V>(a: OMap<K, V>, b: OMap<K, V>) {
    && |a.keys| <= |b.keys| && b.keys[..|a.keys|] == a.keys
    && forall k :: k in a.m ==> k in b.m && b.m[k] == a.m[k]
  }

  lemma ExtendsReflexive<K, V>(a: OMap<K, V>)
    ensures Extends(a, a)
  {
    assert a.keys[..|a.keys|] == a.keys;
  }

  lemma ExtendsTransitive<K, V>(a: OMap<K, V>, b: OMap<K, V>, c: OMap<K, V>)
    requires Extends(a, b) && Extends(b, c)
    ensures Extends(a, c)
  {
    assert c.keys[..|a.keys|] == c.keys[..|b.keys|][..|a.keys|];
  }

  /** Adding a fresh key extends the map. */
  lemma PutFreshExtends<K, V>(o: OMap<K, V>, k: K, v: V)
    requires o.Valid() && k !in o.m
    ensures Extends(o, Put(o, k, v))
  {
  }
}
