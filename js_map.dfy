/**
 * A JavaScript `Map`: a finite map whose entries are enumerated in the order
 * their keys were first inserted. Setting an existing key replaces its value
 * and keeps its place.
 */
module JsMap {

  datatype OrderedMap<K(==), V> = OrderedMap(keys: seq<K>, values: map<K, V>) {
    /**
     * Exactly the keys of the map are listed, and there are as many list
     * entries as keys, so each key is listed once (`ValidKeysDistinct`).
     */
    ghost predicate Valid() {
      && |keys| == |values|
      && (forall k <- keys :: k in values)
      && (forall k <- values.Keys :: k in keys)
    }
  }

  /** A sequence has at least as many positions as it has distinct elements. */
  lemma {:induction false} ElementsAtMostLength<K>(s: seq<K>)
    ensures |(set k <- s)| <= |s|
  {
    if s != [] {
      ElementsAtMostLength(s[1..]);
      assert (set k <- s) == {s[0]} + (set k <- s[1..]);
    }
  }

  lemma {:induction false} SubsetSmaller<K>(a: set<K>, b: set<K>)
    requires a <= b
    ensures |a| <= |b|
    decreases a
  {
    if a != {} {
      var x :| x in a;
      SubsetSmaller(a - {x}, b - {x});
    }
  }

  /** In a well-formed map no key is listed twice. */
  lemma ValidKeysDistinct<K, V>(m: OrderedMap<K, V>)
    requires m.Valid()
    ensures forall i, j :: 0 <= i < j < |m.keys| ==> m.keys[i] != m.keys[j]
  {
    forall i, j | 0 <= i < j < |m.keys| ensures m.keys[i] != m.keys[j] {
      if m.keys[i] == m.keys[j] {
        var rest := m.keys[..j] + m.keys[j + 1..];
        assert m.values.Keys <= set k <- rest by {
          forall k <- m.values.Keys ensures k in rest {
            var p :| 0 <= p < |m.keys| && m.keys[p] == k;
            if p < j {
              assert rest[p] == k;
            } else if p == j {
              assert rest[i] == k;
            } else {
              assert rest[p - 1] == k;
            }
          }
        }
        ElementsAtMostLength(rest);
        SubsetSmaller(m.values.Keys, set k <- rest);
        assert false;
      }
    }
  }

  function Empty<K(==), V>(): (m: OrderedMap<K, V>)
    ensures m.Valid() && m.keys == [] && m.values == map[]
  {
    OrderedMap([], map[])
  }

  /** `Map.prototype.set`: a new key goes last, an existing key keeps its place. */
  function Set<K(==), V>(m: OrderedMap<K, V>, k: K, v: V): OrderedMap<K, V> {
    if k in m.values then OrderedMap(m.keys, m.values[k := v])
    else OrderedMap(m.keys + [k], m.values[k := v])
  }

  /**
   * Setting keeps a map well formed; afterwards `k` maps to `v`, every other
   * key keeps its value, and the earlier keys keep their order, with `k`
   * appended exactly when it is new.
   */
  lemma SetSpec<K, V>(m: OrderedMap<K, V>, k: K, v: V)
    requires m.Valid()
    ensures var r := Set(m, k, v);
      && r.Valid()
      && r.values.Keys == m.values.Keys + {k}
      && r.values[k] == v
      && (forall k' <- m.values.Keys :: k' != k ==> r.values[k'] == m.values[k'])
      && m.keys <= r.keys
      && |r.keys| == |m.keys| + (if k in m.values then 0 else 1)
  {
    if k !in m.values {
      assert (m.keys + [k])[..|m.keys|] == m.keys;
    }
  }

  /** Setting a key twice is setting it to the second value. */
  lemma SetTwice<K, V>(m: OrderedMap<K, V>, k: K, v0: V, v: V)
    ensures Set(Set(m, k, v0), k, v) == Set(m, k, v)
  {
    assert m.values[k := v0][k := v] == m.values[k := v];
  }

  /**
   * `Array.from(m.entries())`: the key/value pairs in insertion order (a
   * listed key without a value, which a well-formed map never has, is
   * skipped).
   */
  function Entries<K(==), V>(m: OrderedMap<K, V>): (es: seq<(K, V)>)
    ensures m.Valid() ==> |es| == |m.keys|
    ensures m.Valid() ==> forall i :: 0 <= i < |es| ==> es[i].0 == m.keys[i] && es[i].1 == m.values[m.keys[i]]
  {
    EntriesOf(m.keys, m.values)
  }

  function EntriesOf<K(==), V>(keys: seq<K>, values: map<K, V>): (es: seq<(K, V)>)
    ensures |es| <= |keys|
    ensures (forall k <- keys :: k in values) ==>
      |es| == |keys| && forall i :: 0 <= i < |es| ==> es[i].0 == keys[i] && es[i].1 == values[keys[i]]
  {
    if keys == [] then []
    else
      var rest := EntriesOf(keys[1..], values);
      if keys[0] in values then [(keys[0], values[keys[0]])] + rest else rest
  }
}
