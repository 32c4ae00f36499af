/** JavaScript's `Map`: a finite map that is iterated in the order in which its
    keys were first set. */
module OrderedMaps {
  ghost predicate Distinct<T>(s: seq<T>) {
    forall i, j :: 0 <= i < j < |s| ==> s[i] != s[j]
  }

  datatype OrderedMap<K(==, !new), V> = OrderedMap(keys: seq<K>, items: map<K, V>) {
    ghost predicate Valid() {
      Distinct(keys) && forall k :: k in keys <==> k in items
    }

    function Set(k: K, v: V): (m: OrderedMap<K, V>)
      ensures Valid() ==> m.Valid()
    {
      OrderedMap(if k in items then keys else keys + [k], items[k := v])
    }
  }

  lemma DistinctAppend<T(!new)>(s: seq<T>, x: T)
    requires Distinct(s) && x !in s
    ensures Distinct(s + [x])
    ensures forall y :: y in s + [x] <==> y in s || y == x
  {
  }

  /** Setting a list of keys one after the other. */
  function SetAll<K(!new), V>(m: OrderedMap<K, V>, keys: seq<K>, items: map<K, V>): OrderedMap<K, V>
    requires forall k :: k in keys ==> k in items
    decreases |keys|
  {
    if keys == [] then m else SetAll(m.Set(keys[0], items[keys[0]]), keys[1..], items)
  }

  lemma HeadTail<T>(before: seq<T>, s: seq<T>)
    requires s != []
    ensures before + s == (before + [s[0]]) + s[1..]
    ensures forall x :: x in s <==> x == s[0] || x in s[1..]
  {
    assert s == [s[0]] + s[1..];
  }

  lemma {:induction false} SetAllFresh<K(!new), V>(m: OrderedMap<K, V>, keys: seq<K>, items: map<K, V>)
    requires forall k :: k in keys ==> k in items && k !in m.items
    requires Distinct(keys)
    ensures var r := SetAll(m, keys, items);
            && r.keys == m.keys + keys
            && (forall k :: k in r.items <==> k in m.items || k in keys)
            && (forall k :: k in r.items ==> r.items[k] == if k in keys then items[k] else m.items[k])
    decreases |keys|
  {
    if keys == [] {
      assert m.keys + keys == m.keys;
    } else {
      var k, rest := keys[0], keys[1..];
      HeadTail(m.keys, keys);
      assert forall x :: x in rest ==> x != k && x in keys;
      SetAllFresh(m.Set(k, items[k]), rest, items);
    }
  }

  /** Replaying a map's entries in its own order rebuilds the map. */
  lemma SetAllRebuilds<K(!new), V>(m: OrderedMap<K, V>)
    requires m.Valid()
    ensures SetAll(OrderedMap([], map[]), m.keys, m.items) == m
  {
    SetAllFresh(OrderedMap([], map[]), m.keys, m.items);
    assert [] + m.keys == m.keys;
    assert SetAll(OrderedMap([], map[]), m.keys, m.items).items == m.items;
  }
}
