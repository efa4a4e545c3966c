/** Python's insertion-ordered dictionary as a sequence of items, oldest first. */
module OrderedDict {
  import opened Common

  type Key = string

  datatype Item<+V> = Item(key: Key, value: V)

  function Keys<V>(d: seq<Item<V>>): (ks: seq<Key>)
    ensures |ks| == |d| && forall i :: 0 <= i < |ks| ==> ks[i] == d[i].key
  {
    if d == [] then [] else [d[0].key] + Keys(d[1..])
  }

  function Find<V>(d: seq<Item<V>>, key: Key): Option<Item<V>> {
    if d == [] then None
    else if d[0].key == key then Some(d[0])
    else Find(d[1..], key)
  }

  function Remove<V>(d: seq<Item<V>>, key: Key): seq<Item<V>> {
    if d == [] then []
    else if d[0].key == key then Remove(d[1..], key)
    else [d[0]] + Remove(d[1..], key)
  }

  // No key occurs twice.
  ghost predicate Distinct<V>(d: seq<Item<V>>) {
    d == [] || (Find(d[1..], d[0].key).None? && Distinct(d[1..]))
  }

  lemma {:induction false} FindGivesKey<V>(d: seq<Item<V>>, key: Key)
    ensures Find(d, key).Some? ==> Find(d, key).value.key == key
    ensures Find(d, key).Some? <==> key in Keys(d)
  {
    if d != [] {
      FindGivesKey(d[1..], key);
    }
  }

  lemma {:induction false} FindAfterRemove<V>(d: seq<Item<V>>, removed: Key, key: Key)
    ensures Find(Remove(d, removed), key) == if key == removed then None else Find(d, key)
  {
    if d != [] {
      FindAfterRemove(d[1..], removed, key);
    }
  }

  lemma {:induction false} FindAfterAppend<V>(d: seq<Item<V>>, e: Item<V>, key: Key)
    ensures Find(d + [e], key) ==
      if Find(d, key).Some? then Find(d, key) else if key == e.key then Some(e) else None
  {
    if d == [] {
      assert [] + [e] == [e];
    } else {
      assert (d + [e])[1..] == d[1..] + [e];
      FindAfterAppend(d[1..], e, key);
    }
  }

  // Removing a key takes out its one entry and keeps the order of the others.
  lemma {:induction false} RemoveOne<V>(d: seq<Item<V>>, key: Key)
    requires Distinct(d)
    ensures Distinct(Remove(d, key))
    ensures |Remove(d, key)| == |d| - if Find(d, key).Some? then 1 else 0
    ensures Keys(Remove(d, key)) == Without(Keys(d), key)
  {
    if d != [] {
      RemoveOne(d[1..], key);
      FindAfterRemove(d[1..], key, d[0].key);
      assert Keys(d)[1..] == Keys(d[1..]);
    }
  }

  lemma {:induction false} AppendNew<V>(d: seq<Item<V>>, e: Item<V>)
    requires Distinct(d) && Find(d, e.key).None?
    ensures Distinct(d + [e]) && Keys(d + [e]) == Keys(d) + [e.key]
  {
    if d == [] {
      assert [] + [e] == [e];
    } else {
      assert (d + [e])[1..] == d[1..] + [e];
      AppendNew(d[1..], e);
      FindAfterAppend(d[1..], e, d[0].key);
      assert Keys(d + [e]) == [d[0].key] + Keys(d[1..] + [e]);
    }
  }

  // What `move_to_end` (with a new value or not) does to the dictionary.
  lemma MoveToEnd<V>(d: seq<Item<V>>, e: Item<V>)
    requires Distinct(d)
    ensures
      var moved := Remove(d, e.key) + [e];
      && Distinct(moved)
      && |moved| == |d| + (if Find(d, e.key).Some? then 0 else 1)
      && Keys(moved) == Without(Keys(d), e.key) + [e.key]
      && forall k :: Find(moved, k) == if k == e.key then Some(e) else Find(d, k)
  {
    var rest := Remove(d, e.key);
    RemoveOne(d, e.key);
    FindAfterRemove(d, e.key, e.key);
    AppendNew(rest, e);
    forall k
      ensures Find(rest + [e], k) == if k == e.key then Some(e) else Find(d, k)
    {
      FindAfterRemove(d, e.key, k);
      FindAfterAppend(rest, e, k);
    }
  }

  // What `popitem(last=False)` does to the dictionary.
  lemma PopFirst<V>(d: seq<Item<V>>)
    requires Distinct(d) && d != []
    ensures Distinct(d[1..]) && Keys(d[1..]) == Keys(d)[1..]
    ensures forall k :: Find(d[1..], k) == if k == d[0].key then None else Find(d, k)
  {
  }

  function Without(ks: seq<Key>, key: Key): seq<Key> {
    if ks == [] then []
    else if ks[0] == key then Without(ks[1..], key)
    else [ks[0]] + Without(ks[1..], key)
  }

  // `d[key] = value`: in place when the key is known, at the end when it is new.
  function Assign<V>(d: seq<Item<V>>, key: Key, value: V): seq<Item<V>> {
    if d == [] then [Item(key, value)]
    else if d[0].key == key then [Item(key, value)] + d[1..]
    else [d[0]] + Assign(d[1..], key, value)
  }

  lemma {:induction false} AssignOne<V>(d: seq<Item<V>>, key: Key, value: V)
    requires Distinct(d)
    ensures
      var t := Assign(d, key, value);
      && Distinct(t)
      && |t| == |d| + (if Find(d, key).Some? then 0 else 1)
      && forall k :: Find(t, k) == if k == key then Some(Item(key, value)) else Find(d, k)
  {
    if d != [] && d[0].key != key {
      AssignOne(d[1..], key, value);
    }
  }

  // Deleting the keys of a list one by one.
  function RemoveAll<V>(d: seq<Item<V>>, ks: seq<Key>): seq<Item<V>>
    decreases ks
  {
    if ks == [] then d else RemoveAll(Remove(d, ks[0]), ks[1..])
  }

  ghost predicate NoRepeats(ks: seq<Key>) {
    forall i, j :: 0 <= i < j < |ks| ==> ks[i] != ks[j]
  }

  lemma {:induction false} RemoveMany<V>(d: seq<Item<V>>, ks: seq<Key>)
    requires Distinct(d) && NoRepeats(ks)
    requires forall k :: k in ks ==> Find(d, k).Some?
    ensures
      var t := RemoveAll(d, ks);
      && Distinct(t) && |t| == |d| - |ks|
      && forall k :: Find(t, k) == if k in ks then None else Find(d, k)
    decreases ks
  {
    if ks != [] {
      var rest := Remove(d, ks[0]);
      RemoveOne(d, ks[0]);
      forall k
        ensures Find(rest, k) == if k == ks[0] then None else Find(d, k)
      {
        FindAfterRemove(d, ks[0], k);
      }
      assert ks == [ks[0]] + ks[1..] && ks[0] !in ks[1..];
      hide Distinct, Find, Remove, Keys, Without;
      RemoveMany(rest, ks[1..]);
    }
  }

  lemma {:induction false} RemoveAllAppend<V>(d: seq<Item<V>>, ks: seq<Key>, k: Key)
    ensures RemoveAll(d, ks + [k]) == Remove(RemoveAll(d, ks), k)
    decreases ks
  {
    if ks == [] {
      assert [] + [k] == [k];
      assert [k][1..] == [];
    } else {
      assert (ks + [k])[1..] == ks[1..] + [k];
      RemoveAllAppend(Remove(d, ks[0]), ks[1..], k);
    }
  }

  lemma {:induction false} DistinctKeys<V>(d: seq<Item<V>>)
    requires Distinct(d)
    ensures NoRepeats(Keys(d))
  {
    if d != [] {
      DistinctKeys(d[1..]);
      FindGivesKey(d[1..], d[0].key);
      assert Keys(d) == [d[0].key] + Keys(d[1..]);
    }
  }

  // An item at the end is taken out, or given a new value, without moving the others.
  lemma {:induction false} LastItem<V>(d: seq<Item<V>>, key: Key, v: V, w: V)
    requires Find(d, key).None?
    ensures Find(d + [Item(key, v)], key) == Some(Item(key, v))
    ensures Remove(d + [Item(key, v)], key) == d
    ensures Assign(d + [Item(key, v)], key, w) == d + [Item(key, w)]
  {
    var t := d + [Item(key, v)];
    if d == [] {
      assert t == [Item(key, v)] && t[1..] == [];
    } else {
      assert t[1..] == d[1..] + [Item(key, v)];
      LastItem(d[1..], key, v, w);
    }
  }

  lemma {:induction false} AssignNew<V>(d: seq<Item<V>>, key: Key, v: V)
    requires Find(d, key).None?
    ensures Assign(d, key, v) == d + [Item(key, v)]
  {
    if d != [] {
      AssignNew(d[1..], key, v);
    }
  }
}
