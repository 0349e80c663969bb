// Insertion-ordered tables: setting a key that is there keeps its place, a new key goes to the end.

module Tables {
  import opened Lines

  datatype Entry<+K, +V> = Entry(key: K, value: V)

  type Table<K, V> = seq<Entry<K, V>>

  function Get<K(==), V>(t: Table<K, V>, key: K): Option<V> {
    if |t| == 0 then None
    else
      var last := t[|t| - 1];
      if last.key == key then Some(last.value) else Get(t[..|t| - 1], key)
  }

  function Put<K(==), V>(t: Table<K, V>, key: K, value: V): Table<K, V> {
    if Get(t, key).None? then t + [Entry(key, value)]
    else
      var n := |t| - 1;
      if t[n].key == key then t[..n] + [Entry(key, value)] else Put(t[..n], key, value) + [t[n]]
  }

  ghost predicate OneEach<K, V>(t: Table<K, V>) {
    forall i, j :: 0 <= i < j < |t| ==> t[i].key != t[j].key
  }

  ghost predicate Lists<K, V>(t: Table<K, V>, key: K) {
    exists i :: 0 <= i < |t| && t[i].key == key
  }

  lemma GetSnoc<K, V>(t: Table<K, V>, e: Entry<K, V>, key: K)
    ensures Get(t + [e], key) == if e.key == key then Some(e.value) else Get(t, key)
  {
    assert (t + [e])[..|t|] == t;
  }

  lemma {:induction false} GetMeans<K, V>(t: Table<K, V>, key: K)
    ensures Get(t, key).Some? <==> Lists(t, key)
  {
    if |t| > 0 {
      var n := |t| - 1;
      GetMeans(t[..n], key);
      assert forall i :: 0 <= i < n ==> t[..n][i] == t[i];
      assert t[n].key == key ==> Lists(t, key);
      if Lists(t[..n], key) {
        var i :| 0 <= i < n && t[..n][i].key == key;
        assert t[i].key == key;
      }
    }
  }

  lemma {:induction false} GetAt<K, V>(t: Table<K, V>, i: nat)
    requires OneEach(t) && i < |t|
    ensures Get(t, t[i].key) == Some(t[i].value)
    decreases |t|
  {
    var n := |t| - 1;
    if i < n {
      assert OneEach(t[..n]);
      GetAt(t[..n], i);
    }
  }

  lemma {:induction false} PutGet<K, V>(t: Table<K, V>, key: K, value: V, other: K)
    ensures Get(Put(t, key, value), other) == if other == key then Some(value) else Get(t, other)
  {
    if Get(t, key).None? {
      GetSnoc(t, Entry(key, value), other);
    } else {
      var n := |t| - 1;
      PutGet(t[..n], key, value, other);
      GetSnoc(t[..n], Entry(key, value), other);
      GetSnoc(Put(t[..n], key, value), t[n], other);
    }
  }

  // A key that is there keeps its place and so does every other.
  lemma {:induction false} PutKeepsPlaces<K, V>(t: Table<K, V>, key: K, value: V)
    requires OneEach(t) && Lists(t, key)
    ensures |Put(t, key, value)| == |t|
    ensures forall i :: 0 <= i < |t| ==> Put(t, key, value)[i] == if t[i].key == key then Entry(key, value) else t[i]
  {
    GetMeans(t, key);
    var n := |t| - 1;
    if t[n].key != key {
      GetMeans(t[..n], key);
      PutKeepsPlaces(t[..n], key, value);
    }
  }

  // A new key goes to the end.
  lemma PutAtTheEnd<K, V>(t: Table<K, V>, key: K, value: V)
    requires !Lists(t, key)
    ensures Put(t, key, value) == t + [Entry(key, value)]
  {
    GetMeans(t, key);
  }

  lemma PutLists<K, V>(t: Table<K, V>, key: K, value: V, other: K)
    ensures Lists(Put(t, key, value), other) <==> other == key || Lists(t, other)
  {
    PutGet(t, key, value, other);
    GetMeans(t, other);
    GetMeans(Put(t, key, value), other);
  }

  lemma SnocOneEach<K, V>(t: Table<K, V>, e: Entry<K, V>)
    requires OneEach(t) && !Lists(t, e.key)
    ensures OneEach(t + [e])
  {
  }

  lemma PutKeepsOneEach<K, V>(t: Table<K, V>, key: K, value: V)
    requires OneEach(t)
    ensures OneEach(Put(t, key, value))
  {
    if Lists(t, key) {
      PutKeepsPlaces(t, key, value);
    } else {
      PutAtTheEnd(t, key, value);
      SnocOneEach(t, Entry(key, value));
    }
  }
}
