// Grouping a list by a key, groups in order of first appearance.

module Grouping {

  // The items with key k, in order.
  function With<T, K(==)>(key: T -> K, items: seq<T>, k: K): (r: seq<T>)
    ensures forall i :: 0 <= i < |r| ==> r[i] in items && key(r[i]) == k
  {
    if |items| == 0 then []
    else
      var n := |items| - 1;
      With(key, items[..n], k) + if key(items[n]) == k then [items[n]] else []
  }

  lemma WithSnoc<T, K>(key: T -> K, items: seq<T>, item: T, k: K)
    ensures With(key, items + [item], k) == With(key, items, k) + if key(item) == k then [item] else []
  {
    assert (items + [item])[..|items|] == items;
  }

  lemma {:induction false} WithComplete<T, K>(key: T -> K, items: seq<T>, k: K, i: nat)
    requires i < |items| && key(items[i]) == k
    ensures items[i] in With(key, items, k)
  {
    var n := |items| - 1;
    if i < n {
      WithComplete(key, items[..n], k, i);
      assert items[..n][i] == items[i];
    }
  }

  datatype Group<K, T> = Group(key: K, items: seq<T>)

  // One group a key, each with all the items of its key in their order.
  ghost predicate Grouped<T, K>(key: T -> K, items: seq<T>, groups: seq<Group<K, T>>) {
    && (forall g :: 0 <= g < |groups| ==> groups[g].items == With(key, items, groups[g].key) && |groups[g].items| > 0)
    && (forall g, h :: 0 <= g < h < |groups| ==> groups[g].key != groups[h].key)
    && (forall i {:trigger items[i]} :: 0 <= i < |items| ==> HasKey(groups, key(items[i])))
  }

  ghost predicate HasKey<T, K>(groups: seq<Group<K, T>>, k: K) {
    exists g :: 0 <= g < |groups| && groups[g].key == k
  }

  function Find<T, K(==)>(groups: seq<Group<K, T>>, k: K): (g: nat)
    ensures g <= |groups| && (g < |groups| ==> groups[g].key == k)
    ensures forall h :: 0 <= h < g ==> groups[h].key != k
  {
    if |groups| == 0 || groups[0].key == k then 0 else 1 + Find(groups[1..], k)
  }

  // One turn of the loop: the item joins its group, or opens one.
  function Insert<T, K(==)>(groups: seq<Group<K, T>>, k: K, item: T): seq<Group<K, T>> {
    var g := Find(groups, k);
    if g < |groups| then groups[g := Group(k, groups[g].items + [item])] else groups + [Group(k, [item])]
  }

  lemma InsertHas<T, K>(groups: seq<Group<K, T>>, k: K, item: T, other: K)
    ensures HasKey(Insert(groups, k, item), other) <==> other == k || HasKey(groups, other)
  {
    var g, more := Find(groups, k), Insert(groups, k, item);
    assert more[g].key == k;
    forall h | 0 <= h < |groups| ensures more[h].key == groups[h].key {
    }
  }

  lemma InsertGroups<T, K>(key: T -> K, items: seq<T>, groups: seq<Group<K, T>>, item: T, h: nat)
    requires Grouped(key, items, groups) && h < |Insert(groups, key(item), item)|
    ensures var group := Insert(groups, key(item), item)[h];
            group.items == With(key, items + [item], group.key) && |group.items| > 0
  {
    var more := Insert(groups, key(item), item);
    WithSnoc(key, items, item, more[h].key);
    TwoWith(key, items, key(item));
  }

  lemma InsertKeeps<T, K>(key: T -> K, items: seq<T>, groups: seq<Group<K, T>>, item: T)
    requires Grouped(key, items, groups)
    ensures Grouped(key, items + [item], Insert(groups, key(item), item))
  {
    var more := Insert(groups, key(item), item);
    forall h | 0 <= h < |more|
      ensures more[h].items == With(key, items + [item], more[h].key) && |more[h].items| > 0
    {
      InsertGroups(key, items, groups, item, h);
    }
    forall i {:trigger (items + [item])[i]} | 0 <= i < |items| + 1 ensures HasKey(more, key((items + [item])[i])) {
      InsertHas(groups, key(item), item, key((items + [item])[i]));
      assert i < |items| ==> items[i] == (items + [item])[i];
    }
  }

  function Groups<T, K(==)>(key: T -> K, items: seq<T>): seq<Group<K, T>> {
    if |items| == 0 then []
    else
      var n := |items| - 1;
      Insert(Groups(key, items[..n]), key(items[n]), items[n])
  }

  lemma {:induction false} GroupsAreGrouped<T, K>(key: T -> K, items: seq<T>)
    ensures Grouped(key, items, Groups(key, items))
  {
    if |items| > 0 {
      var n := |items| - 1;
      GroupsAreGrouped(key, items[..n]);
      InsertKeeps(key, items[..n], Groups(key, items[..n]), items[n]);
      assert items == items[..n] + [items[n]];
    }
  }

  method GroupBy<T, K(==)>(key: T -> K, items: seq<T>) returns (groups: seq<Group<K, T>>)
    ensures groups == Groups(key, items) && Grouped(key, items, groups)
  {
    groups := [];
    for n := 0 to |items|
      invariant groups == Groups(key, items[..n])
    {
      groups := Insert(groups, key(items[n]), items[n]);
      assert items[..n + 1][..n] == items[..n];
    }
    assert items[..|items|] == items;
    GroupsAreGrouped(key, items);
  }

  // Two items share a key.
  ghost predicate Shares<T, K>(key: T -> K, items: seq<T>) {
    exists i, j :: 0 <= i < j < |items| && key(items[i]) == key(items[j])
  }

  lemma {:induction false} TwoWith<T, K>(key: T -> K, items: seq<T>, k: K)
    ensures |With(key, items, k)| >= 1 <==> exists i :: 0 <= i < |items| && key(items[i]) == k
    ensures |With(key, items, k)| >= 2 <==> exists i, j :: 0 <= i < j < |items| && key(items[i]) == k == key(items[j])
  {
    if |items| > 0 {
      var n := |items| - 1;
      var front := items[..n];
      TwoWith(key, front, k);
      assert forall i :: 0 <= i < n ==> front[i] == items[i];
    }
  }

  ghost predicate SomePair<T, K>(groups: seq<Group<K, T>>) {
    exists g :: 0 <= g < |groups| && |groups[g].items| >= 2
  }

  // Two items share a key exactly when some group holds two.
  lemma SharedGroup<T, K>(key: T -> K, items: seq<T>)
    ensures Shares(key, items) <==> SomePair(Groups(key, items))
  {
    var groups := Groups(key, items);
    GroupsAreGrouped(key, items);
    if Shares(key, items) {
      var i, j :| 0 <= i < j < |items| && key(items[i]) == key(items[j]);
      assert HasKey(groups, key(items[i]));
      var g :| 0 <= g < |groups| && groups[g].key == key(items[i]);
      TwoWith(key, items, groups[g].key);
    }
    forall g | 0 <= g < |groups| && |groups[g].items| >= 2 ensures Shares(key, items) {
      TwoWith(key, items, groups[g].key);
    }
  }
}
