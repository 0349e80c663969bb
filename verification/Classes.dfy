// An insertion-ordered map from a key to the first item that has it.

module Classes {

  ghost predicate OnePerKey<P(!new), K>(key: P -> K, classes: seq<P>, keys: set<K>) {
    && (forall i :: 0 <= i < |classes| ==> key(classes[i]) in keys)
    && (forall k :: k in keys ==> Has(key, classes, k))
    && (forall i, j :: 0 <= i < j < |classes| ==> key(classes[i]) != key(classes[j]))
  }

  ghost predicate Has<P(!new), K>(key: P -> K, classes: seq<P>, k: K) {
    exists i :: 0 <= i < |classes| && key(classes[i]) == k
  }

  method Add<P(!new), K(==)>(key: P -> K, classes: seq<P>, keys: set<K>, p: P)
    returns (more: seq<P>, moreKeys: set<K>)
    requires OnePerKey(key, classes, keys)
    ensures OnePerKey(key, more, moreKeys)
    ensures moreKeys == keys + {key(p)}
    ensures more == if key(p) in keys then classes else classes + [p]
  {
    more, moreKeys := classes, keys;
    if key(p) !in keys {
      more, moreKeys := classes + [p], keys + {key(p)};
      forall k | k in moreKeys ensures Has(key, more, k) {
        if k in keys {
          var i :| 0 <= i < |classes| && key(classes[i]) == k;
          assert more[i] == classes[i];
        } else {
          assert more[|classes|] == p;
        }
      }
    }
  }
}
