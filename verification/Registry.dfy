/**
 The loop every validator repeats: walk a list, refuse an entry that is not valid or
 whose key is already taken, and keep a map from key to entry.
 */
module Registry {
  import opened Options

  ghost predicate AllValid<U>(items: seq<U>, valid: U -> bool) {
    forall i :: 0 <= i < |items| ==> valid(items[i])
  }

  ghost predicate Distinct<U, K>(items: seq<U>, key: U -> K) {
    forall i, j :: 0 <= i < j < |items| ==> key(items[i]) != key(items[j])
  }

  /** index maps the key of every entry to that entry, and has no other key. */
  ghost predicate Indexes<U, K>(index: map<K, U>, items: seq<U>, key: U -> K) {
    && (forall i :: 0 <= i < |items| ==> key(items[i]) in index && index[key(items[i])] == items[i])
    && (forall k :: k in index ==> index[k] in items && key(index[k]) == k)
  }

  lemma IndexGrows<U, K>(index: map<K, U>, items: seq<U>, key: U -> K, item: U)
    requires Indexes(index, items, key) && key(item) !in index
    ensures Indexes(index[key(item) := item], items + [item], key)
  {
  }

  /** A list of different keys stays one exactly when the newcomer's key is new. */
  lemma DistinctJoins<U, K>(items: seq<U>, key: U -> K, item: U)
    requires Distinct(items, key)
    ensures Distinct(items + [item], key) <==> forall v :: v in items ==> key(v) != key(item)
  {
    var more := items + [item];
    assert more[|items|] == item;
    assert forall i :: 0 <= i < |items| ==> more[i] == items[i] && items[i] in items;
    if Distinct(more, key) {
      forall v | v in items
        ensures key(v) != key(item)
      {
        var i :| 0 <= i < |items| && items[i] == v;
        assert key(more[i]) != key(more[|items|]);
      }
    }
  }

  /** Accepts exactly the lists of valid entries with pairwise different keys. */
  method Register<U, K(==)>(items: seq<U>, valid: U -> bool, key: U -> K) returns (index: Option<map<K, U>>)
    ensures index.Some? <==> AllValid(items, valid) && Distinct(items, key)
    ensures index.Some? ==> Indexes(index.value, items, key)
  {
    var taken: map<K, U> := map[];
    for i := 0 to |items|
      invariant AllValid(items[..i], valid) && Distinct(items[..i], key)
      invariant Indexes(taken, items[..i], key)
    {
      var item := items[i];
      if !valid(item) {
        return None;
      }
      if key(item) in taken {
        ghost var j :| 0 <= j < i && items[..i][j] == taken[key(item)];
        assert key(items[j]) == key(items[i]);
        return None;
      }
      taken := taken[key(item) := item];
      assert items[..i + 1] == items[..i] + [item];
    }
    assert items[..|items|] == items;
    index := Some(taken);
  }
}
