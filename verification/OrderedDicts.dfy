/** Python's dict and OrderedDict: a key has one value, and keys keep the order of insertion. */
module OrderedDicts {
  import opened Options
  import opened Seqs

  type Dict<K, V> = seq<(K, V)>

  function Keys<K, V>(d: Dict<K, V>): (ks: seq<K>)
    ensures |ks| == |d|
    ensures forall i | 0 <= i < |d| :: ks[i] == d[i].0
  {
    if d == [] then [] else [d[0].0] + Keys(d[1..])
  }

  function Get<K(==), V>(d: Dict<K, V>, k: K): Option<V> {
    if d == [] then None
    else if d[0].0 == k then Some(d[0].1)
    else Get(d[1..], k)
  }

  /** d[k] = v: a known key keeps its place. */
  function Put<K(==), V>(d: Dict<K, V>, k: K, v: V): Dict<K, V> {
    if d == [] then [(k, v)]
    else if d[0].0 == k then [(k, v)] + d[1..]
    else [d[0]] + Put(d[1..], k, v)
  }

  function Remove<K(==), V>(d: Dict<K, V>, k: K): Dict<K, V> {
    if d == [] then []
    else if d[0].0 == k then d[1..]
    else [d[0]] + Remove(d[1..], k)
  }

  lemma {:induction false} GetIn<K, V>(d: Dict<K, V>, k: K)
    ensures Get(d, k).Some? <==> k in Keys(d)
    ensures Get(d, k).Some? ==> (k, Get(d, k).value) in d
  {
    if d != [] {
      assert d == [d[0]] + d[1..] && Keys(d) == [d[0].0] + Keys(d[1..]);
      GetIn(d[1..], k);
    }
  }

  lemma {:induction false} PutKeys<K, V>(d: Dict<K, V>, k: K, v: V)
    ensures Keys(Put(d, k, v)) == if k in Keys(d) then Keys(d) else Keys(d) + [k]
  {
    if d != [] {
      assert Keys(d) == [d[0].0] + Keys(d[1..]);
      if d[0].0 == k {
        assert Keys([(k, v)] + d[1..]) == Keys(d);
      } else {
        PutKeys(d[1..], k, v);
        assert Keys(Put(d, k, v)) == [d[0].0] + Keys(Put(d[1..], k, v));
      }
    }
  }

  lemma {:induction false} PutDistinct<K, V>(d: Dict<K, V>, k: K, v: V)
    requires Distinct(Keys(d))
    ensures Distinct(Keys(Put(d, k, v)))
  {
    PutKeys(d, k, v);
  }

  lemma {:induction false} PutItems<K, V>(d: Dict<K, V>, k: K, v: V)
    ensures (k, v) in Put(d, k, v)
    ensures forall item | item in Put(d, k, v) :: item == (k, v) || item in d
  {
    if d != [] {
      assert d == [d[0]] + d[1..];
      if d[0].0 != k { PutItems(d[1..], k, v); }
    }
  }

  /** The dict a loop of d[key(v)] = v builds. */
  function Index<K(==), V>(key: V -> K, items: seq<V>): Dict<K, V> {
    if items == [] then []
    else
      var v := items[|items| - 1];
      Put(Index(key, items[..|items| - 1]), key(v), v)
  }

  lemma {:induction false} IndexKeys<K, V>(key: V -> K, items: seq<V>)
    ensures Distinct(Keys(Index(key, items)))
    ensures forall v | v in items :: key(v) in Keys(Index(key, items))
  {
    if items != [] {
      var n := |items| - 1;
      var before, v := Index(key, items[..n]), items[n];
      IndexKeys(key, items[..n]);
      PutDistinct(before, key(v), v);
      PutKeys(before, key(v), v);
      assert items == items[..n] + [v];
    }
  }

  /** Keys stand in the order in which they first appear. */
  lemma {:induction false} IndexOrder<K, V>(key: V -> K, items: seq<V>)
    ensures InFirstOrder(Keys(Index(key, items)), Map(key, items))
    ensures forall k | k in Keys(Index(key, items)) :: k in Map(key, items)
    ensures forall k | k in Map(key, items) :: k in Keys(Index(key, items))
  {
    if items != [] {
      var n := |items| - 1;
      var before, v := Index(key, items[..n]), items[n];
      IndexOrder(key, items[..n]);
      PutKeys(before, key(v), v);
      assert items == items[..n] + [v];
      MapAdd(key, items[..n], v);
      FirstOrderOnwards(Keys(before), Map(key, items[..n]), key(v));
    }
  }

  ghost predicate OwnItem<K, V>(key: V -> K, items: seq<V>, item: (K, V)) {
    item.0 == key(item.1) && item.1 in items
  }

  lemma {:induction false} IndexItems<K, V>(key: V -> K, items: seq<V>)
    ensures forall item | item in Index(key, items) :: OwnItem(key, items, item)
  {
    if items != [] {
      var n := |items| - 1;
      var v := items[n];
      IndexItems(key, items[..n]);
      PutItems(Index(key, items[..n]), key(v), v);
      assert items == items[..n] + [v];
      forall item | item in Index(key, items) ensures OwnItem(key, items, item) {
        assert item == (key(v), v) || OwnItem(key, items[..n], item);
      }
    }
  }

  lemma {:induction false} PutNew<K, V>(d: Dict<K, V>, k: K, v: V)
    requires k !in Keys(d)
    ensures Put(d, k, v) == d + [(k, v)]
  {
    if d != [] {
      assert Keys(d) == [d[0].0] + Keys(d[1..]);
      PutNew(d[1..], k, v);
      assert d == [d[0]] + d[1..];
    }
  }

  /** With distinct keys nothing is replaced. */
  lemma {:induction false} IndexDistinct<K, V>(key: V -> K, items: seq<V>)
    requires Distinct(Map(key, items))
    ensures |Index(key, items)| == |items|
    ensures forall i | 0 <= i < |items| :: Index(key, items)[i] == (key(items[i]), items[i])
  {
    if items != [] {
      var n := |items| - 1;
      var init, v := items[..n], items[n];
      MapAdd(key, init, v);
      assert items == init + [v];
      forall i, j | 0 <= i < j < n ensures Map(key, init)[i] != Map(key, init)[j] {
        assert Map(key, items)[i] != Map(key, items)[j];
      }
      IndexDistinct(key, init);
      forall i | 0 <= i < n ensures Keys(Index(key, init))[i] != key(v) {
        assert Map(key, items)[i] != Map(key, items)[n];
      }
      PutNew(Index(key, init), key(v), v);
    }
  }
}
