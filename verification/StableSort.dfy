/** Python's list.sort and sorted: a stable sort by a numeric key, ascending.
    A descending stable sort (reverse=True) is the same sort on the negated key. */
module StableSort {
  import opened Seqs

  ghost predicate Sorted<T>(xs: seq<T>, key: T -> real) {
    forall i, j | 0 <= i < j < |xs| :: key(xs[i]) <= key(xs[j])
  }

  /** The elements with key v, in their order. */
  function WithKey<T>(xs: seq<T>, key: T -> real, v: real): seq<T> {
    if xs == [] then []
    else if key(xs[0]) == v then [xs[0]] + WithKey(xs[1..], key, v)
    else WithKey(xs[1..], key, v)
  }

  /** b is a stable sort of a: ordered, and elements with equal keys keep their order. */
  ghost predicate StableSortOf<T>(b: seq<T>, a: seq<T>, key: T -> real) {
    Sorted(b, key) && forall v :: WithKey(b, key, v) == WithKey(a, key, v)
  }

  function Insert<T>(x: T, xs: seq<T>, key: T -> real): seq<T> {
    if xs == [] || key(x) <= key(xs[0]) then [x] + xs
    else [xs[0]] + Insert(x, xs[1..], key)
  }

  function SortBy<T>(xs: seq<T>, key: T -> real): seq<T> {
    if xs == [] then [] else Insert(xs[0], SortBy(xs[1..], key), key)
  }

  lemma {:induction false} InsertMultiset<T>(x: T, xs: seq<T>, key: T -> real)
    ensures multiset(Insert(x, xs, key)) == multiset(xs) + multiset{x}
  {
    if xs == [] || key(x) <= key(xs[0]) {
    } else {
      InsertMultiset(x, xs[1..], key);
      assert xs == [xs[0]] + xs[1..];
    }
  }

  lemma {:induction false} SortByMultiset<T>(xs: seq<T>, key: T -> real)
    ensures multiset(SortBy(xs, key)) == multiset(xs)
    ensures |SortBy(xs, key)| == |xs|
  {
    if xs != [] {
      SortByMultiset(xs[1..], key);
      InsertMultiset(xs[0], SortBy(xs[1..], key), key);
      assert xs == [xs[0]] + xs[1..];
      assert |multiset(SortBy(xs, key))| == |multiset(xs)|;
    }
  }

  lemma {:induction false} InsertSorted<T>(x: T, xs: seq<T>, key: T -> real)
    requires Sorted(xs, key)
    ensures Sorted(Insert(x, xs, key), key)
  {
    if xs == [] || key(x) <= key(xs[0]) {
    } else {
      InsertSorted(x, xs[1..], key);
      var r := Insert(x, xs[1..], key);
      forall j | 0 <= j < |r| ensures key(xs[0]) <= key(r[j]) {
        InsertMultiset(x, xs[1..], key);
        assert r[j] in multiset(r);
      }
    }
  }

  lemma {:induction false} InsertWithKey<T>(x: T, xs: seq<T>, key: T -> real, v: real)
    requires Sorted(xs, key)
    ensures WithKey(Insert(x, xs, key), key, v) == WithKey([x] + xs, key, v)
  {
    assert ([x] + xs)[1..] == xs;
    if xs == [] || key(x) <= key(xs[0]) {
    } else {
      InsertWithKey(x, xs[1..], key, v);
      assert ([x] + xs[1..])[1..] == xs[1..];
    }
  }

  lemma {:induction false} SortByIsStable<T>(xs: seq<T>, key: T -> real)
    ensures StableSortOf(SortBy(xs, key), xs, key)
  {
    if xs != [] {
      var tail := SortBy(xs[1..], key);
      SortByIsStable(xs[1..], key);
      InsertSorted(xs[0], tail, key);
      forall v ensures WithKey(SortBy(xs, key), key, v) == WithKey(xs, key, v) {
        InsertWithKey(xs[0], tail, key, v);
        assert ([xs[0]] + tail)[1..] == tail;
      }
    }
  }

  lemma {:induction false} WithKeyIn<T>(xs: seq<T>, key: T -> real, v: real)
    ensures forall y :: y in WithKey(xs, key, v) <==> y in xs && key(y) == v
  {
    if xs != [] { WithKeyIn(xs[1..], key, v); }
  }

  lemma SortByIn<T>(xs: seq<T>, key: T -> real)
    ensures forall y :: y in SortBy(xs, key) <==> y in xs
  {
    SortByMultiset(xs, key);
    forall y ensures y in SortBy(xs, key) <==> y in xs {
      assert y in multiset(SortBy(xs, key)) <==> y in multiset(xs);
    }
  }

  /** The contract of a stable sort has one solution, so SortBy stands for whatever
      algorithm the library runs. */
  lemma {:induction false} StableSortUnique<T>(a: seq<T>, b: seq<T>, key: T -> real)
    requires Sorted(a, key) && Sorted(b, key)
    requires forall v :: WithKey(a, key, v) == WithKey(b, key, v)
    ensures a == b
  {
    if a == [] {
      var v := if b == [] then 0.0 else key(b[0]);
      assert WithKey(a, key, v) == [] == WithKey(b, key, v);
    } else {
      var ka := key(a[0]);
      assert WithKey(a, key, ka)[0] == a[0];
      WithKeyIn(b, key, ka);
      assert a[0] in WithKey(b, key, ka);
      var kb := key(b[0]);
      assert WithKey(b, key, kb)[0] == b[0];
      WithKeyIn(a, key, kb);
      assert b[0] in WithKey(a, key, kb);
      assert ka == kb;
      forall v ensures WithKey(a[1..], key, v) == WithKey(b[1..], key, v) {
        assert WithKey(a, key, v) == WithKey(b, key, v);
        if v == ka {
          assert WithKey(a[1..], key, v) == WithKey(a, key, v)[1..];
          assert WithKey(b[1..], key, v) == WithKey(b, key, v)[1..];
        }
      }
      StableSortUnique(a[1..], b[1..], key);
      assert a == [a[0]] + a[1..] && b == [b[0]] + b[1..];
    }
  }

  /** Whatever algorithm sorts stably, its result is SortBy's; a list in order stays as it is. */
  lemma {:induction false} AnyStableSort<T>(a: seq<T>, b: seq<T>, key: T -> real)
    requires StableSortOf(b, a, key)
    ensures b == SortBy(a, key)
  {
    SortByIsStable(a, key);
    forall v ensures WithKey(b, key, v) == WithKey(SortBy(a, key), key, v) {
      assert WithKey(b, key, v) == WithKey(a, key, v);
    }
    StableSortUnique(b, SortBy(a, key), key);
  }

  /** In order of key, and of rank among equal keys. */
  ghost predicate InOrder<T>(xs: seq<T>, key: T -> real, rank: T -> int) {
    forall i, j | 0 <= i < j < |xs| ::
      key(xs[i]) < key(xs[j]) || (key(xs[i]) == key(xs[j]) && rank(xs[i]) < rank(xs[j]))
  }

  lemma InsertIn<T>(x: T, xs: seq<T>, key: T -> real)
    ensures forall y | y in Insert(x, xs, key) :: y == x || y in xs
  {
    InsertMultiset(x, xs, key);
    forall y | y in Insert(x, xs, key) ensures y == x || y in xs {
      assert y in multiset(Insert(x, xs, key));
    }
  }

  lemma {:induction false} InsertInOrder<T>(x: T, xs: seq<T>, key: T -> real, rank: T -> int)
    requires InOrder(xs, key, rank) && forall y | y in xs :: rank(x) < rank(y)
    ensures InOrder(Insert(x, xs, key), key, rank)
  {
    if xs == [] || key(x) <= key(xs[0]) {
      forall j | 0 <= j < |xs| ensures key(x) < key(xs[j]) || (key(x) == key(xs[j]) && rank(x) < rank(xs[j])) {
        assert xs[j] in xs;
      }
    } else {
      InsertInOrder(x, xs[1..], key, rank);
      var r := Insert(x, xs[1..], key);
      InsertIn(x, xs[1..], key);
      forall j | 0 <= j < |r|
        ensures key(xs[0]) < key(r[j]) || (key(xs[0]) == key(r[j]) && rank(xs[0]) < rank(r[j]))
      {
        if r[j] in xs[1..] {
          var k :| 1 <= k < |xs| && xs[k] == r[j];
        }
      }
    }
  }

  /** Sorting by key what comes in order of rank leaves equal keys in order of rank. */
  lemma {:induction false} SortKeepsOrder<T>(xs: seq<T>, key: T -> real, rank: T -> int)
    requires forall i, j | 0 <= i < j < |xs| :: rank(xs[i]) < rank(xs[j])
    ensures InOrder(SortBy(xs, key), key, rank)
  {
    if xs != [] {
      SortKeepsOrder(xs[1..], key, rank);
      forall y | y in SortBy(xs[1..], key) ensures rank(xs[0]) < rank(y) {
        SortByMultiset(xs[1..], key);
        assert y in multiset(SortBy(xs[1..], key));
        var k :| 0 <= k < |xs[1..]| && xs[1..][k] == y;
        assert xs[k + 1] == y;
      }
      InsertInOrder(xs[0], SortBy(xs[1..], key), key, rank);
    }
  }

  /** Cutting a sorted list keeps the best. */
  lemma KeptBeatCut<T>(all: seq<T>, key: T -> real, k: int)
    requires Sorted(all, key)
    ensures forall r, c | r in Upto(all, k) && c in all && c !in Upto(all, k) :: key(r) <= key(c)
  {
    var kept := Upto(all, k);
    forall r, c | r in kept && c in all && c !in kept ensures key(r) <= key(c) {
      var i :| 0 <= i < |kept| && kept[i] == r;
      var j :| 0 <= j < |all| && all[j] == c;
      assert all[i] == r;
      assert forall m | 0 <= m < |kept| :: kept[m] == all[m] && kept[m] in kept;
    }
  }
}
