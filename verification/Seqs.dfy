module Seqs {
  import opened Options

  /** [f(x) for x in s]. */
  function Map<A, B>(f: A -> B, s: seq<A>): (r: seq<B>)
    ensures |r| == |s|
    ensures forall i | 0 <= i < |s| :: r[i] == f(s[i])
  {
    seq(|s|, i requires 0 <= i < |s| => f(s[i]))
  }

  lemma MapAdd<A, B>(f: A -> B, s: seq<A>, x: A)
    ensures Map(f, s + [x]) == Map(f, s) + [f(x)]
    ensures Map(f, []) == []
  {
    assert Map(f, s + [x]) == Map(f, s) + [f(x)];
  }

  /** functools.reduce, or a loop that folds every element into a state. */
  function Fold<A, B>(f: (A, B) -> A, a: A, s: seq<B>): A {
    if s == [] then a else f(Fold(f, a, s[..|s| - 1]), s[|s| - 1])
  }

  lemma FoldOneMore<A, B>(f: (A, B) -> A, a: A, s: seq<B>, x: B)
    ensures Fold(f, a, s + [x]) == f(Fold(f, a, s), x)
  {
    assert (s + [x])[..|s|] == s;
  }

  lemma PrefixStep<T>(s: seq<T>, i: int)
    requires 0 <= i < |s|
    ensures s[..i + 1] == s[..i] + [s[i]]
    ensures s[..i + 1][..i] == s[..i]
  {}

  lemma WholePrefix<T>(s: seq<T>)
    ensures s[..|s|] == s
  {}

  lemma AddAssociates<T>(a: seq<T>, b: seq<T>, c: seq<T>)
    ensures a + (b + c) == a + b + c
  {}

  lemma SliceAdd<T>(a: seq<T>, b: seq<T>, i: int)
    requires 0 <= i <= |a|
    ensures (a + b)[..i] == a[..i] && (a + b)[i..] == a[i..] + b
  {}

  ghost predicate Distinct<T>(s: seq<T>) {
    forall i, j | 0 <= i < j < |s| :: s[i] != s[j]
  }

  /** s without its k-th element. */
  function Without<T>(s: seq<T>, k: nat): (r: seq<T>)
    requires k < |s|
    ensures |r| == |s| - 1
    ensures forall i | 0 <= i < |r| :: r[i] == s[if i < k then i else i + 1]
  {
    s[..k] + s[k + 1..]
  }

  lemma DistinctWithout<T>(s: seq<T>, k: nat)
    requires Distinct(s) && k < |s|
    ensures Distinct(Without(s, k)) && s[k] !in Without(s, k)
  {}

  /** Python's s[:k]. */
  function Upto<T>(s: seq<T>, k: int): (r: seq<T>)
    ensures |r| == (if k >= 0 then Min(k, |s|) else Max(0, |s| + k))
    ensures r == s[..|r|]
  {
    if k >= 0 then s[..Min(k, |s|)] else s[..Max(0, |s| + k)]
  }

  lemma MapUpto<A, B>(f: A -> B, s: seq<A>, k: int)
    ensures Map(f, Upto(s, k)) == Upto(Map(f, s), k)
  {}

  ghost predicate Each<T>(s: seq<T>, p: T -> bool) {
    forall i | 0 <= i < |s| :: p(s[i])
  }

  lemma EachUpdate<T>(s: seq<T>, i: nat, x: T, p: T -> bool)
    requires i < |s| && Each(s, p) && p(x)
    ensures Each(s[i := x], p)
  {}

  lemma EachAdd<T>(s: seq<T>, x: T, p: T -> bool)
    requires Each(s, p) && p(x)
    ensures Each(s + [x], p)
  {}

  lemma TwiceInMultiset<T>(s: seq<T>, i: int, j: int)
    requires 0 <= i < j < |s| && s[i] == s[j]
    ensures multiset(s)[s[i]] >= 2
  {
    assert s == s[..j] + [s[j]] + s[j + 1..];
    assert s[i] in s[..j];
    assert s[i] in multiset(s[..j]);
  }

  lemma {:induction false} OnceInMultiset<T>(s: seq<T>, x: T)
    requires Distinct(s)
    ensures multiset(s)[x] <= 1
  {
    if s != [] {
      var n := |s| - 1;
      OnceInMultiset(s[..n], x);
      assert s == s[..n] + [s[n]];
      if s[n] == x {
        assert x !in s[..n];
        assert x !in multiset(s[..n]);
      }
    }
  }

  /** A rearrangement of distinct elements is distinct. */
  lemma PermutationDistinct<T>(s: seq<T>, p: seq<T>)
    requires Distinct(s) && multiset(p) == multiset(s)
    ensures Distinct(p)
  {
    forall i, j | 0 <= i < j < |p| ensures p[i] != p[j] {
      if p[i] == p[j] {
        TwiceInMultiset(p, i, j);
        OnceInMultiset(s, p[i]);
      }
    }
  }

  /** Rearranging elements with distinct keys keeps the keys distinct. */
  lemma {:induction false} KeysDistinct<T, K>(s: seq<T>, p: seq<T>, key: T -> K)
    requires Distinct(Map(key, s)) && multiset(p) == multiset(s)
    ensures Distinct(Map(key, p))
  {
    forall i, j | 0 <= i < j < |s| ensures s[i] != s[j] {
      assert Map(key, s)[i] != Map(key, s)[j];
    }
    PermutationDistinct(s, p);
    forall i, j | 0 <= i < j < |p| ensures key(p[i]) != key(p[j]) {
      assert p[i] in multiset(s) && p[j] in multiset(s);
      var a :| 0 <= a < |s| && s[a] == p[i];
      var b :| 0 <= b < |s| && s[b] == p[j];
      assert a != b;
      assert Map(key, s)[a] != Map(key, s)[b];
    }
  }

  /** Where an element first stands. */
  function FirstAt<T(==)>(s: seq<T>, x: T): (r: nat)
    ensures x in s ==> r < |s| && s[r] == x && x !in s[..r]
  {
    if s == [] then 0
    else
      var n := |s| - 1;
      assert s == s[..n] + [s[n]];
      if x in s[..n] then (assert s[..n][..FirstAt(s[..n], x)] == s[..FirstAt(s[..n], x)]; FirstAt(s[..n], x)) else n
  }

  lemma FirstAtStays<T>(s: seq<T>, x: T, y: T)
    ensures x in s ==> FirstAt(s + [y], x) == FirstAt(s, x) < |s|
    ensures x !in s ==> FirstAt(s + [x], x) == |s|
  {
    assert (s + [y])[..|s|] == s && (s + [x])[..|s|] == s;
  }

  /** The members of keys stand in the order in which they first appear in s. */
  ghost predicate InFirstOrder<T>(keys: seq<T>, s: seq<T>) {
    forall i, j | 0 <= i < j < |keys| :: FirstAt(s, keys[i]) < FirstAt(s, keys[j])
  }

  lemma FirstOrderOnwards<T>(keys: seq<T>, s: seq<T>, x: T)
    requires InFirstOrder(keys, s) && forall k | k in keys :: k in s
    ensures InFirstOrder(keys, s + [x])
    ensures x !in s ==> InFirstOrder(keys + [x], s + [x])
  {
    forall i | 0 <= i < |keys| ensures FirstAt(s + [x], keys[i]) == FirstAt(s, keys[i]) < |s| {
      assert keys[i] in keys;
      FirstAtStays(s, keys[i], x);
    }
    if x !in s { FirstAtStays(s, x, x); }
  }
}
