/** The enrichment cache of src/finsage/api/companies.py: an OrderedDict kept in order of use
    and cut to its capacity. */
module LruCache {
  import opened Options
  import opened Seqs
  import opened OrderedDicts

  const ENRICH_CACHE_MAX := 64

  /** Setting a key and moving it to the end, then dropping the oldest of too many. */
  function Touch<K(==), V>(d: Dict<K, V>, k: K, v: V): Dict<K, V> {
    var moved := Remove(d, k) + [(k, v)];
    if |moved| > ENRICH_CACHE_MAX then moved[1..] else moved
  }

  class EnrichCache<K(==), V> {
    var entries: Dict<K, V>

    constructor ()
      ensures entries == []
    {
      entries := [];
    }

    /** The part before the await: a hit moves its key to the end. */
    method Lookup(key: K) returns (cached: Option<V>)
      requires Distinct(Keys(entries)) && |entries| <= ENRICH_CACHE_MAX
      modifies this
      ensures cached == Get(old(entries), key)
      ensures entries == if cached.Some? then Touch(old(entries), key, cached.value) else old(entries)
      ensures Distinct(Keys(entries)) && |entries| <= ENRICH_CACHE_MAX
    {
      cached := Get(entries, key);
      if cached.Some? {
        GetIn(entries, key);
        RemoveKeys(entries, key);
        TouchKeys(entries, key, cached.value);
        entries := Remove(entries, key) + [(key, cached.value)];
      }
    }

    /** The part after the await. By now the key may be there, and others may have gone. */
    method Store(key: K, value: V)
      requires Distinct(Keys(entries)) && |entries| <= ENRICH_CACHE_MAX
      modifies this
      ensures entries == Touch(old(entries), key, value)
      ensures Distinct(Keys(entries)) && |entries| <= ENRICH_CACHE_MAX
    {
      TouchKeys(entries, key, value);
      entries := Remove(entries, key) + [(key, value)];
      if |entries| > ENRICH_CACHE_MAX {
        entries := entries[1..];
      }
    }

    /** A call that nothing comes between. `fetched` is what the uncached path would give; a
        hit ignores it and answers with what was stored, however old. */
    method Enrich(key: K, fetched: V) returns (r: V)
      requires Distinct(Keys(entries)) && |entries| <= ENRICH_CACHE_MAX
      modifies this
      ensures var cached := Get(old(entries), key); r == if cached.Some? then cached.value else fetched
      ensures entries == Touch(old(entries), key, r)
      ensures Distinct(Keys(entries)) && |entries| <= ENRICH_CACHE_MAX
    {
      var cached := Lookup(key);
      if cached.Some? {
        return cached.value;
      }
      Store(key, fetched);
      return fetched;
    }
  }

  // Calls that interleave

  /** `waiting` are the keys of the calls that missed and are fetching. */
  datatype Calls<K, V> = Calls(entries: Dict<K, V>, waiting: seq<K>)

  /** A call looks its key up; a fetch comes back with a value and is stored; a fetch is
      cancelled. */
  datatype Event<K, V> = Ask(key: K) | Arrive(call: nat, value: V) | GiveUp(call: nat)

  function Next<K(==), V>(s: Calls<K, V>, e: Event<K, V>): Calls<K, V> {
    match e
    case Ask(k) =>
      var cached := Get(s.entries, k);
      if cached.Some? then s.(entries := Touch(s.entries, k, cached.value)) else s.(waiting := s.waiting + [k])
    case Arrive(i, v) =>
      if i < |s.waiting| then Calls(Touch(s.entries, s.waiting[i], v), Without(s.waiting, i)) else s
    case GiveUp(i) => if i < |s.waiting| then s.(waiting := Without(s.waiting, i)) else s
  }

  function After<K(==), V>(events: seq<Event<K, V>>): Calls<K, V> {
    if events == [] then Calls([], []) else Next(After(events[..|events| - 1]), events[|events| - 1])
  }

  /** The key an event uses: that of a hit, or of a fetch that came back. */
  function Used<K(==), V>(s: Calls<K, V>, e: Event<K, V>): seq<K> {
    match e
    case Ask(k) => if Get(s.entries, k).Some? then [k] else []
    case Arrive(i, _) => if i < |s.waiting| then [s.waiting[i]] else []
    case GiveUp(_) => []
  }

  function Uses<K(==), V>(events: seq<Event<K, V>>): seq<K> {
    if events == [] then []
    else
      var init := events[..|events| - 1];
      Uses(init) + Used(After(init), events[|events| - 1])
  }

  /** The last value that came back for a key. */
  function LastArrived<K(==), V>(events: seq<Event<K, V>>, k: K): Option<V> {
    if events == [] then None
    else
      var init, e := events[..|events| - 1], events[|events| - 1];
      if e.Arrive? && Used(After(init), e) == [k] then Some(e.value) else LastArrived(init, k)
  }

  // Which keys are kept
  // Which keys are kept

  function Drop<K(==)>(ks: seq<K>, k: K): seq<K> {
    if ks == [] then []
    else if ks[0] == k then ks[1..]
    else [ks[0]] + Drop(ks[1..], k)
  }

  /** The distinct keys used, by their last use. */
  function Recent<K(==)>(requests: seq<K>): seq<K> {
    if requests == [] then []
    else
      var k := requests[|requests| - 1];
      Drop(Recent(requests[..|requests| - 1]), k) + [k]
  }

  function Newest<K>(ks: seq<K>, n: nat): seq<K> { ks[Max(0, |ks| - n)..] }

  lemma DistinctTail<K>(ks: seq<K>)
    requires Distinct(ks) && ks != []
    ensures Distinct(ks[1..]) && ks[0] !in ks[1..] && ks == [ks[0]] + ks[1..]
  {}

  lemma DistinctCons<K>(x: K, ks: seq<K>)
    requires Distinct(ks) && x !in ks
    ensures Distinct([x] + ks)
  {}

  lemma DistinctSnoc<K>(ks: seq<K>, x: K)
    requires Distinct(ks) && x !in ks
    ensures Distinct(ks + [x])
  {}

  lemma {:induction false} DropFacts<K>(ks: seq<K>, k: K)
    requires Distinct(ks)
    ensures Distinct(Drop(ks, k))
    ensures forall x :: x in Drop(ks, k) <==> x in ks && x != k
    ensures |Drop(ks, k)| == |ks| - if k in ks then 1 else 0
  {
    if ks != [] {
      DistinctTail(ks);
      if ks[0] != k {
        DropFacts(ks[1..], k);
        DistinctCons(ks[0], Drop(ks[1..], k));
      }
    }
  }

  lemma {:induction false} DropOfSum<K>(a: seq<K>, b: seq<K>, k: K)
    requires Distinct(a + b)
    ensures Drop(a + b, k) == Drop(a, k) + Drop(b, k)
  {
    if a == [] {
      assert a + b == b;
      assert Drop(a, k) + Drop(b, k) == Drop(b, k);
    } else {
      assert (a + b)[0] == a[0] && (a + b)[1..] == a[1..] + b;
      if a[0] == k {
        Apart(a, b);
        DropAbsent(b, k);
      } else {
        DropOfSum(a[1..], b, k);
      }
    }
  }

  lemma Apart<K>(a: seq<K>, b: seq<K>)
    requires Distinct(a + b)
    ensures forall x | x in b :: x !in a
  {
    forall i, j | 0 <= i < |a| && 0 <= j < |b| ensures a[i] != b[j] {
      assert (a + b)[i] != (a + b)[|a| + j];
    }
  }

  lemma {:induction false} DropAbsent<K>(ks: seq<K>, k: K)
    requires k !in ks
    ensures Drop(ks, k) == ks
  {
    if ks != [] { DropAbsent(ks[1..], k); }
  }

  lemma {:induction false} RemoveKeys<K, V>(d: Dict<K, V>, k: K)
    ensures Keys(Remove(d, k)) == Drop(Keys(d), k)
    ensures |Remove(d, k)| == |d| - if k in Keys(d) then 1 else 0
  {
    if d != [] {
      assert Keys(d) == [d[0].0] + Keys(d[1..]);
      if d[0].0 == k {
        assert Keys(d)[1..] == Keys(d[1..]);
      } else {
        RemoveKeys(d[1..], k);
        assert Keys([d[0]] + Remove(d[1..], k)) == [d[0].0] + Keys(Remove(d[1..], k));
      }
    }
  }

  lemma {:induction false} KeysAdd<K, V>(d: Dict<K, V>, k: K, v: V)
    ensures Keys(d + [(k, v)]) == Keys(d) + [k]
  {}

  lemma {:induction false} KeysFrom<K, V>(d: Dict<K, V>, n: nat)
    requires n <= |d|
    ensures Keys(d[n..]) == Keys(d)[n..]
  {}

  lemma NewestDistinct<K>(ks: seq<K>, n: nat)
    requires Distinct(ks)
    ensures Distinct(Newest(ks, n)) && |Newest(ks, n)| <= n
  {}

  lemma {:induction false} TouchKeys<K, V>(d: Dict<K, V>, k: K, v: V)
    requires Distinct(Keys(d)) && |d| <= ENRICH_CACHE_MAX
    ensures Keys(Touch(d, k, v)) == Newest(Drop(Keys(d), k) + [k], ENRICH_CACHE_MAX)
    ensures Distinct(Keys(Touch(d, k, v))) && |Touch(d, k, v)| <= ENRICH_CACHE_MAX
  {
    RemoveKeys(d, k);
    DropFacts(Keys(d), k);
    var moved := Remove(d, k) + [(k, v)];
    KeysAdd(Remove(d, k), k, v);
    DistinctSnoc(Drop(Keys(d), k), k);
    NewestDistinct(Keys(moved), ENRICH_CACHE_MAX);
    if |moved| > ENRICH_CACHE_MAX {
      KeysFrom(moved, 1);
    } else {
      assert Keys(moved)[0..] == Keys(moved);
    }
  }

  lemma {:induction false} RecentDistinct<K>(requests: seq<K>)
    ensures Distinct(Recent(requests))
    ensures forall k :: k in Recent(requests) <==> k in requests
  {
    if requests != [] {
      var init, k := requests[..|requests| - 1], requests[|requests| - 1];
      RecentDistinct(init);
      DropFacts(Recent(init), k);
      assert requests == init + [k];
    }
  }

  lemma DistinctParts<K>(a: seq<K>, b: seq<K>)
    requires Distinct(a + b)
    ensures Distinct(a) && Distinct(b)
  {
    assert forall i | 0 <= i < |a| :: (a + b)[i] == a[i];
    forall i, j | 0 <= i < j < |b| ensures b[i] != b[j] {
      assert (a + b)[|a| + i] != (a + b)[|a| + j];
    }
  }

  lemma NewestOfSum<K>(a: seq<K>, b: seq<K>, n: nat)
    requires |b| >= n
    ensures Newest(a + b, n) == Newest(b, n)
  {}

  /** Dropping a key and adding it at the end commutes with keeping the newest n. */
  lemma {:induction false} NewestStep<K>(ks: seq<K>, k: K, n: nat)
    requires Distinct(ks) && n > 0
    ensures Newest(Drop(ks, k) + [k], n) == Newest(Drop(Newest(ks, n), k) + [k], n)
  {
    if |ks| > n {
      var older, newer := ks[..|ks| - n], ks[|ks| - n..];
      assert ks == older + newer;
      DistinctParts(older, newer);
      DropOfSum(older, newer, k);
      DropFacts(newer, k);
      AddAssociates(Drop(older, k), Drop(newer, k), [k]);
      NewestOfSum(Drop(older, k), Drop(newer, k) + [k], n);
    } else {
      assert Newest(ks, n) == ks;
    }
  }

  ghost predicate Holds<K, V>(d: Dict<K, V>, recent: seq<K>) {
    Distinct(Keys(d)) && |d| <= ENRICH_CACHE_MAX && Keys(d) == Newest(recent, ENRICH_CACHE_MAX)
  }

  lemma HoldsOn<K, V>(d: Dict<K, V>, recent: seq<K>, k: K, v: V)
    requires Holds(d, recent) && Distinct(recent)
    ensures Holds(Touch(d, k, v), Drop(recent, k) + [k])
  {
    TouchKeys(d, k, v);
    NewestStep(recent, k, ENRICH_CACHE_MAX);
  }

  lemma {:induction false} HoldsNext<K, V>(s: Calls<K, V>, uses: seq<K>, e: Event<K, V>)
    requires Holds(s.entries, Recent(uses)) && Distinct(Recent(uses))
    ensures Holds(Next(s, e).entries, Recent(uses + Used(s, e)))
  {
    assert uses + [] == uses;
    match e
    case Ask(k) => if Get(s.entries, k).Some? { UsedOnceMore(s.entries, uses, k, Get(s.entries, k).value); }
    case Arrive(i, v) => if i < |s.waiting| { UsedOnceMore(s.entries, uses, s.waiting[i], v); }
    case GiveUp(_) =>
  }

  /** However calls interleave, and whatever their fetches bring: the cache holds the 64 (or
      fewer) most recently used distinct keys, in order of their last use. */
  lemma {:induction false} HoldsLastUsed<K, V>(events: seq<Event<K, V>>)
    ensures Holds(After(events).entries, Recent(Uses(events)))
  {
    if events != [] {
      var init := events[..|events| - 1];
      HoldsLastUsed(init);
      RecentDistinct(Uses(init));
      HoldsNext(After(init), Uses(init), events[|events| - 1]);
    }
  }

  lemma UsedOnceMore<K, V>(d: Dict<K, V>, uses: seq<K>, k: K, v: V)
    requires Holds(d, Recent(uses)) && Distinct(Recent(uses))
    ensures Holds(Touch(d, k, v), Recent(uses + [k]))
  {
    assert (uses + [k])[..|uses|] == uses;
    HoldsOn(d, Recent(uses), k, v);
  }

  // What a key is answered with

  lemma {:induction false} GetRemove<K, V>(d: Dict<K, V>, k: K, x: K)
    requires x != k
    ensures Get(Remove(d, k), x) == Get(d, x)
  {
    if d != [] && d[0].0 != k { GetRemove(d[1..], k, x); }
  }

  lemma {:induction false} GetAdd<K, V>(d: Dict<K, V>, k: K, v: V, x: K)
    requires k !in Keys(d)
    ensures Get(d + [(k, v)], x) == if x == k then Some(v) else Get(d, x)
  {
    if d != [] {
      assert (d + [(k, v)])[1..] == d[1..] + [(k, v)];
      assert Keys(d) == [d[0].0] + Keys(d[1..]);
      GetAdd(d[1..], k, v, x);
    }
  }

  lemma {:induction false} GetTail<K, V>(d: Dict<K, V>, x: K)
    requires d != [] && x in Keys(d[1..]) && Distinct(Keys(d))
    ensures Get(d[1..], x) == Get(d, x)
  {
    DistinctTail(Keys(d));
    assert Keys(d)[1..] == Keys(d[1..]);
  }

  lemma {:induction false} GetTouch<K, V>(d: Dict<K, V>, k: K, v: V, x: K)
    requires Distinct(Keys(d)) && |d| <= ENRICH_CACHE_MAX && x in Keys(Touch(d, k, v))
    ensures Get(Touch(d, k, v), x) == if x == k then Some(v) else Get(d, x)
  {
    var moved := Remove(d, k) + [(k, v)];
    RemoveKeys(d, k);
    DropFacts(Keys(d), k);
    GetAdd(Remove(d, k), k, v, x);
    if x != k { GetRemove(d, k, x); }
    if |moved| > ENRICH_CACHE_MAX {
      KeysAdd(Remove(d, k), k, v);
      DistinctSnoc(Drop(Keys(d), k), k);
      GetTail(moved, x);
    }
  }

  /** Every key is held with the value that came back for it last. */
  ghost predicate Answers<K, V>(events: seq<Event<K, V>>) {
    forall k | k in Keys(After(events).entries) :: Get(After(events).entries, k) == LastArrived(events, k)
  }

  lemma {:induction false} AnswersOn<K, V>(events: seq<Event<K, V>>, init: seq<Event<K, V>>, x: K)
    requires events != [] && init == events[..|events| - 1] && Answers(init) && x in Keys(After(events).entries)
    ensures Get(After(events).entries, x) == LastArrived(events, x)
  {
    var s, e := After(init), events[|events| - 1];
    HoldsLastUsed(init);
    GetIn(s.entries, x);
    match e
    case Ask(k) => if Get(s.entries, k).Some? { StillThere(s.entries, k, Get(s.entries, k).value, x); }
    case Arrive(i, v) => if i < |s.waiting| { StillThere(s.entries, s.waiting[i], v, x); }
    case GiveUp(_) =>
  }

  lemma StillThere<K, V>(d: Dict<K, V>, k: K, v: V, x: K)
    requires Distinct(Keys(d)) && |d| <= ENRICH_CACHE_MAX && x in Keys(Touch(d, k, v))
    ensures Get(Touch(d, k, v), x) == if x == k then Some(v) else Get(d, x)
    ensures x == k || x in Keys(d)
  {
    GetTouch(d, k, v, x);
    GetIn(Touch(d, k, v), x);
    GetIn(d, x);
  }

  /** A hit is answered with the value that came back last for its key, from whichever call. */
  lemma {:induction false} HitsAnswerTheLatest<K, V>(events: seq<Event<K, V>>)
    ensures Answers(events)
  {
    if events != [] {
      var init := events[..|events| - 1];
      HitsAnswerTheLatest(init);
      forall x | x in Keys(After(events).entries) ensures Get(After(events).entries, x) == LastArrived(events, x) {
        AnswersOn(events, init, x);
      }
    }
  }

  // Calls one at a time

  /** Each request is followed at once by what it would fetch. */
  function OneByOne<K, V>(requests: seq<K>, values: seq<V>): seq<Event<K, V>>
    requires |values| == |requests|
  {
    if requests == [] then []
    else
      var n := |requests| - 1;
      OneByOne(requests[..n], values[..n]) + [Ask(requests[n]), Arrive(0, values[n])]
  }

  lemma {:induction false} OneCall<K, V>(events: seq<Event<K, V>>, k: K, v: V)
    requires After(events).waiting == []
    ensures After(events + [Ask(k), Arrive(0, v)]).waiting == []
    ensures Uses(events + [Ask(k), Arrive(0, v)]) == Uses(events) + [k]
  {
    var asked: seq<Event<K, V>> := events + [Ask(k)];
    var all: seq<Event<K, V>> := events + [Ask(k), Arrive(0, v)];
    assert asked[..|asked| - 1] == events && all[..|all| - 1] == asked;
    assert Uses(asked) == Uses(events) + Used(After(events), Ask(k));
    assert Uses(all) == Uses(asked) + Used(After(asked), Arrive(0, v));
  }

  lemma {:induction false} OneByOneUses<K, V>(requests: seq<K>, values: seq<V>)
    requires |values| == |requests|
    ensures After(OneByOne(requests, values)).waiting == []
    ensures Uses(OneByOne(requests, values)) == requests
  {
    if requests != [] {
      var n := |requests| - 1;
      OneByOneUses(requests[..n], values[..n]);
      OneCall(OneByOne(requests[..n], values[..n]), requests[n], values[n]);
      PrefixStep(requests, n);
      WholePrefix(requests);
    }
  }

  /** Of calls that do not interleave the cache holds the 64 (or fewer) most recently requested
      distinct keys, in order of their last request. */
  lemma HoldsTheMostRecent<K, V>(requests: seq<K>, values: seq<V>)
    requires |values| == |requests|
    ensures Holds(After(OneByOne(requests, values)).entries, Recent(requests))
  {
    HoldsLastUsed(OneByOne(requests, values));
    OneByOneUses(requests, values);
  }

  lemma {:induction false} TwoKeys<K, V>(k: K, l: K, v: V)
    requires k != l
    ensures Touch([], l, v) == [(l, v)] && Keys(Touch([(l, v)], k, v)) == [l, k]
  {
    var d: Dict<K, V> := [(l, v)];
    assert Remove(d, k) == d;
    KeysAdd(d, k, v);
    assert Keys(d) == [l];
  }

  /** Calls that do are kept in the order in which their fetches come back. */
  lemma {:induction false} CompletionDecides<K, V>(k: K, l: K, v: V)
    requires k != l
    ensures Keys(After([Ask(k), Ask(l)] + [Arrive(1, v)] + [Arrive(0, v)]).entries) == [l, k]
  {
    var asked: seq<Event<K, V>> := [Ask(k)] + [Ask(l)];
    AfterOneMore<K, V>([], Ask(k));
    AfterOneMore<K, V>([Ask(k)], Ask(l));
    AfterOneMore(asked, Arrive(1, v));
    AfterOneMore(asked + [Arrive(1, v)], Arrive(0, v));
    assert asked[..0] + [Ask(k)] == [Ask(k)] && asked == [Ask(k), Ask(l)];
    assert After(asked) == Calls([], [k, l]);
    assert Without([k, l], 1) == [k];
    TwoKeys(k, l, v);
  }

  lemma {:induction false} AfterOneMore<K, V>(events: seq<Event<K, V>>, e: Event<K, V>)
    ensures After(events + [e]) == Next(After(events), e)
  {
    assert (events + [e])[..|events|] == events;
  }

  /** The position of a key's last use. */
  function LastRequest<K(==)>(requests: seq<K>, k: K): int {
    if requests == [] then -1
    else if requests[|requests| - 1] == k then |requests| - 1
    else LastRequest(requests[..|requests| - 1], k)
  }

  lemma {:induction false} LastRequestIs<K>(requests: seq<K>, k: K)
    ensures var i := LastRequest(requests, k);
            && -1 <= i < |requests| && (i >= 0 <==> k in requests) && (i >= 0 ==> requests[i] == k)
            && forall j | i < j < |requests| :: requests[j] != k
  {
    if requests != [] {
      var init := requests[..|requests| - 1];
      LastRequestIs(init, k);
      assert requests == init + [requests[|requests| - 1]];
    }
  }

  ghost predicate InOrder<K>(ks: seq<K>, rank: K -> int) {
    forall i, j | 0 <= i < j < |ks| :: rank(ks[i]) < rank(ks[j])
  }

  lemma InOrderTail<K>(ks: seq<K>, rank: K -> int)
    requires InOrder(ks, rank) && ks != []
    ensures InOrder(ks[1..], rank) && forall y | y in ks[1..] :: rank(ks[0]) < rank(y)
  {}

  lemma InOrderCons<K>(x: K, ks: seq<K>, rank: K -> int)
    requires InOrder(ks, rank) && forall y | y in ks :: rank(x) < rank(y)
    ensures InOrder([x] + ks, rank)
  {
    forall i, j | 0 <= i < j < |ks| + 1 ensures rank(([x] + ks)[i]) < rank(([x] + ks)[j]) {
      assert ([x] + ks)[j] == ks[j - 1] && ks[j - 1] in ks;
    }
  }

  lemma {:induction false} DropOrder<K>(ks: seq<K>, k: K, rank: K -> int)
    requires InOrder(ks, rank)
    ensures InOrder(Drop(ks, k), rank)
    ensures forall x | x in Drop(ks, k) :: x in ks
  {
    if ks != [] {
      InOrderTail(ks, rank);
      if ks[0] != k {
        DropOrder(ks[1..], k, rank);
        InOrderCons(ks[0], Drop(ks[1..], k), rank);
      }
    }
  }

  function LastIn<K(==)>(requests: seq<K>): K -> int { (k: K) => LastRequest(requests, k) }

  /** One more use moves its key to the end of the order. */
  lemma OrderOnwards<K>(ks: seq<K>, requests: seq<K>, k: K)
    requires InOrder(ks, LastIn(requests)) && k !in ks
    ensures InOrder(ks + [k], LastIn(requests + [k]))
  {
    assert (requests + [k])[..|requests|] == requests;
    forall i | 0 <= i < |ks| ensures LastRequest(requests + [k], ks[i]) == LastRequest(requests, ks[i]) < |requests| {
      assert ks[i] in ks;
      LastRequestIs(requests, ks[i]);
    }
  }

  /** Recent lists keys in the order of their last use. */
  lemma {:induction false} RecentOrder<K>(requests: seq<K>)
    ensures InOrder(Recent(requests), LastIn(requests))
  {
    if requests != [] {
      var init, k := requests[..|requests| - 1], requests[|requests| - 1];
      RecentOrder(init);
      RecentDistinct(init);
      DropFacts(Recent(init), k);
      DropOrder(Recent(init), k, LastIn(init));
      OrderOnwards(Drop(Recent(init), k), init, k);
      assert requests == init + [k];
    }
  }
}
