/** Provider registry and failover (src/finsage/providers/finance/registry.py). A provider is
    its name; what calling it does is a script that an adversary writes. */
module Registry {
  import opened Options
  import opened Seqs
  import opened OrderedDicts
  import opened StableSort
  import opened Resilience

  datatype Entry = Entry(name: string, capabilities: map<string, seq<string>>, priority: int)

  predicate Supports(e: Entry, operation: string, market: string) {
    operation in e.capabilities && market in e.capabilities[operation]
  }

  function Priority(e: Entry): real { e.priority as real }

  function NameOf(e: Entry): string { e.name }

  function EntryOf(item: (string, Entry)): Entry { item.1 }

  function Supporting(entries: seq<Entry>, operation: string, market: string): seq<Entry> {
    if entries == [] then []
    else
      var e := entries[|entries| - 1];
      Supporting(entries[..|entries| - 1], operation, market) + if Supports(e, operation, market) then [e] else []
  }

  function Candidates(providers: Dict<string, Entry>, operation: string, market: string): seq<Entry> {
    SortBy(Supporting(Map(EntryOf, providers), operation, market), Priority)
  }

  function FailoverKey(operation: string, market: string, name: string): string {
    operation + "." + market + "." + name
  }

  lemma KeyInjective(operation: string, market: string, m: string, n: string)
    requires FailoverKey(operation, market, m) == FailoverKey(operation, market, n)
    ensures m == n
  {
    var p := |operation + "." + market + "."|;
    assert FailoverKey(operation, market, m)[p..] == m;
    assert FailoverKey(operation, market, n)[p..] == n;
  }

  // One invocation, as a function

  /** `checked` and `recorded` read the clock before and after each candidate's calls. */
  datatype Invocation<!T> = Invocation(
    settings: Settings,
    names: seq<string>,
    operation: string,
    market: string,
    scripts: string -> Script<T>,
    retries: int,
    checked: nat -> real,
    recorded: nat -> real)
  {
    function Key(i: nat): string
      requires i < |names|
    {
      FailoverKey(operation, market, names[i])
    }

    function Open(b: Breaker, i: nat): bool
      requires i < |names|
    {
      IsOpen(settings, b, Key(i), checked(i))
    }

    /** What trying the i-th candidate gives. */
    function Tried(b: Breaker, i: nat): Outcome<T>
      requires i < |names|
    {
      var script := scripts(names[i]);
      if Open(b, i) then Raised(ProviderError("circuit open", false)) else script(LastAttempt(script, retries, 0))
    }

    function BreakerAfter(b: Breaker, i: nat): Breaker
      requires i < |names|
    {
      if Open(b, i) then b
      else match Tried(b, i)
           case Value(_) => Succeeded(b, Key(i))
           case Raised(ProviderError(_, true)) => FailedAt(settings, b, Key(i), recorded(i))
           case Raised(_) => b
    }

    function CallsMade(b: Breaker, i: nat): nat
      requires i < |names|
    {
      if Open(b, i) then 0 else LastAttempt(scripts(names[i]), retries, 0) + 1
    }

    predicate GoesOn(b: Breaker, i: nat)
      requires i < |names|
    {
      Tried(b, i).Raised? && Tried(b, i).error.ProviderError?
    }
  }

  datatype Walked<+T> = Walked(outcome: Outcome<T>, breaker: Breaker, calls: nat, tried: nat)

  function Walk<T>(v: Invocation<T>, b: Breaker, i: nat): Walked<T>
    requires i < |v.names|
    decreases |v.names| - i
  {
    if v.GoesOn(b, i) && i + 1 < |v.names|
    then
      var w := Walk(v, v.BreakerAfter(b, i), i + 1);
      w.(calls := v.CallsMade(b, i) + w.calls)
    else Walked(v.Tried(b, i), v.BreakerAfter(b, i), v.CallsMade(b, i), i + 1)
  }

  lemma TriedIs<T>(v: Invocation<T>, b: Breaker, i: nat, outcome: Outcome<T>, made: nat, after: Breaker)
    requires i < |v.names|
    requires Guarded(v.settings, b, v.Key(i), v.scripts(v.names[i]), v.retries, v.checked(i), v.recorded(i),
                     outcome, made, after)
    ensures outcome == v.Tried(b, i) && made == v.CallsMade(b, i) && after == v.BreakerAfter(b, i)
  {}

  lemma WalkStep<T>(v: Invocation<T>, b: Breaker, i: nat)
    requires i < |v.names|
    ensures var w := Walk(v, b, i);
            if v.GoesOn(b, i) && i + 1 < |v.names|
            then var w' := Walk(v, v.BreakerAfter(b, i), i + 1);
                 w == w'.(calls := v.CallsMade(b, i) + w'.calls)
            else w == Walked(v.Tried(b, i), v.BreakerAfter(b, i), v.CallsMade(b, i), i + 1)
  {}

  /** What one guarded and retried call does: nothing while the circuit is open; else its last
      attempt is the result, and a value, or a retryable error of the provider, is recorded. */
  ghost predicate Guarded<T>(s: Settings, was: Breaker, key: string, script: Script<T>, retries: int,
                             checked: real, recorded: real, r: Outcome<T>, calls: nat, after: Breaker) {
    if IsOpen(s, was, key, checked)
    then r == Raised(ProviderError("circuit open", false)) && calls == 0 && after == was
    else
      && calls == LastAttempt(script, retries, 0) + 1 && r == script(calls - 1)
      && after == (match r
                   case Value(_) => Succeeded(was, key)
                   case Raised(ProviderError(_, true)) => FailedAt(s, was, key, recorded)
                   case Raised(_) => was)
  }

  // The objects

  class ProviderRegistry {
    var providers: Dict<string, Entry>
    const breaker: CircuitBreaker

    ghost predicate Valid()
      reads this
    {
      Distinct(Keys(providers)) && forall i | 0 <= i < |providers| :: providers[i].0 == providers[i].1.name
    }

    constructor ()
      ensures Valid() && fresh(breaker) && breaker.Abs() == CLOSED && providers == []
      ensures breaker.Given() == Settings(5, 60.0)
    {
      providers := [];
      breaker := new CircuitBreaker(5, 60.0);
    }

    /** A name registered again keeps its place. */
    method Register(name: string, capabilities: map<string, seq<string>>, priority: int)
      requires Valid()
      modifies this
      ensures Valid() && providers == Put(old(providers), name, Entry(name, capabilities, priority))
    {
      var e := Entry(name, capabilities, priority);
      PutDistinct(providers, name, e);
      PutItems(providers, name, e);
      ghost var was := providers;
      providers := Put(providers, name, e);
      forall i | 0 <= i < |providers| ensures providers[i].0 == providers[i].1.name {
        assert providers[i] in providers;
      }
    }

    method FindCandidates(operation: string, market: string) returns (r: seq<Entry>)
      ensures r == Candidates(providers, operation, market)
    {
      var entries: seq<Entry> := [];
      var all := Map(EntryOf, providers);
      for i := 0 to |all|
        invariant entries == Supporting(all[..i], operation, market)
      {
        PrefixStep(all, i);
        if Supports(all[i], operation, market) {
          entries := entries + [all[i]];
        }
      }
      WholePrefix(all);
      r := SortBy(entries, Priority);
    }

    /** No candidate, None; else the outcome of the failover, and how many calls it made. */
    method Invoke<T>(scripts: string -> Script<T>, operation: string, market: string, retries: int,
                     checked: nat -> real, recorded: nat -> real)
      returns (r: Option<Outcome<T>>, calls: nat)
      requires Valid()
      modifies breaker
      ensures var names := Map(NameOf, Candidates(providers, operation, market));
              var v := Invocation(breaker.Given(), names, operation, market, scripts, retries, checked, recorded);
              if names == [] then r == None && calls == 0 && breaker.Abs() == old(breaker.Abs())
              else r.Some? && exists n :: FailsOver(v, old(breaker.Abs()), r.value, calls, breaker.Abs(), n)
    {
      var candidates := FindCandidates(operation, market);
      var names := Map(NameOf, candidates);
      if candidates == [] {
        return None, 0;
      }
      ghost var v := Invocation(breaker.Given(), names, operation, market, scripts, retries, checked, recorded);
      ghost var was := breaker.Abs();
      CandidatesInOrder(providers, operation, market);
      var outcome;
      outcome, calls := TryAll(names, scripts, operation, market, retries, checked, recorded, v);
      r := Some(outcome);
      FailoverMeaning(v, was);
    }

    /** The loop over the candidates. */
    method TryAll<T>(names: seq<string>, scripts: string -> Script<T>, operation: string, market: string, retries: int,
                     checked: nat -> real, recorded: nat -> real, ghost v: Invocation<T>)
      returns (outcome: Outcome<T>, calls: nat)
      requires names != []
      requires v == Invocation(breaker.Given(), names, operation, market, scripts, retries, checked, recorded)
      modifies breaker
      ensures var w := Walk(v, old(breaker.Abs()), 0);
              outcome == w.outcome && calls == w.calls && breaker.Abs() == w.breaker
    {
      ghost var whole := Walk(v, breaker.Abs(), 0);
      var i := 0;
      calls := 0;
      while true
        invariant 0 <= i < |names|
        invariant var w := Walk(v, breaker.Abs(), i);
                  whole == w.(calls := calls + w.calls)
        decreases |names| - i
      {
        var key := FailoverKey(operation, market, names[i]);
        ghost var before := breaker.Abs();
        var made;
        outcome, made := Guard(key, scripts(names[i]), retries, checked(i), recorded(i));
        TriedIs(v, before, i, outcome, made, breaker.Abs());
        WalkStep(v, before, i);
        calls := calls + made;
        if outcome.Value? || !outcome.error.ProviderError? || i + 1 == |names| {
          return;
        }
        i := i + 1;
      }
    }

    /** breaker.guard around retry. */
    method Guard<T>(key: string, script: Script<T>, retries: int, checked: real, recorded: real)
      returns (r: Outcome<T>, calls: nat)
      modifies breaker
      ensures Guarded(breaker.Given(), old(breaker.Abs()), key, script, retries, checked, recorded,
                      r, calls, breaker.Abs())
    {
      if breaker.CheckOpen(key, checked) {
        return Raised(ProviderError("circuit open", false)), 0;
      }
      r, calls := Retry(script, retries);
      match r
      case Value(_) => breaker.RecordSuccess(key);
      case Raised(ProviderError(_, true)) => breaker.RecordFailure(key, recorded);
      case Raised(_) =>
    }
  }

  // Candidates

  lemma {:induction false} SupportingNames(entries: seq<Entry>, operation: string, market: string)
    requires Distinct(Map(NameOf, entries))
    ensures Distinct(Map(NameOf, Supporting(entries, operation, market)))
    ensures forall e :: e in Supporting(entries, operation, market) <==> e in entries && Supports(e, operation, market)
  {
    if entries != [] {
      var init, e := entries[..|entries| - 1], entries[|entries| - 1];
      var some := Supporting(init, operation, market);
      forall i, j | 0 <= i < j < |init| ensures Map(NameOf, init)[i] != Map(NameOf, init)[j] {
        assert Map(NameOf, entries)[i] != Map(NameOf, entries)[j];
      }
      SupportingNames(init, operation, market);
      assert entries == init + [e];
      forall i | 0 <= i < |some| ensures NameOf(some[i]) != NameOf(e) {
        assert some[i] in init;
        var k :| 0 <= k < |init| && init[k] == some[i];
        assert Map(NameOf, entries)[k] != Map(NameOf, entries)[|entries| - 1];
      }
    }
  }

  /** Where a provider of that name is registered. */
  function Position(entries: seq<Entry>, name: string): int {
    if entries == [] then -1
    else if entries[|entries| - 1].name == name then |entries| - 1
    else Position(entries[..|entries| - 1], name)
  }

  function PositionIn(entries: seq<Entry>): Entry -> int { (e: Entry) => Position(entries, e.name) }

  lemma {:induction false} PositionIs(entries: seq<Entry>, i: nat)
    requires Distinct(Map(NameOf, entries)) && i < |entries|
    ensures Position(entries, entries[i].name) == i
  {
    var n := |entries| - 1;
    assert Map(NameOf, entries)[i] == entries[i].name && Map(NameOf, entries)[n] == entries[n].name;
    if i < n {
      assert forall a, b | 0 <= a < b < n :: Map(NameOf, entries)[a] != Map(NameOf, entries)[b];
      PositionIs(entries[..n], i);
    }
  }

  lemma {:induction false} SupportingInOrder(entries: seq<Entry>, n: nat, operation: string, market: string)
    requires Distinct(Map(NameOf, entries)) && n <= |entries|
    ensures var some := Supporting(entries[..n], operation, market);
            && (forall e | e in some :: Position(entries, e.name) < n)
            && forall i, j | 0 <= i < j < |some| :: Position(entries, some[i].name) < Position(entries, some[j].name)
  {
    if n > 0 {
      PrefixStep(entries, n - 1);
      SupportingInOrder(entries, n - 1, operation, market);
      PositionIs(entries, n - 1);
    }
  }

  /** a comes before b: it has the smaller priority, or the same and was registered first. */
  ghost predicate Precedes(all: seq<Entry>, a: Entry, b: Entry) {
    a.priority < b.priority || (a.priority == b.priority && Position(all, a.name) < Position(all, b.name))
  }

  /** r are exactly the providers that list the market under the operation, each once, by
      ascending priority, and in order of registration among equals. */
  ghost predicate AreCandidates(r: seq<Entry>, all: seq<Entry>, operation: string, market: string) {
    && Distinct(Map(NameOf, r))
    && (forall e :: e in r <==> e in all && operation in e.capabilities && market in e.capabilities[operation])
    && (forall i | 0 <= i < |all| :: Position(all, all[i].name) == i)
    && forall i, j | 0 <= i < j < |r| :: Precedes(all, r[i], r[j])
  }

  lemma {:induction false} SupportingOnce(all: seq<Entry>, operation: string, market: string)
    requires Distinct(Map(NameOf, all))
    ensures var r := SortBy(Supporting(all, operation, market), Priority);
            && Distinct(Map(NameOf, r))
            && forall e :: e in r <==> e in all && operation in e.capabilities && market in e.capabilities[operation]
  {
    var some := Supporting(all, operation, market);
    SupportingNames(all, operation, market);
    SortByMultiset(some, Priority);
    SortByIn(some, Priority);
    KeysDistinct(some, SortBy(some, Priority), NameOf);
  }

  lemma {:induction false} CandidatesInOrder(providers: Dict<string, Entry>, operation: string, market: string)
    requires Distinct(Keys(providers)) && forall i | 0 <= i < |providers| :: providers[i].0 == providers[i].1.name
    ensures AreCandidates(Candidates(providers, operation, market), Map(EntryOf, providers), operation, market)
  {
    var all := Map(EntryOf, providers);
    assert Map(NameOf, all) == Keys(providers);
    SupportingOnce(all, operation, market);
    SupportingPrecede(all, operation, market);
    PositionsAre(all);
  }

  lemma PositionsAre(all: seq<Entry>)
    requires Distinct(Map(NameOf, all))
    ensures forall i | 0 <= i < |all| :: Position(all, all[i].name) == i
  {
    forall i | 0 <= i < |all| ensures Position(all, all[i].name) == i { PositionIs(all, i); }
  }

  lemma {:induction false} SupportingPrecede(all: seq<Entry>, operation: string, market: string)
    requires Distinct(Map(NameOf, all))
    ensures var r := SortBy(Supporting(all, operation, market), Priority);
            forall i, j | 0 <= i < j < |r| :: Precedes(all, r[i], r[j])
  {
    var some, rank := Supporting(all, operation, market), PositionIn(all);
    WholePrefix(all);
    SupportingInOrder(all, |all|, operation, market);
    forall i, j | 0 <= i < j < |some| ensures rank(some[i]) < rank(some[j]) {
      assert Position(all, some[i].name) < Position(all, some[j].name);
    }
    SortKeepsOrder(some, Priority, rank);
    PrecedesByKeys(SortBy(some, Priority), all);
  }

  lemma PrecedesByKeys(r: seq<Entry>, all: seq<Entry>)
    requires InOrder(r, Priority, PositionIn(all))
    ensures forall i, j | 0 <= i < j < |r| :: Precedes(all, r[i], r[j])
  {}

  // Failover

  /** The breaker knows the same about a key. */
  predicate SameFor(b: Breaker, c: Breaker, key: string) {
    && (key in b.failures <==> key in c.failures) && (key in b.failures ==> b.failures[key] == c.failures[key])
    && (key in b.openedAt <==> key in c.openedAt) && (key in b.openedAt ==> b.openedAt[key] == c.openedAt[key])
  }

  lemma TriedDependsOnOwnKey<T>(v: Invocation<T>, b: Breaker, c: Breaker, i: nat)
    requires i < |v.names| && SameFor(b, c, v.Key(i))
    ensures v.Tried(b, i) == v.Tried(c, i) && v.CallsMade(b, i) == v.CallsMade(c, i)
    ensures SameFor(v.BreakerAfter(b, i), v.BreakerAfter(c, i), v.Key(i))
  {}

  lemma OtherKeysKept<T>(v: Invocation<T>, b: Breaker, i: nat, key: string)
    requires i < |v.names| && key != v.Key(i)
    ensures SameFor(b, v.BreakerAfter(b, i), key)
  {}

  lemma CallsAreBounded<T>(v: Invocation<T>, b: Breaker, i: nat)
    requires i < |v.names|
    ensures v.CallsMade(b, i) <= Max(0, v.retries) + 1
    ensures v.Open(b, i) ==> v.CallsMade(b, i) == 0
  {}

  lemma KeysDiffer<T>(v: Invocation<T>, i: nat, j: nat)
    requires i < |v.names| && j < |v.names| && Distinct(v.names) && i != j
    ensures v.Key(i) != v.Key(j)
  {
    if v.Key(i) == v.Key(j) { KeyInjective(v.operation, v.market, v.names[i], v.names[j]); }
  }

  /** What trying one candidate leaves for the later ones. */
  lemma LaterKeysKept<T>(v: Invocation<T>, was: Breaker, b: Breaker, i: nat)
    requires i < |v.names| && Distinct(v.names)
    requires forall j | i <= j < |v.names| :: SameFor(was, b, v.Key(j))
    ensures forall j | i < j < |v.names| :: SameFor(was, v.BreakerAfter(b, i), v.Key(j))
  {
    forall j | i < j < |v.names| ensures SameFor(was, v.BreakerAfter(b, i), v.Key(j)) {
      KeysDiffer(v, i, j);
      OtherKeysKept(v, b, i, v.Key(j));
    }
  }

  lemma {:induction false} WalkOutcome<T>(v: Invocation<T>, was: Breaker, b: Breaker, i: nat)
    requires i < |v.names| && Distinct(v.names)
    requires forall j | i <= j < |v.names| :: SameFor(was, b, v.Key(j))
    ensures var w := Walk(v, b, i);
            && i < w.tried <= |v.names|
            && w.outcome == v.Tried(was, w.tried - 1)
            && (forall j | i <= j < w.tried - 1 :: v.GoesOn(was, j))
            && (w.tried < |v.names| ==> !v.GoesOn(was, w.tried - 1))
    decreases |v.names| - i
  {
    TriedDependsOnOwnKey(v, was, b, i);
    if v.GoesOn(b, i) && i + 1 < |v.names| {
      LaterKeysKept(v, was, b, i);
      WalkOutcome(v, was, v.BreakerAfter(b, i), i + 1);
    }
  }

  function Times(a: int, b: int): int { a * b }

  lemma TimesMore(a: int, b: int)
    ensures Times(a + 1, b) == Times(a, b) + b
  {}

  lemma {:induction false} WalkCalls<T>(v: Invocation<T>, b: Breaker, i: nat)
    requires i < |v.names|
    ensures i < Walk(v, b, i).tried
    ensures Walk(v, b, i).calls <= Times(Walk(v, b, i).tried - i, Max(0, v.retries) + 1)
    decreases |v.names| - i
  {
    var most := Max(0, v.retries) + 1;
    CallsAreBounded(v, b, i);
    TimesMore(0, most);
    if v.GoesOn(b, i) && i + 1 < |v.names| {
      WalkCalls(v, v.BreakerAfter(b, i), i + 1);
      TimesMore(Walk(v, v.BreakerAfter(b, i), i + 1).tried - (i + 1), most);
    }
  }

  lemma {:induction false} WalkUntouched<T>(v: Invocation<T>, b: Breaker, i: nat, key: string)
    requires i < |v.names| && forall j | i <= j < Walk(v, b, i).tried && j < |v.names| :: key != v.Key(j)
    ensures SameFor(b, Walk(v, b, i).breaker, key)
    decreases |v.names| - i
  {
    WalkCalls(v, b, i);
    OtherKeysKept(v, b, i, key);
    if v.GoesOn(b, i) && i + 1 < |v.names| {
      WalkUntouched(v, v.BreakerAfter(b, i), i + 1, key);
    }
  }

  lemma {:induction false} WalkTouched<T>(v: Invocation<T>, was: Breaker, b: Breaker, i: nat, j: nat)
    requires i <= j < |v.names| && j < Walk(v, b, i).tried && Distinct(v.names)
    requires forall k | i <= k < |v.names| :: SameFor(was, b, v.Key(k))
    ensures SameFor(v.BreakerAfter(was, j), Walk(v, b, i).breaker, v.Key(j))
    decreases |v.names| - i
  {
    TriedDependsOnOwnKey(v, was, b, i);
    if v.GoesOn(b, i) && i + 1 < |v.names| {
      var c := v.BreakerAfter(b, i);
      if i == j {
        forall k | i < k < |v.names| ensures v.Key(i) != v.Key(k) { KeysDiffer(v, i, k); }
        WalkUntouched(v, c, i + 1, v.Key(i));
      } else {
        LaterKeysKept(v, was, b, i);
        WalkTouched(v, was, c, i + 1, j);
      }
    }
  }

  // What failover promises, from the breaker, the scripts and their last attempts alone

  /** The circuit of candidate j is open when it is checked. */
  predicate IsShut<T>(v: Invocation<T>, b: Breaker, j: nat)
    requires j < |v.names|
  {
    IsOpen(v.settings, b, FailoverKey(v.operation, v.market, v.names[j]), v.checked(j))
  }

  /** What the calls of candidate j come to. */
  function Called<T>(v: Invocation<T>, j: nat): Outcome<T>
    requires j < |v.names|
  {
    v.scripts(v.names[j])(LastAttempt(v.scripts(v.names[j]), v.retries, 0))
  }

  function RaisedBy<T>(v: Invocation<T>, b: Breaker, j: nat): Outcome<T>
    requires j < |v.names|
  {
    if IsShut(v, b, j) then Raised(ProviderError("circuit open", false)) else Called(v, j)
  }

  /** Candidate j leaves it to the next one: its circuit is open, or its calls end in a
      ProviderError, retryable or not. */
  predicate PassesOn<T>(v: Invocation<T>, b: Breaker, j: nat)
    requires j < |v.names|
  {
    IsShut(v, b, j) || match Called(v, j) case Raised(ProviderError(_, _)) => true case _ => false
  }

  /** The calls made to candidates i to n. */
  function CallsTo<T>(v: Invocation<T>, b: Breaker, i: nat, n: nat): nat
    requires n <= |v.names|
    decreases n - i
  {
    if i >= n then 0
    else (if IsShut(v, b, i) then 0 else LastAttempt(v.scripts(v.names[i]), v.retries, 0) + 1) + CallsTo(v, b, i + 1, n)
  }

  /** What the breaker learns of candidate j: success forgets its failures, a retryable error of
      the provider is one more, and nothing else counts. */
  function Learnt<T>(v: Invocation<T>, b: Breaker, j: nat): Breaker
    requires j < |v.names|
  {
    var key := FailoverKey(v.operation, v.market, v.names[j]);
    if IsShut(v, b, j) then b
    else match Called(v, j)
         case Value(_) => Succeeded(b, key)
         case Raised(ProviderError(_, retryable)) =>
           if retryable then FailedAt(v.settings, b, key, v.recorded(j)) else b
         case Raised(_) => b
  }

  /** n candidates were tried: all but the last passed on, and the last did not or was the last
      there is. Its outcome is the result; each candidate tried is recorded under its own key,
      and nothing about the others. */
  ghost predicate FailsOver<T>(v: Invocation<T>, b: Breaker, outcome: Outcome<T>, calls: nat, after: Breaker, n: nat) {
    && 0 < n <= |v.names|
    && (forall j | 0 <= j < n - 1 :: PassesOn(v, b, j))
    && (n < |v.names| ==> !PassesOn(v, b, n - 1))
    && outcome == RaisedBy(v, b, n - 1)
    && calls == CallsTo(v, b, 0, n)
    && (forall j | 0 <= j < n :: SameFor(Learnt(v, b, j), after, FailoverKey(v.operation, v.market, v.names[j])))
    && (forall j | n <= j < |v.names| :: SameFor(b, after, FailoverKey(v.operation, v.market, v.names[j])))
  }

  lemma TriedMeaning<T>(v: Invocation<T>, b: Breaker, j: nat)
    requires j < |v.names|
    ensures v.Tried(b, j) == RaisedBy(v, b, j) && v.BreakerAfter(b, j) == Learnt(v, b, j)
    ensures v.GoesOn(b, j) <==> PassesOn(v, b, j)
    ensures v.CallsMade(b, j) == if IsShut(v, b, j) then 0 else LastAttempt(v.scripts(v.names[j]), v.retries, 0) + 1
  {}

  lemma CallsOneMore<T>(v: Invocation<T>, b: Breaker, i: nat, n: nat)
    requires i < n <= |v.names|
    ensures CallsTo(v, b, i, n) == v.CallsMade(b, i) + CallsTo(v, b, i + 1, n)
    ensures CallsTo(v, b, n, n) == 0
  {
    TriedMeaning(v, b, i);
  }

  lemma {:induction false} WalkCallsExactly<T>(v: Invocation<T>, was: Breaker, b: Breaker, i: nat)
    requires i < |v.names| && Distinct(v.names)
    requires forall j | i <= j < |v.names| :: SameFor(was, b, v.Key(j))
    ensures i < Walk(v, b, i).tried <= |v.names|
    ensures Walk(v, b, i).calls == CallsTo(v, was, i, Walk(v, b, i).tried)
    decreases |v.names| - i
  {
    TriedDependsOnOwnKey(v, was, b, i);
    WalkStep(v, b, i);
    if v.GoesOn(b, i) && i + 1 < |v.names| {
      LaterKeysKept(v, was, b, i);
      WalkCallsExactly(v, was, v.BreakerAfter(b, i), i + 1);
    }
    CallsOneMore(v, was, i, Walk(v, b, i).tried);
  }

  /** The first candidate, in order, whose breaker is closed and whose retried call does not
      end in a ProviderError decides; if there is none, the last candidate's error is raised.
      Only the candidates tried are recorded, each under its own key. */
  lemma {:induction false} FailoverMeaning<T>(v: Invocation<T>, b: Breaker)
    requires v.names != [] && Distinct(v.names)
    ensures var w := Walk(v, b, 0);
            FailsOver(v, b, w.outcome, w.calls, w.breaker, w.tried)
            && w.calls <= Times(w.tried, Max(0, v.retries) + 1)
  {
    OutcomeMeaning(v, b);
    WalkCalls(v, b, 0);
    WalkCallsExactly(v, b, b, 0);
    RecordMeaning(v, b);
  }

  lemma {:induction false} OutcomeMeaning<T>(v: Invocation<T>, b: Breaker)
    requires v.names != [] && Distinct(v.names)
    ensures var w := Walk(v, b, 0);
            && 0 < w.tried <= |v.names|
            && (forall j | 0 <= j < w.tried - 1 :: PassesOn(v, b, j))
            && (w.tried < |v.names| ==> !PassesOn(v, b, w.tried - 1))
            && w.outcome == RaisedBy(v, b, w.tried - 1)
  {
    WalkOutcome(v, b, b, 0);
    var w := Walk(v, b, 0);
    TriedMeaning(v, b, w.tried - 1);
    forall j | 0 <= j < w.tried - 1 ensures PassesOn(v, b, j) {
      assert v.GoesOn(b, j);
      TriedMeaning(v, b, j);
    }
  }

  lemma {:induction false} RecordMeaning<T>(v: Invocation<T>, b: Breaker)
    requires v.names != [] && Distinct(v.names)
    ensures var w := Walk(v, b, 0);
            && (forall j | 0 <= j < w.tried && j < |v.names| ::
                  SameFor(Learnt(v, b, j), w.breaker, FailoverKey(v.operation, v.market, v.names[j])))
            && (forall j | w.tried <= j < |v.names| ::
                  SameFor(b, w.breaker, FailoverKey(v.operation, v.market, v.names[j])))
  {
    WalkCalls(v, b, 0);
    var w := Walk(v, b, 0);
    forall j | 0 <= j < w.tried && j < |v.names|
      ensures SameFor(Learnt(v, b, j), w.breaker, FailoverKey(v.operation, v.market, v.names[j]))
    {
      TriedMeaning(v, b, j);
      WalkTouched(v, b, b, 0, j);
    }
    forall j | w.tried <= j < |v.names|
      ensures SameFor(b, w.breaker, FailoverKey(v.operation, v.market, v.names[j]))
    {
      forall k | 0 <= k < w.tried ensures v.Key(j) != v.Key(k) { KeysDiffer(v, j, k); }
      WalkUntouched(v, b, 0, v.Key(j));
    }
  }
}
