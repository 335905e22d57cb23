/** The fixed-window limiter (src/finsage/api/ratelimit.py over src/finsage/persistence/redis.py).
    INCR and the EXPIRE that follows a first INCR are one step. Windows are given in seconds;
    time counts milliseconds, and a key with w of them to live at time t exists during
    [t, t + w). */
module RateLimit {
  import opened Options

  datatype Entry = Entry(count: int, expires: Option<int>)

  type Store = map<string, Entry>

  const SECOND := 1000

  /** What Redis still holds under a key. */
  function Live(e: Option<Entry>, now: int): Option<Entry> {
    if e.Some? && e.value.expires.Some? && e.value.expires.value <= now then None else e
  }

  function Lookup(s: Store, key: string): Option<Entry> {
    if key in s then Some(s[key]) else None
  }

  function Put(s: Store, key: string, e: Option<Entry>): Store {
    if e.Some? then s[key := e.value] else s - {key}
  }

  /** One counted request on one key, whose window spans `span` milliseconds: the entry
      afterwards and the count it was given. */
  function Hit(e: Option<Entry>, span: int, now: int): (Option<Entry>, int) {
    var live := Live(e, now);
    var n := if live.Some? then live.value.count + 1 else 1;
    if n == 1 then
      (if span <= 0 then None else Some(Entry(1, Some(now + span))), 1)
    else
      (Some(Entry(n, live.value.expires)), n)
  }

  class FinRedis {
    var store: Store

    constructor ()
      ensures store == map[]
    {
      store := map[];
    }

    method Incr(key: string, now: int) returns (n: int)
      modifies this
      ensures var live := Live(Lookup(old(store), key), now);
              && n == (if live.Some? then live.value.count + 1 else 1)
              && store == old(store)[key := Entry(n, if live.Some? then live.value.expires else None)]
    {
      var live := Live(Lookup(store, key), now);
      n := if live.Some? then live.value.count + 1 else 1;
      store := store[key := Entry(n, if live.Some? then live.value.expires else None)];
    }

    /** EXPIRE: a window that is not positive deletes the key. */
    method Expire(key: string, window: int, now: int)
      modifies this
      ensures store ==
              if key !in old(store) then old(store)
              else if window <= 0 then old(store) - {key}
              else old(store)[key := old(store)[key].(expires := Some(now + SECOND * window))]
    {
      if key in store {
        if window <= 0 {
          store := store - {key};
        } else {
          store := store[key := store[key].(expires := Some(now + SECOND * window))];
        }
      }
    }

    method RateLimitAdd(key: string, window: int, now: int) returns (n: int)
      modifies this
      ensures n == Hit(Lookup(old(store), key), SECOND * window, now).1
      ensures store == Put(old(store), key, Hit(Lookup(old(store), key), SECOND * window, now).0)
    {
      n := Incr(key, now);
      if n == 1 {
        Expire(key, window, now);
        assert store == Put(old(store), key, Hit(Lookup(old(store), key), SECOND * window, now).0);
      }
    }

    /** Whole seconds left, to the nearest; -2 when there is no key, -1 when it never expires. */
    function Ttl(key: string, now: int): (r: int)
      reads this
      ensures r == -2 <==> Live(Lookup(store, key), now).None?
      ensures r == -1 <==> Live(Lookup(store, key), now).Some? && store[key].expires.None?
      ensures r >= 0 ==> -500 < SECOND * r - (store[key].expires.value - now) <= 500
    {
      Seconds(Lookup(store, key), now)
    }
  }

  function Seconds(e: Option<Entry>, now: int): int {
    var live := Live(e, now);
    if live.None? then -2
    else if live.value.expires.None? then -1
    else (live.value.expires.value - now + 500) / SECOND
  }

  /** Denied is the error FIN-1005 with its Retry-After. */
  datatype Decision = Admitted | Denied(retryAfter: int)

  datatype Rule = Rule(limit: int, window: int)
  {
    function Span(): int { SECOND * window }
  }

  function Decide(rule: Rule, e: Option<Entry>, now: int): (Option<Entry>, Decision) {
    var (e', n) := Hit(e, rule.Span(), now);
    if n <= rule.limit then (e', Admitted)
    else (e', Denied(if Seconds(e', now) > 0 then Seconds(e', now) else rule.window))
  }

  /** The route dependency for one request that a limit applies to. */
  method RequireRateLimit(redis: FinRedis, rule: Rule, key: string, now: int) returns (d: Decision)
    modifies redis
    ensures d == Decide(rule, Lookup(old(redis.store), key), now).1
    ensures redis.store == Put(old(redis.store), key, Decide(rule, Lookup(old(redis.store), key), now).0)
  {
    var count := redis.RateLimitAdd(key, rule.window, now);
    if count > rule.limit {
      var retryAfter := rule.window;
      var remaining := redis.Ttl(key, now);
      if remaining > 0 {
        retryAfter := remaining;
      }
      return Denied(retryAfter);
    }
    return Admitted;
  }

  // Runs over many keys

  datatype Request = Request(key: string, time: int)

  /** The decisions of a whole run, in order. A key fixes its route, so it fixes its rule. */
  ghost function Run(rules: string -> Rule, s: Store, reqs: seq<Request>): seq<Decision>
    decreases |reqs|
  {
    if reqs == [] then []
    else
      var r := reqs[0];
      var (e', d) := Decide(rules(r.key), Lookup(s, r.key), r.time);
      [d] + Run(rules, Put(s, r.key, e'), reqs[1..])
  }

  ghost function TimesOf(reqs: seq<Request>, key: string): seq<int> {
    if reqs == [] then []
    else if reqs[0].key == key then [reqs[0].time] + TimesOf(reqs[1..], key)
    else TimesOf(reqs[1..], key)
  }

  ghost function DecisionsOf(reqs: seq<Request>, ds: seq<Decision>, key: string): seq<Decision>
    requires |ds| == |reqs|
  {
    if reqs == [] then []
    else if reqs[0].key == key then [ds[0]] + DecisionsOf(reqs[1..], ds[1..], key)
    else DecisionsOf(reqs[1..], ds[1..], key)
  }

  ghost function RunKey(rule: Rule, e: Option<Entry>, ts: seq<int>): seq<Decision>
    decreases |ts|
  {
    if ts == [] then []
    else
      var (e', d) := Decide(rule, e, ts[0]);
      [d] + RunKey(rule, e', ts[1..])
  }

  lemma {:induction false} RunLength(rules: string -> Rule, s: Store, reqs: seq<Request>)
    ensures |Run(rules, s, reqs)| == |reqs|
    decreases |reqs|
  {
    if reqs != [] {
      var r := reqs[0];
      RunLength(rules, Put(s, r.key, Decide(rules(r.key), Lookup(s, r.key), r.time).0), reqs[1..]);
    }
  }

  /** Interleaving does not matter: what a caller is told depends on that caller's own
      requests alone. */
  lemma {:induction false} KeysAreIndependent(rules: string -> Rule, s: Store, reqs: seq<Request>, key: string)
    ensures |Run(rules, s, reqs)| == |reqs|
    ensures DecisionsOf(reqs, Run(rules, s, reqs), key)
         == RunKey(rules(key), Lookup(s, key), TimesOf(reqs, key))
    decreases |reqs|
  {
    RunLength(rules, s, reqs);
    if reqs != [] {
      var r := reqs[0];
      var (e', d) := Decide(rules(r.key), Lookup(s, r.key), r.time);
      var s' := Put(s, r.key, e');
      KeysAreIndependent(rules, s', reqs[1..], key);
      assert Run(rules, s, reqs)[1..] == Run(rules, s', reqs[1..]);
      if r.key == key {
        assert Lookup(s', key) == e';
        var ts := TimesOf(reqs, key);
        assert ts[0] == r.time && ts[1..] == TimesOf(reqs[1..], key);
      } else {
        assert Lookup(s', key) == Lookup(s, key);
      }
    }
  }

  // One key: windows

  ghost predicate Ordered(ts: seq<int>) {
    forall i, j | 0 <= i < j < |ts| :: ts[i] <= ts[j]
  }

  /** The key has not been set, or was set by the limiter with this window at or before `now`. */
  ghost predicate Reachable(e: Option<Entry>, span: int, now: int) {
    e.Some? ==> e.value.count >= 1 && e.value.expires.Some? && e.value.expires.value <= now + span
  }

  /** The window a request was counted in (by its end) and its rank there. */
  datatype Slot = Slot(end: int, rank: int)

  ghost function Slots(window: int, e: Option<Entry>, ts: seq<int>): seq<Slot>
    requires window > 0 && (ts != [] ==> Reachable(e, window, ts[0])) && Ordered(ts)
    decreases |ts|
  {
    if ts == [] then []
    else
      var (e', n) := Hit(e, window, ts[0]);
      [Slot(e'.value.expires.value, n)] + Slots(window, e', ts[1..])
  }

  lemma {:induction false} RankDecides(rule: Rule, e: Option<Entry>, ts: seq<int>)
    requires rule.Span() > 0 && (ts != [] ==> Reachable(e, rule.Span(), ts[0])) && Ordered(ts)
    ensures |RunKey(rule, e, ts)| == |ts| == |Slots(rule.Span(), e, ts)|
    ensures forall i | 0 <= i < |ts| ::
              RunKey(rule, e, ts)[i].Admitted? <==> Slots(rule.Span(), e, ts)[i].rank <= rule.limit
    decreases |ts|
  {
    if ts != [] {
      RankDecides(rule, Hit(e, rule.Span(), ts[0]).0, ts[1..]);
    }
  }

  /** How many requests fell in the window that ends at `end`. */
  ghost function Arrivals(slots: seq<Slot>, end: int): nat {
    if slots == [] then 0
    else (if slots[0].end == end then 1 else 0) + Arrivals(slots[1..], end)
  }

  /** How many of them were admitted. */
  ghost function AdmittedIn(rule: Rule, slots: seq<Slot>, end: int): nat {
    if slots == [] then 0
    else (if slots[0].end == end && slots[0].rank <= rule.limit then 1 else 0) + AdmittedIn(rule, slots[1..], end)
  }

  lemma {:induction false} PastWindowsStayPast(window: int, e: Option<Entry>, ts: seq<int>, end: int)
    requires window > 0 && (ts != [] ==> Reachable(e, window, ts[0])) && Ordered(ts)
    requires e.Some? && e.value.expires.Some? && end < e.value.expires.value
    ensures Arrivals(Slots(window, e, ts), end) == 0
    decreases |ts|
  {
    if ts != [] {
      PastWindowsStayPast(window, Hit(e, window, ts[0]).0, ts[1..], end);
    }
  }

  lemma {:induction false} AdmittedAtMostArrivals(rule: Rule, slots: seq<Slot>, end: int)
    ensures AdmittedIn(rule, slots, end) <= Arrivals(slots, end)
  {
    if slots != [] { AdmittedAtMostArrivals(rule, slots[1..], end); }
  }

  /** How many of n requests a window lets through. */
  ghost function Quota(rule: Rule, n: nat): nat {
    Min(Max(rule.limit, 0), n)
  }

  lemma {:induction false} RestOfWindow(rule: Rule, e: Option<Entry>, ts: seq<int>, end: int)
    requires rule.Span() > 0 && (ts != [] ==> Reachable(e, rule.Span(), ts[0])) && Ordered(ts)
    requires e.Some? ==> e.value.count >= 1 && e.value.expires.Some? && e.value.expires.value <= end
    ensures var slots := Slots(rule.Span(), e, ts);
            var used := if e.Some? && e.value.expires.value == end then e.value.count else 0;
            AdmittedIn(rule, slots, end) == Quota(rule, used + Arrivals(slots, end)) - Quota(rule, used)
    decreases |ts|
  {
    if ts != [] {
      var e' := Hit(e, rule.Span(), ts[0]).0;
      if e'.value.expires.value <= end {
        RestOfWindow(rule, e', ts[1..], end);
      } else {
        PastWindowsStayPast(rule.Span(), e', ts[1..], end);
        AdmittedAtMostArrivals(rule, Slots(rule.Span(), e', ts[1..]), end);
      }
    }
  }

  /** How many of them the decisions let through. */
  ghost function LetThrough(slots: seq<Slot>, ds: seq<Decision>, end: int): nat
    requires |ds| == |slots|
  {
    if slots == [] then 0
    else (if slots[0].end == end && ds[0].Admitted? then 1 else 0) + LetThrough(slots[1..], ds[1..], end)
  }

  lemma {:induction false} LetThroughByRank(rule: Rule, slots: seq<Slot>, ds: seq<Decision>, end: int)
    requires |ds| == |slots| && forall i | 0 <= i < |slots| :: ds[i].Admitted? <==> slots[i].rank <= rule.limit
    ensures LetThrough(slots, ds, end) == AdmittedIn(rule, slots, end)
  {
    if slots != [] { LetThroughByRank(rule, slots[1..], ds[1..], end); }
  }

  /** Every window of a caller, wherever it starts and whatever other callers do in between,
      lets through min(limit, arrivals) of that caller's requests. */
  lemma {:induction false} WindowsAreExact(rules: string -> Rule, reqs: seq<Request>, key: string, end: int)
    requires rules(key).Span() > 0 && Ordered(TimesOf(reqs, key))
    ensures |Run(rules, map[], reqs)| == |reqs|
    ensures var slots := Slots(rules(key).Span(), None, TimesOf(reqs, key));
            var ds := DecisionsOf(reqs, Run(rules, map[], reqs), key);
            |ds| == |slots| && LetThrough(slots, ds, end) == Min(Max(rules(key).limit, 0), Arrivals(slots, end))
  {
    var ts := TimesOf(reqs, key);
    KeysAreIndependent(rules, map[], reqs, key);
    RankDecides(rules(key), None, ts);
    LetThroughByRank(rules(key), Slots(rules(key).Span(), None, ts), RunKey(rules(key), None, ts), end);
    RestOfWindow(rules(key), None, ts, end);
  }

  /** A window that is not positive deletes the counter each time: no limit but limit < 1. */
  lemma {:induction false} NonPositiveWindow(rule: Rule, ts: seq<int>)
    requires rule.Span() <= 0
    ensures |RunKey(rule, None, ts)| == |ts|
    ensures forall i | 0 <= i < |ts| :: RunKey(rule, None, ts)[i].Admitted? <==> rule.limit >= 1
  {
    if ts != [] { NonPositiveWindow(rule, ts[1..]); }
  }

  // One key: bursts

  /** Requests admitted during [from, from + window). */
  ghost function Burst(rule: Rule, ts: seq<int>, ds: seq<Decision>, from: int): nat
    requires |ds| == |ts|
  {
    if ts == [] then 0
    else (if from <= ts[0] < from + rule.Span() && ds[0].Admitted? then 1 else 0) + Burst(rule, ts[1..], ds[1..], from)
  }

  ghost function BurstFrom(rule: Rule, e: Option<Entry>, ts: seq<int>, from: int): nat
    requires rule.Span() > 0 && (ts != [] ==> Reachable(e, rule.Span(), ts[0])) && Ordered(ts)
  {
    RankDecides(rule, e, ts);
    Burst(rule, ts, RunKey(rule, e, ts), from)
  }

  lemma BurstStep(rule: Rule, e: Option<Entry>, ts: seq<int>, from: int)
    requires rule.Span() > 0 && ts != [] && Reachable(e, rule.Span(), ts[0]) && Ordered(ts)
    ensures var (e', n) := Hit(e, rule.Span(), ts[0]);
            && (ts[1..] != [] ==> Reachable(e', rule.Span(), ts[1..][0]))
            && BurstFrom(rule, e, ts, from) ==
               (if from <= ts[0] < from + rule.Span() && n <= rule.limit then 1 else 0)
               + BurstFrom(rule, e', ts[1..], from)
  {
    RankDecides(rule, e, ts);
    assert RunKey(rule, e, ts)[1..] == RunKey(rule, Hit(e, rule.Span(), ts[0]).0, ts[1..]);
  }

  lemma {:induction false} NothingAfterInterval(rule: Rule, e: Option<Entry>, ts: seq<int>, from: int)
    requires rule.Span() > 0 && (ts != [] ==> Reachable(e, rule.Span(), ts[0])) && Ordered(ts)
    requires ts != [] ==> ts[0] >= from + rule.Span()
    ensures BurstFrom(rule, e, ts, from) == 0
    decreases |ts|
  {
    if ts != [] {
      BurstStep(rule, e, ts, from);
      NothingAfterInterval(rule, Hit(e, rule.Span(), ts[0]).0, ts[1..], from);
    }
  }

  /** The open window outlasts the interval: only what is left of its quota. */
  lemma {:induction false} WithinLastWindow(rule: Rule, e: Option<Entry>, ts: seq<int>, from: int)
    requires rule.Span() > 0 && (ts != [] ==> Reachable(e, rule.Span(), ts[0])) && Ordered(ts)
    requires e.Some? && e.value.count >= 1 && e.value.expires.Some? && e.value.expires.value >= from + rule.Span()
    ensures BurstFrom(rule, e, ts, from) <= Max(0, rule.limit - e.value.count)
    decreases |ts|
  {
    if ts != [] {
      if ts[0] >= from + rule.Span() {
        NothingAfterInterval(rule, e, ts, from);
      } else {
        BurstStep(rule, e, ts, from);
        WithinLastWindow(rule, Hit(e, rule.Span(), ts[0]).0, ts[1..], from);
      }
    }
  }

  /** From the start of the interval: what is left of the open window, then one more window. */
  lemma {:induction false} WithinInterval(rule: Rule, e: Option<Entry>, ts: seq<int>, from: int)
    requires rule.Span() > 0 && (ts != [] ==> Reachable(e, rule.Span(), ts[0])) && Ordered(ts)
    requires ts != [] ==> from <= ts[0]
    requires e.Some? ==> e.value.count >= 1
    ensures BurstFrom(rule, e, ts, from) <=
            Max(0, rule.limit) + (if e.Some? then Max(0, rule.limit - e.value.count) else 0)
    decreases |ts|
  {
    if ts != [] {
      if ts[0] >= from + rule.Span() {
        NothingAfterInterval(rule, e, ts, from);
      } else {
        BurstStep(rule, e, ts, from);
        var e' := Hit(e, rule.Span(), ts[0]).0;
        if Live(e, ts[0]).Some? {
          WithinInterval(rule, e', ts[1..], from);
        } else {
          WithinLastWindow(rule, e', ts[1..], from);
        }
      }
    }
  }

  /** No half-open interval one window long admits more than 2 * limit - 1 requests, wherever
      the windows start; the documented bound is 2 * limit. */
  lemma {:induction false} BurstBound(rule: Rule, e: Option<Entry>, ts: seq<int>, from: int)
    requires rule.Span() > 0 && (ts != [] ==> Reachable(e, rule.Span(), ts[0])) && Ordered(ts)
    requires e.Some? ==> e.value.count >= 1
    ensures BurstFrom(rule, e, ts, from) <= Max(0, 2 * rule.limit - 1)
    decreases |ts|
  {
    if ts != [] {
      if ts[0] < from {
        BurstStep(rule, e, ts, from);
        BurstBound(rule, Hit(e, rule.Span(), ts[0]).0, ts[1..], from);
      } else {
        WithinInterval(rule, e, ts, from);
      }
    }
  }

  /** The same of a whole run: no caller gets more through in such an interval, whatever the
      others do. */
  lemma {:induction false} CallersBurstBound(rules: string -> Rule, reqs: seq<Request>, key: string, from: int)
    requires rules(key).Span() > 0 && Ordered(TimesOf(reqs, key))
    ensures |Run(rules, map[], reqs)| == |reqs|
    ensures var ts, ds := TimesOf(reqs, key), DecisionsOf(reqs, Run(rules, map[], reqs), key);
            |ds| == |ts| && Burst(rules(key), ts, ds, from) <= Max(0, 2 * rules(key).limit - 1)
  {
    var ts := TimesOf(reqs, key);
    KeysAreIndependent(rules, map[], reqs, key);
    RankDecides(rules(key), None, ts);
    BurstBound(rules(key), None, ts, from);
  }

  ghost function Repeat(t: int, n: nat, rest: seq<int>): seq<int> {
    if n == 0 then rest else [t] + Repeat(t, n - 1, rest)
  }

  lemma {:induction false} RepeatOrdered(t: int, n: nat, rest: seq<int>)
    requires Ordered(rest) && (rest != [] ==> t <= rest[0])
    ensures Ordered(Repeat(t, n, rest))
    ensures Repeat(t, n, rest) != [] ==> t <= Repeat(t, n, rest)[0]
  {
    if n > 0 { RepeatOrdered(t, n - 1, rest); }
  }

  lemma {:induction false} RepeatedHits(rule: Rule, end: int, count: nat, t: int, n: nat, rest: seq<int>, from: int)
    requires rule.Span() > 0 && 1 <= count && count + n <= rule.limit
    requires from <= t < from + rule.Span() && t < end <= t + rule.Span()
    requires Ordered(rest) && (rest != [] ==> t <= rest[0])
    ensures Ordered(Repeat(t, n, rest)) && (Repeat(t, n, rest) != [] ==> t <= Repeat(t, n, rest)[0])
    ensures BurstFrom(rule, Some(Entry(count, Some(end))), Repeat(t, n, rest), from)
         == n + BurstFrom(rule, Some(Entry(count + n, Some(end))), rest, from)
    decreases n
  {
    RepeatOrdered(t, n, rest);
    if n > 0 {
      assert Repeat(t, n, rest)[1..] == Repeat(t, n - 1, rest);
      BurstStep(rule, Some(Entry(count, Some(end))), Repeat(t, n, rest), from);
      RepeatedHits(rule, end, count + 1, t, n - 1, rest, from);
    }
  }

  /** One request opens a window, the rest of the quota waits for its last tick, and a full
      quota follows in the next window. */
  ghost function WorstCase(rule: Rule): seq<int>
    requires rule.limit >= 1
  {
    [0] + Repeat(rule.Span() - 1, rule.limit - 1, Repeat(rule.Span(), rule.limit, []))
  }

  /** The bound is attained. */
  lemma BurstBoundIsTight(rule: Rule)
    requires rule.limit >= 1 && rule.window >= 1
    ensures Ordered(WorstCase(rule))
    ensures BurstFrom(rule, None, WorstCase(rule), 1) == 2 * rule.limit - 1
  {
    var w, n := rule.Span(), rule.limit - 1;
    var second := Repeat(w, rule.limit, []);
    RepeatOrdered(w, rule.limit, []);
    RepeatOrdered(w - 1, n, second);
    assert WorstCase(rule)[1..] == Repeat(w - 1, n, second);
    BurstStep(rule, None, WorstCase(rule), 1);
    RepeatedHits(rule, w, 1, w - 1, n, second, 1);
    assert second[1..] == Repeat(w, n, []);
    BurstStep(rule, Some(Entry(1 + n, Some(w))), second, 1);
    RepeatedHits(rule, 2 * w, 1, w, n, [], 1);
  }

  // Retry-After

  ghost predicate OpenWindow(e: Option<Entry>, rule: Rule, now: int) {
    && e.Some? && e.value.expires.Some?
    && e.value.count >= Max(rule.limit, 0) && e.value.count >= 1
    && now < e.value.expires.value
  }

  lemma {:induction false} DeniedUntilEnd(rule: Rule, e: Option<Entry>, ts: seq<int>, i: nat)
    requires rule.Span() > 0 && i < |ts| && Ordered(ts)
    requires OpenWindow(e, rule, ts[0])
    requires i > 0 ==> ts[i - 1] < e.value.expires.value
    ensures |RunKey(rule, e, ts)| == |ts|
    ensures ts[i] < e.value.expires.value ==> RunKey(rule, e, ts)[i].Denied?
    ensures ts[i] >= e.value.expires.value && rule.limit >= 1 ==> RunKey(rule, e, ts)[i].Admitted?
    decreases |ts|
  {
    RunKeyLength(rule, e, ts);
    if i > 0 {
      var e' := Decide(rule, e, ts[0]).0;
      assert ts[0] <= ts[i - 1];
      if i == 1 && ts[1] >= e.value.expires.value {
        RunKeyLength(rule, e', ts[1..]);
        assert RunKey(rule, e, ts)[1] == RunKey(rule, e', ts[1..])[0];
      } else {
        assert ts[1] <= ts[i - 1] || i == 1;
        DeniedUntilEnd(rule, e', ts[1..], i - 1);
      }
    }
  }

  lemma {:induction false} RunKeyLength(rule: Rule, e: Option<Entry>, ts: seq<int>)
    ensures |RunKey(rule, e, ts)| == |ts|
    decreases |ts|
  {
    if ts != [] { RunKeyLength(rule, Decide(rule, e, ts[0]).0, ts[1..]); }
  }

  /** The milliseconds that are left of the window when a request at time t is denied. */
  ghost function Left(rule: Rule, e: Option<Entry>, t: int): int
    requires rule.window > 0 && Reachable(e, rule.Span(), t)
  {
    Decide(rule, e, t).0.value.expires.value - t
  }

  /** After a denial at time t every request before the end of the window is denied too, and
      the first one at or after it is admitted. */
  lemma {:induction false} DeniedExactlyUntilTheEnd(rule: Rule, e: Option<Entry>, t: int, ts: seq<int>, i: nat)
    requires rule.window > 0 && Reachable(e, rule.Span(), t)
    requires Decide(rule, e, t).1.Denied?
    requires Ordered([t] + ts) && i < |ts|
    requires forall j | 0 <= j < i :: ts[j] < t + Left(rule, e, t)
    ensures |RunKey(rule, e, [t] + ts)| == |ts| + 1
    ensures ts[i] < t + Left(rule, e, t) ==> RunKey(rule, e, [t] + ts)[1 + i].Denied?
    ensures ts[i] >= t + Left(rule, e, t) && rule.limit >= 1 ==> RunKey(rule, e, [t] + ts)[1 + i].Admitted?
  {
    var (e', d) := Decide(rule, e, t);
    assert ([t] + ts)[1..] == ts;
    assert RunKey(rule, e, [t] + ts) == [d] + RunKey(rule, e', ts);
    forall j, k | 0 <= j < k < |ts| ensures ts[j] <= ts[k] {
      assert ([t] + ts)[j + 1] <= ([t] + ts)[k + 1];
    }
    assert ([t] + ts)[0] <= ([t] + ts)[1];
    RunKeyLength(rule, e', ts);
    if ts[0] < e'.value.expires.value {
      DeniedUntilEnd(rule, e', ts, i);
    } else {
      assert i == 0;
    }
  }

  /** How far Retry-After is off. It is the time left to the nearest second, except that less
      than half a second is announced as a whole window. So it is exact on whole seconds, too
      early when a second was rounded down, and too late when one was rounded up. */
  lemma RetryAfterError(rule: Rule, e: Option<Entry>, t: int)
    requires rule.window > 0 && Reachable(e, rule.Span(), t)
    requires Decide(rule, e, t).1.Denied?
    ensures var left, announced := Left(rule, e, t), SECOND * Decide(rule, e, t).1.retryAfter;
            && 0 < left <= rule.Span()
            && (left >= 500 ==> -500 < announced - left <= 500)
            && (left < 500 ==> announced == rule.Span())
            && (announced == left <==> left % SECOND == 0)
            && (announced < left <==> left >= 500 && 0 < left % SECOND < 500)
            && (announced > left <==> left < 500 || left % SECOND >= 500)
  {}

  /** What the header promises about one later request. */
  ghost predicate KeepsItsWord(rule: Rule, e: Option<Entry>, t: int, u: int)
    requires Decide(rule, e, t).1.Denied?
  {
    && |RunKey(rule, e, [t, u])| == 2
    && (RunKey(rule, e, [t, u])[1].Denied? <==> u < t + SECOND * Decide(rule, e, t).1.retryAfter)
  }

  lemma {:induction false} NextRequest(rule: Rule, e: Option<Entry>, t: int, u: int)
    requires rule.window > 0 && rule.limit >= 1 && Reachable(e, rule.Span(), t)
    requires Decide(rule, e, t).1.Denied? && t <= u
    ensures |RunKey(rule, e, [t, u])| == 2
    ensures RunKey(rule, e, [t, u])[1].Denied? <==> u < t + Left(rule, e, t)
  {
    assert [t] + [u] == [t, u];
    DeniedExactlyUntilTheEnd(rule, e, t, [u], 0);
  }

  /** Nothing is ever admitted under a limit below 1. */
  lemma NeverAdmits(rule: Rule, e: Option<Entry>, t: int, u: int)
    requires rule.window > 0 && rule.limit < 1 && Reachable(e, rule.Span(), t) && t <= u
    ensures |RunKey(rule, e, [t, u])| == 2 && RunKey(rule, e, [t, u])[1].Denied?
  {
    var e' := Decide(rule, e, t).0;
    assert [t, u][1..] == [u] && [u][1..] == [];
    assert RunKey(rule, e', [u]) == [Decide(rule, e', u).1];
  }

  /** Retry-After separates denied from admitted, whenever the next request comes, exactly when
      a whole number of seconds was left and the limit admits anything at all. */
  lemma {:induction false} RetryAfterIsExact(rule: Rule, e: Option<Entry>, t: int)
    requires rule.window > 0 && Reachable(e, rule.Span(), t)
    requires Decide(rule, e, t).1.Denied?
    ensures (forall u | t <= u :: KeepsItsWord(rule, e, t, u)) <==> Left(rule, e, t) % SECOND == 0 && rule.limit >= 1
  {
    RetryAfterError(rule, e, t);
    var left, announced := Left(rule, e, t), SECOND * Decide(rule, e, t).1.retryAfter;
    if rule.limit < 1 {
      NeverAdmits(rule, e, t, t + announced);
      assert !KeepsItsWord(rule, e, t, t + announced);
    } else if left % SECOND == 0 {
      forall u | t <= u ensures KeepsItsWord(rule, e, t, u) { NextRequest(rule, e, t, u); }
    } else {
      var u := t + Min(left, announced);
      NextRequest(rule, e, t, u);
      assert !KeepsItsWord(rule, e, t, u);
    }
  }
}
