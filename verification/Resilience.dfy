/** Circuit breaker and retry (src/finsage/providers/finance/resilience.py), with the clock's
    readings as parameters. */
module Resilience {
  import opened Options

  /** What a provider call raises. */
  datatype Error =
    | ProviderError(code: string, retryable: bool)
    | OtherFinSageError(code: string, retryable: bool)
    | ForeignError(name: string)

  datatype Outcome<+T> = Value(value: T) | Raised(error: Error)

  predicate Retryable(e: Error) { !e.ForeignError? && e.retryable }

  // The breaker

  datatype Breaker = Breaker(failures: map<string, int>, openedAt: map<string, real>)

  const CLOSED := Breaker(map[], map[])

  datatype Settings = Settings(threshold: int, interval: real)

  predicate IsOpen(s: Settings, b: Breaker, key: string, now: real) {
    key in b.openedAt && now - b.openedAt[key] <= s.interval
  }

  function Succeeded(b: Breaker, key: string): Breaker {
    Breaker(b.failures - {key}, b.openedAt - {key})
  }

  function FailedAt(s: Settings, b: Breaker, key: string, now: real): Breaker {
    var count := (if key in b.failures then b.failures[key] else 0) + 1;
    Breaker(
      b.failures[key := count],
      if count >= s.threshold && key !in b.openedAt then b.openedAt[key := now] else b.openedAt)
  }

  class CircuitBreaker {
    const failureThreshold: int
    const openInterval: real
    var failures: map<string, int>
    var openedAt: map<string, real>

    function Abs(): Breaker
      reads this
    {
      Breaker(failures, openedAt)
    }

    function Given(): Settings { Settings(failureThreshold, openInterval) }

    constructor (failureThreshold: int, openInterval: real)
      ensures Abs() == CLOSED && Given() == Settings(failureThreshold, openInterval)
    {
      this.failureThreshold, this.openInterval := failureThreshold, openInterval;
      failures, openedAt := map[], map[];
    }

    predicate CheckOpen(key: string, now: real)
      reads this
    {
      IsOpen(Given(), Abs(), key, now)
    }

    method RecordSuccess(key: string)
      modifies this
      ensures Abs() == Succeeded(old(Abs()), key)
    {
      failures := failures - {key};
      openedAt := openedAt - {key};
    }

    method RecordFailure(key: string, now: real)
      modifies this
      ensures Abs() == FailedAt(Given(), old(Abs()), key, now)
    {
      var count := (if key in failures then failures[key] else 0) + 1;
      failures := failures[key := count];
      if count >= failureThreshold && key !in openedAt {
        openedAt := openedAt[key := now];
      }
    }
  }

  // What the breaker remembers

  datatype Record = Success(key: string) | Failure(key: string, at: real)

  function Step(s: Settings, b: Breaker, r: Record): Breaker {
    match r
    case Success(key) => Succeeded(b, key)
    case Failure(key, at) => FailedAt(s, b, key, at)
  }

  function After(s: Settings, history: seq<Record>): Breaker {
    if history == [] then CLOSED
    else Step(s, After(s, history[..|history| - 1]), history[|history| - 1])
  }

  /** When the key failed, since its last success. */
  function FailuresSince(history: seq<Record>, key: string): seq<real> {
    if history == [] then []
    else
      var before, r := FailuresSince(history[..|history| - 1], key), history[|history| - 1];
      if r.key != key then before
      else match r
           case Success(_) => []
           case Failure(_, at) => before + [at]
  }

  /** The failure that opens: the threshold-th, and at least the first. */
  function Opening(s: Settings): nat { Max(1, s.threshold) - 1 }

  lemma {:induction false} BreakerRemembers(s: Settings, history: seq<Record>, key: string)
    ensures var b, fs := After(s, history), FailuresSince(history, key);
            && (if key in b.failures then b.failures[key] == |fs| > 0 else fs == [])
            && (if key in b.openedAt then Opening(s) < |fs| && b.openedAt[key] == fs[Opening(s)]
                else |fs| <= Opening(s))
  {
    if history != [] {
      BreakerRemembers(s, history[..|history| - 1], key);
    }
  }

  /** Whatever successes and failures of whatever keys came before: a key is open exactly when
      at least `threshold` failures followed its last success and the interval since the
      threshold-th of them has not passed. */
  lemma {:induction false} OpenExactlyWhen(s: Settings, history: seq<Record>, key: string, now: real)
    ensures IsOpen(s, After(s, history), key, now) <==>
            var fs := FailuresSince(history, key);
            |fs| > Opening(s) && now - fs[Opening(s)] <= s.interval
  {
    BreakerRemembers(s, history, key);
  }

  lemma {:induction false} FailuresAdd(history: seq<Record>, more: seq<Record>, key: string)
    requires forall r | r in more :: r.Success? ==> r.key != key
    ensures FailuresSince(history, key) <= FailuresSince(history + more, key)
  {
    if more == [] {
      assert history + more == history;
    } else {
      var init := more[..|more| - 1];
      FailuresAdd(history, init, key);
      assert (history + more)[..|history + more| - 1] == history + init;
      assert more[|more| - 1] in more;
    }
  }

  /** Once its interval has passed, a key never opens again before it has succeeded, however
      often it fails. */
  lemma NeverReopensWithoutSuccess(s: Settings, history: seq<Record>, more: seq<Record>, key: string,
                                   now: real, later: real)
    requires FailuresSince(history, key) != [] && |FailuresSince(history, key)| > Opening(s)
    requires !IsOpen(s, After(s, history), key, now) && now <= later
    requires forall r | r in more :: r.Success? ==> r.key != key
    ensures !IsOpen(s, After(s, history + more), key, later)
  {
    OpenExactlyWhen(s, history, key, now);
    OpenExactlyWhen(s, history + more, key, later);
    FailuresAdd(history, more, key);
  }

  // Retry

  /** What the n-th attempt would do. */
  type Script<T> = nat -> Outcome<T>

  predicate GivesUp<T>(script: Script<T>, retries: int, n: nat) {
    script(n).Value? || !Retryable(script(n).error) || n >= retries
  }

  function LastAttempt<T>(script: Script<T>, retries: int, n: nat): (r: nat)
    ensures n <= r && GivesUp(script, retries, r) && (forall k | n <= k < r :: !GivesUp(script, retries, k))
    ensures r <= Max(n, retries)
    decreases Max(0, retries - n)
  {
    if GivesUp(script, retries, n) then n else LastAttempt(script, retries, n + 1)
  }

  /** The outcome is an error that says it may pass. */
  predicate WorthRetrying<T>(o: Outcome<T>) {
    match o
    case Raised(ProviderError(_, retryable)) => retryable
    case Raised(OtherFinSageError(_, retryable)) => retryable
    case _ => false
  }

  /** Attempt n is the last of a call: all before it raised a retryable error, and it did not,
      or was the last one allowed. */
  ghost predicate IsLast<T>(script: Script<T>, retries: int, n: nat) {
    && (forall k: nat | k < n :: WorthRetrying(script(k)))
    && n <= Max(0, retries)
    && (WorthRetrying(script(n)) ==> n == Max(0, retries))
  }

  /** Errors that are not retryable get one call, others as many as are left; and this decides
      the last attempt. */
  lemma LastAttemptMeaning<T>(script: Script<T>, retries: int)
    ensures IsLast(script, retries, LastAttempt(script, retries, 0))
    ensures forall n: nat | IsLast(script, retries, n) :: n == LastAttempt(script, retries, 0)
  {
    var last := LastAttempt(script, retries, 0);
    forall k: nat | k < last ensures WorthRetrying(script(k)) {
      assert !GivesUp(script, retries, k);
    }
  }

  /** The result of the first attempt that succeeds, fails for good, or uses up the retries:
      at most `retries` more calls than one. */
  method Retry<T>(script: Script<T>, retries: int) returns (r: Outcome<T>, calls: nat)
    ensures calls == LastAttempt(script, retries, 0) + 1 <= Max(0, retries) + 1
    ensures calls > 0 && IsLast(script, retries, calls - 1) && r == script(calls - 1)
  {
    LastAttemptMeaning(script, retries);
    var attempt := 0;
    while true
      invariant forall k | 0 <= k < attempt :: !GivesUp(script, retries, k)
      invariant 0 <= attempt <= Max(0, retries)
      decreases Max(0, retries) - attempt
    {
      r := script(attempt);
      if r.Value? || !Retryable(r.error) || attempt >= retries {
        LastAttemptIs(script, retries, attempt);
        return r, attempt + 1;
      }
      attempt := attempt + 1;
    }
  }

  lemma LastAttemptIs<T>(script: Script<T>, retries: int, n: nat)
    requires GivesUp(script, retries, n) && forall k | 0 <= k < n :: !GivesUp(script, retries, k)
    ensures LastAttempt(script, retries, 0) == n
  {}
}
