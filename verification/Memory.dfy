/** Session memory and its context window (src/finsage/api/memory.py). */
module Memory {
  import opened Options
  import opened Seqs

  datatype Message = Message(role: string, content: string)

  /** About two characters a token, rounded up. */
  function EstimateTokens(text: string): (tokens: nat)
    ensures |text| <= 2 * tokens < |text| + 2
  {
    if text == "" then 0 else Max(1, (|text| + 1) / 2)
  }

  function Cost(m: Message): nat { EstimateTokens(m.content) }

  function Total(ms: seq<Message>): nat {
    if ms == [] then 0 else Cost(ms[0]) + Total(ms[1..])
  }

  lemma {:induction false} TotalFrom(ms: seq<Message>, k: nat)
    requires k < |ms|
    ensures Total(ms[k..]) == Cost(ms[k]) + Total(ms[k + 1..])
  {
    assert ms[k..][1..] == ms[k + 1..];
  }

  lemma {:induction false} TotalAdd(a: seq<Message>, b: seq<Message>)
    ensures Total(a + b) == Total(a) + Total(b)
  {
    if a == [] {
      assert a + b == b;
    } else {
      assert (a + b)[1..] == a[1..] + b;
      TotalAdd(a[1..], b);
    }
  }

  /** A longer suffix costs no less. */
  lemma {:induction false} TotalShrinks(ms: seq<Message>, j: nat, k: nat)
    requires j <= k <= |ms|
    ensures Total(ms[j..]) >= Total(ms[k..])
    decreases k - j
  {
    if j < k {
      TotalFrom(ms, j);
      TotalShrinks(ms, j + 1, k);
    }
  }

  // The window

  /** The suffix from k on, with something beside it, costs more than the budget. */
  ghost predicate Exceeds(messages: seq<Message>, k: nat, beside: nat, budget: int)
    requires k <= |messages|
  {
    beside + Total(messages[k..]) > budget
  }

  /** kept is the longest suffix within the budget, or the newest message alone. */
  ghost predicate IsWindow(overflow: seq<Message>, kept: seq<Message>, messages: seq<Message>, budget: int) {
    && messages == overflow + kept
    && (messages != [] ==> kept != [])
    && (|kept| > 1 ==> Total(kept) <= budget)
    && forall k: nat | k < |overflow| :: Exceeds(messages, k, 0, budget)
  }

  method SplitByBudget(messages: seq<Message>, budget: int) returns (overflow: seq<Message>, kept: seq<Message>)
    ensures IsWindow(overflow, kept, messages, budget)
  {
    kept := [];
    var used := 0;
    var n := |messages|;
    while n > 0
      invariant 0 <= n <= |messages| && kept == messages[n..] && used == Total(kept)
      invariant |kept| > 1 ==> used <= budget
      decreases n
    {
      var message := messages[n - 1];
      var cost := Cost(message);
      TotalFrom(messages, n - 1);
      if kept != [] && used + cost > budget {
        forall k: nat | k < n ensures Exceeds(messages, k, 0, budget) {
          TotalShrinks(messages, k, n - 1);
        }
        break;
      }
      assert messages[n - 1..] == [message] + messages[n..];
      kept := [message] + kept;
      used := used + cost;
      n := n - 1;
    }
    overflow := messages[..n];
  }

  lemma NotShorter(o: seq<Message>, k: seq<Message>, o': seq<Message>, k': seq<Message>,
                   messages: seq<Message>, budget: int)
    requires IsWindow(o, k, messages, budget) && IsWindow(o', k', messages, budget)
    ensures |o| >= |o'|
  {
    assert k == messages[|o|..];
    assert |o| < |o'| ==> Exceeds(messages, |o|, 0, budget);
  }

  /** There is one such window. */
  lemma WindowUnique(o: seq<Message>, k: seq<Message>, o': seq<Message>, k': seq<Message>,
                     messages: seq<Message>, budget: int)
    requires IsWindow(o, k, messages, budget) && IsWindow(o', k', messages, budget)
    ensures o == o' && k == k'
  {
    NotShorter(o, k, o', k', messages, budget);
    NotShorter(o', k', o, k, messages, budget);
    assert o == messages[..|o|] && k == messages[|o|..] && o' == messages[..|o'|] && k' == messages[|o'|..];
  }

  // Compression

  const SUMMARY_ROLE := "system"
  const SUMMARY_PREFIX := "早前对话摘要："

  /** None when it raises. */
  type Summarizer = seq<Message> -> Option<string>

  function SummaryMessage(summary: string, maxChars: int): Message {
    Message(SUMMARY_ROLE, SUMMARY_PREFIX + Upto(summary, maxChars))
  }

  /** The message is a summary of what was dropped: the prefix, then the first characters of
      what the summariser says about it. */
  ghost predicate Summarises(head: Message, dropped: seq<Message>, summarizer: Option<Summarizer>, maxChars: int) {
    && dropped != [] && summarizer.Some? && summarizer.value(dropped).Some?
    && var summary := summarizer.value(dropped).value;
       var n := if maxChars >= 0 then Min(maxChars, |summary|) else Max(0, |summary| + maxChars);
       summary != "" && head.role == SUMMARY_ROLE && head.content == SUMMARY_PREFIX + summary[..n]
  }

  /** What the summary is, if there is one. */
  function SummaryOf(overflow: seq<Message>, summarizer: Option<Summarizer>, maxChars: int): (r: Option<Message>)
    ensures r.Some? ==> Summarises(r.value, overflow, summarizer, maxChars)
    ensures r.None? <==> overflow == [] || summarizer.None? || summarizer.value(overflow) in {None, Some("")}
  {
    if overflow == [] || summarizer.None? then None
    else match summarizer.value(overflow)
         case None => None
         case Some(summary) => if summary == "" then None else Some(SummaryMessage(summary, maxChars))
  }

  /** A summary, and as much of the kept messages as it leaves room for. */
  ghost predicate FitsBeside(r: seq<Message>, summary: Message, kept: seq<Message>, budget: int) {
    && r != [] && r[0] == summary && |r| - 1 <= |kept|
    && r[1..] == kept[|kept| - (|r| - 1)..]
    && (|r| > 1 ==> Total(r) <= budget)
    && forall k: nat | k < |kept| - (|r| - 1) :: Exceeds(kept, k, Cost(summary), budget)
  }

  ghost predicate FollowsFrom(r: seq<Message>, summary: Option<Message>, kept: seq<Message>, budget: int) {
    match summary
    case None => r == kept
    case Some(head) => FitsBeside(r, head, kept, budget)
  }

  /** What compression promises: everything when it fits; else the window, or a summary of what
      fell out of the window followed by as much of the window as the summary leaves room for. */
  ghost predicate IsCompressed(r: seq<Message>, messages: seq<Message>, budget: int,
                               summarizer: Option<Summarizer>, maxChars: int) {
    if Total(messages) <= budget then r == messages
    else exists overflow, kept :: IsWindow(overflow, kept, messages, budget)
                                  && FollowsFrom(r, SummaryOf(overflow, summarizer, maxChars), kept, budget)
  }

  method CountTokens(messages: seq<Message>) returns (total: nat)
    ensures total == Total(messages)
  {
    total := 0;
    for i := 0 to |messages|
      invariant total == Total(messages[..i])
    {
      PrefixStep(messages, i);
      TotalAdd(messages[..i], [messages[i]]);
      assert Total([messages[i]]) == Cost(messages[i]) + Total([]);
      total := total + Cost(messages[i]);
    }
    WholePrefix(messages);
  }

  lemma Fits(head: Message, rest: seq<Message>, kept: seq<Message>, budget: int)
    requires |rest| <= |kept| && rest == kept[|kept| - |rest|..] && (rest != [] ==> Cost(head) + Total(rest) <= budget)
    requires forall k: nat | k < |kept| - |rest| :: Exceeds(kept, k, Cost(head), budget)
    ensures FitsBeside([head] + rest, head, kept, budget)
  {
    assert ([head] + rest)[1..] == rest;
  }

  /** The summary message, where there is something to summarise and a summary of it. */
  method Summarize(overflow: seq<Message>, summarizer: Option<Summarizer>, maxChars: int) returns (r: Option<Message>)
    ensures r == SummaryOf(overflow, summarizer, maxChars)
  {
    if overflow == [] || summarizer.None? {
      return None;
    }
    var summary := summarizer.value(overflow);
    if summary.None? || summary.value == "" {
      return None;
    }
    return Some(SummaryMessage(summary.value, maxChars));
  }

  method Assemble(summary: Option<Message>, kept: seq<Message>, budget: int) returns (r: seq<Message>)
    ensures FollowsFrom(r, summary, kept, budget)
  {
    if summary.None? {
      return kept;
    }
    var rest := MakeRoom(kept, budget, Cost(summary.value));
    Fits(summary.value, rest, kept, budget);
    return [summary.value] + rest;
  }

  method Compress(messages: seq<Message>, budget: int, summarizer: Option<Summarizer>, maxChars: int)
    returns (r: seq<Message>)
    ensures IsCompressed(r, messages, budget, summarizer, maxChars)
  {
    var total := CountTokens(messages);
    if total <= budget {
      return messages;
    }
    var overflow, kept := SplitByBudget(messages, budget);
    var summary := Summarize(overflow, summarizer, maxChars);
    r := Assemble(summary, kept, budget);
  }

  /** Drops the oldest kept messages until the rest fits beside the summary. */
  method MakeRoom(kept: seq<Message>, budget: int, summaryCost: nat) returns (rest: seq<Message>)
    ensures |rest| <= |kept| && rest == kept[|kept| - |rest|..]
    ensures rest != [] ==> summaryCost + Total(rest) <= budget
    ensures forall k: nat | k < |kept| - |rest| :: Exceeds(kept, k, summaryCost, budget)
  {
    rest := kept;
    ghost var dropped := 0;
    while rest != [] && summaryCost + Total(rest) > budget
      invariant 0 <= dropped <= |kept| && rest == kept[dropped..]
      invariant forall k: nat | k < dropped :: Exceeds(kept, k, summaryCost, budget)
      decreases |rest|
    {
      rest := rest[1..];
      dropped := dropped + 1;
    }
  }

  /** A suffix of the history from k on, alone or behind a summary of its oldest messages. */
  ghost predicate IsSuffix(r: seq<Message>, messages: seq<Message>, k: nat,
                           summarizer: Option<Summarizer>, maxChars: int) {
    && k <= |messages|
    && (r == messages[k..] || (r != [] && r[1..] == messages[k..] && Heads(r[0], messages, k, summarizer, maxChars)))
  }

  ghost predicate IsSuffixOf(r: seq<Message>, messages: seq<Message>, summarizer: Option<Summarizer>, maxChars: int) {
    exists k: nat :: IsSuffix(r, messages, k, summarizer, maxChars)
  }

  ghost predicate Heads(head: Message, messages: seq<Message>, k: nat, summarizer: Option<Summarizer>, maxChars: int)
    requires k <= |messages|
  {
    exists d: nat | 0 < d <= k :: Summarises(head, messages[..d], summarizer, maxChars)
  }

  lemma SuffixOfWindow(r: seq<Message>, summary: Option<Message>, overflow: seq<Message>, kept: seq<Message>,
                       budget: int, summarizer: Option<Summarizer>, maxChars: int)
    requires FollowsFrom(r, summary, kept, budget)
    requires summary.Some? ==> Summarises(summary.value, overflow, summarizer, maxChars)
    requires |kept| > 1 ==> Total(kept) <= budget
    ensures IsSuffixOf(r, overflow + kept, summarizer, maxChars)
    ensures |r| > 1 ==> Total(r) <= budget
  {
    match summary
    case None =>
      assert r == (overflow + kept)[|overflow|..];
      assert IsSuffix(r, overflow + kept, |overflow|, summarizer, maxChars);
    case Some(head) => SuffixBesideSummary(r, head, overflow, kept, budget, summarizer, maxChars);
  }

  lemma SuffixBesideSummary(r: seq<Message>, summary: Message, overflow: seq<Message>, kept: seq<Message>, budget: int,
                            summarizer: Option<Summarizer>, maxChars: int)
    requires FitsBeside(r, summary, kept, budget) && Summarises(summary, overflow, summarizer, maxChars)
    ensures IsSuffixOf(r, overflow + kept, summarizer, maxChars)
  {
    var d := |kept| - (|r| - 1);
    var messages, k := overflow + kept, |overflow| + d;
    assert messages[k..] == kept[d..];
    assert messages[..|overflow|] == overflow;
    assert Heads(r[0], messages, k, summarizer, maxChars);
    assert IsSuffix(r, messages, k, summarizer, maxChars);
  }

  /** Whatever the summariser does, the history handed on costs no more than the budget unless
      it is a single message, and it is a suffix of the history, behind at most one summary,
      which is of messages dropped. */
  lemma CompressedIsBounded(r: seq<Message>, messages: seq<Message>, budget: int,
                            summarizer: Option<Summarizer>, maxChars: int)
    requires IsCompressed(r, messages, budget, summarizer, maxChars)
    ensures |r| > 1 ==> Total(r) <= budget
    ensures IsSuffixOf(r, messages, summarizer, maxChars)
  {
    if Total(messages) <= budget {
      assert messages[0..] == messages;
      assert IsSuffix(r, messages, 0, summarizer, maxChars);
    } else {
      var overflow, kept :| IsWindow(overflow, kept, messages, budget)
                            && FollowsFrom(r, SummaryOf(overflow, summarizer, maxChars), kept, budget);
      var summary := SummaryOf(overflow, summarizer, maxChars);
      WindowFits(overflow, kept, messages, budget);
      SuffixOfWindow(r, summary, overflow, kept, budget, summarizer, maxChars);
    }
  }

  lemma WindowFits(overflow: seq<Message>, kept: seq<Message>, messages: seq<Message>, budget: int)
    requires IsWindow(overflow, kept, messages, budget)
    ensures messages == overflow + kept && (|kept| > 1 ==> Total(kept) <= budget)
  {}

  lemma FittingIsKept(r: seq<Message>, messages: seq<Message>, budget: int,
                      summarizer: Option<Summarizer>, maxChars: int)
    requires IsCompressed(r, messages, budget, summarizer, maxChars)
    ensures Total(messages) <= budget ==> r == messages
  {}

  lemma HandedOut(r: seq<Message>, all: seq<Message>, limit: int, budget: int,
                  summarizer: Option<Summarizer>, maxChars: int)
    requires IsCompressed(r, Last(all, limit), budget, summarizer, maxChars)
    ensures Handed(r, all, limit, budget, summarizer, maxChars)
  {
    assert IsNewest(Last(all, limit), all, limit);
    FittingIsKept(r, Last(all, limit), budget, summarizer, maxChars);
  }

  /** What is handed out of a history under a limit and a budget: the newest messages the limit
      admits, ending with the last one, compressed into the budget; as they are when they fit. */
  ghost predicate Handed(r: seq<Message>, all: seq<Message>, limit: int, budget: int,
                         summarizer: Option<Summarizer>, maxChars: int) {
    exists newest ::
      && IsNewest(newest, all, limit)
      && IsCompressed(r, newest, budget, summarizer, maxChars)
      && (Total(newest) <= budget ==> r == newest)
  }

  // The in-process store
  // The in-process store

  /** Python's s[-n:]: all of it for 0, and without the first -n for a negative n. */
  function Last<T>(s: seq<T>, n: int): (r: seq<T>)
    ensures |r| == (if n > 0 then Min(n, |s|) else Max(0, |s| + n))
    ensures r == s[|s| - |r|..]
  {
    if n > 0 then s[Max(0, |s| - n)..]
    else if n == 0 then s
    else s[Min(-n, |s|)..]
  }

  /** The newest messages that a limit admits: so many of them, all for a limit of 0, all but
      the first -n for a negative n. */
  ghost predicate IsNewest<T>(newest: seq<T>, all: seq<T>, limit: int) {
    && |newest| == (if limit > 0 then Min(limit, |all|) else Max(0, |all| + limit))
    && newest == all[|all| - |newest|..]
  }

  /** The limit is kept exactly when it is positive or drops everything there is: a limit of 0
      hands out the whole history, and a negative one all but its first messages. */
  lemma LimitKeptExactlyWhen<T>(s: seq<T>, n: int)
    ensures |Last(s, n)| <= Max(0, n) <==> n > 0 || |s| <= -n
    ensures n == 0 ==> Last(s, n) == s
  {}

  class InMemorySessionMemory {
    const summarizer: Option<Summarizer>
    const summaryMaxChars: int
    var store: map<string, seq<Message>>

    function Of(session: string): seq<Message>
      reads this
    {
      if session in store then store[session] else []
    }

    constructor (summarizer: Option<Summarizer>, summaryMaxChars: int)
      ensures forall session :: Of(session) == []
      ensures this.summarizer == summarizer && this.summaryMaxChars == summaryMaxChars
    {
      this.summarizer, this.summaryMaxChars := summarizer, summaryMaxChars;
      store := map[];
    }

    method Append(session: string, role: string, content: string)
      modifies this
      ensures Of(session) == old(Of(session)) + [Message(role, content)]
      ensures forall other | other != session :: Of(other) == old(Of(other))
    {
      store := store[session := Of(session) + [Message(role, content)]];
    }

    /** What the limit admits are the session's newest messages, ending with the last one
        appended; they are handed out as they are when they fit into the budget. */
    method History(session: string, limit: int, tokenBudget: int) returns (r: seq<Message>)
      ensures Handed(r, Of(session), limit, tokenBudget, summarizer, summaryMaxChars)
    {
      r := Compress(Last(Of(session), limit), tokenBudget, summarizer, summaryMaxChars);
      HandedOut(r, Of(session), limit, tokenBudget, summarizer, summaryMaxChars);
    }
  }
}
