/** The event stream client (apps/web/lib/research/sse-client.ts): what each of its reactions
    does as a function, and the object whose methods do it. */
module SseClients {
  import opened Options
  import opened Seqs
  import opened Events
  import opened SseWire
  import opened Texts

  const MAX_SSE_RETRIES := 5

  /** `waiting` says that a reconnect timer is set; `delivered`, `unknown` and `errors` are
      what the three handlers were called with. */
  datatype Client = Client(
    closed: bool,
    fatal: bool,
    waiting: bool,
    retries: nat,
    lastEventId: Option<string>,
    seen: set<string>,
    delivered: seq<Event>,
    unknown: seq<string>,
    errors: nat)

  const FRESH_CLIENT := Client(false, false, false, 0, None, {}, [], [], 0)

  function Close(c: Client): Client { c.(closed := true, waiting := false) }

  function Consume(c: Client, e: Event): Client {
    if e.id in c.seen then c
    else
      var c' := c.(seen := c.seen + {e.id}, lastEventId := Some(e.id), retries := 0, delivered := c.delivered + [e]);
      if Terminal(e.kind) then Close(c') else c'
  }

  /** A frame that is no event is reported, trimmed, unless it is blank. */
  function Handle(codec: Codec, c: Client, frame: string): Client {
    match ParseFrame(codec, frame)
    case Some(e) => Consume(c, e)
    case None =>
      var text := Strip(codec.space, frame);
      if text == "" then c else c.(unknown := c.unknown + [text])
  }

  function Handler(codec: Codec): (Client, string) -> Client {
    (c: Client, frame: string) => Handle(codec, c, frame)
  }

  function HandleAll(codec: Codec, c: Client, frames: seq<string>): Client {
    Fold(Handler(codec), c, frames)
  }

  function ScheduleReconnect(c: Client): Client {
    if c.closed then c
    else if c.retries >= MAX_SSE_RETRIES then c.(closed := true, errors := c.errors + 1)
    else c.(retries := c.retries + 1, waiting := true)
  }

  /** The response is there and readable. */
  function Accepted(c: Client): Client { c.(retries := 0) }

  /** fetch failed (None) or answered with an unusable status. */
  function Refused(c: Client, status: Option<int>): Client {
    var isFatal := status.Some? && 400 <= status.value < 500;
    var c' := if isFatal then c.(closed := true, fatal := true) else c;
    if c'.closed && !c'.fatal then c' else ScheduleReconnect(c'.(errors := c'.errors + 1))
  }

  /** A read failed. */
  function Broken(c: Client): Client { Refused(c, None) }

  class SseClient {
    var closed: bool
    var fatalError: bool
    var reconnectTimer: bool
    var retries: nat
    var lastEventId: Option<string>
    var seenEventIds: set<string>
    var buffer: string
    var delivered: seq<Event>
    var unknown: seq<string>
    var errors: nat

    function Abs(): Client
      reads this
    {
      Client(closed, fatalError, reconnectTimer, retries, lastEventId, seenEventIds, delivered, unknown, errors)
    }

    constructor ()
      ensures Abs() == FRESH_CLIENT && buffer == ""
    {
      closed, fatalError, reconnectTimer, retries := false, false, false, 0;
      lastEventId, seenEventIds, buffer := None, {}, "";
      delivered, unknown, errors := [], [], 0;
    }

    method CloseStream()
      modifies this
      ensures Abs() == Close(old(Abs())) && buffer == old(buffer)
    {
      closed := true;
      reconnectTimer := false;
    }

    method ConsumeEvent(e: Event)
      modifies this
      ensures Abs() == Consume(old(Abs()), e) && buffer == old(buffer)
    {
      if e.id in seenEventIds {
        return;
      }
      seenEventIds := seenEventIds + {e.id};
      lastEventId := Some(e.id);
      retries := 0;
      delivered := delivered + [e];
      if e.kind == TaskCompleted || e.kind == TaskFailed || e.kind == TaskAborted {
        CloseStream();
      }
    }

    /** connect() up to a readable response: the buffer is new, the rest survives. */
    method Accept()
      modifies this
      ensures Abs() == Accepted(old(Abs()).(closed := false, waiting := false)) && buffer == ""
    {
      closed := false;
      reconnectTimer := false;
      retries := 0;
      buffer := "";
    }

    method HandleFrame(codec: Codec, frame: string)
      modifies this
      ensures Abs() == Handle(codec, old(Abs()), frame) && buffer == old(buffer)
    {
      var parsed := ParseFrame(codec, frame);
      if parsed.Some? {
        ConsumeEvent(parsed.value);
        return;
      }
      var text := Strip(codec.space, frame);
      if text != "" {
        unknown := unknown + [text];
      }
    }

    /** What happens with one chunk: all frames it completes are handled, even after one of
        them closed the client. */
    method Read(codec: Codec, text: string)
      modifies this
      ensures Abs() == HandleAll(codec, old(Abs()), Frames(old(buffer) + text))
      ensures buffer == Rest(old(buffer) + text)
    {
      buffer := buffer + text;
      ghost var all, handled: seq<string> := buffer, [];
      while BlankLine(buffer).Some?
        invariant Frames(all) == handled + Frames(buffer) && Rest(all) == Rest(buffer)
        invariant Abs() == HandleAll(codec, old(Abs()), handled)
        decreases |buffer|
      {
        var boundary := BlankLine(buffer).value;
        var chunk := buffer[..boundary];
        FramesStep(buffer, boundary);
        RestStep(buffer, boundary);
        AddAssociates(handled, [chunk], Frames(buffer[boundary + 2..]));
        buffer := buffer[boundary + 2..];
        HandleFrame(codec, chunk);
        FoldOneMore(Handler(codec), old(Abs()), handled, chunk);
        handled := handled + [chunk];
      }
      assert Frames(buffer) == [] && handled + [] == handled;
    }

    method Reconnect()
      modifies this
      ensures Abs() == ScheduleReconnect(old(Abs())) && buffer == old(buffer)
    {
      if closed {
        return;
      }
      if retries >= MAX_SSE_RETRIES {
        closed := true;
        errors := errors + 1;
        return;
      }
      retries := retries + 1;
      reconnectTimer := true;
    }

    method Refuse(status: Option<int>)
      modifies this
      ensures Abs() == Refused(old(Abs()), status)
    {
      if status.Some? && status.value >= 400 && status.value < 500 {
        closed := true;
        fatalError := true;
      }
      if closed && !fatalError {
        return;
      }
      errors := errors + 1;
      if !closed {
        Reconnect();
      }
    }
  }

  // What handling a stretch of the log does

  function Ids(log: seq<Event>): set<string> {
    set e | e in log :: e.id
  }

  /** The client has delivered exactly the first d events of the log. */
  ghost predicate HasDelivered(c: Client, log: seq<Event>, d: nat) {
    && d <= |log| && c.delivered == log[..d] && c.seen == Ids(log[..d])
    && c.lastEventId == (if d == 0 then None else Some(log[d - 1].id))
  }

  /** A terminal event closes the client. */
  ghost predicate ClosedByTerminal(c: Client) {
    (exists e | e in c.delivered :: Terminal(e.kind)) ==> c.closed
  }

  lemma ConsumeAgain(c: Client, log: seq<Event>, d: nat, i: nat)
    requires HasDelivered(c, log, d) && i < d
    ensures Consume(c, log[i]) == c
  {
    assert log[..d][i] == log[i] && log[i] in log[..d];
  }

  lemma NotYetSeen(c: Client, log: seq<Event>, d: nat)
    requires DistinctIds(log) && HasDelivered(c, log, d) && d < |log|
    ensures log[d].id !in c.seen
  {
    forall e | e in log[..d] ensures e.id != log[d].id {
      var k :| 0 <= k < d && log[..d][k] == e;
      assert log[k].id != log[d].id;
    }
  }

  lemma ConsumeNew(c: Client, log: seq<Event>, d: nat)
    requires HasDelivered(c, log, d) && d < |log| && log[d].id !in c.seen
    ensures HasDelivered(Consume(c, log[d]), log, d + 1)
  {
    PrefixStep(log, d);
    assert Ids(log[..d + 1]) == Ids(log[..d]) + {log[d].id};
  }

  lemma ConsumeNext(c: Client, log: seq<Event>, d: nat, i: nat)
    requires DistinctIds(log) && HasDelivered(c, log, d) && i <= d && i < |log|
    ensures HasDelivered(Consume(c, log[i]), log, if i < d then d else d + 1)
  {
    if i < d {
      ConsumeAgain(c, log, d, i);
    } else {
      NotYetSeen(c, log, d);
      ConsumeNew(c, log, d);
    }
  }

  lemma {:induction false} ConsumeCloses(c: Client, e: Event)
    requires ClosedByTerminal(c)
    ensures ClosedByTerminal(Consume(c, e))
    ensures c.closed ==> Consume(c, e).closed
  {}

  /** The client is in step with the log: the first d events, and closed if one was terminal. */
  ghost predicate InStep(c: Client, log: seq<Event>, d: nat) {
    HasDelivered(c, log, d) && ClosedByTerminal(c)
  }

  lemma {:induction false} HandleNext(codec: Codec, c: Client, log: seq<Event>, d: nat, i: nat)
    requires Faithful(codec) && DistinctIds(log) && InStep(c, log, d) && i <= d && i < |log|
    ensures InStep(Handle(codec, c, FrameOf(codec, log[i])), log, if i < d then d else d + 1)
    ensures Handle(codec, c, FrameOf(codec, log[i])).fatal == c.fatal
  {
    FrameParses(codec, log[i]);
    ConsumeNext(c, log, d, i);
    ConsumeCloses(c, log[i]);
  }

  lemma HandlerNext(codec: Codec, c: Client, log: seq<Event>, d: nat, i: nat, frame: string)
    requires Faithful(codec) && DistinctIds(log) && InStep(c, log, d) && i <= d && i < |log|
    requires frame == FrameOf(codec, log[i])
    ensures InStep(Handler(codec)(c, frame), log, if i < d then d else d + 1)
  {
    HandleNext(codec, c, log, d, i);
  }

  /** Frame i takes a client that is far enough along past event p + i. */
  ghost predicate StepsAlong(f: (Client, string) -> Client, log: seq<Event>, p: nat, frames: seq<string>) {
    forall i, x, e: nat | 0 <= i < |frames| && InStep(x, log, e) && p + i <= e ::
      InStep(f(x, frames[i]), log, if p + i < e then e else e + 1)
  }

  /** For any way of handling that moves on by one event at a time. */
  lemma {:induction false} MovesAlong(f: (Client, string) -> Client, c: Client, log: seq<Event>, d: nat,
                                      p: nat, frames: seq<string>)
    requires InStep(c, log, d) && p <= d && p + |frames| <= |log|
    requires StepsAlong(f, log, p, frames)
    ensures InStep(Fold(f, c, frames), log, Max(d, p + |frames|))
  {
    if frames != [] {
      var n := |frames| - 1;
      forall i, x, e: nat | 0 <= i < n && InStep(x, log, e) && p + i <= e
        ensures InStep(f(x, frames[..n][i]), log, if p + i < e then e else e + 1)
      {
        assert frames[..n][i] == frames[i];
        assert InStep(f(x, frames[i]), log, if p + i < e then e else e + 1);
      }
      MovesAlong(f, c, log, d, p, frames[..n]);
      assert InStep(f(Fold(f, c, frames[..n]), frames[n]), log, Max(d, p + |frames|));
    }
  }

  /** Handling the frames of events p..q of the log, on a client that has delivered at least
      the first p: events it has are skipped, the others delivered in order. */
  lemma HandleStretch(codec: Codec, c: Client, log: seq<Event>, d: nat, p: nat, q: nat)
    requires Faithful(codec) && DistinctIds(log) && InStep(c, log, d)
    requires p <= q <= |log| && p <= d
    ensures InStep(HandleAll(codec, c, FramesOf(codec, log[p..q])), log, Max(d, q))
  {
    HandlerStepsAlong(codec, log, p, q);
    MovesAlong(Handler(codec), c, log, d, p, FramesOf(codec, log[p..q]));
  }

  lemma HandlerStepsAlong(codec: Codec, log: seq<Event>, p: nat, q: nat)
    requires Faithful(codec) && DistinctIds(log) && p <= q <= |log|
    ensures StepsAlong(Handler(codec), log, p, FramesOf(codec, log[p..q]))
  {
    var frames := FramesOf(codec, log[p..q]);
    forall i, x, e: nat | 0 <= i < |frames| && InStep(x, log, e) && p + i <= e
      ensures InStep(Handler(codec)(x, frames[i]), log, if p + i < e then e else e + 1)
    {
      HandlerNext(codec, x, log, e, p + i, frames[i]);
    }
  }

  /** The frames that are not blank, trimmed. */
  function Leftovers(space: char -> bool, frames: seq<string>): seq<string> {
    if frames == [] then []
    else
      var text := Strip(space, frames[|frames| - 1]);
      Leftovers(space, frames[..|frames| - 1]) + if text == "" then [] else [text]
  }

  /** Frames that are no events are reported, trimmed and in order, and change nothing else. */
  lemma {:induction false} UnknownIsReported(codec: Codec, c: Client, frames: seq<string>)
    requires forall i | 0 <= i < |frames| :: ParseFrame(codec, frames[i]).None?
    ensures HandleAll(codec, c, frames) == c.(unknown := c.unknown + Leftovers(codec.space, frames))
  {
    if frames != [] {
      var n := |frames| - 1;
      assert forall i | 0 <= i < n :: frames[..n][i] == frames[i];
      UnknownIsReported(codec, c, frames[..n]);
      OneUnknown(codec, HandleAll(codec, c, frames[..n]), c, Leftovers(codec.space, frames[..n]), frames[n]);
    }
  }

  lemma OneUnknown(codec: Codec, c: Client, was: Client, before: seq<string>, frame: string)
    requires ParseFrame(codec, frame).None? && c == was.(unknown := was.unknown + before)
    ensures var text := Strip(codec.space, frame);
            Handle(codec, c, frame) == was.(unknown := was.unknown + (before + if text == "" then [] else [text]))
  {
    assert before + [] == before;
    AddAssociates(was.unknown, before, [Strip(codec.space, frame)]);
  }

  // What is delivered already

  /** A connection that replays events the client has changes nothing. */
  lemma {:induction false} ReplayIsSkipped(codec: Codec, c: Client, log: seq<Event>, d: nat, p: nat)
    requires Faithful(codec) && DistinctIds(log) && HasDelivered(c, log, d) && p <= d
    ensures HandleAll(codec, c, FramesOf(codec, log[..p])) == c
  {
    if p > 0 {
      var before, frame := FramesOf(codec, log[..p - 1]), FrameOf(codec, log[p - 1]);
      ReplayIsSkipped(codec, c, log, d, p - 1);
      PrefixStep(log, p - 1);
      MapAdd(Framer(codec), log[..p - 1], log[p - 1]);
      FoldOneMore(Handler(codec), c, before, frame);
      FrameParses(codec, log[p - 1]);
      ConsumeAgain(c, log, d, p - 1);
    }
  }

  // Giving up

  /** Every failure but a 4xx answer: fetch threw, another unusable status, or a failed read. */
  predicate Transient(status: Option<int>) {
    !(status.Some? && 400 <= status.value < 500)
  }

  /** One failed attempt after the other, each started by the timer. */
  function Attempts(c: Client, statuses: seq<Option<int>>): Client {
    if statuses == [] then c
    else Refused(Attempts(c, statuses[..|statuses| - 1]).(waiting := false), statuses[|statuses| - 1])
  }

  /** A 4xx answer closes the client at once, and nothing else is fatal. */
  lemma FatalExactlyOn4xx(c: Client, status: Option<int>)
    requires !c.closed && !c.fatal
    ensures Refused(c, status).fatal <==> !Transient(status)
    ensures Refused(c, status).fatal ==> Refused(c, status).closed && Refused(c, status).waiting == c.waiting
    ensures Refused(c, status).errors > c.errors
  {}

  /** Six transient failures in a row close the client, the first attempt and five retries;
      fewer leave it with a timer set. */
  lemma {:induction false} RefusalsEnd(c: Client, statuses: seq<Option<int>>)
    requires !c.closed && !c.fatal && c.retries == 0
    requires forall i | 0 <= i < |statuses| :: Transient(statuses[i])
    ensures var after := Attempts(c, statuses);
            && (after.closed <==> |statuses| > MAX_SSE_RETRIES)
            && (!after.closed ==> after.retries == |statuses| && (statuses != [] ==> after.waiting))
            && after.retries <= MAX_SSE_RETRIES && !after.fatal && after.delivered == c.delivered
  {
    if statuses != [] {
      var init := statuses[..|statuses| - 1];
      assert forall i | 0 <= i < |init| :: init[i] == statuses[i];
      RefusalsEnd(c, init);
    }
  }
}
