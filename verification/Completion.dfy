/** What a connection to an ended task delivers when it is left alone: from then on the server
    sends and the client reads, in any order and pieces. */
module Completion {
  import opened Options
  import opened Seqs
  import opened Events
  import opened SseWire
  import opened SseClients
  import opened TaskBus
  import opened Delivery

  predicate Calm(m: Move) { m.Sends? || m.Reads? }

  ghost predicate CalmMoves(ms: seq<Move>) { Each(ms, Calm) }

  /** How far a connection has come: events sent, characters read. It depends on the log and
      the moves alone, not on the client. */
  datatype Meter = Meter(sent: nat, read: nat)

  function Length(codec: Codec, log: seq<Event>, k: nat): nat
    requires k <= |log|
  {
    |Written(codec, log[..k])|
  }

  function Turn(codec: Codec, log: seq<Event>, p: Meter, m: Move): (r: Meter)
    requires p.sent <= |log|
    ensures r.sent <= |log|
  {
    match m
    case Sends => if p.sent < |log| then p.(sent := p.sent + 1) else p
    case Reads(n) => if 0 < n <= Length(codec, log, p.sent) - p.read then p.(read := p.read + n) else p
    case _ => p
  }

  function Turns(codec: Codec, log: seq<Event>, ms: seq<Move>): (r: Meter)
    ensures r.sent <= |log|
  {
    if ms == [] then Meter(0, 0) else Turn(codec, log, Turns(codec, log, ms[..|ms| - 1]), ms[|ms| - 1])
  }

  lemma {:induction false} LengthGrows(codec: Codec, log: seq<Event>, k: nat, l: nat)
    requires k <= l <= |log|
    ensures Length(codec, log, k) <= Length(codec, log, l)
    ensures k < l ==> Length(codec, log, k) < Length(codec, log, l)
  {
    if k < l {
      LengthGrows(codec, log, k, l - 1);
      PrefixStep(log, l - 1);
    }
  }

  lemma {:induction false} ReadIsSent(codec: Codec, log: seq<Event>, ms: seq<Move>)
    ensures Turns(codec, log, ms).read <= Length(codec, log, Turns(codec, log, ms).sent) <= Length(codec, log, |log|)
  {
    var p := Turns(codec, log, ms);
    if ms != [] {
      var before := Turns(codec, log, ms[..|ms| - 1]);
      ReadIsSent(codec, log, ms[..|ms| - 1]);
      LengthGrows(codec, log, before.sent, p.sent);
    }
    LengthGrows(codec, log, p.sent, |log|);
  }

  /** The first k frames of a written log are read once their characters are. */
  lemma {:induction false} FramesByLength(codec: Codec, log: seq<Event>, k: nat, read: string, unread: string)
    requires Faithful(codec) && k <= |log| && read + unread == Written(codec, log)
    ensures |Frames(read)| >= k <==> |read| >= Length(codec, log, k)
  {
    var first := Written(codec, log[..k]);
    WrittenPrefix(codec, log, k);
    if |read| >= |first| {
      assert read == first + read[|first|..];
      FramesAdd(first, read[|first|..]);
      WrittenFrames(codec, log[..k]);
    } else {
      assert first == read + first[|read|..];
      StrictPartOfWritten(codec, log[..k], read, first[|read|..]);
    }
  }

  lemma {:induction false} WrittenPrefix(codec: Codec, log: seq<Event>, k: nat)
    requires k <= |log|
    ensures Written(codec, log[..k]) <= Written(codec, log)
  {
    if k < |log| {
      var init := log[..|log| - 1];
      assert init[..k] == log[..k];
      WrittenPrefix(codec, init, k);
    } else {
      WholePrefix(log);
    }
  }

  lemma NoFrames(text: string)
    requires Frames(text) == []
    ensures Rest(text) == text
  {}

  lemma {:induction false} StrictPartOfWritten(codec: Codec, events: seq<Event>, read: string, unread: string)
    requires Faithful(codec) && read + unread == Written(codec, events) && unread != ""
    ensures |Frames(read)| < |events|
  {
    PartOfWritten(codec, events, read, unread);
    WrittenFrames(codec, events);
    FramesAdd(read, unread);
    if |Frames(read)| == |events| { NoFrames(Rest(read) + unread); }
  }

  // What closes the client

  /** The first terminal event stands at `end`. */
  ghost predicate FirstTerminal(log: seq<Event>, end: nat) {
    end < |log| && Terminal(log[end].kind) && forall i | 0 <= i < end :: !Terminal(log[i].kind)
  }

  ghost predicate ClosedOnlyByTerminal(c: Client) {
    c.closed ==> exists e | e in c.delivered :: Terminal(e.kind)
  }

  lemma {:induction false} HandleClosesOnly(codec: Codec, c: Client, frame: string)
    requires ClosedOnlyByTerminal(c)
    ensures ClosedOnlyByTerminal(Handle(codec, c, frame))
  {
    match ParseFrame(codec, frame)
    case Some(e) =>
      var c' := Consume(c, e);
      if c' != c { assert c'.delivered[|c.delivered|] == e; }
      assert forall x | x in c.delivered :: x in c'.delivered;
    case None =>
  }

  lemma {:induction false} HandleAllClosesOnly(codec: Codec, c: Client, frames: seq<string>)
    requires ClosedOnlyByTerminal(c)
    ensures ClosedOnlyByTerminal(HandleAll(codec, c, frames))
  {
    if frames != [] {
      HandleAllClosesOnly(codec, c, frames[..|frames| - 1]);
      HandleClosesOnly(codec, HandleAll(codec, c, frames[..|frames| - 1]), frames[|frames| - 1]);
    }
  }

  /** In step with the log, a client closed by nothing else is closed from the first terminal
      event on. */
  lemma ClosedAfterTerminal(c: Client, log: seq<Event>, d: nat, end: nat)
    requires InStep(c, log, d) && ClosedOnlyByTerminal(c) && FirstTerminal(log, end)
    ensures c.closed <==> d > end
  {
    if d > end { assert log[..d][end] == log[end] && log[end] in log[..d]; }
  }

  // The course of a connection to an ended task

  /** Where the connection stands: still open and before the first terminal event's end, or
      closed and past it. */
  ghost predicate OnCourse(codec: Codec, w: World, log: seq<Event>, end: nat, p: Meter)
    requires end < |log| && p.sent <= |log|
  {
    && Delivery.Invariant(codec, w) && w.job.task.log == log && IsTerminal(w.job.task.status)
    && (w.client.closed <==> w.link.None?) && ClosedOnlyByTerminal(w.client)
    && (w.client.closed <==> p.read >= Length(codec, log, end + 1))
    && (w.link.Some? ==> |w.link.value.received| == p.read && |Sent(w)| == p.sent)
  }

  lemma CalmSend(codec: Codec, w: World, log: seq<Event>, end: nat, p: Meter)
    requires Faithful(codec) && end < |log| && p.sent <= |log| && OnCourse(codec, w, log, end, p)
    ensures OnCourse(codec, Next(codec, w, Sends), log, end, Turn(codec, log, p, Sends))
  {
    NextInvariant(codec, w, Sends);
    OnlyTheServerWrites(codec, w, Sends);
    if w.link.Some? {
      LinkFacts(codec, w);
      SendLinked(codec, w, w.link.value);
    }
  }

  lemma ReadsOn(codec: Codec, w: World, link: Link, n: nat)
    requires w.link == Some(link) && n <= |link.wire|
    ensures Read(codec, w, link, n).client == HandleAll(codec, w.client, Frames(link.buffer + link.wire[..n]))
  {}

  lemma StaysInStep(codec: Codec, w: World, link: Link, end: nat, n: nat)
    requires Faithful(codec) && Delivery.Invariant(codec, w) && w.link == Some(link) && n <= |link.wire|
    requires FirstTerminal(w.job.task.log, end)
    ensures var c, d := Read(codec, w, link, n).client, |w.client.delivered|;
            && ClosedOnlyByTerminal(c) && d <= end
            && InStep(c, w.job.task.log, Max(d, |Frames(link.received + link.wire[..n])|))
  {
    LinkFacts(codec, w);
    ReadsOn(codec, w, link, n);
    ReadDelivers(codec, w, n);
    assert ClosedOnlyByTerminal(w.client);
    HandleAllClosesOnly(codec, w.client, Frames(link.buffer + link.wire[..n]));
    ClosedAfterTerminal(w.client, w.job.task.log, |w.client.delivered|, end);
  }

  /** The client c after r characters: closed if they hold the first terminal event, given the
      whole log if they hold all of it. */
  ghost predicate AfterRead(codec: Codec, c: Client, log: seq<Event>, end: nat, r: nat)
    requires end < |log|
  {
    && ClosedOnlyByTerminal(c)
    && (c.closed <==> r >= Length(codec, log, end + 1))
    && (c.delivered == log <==> r >= Length(codec, log, |log|))
  }

  lemma AfterFrames(codec: Codec, c: Client, log: seq<Event>, d: nat, q: nat, end: nat, r: nat)
    requires InStep(c, log, Max(d, q)) && ClosedOnlyByTerminal(c) && FirstTerminal(log, end) && d <= end
    requires q >= end + 1 <==> r >= Length(codec, log, end + 1)
    requires q >= |log| <==> r >= Length(codec, log, |log|)
    ensures AfterRead(codec, c, log, end, r)
  {
    ClosedAfterTerminal(c, log, Max(d, q), end);
    assert |c.delivered| == Max(d, q);
    WholePrefix(log);
  }

  lemma FrameCounts(codec: Codec, log: seq<Event>, end: nat, read: string, unread: string)
    requires Faithful(codec) && end < |log| && read + unread == Written(codec, log)
    ensures |Frames(read)| >= end + 1 <==> |read| >= Length(codec, log, end + 1)
    ensures |Frames(read)| >= |log| <==> |read| >= Length(codec, log, |log|)
  {
    FramesByLength(codec, log, end + 1, read, unread);
    FramesByLength(codec, log, |log|, read, unread);
  }

  lemma {:induction false} CalmRead(codec: Codec, w: World, link: Link, end: nat, n: nat)
    requires Faithful(codec) && Delivery.Invariant(codec, w) && w.link == Some(link) && n <= |link.wire|
    requires FirstTerminal(w.job.task.log, end)
    ensures AfterRead(codec, Read(codec, w, link, n).client, w.job.task.log, end, |link.received| + n)
  {
    var unread := LeftOf(codec, w, link, n);
    var read := link.received + link.wire[..n];
    FrameCounts(codec, w.job.task.log, end, read, unread);
    StaysInStep(codec, w, link, end, n);
    AfterFrames(codec, Read(codec, w, link, n).client, w.job.task.log, |w.client.delivered|,
                |Frames(read)|, end, |read|);
  }

  /** What of the whole log's text is still to come after a read. */
  lemma LeftOf(codec: Codec, w: World, link: Link, n: nat) returns (unread: string)
    requires Delivery.Invariant(codec, w) && w.link == Some(link) && n <= |link.wire|
    ensures link.received + link.wire[..n] + unread == Written(codec, w.job.task.log)
  {
    var log := w.job.task.log;
    LinkFacts(codec, w);
    WrittenPrefix(codec, log, |Sent(w)|);
    assert Sent(w) == log[..|Sent(w)|];
    unread := Written(codec, log)[|link.received| + n..];
    CutPrefix(link.received, link.wire, n, Written(codec, log));
  }

  lemma CutPrefix(a: string, b: string, n: nat, all: string)
    requires a + b <= all && n <= |b|
    ensures a + b[..n] + all[|a| + n..] == all
  {
    assert a + b[..n] == (a + b)[..|a| + n] == all[..|a| + n];
  }

  lemma ReadMovesOn(codec: Codec, w: World, link: Link, n: nat)
    requires w.link == Some(link) && n <= |link.wire|
    ensures var w' := Read(codec, w, link, n);
            if w'.client.closed then w'.link.None?
            else w'.link.Some? && w'.job == w.job && |w'.link.value.received| == |link.received| + n
                 && w'.link.value.finished == link.finished
  {}

  lemma OpenWire(codec: Codec, w: World, link: Link)
    requires Delivery.Invariant(codec, w) && w.link == Some(link)
    ensures |Sent(w)| <= |w.job.task.log|
    ensures |link.received| + |link.wire| == Length(codec, w.job.task.log, |Sent(w)|)
  {
    LinkFacts(codec, w);
    LengthsAdd(codec, w.job.task.log, Sent(w), link);
  }

  lemma LengthsAdd(codec: Codec, log: seq<Event>, sent: seq<Event>, link: Link)
    requires sent <= log && link.received + link.wire == Written(codec, sent)
    ensures |link.received| + |link.wire| == Length(codec, log, |sent|)
  {
    assert sent == log[..|sent|];
  }

  lemma CalmReadOn(codec: Codec, w: World, link: Link, end: nat, p: Meter, n: nat)
    requires Faithful(codec) && FirstTerminal(w.job.task.log, end) && p.sent <= |w.job.task.log|
    requires OnCourse(codec, w, w.job.task.log, end, p) && w.link == Some(link) && n <= |link.wire|
    requires Delivery.Invariant(codec, Read(codec, w, link, n))
    ensures Read(codec, w, link, n).job.task.log == w.job.task.log
    ensures OnCourse(codec, Read(codec, w, link, n), w.job.task.log, end, Meter(p.sent, p.read + n))
  {
    CalmRead(codec, w, link, end, n);
    ReadMovesOn(codec, w, link, n);
  }

  lemma CalmReads(codec: Codec, w: World, log: seq<Event>, end: nat, p: Meter, n: nat)
    requires Faithful(codec) && FirstTerminal(log, end) && p.sent <= |log| && OnCourse(codec, w, log, end, p)
    ensures OnCourse(codec, Next(codec, w, Reads(n)), log, end, Turn(codec, log, p, Reads(n)))
  {
    if w.link.Some? {
      var link := w.link.value;
      OpenWire(codec, w, link);
      if 0 < n <= |link.wire| {
        NextInvariant(codec, w, Reads(n));
        assert Next(codec, w, Reads(n)) == Read(codec, w, link, n);
        CalmReadOn(codec, w, link, end, p, n);
      }
    }
  }

  lemma Joined(codec: Codec, w: World)
    requires MayConnect(w) && w.job.task.subs == []
    ensures var w' := Next(codec, w, Connects);
            w'.link == Some(Link("", "", "", false)) && !w'.client.closed && Sent(w') == []
  {}

  lemma NothingAtFirst(codec: Codec, log: seq<Event>, end: nat)
    requires end < |log|
    ensures Length(codec, log, end + 1) > 0
  {
    LengthGrows(codec, log, 0, end + 1);
  }

  lemma CourseStarts(codec: Codec, w: World, log: seq<Event>, end: nat)
    requires Faithful(codec) && Delivery.Invariant(codec, w) && MayConnect(w) && IsTerminal(w.job.task.status)
    requires log == w.job.task.log && end < |log|
    ensures OnCourse(codec, Next(codec, w, Connects), log, end, Meter(0, 0)) && !Next(codec, w, Connects).client.closed
  {
    var w' := Next(codec, w, Connects);
    NextInvariant(codec, w, Connects);
    OnlyTheServerWrites(codec, w, Connects);
    Joined(codec, w);
    NothingAtFirst(codec, log, end);
    assert |w'.link.value.received| == 0 && |Sent(w')| == 0;
  }

  lemma {:induction false} Course(codec: Codec, w: World, log: seq<Event>, end: nat, ms: seq<Move>)
    requires Faithful(codec) && FirstTerminal(log, end) && OnCourse(codec, w, log, end, Meter(0, 0))
    requires CalmMoves(ms)
    ensures OnCourse(codec, Moves(codec, w, ms), log, end, Turns(codec, log, ms))
  {
    if ms != [] {
      var init, m := ms[..|ms| - 1], ms[|ms| - 1];
      Course(codec, w, log, end, init);
      match m
      case Sends => CalmSend(codec, Moves(codec, w, init), log, end, Turns(codec, log, init));
      case Reads(n) => CalmReads(codec, Moves(codec, w, init), log, end, Turns(codec, log, init), n);
    }
  }

  /** No read stops between the end of the first terminal event and the end of the log. */
  ghost predicate NoStopBetween(codec: Codec, log: seq<Event>, end: nat, ms: seq<Move>)
    requires end < |log|
  {
    forall i | 0 <= i <= |ms| ::
      Turns(codec, log, ms[..i]).read >= Length(codec, log, end + 1) ==>
        Turns(codec, log, ms[..i]).read == Length(codec, log, |log|)
  }

  lemma OneMoreTurn(codec: Codec, log: seq<Event>, init: seq<Move>, m: Move)
    ensures var p, p' := Turns(codec, log, init), Turns(codec, log, init + [m]);
            p' == Turn(codec, log, p, m) && p.read <= p'.read <= Length(codec, log, |log|)
  {
    assert (init + [m])[..|init|] == init;
    ReadIsSent(codec, log, init + [m]);
  }

  lemma NoStopOneMore(codec: Codec, log: seq<Event>, end: nat, init: seq<Move>, m: Move)
    requires end < |log|
    ensures var p, p' := Turns(codec, log, init), Turns(codec, log, init + [m]);
            && p' == Turn(codec, log, p, m) && p.read <= p'.read <= Length(codec, log, |log|)
            && (NoStopBetween(codec, log, end, init + [m]) <==>
                  NoStopBetween(codec, log, end, init)
                  && (p'.read >= Length(codec, log, end + 1) ==> p'.read == Length(codec, log, |log|)))
  {
    var ms := init + [m];
    OneMoreTurn(codec, log, init, m);
    assert ms[..|ms|] == ms;
    assert forall i | 0 <= i <= |init| :: ms[..i] == init[..i];
  }

  lemma {:induction false} NothingReadYet(codec: Codec, log: seq<Event>, end: nat, ms: seq<Move>)
    requires end < |log| && Turns(codec, log, ms).read < Length(codec, log, end + 1)
    ensures NoStopBetween(codec, log, end, ms)
  {
    if ms == [] {
      assert ms[..0] == [];
    } else {
      var init := ms[..|ms| - 1];
      assert ms == init + [ms[|ms| - 1]];
      NoStopOneMore(codec, log, end, init, ms[|ms| - 1]);
      NothingReadYet(codec, log, end, init);
    }
  }

  lemma OpenLacksSome(codec: Codec, w: World, end: nat)
    requires Delivery.Invariant(codec, w) && !w.client.closed && FirstTerminal(w.job.task.log, end)
    ensures w.client.delivered != w.job.task.log
  {
    assert w.job.task.log[end] in w.job.task.log;
  }

  /** One more move, as to whether the whole log has been delivered. */
  lemma {:induction false} WholeOneMore(codec: Codec, w: World, log: seq<Event>, end: nat, init: seq<Move>, m: Move)
    requires Faithful(codec) && FirstTerminal(log, end) && Calm(m)
    requires OnCourse(codec, w, log, end, Turns(codec, log, init))
    requires OnCourse(codec, Next(codec, w, m), log, end, Turns(codec, log, init + [m]))
    requires w.client.delivered == log <==> w.client.closed && NoStopBetween(codec, log, end, init)
    ensures var c := Next(codec, w, m).client;
            c.delivered == log <==> c.closed && NoStopBetween(codec, log, end, init + [m])
  {
    NoStopOneMore(codec, log, end, init, m);
    if w.client.closed {
      assert init[..|init|] == init;
    } else if Next(codec, w, m).client.closed {
      NothingReadYet(codec, log, end, init);
      CloseReads(codec, w, log, end, Turns(codec, log, init), m);
    } else {
      OpenLacksSome(codec, Next(codec, w, m), end);
    }
  }

  lemma CloseReads(codec: Codec, w: World, log: seq<Event>, end: nat, p: Meter, m: Move)
    requires Faithful(codec) && FirstTerminal(log, end) && Calm(m) && p.sent <= |log|
    requires OnCourse(codec, w, log, end, p) && OnCourse(codec, Next(codec, w, m), log, end, Turn(codec, log, p, m))
    requires !w.client.closed && Next(codec, w, m).client.closed
    ensures Next(codec, w, m).client.delivered == log <==> Turn(codec, log, p, m).read >= Length(codec, log, |log|)
  {
    if m.Reads? { CalmRead(codec, w, w.link.value, end, m.n); }
  }

  lemma WholeStart(codec: Codec, w: World, log: seq<Event>, end: nat)
    requires Delivery.Invariant(codec, w) && !w.client.closed && w.job.task.log == log && FirstTerminal(log, end)
    ensures var c := Moves(codec, w, []).client; c.delivered != log && !c.closed
  {
    OpenLacksSome(codec, w, end);
  }

  lemma {:induction false} WholeCourse(codec: Codec, w: World, log: seq<Event>, end: nat, ms: seq<Move>)
    requires Faithful(codec) && FirstTerminal(log, end) && OnCourse(codec, w, log, end, Meter(0, 0)) && !w.client.closed
    requires CalmMoves(ms)
    ensures var c := Moves(codec, w, ms).client;
            c.delivered == log <==> c.closed && NoStopBetween(codec, log, end, ms)
  {
    if ms == [] {
      WholeStart(codec, w, log, end);
    } else {
      var init, m := ms[..|ms| - 1], ms[|ms| - 1];
      assert ms == init + [m] && CalmMoves(init);
      WholeCourse(codec, w, log, end, init);
      WholeNext(codec, w, log, end, init, m);
    }
  }

  lemma WholeNext(codec: Codec, w: World, log: seq<Event>, end: nat, init: seq<Move>, m: Move)
    requires Faithful(codec) && FirstTerminal(log, end) && OnCourse(codec, w, log, end, Meter(0, 0))
    requires CalmMoves(init + [m]) && CalmMoves(init)
    requires var c := Moves(codec, w, init).client;
             c.delivered == log <==> c.closed && NoStopBetween(codec, log, end, init)
    ensures var c := Moves(codec, w, init + [m]).client;
            c.delivered == log <==> c.closed && NoStopBetween(codec, log, end, init + [m])
  {
    Course(codec, w, log, end, init);
    Course(codec, w, log, end, init + [m]);
    MovesOneMore(codec, w, init, m);
    assert Calm((init + [m])[|init|]);
    WholeOneMore(codec, Moves(codec, w, init), log, end, init, m);
  }

  /** Sending and reading have nothing left to do. */
  ghost predicate Exhausted(codec: Codec, w: World) {
    forall m: Move | Calm(m) :: Next(codec, w, m) == w
  }

  lemma UnreadGoesOn(codec: Codec, w: World, link: Link)
    requires w.link == Some(link) && link.wire != ""
    ensures Next(codec, w, Reads(1)) != w
  {
    ReadMovesOn(codec, w, link, 1);
  }

  lemma UnsentGoesOn(codec: Codec, w: World, link: Link)
    requires w.link == Some(link) && !link.finished && IsTerminal(w.job.task.status)
    requires LinkInvariant(codec, w) && Sending(codec, w, Send(codec, w, link))
    ensures Next(codec, w, Sends) != w
  {}

  /** An open connection to an ended task can always go on. */
  lemma {:induction false} OpenGoesOn(codec: Codec, w: World)
    requires Faithful(codec) && Delivery.Invariant(codec, w) && IsTerminal(w.job.task.status) && w.link.Some?
    ensures !Exhausted(codec, w)
  {
    var link := w.link.value;
    if link.wire != "" {
      UnreadGoesOn(codec, w, link);
      assert Calm(Reads(1));
    } else {
      if link.finished { WholeStreamCloses(codec, w); }
      LinkFacts(codec, w);
      SendLinked(codec, w, link);
      UnsentGoesOn(codec, w, link);
      assert Calm(Sends);
    }
  }

  /** What it comes to when, from the connection on, the server sends and the client reads, in
      any order and pieces. The client is closed exactly when it has read the first terminal
      event to its end; it then has everything up to that event; it has the whole log exactly
      when, besides, no read stopped between the two; and as long as it is open there is
      something left to send or read. */
  ghost predicate LeftAlone(codec: Codec, log: seq<Event>, end: nat, ms: seq<Move>, after: World)
    requires end < |log|
  {
    var c := after.client;
    && (c.closed <==> Turns(codec, log, ms).read >= Length(codec, log, end + 1))
    && (c.closed ==> log[..end + 1] <= c.delivered <= log)
    && (c.delivered == log <==> c.closed && NoStopBetween(codec, log, end, ms))
    && (Exhausted(codec, after) ==> c.closed)
  }

  /** A client in any reachable state connects to a task that has ended. */
  lemma UndisturbedConnection(codec: Codec, w: World, before: seq<Move>, ms: seq<Move>, end: nat)
    requires Faithful(codec) && Start(w) && CalmMoves(ms)
    requires var now := Moves(codec, w, before);
             MayConnect(now) && IsTerminal(now.job.task.status) && FirstTerminal(now.job.task.log, end)
    ensures var now := Moves(codec, w, before);
            LeftAlone(codec, now.job.task.log, end, ms, Moves(codec, Next(codec, now, Connects), ms))
  {
    Delivery.RunInvariant(codec, w, before);
    Undisturbed(codec, Moves(codec, w, before), ms, end);
  }

  lemma ClosedHasTerminal(c: Client, log: seq<Event>, end: nat)
    requires InStep(c, log, |c.delivered|) && ClosedOnlyByTerminal(c) && FirstTerminal(log, end)
    ensures c.closed ==> log[..end + 1] <= c.delivered <= log
  {
    ClosedAfterTerminal(c, log, |c.delivered|, end);
  }

  lemma Undisturbed(codec: Codec, now: World, ms: seq<Move>, end: nat)
    requires Faithful(codec) && Delivery.Invariant(codec, now) && CalmMoves(ms)
    requires MayConnect(now) && IsTerminal(now.job.task.status) && FirstTerminal(now.job.task.log, end)
    ensures LeftAlone(codec, now.job.task.log, end, ms, Moves(codec, Next(codec, now, Connects), ms))
  {
    var log, joined := now.job.task.log, Next(codec, now, Connects);
    CourseStarts(codec, now, log, end);
    Course(codec, joined, log, end, ms);
    WholeCourse(codec, joined, log, end, ms);
    var after := Moves(codec, joined, ms);
    if after.link.Some? { OpenGoesOn(codec, after); }
    ClosedHasTerminal(after.client, log, end);
  }

  // When that is the whole log

  predicate TameMove(m: Move) { m.Server? ==> Tame(On(0, m.what)) }

  lemma TameNext(codec: Codec, w: World, m: Move)
    requires TameMove(m) && Lifecycle(w.job) && TameLog(w.job.task)
    ensures TameLog(Next(codec, w, m).job.task)
  {
    NextJob(codec, w, m);
    if Ready(w.job, Doing(m)) { TameStep(w.job, Doing(m)); }
  }

  lemma {:induction false} TameMoves(codec: Codec, w: World, ms: seq<Move>)
    requires Faithful(codec) && Start(w) && forall i | 0 <= i < |ms| :: TameMove(ms[i])
    ensures TameLog(Moves(codec, w, ms).job.task)
  {
    if ms != [] {
      var init := ms[..|ms| - 1];
      assert forall i | 0 <= i < |init| :: TameMove(ms[i]) && init[i] == ms[i];
      TameMoves(codec, w, init);
      Delivery.RunInvariant(codec, w, init);
      TameNext(codec, Moves(codec, w, init), ms[|ms| - 1]);
    }
  }

  lemma TameEnd(t: Task)
    requires TameLog(t) && IsTerminal(t.status) && t.log != [] && EndAt(t) >= 0
    ensures FirstTerminal(t.log, EndAt(t))
  {
    assert Terminal(t.log[EndAt(t)].kind);
  }

  lemma EndIsThere(j: Job)
    requires Lifecycle(j) && IsTerminal(j.task.status)
    ensures j.task.log != [] && EndAt(j.task) >= 0
  {}

  /** What a connection left alone comes to for a task of which nobody but the manager
      announced the end: closed, the client has everything up to the terminal event. It has the
      rest exactly when the task has not failed, for then there is none, or when no read
      stopped between the terminal event and the error event behind it. */
  ghost predicate Completes(codec: Codec, t: Task, ms: seq<Move>, after: World) {
    && 0 <= EndAt(t) < |t.log|
    && (Exhausted(codec, after) ==> after.client.closed)
    && (after.client.closed ==>
          && t.log[..EndAt(t) + 1] <= after.client.delivered
          && (after.client.delivered == t.log <==> t.status != Failed || NoStopBetween(codec, t.log, EndAt(t), ms)))
  }

  lemma CompletesFrom(codec: Codec, now: World, ms: seq<Move>)
    requires Faithful(codec) && Delivery.Invariant(codec, now) && TameLog(now.job.task) && CalmMoves(ms)
    requires MayConnect(now) && IsTerminal(now.job.task.status)
    ensures Completes(codec, now.job.task, ms, Moves(codec, Next(codec, now, Connects), ms))
  {
    var t := now.job.task;
    EndIsThere(now.job);
    TameEnd(t);
    Undisturbed(codec, now, ms, EndAt(t));
    WholePrefix(t.log);
  }

  /** From any reachable state with an ended task, when runners leave the manager's closing
      events alone, and for any order and pieces of sending and reading. */
  lemma UndisturbedConnectionCompletes(codec: Codec, w: World, before: seq<Move>, ms: seq<Move>)
    requires Faithful(codec) && Start(w) && CalmMoves(ms)
    requires forall i | 0 <= i < |before| :: TameMove(before[i])
    requires var now := Moves(codec, w, before); MayConnect(now) && IsTerminal(now.job.task.status)
    ensures var now := Moves(codec, w, before);
            Completes(codec, now.job.task, ms, Moves(codec, Next(codec, now, Connects), ms))
  {
    Delivery.RunInvariant(codec, w, before);
    TameMoves(codec, w, before);
    CompletesFrom(codec, Moves(codec, w, before), ms);
  }

  /** Some event is the first terminal one of an ended task. */
  lemma {:induction false} EndedHasFirstTerminal(log: seq<Event>, n: nat)
    requires n <= |log| && exists i :: 0 <= i < n && Terminal(log[i].kind)
    ensures exists end: nat :: FirstTerminal(log, end)
  {
    if exists i :: 0 <= i < n - 1 && Terminal(log[i].kind) {
      EndedHasFirstTerminal(log, n - 1);
    } else {
      assert FirstTerminal(log, n - 1);
    }
  }

  // A schedule that delivers all, and one that does not

  function SendAll(n: nat): seq<Move> {
    if n == 0 then [] else SendAll(n - 1) + [Sends]
  }

  lemma {:induction false} AllSent(codec: Codec, log: seq<Event>, n: nat)
    requires n <= |log|
    ensures Turns(codec, log, SendAll(n)) == Meter(n, 0)
    ensures forall i | 0 <= i < |SendAll(n)| :: SendAll(n)[i] == Sends
  {
    if n > 0 {
      AllSent(codec, log, n - 1);
      assert SendAll(n)[..|SendAll(n)| - 1] == SendAll(n - 1);
    }
  }

  /** Sending everything and reading up to n characters of it at once. */
  lemma {:induction false} OneRead(codec: Codec, log: seq<Event>, end: nat, n: nat)
    requires end < |log| && 0 < n <= Length(codec, log, |log|)
    ensures var ms := SendAll(|log|) + [Reads(n)];
            && CalmMoves(ms) && Turns(codec, log, ms).read == n
            && (NoStopBetween(codec, log, end, ms) <==>
                  n < Length(codec, log, end + 1) || n == Length(codec, log, |log|))
  {
    AllSent(codec, log, |log|);
    LengthGrows(codec, log, 0, end + 1);
    NothingReadYet(codec, log, end, SendAll(|log|));
    NoStopOneMore(codec, log, end, SendAll(|log|), Reads(n));
  }

  lemma ClosedStays(codec: Codec, w: World, m: Move)
    requires Linked(codec, w) && w.client.closed
    ensures Next(codec, w, m).client.closed && Next(codec, w, m).client.delivered == w.client.delivered
  {
    assert w.link.None?;
  }

  /** Once closed, a client is given nothing any more. */
  lemma {:induction false} ClosedForGood(codec: Codec, w: World, ms: seq<Move>)
    requires Faithful(codec) && Delivery.Invariant(codec, w) && w.client.closed
    ensures Moves(codec, w, ms).client.closed && Moves(codec, w, ms).client.delivered == w.client.delivered
  {
    if ms != [] {
      ClosedForGood(codec, w, ms[..|ms| - 1]);
      InvariantStays(codec, w, ms[..|ms| - 1]);
      ClosedStays(codec, Moves(codec, w, ms[..|ms| - 1]), ms[|ms| - 1]);
    }
  }

  /** Connected, everything sent, and read up to the last event but one. */
  ghost function StoppedEarly(codec: Codec, now: World): World
    requires now.job.task.log != []
  {
    var log := now.job.task.log;
    Moves(codec, Next(codec, now, Connects), SendAll(|log|) + [Reads(Length(codec, log, |log| - 1))])
  }

  /** The log ends with an error event, and a client that stopped there is closed and has been
      given everything else, whatever follows. */
  ghost predicate ErrorLost(codec: Codec, now: World, more: seq<Move>) {
    var log := now.job.task.log;
    && 2 <= |log| && log[|log| - 1].kind == ErrorEvent
    && Moves(codec, StoppedEarly(codec, now), more).client.closed
    && Moves(codec, StoppedEarly(codec, now), more).client.delivered == log[..|log| - 1]
  }

  /** A failed task, sent completely, and a first read that ends just behind the terminal event: the
      client closes without the error event, and never gets it. */
  lemma {:induction false} ErrorEventLost(codec: Codec, w: World, before: seq<Move>, more: seq<Move>)
    requires Faithful(codec) && Start(w) && forall i | 0 <= i < |before| :: TameMove(before[i])
    requires var now := Moves(codec, w, before); MayConnect(now) && now.job.task.status == Failed
    ensures ErrorLost(codec, Moves(codec, w, before), more)
  {
    Delivery.RunInvariant(codec, w, before);
    TameMoves(codec, w, before);
    LostFrom(codec, Moves(codec, w, before), more);
  }

  lemma {:induction false} StoppedBetween(codec: Codec, now: World, end: nat)
    requires Faithful(codec) && Delivery.Invariant(codec, now) && MayConnect(now) && IsTerminal(now.job.task.status)
    requires FirstTerminal(now.job.task.log, end) && end + 2 == |now.job.task.log|
    ensures var log, after := now.job.task.log, StoppedEarly(codec, now);
            Delivery.Invariant(codec, after) && after.client.closed && after.client.delivered == log[..end + 1]
  {
    var log := now.job.task.log;
    var n := Length(codec, log, end + 1);
    var ms := SendAll(|log|) + [Reads(n)];
    LengthGrows(codec, log, 0, end + 1);
    LengthGrows(codec, log, end + 1, |log|);
    OneRead(codec, log, end, n);
    Undisturbed(codec, now, ms, end);
    NextInvariant(codec, now, Connects);
    InvariantStays(codec, Next(codec, now, Connects), ms);
    AllButLast(Moves(codec, Next(codec, now, Connects), ms).client.delivered, log);
  }

  lemma AllButLast<E>(part: seq<E>, all: seq<E>)
    requires all != [] && all[..|all| - 1] <= part <= all && part != all
    ensures part == all[..|all| - 1]
  {
    assert |part| < |all|;
  }

  lemma {:induction false} LostFrom(codec: Codec, now: World, more: seq<Move>)
    requires Faithful(codec) && Delivery.Invariant(codec, now) && TameLog(now.job.task)
    requires MayConnect(now) && now.job.task.status == Failed
    ensures ErrorLost(codec, now, more)
  {
    var log := now.job.task.log;
    EndIsThere(now.job);
    TameEnd(now.job.task);
    StoppedBetween(codec, now, |log| - 2);
    LostAfter(codec, now, StoppedEarly(codec, now), more);
  }

  lemma LostAfter(codec: Codec, now: World, early: World, more: seq<Move>)
    requires Faithful(codec) && now.job.task.log != [] && early == StoppedEarly(codec, now)
    requires Delivery.Invariant(codec, early) && early.client.closed
    requires var log := now.job.task.log;
             2 <= |log| && log[|log| - 1].kind == ErrorEvent && early.client.delivered == log[..|log| - 1]
    ensures ErrorLost(codec, now, more)
  {
    ClosedForGood(codec, early, more);
  }

  /** Such a task is easily met: its runner raises before the client first connects. */
  lemma {:induction false} FailedBeforeConnecting(codec: Codec, w: World)
    requires Start(w)
    ensures var now := Moves(codec, w, [Server(DoBegin("a"), true), Server(DoFinish(Broke, "b", "c"), true)]);
            MayConnect(now) && now.job.task.status == Failed
  {
    var begin, end := Server(DoBegin("a"), true), Server(DoFinish(Broke, "b", "c"), true);
    MovesOneMore(codec, w, [], begin);
    MovesOneMore(codec, w, [begin], end);
    assert [] + [begin] == [begin] && [begin] + [end] == [begin, end];
    var begun := Moves(codec, w, [begin]);
    assert |begun.job.task.log| == 1 && begun.job.task.log[0].id == "a";
  }

  lemma MovesOneMore(codec: Codec, w: World, ms: seq<Move>, m: Move)
    ensures Moves(codec, w, ms + [m]) == Next(codec, Moves(codec, w, ms), m)
    ensures Moves(codec, w, []) == w
  {
    assert (ms + [m])[..|ms|] == ms;
  }

  /** Whatever the runner did and however the client comes: sent completely and read in one
      piece, the log of an ended task is delivered whole. */
  lemma {:induction false} OneReadDeliversAll(codec: Codec, w: World, before: seq<Move>)
    requires Faithful(codec) && Start(w)
    requires var now := Moves(codec, w, before); MayConnect(now) && IsTerminal(now.job.task.status)
    ensures var now := Moves(codec, w, before);
            var log := now.job.task.log;
            var ms := SendAll(|log|) + [Reads(Length(codec, log, |log|))];
            Moves(codec, Next(codec, now, Connects), ms).client.delivered == log
  {
    Delivery.RunInvariant(codec, w, before);
    var now := Moves(codec, w, before);
    var log := now.job.task.log;
    EndedHasTerminal(now.job);
    EndedHasFirstTerminal(log, |log|);
    var end: nat :| FirstTerminal(log, end);
    LengthGrows(codec, log, 0, |log|);
    LengthGrows(codec, log, end + 1, |log|);
    OneRead(codec, log, end, Length(codec, log, |log|));
    Undisturbed(codec, now, SendAll(|log|) + [Reads(Length(codec, log, |log|))], end);
  }
}
