/** End to end: one task, one client, and the connections between them. The server, the network
    and the user act in any order; other subscribers are left out because they do not change
    what this one sees (TaskBus.SubscribersAreIndependent). */
module Delivery {
  import opened Options
  import opened Seqs
  import opened Events
  import opened SseWire
  import opened SseClients
  import opened TaskBus

  /** `received` is what the client has read of this connection, `wire` what is on its way. */
  datatype Link = Link(received: string, buffer: string, wire: string, finished: bool)

  /** The job's subscriptions are those of this client: one, while a connection is open. */
  datatype World = World(job: Job, client: Client, link: Option<Link>)

  datatype Move =
    | Server(what: JobAction, permit: bool)
    | Connects
    | FailsToConnect(status: Option<int>)
    | Sends
    | Reads(n: nat)
    | Loses(noticed: bool)
    | EndsOrderly
    | UserCloses

  function Unsubscribed(j: Job): Job {
    if |j.task.subs| == 1 then j.(task := TaskBus.Unsubscribe(j.task, 0)) else j
  }

  function HangUp(w: World, c: Client): World { World(Unsubscribed(w.job), c, None) }

  predicate MayConnect(w: World) { w.link.None? && w.client.waiting && !w.client.closed }

  function Send(codec: Codec, w: World, link: Link): World {
    var t := w.job.task;
    if link.finished || |t.subs| != 1 || t.subs[0].got > |t.subs[0].put| then w
    else match PullResult(t.subs[0])
         case Yield(e) =>
           World(w.job.(task := Pull(t, 0)), w.client, Some(link.(wire := link.wire + (FrameOf(codec, e) + "\n\n"))))
         case Finished => World(w.job.(task := Pull(t, 0)), w.client, Some(link.(finished := true)))
         case Blocked => w
  }

  function Read(codec: Codec, w: World, link: Link, n: nat): World
    requires n <= |link.wire|
  {
    var text := link.buffer + link.wire[..n];
    var c := HandleAll(codec, w.client, Frames(text));
    if c.closed then HangUp(w, c)
    else World(w.job, c, Some(Link(link.received + link.wire[..n], Rest(text), link.wire[n..], link.finished)))
  }

  /** One move; a move that is not possible changes nothing. */
  function Next(codec: Codec, w: World, m: Move): World {
    match m
    case Server(what, permit) => if ServerAction(what) then w.(job := JobStep(w.job, what, permit)) else w
    case Connects =>
      if MayConnect(w)
      then World(w.job.(task := Subscribe(w.job.task)), Accepted(w.client.(waiting := false)),
                 Some(Link("", "", "", false)))
      else w
    case FailsToConnect(status) =>
      if MayConnect(w) then w.(client := Refused(w.client.(waiting := false), status)) else w
    case Sends => if w.link.Some? then Send(codec, w, w.link.value) else w
    case Reads(n) => if w.link.Some? && 0 < n <= |w.link.value.wire| then Read(codec, w, w.link.value, n) else w
    case Loses(noticed) =>
      if w.link.Some? then HangUp(w, if noticed then Broken(w.client) else ScheduleReconnect(w.client)) else w
    case EndsOrderly =>
      if w.link.Some? && w.link.value.finished && w.link.value.wire == ""
      then HangUp(w, ScheduleReconnect(w.client)) else w
    case UserCloses => HangUp(w, SseClients.Close(w.client))
  }

  function Moves(codec: Codec, w: World, ms: seq<Move>): World {
    if ms == [] then w else Next(codec, Moves(codec, w, ms[..|ms| - 1]), ms[|ms| - 1])
  }

  /** A submitted task, and a client about to connect for the first time. */
  ghost predicate Start(w: World) {
    && (exists taskId, traceId, kind :: w.job == Job(NewTask(taskId, traceId, kind), Waiting, false))
    && w.client == FRESH_CLIENT.(waiting := true) && w.link.None?
  }

  /** What the server has put on this connection. */
  ghost function Sent(w: World): seq<Event>
    requires w.link.Some? && (w.link.value.finished || (|w.job.task.subs| == 1 && Shaped(w.job.task.subs[0])))
  {
    if w.link.value.finished then w.job.task.log else Yielded(w.job.task.subs[0])
  }

  /** What a connection and the client's progress have to do with each other. */
  ghost predicate LinkInvariant(codec: Codec, w: World)
    requires w.link.Some?
  {
    var link, t := w.link.value, w.job.task;
    && !w.client.closed && !w.client.waiting
    && |t.subs| == (if link.finished then 0 else 1)
    && (if link.finished then IsTerminal(t.status) else Shaped(t.subs[0]))
    && link.buffer == Rest(link.received)
    && |Frames(link.received)| <= |w.client.delivered|
    && link.received + link.wire == Written(codec, Sent(w))
  }

  ghost predicate SentInOrder(w: World)
    requires w.link.Some? && (w.link.value.finished || (|w.job.task.subs| == 1 && Shaped(w.job.task.subs[0])))
  {
    Sent(w) <= w.job.task.log
  }

  ghost predicate Linked(codec: Codec, w: World) {
    if w.link.Some? then LinkInvariant(codec, w) else w.job.task.subs == []
  }

  ghost predicate Delivered(w: World) {
    InStep(w.client, w.job.task.log, |w.client.delivered|)
  }

  // The task keeps its own invariant

  /** What a move amounts to for the job. */
  function Doing(m: Move): JobAction {
    match m
    case Server(what, _) => what
    case Connects => DoSubscribe
    case Sends => DoPull(0)
    case _ => DoDisconnect(0)
  }

  lemma NextJob(codec: Codec, w: World, m: Move)
    ensures Next(codec, w, m).job == w.job
            || Next(codec, w, m).job == JobStep(w.job, Doing(m), if m.Server? then m.permit else true)
  {}

  lemma JobMoves(codec: Codec, w: World, m: Move)
    requires JobInvariant(w.job)
    ensures JobInvariant(Next(codec, w, m).job)
  {
    NextJob(codec, w, m);
    JobInvariantStep(w.job, Doing(m), if m.Server? then m.permit else true);
  }

  /** Only the server's own steps change more of the task than its subscriptions. */
  lemma OnlyTheServerWrites(codec: Codec, w: World, m: Move)
    requires !m.Server?
    ensures Next(codec, w, m).job.task.log == w.job.task.log
    ensures Next(codec, w, m).job.task.status == w.job.task.status
  {}

  // The client stays in step

  lemma {:induction false} LogGrows(c: Client, log: seq<Event>, log': seq<Event>, d: nat)
    requires InStep(c, log, d) && log <= log'
    ensures InStep(c, log', d)
  {
    assert log'[..d] == log[..d];
  }

  lemma ReconnectKeeps(c: Client, log: seq<Event>, d: nat, status: Option<int>)
    requires InStep(c, log, d)
    ensures InStep(ScheduleReconnect(c), log, d) && InStep(Refused(c, status), log, d)
    ensures InStep(SseClients.Close(c), log, d)
  {}

  // Moves of the server

  /** More may be queued; what was handed over is the same. */
  ghost predicate Behind(s: Sub, s': Sub) {
    s'.ordered == s.ordered && s'.next == s.next && s'.got == s.got && s.put <= s'.put
  }

  lemma FanBehind(t: Task, items: seq<Item>)
    requires |t.subs| == 1
    ensures |Fan(t, items).subs| == 1 && Behind(t.subs[0], Fan(t, items).subs[0])
  {}

  lemma FailureBehind(t: Task, e: Event, f: Event)
    requires |t.subs| == 1
    ensures var t' := TaskBus.Close(Emit(Emit(t, e), f)); |t'.subs| == 1 && Behind(t.subs[0], t'.subs[0])
  {
    FanBehind(t.(log := t.log + [e]), [Put(e)]);
    FanBehind(Emit(t, e).(log := t.log + [e] + [f]), [Put(f)]);
    FanBehind(Emit(Emit(t, e), f), [Sentinel]);
  }

  lemma EndBehind(t: Task, e: Event)
    requires |t.subs| == 1
    ensures var t' := TaskBus.Close(Emit(t, e)); |t'.subs| == 1 && Behind(t.subs[0], t'.subs[0])
  {
    FanBehind(t.(log := t.log + [e]), [Put(e)]);
    FanBehind(Emit(t, e), [Sentinel]);
  }

  lemma FinishBehind(t: Task, outcome: Outcome, id1: string, id2: string)
    requires |t.subs| == 1
    ensures var t' := Finish(t, outcome, id1, id2); |t'.subs| == 1 && Behind(t.subs[0], t'.subs[0])
  {
    match outcome
    case Returned =>
      EndBehind(t.(status := Completed, progress := 1.0, finished := true),
                Event(id1, t.traceId, TaskCompleted, OfTask(t.taskId, t.kind)));
    case Raised(code, retryable) =>
      FailureBehind(t.(status := Failed, errorCode := Some(code), finished := true),
                    Event(id1, t.traceId, FailureKind(code), Failure(t.taskId, code)),
                    Event(id2, t.traceId, ErrorEvent, Problem(code, retryable)));
    case Broke =>
      FailureBehind(t.(status := Failed, errorCode := Some(InternalError)),
                    Event(id1, t.traceId, TaskFailed, Failure(t.taskId, InternalError)),
                    Event(id2, t.traceId, ErrorEvent, Problem(InternalError, false)));
    case Cancelled =>
      EndBehind(t.(status := Aborted, finished := true), Event(id1, t.traceId, TaskAborted, OfTask(t.taskId, "")));
  }

  /** A server step only appends to what is queued. */
  lemma HeardNoMore(j: Job, a: JobAction)
    requires ServerAction(a) && Ready(j, a) && |j.task.subs| == 1
    ensures |Perform(j, a).task.subs| == 1 && Behind(j.task.subs[0], Perform(j, a).task.subs[0])
  {
    if a.DoFinish? { FinishBehind(j.task, a.outcome, a.id1, a.id2); }
  }

  lemma MoreQueued(s: Sub, s': Sub)
    requires Shaped(s) && Behind(s, s')
    ensures Shaped(s') && Yielded(s') == Yielded(s)
  {}

  lemma NoSubsNoChange(j: Job, a: JobAction)
    requires ServerAction(a) && Ready(j, a) && j.task.subs == []
    ensures Perform(j, a).task.subs == []
  {}

  lemma ServerLinked(codec: Codec, w: World, what: JobAction)
    requires ServerAction(what) && Ready(w.job, what) && Linked(codec, w)
    requires Evolves(w.job, Perform(w.job, what))
    ensures Linked(codec, w.(job := Perform(w.job, what)))
  {
    if w.job.task.subs == [] {
      NoSubsNoChange(w.job, what);
    } else {
      HeardNoMore(w.job, what);
      MoreQueued(w.job.task.subs[0], Perform(w.job, what).task.subs[0]);
    }
  }

  // Moves of the connection

  lemma ConnectLinked(codec: Codec, w: World)
    requires Linked(codec, w) && MayConnect(w)
    ensures Linked(codec, Next(codec, w, Connects))
  {
    assert Yielded(Next(codec, w, Connects).job.task.subs[0]) == [];
  }

  lemma HangUpLinked(codec: Codec, w: World, c: Client)
    requires Linked(codec, w)
    ensures Linked(codec, HangUp(w, c))
  {}

  lemma WrittenOneMore(codec: Codec, events: seq<Event>, e: Event, received: string, wire: string)
    requires received + wire == Written(codec, events)
    ensures received + (wire + (FrameOf(codec, e) + "\n\n")) == Written(codec, events + [e])
  {
    assert (events + [e])[..|events|] == events;
    AddAssociates(received, wire, FrameOf(codec, e) + "\n\n");
  }

  /** One turn of the server on a connection: the next event goes on the wire; with none left
      the stream ends if the task has, and waits otherwise. */
  ghost predicate Sending(codec: Codec, w: World, w': World)
    requires w.link.Some? && LinkInvariant(codec, w)
  {
    && Linked(codec, w') && w'.link.Some? && w'.client == w.client
    && w'.link.value.received == w.link.value.received
    && (IsTerminal(w.job.task.status) && !w.link.value.finished ==> w' != w)
    && if |Sent(w)| < |w.job.task.log| then Sent(w') == w.job.task.log[..|Sent(w)| + 1] else Sent(w') == Sent(w)
  }

  lemma PullOnly(t: Task, s: Sub)
    requires t.subs == [s] && s.got <= |s.put|
    ensures Pull(t, 0).subs == (if PullResult(s).Finished? then [] else [PullNext(s)])
    ensures Pull(t, 0).log == t.log && Pull(t, 0).status == t.status
  {}

  lemma SendYields(codec: Codec, w: World, link: Link, s: Sub, e: Event)
    requires w.link == Some(link) && !link.finished && LinkInvariant(codec, w) && SentInOrder(w)
    requires w.job.task.subs == [s] && PullResult(s) == Yield(e)
    requires |Yielded(s)| < |w.job.task.log| && e == w.job.task.log[|Yielded(s)|]
    requires Shaped(PullNext(s)) && Yielded(PullNext(s)) == Yielded(s) + [e]
    ensures Sending(codec, w, Send(codec, w, link))
  {
    PullOnly(w.job.task, s);
    PrefixStep(w.job.task.log, |Yielded(s)|);
    WrittenOneMore(codec, Yielded(s), e, link.received, link.wire);
    var w' := Send(codec, w, link);
    assert w'.link.value.wire == link.wire + (FrameOf(codec, e) + "\n\n");
    assert |w'.link.value.wire| > |link.wire|;
  }

  lemma SendEnds(codec: Codec, w: World, link: Link, s: Sub)
    requires w.link == Some(link) && !link.finished && LinkInvariant(codec, w)
    requires w.job.task.subs == [s] && PullResult(s) == Finished
    requires IsTerminal(w.job.task.status) && Yielded(s) == w.job.task.log
    ensures Sending(codec, w, Send(codec, w, link))
  {
    PullOnly(w.job.task, s);
    var w' := Send(codec, w, link);
    assert w'.link == Some(link.(finished := true));
  }

  lemma SendLinked(codec: Codec, w: World, link: Link)
    requires w.link == Some(link) && LinkInvariant(codec, w) && SentInOrder(w)
    requires !link.finished ==> SubInvariant(w.job.task.subs[0], w.job.task.log, IsTerminal(w.job.task.status))
    ensures Sending(codec, w, Send(codec, w, link))
  {
    if !link.finished {
      var t := w.job.task;
      var s, ended := t.subs[0], IsTerminal(t.status);
      PullMeaning(s, t.log, ended);
      match PullResult(s)
      case Yield(e) =>
        PullYields(s, t.log, ended);
        SendYields(codec, w, link, s, e);
      case Finished => SendEnds(codec, w, link, s);
      case Blocked => assert Send(codec, w, link) == w;
    }
  }

  lemma NewFrames(codec: Codec, events: seq<Event>, log: seq<Event>, received: string, text: string, unread: string)
    requires Faithful(codec) && events <= log && received + (text + unread) == Written(codec, events)
    ensures var p, q := |Frames(received)|, |Frames(received + text)|;
            && p <= q <= |log|
            && Frames(Rest(received) + text) == FramesOf(codec, log[p..q])
            && Rest(Rest(received) + text) == Rest(received + text)
    ensures unread == "" ==> |Frames(received + text)| == |events|
  {
    FramesAdd(received, text);
    AddAssociates(received, text, unread);
    PartOfWritten(codec, events, received + text, unread);
    var p, q := |Frames(received)|, |Frames(received + text)|;
    assert FramesOf(codec, log[p..q]) == FramesOf(codec, events[..q])[p..];
  }

  /** Handling frames sets no timer. */
  lemma {:induction false} NeverWaits(codec: Codec, c: Client, frames: seq<string>)
    requires !c.waiting
    ensures !HandleAll(codec, c, frames).waiting
  {
    if frames != [] { NeverWaits(codec, c, frames[..|frames| - 1]); }
  }

  /** One read: the client moves on over the frames it completes. */
  lemma ReadDelivers(codec: Codec, w: World, n: nat)
    requires Faithful(codec) && w.link.Some? && LinkInvariant(codec, w) && SentInOrder(w) && n <= |w.link.value.wire|
    requires DistinctIds(w.job.task.log) && Delivered(w)
    ensures var link := w.link.value;
            var c := HandleAll(codec, w.client, Frames(link.buffer + link.wire[..n]));
            var q := |Frames(link.received + link.wire[..n])|;
            && |Frames(link.received)| <= q
            && InStep(c, w.job.task.log, Max(|w.client.delivered|, q))
            && (n == |link.wire| ==> q == |Sent(w)|)
  {
    var link, log := w.link.value, w.job.task.log;
    var text, unread := link.wire[..n], link.wire[n..];
    assert link.wire == text + unread;
    NewFrames(codec, Sent(w), log, link.received, text, unread);
    HandleStretch(codec, w.client, log, |w.client.delivered|, |Frames(link.received)|, |Frames(link.received + text)|);
  }

  lemma ReadLinked(codec: Codec, w: World, n: nat)
    requires Faithful(codec) && w.link.Some? && LinkInvariant(codec, w) && SentInOrder(w) && n <= |w.link.value.wire|
    requires DistinctIds(w.job.task.log) && Delivered(w)
    ensures Linked(codec, Read(codec, w, w.link.value, n)) && Delivered(Read(codec, w, w.link.value, n))
  {
    var link, log := w.link.value, w.job.task.log;
    ReadDelivers(codec, w, n);
    var c := HandleAll(codec, w.client, Frames(link.buffer + link.wire[..n]));
    assert |c.delivered| == Max(|w.client.delivered|, |Frames(link.received + link.wire[..n])|);
    if !c.closed {
      assert link.wire == link.wire[..n] + link.wire[n..];
      AddAssociates(link.received, link.wire[..n], link.wire[n..]);
      FramesAdd(link.received, link.wire[..n]);
      NeverWaits(codec, w.client, Frames(link.buffer + link.wire[..n]));
    }
  }

  // Whole runs

  ghost predicate Invariant(codec: Codec, w: World) {
    JobInvariant(w.job) && Linked(codec, w) && Delivered(w)
  }

  lemma LinkFacts(codec: Codec, w: World)
    requires Invariant(codec, w) && w.link.Some?
    ensures DistinctIds(w.job.task.log) && SentInOrder(w)
    ensures !w.link.value.finished ==> SubInvariant(w.job.task.subs[0], w.job.task.log, IsTerminal(w.job.task.status))
  {
    if !w.link.value.finished {
      YieldedIsPrefix(w.job.task.subs[0], w.job.task.log, IsTerminal(w.job.task.status));
    }
  }

  lemma ServerMove(codec: Codec, w: World, what: JobAction, permit: bool)
    requires Invariant(codec, w) && ServerAction(what)
    ensures Linked(codec, Next(codec, w, Server(what, permit))) && Delivered(Next(codec, w, Server(what, permit)))
  {
    if JobStep(w.job, what, permit) != w.job {
      JobEvolves(w.job, what);
      ServerLinked(codec, w, what);
      LogGrows(w.client, w.job.task.log, Perform(w.job, what).task.log, |w.client.delivered|);
    }
  }

  /** Giving up a connection, whatever the reason. */
  lemma DropMove(codec: Codec, w: World, c: Client)
    requires Linked(codec, w) && InStep(c, w.job.task.log, |w.client.delivered|)
    ensures Linked(codec, HangUp(w, c)) && Delivered(HangUp(w, c))
  {
    HangUpLinked(codec, w, c);
  }

  lemma ReadMove(codec: Codec, w: World, n: nat)
    requires Faithful(codec) && Invariant(codec, w)
    ensures Linked(codec, Next(codec, w, Reads(n))) && Delivered(Next(codec, w, Reads(n)))
  {
    if w.link.Some? && 0 < n <= |w.link.value.wire| {
      LinkFacts(codec, w);
      ReadLinked(codec, w, n);
    }
  }

  lemma SendMove(codec: Codec, w: World)
    requires Invariant(codec, w)
    ensures Linked(codec, Next(codec, w, Sends)) && Delivered(Next(codec, w, Sends))
  {
    OnlyTheServerWrites(codec, w, Sends);
    if w.link.Some? {
      LinkFacts(codec, w);
      SendLinked(codec, w, w.link.value);
    }
  }

  lemma OtherMove(codec: Codec, w: World, m: Move)
    requires Linked(codec, w) && Delivered(w) && !m.Server? && !m.Reads? && !m.Sends?
    ensures Linked(codec, Next(codec, w, m)) && Delivered(Next(codec, w, m))
  {
    var log, d := w.job.task.log, |w.client.delivered|;
    ReconnectKeeps(w.client, log, d, None);
    match m
    case Connects => if MayConnect(w) { ConnectLinked(codec, w); }
    case FailsToConnect(status) => ReconnectKeeps(w.client.(waiting := false), log, d, status);
    case Loses(noticed) =>
      DropMove(codec, w, if noticed then Broken(w.client) else ScheduleReconnect(w.client));
    case EndsOrderly => DropMove(codec, w, ScheduleReconnect(w.client));
    case UserCloses => DropMove(codec, w, SseClients.Close(w.client));
  }

  lemma NextInvariant(codec: Codec, w: World, m: Move)
    requires Faithful(codec) && Invariant(codec, w)
    ensures Invariant(codec, Next(codec, w, m))
  {
    JobMoves(codec, w, m);
    match m
    case Server(what, permit) => if ServerAction(what) { ServerMove(codec, w, what, permit); }
    case Reads(n) => ReadMove(codec, w, n);
    case Sends => SendMove(codec, w);
    case _ => OtherMove(codec, w, m);
  }

  lemma {:induction false} InvariantStays(codec: Codec, w: World, ms: seq<Move>)
    requires Faithful(codec) && Invariant(codec, w)
    ensures Invariant(codec, Moves(codec, w, ms))
  {
    if ms != [] {
      InvariantStays(codec, w, ms[..|ms| - 1]);
      NextInvariant(codec, Moves(codec, w, ms[..|ms| - 1]), ms[|ms| - 1]);
    }
  }

  lemma RunInvariant(codec: Codec, w: World, ms: seq<Move>)
    requires Faithful(codec) && Start(w)
    ensures Invariant(codec, Moves(codec, w, ms))
  {
    InvariantStays(codec, w, ms);
  }

  /** What a connection's server side wrote so far. */
  ghost predicate Replays(codec: Codec, w: World, link: Link) {
    exists k: nat | k <= |w.job.task.log| :: link.received + link.wire == Written(codec, w.job.task.log[..k])
  }

  lemma LinkReplays(codec: Codec, w: World)
    requires Faithful(codec) && Invariant(codec, w) && w.link.Some?
    ensures Replays(codec, w, w.link.value)
  {
    LinkFacts(codec, w);
    assert Sent(w) == w.job.task.log[..|Sent(w)|];
  }

  /** Whatever the client has, and whatever checkpoint it connects with: what is written on a
      connection are the first events of the log, from the very first. */
  lemma EveryConnectionReplays(codec: Codec, w: World, ms: seq<Move>)
    requires Faithful(codec) && Start(w)
    ensures var now := Moves(codec, w, ms); now.link.Some? ==> Replays(codec, now, now.link.value)
  {
    RunInvariant(codec, w, ms);
    var now := Moves(codec, w, ms);
    if now.link.Some? { LinkReplays(codec, now); }
  }

  /** Whatever the interleaving of emissions, reads, losses and reconnects, and however the
      text is cut into reads: what onEvent was called with is a prefix of the task's log, with
      no event twice; and a client that was given a terminal event is closed. */
  lemma DeliveredExactlyOnceInOrder(codec: Codec, w: World, ms: seq<Move>)
    requires Faithful(codec) && Start(w)
    ensures var after := Moves(codec, w, ms);
            && after.client.delivered <= after.job.task.log
            && DistinctIds(after.client.delivered)
            && after.client.seen == Ids(after.client.delivered)
            && ((exists e | e in after.client.delivered :: Terminal(e.kind)) ==> after.client.closed)
  {
    RunInvariant(codec, w, ms);
    var after := Moves(codec, w, ms);
    var d, log := |after.client.delivered|, after.job.task.log;
    assert after.client.delivered == log[..d];
  }

  /** An ended task has a terminal event. */
  lemma EndedHasTerminal(j: Job)
    requires Lifecycle(j) && IsTerminal(j.task.status)
    ensures exists e | e in j.task.log :: Terminal(e.kind)
  {
    var n := |j.task.log|;
    var e := j.task.log[if j.task.status == Failed then n - 2 else n - 1];
    assert e in j.task.log && Terminal(e.kind);
  }

  /** A client that read everything of a finished stream has the whole log, and is closed. */
  lemma WholeStreamCloses(codec: Codec, w: World)
    requires Faithful(codec) && Linked(codec, w) && Delivered(w) && Lifecycle(w.job)
    requires w.link.Some? && w.link.value.finished
    ensures w.link.value.wire != ""
  {
    var link, log := w.link.value, w.job.task.log;
    WholePrefix(log);
    EndedHasTerminal(w.job);
    if link.wire == "" {
      PartOfWritten(codec, log, link.received, "");
      assert false;
    }
  }

  /** The client never reads the server's orderly end of a stream: the last frames close it
      first, so a finished task causes no reconnect. */
  lemma OrderlyEndIsNeverRead(codec: Codec, w: World, ms: seq<Move>)
    requires Faithful(codec) && Start(w)
    ensures Next(codec, Moves(codec, w, ms), EndsOrderly) == Moves(codec, w, ms)
  {
    RunInvariant(codec, w, ms);
    NoOrderlyEnd(codec, Moves(codec, w, ms));
  }

  lemma NoOrderlyEnd(codec: Codec, w: World)
    requires Faithful(codec) && Linked(codec, w) && Delivered(w) && Lifecycle(w.job)
    ensures Next(codec, w, EndsOrderly) == w
  {
    if w.link.Some? && w.link.value.finished {
      WholeStreamCloses(codec, w);
    }
  }
}
