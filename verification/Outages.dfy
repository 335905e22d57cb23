/** When connections fail: what a client does about a lost connection, refused attempts and a
    user who closes it (apps/web/lib/research/sse-client.ts), over runs of Delivery. */
module Outages {
  import opened Options
  import opened Seqs
  import opened Events
  import opened SseWire
  import opened SseClients
  import opened Delivery
  import opened Completion

  // A connected client has all its retries

  ghost predicate Fresh(w: World) {
    (w.link.Some? ==> w.client.retries == 0) && (w.client.fatal ==> w.client.closed)
  }

  lemma {:induction false} HandlingKeepsRetries(codec: Codec, c: Client, frames: seq<string>)
    ensures var c' := HandleAll(codec, c, frames);
            && c'.fatal == c.fatal && (c.closed ==> c'.closed) && (c.retries == 0 ==> c'.retries == 0)
  {
    if frames != [] { HandlingKeepsRetries(codec, c, frames[..|frames| - 1]); }
  }

  lemma ReadKeepsFresh(codec: Codec, w: World, link: Link, n: nat)
    requires Fresh(w) && w.link == Some(link) && n <= |link.wire|
    ensures Fresh(Delivery.Read(codec, w, link, n))
  {
    HandlingKeepsRetries(codec, w.client, Frames(link.buffer + link.wire[..n]));
  }

  lemma NextIsFresh(codec: Codec, w: World, m: Move)
    requires Fresh(w)
    ensures Fresh(Next(codec, w, m))
  {
    match m
    case Reads(n) =>
      if w.link.Some? && 0 < n <= |w.link.value.wire| { ReadKeepsFresh(codec, w, w.link.value, n); }
    case _ =>
  }

  lemma {:induction false} RunsStayFresh(codec: Codec, w: World, ms: seq<Move>)
    requires Start(w)
    ensures Fresh(Moves(codec, w, ms))
  {
    if ms != [] {
      RunsStayFresh(codec, w, ms[..|ms| - 1]);
      NextIsFresh(codec, Moves(codec, w, ms[..|ms| - 1]), ms[|ms| - 1]);
    }
  }

  /** A readable response opens the connection with all retries left, and forgets nothing of
      what was delivered. */
  lemma ResponseResetsRetries(codec: Codec, w: World)
    requires MayConnect(w)
    ensures var w' := Next(codec, w, Connects);
            && w'.link == Some(Link("", "", "", false)) && !w'.client.waiting && !w'.client.closed
            && w'.client.retries == 0 && w'.client.delivered == w.client.delivered
            && w'.client.seen == w.client.seen && w'.client.lastEventId == w.client.lastEventId
  {}

  /** After a loss the first of the retries is due, and nothing is forgotten. */
  ghost predicate Reconnects(before: World, after: World, noticed: bool) {
    && MayConnect(after) && after.client.retries == 1 && after.client.delivered == before.client.delivered
    && after.client.errors == before.client.errors + if noticed then 1 else 0
  }

  lemma LossReconnects(codec: Codec, now: World, noticed: bool)
    requires now.link.Some? && Fresh(now) && !now.client.closed
    ensures Reconnects(now, Next(codec, now, Loses(noticed)), noticed)
  {}

  lemma OpenIsNotClosed(codec: Codec, now: World)
    requires Linked(codec, now) && now.link.Some?
    ensures !now.client.closed
  {}

  /** Whenever an open connection is lost, a reconnect is due. */
  lemma LostConnectionReconnects(codec: Codec, w: World, ms: seq<Move>, noticed: bool)
    requires Faithful(codec) && Start(w) && Moves(codec, w, ms).link.Some?
    ensures Reconnects(Moves(codec, w, ms), Next(codec, Moves(codec, w, ms), Loses(noticed)), noticed)
  {
    Delivery.RunInvariant(codec, w, ms);
    RunsStayFresh(codec, w, ms);
    OpenIsNotClosed(codec, Moves(codec, w, ms));
    LossReconnects(codec, Moves(codec, w, ms), noticed);
  }

  // Attempts that fail

  /** One failed attempt after the other. */
  function Refusals(statuses: seq<Option<int>>): seq<Move> {
    Map((status: Option<int>) => FailsToConnect(status), statuses)
  }

  lemma RefusedOnce(codec: Codec, w: World, status: Option<int>)
    requires MayConnect(w) && !w.client.fatal && Transient(status)
    ensures var w' := Next(codec, w, FailsToConnect(status));
            && (w'.client.closed <==> w.client.retries >= MAX_SSE_RETRIES)
            && (!w'.client.closed ==> MayConnect(w') && w'.client.retries == w.client.retries + 1)
            && !w'.client.fatal && w'.link.None? && w'.client.delivered == w.client.delivered
  {}

  lemma {:induction false} RefusedOnAndOn(codec: Codec, w: World, statuses: seq<Option<int>>)
    requires MayConnect(w) && !w.client.fatal && w.client.retries <= MAX_SSE_RETRIES
    requires forall i | 0 <= i < |statuses| :: Transient(statuses[i])
    ensures var after := Moves(codec, w, Refusals(statuses));
            && (after.client.closed <==> w.client.retries + |statuses| > MAX_SSE_RETRIES)
            && (!after.client.closed ==> MayConnect(after) && after.client.retries == w.client.retries + |statuses|)
            && !after.client.fatal && after.link.None? && after.client.delivered == w.client.delivered
  {
    if statuses != [] {
      var n := |statuses| - 1;
      assert forall i | 0 <= i < n :: statuses[..n][i] == statuses[i];
      RefusedOnAndOn(codec, w, statuses[..n]);
      assert Refusals(statuses)[..n] == Refusals(statuses[..n]);
      var before := Moves(codec, w, Refusals(statuses[..n]));
      if !before.client.closed { RefusedOnce(codec, before, statuses[n]); }
    }
  }

  /** A lost connection is given up after exactly five attempts in a row that fail for passing
      reasons; until then the next one is due, and nothing delivered is forgotten. */
  lemma OutageEnds(codec: Codec, w: World, ms: seq<Move>, noticed: bool, statuses: seq<Option<int>>)
    requires Faithful(codec) && Start(w) && Moves(codec, w, ms).link.Some?
    requires forall i | 0 <= i < |statuses| :: Transient(statuses[i])
    ensures var now := Moves(codec, w, ms);
            var after := Moves(codec, Next(codec, now, Loses(noticed)), Refusals(statuses));
            && (after.client.closed <==> |statuses| >= MAX_SSE_RETRIES)
            && (!after.client.closed ==> MayConnect(after)) && after.client.delivered == now.client.delivered
  {
    LostConnectionReconnects(codec, w, ms, noticed);
    RunsStayFresh(codec, w, ms);
    NextIsFresh(codec, Moves(codec, w, ms), Loses(noticed));
    RefusedOnAndOn(codec, Next(codec, Moves(codec, w, ms), Loses(noticed)), statuses);
  }

  /** A client closed by its user is given nothing any more, whatever the server goes on to do. */
  lemma UserClosesForGood(codec: Codec, w: World, ms: seq<Move>, more: seq<Move>)
    requires Faithful(codec) && Start(w)
    ensures var now := Moves(codec, w, ms);
            var after := Moves(codec, Next(codec, now, UserCloses), more);
            after.client.closed && after.client.delivered == now.client.delivered
  {
    Delivery.RunInvariant(codec, w, ms);
    UserClosed(codec, Moves(codec, w, ms), more);
  }

  lemma UserClosed(codec: Codec, now: World, more: seq<Move>)
    requires Faithful(codec) && Delivery.Invariant(codec, now)
    ensures var after := Moves(codec, Next(codec, now, UserCloses), more);
            after.client.closed && after.client.delivered == now.client.delivered
  {
    NextInvariant(codec, now, UserCloses);
    ClosingCloses(codec, now);
    ClosedForGood(codec, Next(codec, now, UserCloses), more);
  }

  lemma ClosingCloses(codec: Codec, w: World)
    ensures var w' := Next(codec, w, UserCloses); w'.client.closed && w'.client.delivered == w.client.delivered
  {}
}
