/** The client's research state machine: allowed transitions (state-machine.ts), the store
    (research-store.ts) and the mapping of events to it (sse-handler.ts), all under
    apps/web/lib/research. */
module ClientStore {
  import opened Options
  import opened Seqs
  import opened Events

  datatype Status =
    | Idle | Submitting | Queued | Running | Streaming | Verifying | Completed | Failed | Aborted

  function AllowedTransitions(from: Status): set<Status> {
    match from
    case Idle => {Submitting}
    case Submitting => {Queued, Running, Failed, Aborted}
    case Queued => {Running, Failed, Aborted}
    case Running => {Streaming, Failed, Aborted}
    case Streaming => {Verifying, Running, Failed, Aborted}
    case Verifying => {Completed, Failed, Aborted}
    case Completed => {}
    case Failed => {}
    case Aborted => {}
  }

  /** None is an InvalidTransitionError. */
  function Transition(from: Status, to: Status): Option<Status> {
    if from == to then Some(from)
    else if to in AllowedTransitions(from) then Some(to)
    else None
  }

  /** The part of the store that events change; of the answer, its text. */
  datatype Store = Store(status: Status, progress: real, answer: Option<string>, trace: seq<Event>, error: Option<Code>)

  const SUBMITTED := Store(Submitting, 0.0, None, [], None)

  function StageProgress(kind: EventType): Option<real> {
    match kind
    case WorkflowStarted => Some(0.05)
    case RetrievalStarted => Some(0.15)
    case RetrievalCompleted => Some(0.35)
    case FinancialDataStarted => Some(0.4)
    case FinancialDataCompleted => Some(0.55)
    case CalculationStarted => Some(0.6)
    case CalculationCompleted => Some(0.7)
    case AnswerDelta => Some(0.8)
    case AnswerCompleted => Some(0.9)
    case VerificationStarted => Some(0.92)
    case VerificationCompleted => Some(0.97)
    case TaskCompleted => Some(1.0)
    case _ => None
  }

  /** The status an event asks for. */
  function Asked(kind: EventType): Option<Status> {
    match kind
    case WorkflowStarted => Some(Running)
    case VerificationStarted => Some(Verifying)
    case AnswerDelta => Some(Streaming)
    case TaskCompleted => Some(Completed)
    case TaskFailed => Some(Failed)
    case TaskAborted => Some(Aborted)
    case _ => None
  }

  function NextStatus(from: Status, kind: EventType): Status {
    match Asked(kind)
    case Some(to) => (match Transition(from, to) case Some(s) => s case None => from)
    case None => from
  }

  function NextProgress(from: real, kind: EventType): real {
    match StageProgress(kind)
    case Some(p) => if p > from then p else from
    case None => from
  }

  /** The text an event carries, if it carries one. */
  function TextOf(data: Data): (r: string)
    ensures data.Payload? ==> r == data.text
    ensures !data.Payload? ==> r == ""
  {
    match data case Payload(text) => text case _ => ""
  }

  predicate InTrace(trace: seq<Event>, id: string) {
    exists i :: 0 <= i < |trace| && trace[i].id == id
  }

  /** The text there is, or that of the empty answer. */
  function TextSoFar(answer: Option<string>): string {
    if answer.Some? then answer.value else ""
  }

  function NextAnswer(answer: Option<string>, e: Event): Option<string> {
    match e.kind
    case AnswerDelta =>
      var delta := TextOf(e.data);
      if delta == "" then answer else Some(TextSoFar(answer) + delta)
    case AnswerCompleted => Some(TextOf(e.data))
    case CalculationCompleted => if e.data.Result? then Some(TextSoFar(answer)) else answer
    case _ => answer
  }

  function NextError(error: Option<Code>, e: Event): Option<Code> {
    if e.kind == ErrorEvent then Some(match e.data case Problem(code, _) => code case _ => OtherCode("FIN-0000"))
    else error
  }

  function Apply(s: Store, e: Event): Store {
    if e.kind.Unfrozen? then s
    else Store(
      NextStatus(s.status, e.kind),
      NextProgress(s.progress, e.kind),
      NextAnswer(s.answer, e),
      if InTrace(s.trace, e.id) then s.trace else s.trace + [e],
      NextError(s.error, e))
  }

  /** An event that is reported to onNoGuess: unknown type, or an invalid transition. */
  predicate Reported(s: Store, e: Event) {
    e.kind.Unfrozen? || (Asked(e.kind).Some? && Transition(s.status, Asked(e.kind).value).None?)
  }

  class ResearchStore {
    var status: Status
    var progress: real
    var answer: Option<string>
    var traceEvents: seq<Event>
    var error: Option<Code>
    var activeTaskId: Option<string>
    var activeTraceId: Option<string>
    var selectedEvidenceId: Option<string>
    var selectedCalculationId: Option<string>

    function Abs(): Store
      reads this
    {
      Store(status, progress, answer, traceEvents, error)
    }

    constructor ()
      ensures Abs() == SUBMITTED.(status := Idle)
      ensures activeTaskId == activeTraceId == selectedEvidenceId == selectedCalculationId == None
    {
      status, progress, answer, traceEvents, error := Idle, 0.0, None, [], None;
      activeTaskId, activeTraceId, selectedEvidenceId, selectedCalculationId := None, None, None, None;
    }

    method StartTask(taskId: string, traceId: string)
      modifies this
      ensures Abs() == SUBMITTED
      ensures activeTaskId == Some(taskId) && activeTraceId == Some(traceId)
      ensures selectedEvidenceId == None && selectedCalculationId == None
    {
      status, progress, answer, traceEvents, error := Submitting, 0.0, None, [], None;
      activeTaskId, activeTraceId := Some(taskId), Some(traceId);
      selectedEvidenceId, selectedCalculationId := None, None;
    }

    method SetStatus(next: Status) returns (threw: bool)
      modifies this`status
      ensures threw <==> Transition(old(status), next).None?
      ensures status == if threw then old(status) else next
    {
      var r := Transition(status, next);
      match r
      case None => return true;
      case Some(s) => status := s; return false;
    }

    method SetProgress(value: real)
      modifies this`progress
      ensures progress == if value < 0.0 then 0.0 else if value > 1.0 then 1.0 else value
    {
      var raised := if value > 0.0 then value else 0.0;
      progress := if raised < 1.0 then raised else 1.0;
    }

    method AppendTraceEvent(e: Event)
      modifies this`traceEvents
      ensures traceEvents == if InTrace(old(traceEvents), e.id) then old(traceEvents) else old(traceEvents) + [e]
    {
      for i := 0 to |traceEvents|
        invariant traceEvents == old(traceEvents)
        invariant forall k | 0 <= k < i :: traceEvents[k].id != e.id
      {
        if traceEvents[i].id == e.id {
          return;
        }
      }
      traceEvents := traceEvents + [e];
    }

    method MergeAnswerDelta(delta: string)
      modifies this`answer
      ensures answer == if delta == "" then old(answer) else Some(TextSoFar(old(answer)) + delta)
    {
      if delta == "" {
        return;
      }
      answer := Some(TextSoFar(answer) + delta);
    }

    /** Of the calculation itself nothing is kept here, but it makes an empty answer of none. */
    method UpsertCalculation(calculationId: string)
      modifies this`answer
      ensures answer == Some(TextSoFar(old(answer)))
    {
      answer := Some(TextSoFar(answer));
    }

    method ApplySSEEvent(e: Event) returns (applied: bool, reported: bool)
      modifies this`status, this`progress, this`answer, this`traceEvents, this`error
      ensures Abs() == Apply(old(Abs()), e)
      ensures applied <==> !e.kind.Unfrozen?
      ensures reported <==> Reported(old(Abs()), e)
    {
      reported := false;
      if e.kind.Unfrozen? {
        return false, true;
      }
      applied := true;
      AppendTraceEvent(e);
      var stage := StageProgress(e.kind);
      if stage.Some? && stage.value > progress {
        SetProgress(stage.value);
      }
      match e.kind {
        case WorkflowStarted => reported := SetStatus(Running);
        case VerificationStarted => reported := SetStatus(Verifying);
        case AnswerDelta =>
          reported := SetStatus(Streaming);
          MergeAnswerDelta(TextOf(e.data));
        case CalculationCompleted =>
          if e.data.Result? {
            UpsertCalculation(e.data.calculationId);
          }
        case AnswerCompleted => answer := Some(TextOf(e.data));
        case TaskCompleted => reported := SetStatus(Completed);
        case TaskFailed => reported := SetStatus(Failed);
        case TaskAborted => reported := SetStatus(Aborted);
        case ErrorEvent =>
          error := Some(match e.data case Problem(code, _) => code case _ => OtherCode("FIN-0000"));
        case _ =>
      }
    }
  }

  // Runs

  function ApplyAll(s: Store, log: seq<Event>): Store {
    Fold(Apply, s, log)
  }

  predicate IsFinal(s: Status) { s == Completed || s == Failed || s == Aborted }

  ghost predicate WellFormed(s: Store) {
    && 0.0 <= s.progress <= 1.0
    && forall i, j | 0 <= i < j < |s.trace| :: s.trace[i].id != s.trace[j].id
  }

  /** What one event may change: a status along an allowed edge, none out of a final one,
      progress upwards, the trace by appending. */
  ghost predicate StepAllowed(s: Store, t: Store) {
    && (t.status == s.status || t.status in AllowedTransitions(s.status))
    && (IsFinal(s.status) ==> t.status == s.status)
    && s.progress <= t.progress
    && s.trace <= t.trace
  }

  lemma ApplyAllowed(s: Store, e: Event)
    requires WellFormed(s)
    ensures WellFormed(Apply(s, e)) && StepAllowed(s, Apply(s, e))
  {}

  /** For every event sequence: every status change is an allowed edge, a final status stays,
      progress never falls nor leaves [0, 1], and trace ids stay distinct. */
  lemma {:induction false} EveryRunIsAllowed(s: Store, log: seq<Event>, n: nat)
    requires WellFormed(s) && n <= |log|
    ensures WellFormed(ApplyAll(s, log))
    ensures n < |log| ==> StepAllowed(ApplyAll(s, log[..n]), ApplyAll(s, log[..n + 1]))
    ensures IsFinal(ApplyAll(s, log[..n]).status) ==> ApplyAll(s, log).status == ApplyAll(s, log[..n]).status
    ensures ApplyAll(s, log[..n]).progress <= ApplyAll(s, log).progress
    decreases |log|
  {
    if n == |log| {
      WholePrefix(log);
      if n > 0 {
        EveryRunIsAllowed(s, log[..n - 1], 0);
        ApplyAllowed(ApplyAll(s, log[..n - 1]), log[n - 1]);
      }
    } else {
      var init, last := log[..|log| - 1], log[|log| - 1];
      assert init[..n] == log[..n];
      EveryRunIsAllowed(s, init, n);
      ApplyAllowed(ApplyAll(s, init), last);
      if n + 1 < |log| {
        assert init[..n + 1] == log[..n + 1];
      } else {
        WholePrefix(log);
      }
    }
  }

  /** The events of a known type, in order. */
  function Frozen(log: seq<Event>): seq<Event> {
    if log == [] then []
    else Frozen(log[..|log| - 1]) + if log[|log| - 1].kind.Unfrozen? then [] else [log[|log| - 1]]
  }

  lemma {:induction false} FrozenIn(log: seq<Event>)
    ensures forall e :: e in Frozen(log) <==> e in log && !e.kind.Unfrozen?
  {
    if log != [] {
      FrozenIn(log[..|log| - 1]);
      assert log == log[..|log| - 1] + [log[|log| - 1]];
    }
  }

  lemma TraceNext(s: Store, log: seq<Event>, n: nat)
    requires DistinctIds(log) && n < |log| && s.trace == Frozen(log[..n])
    ensures Apply(s, log[n]).trace == Frozen(log[..n + 1])
  {
    PrefixStep(log, n);
    FrozenIn(log[..n]);
    forall i | 0 <= i < |s.trace| ensures s.trace[i].id != log[n].id {
      assert s.trace[i] in log[..n];
      var k :| 0 <= k < n && log[..n][k] == s.trace[i];
      assert log[k].id != log[n].id;
    }
  }

  /** With distinct event ids the trace is the log without the unknown events, in order. */
  lemma {:induction false} TraceIsTheLog(log: seq<Event>, n: nat)
    requires DistinctIds(log) && n <= |log|
    ensures ApplyAll(SUBMITTED, log[..n]).trace == Frozen(log[..n])
  {
    if n > 0 {
      TraceIsTheLog(log, n - 1);
      ApplyOneMore(log, n - 1);
      TraceNext(ApplyAll(SUBMITTED, log[..n - 1]), log, n - 1);
    }
  }

  /** The furthest stage the log reached, 0 at the start. */
  ghost predicate Furthest(log: seq<Event>, n: nat, progress: real)
    requires n <= |log|
  {
    && (forall i | 0 <= i < n :: StageProgress(log[i].kind).Some? ==> StageProgress(log[i].kind).value <= progress)
    && (progress == 0.0 || exists i | 0 <= i < n :: StageProgress(log[i].kind) == Some(progress))
  }

  lemma {:induction false} ProgressIsFurthest(log: seq<Event>, n: nat)
    requires n <= |log|
    ensures Furthest(log, n, ApplyAll(SUBMITTED, log[..n]).progress)
  {
    if n > 0 {
      ProgressIsFurthest(log, n - 1);
      ApplyOneMore(log, n - 1);
    }
  }

  /** The stages in their order, each further on than the one before; the last is the end. */
  const STAGES := [WorkflowStarted, RetrievalStarted, RetrievalCompleted, FinancialDataStarted, FinancialDataCompleted,
                   CalculationStarted, CalculationCompleted, AnswerDelta, AnswerCompleted, VerificationStarted,
                   VerificationCompleted, TaskCompleted]

  lemma StagesInOrder(i: nat, j: nat)
    requires i < j < |STAGES|
    ensures StageProgress(STAGES[i]).Some? && StageProgress(STAGES[j]).Some?
    ensures 0.0 < StageProgress(STAGES[i]).value < StageProgress(STAGES[j]).value <= 1.0
    ensures StageProgress(TaskCompleted) == Some(1.0)
  {}

  lemma OtherEventsAreNoStages(kind: EventType)
    ensures StageProgress(kind).None? <==>
            || kind in {WorkflowStage, AgentStarted, AgentCompleted, TaskFailed, TaskAborted, ErrorEvent}
            || kind.Unfrozen?
  {}

  /** A known event is reported exactly when it asks for a status and the store does not take it. */
  lemma ReportedExactlyWhen(s: Store, e: Event)
    ensures e.kind.Unfrozen? ==> Reported(s, e) && Apply(s, e) == s
    ensures !e.kind.Unfrozen? ==>
              (Reported(s, e) <==> Asked(e.kind).Some? && Apply(s, e).status != Asked(e.kind).value)
  {}

  // What is shown of the answer

  /** Event p is the last of its kind, or there is none and p is -1. */
  ghost predicate IsLastOf(log: seq<Event>, p: int, kind: EventType) {
    -1 <= p < |log| && (p >= 0 ==> log[p].kind == kind) && forall i | p < i < |log| :: log[i].kind != kind
  }

  /** The texts of the answer.deltas from event i on, one after the other. */
  function Spoken(log: seq<Event>, i: int): string {
    if log == [] || |log| <= i then ""
    else
      var n := |log| - 1;
      Spoken(log[..n], i) + if log[n].kind == AnswerDelta then TextOf(log[n].data) else ""
  }

  /** Shows something of an answer: a whole one, a piece that is not empty, or a calculation. */
  predicate Shows(e: Event) {
    || e.kind == AnswerCompleted
    || (e.kind == AnswerDelta && TextOf(e.data) != "")
    || (e.kind == CalculationCompleted && e.data.Result?)
  }

  ghost predicate AnyShows(log: seq<Event>) {
    exists i :: 0 <= i < |log| && Shows(log[i])
  }

  lemma {:induction false} ShowsOneMore(init: seq<Event>, e: Event)
    ensures AnyShows(init + [e]) <==> AnyShows(init) || Shows(e)
  {
    if Shows(e) { assert Shows((init + [e])[|init|]); }
    if AnyShows(init) {
      var i :| 0 <= i < |init| && Shows(init[i]);
      assert Shows((init + [e])[i]);
    }
  }

  /** What one event does to the answer, told from it alone. */
  lemma AnswerNext(s: Store, e: Event)
    ensures var a, a' := s.answer, Apply(s, e).answer;
            && (a'.Some? <==> a.Some? || Shows(e))
            && (a'.Some? ==>
                  a'.value == if e.kind == AnswerCompleted then TextOf(e.data)
                              else TextSoFar(a) + if e.kind == AnswerDelta then TextOf(e.data) else "")
            && (a.None? ==> TextSoFar(a) == "")
  {}

  /** On any log: the text shown is that of the last answer.completed, or "" if there is none,
      followed by the texts of the answer.deltas after it; and there is no answer exactly when
      no event showed anything of one. */
  lemma {:induction false} AnswerIs(log: seq<Event>, p: int)
    requires IsLastOf(log, p, AnswerCompleted)
    ensures AnswerAfter(ApplyAll(SUBMITTED, log).answer, log, p)
  {
    if log != [] {
      var n := |log| - 1;
      var init, e := log[..n], log[n];
      ApplyOneMore(log, n);
      WholePrefix(log);
      if p == n {
        var q := LastOf(init, AnswerCompleted);
        AnswerIs(init, q);
        AnswerOn(ApplyAll(SUBMITTED, init), log, q, p);
      } else {
        AnswerIs(init, p);
        AnswerOn(ApplyAll(SUBMITTED, init), log, p, p);
      }
    }
  }

  lemma ApplyOneMore(log: seq<Event>, n: nat)
    requires n < |log|
    ensures ApplyAll(SUBMITTED, log[..n + 1]) == Apply(ApplyAll(SUBMITTED, log[..n]), log[n])
  {
    PrefixStep(log, n);
    FoldOneMore(Apply, SUBMITTED, log[..n], log[n]);
  }

  /** The text of the last whole answer p, and what was said after it. */
  function TextFrom(log: seq<Event>, p: int): string
    requires -1 <= p < |log|
  {
    (if p >= 0 then TextOf(log[p].data) else "") + Spoken(log, p + 1)
  }

  ghost predicate AnswerAfter(answer: Option<string>, log: seq<Event>, p: int)
    requires IsLastOf(log, p, AnswerCompleted)
  {
    && (answer.Some? <==> AnyShows(log))
    && (if answer.Some? then answer.value == TextFrom(log, p) else TextFrom(log, p) == "")
  }

  lemma {:induction false} TextOneMore(log: seq<Event>, q: int, p: int)
    requires log != [] && IsLastOf(log[..|log| - 1], q, AnswerCompleted) && IsLastOf(log, p, AnswerCompleted)
    ensures var e := log[|log| - 1];
            TextFrom(log, p) == if e.kind == AnswerCompleted then TextOf(e.data)
                                else TextFrom(log[..|log| - 1], q)
                                     + if e.kind == AnswerDelta then TextOf(e.data) else ""
  {
    var n := |log| - 1;
    if p == n {
      assert Spoken(log, n + 1) == "";
    } else {
      assert p == q;
      var said := if log[n].kind == AnswerDelta then TextOf(log[n].data) else "";
      assert Spoken(log, p + 1) == Spoken(log[..n], p + 1) + said;
      AddAssociates(if p >= 0 then TextOf(log[p].data) else "", Spoken(log[..n], p + 1), said);
    }
  }

  lemma {:induction false} AnswerOn(s: Store, log: seq<Event>, q: int, p: int)
    requires log != [] && IsLastOf(log[..|log| - 1], q, AnswerCompleted) && IsLastOf(log, p, AnswerCompleted)
    requires AnswerAfter(s.answer, log[..|log| - 1], q)
    ensures AnswerAfter(Apply(s, log[|log| - 1]).answer, log, p)
  {
    var n := |log| - 1;
    WholePrefix(log);
    PrefixStep(log, n);
    ShowsOneMore(log[..n], log[n]);
    TextOneMore(log, q, p);
    AnswerNext(s, log[n]);
  }

  lemma {:induction false} LastOf(log: seq<Event>, kind: EventType) returns (p: int)
    ensures IsLastOf(log, p, kind)
  {
    if log == [] {
      p := -1;
    } else if log[|log| - 1].kind == kind {
      p := |log| - 1;
    } else {
      p := LastOf(log[..|log| - 1], kind);
    }
  }

  /** The error shown is that of the last error event. */
  lemma {:induction false} ErrorIs(log: seq<Event>, p: int)
    requires IsLastOf(log, p, ErrorEvent)
    ensures var error := ApplyAll(SUBMITTED, log).error;
            if p < 0 then error == None
            else match log[p].data
                 case Problem(code, _) => error == Some(code)
                 case _ => error == Some(OtherCode("FIN-0000"))
  {
    if log != [] {
      var n := |log| - 1;
      assert log == log[..n] + [log[n]];
      FoldOneMore(Apply, SUBMITTED, log[..n], log[n]);
      if p < n { ErrorIs(log[..n], p); }
    }
  }

  // When a run completes

  predicate Is(log: seq<Event>, i: int, kind: EventType) {
    0 <= i < |log| && log[i].kind == kind
  }

  /** No workflow.started strictly between a and b. */
  ghost predicate Quiet(log: seq<Event>, a: int, b: int) {
    forall m | a < m < b :: !Is(log, m, WorkflowStarted)
  }

  /** No failure or abortion before n. */
  ghost predicate Alive(log: seq<Event>, n: int) {
    forall m | m < n :: !Is(log, m, TaskFailed) && !Is(log, m, TaskAborted)
  }

  /** The first failure or abortion before n is a failure. */
  ghost predicate FailsFirst(log: seq<Event>, n: int) {
    exists m :: m < n && Is(log, m, TaskFailed) && Alive(log, m)
  }

  ghost predicate HasStarted(log: seq<Event>, n: int) {
    exists i :: i < n && Is(log, i, WorkflowStarted)
  }

  ghost predicate HasStreamed(log: seq<Event>, n: int) {
    exists j :: j < n && Is(log, j, AnswerDelta) && HasStarted(log, j) && Quiet(log, j, n)
  }

  ghost predicate HasVerified(log: seq<Event>, n: int) {
    exists k :: k < n && Is(log, k, VerificationStarted) && HasStreamed(log, k)
  }

  /** workflow.started, then answer.delta, then verification.started before any other
      workflow.started, then task.completed before any failure: all before n. */
  ghost predicate HasCompleted(log: seq<Event>, n: int) {
    exists l :: l < n && Is(log, l, TaskCompleted) && HasVerified(log, l) && Alive(log, l)
  }

  function ExpectedOf(completed: bool, alive: bool, failsFirst: bool, verified: bool, streamed: bool,
                      started: bool): Status {
    if completed then Completed
    else if !alive then (if failsFirst then Failed else Aborted)
    else if verified then Verifying
    else if streamed then Streaming
    else if started then Running
    else Submitting
  }

  /** The status a log's first n events call for. */
  ghost function Expected(log: seq<Event>, n: int): Status {
    ExpectedOf(HasCompleted(log, n), Alive(log, n), FailsFirst(log, n),
               HasVerified(log, n), HasStreamed(log, n), HasStarted(log, n))
  }

  /** The same step on the six facts. */
  lemma ExpectedStep(completed: bool, alive: bool, failsFirst: bool, verified: bool, streamed: bool, started: bool,
                     kind: EventType)
    requires failsFirst ==> !alive
    ensures NextStatus(ExpectedOf(completed, alive, failsFirst, verified, streamed, started), kind) ==
            ExpectedOf(
              completed || (kind == TaskCompleted && verified && alive),
              alive && kind != TaskFailed && kind != TaskAborted,
              failsFirst || (kind == TaskFailed && alive),
              verified || (kind == VerificationStarted && streamed),
              (streamed && kind != WorkflowStarted) || (kind == AnswerDelta && started),
              started || kind == WorkflowStarted)
  {}

  lemma StartedNext(log: seq<Event>, n: nat)
    requires n < |log|
    ensures HasStarted(log, n + 1) <==> HasStarted(log, n) || Is(log, n, WorkflowStarted)
    ensures Alive(log, n + 1) <==> Alive(log, n) && !Is(log, n, TaskFailed) && !Is(log, n, TaskAborted)
  {}

  lemma StreamedNext(log: seq<Event>, n: nat)
    requires n < |log|
    ensures HasStreamed(log, n + 1) <==>
            || (HasStreamed(log, n) && !Is(log, n, WorkflowStarted))
            || (Is(log, n, AnswerDelta) && HasStarted(log, n))
  {
    if HasStreamed(log, n) && !Is(log, n, WorkflowStarted) {
      var j :| j < n && Is(log, j, AnswerDelta) && HasStarted(log, j) && Quiet(log, j, n);
      assert Quiet(log, j, n + 1);
    }
    if Is(log, n, AnswerDelta) && HasStarted(log, n) {
      assert Quiet(log, n, n + 1);
    }
    if HasStreamed(log, n + 1) {
      var j :| j < n + 1 && Is(log, j, AnswerDelta) && HasStarted(log, j) && Quiet(log, j, n + 1);
      assert j < n ==> Quiet(log, j, n) && !Is(log, n, WorkflowStarted);
    }
  }

  lemma VerifiedNext(log: seq<Event>, n: nat)
    requires n < |log|
    ensures HasVerified(log, n + 1) <==> HasVerified(log, n) || (Is(log, n, VerificationStarted) && HasStreamed(log, n))
  {
    if HasVerified(log, n + 1) {
      var k :| k < n + 1 && Is(log, k, VerificationStarted) && HasStreamed(log, k);
      assert k < n || k == n;
    }
  }

  lemma CompletedNext(log: seq<Event>, n: nat)
    requires n < |log|
    ensures HasCompleted(log, n + 1) <==>
            HasCompleted(log, n) || (Is(log, n, TaskCompleted) && HasVerified(log, n) && Alive(log, n))
  {
    if HasCompleted(log, n + 1) {
      var l :| l < n + 1 && Is(log, l, TaskCompleted) && HasVerified(log, l) && Alive(log, l);
      assert l < n || l == n;
    }
  }

  lemma FailsNext(log: seq<Event>, n: nat)
    requires n < |log|
    ensures FailsFirst(log, n + 1) <==> FailsFirst(log, n) || (Is(log, n, TaskFailed) && Alive(log, n))
    ensures FailsFirst(log, n) ==> !Alive(log, n)
  {
    if FailsFirst(log, n + 1) {
      var m :| m < n + 1 && Is(log, m, TaskFailed) && Alive(log, m);
      assert m < n || m == n;
    }
  }

  lemma ExpectedNext(log: seq<Event>, n: nat)
    requires n < |log|
    ensures NextStatus(Expected(log, n), log[n].kind) == Expected(log, n + 1)
  {
    StartedNext(log, n);
    FailsNext(log, n);
    StreamedNext(log, n);
    VerifiedNext(log, n);
    CompletedNext(log, n);
    ExpectedStep(HasCompleted(log, n), Alive(log, n), FailsFirst(log, n),
                 HasVerified(log, n), HasStreamed(log, n), HasStarted(log, n), log[n].kind);
  }

  lemma ApplyStatus(s: Store, e: Event)
    ensures Apply(s, e).status == NextStatus(s.status, e.kind)
  {}

  lemma {:induction false} StatusIsExpected(log: seq<Event>, n: nat)
    requires n <= |log|
    ensures ApplyAll(SUBMITTED, log[..n]).status == Expected(log, n)
  {
    if n > 0 {
      StatusIsExpected(log, n - 1);
      ApplyOneMore(log, n - 1);
      ApplyStatus(ApplyAll(SUBMITTED, log[..n - 1]), log[n - 1]);
      ExpectedNext(log, n - 1);
    }
  }

  /** From a submitted task, the client ends in completed exactly when the log has a
      workflow.started, then an answer.delta, then a verification.started with no other
      workflow.started since that delta, then a task.completed, and no failure before. */
  lemma CompletesExactlyWhen(log: seq<Event>)
    ensures ApplyAll(SUBMITTED, log).status == Completed <==> HasCompleted(log, |log|)
  {
    StatusIsExpected(log, |log|);
    WholePrefix(log);
  }

  /** On the log of a completed task, with workflow.started only at its head and its one
      terminal event last (TaskBus.OneTerminalEvent), this comes down to an answer.delta with
      a verification.started after it. */
  lemma CompletedTaskShowsWhen(log: seq<Event>)
    requires |log| >= 2 && Is(log, |log| - 1, TaskCompleted)
    requires forall i | 0 <= i < |log| :: log[i].kind == WorkflowStarted <==> i == 0
    requires forall i | 0 <= i < |log| :: Terminal(log[i].kind) <==> i == |log| - 1
    ensures ApplyAll(SUBMITTED, log).status == Completed <==>
            exists j, k :: j < k && Is(log, j, AnswerDelta) && Is(log, k, VerificationStarted)
  {
    var end := |log| - 1;
    CompletesExactlyWhen(log);
    assert Alive(log, end) && Is(log, 0, WorkflowStarted);
    if j, k :| j < k && Is(log, j, AnswerDelta) && Is(log, k, VerificationStarted) {
      assert 0 < j && HasStarted(log, j) && Quiet(log, j, k);
      assert HasStreamed(log, k) && k < end && HasVerified(log, end);
      assert HasCompleted(log, |log|);
    }
  }

  /** A completed task whose answer was empty sends no answer.delta
      (src/finsage/api/runner_real.py): the client never shows it as completed. */
  lemma WithoutDeltaNeverCompletes(log: seq<Event>)
    requires forall i | 0 <= i < |log| :: log[i].kind != AnswerDelta
    ensures ApplyAll(SUBMITTED, log).status != Completed
  {
    CompletesExactlyWhen(log);
  }
}
