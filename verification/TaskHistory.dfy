/** What a task's log, its subscribers and its progress owe to what was asked of it: stated over
    the actions of a run, without the bus's own way of emitting (src/finsage/api/tasks.py). */
module TaskHistory {
  import opened Options
  import opened Seqs
  import opened Events
  import opened TaskBus

  // What is submitted

  /** The submissions among the actions, in order. */
  function Submissions(actions: seq<Action>): seq<Action> {
    if actions == [] then []
    else
      Submissions(actions[..|actions| - 1])
      + if actions[|actions| - 1].Submit? then [actions[|actions| - 1]] else []
  }

  /** Job and submission are about the same task. */
  ghost predicate Submitted(j: Job, a: Action) {
    a.Submit? && j.task.taskId == a.taskId && j.task.traceId == a.traceId && j.task.kind == a.kind
  }

  ghost predicate SameTask(t: Task, t': Task) {
    t'.taskId == t.taskId && t'.traceId == t.traceId && t'.kind == t.kind
  }

  lemma FinishKeepsIdentity(t: Task, outcome: Outcome, id1: string, id2: string)
    ensures SameTask(t, Finish(t, outcome, id1, id2))
  {}

  lemma KeepsIdentity(j: Job, a: JobAction, permit: bool)
    ensures SameTask(j.task, JobStep(j, a, permit).task)
  {
    if a.DoFinish? { FinishKeepsIdentity(j.task, a.outcome, a.id1, a.id2); }
  }

  lemma StepIdentity(m: Manager, a: Action, i: nat)
    requires i < |m.jobs|
    ensures i < |Step(m, a).jobs|
    ensures SameTask(m.jobs[i].task, Step(m, a).jobs[i].task)
  {
    if a.On? && a.i < |m.jobs| { KeepsIdentity(m.jobs[a.i], a.what, Executions(m.jobs) < Capacity(m)); }
  }

  /** There is one task for each submission, in their order, and it keeps its identity. */
  lemma {:induction false} OneJobEach(m: Manager, actions: seq<Action>)
    requires Initial(m)
    ensures |Run(m, actions).jobs| == |Submissions(actions)|
    ensures forall i | 0 <= i < |Run(m, actions).jobs| :: Submitted(Run(m, actions).jobs[i], Submissions(actions)[i])
  {
    if actions != [] {
      var init, last := actions[..|actions| - 1], actions[|actions| - 1];
      var before := Run(m, init);
      OneJobEach(m, init);
      forall i | 0 <= i < |Run(m, actions).jobs| ensures Submitted(Run(m, actions).jobs[i], Submissions(actions)[i]) {
        if i < |before.jobs| { StepIdentity(before, last, i); }
      }
    }
  }

  // What is logged

  /** The events that an action of a task asks for, in order. */
  function Announced(taskId: string, traceId: string, kind: string, a: JobAction): seq<Event> {
    match a
    case DoBegin(id) => [Event(id, traceId, WorkflowStarted, OfTask(taskId, kind))]
    case DoEmit(id, eventKind, data) => [Event(id, traceId, eventKind, data)]
    case DoFinish(Returned, id1, _) => [Event(id1, traceId, TaskCompleted, OfTask(taskId, kind))]
    case DoFinish(Raised(WorkflowCancelled, retryable), id1, id2) =>
      [Event(id1, traceId, TaskAborted, Failure(taskId, WorkflowCancelled)),
       Event(id2, traceId, ErrorEvent, Problem(WorkflowCancelled, retryable))]
    case DoFinish(Raised(code, retryable), id1, id2) =>
      [Event(id1, traceId, TaskFailed, Failure(taskId, code)),
       Event(id2, traceId, ErrorEvent, Problem(code, retryable))]
    case DoFinish(Broke, id1, id2) =>
      [Event(id1, traceId, TaskFailed, Failure(taskId, InternalError)),
       Event(id2, traceId, ErrorEvent, Problem(InternalError, false))]
    case DoFinish(Cancelled, id1, _) => [Event(id1, traceId, TaskAborted, OfTask(taskId, ""))]
    case _ => []
  }

  function AnnouncedOf(t: Task, a: JobAction): seq<Event> { Announced(t.taskId, t.traceId, t.kind, a) }

  /** Action a is one of task i, and is taken. */
  predicate Taken(m: Manager, a: Action, i: nat) {
    && a.On? && a.i == i < |m.jobs| && Ready(m.jobs[i], a.what)
    && (a.what.DoBegin? ==> Executions(m.jobs) < Capacity(m))
  }

  /** All events asked for by the actions of task i that were taken. */
  function Requested(m: Manager, actions: seq<Action>, s: Action, i: nat): seq<Event>
    requires s.Submit?
  {
    if actions == [] then []
    else
      var init, last := actions[..|actions| - 1], actions[|actions| - 1];
      Requested(m, init, s, i)
      + if Taken(Run(m, init), last, i) then Announced(s.taskId, s.traceId, s.kind, last.what) else []
  }

  lemma FinishLogs(t: Task, outcome: Outcome, id1: string, id2: string)
    ensures Finish(t, outcome, id1, id2).log == t.log + AnnouncedOf(t, DoFinish(outcome, id1, id2))
  {
    match outcome
    case Raised(code, retryable) =>
      var e := Event(id1, t.traceId, FailureKind(code), Failure(t.taskId, code));
      assert t.log + [e] + [Event(id2, t.traceId, ErrorEvent, Problem(code, retryable))] ==
             t.log + AnnouncedOf(t, DoFinish(outcome, id1, id2));
    case Broke =>
      var e := Event(id1, t.traceId, TaskFailed, Failure(t.taskId, InternalError));
      assert t.log + [e] + [Event(id2, t.traceId, ErrorEvent, Problem(InternalError, false))] ==
             t.log + AnnouncedOf(t, DoFinish(outcome, id1, id2));
    case _ =>
  }

  /** A step adds to the log exactly what it asks for. */
  lemma StepLogs(j: Job, a: JobAction)
    requires Ready(j, a)
    ensures Perform(j, a).task.log == j.task.log + AnnouncedOf(j.task, a)
  {
    match a
    case DoFinish(outcome, id1, id2) => FinishLogs(j.task, outcome, id1, id2);
    case _ =>
  }

  lemma JobLogs(m: Manager, a: Action, i: nat)
    requires i < |m.jobs|
    ensures i < |Step(m, a).jobs|
    ensures Step(m, a).jobs[i].task.log ==
            m.jobs[i].task.log + if Taken(m, a, i) then AnnouncedOf(m.jobs[i].task, a.what) else []
  {
    assert m.jobs[i].task.log + [] == m.jobs[i].task.log;
    if Taken(m, a, i) { StepLogs(m.jobs[i], a.what); }
  }

  lemma {:induction false} NothingRequested(m: Manager, actions: seq<Action>, s: Action, i: nat)
    requires s.Submit? && Initial(m) && i >= |Run(m, actions).jobs|
    ensures Requested(m, actions, s, i) == []
  {
    if actions != [] {
      NothingRequested(m, actions[..|actions| - 1], s, i);
    }
  }

  /** Over any run: a task's log is exactly the events that were asked for by its actions that
      were taken, in order, each with its id, the task's trace id, its kind and its data. */
  lemma {:induction false} LogIsRequested(m: Manager, actions: seq<Action>, i: nat)
    requires Initial(m) && i < |Run(m, actions).jobs|
    ensures |Run(m, actions).jobs| == |Submissions(actions)| && Submissions(actions)[i].Submit?
    ensures Run(m, actions).jobs[i].task.log == Requested(m, actions, Submissions(actions)[i], i)
  {
    OneJobEach(m, actions);
    var init, last := actions[..|actions| - 1], actions[|actions| - 1];
    var before := Run(m, init);
    OneJobEach(m, init);
    assert Submitted(Run(m, actions).jobs[i], Submissions(actions)[i]);
    if i < |before.jobs| {
      LogIsRequested(m, init, i);
      assert Submitted(before.jobs[i], Submissions(init)[i]);
      JobLogs(before, last, i);
    } else {
      NothingRequested(m, init, Submissions(actions)[i], i);
    }
  }

  // What subscribers are told

  ghost predicate Told(s: Sub, s': Sub, items: seq<Item>) {
    && s'.ordered == s.ordered && s'.terminal == s.terminal && s'.next == s.next && s'.got == s.got
    && s'.put == s.put + items
  }

  lemma FanTells(t: Task, items: seq<Item>, k: nat)
    requires k < |t.subs|
    ensures |Fan(t, items).subs| == |t.subs| && Told(t.subs[k], Fan(t, items).subs[k], items)
  {}

  lemma ThenTold(s: Sub, s': Sub, s'': Sub, a: seq<Item>, b: seq<Item>)
    requires Told(s, s', a) && Told(s', s'', b)
    ensures Told(s, s'', a + b)
  {}

  lemma EndTells(t: Task, e: Event, k: nat)
    requires k < |t.subs|
    ensures var t' := Close(Emit(t, e)); |t'.subs| == |t.subs| && Told(t.subs[k], t'.subs[k], [Put(e), Sentinel])
  {
    var t1 := Emit(t, e);
    FanTells(t.(log := t.log + [e]), [Put(e)], k);
    FanTells(t1, [Sentinel], k);
    ThenTold(t.subs[k], t1.subs[k], Close(t1).subs[k], [Put(e)], [Sentinel]);
    assert [Put(e)] + [Sentinel] == [Put(e), Sentinel];
  }

  lemma FailureTells(t: Task, e: Event, f: Event, k: nat)
    requires k < |t.subs|
    ensures var t' := Close(Emit(Emit(t, e), f));
            |t'.subs| == |t.subs| && Told(t.subs[k], t'.subs[k], [Put(e), Put(f), Sentinel])
  {
    var t1 := Emit(t, e);
    FanTells(t.(log := t.log + [e]), [Put(e)], k);
    EndTells(t1, f, k);
    ThenTold(t.subs[k], t1.subs[k], Close(Emit(t1, f)).subs[k], [Put(e)], [Put(f), Sentinel]);
    assert [Put(e)] + [Put(f), Sentinel] == [Put(e), Put(f), Sentinel];
  }

  /** What an action puts on every queue: its events, and the sentinel behind the last one. */
  function Broadcast(events: seq<Event>, ends: bool): seq<Item> {
    seq(|events|, n requires 0 <= n < |events| => Put(events[n])) + if ends then [Sentinel] else []
  }

  lemma BroadcastOne(e: Event)
    ensures Broadcast([e], false) == [Put(e)] && Broadcast([e], true) == [Put(e), Sentinel]
  {}

  lemma BroadcastTwo(e: Event, f: Event)
    ensures Broadcast([e, f], true) == [Put(e), Put(f), Sentinel]
  {}

  lemma FinishTells(t: Task, outcome: Outcome, id1: string, id2: string, k: nat)
    requires k < |t.subs|
    ensures var t', a := Finish(t, outcome, id1, id2), DoFinish(outcome, id1, id2);
            |t'.subs| == |t.subs| && Told(t.subs[k], t'.subs[k], Broadcast(AnnouncedOf(t, a), true))
  {
    match outcome
    case Returned =>
      var e := Event(id1, t.traceId, TaskCompleted, OfTask(t.taskId, t.kind));
      EndTells(t.(status := Completed, progress := 1.0, finished := true), e, k);
      BroadcastOne(e);
    case Raised(code, retryable) =>
      var e := Event(id1, t.traceId, FailureKind(code), Failure(t.taskId, code));
      var f := Event(id2, t.traceId, ErrorEvent, Problem(code, retryable));
      FailureTells(t.(status := Failed, errorCode := Some(code), finished := true), e, f, k);
      BroadcastTwo(e, f);
    case Broke =>
      var e := Event(id1, t.traceId, TaskFailed, Failure(t.taskId, InternalError));
      var f := Event(id2, t.traceId, ErrorEvent, Problem(InternalError, false));
      FailureTells(t.(status := Failed, errorCode := Some(InternalError)), e, f, k);
      BroadcastTwo(e, f);
    case Cancelled =>
      var e := Event(id1, t.traceId, TaskAborted, OfTask(t.taskId, ""));
      EndTells(t.(status := Aborted, finished := true), e, k);
      BroadcastOne(e);
  }

  /** Every queue gets, behind what it holds, the events a step of the server asks for, and the
      sentinel when the task ends; no queue appears or goes. */
  lemma EveryoneIsTold(j: Job, a: JobAction, k: nat)
    requires ServerAction(a) && Ready(j, a) && k < |j.task.subs|
    ensures var t, t' := j.task, Perform(j, a).task;
            |t'.subs| == |t.subs| && Told(t.subs[k], t'.subs[k], Broadcast(AnnouncedOf(t, a), a.DoFinish?))
  {
    var t := j.task;
    match a
    case DoBegin(id) =>
      var e := Event(id, t.traceId, WorkflowStarted, OfTask(t.taskId, t.kind));
      FanTells(t.(status := Running, started := true, log := t.log + [e]), [Put(e)], k);
      BroadcastOne(e);
    case DoEmit(id, kind, data) =>
      var e := Event(id, t.traceId, kind, data);
      FanTells(t.(log := t.log + [e]), [Put(e)], k);
      BroadcastOne(e);
    case DoFinish(outcome, id1, id2) => FinishTells(t, outcome, id1, id2, k);
    case _ =>
  }

  // Progress

  /** p is x, or the nearer end of the unit interval. */
  predicate Nearest(p: real, x: real) {
    && 0.0 <= p <= 1.0
    && (0.0 <= x <= 1.0 ==> p == x) && (x < 0.0 ==> p == 0.0) && (x > 1.0 ==> p == 1.0)
  }

  /** What a task's progress was last set to: by its runner, or to 1 on completion. */
  function LastSet(m: Manager, actions: seq<Action>, i: nat): real {
    if actions == [] then 0.0
    else
      var init, last := actions[..|actions| - 1], actions[|actions| - 1];
      if !Taken(Run(m, init), last, i) then LastSet(m, init, i)
      else match last.what
           case DoSetProgress(value) => value
           case DoFinish(Returned, _, _) => 1.0
           case _ => LastSet(m, init, i)
  }

  lemma StepProgress(j: Job, a: JobAction)
    requires Ready(j, a)
    ensures match a
            case DoSetProgress(value) => Nearest(Perform(j, a).task.progress, value)
            case DoFinish(Returned, _, _) => Perform(j, a).task.progress == 1.0
            case _ => Perform(j, a).task.progress == j.task.progress
  {}

  lemma {:induction false} UnsetProgress(m: Manager, actions: seq<Action>, i: nat)
    requires Initial(m) && i >= |Run(m, actions).jobs|
    ensures LastSet(m, actions, i) == 0.0
  {
    if actions != [] { UnsetProgress(m, actions[..|actions| - 1], i); }
  }

  /** Over any run a task's progress is what it was last set to, kept within the unit interval. */
  lemma {:induction false} ProgressIsLastSet(m: Manager, actions: seq<Action>, i: nat)
    requires Initial(m) && i < |Run(m, actions).jobs|
    ensures Nearest(Run(m, actions).jobs[i].task.progress, LastSet(m, actions, i))
  {
    var init, last := actions[..|actions| - 1], actions[|actions| - 1];
    var before := Run(m, init);
    if i < |before.jobs| {
      ProgressIsLastSet(m, init, i);
      if Taken(before, last, i) { StepProgress(before.jobs[i], last.what); }
    } else {
      UnsetProgress(m, init, i);
    }
  }
}
