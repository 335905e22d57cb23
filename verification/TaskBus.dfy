/** The task event bus (src/finsage/api/tasks.py) as a step machine: one step is what runs
    between two awaits. Event ids are parameters of the steps, assumed fresh as UUIDs are. */
module TaskBus {
  import opened Options
  import opened Seqs
  import opened Events

  // One subscription: the replay snapshot, the queue and the generator reading both

  datatype Item = Put(event: Event) | Sentinel

  /** `put` is everything ever queued, `next` and `got` count what the generator has handed
      over of the snapshot and of the queue. */
  datatype Sub = Sub(ordered: seq<Event>, terminal: bool, put: seq<Item>, next: nat, got: nat)

  datatype Pulled = Yield(event: Event) | Finished | Blocked

  function PutOf(e: Event): Item { Put(e) }

  ghost predicate Shaped(s: Sub) {
    && s.next <= |s.ordered| && s.got <= |s.put|
    && (s.got > 0 ==> s.next == |s.ordered|)
    && forall i | 0 <= i < s.got :: s.put[i].Put?
  }

  ghost function Yielded(s: Sub): seq<Event>
    requires Shaped(s)
  {
    s.ordered[..s.next] + seq(s.got, i requires 0 <= i < s.got => s.put[i].event)
  }

  /** The generator, resumed until it yields, returns or waits. */
  function PullResult(s: Sub): Pulled
    requires s.got <= |s.put|
  {
    if s.next < |s.ordered| then Yield(s.ordered[s.next])
    else if s.terminal then Finished
    else if s.got == |s.put| then Blocked
    else match s.put[s.got]
         case Put(e) => Yield(e)
         case Sentinel => Finished
  }

  function PullNext(s: Sub): Sub
    requires s.got <= |s.put|
  {
    if s.next < |s.ordered| then s.(next := s.next + 1)
    else if PullResult(s).Yield? then s.(got := s.got + 1)
    else s
  }

  // One task

  datatype Status = Queued | Running | Completed | Failed | Aborted

  predicate IsTerminal(s: Status) {
    s == Completed || s == Failed || s == Aborted
  }

  datatype Task = Task(
    taskId: string,
    traceId: string,
    kind: string,
    status: Status,
    progress: real,
    errorCode: Option<Code>,
    started: bool,
    finished: bool,
    log: seq<Event>,
    subs: seq<Sub>)

  function NewTask(taskId: string, traceId: string, kind: string): Task {
    Task(taskId, traceId, kind, Queued, 0.0, None, false, false, [], [])
  }

  function Hear(items: seq<Item>): Sub -> Sub {
    (s: Sub) => s.(put := s.put + items)
  }

  /** Everyone subscribed gets these items. */
  function Fan(t: Task, items: seq<Item>): Task {
    t.(subs := Map(Hear(items), t.subs))
  }

  function Emit(t: Task, e: Event): Task {
    Fan(t.(log := t.log + [e]), [Put(e)])
  }

  function Close(t: Task): Task { Fan(t, [Sentinel]) }

  function SetProgress(t: Task, value: real): Task {
    t.(progress := if value < 0.0 then 0.0 else if value > 1.0 then 1.0 else value)
  }

  function Subscribe(t: Task): Task {
    t.(subs := t.subs + [Sub(t.log, IsTerminal(t.status), [], 0, 0)])
  }

  function Unsubscribe(t: Task, k: nat): Task
    requires k < |t.subs|
  {
    t.(subs := Without(t.subs, k))
  }

  /** The k-th stream is resumed; one that returns takes its queue off the list. */
  function Pull(t: Task, k: nat): Task
    requires k < |t.subs| && t.subs[k].got <= |t.subs[k].put|
  {
    if PullResult(t.subs[k]).Finished? then Unsubscribe(t, k)
    else t.(subs := t.subs[k := PullNext(t.subs[k])])
  }

  function Begin(t: Task, id: string): Task {
    Emit(t.(status := Running, started := true), Event(id, t.traceId, WorkflowStarted, OfTask(t.taskId, t.kind)))
  }

  /** How the workflow ends: it returns, raises a FinSageError, raises anything else, or is
      cancelled. */
  datatype Outcome = Returned | Raised(code: Code, retryable: bool) | Broke | Cancelled

  /** What a failure announces: a cancelled workflow is reported as an abort. */
  function FailureKind(code: Code): EventType {
    if code == WorkflowCancelled then TaskAborted else TaskFailed
  }

  function Finish(t: Task, outcome: Outcome, id1: string, id2: string): Task {
    Close(match outcome
          case Returned =>
            Emit(t.(status := Completed, progress := 1.0, finished := true),
                 Event(id1, t.traceId, TaskCompleted, OfTask(t.taskId, t.kind)))
          case Raised(code, retryable) =>
            Emit(Emit(t.(status := Failed, errorCode := Some(code), finished := true),
                      Event(id1, t.traceId, FailureKind(code),
                            Failure(t.taskId, code))),
                 Event(id2, t.traceId, ErrorEvent, Problem(code, retryable)))
          case Broke =>
            Emit(Emit(t.(status := Failed, errorCode := Some(InternalError)),
                      Event(id1, t.traceId, TaskFailed, Failure(t.taskId, InternalError))),
                 Event(id2, t.traceId, ErrorEvent, Problem(InternalError, false)))
          case Cancelled =>
            Emit(t.(status := Aborted, finished := true),
                 Event(id1, t.traceId, TaskAborted, OfTask(t.taskId, ""))))
  }

  // The manager: many tasks, a semaphore, and one asyncio task for each

  datatype Phase = Waiting | Executing | Over

  datatype Job = Job(task: Task, phase: Phase, cancelled: bool)

  datatype JobAction =
    | DoBegin(id: string)
    | DoEmit(id: string, kind: EventType, data: Data)
    | DoSetProgress(value: real)
    | DoFinish(outcome: Outcome, id1: string, id2: string)
    | DoAbort
    | DoDrop
    | DoSubscribe
    | DoPull(k: nat)
    | DoDisconnect(k: nat)

  predicate FreshId(id: string, log: seq<Event>) {
    id != "" && forall i :: 0 <= i < |log| ==> log[i].id != id
  }

  /** Can this step be taken? A cancelled job never gets past the semaphore. */
  predicate Ready(j: Job, a: JobAction) {
    var t := j.task;
    match a
    case DoBegin(id) => j.phase == Waiting && !j.cancelled && FreshId(id, t.log)
    case DoEmit(id, _, _) => j.phase == Executing && FreshId(id, t.log)
    case DoSetProgress(_) => j.phase == Executing
    case DoFinish(_, id1, id2) => j.phase == Executing && FreshId(id1, t.log) && FreshId(id2, t.log) && id1 != id2
    case DoAbort => !IsTerminal(t.status) && j.phase != Over
    case DoDrop => j.phase == Waiting && j.cancelled
    case DoSubscribe => true
    case DoPull(k) => k < |t.subs| && t.subs[k].got <= |t.subs[k].put|
    case DoDisconnect(k) => k < |t.subs|
  }

  function Perform(j: Job, a: JobAction): Job
    requires Ready(j, a)
  {
    var t := j.task;
    match a
    case DoBegin(id) => j.(task := Begin(t, id), phase := Executing)
    case DoEmit(id, kind, data) => j.(task := Emit(t, Event(id, t.traceId, kind, data)))
    case DoSetProgress(value) => j.(task := SetProgress(t, value))
    case DoFinish(outcome, id1, id2) => j.(task := Finish(t, outcome, id1, id2), phase := Over)
    case DoAbort => j.(cancelled := true)
    case DoDrop => j.(phase := Over)
    case DoSubscribe => j.(task := Subscribe(t))
    case DoPull(k) => j.(task := Pull(t, k))
    case DoDisconnect(k) => j.(task := Unsubscribe(t, k))
  }

  /** One step of one job; a step that cannot be taken changes nothing. `permit` says that
      the semaphore has room. */
  function JobStep(j: Job, a: JobAction, permit: bool): Job {
    if Ready(j, a) && (a.DoBegin? ==> permit) then Perform(j, a) else j
  }

  datatype Manager = Manager(maxConcurrent: int, jobs: seq<Job>)

  datatype Action = Submit(taskId: string, traceId: string, kind: string) | On(i: nat, what: JobAction)

  function Capacity(m: Manager): int { Max(1, m.maxConcurrent) }

  function Executions(jobs: seq<Job>): nat {
    if jobs == [] then 0
    else Executions(jobs[..|jobs| - 1]) + if jobs[|jobs| - 1].phase == Executing then 1 else 0
  }

  function Step(m: Manager, a: Action): Manager {
    match a
    case Submit(taskId, traceId, kind) =>
      m.(jobs := m.jobs + [Job(NewTask(taskId, traceId, kind), Waiting, false)])
    case On(i, what) =>
      if i < |m.jobs|
      then m.(jobs := m.jobs[i := JobStep(m.jobs[i], what, Executions(m.jobs) < Capacity(m))])
      else m
  }

  function Run(m: Manager, actions: seq<Action>): Manager {
    if actions == [] then m else Step(Run(m, actions[..|actions| - 1]), actions[|actions| - 1])
  }

  // Subscribers

  /** What a subscriber of a task with this log has: a snapshot, then every later event in
      order, then the sentinel once the task has ended. A subscriber that came after the end
      has the whole log and nothing queued. */
  ghost predicate SubInvariant(s: Sub, log: seq<Event>, ended: bool) {
    && Shaped(s)
    && |s.ordered| <= |log| && s.ordered == log[..|s.ordered|]
    && if s.terminal then ended && s.ordered == log && s.put == []
       else s.put == Map(PutOf, log[|s.ordered|..]) + if ended then [Sentinel] else []
  }

  ghost predicate SubsInvariant(t: Task) {
    forall k | 0 <= k < |t.subs| :: SubInvariant(t.subs[k], t.log, IsTerminal(t.status))
  }

  lemma {:induction false} HearEvent(s: Sub, log: seq<Event>, e: Event)
    requires SubInvariant(s, log, false)
    ensures SubInvariant(Hear([Put(e)])(s), log + [e], false)
  {
    var s' := Hear([Put(e)])(s);
    assert (log + [e])[..|s.ordered|] == log[..|s.ordered|];
    assert (log + [e])[|s.ordered|..] == log[|s.ordered|..] + [e];
    MapAdd(PutOf, log[|s.ordered|..], e);
    assert s'.put == Map(PutOf, (log + [e])[|s.ordered|..]) + [];
  }

  lemma {:induction false} HearSentinel(s: Sub, log: seq<Event>)
    requires SubInvariant(s, log, false)
    ensures SubInvariant(Hear([Sentinel])(s), log, true)
  {
    assert s.put == Map(PutOf, log[|s.ordered|..]);
  }

  ghost predicate SubsHave(t: Task, ended: bool) {
    forall k | 0 <= k < |t.subs| :: SubInvariant(t.subs[k], t.log, ended)
  }

  lemma {:induction false} EmitSubs(t: Task, e: Event)
    requires SubsHave(t, false)
    ensures SubsHave(Emit(t, e), false)
  {
    forall k | 0 <= k < |t.subs| ensures SubInvariant(Emit(t, e).subs[k], t.log + [e], false) {
      HearEvent(t.subs[k], t.log, e);
    }
  }

  lemma {:induction false} CloseSubs(t: Task)
    requires SubsHave(t, false)
    ensures SubsHave(Close(t), true)
  {
    forall k | 0 <= k < |t.subs| ensures SubInvariant(Close(t).subs[k], t.log, true) {
      HearSentinel(t.subs[k], t.log);
    }
  }

  /** Whatever a stream has handed over is a prefix of the log. */
  lemma {:induction false} YieldedIsPrefix(s: Sub, log: seq<Event>, ended: bool)
    requires SubInvariant(s, log, ended)
    ensures s.next + s.got <= |log|
    ensures Yielded(s) == log[..s.next + s.got]
  {
    var o := |s.ordered|;
    if s.got > 0 {
      assert s.put[s.got - 1].Put?;
      forall i | 0 <= i < s.got ensures s.put[i] == Put(log[o + i]) {
        assert s.put[i].Put?;
      }
      assert log[..o + s.got] == log[..o] + log[o..o + s.got];
    }
  }

  /** What a resumed stream does: it yields the next event of the log; it returns exactly when
      the task has ended and the whole log was yielded; it waits exactly when it is up to date
      with a task that has not ended. */
  lemma {:induction false} PullMeaning(s: Sub, log: seq<Event>, ended: bool)
    requires SubInvariant(s, log, ended)
    ensures match PullResult(s)
            case Yield(e) => |Yielded(s)| < |log| && e == log[|Yielded(s)|]
            case Finished => ended && Yielded(s) == log
            case Blocked => !ended && Yielded(s) == log
  {
    YieldedIsPrefix(s, log, ended);
    if s.next == |s.ordered| && !s.terminal {
      var tail := log[|s.ordered|..];
      assert s.got < |tail| ==> s.put[s.got] == Put(tail[s.got]);
    }
  }

  lemma {:induction false} PullInvariant(s: Sub, log: seq<Event>, ended: bool)
    requires SubInvariant(s, log, ended)
    ensures SubInvariant(PullNext(s), log, ended)
  {}

  lemma {:induction false} PullYields(s: Sub, log: seq<Event>, ended: bool)
    requires SubInvariant(s, log, ended) && PullResult(s).Yield?
    ensures SubInvariant(PullNext(s), log, ended)
    ensures Yielded(PullNext(s)) == Yielded(s) + [PullResult(s).event]
  {
    PullMeaning(s, log, ended);
    PullInvariant(s, log, ended);
    YieldedIsPrefix(s, log, ended);
    YieldedIsPrefix(PullNext(s), log, ended);
    PrefixStep(log, s.next + s.got);
  }

  // The life of a task

  ghost predicate Ending(t: Task) {
    var n := |t.log|;
    match t.status
    case Completed => n >= 2 && t.log[n - 1].kind == TaskCompleted && t.progress == 1.0
    case Aborted => n >= 2 && t.log[n - 1].kind == TaskAborted
    case Failed =>
      && n >= 3 && t.errorCode.Some? && t.log[n - 1].kind == ErrorEvent
      && t.log[n - 2].kind == if t.errorCode == Some(WorkflowCancelled) then TaskAborted else TaskFailed
    case _ => true
  }

  ghost predicate Lifecycle(j: Job) {
    var t := j.task;
    && (j.phase == Waiting ==> t.status == Queued)
    && (j.phase == Executing <==> t.status == Running)
    && (j.phase == Over && t.status == Queued ==> j.cancelled)
    && (t.log == [] <==> t.status == Queued)
    && (t.log != [] ==> t.log[0].kind == WorkflowStarted)
    && 0.0 <= t.progress <= 1.0
    && (t.started <==> t.status != Queued)
    && (t.errorCode.Some? <==> t.status == Failed)
    && (t.finished ==> IsTerminal(t.status))
    && (IsTerminal(t.status) && !t.finished ==> t.errorCode == Some(InternalError))
    && Ending(t)
  }

  lemma LifecycleFinish(j: Job, outcome: Outcome, id1: string, id2: string)
    requires Lifecycle(j) && j.phase == Executing
    ensures Lifecycle(j.(task := Finish(j.task, outcome, id1, id2), phase := Over))
  {}

  lemma LifecycleStep(j: Job, a: JobAction)
    requires Lifecycle(j) && Ready(j, a)
    ensures Lifecycle(Perform(j, a))
  {
    if a.DoFinish? { LifecycleFinish(j, a.outcome, a.id1, a.id2); }
  }

  lemma AppendKeepsIds(log: seq<Event>, e: Event)
    requires DistinctIds(log) && FreshId(e.id, log)
    ensures DistinctIds(log + [e])
  {}

  lemma TwoKeepIds(log: seq<Event>, e: Event, f: Event)
    requires DistinctIds(log) && FreshId(e.id, log) && FreshId(f.id, log) && e.id != f.id
    ensures DistinctIds(log + [e] + [f])
  {
    AppendKeepsIds(log, e);
    assert FreshId(f.id, log + [e]);
    AppendKeepsIds(log + [e], f);
  }

  lemma IdsFinish(t: Task, outcome: Outcome, id1: string, id2: string)
    requires DistinctIds(t.log) && FreshId(id1, t.log) && FreshId(id2, t.log) && id1 != id2
    ensures DistinctIds(Finish(t, outcome, id1, id2).log)
  {
    match outcome
    case Returned => AppendKeepsIds(t.log, Event(id1, t.traceId, TaskCompleted, OfTask(t.taskId, t.kind)));
    case Raised(code, retryable) =>
      TwoKeepIds(t.log, Event(id1, t.traceId, FailureKind(code), Failure(t.taskId, code)),
                 Event(id2, t.traceId, ErrorEvent, Problem(code, retryable)));
    case Broke =>
      TwoKeepIds(t.log, Event(id1, t.traceId, TaskFailed, Failure(t.taskId, InternalError)),
                 Event(id2, t.traceId, ErrorEvent, Problem(InternalError, false)));
    case Cancelled => AppendKeepsIds(t.log, Event(id1, t.traceId, TaskAborted, OfTask(t.taskId, "")));
  }

  lemma IdsStep(j: Job, a: JobAction)
    requires DistinctIds(j.task.log) && Ready(j, a)
    ensures DistinctIds(Perform(j, a).task.log)
  {
    var t := j.task;
    match a
    case DoBegin(id) => AppendKeepsIds(t.log, Event(id, t.traceId, WorkflowStarted, OfTask(t.taskId, t.kind)));
    case DoEmit(id, kind, data) => AppendKeepsIds(t.log, Event(id, t.traceId, kind, data));
    case DoFinish(outcome, id1, id2) => IdsFinish(t, outcome, id1, id2);
    case _ =>
  }

  lemma {:induction false} FinishSubs(t: Task, outcome: Outcome, id1: string, id2: string)
    requires SubsHave(t, false)
    ensures SubsHave(Finish(t, outcome, id1, id2), true)
  {
    match outcome {
      case Returned =>
        var t0 := t.(status := Completed, progress := 1.0, finished := true);
        var e := Event(id1, t.traceId, TaskCompleted, OfTask(t.taskId, t.kind));
        EmitSubs(t0, e);
        CloseSubs(Emit(t0, e));
      case Raised(code, retryable) =>
        var t0 := t.(status := Failed, errorCode := Some(code), finished := true);
        var e := Event(id1, t.traceId, FailureKind(code), Failure(t.taskId, code));
        var f := Event(id2, t.traceId, ErrorEvent, Problem(code, retryable));
        EmitSubs(t0, e);
        EmitSubs(Emit(t0, e), f);
        CloseSubs(Emit(Emit(t0, e), f));
      case Broke =>
        var t0 := t.(status := Failed, errorCode := Some(InternalError));
        var e := Event(id1, t.traceId, TaskFailed, Failure(t.taskId, InternalError));
        var f := Event(id2, t.traceId, ErrorEvent, Problem(InternalError, false));
        EmitSubs(t0, e);
        EmitSubs(Emit(t0, e), f);
        CloseSubs(Emit(Emit(t0, e), f));
      case Cancelled =>
        var t0 := t.(status := Aborted, finished := true);
        var e := Event(id1, t.traceId, TaskAborted, OfTask(t.taskId, ""));
        EmitSubs(t0, e);
        CloseSubs(Emit(t0, e));
    }
  }

  lemma SubscribeSubs(t: Task)
    requires SubsInvariant(t)
    ensures SubsInvariant(Subscribe(t))
  {
    assert t.log[..|t.log|] == t.log && t.log[|t.log|..] == [];
  }

  lemma PullSubs(t: Task, k: nat)
    requires SubsInvariant(t) && k < |t.subs|
    ensures SubInvariant(t.subs[k], t.log, IsTerminal(t.status))
    ensures SubsInvariant(Pull(t, k)) && SubsInvariant(Unsubscribe(t, k))
  {
    PullInvariant(t.subs[k], t.log, IsTerminal(t.status));
  }

  lemma SubsStep(j: Job, a: JobAction)
    requires Lifecycle(j) && SubsInvariant(j.task) && Ready(j, a)
    ensures SubsInvariant(Perform(j, a).task)
  {
    var t := j.task;
    match a
    case DoBegin(id) =>
      EmitSubs(t.(status := Running, started := true), Event(id, t.traceId, WorkflowStarted, OfTask(t.taskId, t.kind)));
    case DoEmit(id, kind, data) => EmitSubs(t, Event(id, t.traceId, kind, data));
    case DoFinish(outcome, id1, id2) => FinishSubs(t, outcome, id1, id2);
    case DoSubscribe => SubscribeSubs(t);
    case DoPull(k) => PullSubs(t, k);
    case DoDisconnect(k) => PullSubs(t, k);
    case _ =>
  }

  ghost predicate JobInvariant(j: Job) {
    Lifecycle(j) && SubsInvariant(j.task) && DistinctIds(j.task.log)
  }

  // Capacity

  lemma {:induction false} ExecutionsUpdate(jobs: seq<Job>, i: nat, j: Job)
    requires i < |jobs|
    ensures Executions(jobs[i := j]) == Executions(jobs)
              - (if jobs[i].phase == Executing then 1 else 0) + (if j.phase == Executing then 1 else 0)
  {
    var n := |jobs| - 1;
    if i < n {
      assert jobs[i := j][..n] == jobs[..n][i := j];
      ExecutionsUpdate(jobs[..n], i, j);
    } else {
      assert jobs[i := j][..n] == jobs[..n];
    }
  }

  // What single steps do to the manager

  lemma BeginStep(m: Manager, i: nat, id: string)
    requires i < |m.jobs| && m.jobs[i].phase == Waiting && FreshId(id, m.jobs[i].task.log)
    ensures var j := m.jobs[i];
            var m' := Step(m, On(i, DoBegin(id)));
            if Executions(m.jobs) < Max(1, m.maxConcurrent) && !j.cancelled
            then m'.jobs == m.jobs[i := j.(task := Begin(j.task, id), phase := Executing)]
                 && m'.maxConcurrent == m.maxConcurrent && Executions(m'.jobs) == Executions(m.jobs) + 1
            else m' == m
  {
    var j := m.jobs[i];
    ExecutionsUpdate(m.jobs, i, j.(task := Begin(j.task, id), phase := Executing));
    assert m.jobs[i := j] == m.jobs;
  }

  lemma FinishStep(m: Manager, i: nat, outcome: Outcome, id1: string, id2: string)
    requires i < |m.jobs| && m.jobs[i].phase == Executing
    requires FreshId(id1, m.jobs[i].task.log) && FreshId(id2, m.jobs[i].task.log) && id1 != id2
    ensures var j := m.jobs[i];
            var m' := Step(m, On(i, DoFinish(outcome, id1, id2)));
            && m'.jobs == m.jobs[i := j.(task := Finish(j.task, outcome, id1, id2), phase := Over)]
            && m'.maxConcurrent == m.maxConcurrent && Executions(m'.jobs) == Executions(m.jobs) - 1
  {
    var j := m.jobs[i];
    ExecutionsUpdate(m.jobs, i, j.(task := Finish(j.task, outcome, id1, id2), phase := Over));
  }

  lemma AbortStep(m: Manager, i: nat)
    requires i < |m.jobs|
    ensures var j := m.jobs[i];
            var m' := Step(m, On(i, DoAbort));
            if IsTerminal(j.task.status) || j.phase == Over then m' == m
            else m'.jobs == m.jobs[i := j.(cancelled := true)]
                 && m'.maxConcurrent == m.maxConcurrent && Executions(m'.jobs) == Executions(m.jobs)
  {
    var j := m.jobs[i];
    ExecutionsUpdate(m.jobs, i, j.(cancelled := true));
    assert m.jobs[i := j] == m.jobs;
  }

  ghost predicate Invariant(m: Manager) {
    && Executions(m.jobs) <= Max(1, m.maxConcurrent)
    && Each(m.jobs, JobInvariant)
  }

  lemma JobInvariantStep(j: Job, a: JobAction, permit: bool)
    requires JobInvariant(j)
    ensures JobInvariant(JobStep(j, a, permit))
  {
    if Ready(j, a) {
      LifecycleStep(j, a);
      SubsStep(j, a);
      IdsStep(j, a);
    }
  }

  lemma SubmitInvariant(m: Manager, taskId: string, traceId: string, kind: string)
    requires Invariant(m)
    ensures Invariant(Step(m, Submit(taskId, traceId, kind)))
  {
    var j := Job(NewTask(taskId, traceId, kind), Waiting, false);
    assert (m.jobs + [j])[..|m.jobs|] == m.jobs;
    EachAdd(m.jobs, j, JobInvariant);
  }

  lemma OnInvariant(m: Manager, i: nat, what: JobAction)
    requires Invariant(m) && i < |m.jobs|
    ensures Invariant(Step(m, On(i, what)))
  {
    var permit := Executions(m.jobs) < Capacity(m);
    var j' := JobStep(m.jobs[i], what, permit);
    JobInvariantStep(m.jobs[i], what, permit);
    assert m.jobs[i].phase != Executing && j'.phase == Executing ==> permit;
    ExecutionsUpdate(m.jobs, i, j');
    EachUpdate(m.jobs, i, j', JobInvariant);
  }

  lemma StepInvariant(m: Manager, a: Action)
    requires Invariant(m)
    ensures Invariant(Step(m, a))
  {
    match a
    case Submit(taskId, traceId, kind) => SubmitInvariant(m, taskId, traceId, kind);
    case On(i, what) => if i < |m.jobs| { OnInvariant(m, i, what); }
  }

  ghost predicate Initial(m: Manager) { m.jobs == [] }

  /** In every reachable state no more tasks run than the semaphore admits, every task is
      somewhere on its life line, and every subscriber's snapshot and queue make up the log. */
  lemma {:induction false} RunInvariant(m: Manager, actions: seq<Action>)
    requires Initial(m)
    ensures Invariant(Run(m, actions))
  {
    if actions != [] {
      RunInvariant(m, actions[..|actions| - 1]);
      StepInvariant(Run(m, actions[..|actions| - 1]), actions[|actions| - 1]);
    }
  }

  // How a task may change

  function Rank(s: Status): nat {
    match s
    case Queued => 0
    case Running => 1
    case _ => 2
  }

  /** A task without those who listen to it. */
  function Unheard(t: Task): Task { t.(subs := []) }

  /** What may lie between two states of a job. */
  ghost predicate Evolves(j: Job, k: Job) {
    && (j.task.status == k.task.status || Rank(j.task.status) < Rank(k.task.status))
    && j.task.log <= k.task.log
    && (IsTerminal(j.task.status) ==> k.phase == j.phase && Unheard(k.task) == Unheard(j.task))
    && (j.task.status == Queued && j.cancelled ==> k.task.status == Queued && k.cancelled && k.task.log == [])
  }

  lemma JobEvolves(j: Job, a: JobAction)
    requires Lifecycle(j) && Ready(j, a)
    ensures Evolves(j, Perform(j, a))
  {}

  lemma StepEvolves(m: Manager, a: Action, i: nat)
    requires Invariant(m) && i < |m.jobs|
    ensures i < |Step(m, a).jobs| && Evolves(m.jobs[i], Step(m, a).jobs[i])
  {
    if a.On? && a.i == i {
      if Ready(m.jobs[i], a.what) { JobEvolves(m.jobs[i], a.what); }
    } else {
      assert Step(m, a).jobs[i] == m.jobs[i];
    }
  }

  lemma EvolvesOn(j: Job, k: Job, l: Job)
    requires Evolves(j, k) && Evolves(k, l)
    ensures Evolves(j, l)
  {}

  lemma {:induction false} RunEvolves(m: Manager, actions: seq<Action>, n: nat, i: nat)
    requires Initial(m) && n <= |actions| && i < |Run(m, actions[..n]).jobs|
    ensures i < |Run(m, actions).jobs|
    ensures Evolves(Run(m, actions[..n]).jobs[i], Run(m, actions).jobs[i])
  {
    if n == |actions| {
      WholePrefix(actions);
      RunInvariant(m, actions);
    } else {
      var init, last := actions[..|actions| - 1], actions[|actions| - 1];
      assert init[..n] == actions[..n];
      RunEvolves(m, init, n, i);
      RunInvariant(m, init);
      StepEvolves(Run(m, init), last, i);
      EvolvesOn(Run(m, actions[..n]).jobs[i], Run(m, init).jobs[i], Run(m, actions).jobs[i]);
    }
  }

  /** A status only moves on: queued, running, one terminal status. Events are only added,
      and after the terminal status nothing changes but who listens. */
  lemma StatusMovesForward(m: Manager, actions: seq<Action>, n: nat, i: nat)
    requires Initial(m) && n <= |actions| && i < |Run(m, actions[..n]).jobs|
    ensures i < |Run(m, actions).jobs|
    ensures var t, t' := Run(m, actions[..n]).jobs[i].task, Run(m, actions).jobs[i].task;
            && (t.status == t'.status || Rank(t.status) < Rank(t'.status))
            && t.log <= t'.log
            && (IsTerminal(t.status) ==> Unheard(t') == Unheard(t))
  {
    RunEvolves(m, actions, n, i);
  }

  lemma {:induction false} AbortedStaysQueued(m: Manager, actions: seq<Action>, n: nat, i: nat)
    requires Initial(m) && n < |actions| && i < |Run(m, actions[..n]).jobs|
    requires Run(m, actions[..n]).jobs[i].phase == Waiting && actions[n] == On(i, DoAbort)
    ensures i < |Run(m, actions).jobs|
    ensures Run(m, actions).jobs[i].task.status == Queued && Run(m, actions).jobs[i].task.log == []
  {
    var before := Run(m, actions[..n]);
    RunInvariant(m, actions[..n]);
    PrefixStep(actions, n);
    AbortStep(before, i);
    assert Run(m, actions[..n + 1]) == Step(before, actions[n]);
    RunEvolves(m, actions, n + 1, i);
  }

  lemma NothingToPull(t: Task)
    requires SubsInvariant(t) && t.status == Queued && t.log == []
    ensures forall k | 0 <= k < |t.subs| :: Shaped(t.subs[k]) && PullResult(t.subs[k]) == Blocked
  {
    forall k | 0 <= k < |t.subs| ensures Shaped(t.subs[k]) && PullResult(t.subs[k]) == Blocked {
      PullMeaning(t.subs[k], t.log, false);
    }
  }

  /** A task aborted while it waits for the semaphore stays queued for ever, without a single
      event: its subscribers are never told. */
  lemma {:induction false} AbortedWhileWaitingIsSilent(m: Manager, actions: seq<Action>, n: nat, i: nat)
    requires Initial(m) && n < |actions| && i < |Run(m, actions[..n]).jobs|
    requires Run(m, actions[..n]).jobs[i].phase == Waiting && actions[n] == On(i, DoAbort)
    ensures i < |Run(m, actions).jobs|
    ensures var t := Run(m, actions).jobs[i].task;
            && t.status == Queued && t.log == []
            && forall k | 0 <= k < |t.subs| :: Shaped(t.subs[k]) && PullResult(t.subs[k]) == Blocked
  {
    AbortedStaysQueued(m, actions, n, i);
    RunInvariant(m, actions);
    NothingToPull(Run(m, actions).jobs[i].task);
  }

  // What a task ends as

  /** At action k the runner of task i ends. */
  ghost predicate Ends(m: Manager, actions: seq<Action>, i: nat, k: nat) {
    && k < |actions| && i < |Run(m, actions[..k]).jobs|
    && actions[k].On? && actions[k].i == i && actions[k].what.DoFinish?
    && Ready(Run(m, actions[..k]).jobs[i], actions[k].what)
  }

  lemma OnlyTheRunnerEnds(j: Job, a: JobAction)
    requires Lifecycle(j) && Ready(j, a) && !IsTerminal(j.task.status) && IsTerminal(Perform(j, a).task.status)
    ensures a.DoFinish?
  {}

  lemma {:induction false} EndedMeansEnds(m: Manager, actions: seq<Action>, i: nat)
    requires Initial(m) && i < |Run(m, actions).jobs| && IsTerminal(Run(m, actions).jobs[i].task.status)
    ensures exists k: nat :: Ends(m, actions, i, k)
  {
    var n := |actions| - 1;
    var init, before := actions[..n], Run(m, actions[..n]);
    if i < |before.jobs| && IsTerminal(before.jobs[i].task.status) {
      EndedMeansEnds(m, init, i);
      var k: nat :| Ends(m, init, i, k);
      assert init[..k] == actions[..k];
      assert Ends(m, actions, i, k);
    } else {
      RunInvariant(m, init);
      LastEnds(before, actions[n], i);
      assert Ends(m, actions, i, n);
    }
  }

  lemma LastEnds(m: Manager, a: Action, i: nat)
    requires Invariant(m) && (i < |m.jobs| ==> !IsTerminal(m.jobs[i].task.status))
    requires i < |Step(m, a).jobs| && IsTerminal(Step(m, a).jobs[i].task.status)
    ensures i < |m.jobs| && a.On? && a.i == i && a.what.DoFinish? && Ready(m.jobs[i], a.what)
  {
    if a.On? && a.i == i {
      if Ready(m.jobs[i], a.what) { OnlyTheRunnerEnds(m.jobs[i], a.what); }
    }
  }

  /** Where a runner ended, its outcome has made the task what it is, and will stay. */
  lemma {:induction false} EndedAsItIs(m: Manager, actions: seq<Action>, i: nat, k: nat)
    requires Initial(m) && Ends(m, actions, i, k)
    ensures i < |Run(m, actions).jobs|
    ensures var a := actions[k].what;
            var t := Finish(Run(m, actions[..k]).jobs[i].task, a.outcome, a.id1, a.id2);
            IsTerminal(t.status) && Unheard(Run(m, actions).jobs[i].task) == Unheard(t)
  {
    PrefixStep(actions, k);
    assert Run(m, actions[..k + 1]) == Step(Run(m, actions[..k]), actions[k]);
    RunEvolves(m, actions, k + 1, i);
  }

  lemma {:induction false} EndsOnce(m: Manager, actions: seq<Action>, i: nat, k: nat, l: nat)
    requires Initial(m) && Ends(m, actions, i, k) && Ends(m, actions, i, l)
    ensures k == l
  {
    if k < l {
      NotAgain(m, actions, i, k, l);
    } else if l < k {
      NotAgain(m, actions, i, l, k);
    }
  }

  lemma {:induction false} NotAgain(m: Manager, actions: seq<Action>, i: nat, k: nat, l: nat)
    requires Initial(m) && Ends(m, actions, i, k) && k < l < |actions| && i < |Run(m, actions[..l]).jobs|
    ensures Run(m, actions[..l]).jobs[i].phase != Executing
  {
    var part := actions[..l];
    assert part[..k] == actions[..k];
    assert Ends(m, part, i, k);
    EndedAsItIs(m, part, i, k);
    RunInvariant(m, part);
  }

  /** A task has ended exactly when its runner has, once, and that outcome alone decides what
      it ended as: aborted exactly when a cancellation came through, and with a time of its
      end exactly when it was no unclassified exception. */
  lemma {:induction false} OutcomeDecides(m: Manager, actions: seq<Action>, i: nat)
    requires Initial(m) && i < |Run(m, actions).jobs|
    ensures var t := Run(m, actions).jobs[i].task;
            && (IsTerminal(t.status) <==> exists k: nat :: Ends(m, actions, i, k))
            && (forall k: nat, l: nat | Ends(m, actions, i, k) && Ends(m, actions, i, l) :: k == l)
            && forall k: nat | Ends(m, actions, i, k) :: EndedBy(t, Run(m, actions[..k]).jobs[i].task, actions[k].what)
  {
    if IsTerminal(Run(m, actions).jobs[i].task.status) { EndedMeansEnds(m, actions, i); }
    forall k: nat, l: nat | Ends(m, actions, i, k) && Ends(m, actions, i, l) ensures k == l {
      EndsOnce(m, actions, i, k, l);
    }
    forall k: nat | Ends(m, actions, i, k)
      ensures EndedBy(Run(m, actions).jobs[i].task, Run(m, actions[..k]).jobs[i].task, actions[k].what)
    {
      EndsAsItIs(m, actions, i, k);
    }
  }

  lemma EndsAsItIs(m: Manager, actions: seq<Action>, i: nat, k: nat)
    requires Initial(m) && Ends(m, actions, i, k)
    ensures i < |Run(m, actions).jobs|
    ensures EndedBy(Run(m, actions).jobs[i].task, Run(m, actions[..k]).jobs[i].task, actions[k].what)
  {
    RunInvariant(m, actions[..k]);
    EndedAsItIs(m, actions, i, k);
  }

  /** What a task is for good once its runner ended: status, code, time of the end, and the one
      or two events that close the log. */
  ghost predicate EndedBy(t: Task, before: Task, a: JobAction)
    requires a.DoFinish?
  {
    var n := |before.log|;
    && IsTerminal(t.status) && before.log < t.log && t.started == before.started
    && (t.finished <==> !a.outcome.Broke?)
    && match a.outcome
       case Returned =>
         t.status == Completed && t.errorCode == before.errorCode && t.progress == 1.0
         && |t.log| == n + 1 && t.log[n].kind == TaskCompleted
       case Raised(code, retryable) =>
         t.status == Failed && t.errorCode == Some(code)
         && |t.log| == n + 2 && t.log[n].kind == FailureKind(code)
         && t.log[n + 1].kind == ErrorEvent && t.log[n + 1].data == Problem(code, retryable)
       case Broke =>
         t.status == Failed && t.errorCode == Some(InternalError)
         && |t.log| == n + 2 && t.log[n].kind == TaskFailed
         && t.log[n + 1].kind == ErrorEvent && t.log[n + 1].data == Problem(InternalError, false)
       case Cancelled =>
         t.status == Aborted && t.errorCode == before.errorCode
         && |t.log| == n + 1 && t.log[n].kind == TaskAborted
  }

  // What abort achieves

  predicate LastIs(log: seq<Event>, kind: EventType) {
    log != [] && log[|log| - 1].kind == kind
  }

  /** How a live task that was aborted goes on: one that waited stays queued, without an event.
      One that executed ends aborted, with task.aborted as its last event, exactly when its
      runner let the cancellation through. */
  ghost predicate GoesOn(j: Job, k: Job, letThrough: bool) {
    if j.phase == Waiting then k.task.status == Queued && k.task.log == []
    else
      && (k.phase == Over <==> IsTerminal(k.task.status))
      && (k.task.status == Aborted <==> letThrough)
      && (k.phase == Over ==> (LastIs(k.task.log, TaskAborted) <==> letThrough))
  }

  lemma LastShows(j: Job, k: Job)
    requires Lifecycle(j) && Lifecycle(k) && Evolves(j, k) && j.phase == Executing
    ensures GoesOn(j, k, k.task.status == Aborted)
  {}

  /** The runner of task i let a cancellation through after action n. */
  ghost predicate LetThrough(m: Manager, actions: seq<Action>, i: nat, n: nat) {
    exists k: nat :: n < k && Ends(m, actions, i, k) && actions[k].what.outcome == Cancelled
  }

  lemma {:induction false} LetThroughShows(m: Manager, actions: seq<Action>, n: nat, i: nat)
    requires Initial(m) && n < |actions| && i < |Run(m, actions[..n]).jobs| && actions[n] == On(i, DoAbort)
    requires Run(m, actions[..n]).jobs[i].phase == Executing
    ensures i < |Run(m, actions).jobs|
    ensures Run(m, actions).jobs[i].task.status == Aborted <==> LetThrough(m, actions, i, n)
  {
    RunEvolves(m, actions, n, i);
    if Run(m, actions).jobs[i].task.status == Aborted {
      EndedMeansEnds(m, actions, i);
      var k: nat :| Ends(m, actions, i, k);
      EndedAsItIs(m, actions, i, k);
      if k < n { NotAgain(m, actions, i, k, n); }
    }
    if LetThrough(m, actions, i, n) {
      var k: nat :| n < k && Ends(m, actions, i, k) && actions[k].what.outcome == Cancelled;
      EndedAsItIs(m, actions, i, k);
    }
  }

  /** What aborting a live task at action n comes to, over the whole run. */
  lemma {:induction false} AbortOutcome(m: Manager, actions: seq<Action>, n: nat, i: nat)
    requires Initial(m) && n < |actions| && i < |Run(m, actions[..n]).jobs| && actions[n] == On(i, DoAbort)
    requires Ready(Run(m, actions[..n]).jobs[i], DoAbort)
    ensures i < |Run(m, actions).jobs|
    ensures GoesOn(Run(m, actions[..n]).jobs[i], Run(m, actions).jobs[i], LetThrough(m, actions, i, n))
  {
    RunEvolves(m, actions, n, i);
    if Run(m, actions[..n]).jobs[i].phase == Waiting {
      AbortedStaysQueued(m, actions, n, i);
    } else {
      RunInvariant(m, actions[..n]);
      RunInvariant(m, actions);
      LetThroughShows(m, actions, n, i);
      LastShows(Run(m, actions[..n]).jobs[i], Run(m, actions).jobs[i]);
    }
  }

  /** An id longer than every one in the log. */
  function LongestId(log: seq<Event>): nat {
    if log == [] then 0 else Max(LongestId(log[..|log| - 1]), |log[|log| - 1].id|)
  }

  lemma {:induction false} LongIdIsFresh(log: seq<Event>, id: string)
    requires |id| > LongestId(log)
    ensures FreshId(id, log)
  {
    if log != [] {
      LongIdIsFresh(log[..|log| - 1], id);
      assert forall i | 0 <= i < |log| - 1 :: log[..|log| - 1][i] == log[i];
    }
  }

  /** A runner that lets the cancellation through makes the task aborted. */
  lemma {:induction false} CancelThrough(m: Manager, actions: seq<Action>, i: nat) returns (last: Action)
    requires Initial(m) && i < |Run(m, actions).jobs| && Run(m, actions).jobs[i].phase == Executing
    ensures var after := Run(m, actions + [On(i, DoAbort)] + [last]);
            i < |after.jobs| && after.jobs[i].task.status == Aborted
  {
    var log := Run(m, actions).jobs[i].task.log;
    var n := LongestId(log);
    var id1, id2 := seq(n + 1, _ => 'x'), seq(n + 2, _ => 'x');
    LongIdIsFresh(log, id1);
    LongIdIsFresh(log, id2);
    assert |id1| != |id2|;
    last := On(i, DoFinish(Cancelled, id1, id2));
    var aborted := actions + [On(i, DoAbort)];
    assert aborted[..|actions|] == actions;
    assert (aborted + [last])[..|aborted|] == aborted;
  }

  /** Aborting a live task can lead to an aborted one exactly when it is executing. */
  lemma {:induction false} CanEndAborted(m: Manager, actions: seq<Action>, i: nat)
    requires Initial(m) && i < |Run(m, actions).jobs| && Ready(Run(m, actions).jobs[i], DoAbort)
    ensures (exists more: seq<Action> :: EndsAborted(m, actions + [On(i, DoAbort)] + more, i))
            <==> Run(m, actions).jobs[i].phase == Executing
  {
    var aborted := actions + [On(i, DoAbort)];
    if Run(m, actions).jobs[i].phase == Executing {
      var last := CancelThrough(m, actions, i);
      assert EndsAborted(m, aborted + [last], i);
    } else {
      forall more: seq<Action> ensures !EndsAborted(m, aborted + more, i) {
        var all := aborted + more;
        assert all[..|actions|] == actions && all[|actions|] == On(i, DoAbort);
        AbortOutcome(m, all, |actions|, i);
      }
    }
  }

  /** Task i is aborted after these actions. */
  ghost predicate EndsAborted(m: Manager, actions: seq<Action>, i: nat) {
    i < |Run(m, actions).jobs| && Run(m, actions).jobs[i].task.status == Aborted
  }

  /** Submitted and aborted before its turn: queued, whatever follows. */
  lemma {:induction false} AbortedInVain(more: seq<Action>)
    ensures var after := Run(Manager(1, []), [Submit("t", "trace", "research"), On(0, DoAbort)] + more);
            0 < |after.jobs| && after.jobs[0].task.status == Queued && after.jobs[0].task.log == []
  {
    var m, submit, abort := Manager(1, []), Submit("t", "trace", "research"), On(0, DoAbort);
    OneAction(m, submit);
    assert ([submit, abort] + more)[..1] == [submit];
    AbortOutcome(m, [submit, abort] + more, 1, 0);
  }

  /** A runner that returns in spite of being cancelled completes. */
  lemma {:induction false} CancelledAndCompleted()
    ensures var actions := [Submit("t", "trace", "research"), On(0, DoBegin("a")), On(0, DoAbort),
                            On(0, DoFinish(Returned, "b", "c"))];
            var after := Run(Manager(1, []), actions);
            0 < |after.jobs| && after.jobs[0].cancelled && after.jobs[0].task.status == Completed
  {
    var m, submit := Manager(1, []), Submit("t", "trace", "research");
    var begin, abort := On(0, DoBegin("a")), On(0, DoAbort);
    var end := On(0, DoFinish(Returned, "b", "c"));
    OneAction(m, submit);
    var queued := Run(m, [submit]);
    assert queued.jobs[..0] == [];
    assert [submit, begin][..1] == [submit];
    BeginStep(queued, 0, "a");
    var running := Run(m, [submit, begin]);
    assert running.jobs[0].task.log == [Event("a", "trace", WorkflowStarted, OfTask("t", "research"))];
    assert [submit, begin, abort][..2] == [submit, begin];
    AbortStep(running, 0);
    var cancelled := Run(m, [submit, begin, abort]);
    assert [submit, begin, abort, end][..3] == [submit, begin, abort];
    FinishStep(cancelled, 0, Returned, "b", "c");
  }

  lemma OneAction(m: Manager, a: Action)
    ensures Run(m, [a]) == Step(m, a)
  {
    assert [a][..0] == [];
  }

  // Closing events

  /** A runner leaves the manager's own events alone, as every runner of the repository does. */
  predicate Tame(a: Action) {
    a.On? && a.what.DoEmit? ==> !Terminal(a.what.kind) && a.what.kind != WorkflowStarted
  }

  /** The one place a terminal event has: last, or before the error event of a failure. */
  function EndAt(t: Task): int {
    |t.log| - if t.status == Failed then 2 else 1
  }

  ghost predicate TameEvents(log: seq<Event>, end: int) {
    && (forall i | 0 <= i < |log| :: log[i].kind == WorkflowStarted <==> i == 0)
    && (forall i | 0 <= i < |log| :: Terminal(log[i].kind) <==> i == end)
  }

  ghost predicate TameLog(t: Task) {
    TameEvents(t.log, if IsTerminal(t.status) then EndAt(t) else -1)
  }

  lemma TameAppend(log: seq<Event>, end: int, e: Event)
    requires TameEvents(log, end) && end < |log| && log != []
    requires e.kind != WorkflowStarted && (Terminal(e.kind) ==> end == -1)
    ensures TameEvents(log + [e], if Terminal(e.kind) then |log| else end)
  {}

  lemma TameFailure(log: seq<Event>, e: Event, f: Event)
    requires TameEvents(log, -1) && log != [] && Terminal(e.kind) && f.kind == ErrorEvent
    ensures TameEvents(log + [e] + [f], |log|)
  {
    TameAppend(log, -1, e);
    TameAppend(log + [e], |log|, f);
  }

  lemma TameFinish(t: Task, outcome: Outcome, id1: string, id2: string)
    requires t.log != [] && TameEvents(t.log, -1)
    ensures TameLog(Finish(t, outcome, id1, id2))
  {
    match outcome
    case Returned => TameAppend(t.log, -1, Event(id1, t.traceId, TaskCompleted, OfTask(t.taskId, t.kind)));
    case Raised(code, retryable) =>
      TameFailure(t.log, Event(id1, t.traceId, FailureKind(code), Failure(t.taskId, code)),
                  Event(id2, t.traceId, ErrorEvent, Problem(code, retryable)));
    case Broke =>
      TameFailure(t.log, Event(id1, t.traceId, TaskFailed, Failure(t.taskId, InternalError)),
                  Event(id2, t.traceId, ErrorEvent, Problem(InternalError, false)));
    case Cancelled => TameAppend(t.log, -1, Event(id1, t.traceId, TaskAborted, OfTask(t.taskId, "")));
  }

  lemma TameBegin(t: Task, id: string)
    requires TameLog(t) && t.log == []
    ensures TameLog(Begin(t, id))
  {
    assert Begin(t, id).log == [Event(id, t.traceId, WorkflowStarted, OfTask(t.taskId, t.kind))];
  }

  lemma TameStep(j: Job, a: JobAction)
    requires Lifecycle(j) && TameLog(j.task) && Tame(On(0, a)) && Ready(j, a)
    ensures TameLog(Perform(j, a).task)
  {
    var t := j.task;
    match a
    case DoBegin(id) => TameBegin(t, id);
    case DoEmit(id, kind, data) => TameAppend(t.log, -1, Event(id, t.traceId, kind, data));
    case DoFinish(outcome, id1, id2) => TameFinish(t, outcome, id1, id2);
    case _ =>
  }

  /** The log has exactly one workflow.started, at its head, and exactly one terminal event
      when the status is terminal, none before. */
  lemma {:induction false} OneTerminalEvent(m: Manager, actions: seq<Action>, i: nat)
    requires Initial(m) && (forall a | a in actions :: Tame(a)) && i < |Run(m, actions).jobs|
    ensures TameLog(Run(m, actions).jobs[i].task)
  {
    if actions != [] {
      var init, last := actions[..|actions| - 1], actions[|actions| - 1];
      var before := Run(m, init);
      RunInvariant(m, init);
      assert Tame(last);
      if i < |before.jobs| {
        OneTerminalEvent(m, init, i);
        if last.On? && last.i == i {
          if Ready(before.jobs[i], last.what) { TameStep(before.jobs[i], last.what); }
        } else {
          assert Run(m, actions).jobs[i] == before.jobs[i];
        }
      }
    }
  }

  // Subscribers do not see each other

  predicate ServerAction(a: JobAction) {
    a.DoBegin? || a.DoEmit? || a.DoSetProgress? || a.DoFinish? || a.DoAbort? || a.DoDrop?
  }

  /** A task, or a job, as its k-th subscriber sees it. */
  function Seen(t: Task, k: nat): Task
    requires k < |t.subs|
  {
    t.(subs := [t.subs[k]])
  }

  function SeenBy(j: Job, k: nat): Job
    requires k < |j.task.subs|
  {
    j.(task := Seen(j.task, k))
  }

  lemma SeenFan(t: Task, k: nat, items: seq<Item>)
    requires k < |t.subs|
    ensures Fan(Seen(t, k), items) == Seen(Fan(t, items), k)
  {
    assert Map(Hear(items), [t.subs[k]]) == [Map(Hear(items), t.subs)[k]];
  }

  lemma SeenEmit(t: Task, k: nat, e: Event)
    requires k < |t.subs|
    ensures Emit(Seen(t, k), e) == Seen(Emit(t, e), k)
  {
    SeenFan(t.(log := t.log + [e]), k, [Put(e)]);
  }

  lemma SeenFailure(t: Task, k: nat, e: Event, f: Event)
    requires k < |t.subs|
    ensures Close(Emit(Emit(Seen(t, k), e), f)) == Seen(Close(Emit(Emit(t, e), f)), k)
  {
    SeenEmit(t, k, e);
    SeenEmit(Emit(t, e), k, f);
    SeenFan(Emit(Emit(t, e), f), k, [Sentinel]);
  }

  lemma SeenEnd(t: Task, k: nat, e: Event)
    requires k < |t.subs|
    ensures Close(Emit(Seen(t, k), e)) == Seen(Close(Emit(t, e)), k)
  {
    SeenEmit(t, k, e);
    SeenFan(Emit(t, e), k, [Sentinel]);
  }

  lemma SeenFinish(t: Task, k: nat, outcome: Outcome, id1: string, id2: string)
    requires k < |t.subs|
    ensures Finish(Seen(t, k), outcome, id1, id2) == Seen(Finish(t, outcome, id1, id2), k)
  {
    match outcome
    case Returned =>
      SeenEnd(t.(status := Completed, progress := 1.0, finished := true), k,
              Event(id1, t.traceId, TaskCompleted, OfTask(t.taskId, t.kind)));
    case Raised(code, retryable) =>
      SeenFailure(t.(status := Failed, errorCode := Some(code), finished := true), k,
                  Event(id1, t.traceId, FailureKind(code), Failure(t.taskId, code)),
                  Event(id2, t.traceId, ErrorEvent, Problem(code, retryable)));
    case Broke =>
      SeenFailure(t.(status := Failed, errorCode := Some(InternalError)), k,
                  Event(id1, t.traceId, TaskFailed, Failure(t.taskId, InternalError)),
                  Event(id2, t.traceId, ErrorEvent, Problem(InternalError, false)));
    case Cancelled =>
      SeenEnd(t.(status := Aborted, finished := true), k, Event(id1, t.traceId, TaskAborted, OfTask(t.taskId, "")));
  }

  /** What happens to one subscriber does not depend on there being others. */
  lemma SubscribersAreIndependent(j: Job, a: JobAction, k: nat)
    requires ServerAction(a) && Ready(j, a) && k < |j.task.subs|
    ensures Ready(SeenBy(j, k), a)
    ensures |Perform(j, a).task.subs| == |j.task.subs|
    ensures Perform(SeenBy(j, k), a) == SeenBy(Perform(j, a), k)
  {
    var t := j.task;
    match a
    case DoBegin(id) =>
      SeenEmit(t.(status := Running, started := true), k,
               Event(id, t.traceId, WorkflowStarted, OfTask(t.taskId, t.kind)));
    case DoEmit(id, kind, data) => SeenEmit(t, k, Event(id, t.traceId, kind, data));
    case DoFinish(outcome, id1, id2) => SeenFinish(t, k, outcome, id1, id2);
    case _ =>
  }
}
