/** The objects of src/finsage/api/tasks.py, each method proved against the step functions of
    TaskBus. */
module TaskHandles {
  import opened Options
  import opened Seqs
  import opened Events
  import TaskBus

  type Item = TaskBus.Item
  type Sub = TaskBus.Sub

  /** A subscription: its queue and the generator that replays the snapshot, then drains it. */
  class Stream {
    const ordered: seq<Event>
    const terminal: bool
    var queue: seq<Item>
    var next: nat
    ghost var put: seq<Item>

    ghost predicate Valid()
      reads this
    {
      && |queue| <= |put| && queue == put[|put| - |queue|..]
      && TaskBus.Shaped(Sub.Sub(ordered, terminal, put, next, |put| - |queue|))
    }

    ghost function Abs(): Sub
      reads this
      requires Valid()
    {
      Sub.Sub(ordered, terminal, put, next, |put| - |queue|)
    }

    constructor (ordered: seq<Event>, terminal: bool)
      ensures Valid() && Abs() == Sub.Sub(ordered, terminal, [], 0, 0)
    {
      this.ordered, this.terminal := ordered, terminal;
      queue, next, put := [], 0, [];
    }

    method PutNowait(item: Item)
      requires Valid()
      modifies this
      ensures Valid() && Abs() == TaskBus.Hear([item])(old(Abs()))
    {
      queue := queue + [item];
      put := put + [item];
    }

    /** Runs the generator to its next yield, its return, or its wait on the queue. */
    method Resume() returns (r: TaskBus.Pulled)
      requires Valid()
      modifies this
      ensures r == TaskBus.PullResult(old(Abs()))
      ensures Valid() && Abs() == TaskBus.PullNext(old(Abs()))
    {
      if next < |ordered| {
        r := TaskBus.Yield(ordered[next]);
        next := next + 1;
        return;
      }
      if terminal {
        return TaskBus.Finished;
      }
      if queue == [] {
        return TaskBus.Blocked;
      }
      if queue[0] == TaskBus.Sentinel {
        return TaskBus.Finished;
      }
      r := TaskBus.Yield(queue[0].event);
      queue := queue[1..];
    }
  }

  /** `model` is the value the object stands for. */
  class TaskHandle {
    const taskId: string
    const traceId: string
    const kind: string
    var status: TaskBus.Status
    var progress: real
    var errorCode: Option<Code>
    var started: bool
    var finished: bool
    var buffer: seq<Event>
    var subscribers: seq<Stream>
    ghost var model: TaskBus.Task

    ghost predicate Streams()
      reads this, subscribers
    {
      && Distinct(subscribers) && |model.subs| == |subscribers|
      && forall k | 0 <= k < |subscribers| :: subscribers[k].Valid() && subscribers[k].Abs() == model.subs[k]
    }

    ghost predicate Valid()
      reads this, subscribers
    {
      && model == TaskBus.Task(taskId, traceId, kind, status, progress, errorCode, started, finished,
                               buffer, model.subs)
      && Streams()
    }

    constructor (taskId: string, traceId: string, kind: string)
      ensures Valid() && subscribers == []
      ensures model == TaskBus.NewTask(taskId, traceId, kind)
    {
      this.taskId, this.traceId, this.kind := taskId, traceId, kind;
      status, progress, errorCode := TaskBus.Queued, 0.0, None;
      started, finished := false, false;
      buffer, subscribers := [], [];
      model := TaskBus.NewTask(taskId, traceId, kind);
    }

    /** Puts the item on every queue. */
    method PutAll(item: Item)
      requires Valid()
      modifies this`model, subscribers
      ensures Valid() && model == TaskBus.Fan(old(model), [item])
    {
      ghost var was, now := model.subs, Map(TaskBus.Hear([item]), model.subs);
      model := model.(subs := now);
      for i := 0 to |subscribers|
        invariant model == old(model).(subs := now)
        invariant forall k | 0 <= k < |subscribers| ::
                    subscribers[k].Valid() && subscribers[k].Abs() == if k < i then now[k] else was[k]
      {
        subscribers[i].PutNowait(item);
      }
    }

    method Emit(id: string, eventType: EventType, data: Data) returns (event: Event)
      requires Valid()
      modifies this`buffer, this`model, subscribers
      ensures event == Event(id, traceId, eventType, data)
      ensures Valid() && model == TaskBus.Emit(old(model), event)
    {
      event := Event(id, traceId, eventType, data);
      buffer := buffer + [event];
      model := model.(log := buffer);
      PutAll(TaskBus.Put(event));
    }

    method SetProgress(value: real)
      requires Valid()
      modifies this`progress, this`model
      ensures Valid() && model == TaskBus.SetProgress(old(model), value)
    {
      var capped := if value < 1.0 then value else 1.0;
      progress := if capped > 0.0 then capped else 0.0;
      model := model.(progress := progress);
    }

    method Subscribe() returns (s: Stream)
      requires Valid()
      modifies this`subscribers, this`model
      ensures fresh(s) && subscribers == old(subscribers) + [s]
      ensures Valid() && model == TaskBus.Subscribe(old(model))
    {
      var terminal := status == TaskBus.Completed || status == TaskBus.Failed || status == TaskBus.Aborted;
      s := new Stream(buffer, terminal);
      subscribers := subscribers + [s];
      model := TaskBus.Subscribe(model);
    }

    /** list.remove looks for the first occurrence. */
    method IndexOf(s: Stream) returns (k: nat)
      requires s in subscribers
      ensures k < |subscribers| && subscribers[k] == s
    {
      k := 0;
      while subscribers[k] != s
        invariant 0 <= k < |subscribers| && s in subscribers[k..]
        decreases |subscribers| - k
      {
        k := k + 1;
      }
    }

    /** The generator's finally clause. */
    method Remove(k: nat)
      requires Valid() && k < |subscribers|
      modifies this`subscribers, this`model
      ensures subscribers == Without(old(subscribers), k)
      ensures Valid() && model == TaskBus.Unsubscribe(old(model), k)
    {
      DistinctWithout(subscribers, k);
      subscribers := Without(subscribers, k);
      model := TaskBus.Unsubscribe(model, k);
    }

    /** Resumes one generator. */
    method Advance(k: nat) returns (r: TaskBus.Pulled)
      requires Valid() && k < |subscribers|
      modifies this`model, subscribers[k]
      ensures r == TaskBus.PullResult(old(model).subs[k])
      ensures Valid() && model == old(model).(subs := old(model).subs[k := TaskBus.PullNext(old(model).subs[k])])
    {
      ghost var was := model.subs;
      var s := subscribers[k];
      r := s.Resume();
      model := model.(subs := was[k := TaskBus.PullNext(was[k])]);
      forall n | 0 <= n < |subscribers|
        ensures subscribers[n].Valid() && subscribers[n].Abs() == model.subs[n]
      {
        if n != k { assert subscribers[n] != s && unchanged(subscribers[n]); }
      }
    }

    /** One step of a connection: resumes its generator and, if that returned, unsubscribes. */
    method Pull(s: Stream) returns (r: TaskBus.Pulled, k: nat)
      requires Valid() && s in subscribers
      modifies this`subscribers, this`model, s
      ensures k < |old(subscribers)| && old(subscribers)[k] == s
      ensures r == TaskBus.PullResult(old(model).subs[k])
      ensures Valid() && model == TaskBus.Pull(old(model), k)
    {
      k := IndexOf(s);
      r := Advance(k);
      if r.Finished? {
        assert model.subs == old(model).subs;
        Remove(k);
      }
    }

    /** The first half of _execute, up to the runner. */
    method Begin(id: string)
      requires Valid()
      modifies this, subscribers
      ensures subscribers == old(subscribers)
      ensures Valid() && model == TaskBus.Begin(old(model), id)
    {
      status := TaskBus.Running;
      started := true;
      model := model.(status := status, started := started);
      var _ := Emit(id, WorkflowStarted, OfTask(taskId, kind));
    }

    method Complete(id: string)
      requires Valid()
      modifies this, subscribers
      ensures subscribers == old(subscribers)
      ensures Valid() && model == TaskBus.Finish(old(model), TaskBus.Returned, id, "")
    {
      status := TaskBus.Completed;
      progress := 1.0;
      finished := true;
      model := model.(status := status, progress := progress, finished := finished);
      var _ := Emit(id, TaskCompleted, OfTask(taskId, kind));
      PutAll(TaskBus.Sentinel);
    }

    /** The two events of a failure, and the end of the stream. */
    method EmitFailure(id1: string, kind1: EventType, data1: Data, id2: string, data2: Data)
      requires Valid()
      modifies this`buffer, this`model, subscribers
      ensures var first := TaskBus.Emit(old(model), Event(id1, traceId, kind1, data1));
              Valid() && model == TaskBus.Close(TaskBus.Emit(first, Event(id2, traceId, ErrorEvent, data2)))
    {
      var _ := Emit(id1, kind1, data1);
      var _ := Emit(id2, ErrorEvent, data2);
      PutAll(TaskBus.Sentinel);
    }

    method Fail(code: Code, retryable: bool, id1: string, id2: string)
      requires Valid()
      modifies this, subscribers
      ensures subscribers == old(subscribers)
      ensures Valid() && model == TaskBus.Finish(old(model), TaskBus.Raised(code, retryable), id1, id2)
    {
      status := TaskBus.Failed;
      errorCode := Some(code);
      finished := true;
      model := model.(status := status, errorCode := errorCode, finished := finished);
      EmitFailure(id1, TaskBus.FailureKind(code), Failure(taskId, code),
                  id2, Problem(code, retryable));
    }

    method Break(id1: string, id2: string)
      requires Valid()
      modifies this, subscribers
      ensures subscribers == old(subscribers)
      ensures Valid() && model == TaskBus.Finish(old(model), TaskBus.Broke, id1, id2)
    {
      status := TaskBus.Failed;
      errorCode := Some(InternalError);
      model := model.(status := status, errorCode := errorCode);
      EmitFailure(id1, TaskFailed, Failure(taskId, InternalError), id2, Problem(InternalError, false));
    }

    method Cancel(id: string)
      requires Valid()
      modifies this, subscribers
      ensures subscribers == old(subscribers)
      ensures Valid() && model == TaskBus.Finish(old(model), TaskBus.Cancelled, id, "")
    {
      status := TaskBus.Aborted;
      finished := true;
      model := model.(status := status, finished := finished);
      var _ := Emit(id, TaskAborted, OfTask(taskId, ""));
      PutAll(TaskBus.Sentinel);
    }

    /** The second half of _execute: what the runner's outcome leads to, and _close. */
    method Conclude(outcome: TaskBus.Outcome, id1: string, id2: string)
      requires Valid()
      modifies this, subscribers
      ensures subscribers == old(subscribers)
      ensures Valid() && model == TaskBus.Finish(old(model), outcome, id1, id2)
    {
      match outcome
      case Returned => Complete(id1);
      case Raised(code, retryable) => Fail(code, retryable, id1, id2);
      case Broke => Break(id1, id2);
      case Cancelled => Cancel(id1);
    }
  }

  /** Handles in order of submission, what their asyncio tasks are doing, and a semaphore with
      `permits` left. */
  class TaskManager {
    const maxConcurrent: int
    var permits: int
    var handles: seq<TaskHandle>
    var phases: seq<TaskBus.Phase>
    var cancelled: seq<bool>

    ghost predicate Separate()
      reads this, handles
    {
      && Distinct(handles)
      && forall g, h, s | g in handles && h in handles && g != h && s in g.subscribers :: s !in h.subscribers
    }

    ghost function Queues(): set<object>
      reads this, handles
    {
      set h, s | h in handles && s in h.subscribers :: s as object
    }

    /** The objects stand for the manager `m`. */
    ghost predicate Represents(m: TaskBus.Manager)
      reads this, handles, Queues()
    {
      && |m.jobs| == |handles| == |phases| == |cancelled| && Separate()
      && m.maxConcurrent == maxConcurrent
      && permits == TaskBus.Capacity(m) - TaskBus.Executions(m.jobs)
      && (forall h | h in handles :: (assert forall s | s in h.subscribers :: s in Queues(); h.Valid()))
      && forall i | 0 <= i < |handles| :: m.jobs[i] == TaskBus.Job(handles[i].model, phases[i], cancelled[i])
    }

    constructor (maxConcurrent: int)
      ensures Represents(TaskBus.Manager(maxConcurrent, [])) && handles == []
    {
      this.maxConcurrent := maxConcurrent;
      permits := Max(1, maxConcurrent);
      handles, phases, cancelled := [], [], [];
    }

    method Submit(taskId: string, traceId: string, kind: string, ghost m: TaskBus.Manager) returns (handle: TaskHandle)
      requires Represents(m)
      modifies this
      ensures fresh(handle) && handles == old(handles) + [handle]
      ensures Represents(TaskBus.Step(m, TaskBus.Submit(taskId, traceId, kind)))
    {
      handle := new TaskHandle(taskId, traceId, kind);
      handles := handles + [handle];
      phases := phases + [TaskBus.Waiting];
      cancelled := cancelled + [false];
      ghost var j := TaskBus.Job(handle.model, TaskBus.Waiting, false);
      assert (m.jobs + [j])[..|m.jobs|] == m.jobs;
    }

    /** Others are untouched when one handle and its streams change. */
    twostate lemma OneChanged(changed: TaskHandle)
      requires changed in handles && handles == old(handles) && old(Separate())
      requires changed.subscribers == old(changed.subscribers) && changed.Valid()
      requires forall h | h in handles :: old(h.Valid())
      requires forall h | h in handles && h != changed :: unchanged(h)
      requires forall h, s | h in handles && h != changed && s in h.subscribers :: unchanged(s)
      ensures Separate()
      ensures forall h | h in handles :: h.Valid()
    {
      forall h | h in handles ensures h.Valid() {
        if h != changed {
          forall n | 0 <= n < |h.subscribers|
            ensures h.subscribers[n].Valid() && h.subscribers[n].Abs() == h.model.subs[n]
          {
            assert h.subscribers[n] in h.subscribers;
            assert old(h.Valid()) && unchanged(h) && unchanged(h.subscribers[n]);
          }
        }
      }
    }

    /** The semaphore lets a waiting task in, if it has room and the task was not cancelled. */
    method Acquire(i: nat, id: string, ghost m: TaskBus.Manager) returns (acquired: bool)
      requires Represents(m) && i < |handles|
      requires phases[i] == TaskBus.Waiting && TaskBus.FreshId(id, handles[i].buffer)
      modifies this, handles[i], handles[i].subscribers
      ensures acquired <==> old(permits) > 0 && !old(cancelled)[i]
      ensures handles == old(handles) && Represents(TaskBus.Step(m, TaskBus.On(i, TaskBus.DoBegin(id))))
    {
      var handle := handles[i];
      assert handle in handles;
      acquired := permits > 0 && !cancelled[i];
      TaskBus.BeginStep(m, i, id);
      if acquired {
        handle.Begin(id);
        permits := permits - 1;
        phases := phases[i := TaskBus.Executing];
        OneChanged(handle);
      }
    }

    method Release(i: nat, outcome: TaskBus.Outcome, id1: string, id2: string, ghost m: TaskBus.Manager)
      requires Represents(m) && i < |handles| && phases[i] == TaskBus.Executing
      requires var log := handles[i].buffer; TaskBus.FreshId(id1, log) && TaskBus.FreshId(id2, log) && id1 != id2
      modifies this, handles[i], handles[i].subscribers
      ensures handles == old(handles) && Represents(TaskBus.Step(m, TaskBus.On(i, TaskBus.DoFinish(outcome, id1, id2))))
    {
      var handle := handles[i];
      assert handle in handles;
      assert m.jobs[i] == TaskBus.Job(handle.model, TaskBus.Executing, cancelled[i]);
      handle.Conclude(outcome, id1, id2);
      OneChanged(handle);
      permits := permits + 1;
      phases := phases[i := TaskBus.Over];
      TaskBus.FinishStep(m, i, outcome, id1, id2);
    }

    /** Asks a task that has not ended to stop; what follows is its own next step. */
    method Abort(i: nat, ghost m: TaskBus.Manager)
      requires Represents(m) && i < |handles|
      modifies this`cancelled
      ensures Represents(TaskBus.Step(m, TaskBus.On(i, TaskBus.DoAbort)))
    {
      assert handles[i] in handles;
      var status := handles[i].status;
      TaskBus.AbortStep(m, i);
      if status == TaskBus.Completed || status == TaskBus.Failed || status == TaskBus.Aborted
         || phases[i] == TaskBus.Over {
        return;
      }
      cancelled := cancelled[i := true];
    }
  }
}
