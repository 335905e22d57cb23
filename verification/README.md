# Verification of FinSage's deterministic engines

FinSage is a financial research assistant. Its answers come from language models and market
data providers, but what surrounds them is deterministic: a task event bus streamed to a
browser client, a rate limiter, a valuation engine, hybrid-search fusion, a claim checker
inside a workflow graph, provider failover, document chunking, session memory and a cache.
This project models those engines in Dafny and proves what they promise.

`dafny verify dfyconfig.toml` checks everything.

## What is here

| files | what they model |
|---|---|
| `Events.dfy`, `TaskBus.dfy`, `TaskHistory.dfy`, `TaskHandles.dfy` | the task bus: a step machine for the task manager, its tasks and their subscribers, what its logs owe to what was asked of it, and the objects whose methods take those steps |
| `SseWire.dfy`, `Codecs.dfy`, `SseClients.dfy`, `Delivery.dfy`, `Completion.dfy`, `Outages.dfy` | the event stream: framing and parsing (WHATWG HTML Standard, sections 9.2.5 and 9.2.6) over any faithful codec and one that is faithful, the reconnecting client, both ends together, what a connection delivers that is left alone, and what becomes of lost ones |
| `ClientStore.dfy` | the browser's research state machine, store and event handler |
| `RateLimit.dfy` | the fixed-window limiter over Redis INCR and EXPIRE |
| `Valuation.dfy` (with `Reals.dfy`) | discounted cash flow, sensitivity grid, growth projection |
| `Fusion.dfy` | min-max normalisation, weighted fusion, ranking |
| `Verification.dfy`, `ResearchGraph.dfy` | claim generator, claim checker, and the Research QA graph run node by node against adversarial dependencies |
| `Resilience.dfy`, `Registry.dfy` | circuit breaker, retry, provider failover |
| `Chunking.dfy` (with `Decimals.dfy`) | splitting documents, chunk ids, reading documents back |
| `Memory.dfy`, `LruCache.dfy` | context-window compression, the enrichment cache |
| `Options.dfy`, `Seqs.dfy`, `Texts.dfy`, `OrderedDicts.dfy`, `StableSort.dfy` | Option, sequence facts, stripping white space, Python's dict order and stable sort |

Three shapes recur. Code that only computes is a function. Code that loops or changes an
object is a method, or a class whose methods say in terms of a function what the new state is.
Code that runs concurrently is a machine: a state, a function for one step, and a run as a
sequence of steps that an adversary picks; what holds over all runs is proved by induction
over that sequence. One step of the task bus is what runs between two awaits.

## What is proved, in short

- Whatever the interleaving of emissions, connections, losses and reconnects, and however the
  network cuts the text, the events handed to the client's `onEvent` are a duplicate-free,
  in-order prefix of the task's log, and a terminal event closes the client (`Delivery`).
- A connection to an ended task that is left alone closes the client once nothing is left to
  send or read. The client then has everything up to the terminal event, and the error event
  that follows the end of a failed task exactly when no read stopped between the two
  (`Completion`).
- A task's log is exactly the events that its runner and its manager asked for, in order; what
  is put on a queue is what is put in the log (`TaskHistory`).
- Every subscriber's snapshot and queue make up the log, a stream ends exactly when the task
  has ended and everything was yielded, tasks only move forward, and no more run than the
  semaphore admits. The runner's outcome alone decides what a task ends as; an aborted one ends
  aborted exactly when it was executing and its runner let the cancellation through
  (`TaskBus`).
- Every limiter window admits exactly min(limit, arrivals) requests, whatever other callers
  do, and any interval one window long admits at most 2 * limit - 1. The module documents
  2 * limit; the smaller bound holds and is attained. How far Retry-After is off is stated to
  the millisecond (`RateLimit`).
- The DCF formula equals a year-by-year valuation without powers or sums. From that follow
  horizon independence, the closed form for a growth projection and the monotonicity of the
  sensitivity grid (`Valuation`).
- A fused ranking lists every key once with its score, drops no hit that beats a kept one, and
  does not change under positive affine rescaling of either channel (`Fusion`).
- Errors in the Research QA graph are never cleared, every finished run passes exactly one of
  answer and abstain, an answer's citations resolve in its own lists, and a run in which
  anything failed does not answer. What a run without failures does is told by what its
  dependencies reply. All calculations that cite only the well-formed evidence gathered lead to
  an answer exactly when that evidence has at most ten ids; with more, some of them do not
  (`ResearchGraph`).
- A client completes exactly when the log has the four key events in the right order; the text
  it shows is that of the last whole answer followed by the pieces after it (`ClientStore`).
- A lost connection is retried, and given up after exactly five failed attempts (`Outages`).
- A breaker is open exactly when its history says so; failover returns the first candidate
  that works and records only those it tried (`Resilience`, `Registry`).
- However calls to the enrichment cache interleave, it holds the 64 most recently used keys in
  order of use, each with the value fetched last for it (`LruCache`).

## Where the code differs from what it says

The code was followed; each consequence is stated by the members named.

- The docstring of `abort` says that the task ends `aborted`. It can exactly when it was
  executing (`TaskBus.CanEndAborted`), and does exactly when its runner then lets the
  cancellation through (`TaskBus.AbortOutcome`); one that catches it can complete
  (`TaskBus.CancelledAndCompleted`). A task aborted while it waits for the semaphore stays
  `queued` and never emits (`TaskBus.AbortedWhileWaitingIsSilent`, `TaskBus.AbortedInVain`).
- A failure with code WORKFLOW_CANCELLED has status `failed` but announces `task.aborted`, and
  `finished_at` stays unset exactly when the runner ended in an unclassified exception
  (`TaskBus.OutcomeDecides`).
- The client closes on the terminal event, but the error event of a failed task follows it. A
  read that ends between the two loses the error event for good (`Completion.ErrorEventLost`).
- The breaker keeps its first opening time until a success, so it opens for one interval only
  (`Resilience.NeverReopensWithoutSuccess`).
- Calculations cite what was retrieved, but evidence is cut to ten before verification, so a
  citation can dangle and a run in which nothing failed abstains
  (`ResearchGraph.TenIdsAreTheLimit`, `ResearchGraph.EleventhIsCut`).
- The client needs an `answer.delta` to reach `completed`, and the real runner sends none when
  the answer is empty (`ClientStore.WithoutDeltaNeverCompletes`).
- The client sends `Last-Event-ID`, but the server writes the log from its first event on every
  connection (`Delivery.EveryConnectionReplays`); that nothing is delivered twice is the
  client's own doing (`SseClients.ReplayIsSkipped`).
- `limit=0` asks the in-process memory for the whole history, as `[-0:]` does in Python; the
  limit is kept exactly when it is positive or the history is short enough
  (`Memory.LimitKeptExactlyWhen`).
- Retry-After is a Redis TTL, rounded to seconds: it can be up to half a second too early or
  too late, and announces a whole window when less than half a second is left
  (`RateLimit.RetryAfterError`, `RateLimit.RetryAfterIsExact`).
- Two hits with one primary key inside a channel: the last dense hit replaces the earlier ones,
  while sparse hits add up (`Fusion.Fuse`). The sum of one term for each channel comes out all
  the same exactly when the earlier sparse hits add nothing (`Fusion.TwoTermsExactlyWhen`).

## Model

| member | source | states |
|---|---|---|
| `TaskBus.HearEvent` | src/finsage/api/tasks.py:82-94 | Fanning an event out keeps a subscriber's snapshot plus queue equal to the log that now ends with that event |
| `TaskBus.HearSentinel` | src/finsage/api/tasks.py:285-288 | Closing gives a live subscriber exactly one sentinel, after the last event |
| `TaskBus.SubscribeSubs` | src/finsage/api/tasks.py:100-111 | A new subscriber's snapshot is the log so far; one that joins an ended task has all of it |
| `TaskBus.YieldedIsPrefix` | src/finsage/api/tasks.py:113-127 | What a stream has handed over is always a prefix of the log |
| `TaskBus.PullMeaning` | src/finsage/api/tasks.py:113-127 | A resumed stream yields the next event of the log; it returns exactly when the task has ended and all was yielded; it waits exactly when it is up to date with a task that goes on |
| `TaskBus.PullYields` | src/finsage/api/tasks.py:113-127 | Each yield extends what was handed over by that one event |
| `TaskBus.LifecycleStep` | src/finsage/api/tasks.py:203-283 | Every step keeps a task on its life line: status, log, progress, error code, timestamps and closing events belong together |
| `TaskBus.SubsStep` | src/finsage/api/tasks.py:82-129 | Every step of a job keeps every subscriber's snapshot plus queue equal to the log |
| `TaskBus.IdsStep` | src/finsage/api/tasks.py:82-92 | Fresh event ids keep the log's ids distinct and non-empty |
| `TaskBus.RunInvariant` | src/finsage/api/tasks.py:132-288 | In every reachable state at most max(1, max_concurrent) tasks run, every task is on its life line (log empty iff queued, workflow.started first, the closing events that fit its status, progress in [0,1] and 1 when completed) and every subscriber's snapshot and queue make up the log, with one sentinel after the end |
| `TaskBus.StatusMovesForward` | src/finsage/api/tasks.py:239-283 | Over any run a status only goes queued, running, one terminal status; events are only added; and after the terminal status nothing about the task changes but who listens |
| `TaskBus.AbortedWhileWaitingIsSilent` | src/finsage/api/tasks.py:206-237 | A task aborted while waiting for the semaphore stays queued with an empty log for ever, and its subscribers wait for ever |
| `TaskBus.OneTerminalEvent` | src/finsage/api/tasks.py:239-283 | If runners leave the manager's own event types alone, workflow.started occurs exactly at the head of the log and exactly one terminal event exists iff the status is terminal, last or just before the error event |
| `TaskBus.SubscribersAreIndependent` | src/finsage/api/tasks.py:82-94 | What a server step does to one subscriber does not depend on there being others |
| `TaskBus.BeginStep` | src/finsage/api/tasks.py:206-210 | A waiting task gets in exactly when the semaphore has room and it was not cancelled |
| `TaskBus.OutcomeDecides` | src/finsage/api/tasks.py:239-283 | A task has a terminal status iff its runner ended, which happens once; that outcome alone decides status, error code, closing events and, unset iff it was an unclassified exception, finished_at; aborted iff a cancellation came through |
| `TaskBus.AbortOutcome` | src/finsage/api/tasks.py:221-265 | A live task aborted at any step of any run: waiting, it stays queued with an empty log; executing, it ends aborted, with task.aborted last in its log, iff its runner afterwards let the cancellation through |
| `TaskBus.CanEndAborted` | src/finsage/api/tasks.py:221-237 | Some continuation of a run in which a live task is aborted has it end aborted iff it was executing |
| `TaskBus.AbortedInVain` | src/finsage/api/tasks.py:206-237 | A task submitted and at once aborted is queued with an empty log after every continuation |
| `TaskBus.CancelledAndCompleted` | src/finsage/api/tasks.py:244-249 | A cancelled task whose runner returns all the same is completed |
| `TaskHistory.OneJobEach` | src/finsage/api/tasks.py:193-219 | There is one task for each submission, in order, with its id, trace id and kind for good |
| `TaskHistory.LogIsRequested` | src/finsage/api/tasks.py:82-94 | Over any run a task's log is exactly the events asked for by its actions that were taken, in order, each with its id, the task's trace id, its kind and its data: what the runner emits, workflow.started, and the closing events of each outcome |
| `TaskHistory.EveryoneIsTold` | src/finsage/api/tasks.py:92-93 | A server step puts on every queue, behind what it holds, exactly the events it asks for, and the sentinel when the task ends; no queue appears or goes |
| `TaskHistory.ProgressIsLastSet` | src/finsage/api/tasks.py:96-98 | Over any run a task's progress is what it was last set to, by its runner or to 1 on completion, kept within [0,1] |
| `TaskHandles.Stream.PutNowait` | src/finsage/api/tasks.py:92-93 | The queue grows by the item |
| `TaskHandles.Stream.Resume` | src/finsage/api/tasks.py:113-127 | The generator replays the snapshot, then returns if the task was terminal, then drains the queue up to the sentinel |
| `TaskHandles.TaskHandle.constructor` | src/finsage/api/tasks.py:46-67 | A new handle is queued with progress 0 and nothing logged |
| `TaskHandles.TaskHandle.Emit` | src/finsage/api/tasks.py:82-94 | The event is logged and put on every subscriber's queue |
| `TaskHandles.TaskHandle.SetProgress` | src/finsage/api/tasks.py:96-98 | Progress becomes the value clamped to [0, 1] |
| `TaskHandles.TaskHandle.Subscribe` | src/finsage/api/tasks.py:100-111 | A new queue is registered with a snapshot of the log and of terminality |
| `TaskHandles.TaskHandle.Remove` | src/finsage/api/tasks.py:124-127 | The stream's queue leaves the list, the others keep their order |
| `TaskHandles.TaskHandle.Pull` | src/finsage/api/tasks.py:113-127 | One resumption of a connection's stream; one that returned is unsubscribed |
| `TaskHandles.TaskHandle.Begin` | src/finsage/api/tasks.py:241-243 | Running, started, and workflow.started announced |
| `TaskHandles.TaskHandle.Conclude` | src/finsage/api/tasks.py:244-288 | Each outcome of the runner leads to its status, fields and closing events, then the sentinel |
| `TaskHandles.TaskManager.constructor` | src/finsage/api/tasks.py:139-143 | No tasks, and max(1, max_concurrent) permits |
| `TaskHandles.TaskManager.Submit` | src/finsage/api/tasks.py:193-219 | A new queued task waits for the semaphore; the manager's objects stand for the stepped state |
| `TaskHandles.TaskManager.Acquire` | src/finsage/api/tasks.py:206-210 | The task enters iff a permit is left and it was not cancelled; permits and tasks stand for the stepped state |
| `TaskHandles.TaskManager.Release` | src/finsage/api/tasks.py:244-288 | The task concludes and its permit is free again |
| `TaskHandles.TaskManager.Abort` | src/finsage/api/tasks.py:221-237 | Only a task that has not ended is marked for cancellation; the manager's objects stand for the stepped state |
| `SseWire.BlankLineStays` | apps/web/lib/research/sse-client.ts:153-155 | Text after the first blank line does not move it |
| `SseWire.FramesAdd` | apps/web/lib/research/sse-client.ts:146-163 | Reading b after a cuts the frames of a, then those of a's rest followed by b |
| `SseWire.FramesOfReads` | apps/web/lib/research/sse-client.ts:146-163 | However the text is split into reads, the frames and the rest are those of the whole text |
| `SseWire.OneFrame` | src/finsage/api/routes.py:181-183 | A newline-free text closed by a blank line is one frame |
| `SseWire.WrittenFrames` | src/finsage/api/routes.py:181-183 | What the server writes for a log is cut into one frame for each event, with nothing left over |
| `SseWire.FrameParses` | apps/web/lib/research/sse-client.ts:37-60 | The frame of an event parses back to that event |
| `SseWire.LogRoundTrip` | apps/web/lib/research/sse-client.ts:37-60 | A log written by the server comes back event by event, whatever the reads |
| `SseWire.PartOfWritten` | apps/web/lib/research/sse-client.ts:146-163 | What has been read of a written log holds the frames of its first events |
| `SseWire.LineEnds` | apps/web/lib/research/sse-client.ts:37-43 | A line ends at a newline, and a carriage return right before it is no part of it |
| `SseWire.DataLinesAdd` | apps/web/lib/research/sse-client.ts:41-50 | The data of a frame is what follows "data:" on the lines that start so, in order; other lines say nothing |
| `SseWire.SeveralLines` | apps/web/lib/research/sse-client.ts:41-52 | Data sent as several data lines yields those lines |
| `SseWire.SeveralLinesJoined` | apps/web/lib/research/sse-client.ts:41-52 | Such lines are parsed as one text joined with newlines |
| `SseWire.JoinSplits` | apps/web/lib/research/sse-client.ts:41-52 | Joined lines are the lines in order with a newline between neighbours |
| `SseClients.SseClient.ConsumeEvent` | apps/web/lib/research/sse-client.ts:186-200 | A seen id is skipped; a new one is recorded, resets the retries, is delivered, and closes the client if terminal |
| `SseClients.SseClient.Read` | apps/web/lib/research/sse-client.ts:149-162 | Every frame completed by the chunk is handled in order, even after one closed the client; the rest stays buffered |
| `SseClients.SseClient.HandleFrame` | apps/web/lib/research/sse-client.ts:156-161 | A parsed frame is consumed; an unparsable one is reported, trimmed, unless it is blank |
| `SseClients.SseClient.Accept` | apps/web/lib/research/sse-client.ts:96-146 | A readable response reopens the client, resets the retries and starts with an empty buffer |
| `SseClients.SseClient.Refuse` | apps/web/lib/research/sse-client.ts:110-173 | A 4xx answer is fatal; other failures are reported and rescheduled; a closed client stays silent |
| `SseClients.SseClient.Reconnect` | apps/web/lib/research/sse-client.ts:202-218 | A timer is set and counted, up to five; then the client closes with an error |
| `SseClients.SseClient.CloseStream` | apps/web/lib/research/sse-client.ts:177-184 | The client is closed and no timer is left |
| `SseClients.ConsumeNext` | apps/web/lib/research/sse-client.ts:186-194 | On a client that has the first d events, one of them changes nothing and the next one is delivered |
| `SseClients.HandleStretch` | apps/web/lib/research/sse-client.ts:153-162 | Handling the frames of a stretch of the log skips what was delivered and delivers the rest in order, and a terminal event leaves the client closed |
| `SseClients.RefusalsEnd` | apps/web/lib/research/sse-client.ts:110-218 | Exactly six transient failures in a row close the client, the first attempt and five retries, whether fetch threw, an answer had another unusable status or a read failed; fewer leave a timer set |
| `SseClients.FatalExactlyOn4xx` | apps/web/lib/research/sse-client.ts:110-173 | A failed attempt is fatal, and closes the client without a timer, iff it was answered with a 4xx |
| `SseClients.ReplayIsSkipped` | apps/web/lib/research/sse-client.ts:186-200 | Replaying events the client has, from the first on, changes nothing about it |
| `SseClients.UnknownIsReported` | apps/web/lib/research/sse-client.ts:156-161 | Frames that are no events are reported, trimmed and in order, unless blank, and change nothing else |
| `Codecs.SpellingIsFaithful` | src/finsage/api/routes.py:181-183 | There is a codec that writes every event on one line and reads it back |
| `Delivery.RunInvariant` | apps/web/lib/research/sse-client.ts:96-200 | In every reachable state of task, network and client, read plus unread text is what the server wrote for a prefix of the log, and the client has delivered at least the frames it read |
| `Delivery.DeliveredExactlyOnceInOrder` | apps/web/lib/research/sse-client.ts:96-200 | For every interleaving and every chunking, the delivered events are a duplicate-free prefix of the task's log, and a client given a terminal event is closed |
| `Delivery.OrderlyEndIsNeverRead` | apps/web/lib/research/sse-client.ts:147-173 | The client closes itself before it could read the orderly end of a stream, so an ended task causes no reconnect |
| `Delivery.EveryConnectionReplays` | src/finsage/api/tasks.py:100-127 | In every reachable state what was written on the open connection are the first events of the log, from the very first, whatever the client has |
| `Completion.UndisturbedConnection` | apps/web/lib/research/sse-client.ts:96-200 | From any reachable state with an ended task, for every order of sends and reads after connecting: the client is closed iff it read the first terminal event to its end, has at least the log up to it when closed, has the whole log iff besides no read stopped between that event and the end of the log, and is closed once nothing is left to send or read |
| `Completion.UndisturbedConnectionCompletes` | apps/web/lib/research/sse-client.ts:96-200 | When runners leave the closing events alone, a client so closed has the whole log iff the task has not failed or no read stopped between the terminal event and the error event |
| `Completion.ErrorEventLost` | apps/web/lib/research/sse-client.ts:195-199 | For every failed task, everything sent and a first read that ends behind the terminal event close the client with all but the error event, and nothing that follows delivers it |
| `Completion.FailedBeforeConnecting` | src/finsage/api/tasks.py:266-283 | Such a task can be waiting for the client's first connection |
| `Completion.OneReadDeliversAll` | apps/web/lib/research/sse-client.ts:146-163 | Everything sent and read in one piece delivers the whole log, whatever the runner did |
| `Completion.FramesByLength` | apps/web/lib/research/sse-client.ts:146-163 | What has been read of a written log holds the first k frames iff it is as long as they are |
| `Outages.ResponseResetsRetries` | apps/web/lib/research/sse-client.ts:143-146 | A readable response opens the connection with all retries left and forgets nothing |
| `Outages.LostConnectionReconnects` | apps/web/lib/research/sse-client.ts:166-218 | In every reachable state with an open connection, losing it sets a timer, the first of the retries, and reports an error iff the loss was an exception |
| `Outages.OutageEnds` | apps/web/lib/research/sse-client.ts:202-218 | From any such state: after the loss the client closes iff at least five attempts in a row fail for passing reasons; otherwise the next one is due |
| `Outages.UserClosesForGood` | apps/web/lib/research/sse-client.ts:177-184 | After the user closed it, nothing the server or network does delivers anything more |
| `Delivery.ReadDelivers` | apps/web/lib/research/sse-client.ts:146-163 | One read moves the client on over exactly the frames it completes |
| `Delivery.WholeStreamCloses` | apps/web/lib/research/sse-client.ts:195-199 | A client that is still open has not read everything of a finished stream |
| `ClientStore.ResearchStore.StartTask` | apps/web/lib/research/research-store.ts:91-103 | A new task resets everything to submitting, under its own task and trace id, with nothing selected |
| `ClientStore.ResearchStore.SetStatus` | apps/web/lib/research/research-store.ts:105-108 | An illegal transition throws and changes nothing, a legal one is taken |
| `ClientStore.ResearchStore.SetProgress` | apps/web/lib/research/research-store.ts:110-112 | Progress is clamped to [0, 1] |
| `ClientStore.ResearchStore.AppendTraceEvent` | apps/web/lib/research/research-store.ts:114-122 | An event with a known id is not traced again |
| `ClientStore.ResearchStore.MergeAnswerDelta` | apps/web/lib/research/research-store.ts:124-130 | A non-empty delta is appended to the answer |
| `ClientStore.ResearchStore.UpsertCalculation` | apps/web/lib/research/research-store.ts:136-148 | A calculation leaves the answer's text as it is and makes an empty answer of none |
| `ClientStore.ResearchStore.ApplySSEEvent` | apps/web/lib/research/sse-handler.ts:125-262 | The whole effect of one event on the store, whether it was applied, and whether it was reported |
| `ClientStore.ApplyAllowed` | apps/web/lib/research/state-machine.ts:26-58 | One event changes the status along an allowed edge or not at all, never out of a final one; progress does not fall; the trace only grows |
| `ClientStore.EveryRunIsAllowed` | apps/web/lib/research/sse-handler.ts:125-262 | Over any event sequence every status change is an allowed edge, final statuses absorb, progress never falls nor leaves [0,1], and trace ids stay distinct |
| `ClientStore.TraceIsTheLog` | apps/web/lib/research/research-store.ts:114-122 | With distinct event ids the trace is the log without the unknown events, in order |
| `ClientStore.ProgressIsFurthest` | apps/web/lib/research/sse-handler.ts:105-148 | Progress is that of the furthest stage the log reached |
| `ClientStore.StagesInOrder` | apps/web/lib/research/sse-handler.ts:105-118 | The twelve stages come one after the other, each further on than the one before, the last at 1 |
| `ClientStore.AnswerIs` | apps/web/lib/research/sse-handler.ts:174-226 | On any log the text shown is that of the last answer.completed, or "" without one, followed by the texts of the answer.deltas after it; there is no answer iff no whole one, no non-empty delta and no calculation with an id came |
| `ClientStore.ErrorIs` | apps/web/lib/research/sse-handler.ts:245-255 | The error shown is the code of the last error event, FIN-0000 if it carries none |
| `ClientStore.ReportedExactlyWhen` | apps/web/lib/research/sse-handler.ts:150-160 | An event is reported iff its type is unknown or it asks for a status that the store does not take |
| `ClientStore.StatusIsExpected` | apps/web/lib/research/sse-handler.ts:150-244 | After any prefix of any log the status is exactly the one the log's order of key events calls for; after several closing events the first decides |
| `ClientStore.CompletesExactlyWhen` | apps/web/lib/research/sse-handler.ts:150-244 | A submitted client ends completed iff the log has workflow.started, then answer.delta, then verification.started with no workflow.started in between, then task.completed, and no failure before |
| `ClientStore.CompletedTaskShowsWhen` | apps/web/lib/research/sse-handler.ts:150-244 | For the log of a completed task this comes down to an answer.delta with a verification.started after it |
| `ClientStore.WithoutDeltaNeverCompletes` | src/finsage/api/runner_real.py:266-285 | Without an answer.delta the client never shows completed |
| `RateLimit.FinRedis.Incr` | src/finsage/persistence/redis.py:96-98 | The live counter goes up by one, an expired one starts at 1 |
| `RateLimit.FinRedis.Expire` | src/finsage/persistence/redis.py:99-100 | The key lives for the window from now; a window that is not positive deletes it |
| `RateLimit.FinRedis.RateLimitAdd` | src/finsage/persistence/redis.py:95-101 | The count in the key's window, and the store with that key alone changed |
| `RateLimit.FinRedis.Ttl` | src/finsage/persistence/redis.py:103-106 | The remaining time to the nearest second, -1 iff the key never expires, -2 iff there is none |
| `RateLimit.RequireRateLimit` | src/finsage/api/ratelimit.py:89-128 | Admitted iff the count is within the limit; a denial names the remaining time, or the window if none remains |
| `RateLimit.KeysAreIndependent` | src/finsage/api/ratelimit.py:103-126 | A caller's decisions depend on that caller's own requests alone, whatever is interleaved |
| `RateLimit.WindowsAreExact` | src/finsage/api/ratelimit.py:103-126 | Every window of a caller lets through exactly min(limit, arrivals) of that caller's requests, counted over the decisions of all callers' requests interleaved |
| `RateLimit.NonPositiveWindow` | src/finsage/persistence/redis.py:96-101 | With a window that is not positive everything is admitted, unless the limit is below 1 |
| `RateLimit.BurstBound` | src/finsage/api/ratelimit.py:12-13 | Any half-open interval one window long admits at most max(0, 2 * limit - 1) requests, wherever the windows start |
| `RateLimit.CallersBurstBound` | src/finsage/api/ratelimit.py:103-126 | Over all callers' requests interleaved, no caller gets more than that through in such an interval |
| `RateLimit.BurstBoundIsTight` | src/finsage/api/ratelimit.py:12-13 | For every limit and window of at least 1 some run attains that bound |
| `RateLimit.RetryAfterIsExact` | src/finsage/api/ratelimit.py:110-126 | The announced time separates denied from admitted for every later request iff a whole number of seconds was left and the limit is at least 1 |
| `RateLimit.RetryAfterError` | src/finsage/api/ratelimit.py:110-126 | How far, in milliseconds, the announced time lies from the end of the window, and when it is exact, too early or too late |
| `RateLimit.DeniedExactlyUntilTheEnd` | src/finsage/api/ratelimit.py:103-126 | After a denial every request before the end of the window is denied and the first one at or after it admitted |
| `Valuation.CalculateDcf` | src/finsage/financial/valuation.py:76-108 | Fails exactly on no flows, wacc <= 0 or wacc <= growth; else the value is both the documented formula and the year-by-year worth |
| `Valuation.FormulaIsWorth` | src/finsage/financial/valuation.py:79-99 | The discounted sum plus discounted terminal value equals peeling off one year at a time down to a growing perpetuity |
| `Valuation.HorizonIndependence` | src/finsage/financial/valuation.py:93-102 | Appending one more flow that grows by the terminal rate leaves the enterprise value unchanged |
| `Valuation.ProjectGrowth` | src/finsage/financial/valuation.py:168-179 | Fails exactly for a negative period count or a rate of -1 or less; else value t is base * (1 + rate)^t, counting from 1 |
| `Valuation.GrowthCompounds` | src/finsage/financial/valuation.py:168-179 | Each value of a projection is the one before it times 1 + rate |
| `Valuation.ProjectionHasClosedForm` | src/finsage/financial/valuation.py:76-179 | The DCF of a projection growing at the terminal rate is base * (1 + g) / (w - g) for every number of periods from 1 |
| `Valuation.DcfSensitivity` | src/finsage/financial/valuation.py:111-131 | The grid fails as a whole iff some pair with wacc above growth has no value; else every cell is that pair's value, empty iff wacc <= growth |
| `Valuation.DearerIsWorthLess` | src/finsage/financial/valuation.py:93-99 | A higher discount rate strictly lowers the worth of a growing company |
| `Valuation.FasterIsWorthMore` | src/finsage/financial/valuation.py:93-99 | A higher terminal growth strictly raises it |
| `Valuation.GridIsMonotone` | src/finsage/financial/valuation.py:111-131 | Filled cells strictly fall in wacc and strictly rise in growth |
| `Fusion.NormIsMinMax` | src/finsage/retrieval/search.py:34-41 | Normalised scores lie in [0,1], keep the order strictly, give the best 1 and, unless all are equal, the worst 0 |
| `Fusion.NormIsShare` | src/finsage/retrieval/search.py:34-41 | A normalised score is the share of the way from the least to the greatest score of the batch, 1 when these are equal, 0 without a score |
| `Fusion.FirstSeenOnce` | src/finsage/retrieval/search.py:151-169 | Every hit key is listed exactly once |
| `Fusion.FirstSeenOrder` | src/finsage/retrieval/search.py:151-169 | Keys are listed in the order in which they are first hit |
| `Fusion.FuseDense` | src/finsage/retrieval/search.py:152-156 | After the dense loop every key holds its last dense hit with its weighted norm, in order of first appearance |
| `Fusion.FuseSparse` | src/finsage/retrieval/search.py:157-168 | After the sparse loop every key's score has all its sparse gains added |
| `Fusion.Fuse` | src/finsage/retrieval/search.py:140-169 | One record for each key in order of first appearance, scored last dense gain plus all sparse gains, carrying the right record's fields |
| `Fusion.HybridSearch` | src/finsage/retrieval/search.py:189-219 | Raises iff both channels are empty or failed; else returns the ranking cut to candidate_k with both counts |
| `Fusion.RankingIsBest` | src/finsage/retrieval/search.py:205-214 | The ranking is descending, lists every key once with its score, and no dropped hit beats a kept one |
| `Fusion.TiesAreStable` | src/finsage/retrieval/search.py:205-214 | Of two ranked keys with equal scores the one first hit comes first |
| `Fusion.DistinctKeysScore` | src/finsage/retrieval/search.py:148-168 | With keys distinct in each channel a key scores dense_weight * norm + sparse_weight * norm, a missing channel counting 0 |
| `Fusion.TwoTermsExactlyWhen` | src/finsage/retrieval/search.py:148-168 | A key scores one term for each channel, that of its last hit there, iff its earlier sparse hits add up to 0; with a positive sparse weight it never scores less, and as much iff each of those hits normalises to 0 |
| `Fusion.ScaleFree` | src/finsage/retrieval/search.py:34-41 | Positive affine rescaling of either channel's raw scores leaves keys, fused scores and order unchanged |
| `Verification.ClaimFault` | src/finsage/governance/verification.py:58-82 | No rule iff the claim is grounded; V003 iff some citation dangles; else V001 iff its calculation dangles or it is a number without any basis; else V002 iff it is a fact without evidence |
| `Verification.CheckClaims` | src/finsage/governance/verification.py:58-82 | The list of first faults, claim by claim |
| `Verification.Verify` | src/finsage/governance/verification.py:46-129 | The verdict with all its failed rules |
| `Verification.NoFaultsMeaning` | src/finsage/governance/verification.py:63-82 | No claim is faulted iff every claim is grounded: citations and calculation resolve and its kind has the basis it needs |
| `Verification.FaultsMeaning` | src/finsage/governance/verification.py:63-82 | Each of V001, V002 and V003 is raised iff some claim breaks it |
| `Verification.VerdictMeaning` | src/finsage/governance/verification.py:46-129 | PASS iff not blocked, no conflict, no calculation with another period, currency or unit than asked for, all claims grounded and something supports the answer; ABSTAIN iff only the support is missing |
| `Verification.FailedRulesMeaning` | src/finsage/governance/verification.py:46-129 | For each rule, when exactly it is listed |
| `Verification.FaultsAdd` | src/finsage/governance/verification.py:58-82 | Claim faults are listed claim by claim: none for a grounded claim, one rule it breaks for any other |
| `Verification.FailedRulesInOrder` | src/finsage/governance/verification.py:46-129 | The failed rules are those of the claims in order, then V004 to V007 as far as they are broken; V008 or V009 stands alone |
| `Verification.MakeClaims` | src/finsage/workflows/nodes.py:576-603 | Raises iff some confidence is outside [0,1]; else one fact claim for each evidence and one numeric claim for each calculation, with their citations |
| `Verification.ConfidenceBounds` | src/finsage/workflows/nodes.py:551-573 | With scores in [0,1] a calculation's confidence lies between 0.5 and 1 |
| `Verification.MatchedAdd` | src/finsage/workflows/nodes.py:562-563 | The evidence matched by a list of sources is that of its parts, one after the other |
| `Verification.MatchedOne` | src/finsage/workflows/nodes.py:562-563 | A source stands for the last evidence with its id, or for none |
| `Verification.ConfidenceIs` | src/finsage/workflows/nodes.py:551-573 | A calculation's confidence is the mean of the relevances and authorities of the evidence its sources stand for, at least a half, and a half without any |
| `Verification.OneSourceConfidence` | src/finsage/workflows/nodes.py:551-573 | With one source that is there it is half that evidence's relevance and authority together, at least a half |
| `Verification.GeneratorAgreesWithChecker` | src/finsage/workflows/nodes.py:576-603 | Generated claims PASS iff there is anything and every source and calculation id resolves, ABSTAIN iff there is nothing, and fail with V003 iff a source dangles |
| `ResearchGraph.SelectEvidence` | src/finsage/workflows/nodes.py:529-541 | The deduplicating, sorting and cutting loop computes the selection |
| `ResearchGraph.SelectionIsBest` | src/finsage/workflows/nodes.py:529-541 | The selection has distinct ids, comes from what was retrieved, is ordered by relevance, is as long as it may be, and leaves no better evidence behind |
| `ResearchGraph.TiesAreStable` | src/finsage/workflows/nodes.py:529-541 | Of two selected pieces of equal relevance the one whose id was first retrieved comes first |
| `ResearchGraph.IdsSurviveUpToTen` | src/finsage/workflows/nodes.py:526-541 | Every retrieved id survives selection iff there are at most ten distinct ones |
| `ResearchGraph.ErrorsStick` | src/finsage/agents/research_qa/graph.py:65-71 | An error code once set is set for the rest of the run |
| `ResearchGraph.RunsEnd` | src/finsage/agents/research_qa/graph.py:119-141 | Every run is over after at most 16 nodes |
| `ResearchGraph.RunInvariant` | src/finsage/agents/research_qa/graph.py:119-141 | At every node of every run: a block is an error, claims are the generator's, the answer node is entered only with something answerable, and a final answer exists exactly from the audit on |
| `ResearchGraph.ConfidenceMeaning` | src/finsage/governance/confidence.py:62-102 | Confidence lies in [0,1], is 0 after FAIL, at most 0.3 after ABSTAIN and at most 0.8 with a conflict, and no factor raises it by falling |
| `ResearchGraph.ConfidenceIs` | src/finsage/governance/confidence.py:62-102 | The confidence is the mean of the five factors, each clamped; three tenths of it after ABSTAIN, 0 after FAIL, at most 0.8 in a conflict |
| `ResearchGraph.AnswerConfidenceIs` | src/finsage/workflows/nodes.py:883-943 | With scores in [0,1] the factors of an answer are mean relevance, mean authority, the share of claims that cite evidence, whether anything was calculated, and 1 |
| `ResearchGraph.AnswerConfidenceBounds` | src/finsage/workflows/nodes.py:883-943 | An answer that passed has a confidence between 0.2 and 1 |
| `ResearchGraph.PassedOneFinal` | src/finsage/agents/research_qa/graph.py:137-141 | A run that reaches the audit passed exactly one of answer and abstain, and its confidence is positive iff it was answer |
| `ResearchGraph.AnswersAreGrounded` | src/finsage/agents/research_qa/graph.py:65-71 | A finished run has one final answer, with the run's own claims, evidence, calculations and confidence; one from the answer node means no block, no error, PASS and citations that resolve in its own lists; otherwise the confidence is 0 |
| `ResearchGraph.FinalNodes` | src/finsage/workflows/nodes.py:841-880 | The check's verdict is kept and a failed one is the error FIN-4101; an answer is written with the confidence of its lists |
| `ResearchGraph.RunsFollowEdges` | src/finsage/agents/research_qa/graph.py:104-141 | Every step of every run follows an edge of the graph or crashes |
| `ResearchGraph.CleanRunsAnswerExactlyWhen` | src/finsage/agents/research_qa/graph.py:131-138 | A run in which nothing fails, told from what the dependencies reply: it ends iff every claim can be built, else raises; it ends with the selection from what was gathered and the calculations replied; it answers iff besides there is any of either and every source and calculation id resolves in the selection |
| `ResearchGraph.TenIdsAreTheLimit` | src/finsage/workflows/nodes.py:526-603 | For evidence with ids and scores in [0,1]: all calculations that cite only that evidence lead to an answer iff it has at most ten distinct ids |
| `ResearchGraph.EleventhIsCut` | src/finsage/workflows/nodes.py:526-603 | Eleven equally relevant pieces of evidence and a calculation citing the last: nothing fails, and the run ends without an answer |
| `ResearchGraph.RoutesTaken` | src/finsage/workflows/nodes.py:218-231 | A blocked query reaches no provider, claim or check; any other finished run asks for financial data and is verified, and retrieves unless a numeric or realtime question named a ticker |
| `ResearchGraph.FailuresNeverAnswer` | src/finsage/workflows/nodes.py:246-294 | A run in which policy blocked, or retrieval, finance or calculation raised, timed out or broke, never answers, whatever came after |
| `ResearchGraph.FailureShows` | src/finsage/workflows/nodes.py:246-294 | Which failures crash the run, and the error code that any other leaves |
| `Resilience.CircuitBreaker.RecordSuccess` | src/finsage/providers/finance/resilience.py:45-47 | The key's count and opening are forgotten |
| `Resilience.CircuitBreaker.RecordFailure` | src/finsage/providers/finance/resilience.py:49-53 | The key's count goes up; at the threshold it opens, unless it was open before |
| `Resilience.BreakerRemembers` | src/finsage/providers/finance/resilience.py:45-53 | Count and opening time are those of the failures since the key's last success |
| `Resilience.OpenExactlyWhen` | src/finsage/providers/finance/resilience.py:31-53 | After any history a key is open iff at least threshold failures followed its last success and the interval since the threshold-th has not passed |
| `Resilience.NeverReopensWithoutSuccess` | src/finsage/providers/finance/resilience.py:49-53 | Once its interval has passed a key does not open again before it succeeds |
| `Resilience.Retry` | src/finsage/providers/finance/resilience.py:70-87 | The result of the last attempt: all before it raised a retryable FinSage error, and it did not or was the last allowed; any other error gets one call |
| `Resilience.LastAttemptMeaning` | src/finsage/providers/finance/resilience.py:70-87 | All attempts before the last raised a retryable error; the last did not, or is the last one allowed; and this says which it is |
| `Registry.KeyInjective` | src/finsage/providers/finance/registry.py:90-94 | Providers of one operation and market have different breaker keys |
| `Registry.ProviderRegistry.Register` | src/finsage/providers/finance/registry.py:52-75 | A name registered again is replaced in its place |
| `Registry.ProviderRegistry.FindCandidates` | src/finsage/providers/finance/registry.py:84-88 | The filtering loop and the sort compute the candidates |
| `Registry.CandidatesInOrder` | src/finsage/providers/finance/registry.py:84-88 | Candidates are exactly the providers that list the market under the operation, each once, by ascending priority, ties in order of registration |
| `Registry.ProviderRegistry.Guard` | src/finsage/providers/finance/resilience.py:56-67 | While open no call is made; else the retried outcome, recorded as success, retryable failure or not at all |
| `Registry.ProviderRegistry.Invoke` | src/finsage/providers/finance/registry.py:96-138 | No candidate is an error without calls; else the outcome, the calls and the breaker are those of a failover over the candidates |
| `Registry.FailoverMeaning` | src/finsage/providers/finance/registry.py:113-138 | Every candidate before the last one tried had an open circuit or ended in a ProviderError, retryable or not; the last one tried did not, or is the last there is, and its outcome is the result; the calls are exactly those of the closed candidates tried; each candidate tried is recorded under its own key and the others are unchanged |
| `Chunking.SplitText` | src/finsage/ingestion/chunker.py:27-36 | The sliding loop computes the segments: one at each multiple of max(1, size - overlap) inside the text, cut at its size or the end of the text |
| `Chunking.SegmentsAre` | src/finsage/ingestion/chunker.py:27-36 | The same in native slices, for every size and overlap |
| `Chunking.SegmentLengths` | src/finsage/ingestion/chunker.py:32-35 | For a positive size a segment is exactly as long as asked for, or as what is left of the text |
| `Chunking.Rebuilt` | src/finsage/ingestion/chunker.py:27-36 | For 0 <= overlap < size the first size - overlap characters of the segments join to the text |
| `Chunking.NothingLostExactlyWhen` | src/finsage/ingestion/chunker.py:27-36 | Every character lies in some segment iff the text is empty, or the size is positive and the overlap not negative or the text no longer than one segment |
| `Chunking.ChunkDocument` | src/finsage/ingestion/chunker.py:40-71 | Raises iff size <= overlap; else the numbered, stripped, non-empty pieces of all pages in order |
| `Chunking.ChunksAre` | src/finsage/ingestion/chunker.py:40-71 | The chunks are the segments of the pages' stripped texts that are not blank, stripped, each once, none missing, page by page and in order, with the page's number and section |
| `Chunking.ChunksAreShort` | src/finsage/ingestion/chunker.py:40-71 | No chunk is longer than the size asked for |
| `Texts.StripTrims` | src/finsage/ingestion/chunker.py:53-57 | A stripped text neither starts nor ends with white space |
| `Texts.StripBlank` | src/finsage/ingestion/chunker.py:53-57 | Stripping leaves nothing iff there is nothing but white space |
| `Chunking.IndicesCountUp` | src/finsage/ingestion/chunker.py:60-70 | Chunk indices are 0..n-1, and every chunk has the document's id and a trimmed, non-empty text |
| `Chunking.NothingLost` | src/finsage/ingestion/chunker.py:52-70 | Every character that is not white space lies in the stretch of its page that some chunk of that page is |
| `Chunking.ChunkIdInjective` | src/finsage/ingestion/indexer.py:33-35 | Chunk ids are injective in document id and index, underscores or not |
| `Chunking.IndexComesBack` | src/finsage/mcp/knowledge_server/__init__.py:226-231 | The index is recovered from a chunk id |
| `Chunking.DocumentComesBack` | src/finsage/mcp/knowledge_server/__init__.py:138-148 | From the stored rows in any order the document comes back with its chunks' pages, and their texts joined, in chunk order |
| `Chunking.JoinedSplits` | src/finsage/mcp/knowledge_server/__init__.py:138-148 | Joined texts are the texts in order with a blank line between neighbours |
| `Memory.EstimateTokens` | src/finsage/api/memory.py:46-53 | The smallest number of tokens that covers the text at two characters each |
| `Memory.SplitByBudget` | src/finsage/api/memory.py:97-114 | Overflow and kept make up the input; kept is the longest suffix within the budget, or the newest message alone |
| `Memory.WindowUnique` | src/finsage/api/memory.py:97-114 | There is only one such split |
| `Memory.MakeRoom` | src/finsage/api/memory.py:155-158 | The trimming loop ends with the largest suffix that fits beside the summary |
| `Memory.Compress` | src/finsage/api/memory.py:117-159 | All of it when it fits; else the window, or a summary of the overflow followed by as much of the window as fits beside it |
| `Memory.CompressedIsBounded` | src/finsage/api/memory.py:117-159 | Whatever the summariser does, the result is a suffix behind at most one summary, which is the prefix and the first characters of what the summariser says of dropped messages; and it costs no more than the budget unless it is a single message |
| `Memory.InMemorySessionMemory.Append` | src/finsage/api/memory.py:189-192 | The message joins its session, other sessions are unchanged |
| `Memory.LimitKeptExactlyWhen` | src/finsage/api/memory.py:194-207 | A limit of n hands out at most max(0, n) messages iff n is positive or the session has no more than -n |
| `Memory.InMemorySessionMemory.History` | src/finsage/api/memory.py:194-207 | The session's newest messages, as many as the limit admits, compressed into the budget; exactly these when they fit |
| `LruCache.EnrichCache.Lookup` | src/finsage/api/companies.py:77-81 | The part of a call before its await: a hit answers with what is stored and makes its key the newest, a miss changes nothing |
| `LruCache.EnrichCache.Store` | src/finsage/api/companies.py:82-86 | The part after it: the key becomes the newest with the value fetched, and the oldest of too many is dropped |
| `LruCache.EnrichCache.Enrich` | src/finsage/api/companies.py:72-87 | A call that nothing comes between: a hit answers with what was stored, a miss with what was fetched; either way the key becomes the newest and the cache stays within 64 |
| `LruCache.TouchKeys` | src/finsage/api/companies.py:80-86 | A use moves its key to the end and drops the oldest of too many |
| `LruCache.HoldsLastUsed` | src/finsage/api/companies.py:72-87 | However lookups, arriving fetches and cancelled ones interleave, the cache holds the 64 (or fewer) most recently used distinct keys, in order of their last use: a hit, or the arrival of a fetch |
| `LruCache.HitsAnswerTheLatest` | src/finsage/api/companies.py:78-83 | Every key is held, and so answered, with the value that arrived last for it, whichever call fetched it |
| `LruCache.HoldsTheMostRecent` | src/finsage/api/companies.py:72-87 | When no two calls overlap these are the most recently requested keys |
| `LruCache.CompletionDecides` | src/finsage/api/companies.py:80-86 | When they do, keys are kept in the order in which their fetches arrive, not of the requests |
| `LruCache.RecentOrder` | src/finsage/api/companies.py:84-86 | Those keys are in the order of their last use |

## Left out

- Decimal and float rounding: scores, confidences and money are exact reals; `quantize`, `round` and the 28-digit context are not modelled, nor are NaN and infinities.
- Clocks, UUIDs and JSON: times are parameters, event ids are assumed fresh, and the JSON printer is assumed newline-free and undone by the parser.
- UTF-8 decoding of the stream: the model works on decoded text.
- Redis outages and the fail-open or fail-closed choice: single branches; the available case is modelled. `scope_key` and `_limits_for` are lookups.
- Time in the limiter is counted in whole milliseconds and a key set with w to live exists during [t, t + w).
- The delays before reconnects: that a timer is set is modelled, how long it runs is not.
- SseWire.ParseFrame: the raw `id:` line is not returned, because the client never uses it.
- TaskHandles.TaskManager.Submit: the dictionary keyed by task id is a list in order of submission, because ids are fresh; `get`, `list` and `count` are left out.
- TaskHandles.TaskManager.Release: the manager's objects are shown to stand for the stepped state after the manager's own methods; emissions and subscriptions, which go straight to a handle, are shown for the handle alone.
- TaskHandles.TaskManager.Abort: it also waits for the cancelled task to wind down; the model takes the request and the task's own next steps as separate steps, so what abort comes to is stated over runs (`TaskBus.AbortOutcome`).
- A lost connection takes its queue off the list at once in `Delivery`; leaving it there longer changes nothing for others.
- ClientStore.ResearchStore.ApplySSEEvent: of the answer the text is modelled, and that a calculation makes an empty answer of none; the lists of claims and calculations, selection and display-only trace fields are left out, and so is the error object inside `task.failed`, which the server never sends.
- Fusion.HybridSearch: hits are values, not shared objects; the filter expression and rows without identity belong to the search client.
- Verification.Verify: the texts of the reasons are left out. Claim texts, prompt sanitising, drafts, sentiment, debate and warnings do not influence what is proved.
- The graph's `data_conflict`: it is not a declared state channel of the graph, so the model lets an adversary choose it at every node that reads it.
- The graph's dependencies: intent, policy and entity recognition are arbitrary; provider and retrieval calls may return anything, raise, time out or crash the run.
- Node retries in the graph: a reply stands for what the last attempt gave, or for the timeout around all of them.
- Registry.ProviderRegistry.Invoke: a provider is its name and a script of outcomes; delays between retries are left out.
- Chunking.IndexComesBack: `int()` also accepts signs, blanks and other digits; ids written by the indexer contain none.
- Chunking.ChunkDocument: text hashes and lengths are left out.
- Memory.InMemorySessionMemory.History: the MySQL store is left out, a repository call away from the same compression.
- LruCache.EnrichCache.Enrich: a hit may answer with an old research count; that the cache equals a recomputation is false. `_aggregate` is a single counting loop.
- Peer comparison, metric conflict detection, the default calculation runner, the due-diligence, report and health graphs, benchmarks, authentication and the web pages.
