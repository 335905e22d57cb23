/** The events of a task (src/finsage/api/tasks.py, apps/web/lib/constants/sse-events.ts). */
module Events {
  /** The frozen event types, and any other name. */
  datatype EventType =
    | WorkflowStarted | WorkflowStage
    | RetrievalStarted | RetrievalCompleted
    | FinancialDataStarted | FinancialDataCompleted
    | CalculationStarted | CalculationCompleted
    | AgentStarted | AgentCompleted
    | VerificationStarted | VerificationCompleted
    | AnswerDelta | AnswerCompleted
    | TaskCompleted | TaskFailed | TaskAborted
    | ErrorEvent
    | Unfrozen(name: string)

  datatype Code = WorkflowCancelled | InternalError | OtherCode(name: string)

  /** What an event says: of a task, of its failure, a text, or a calculation that has an id. */
  datatype Data =
    | NoData
    | OfTask(taskId: string, kind: string)
    | Failure(taskId: string, code: Code)
    | Problem(code: Code, retryable: bool)
    | Payload(text: string)
    | Result(calculationId: string)

  datatype Event = Event(id: string, traceId: string, kind: EventType, data: Data)

  predicate Terminal(kind: EventType) {
    kind == TaskCompleted || kind == TaskFailed || kind == TaskAborted
  }

  /** Every event has an id, and no two share one. */
  ghost predicate DistinctIds(log: seq<Event>) {
    && (forall i | 0 <= i < |log| :: log[i].id != "")
    && (forall i, j | 0 <= i < j < |log| :: log[i].id != log[j].id)
  }
}
