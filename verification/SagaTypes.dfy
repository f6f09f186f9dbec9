// Shared vocabulary: option and result values.
module Wrappers {

  datatype Option<+T> = None | Some(value: T)

  datatype Result<+T, +E> = Ok(value: T) | Err(error: E)
}

// Status enumerations and persisted rows (saga/definition.go).
module SagaTypes {
  import opened Wrappers

  datatype TxStatus = TxPending | TxRunning | TxCompensating | TxSucceeded | TxFailed

  datatype StepStatus =
    | Pending | Running | Polling | Succeeded | Failed
    | Compensating | Compensated | Skipped

  // OtherKind stands for any type string besides "sync" and "async"; Build only
  // replaces the empty string, and executeStep falls back to the sync path.
  datatype StepKind = Sync | Async | OtherKind

  datatype StepRow = StepRow(
    kind: StepKind,
    status: StepStatus,
    retryCount: int,
    maxRetry: int,
    pollCount: int,
    pollMaxTimes: int)

  datatype PollTask = PollTask(nextPollAt: int, lockedUntil: Option<int>)

  // locked_by and locked_until are always written and cleared together.
  datatype Lock = Lock(holder: string, until: int)

  // The last_error texts, as far as they are told apart.
  datatype Reason = NoError | StepError | DeadlineError | CompensationCompleted | CompensationPartlyFailed

  // Everything the store keeps about one transaction.
  datatype Row = Row(
    status: TxStatus,
    lastError: Reason,
    lock: Option<Lock>,
    timeoutAt: Option<int>,
    currentStep: int,
    steps: seq<StepRow>,
    pollTasks: map<nat, PollTask>)

  predicate Live(st: TxStatus) {
    st.TxPending? || st.TxRunning? || st.TxCompensating?
  }

  predicate Terminal(st: TxStatus) {
    st.TxSucceeded? || st.TxFailed?
  }

  predicate TimedOut(timeoutAt: Option<int>, now: int) {
    timeoutAt.Some? && timeoutAt.value <= now
  }

  // Compensation retries of a step; zero means the default of three.
  function UndoRetries(step: StepRow): int {
    if step.maxRetry == 0 then 3 else step.maxRetry
  }

  function CompensationVerdict(ok: bool): Reason {
    if ok then CompensationCompleted else CompensationPartlyFailed
  }
}
