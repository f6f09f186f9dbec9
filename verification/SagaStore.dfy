// The persistence layer (saga/store.go): every method is one atomic row update
// whose WHERE clause is the guard. The functions define the updates on values,
// so that the interleaving model can use them; class Store performs them in place.
module SagaStore {
  import opened Wrappers
  import opened SagaTypes

  const POLL_LOCK_SECONDS := 120

  // ---------- transaction row ----------

  predicate LockFree(r: Row, now: int) {
    r.lock.None? || r.lock.value.until < now
  }

  predicate Claimable(r: Row, inst: string, now: int) {
    Live(r.status) && (LockFree(r, now) || r.lock.value.holder == inst)
  }

  function Locked(r: Row, inst: string, until: int): Row {
    r.(lock := Some(Lock(inst, until)))
  }

  function Claim(r: Row, inst: string, now: int, lease: nat): Row {
    if Claimable(r, inst, now) then Locked(r, inst, now + lease) else r
  }

  function Release(r: Row, inst: string): Row {
    if r.lock.Some? && r.lock.value.holder == inst then r.(lock := None) else r
  }

  function Cas(r: Row, expected: TxStatus, st: TxStatus, lastError: Reason): Row {
    if r.status == expected then r.(status := st, lastError := lastError) else r
  }

  function SetTxStatus(r: Row, st: TxStatus, lastError: Reason): Row {
    r.(status := st, lastError := lastError)
  }

  predicate Recoverable(r: Row, now: int) {
    Live(r.status) && LockFree(r, now)
  }

  predicate TimeoutListed(r: Row, now: int) {
    (r.status.TxRunning? || r.status.TxCompensating?)
    && r.timeoutAt.Some? && r.timeoutAt.value < now && LockFree(r, now)
  }

  // ---------- step rows ----------

  function SetStepStatus(r: Row, i: nat, st: StepStatus): Row
    requires i < |r.steps|
  {
    r.(steps := r.steps[i := r.steps[i].(status := st)])
  }

  function IncRetry(r: Row, i: nat): Row
    requires i < |r.steps|
  {
    r.(steps := r.steps[i := r.steps[i].(retryCount := r.steps[i].retryCount + 1)])
  }

  // ---------- poll tasks ----------

  // INSERT ... ON CONFLICT DO UPDATE: an existing task keeps its lock.
  function PutPollTask(r: Row, i: nat, nextPollAt: int): Row {
    r.(pollTasks := r.pollTasks[i := PollTask(nextPollAt,
        if i in r.pollTasks then r.pollTasks[i].lockedUntil else None)])
  }

  function DropPollTask(r: Row, i: nat): Row {
    r.(pollTasks := r.pollTasks - {i})
  }

  predicate Acquirable(r: Row, i: nat, now: int) {
    i in r.pollTasks && r.pollTasks[i].nextPollAt <= now
    && (r.pollTasks[i].lockedUntil.None? || r.pollTasks[i].lockedUntil.value < now)
  }

  function LockPollTask(r: Row, i: nat, now: int): Row {
    if Acquirable(r, i, now)
    then r.(pollTasks := r.pollTasks[i := r.pollTasks[i].(lockedUntil := Some(now + POLL_LOCK_SECONDS))])
    else r
  }

  function UnlockPollTask(r: Row, i: nat): Row {
    if i in r.pollTasks then r.(pollTasks := r.pollTasks[i := r.pollTasks[i].(lockedUntil := None)]) else r
  }

  // One database transaction: without a poll task row nothing is changed.
  function IncPollCount(r: Row, i: nat, nextPollAt: int): Row
    requires i < |r.steps|
  {
    if i in r.pollTasks then
      r.(steps := r.steps[i := r.steps[i].(pollCount := r.steps[i].pollCount + 1)],
         pollTasks := r.pollTasks[i := r.pollTasks[i].(nextPollAt := nextPollAt)])
    else r
  }

  // The rows of one transaction, updated in place. Calls on this class succeed;
  // failing calls are part of the interleaving model.
  class Store {
    var status: TxStatus
    var lastError: Reason
    var lock: Option<Lock>
    var timeoutAt: Option<int>
    var currentStep: int
    var steps: seq<StepRow>
    var pollTasks: map<nat, PollTask>

    function View(): Row
      reads this
    {
      Row(status, lastError, lock, timeoutAt, currentStep, steps, pollTasks)
    }

    constructor (timeoutAt: Option<int>, steps: seq<StepRow>)
      ensures View() == Row(TxPending, NoError, None, timeoutAt, 0, steps, map[])
    {
      this.status := TxPending;
      this.lastError := NoError;
      this.lock := None;
      this.timeoutAt := timeoutAt;
      this.currentStep := 0;
      this.steps := steps;
      this.pollTasks := map[];
    }

    method ClaimTransaction(inst: string, now: int, lease: nat) returns (claimed: bool)
      modifies this
      ensures claimed <==> old(Claimable(View(), inst, now))
      ensures View() == Claim(old(View()), inst, now, lease)
      ensures claimed <==> old(status in {TxPending, TxRunning, TxCompensating}
        && (lock.None? || lock.value.until < now || lock.value.holder == inst))
      ensures View() == if claimed then old(View()).(lock := Some(Lock(inst, now + lease))) else old(View())
    {
      claimed := Live(status) && (lock.None? || lock.value.until < now || lock.value.holder == inst);
      if claimed {
        lock := Some(Lock(inst, now + lease));
      }
    }

    // The two batch scans, for this row: select under the narrower guard, then claim.
    method ClaimRecoverable(inst: string, now: int, lease: nat) returns (listed: bool)
      modifies this
      ensures listed <==> old(Recoverable(View(), now))
      ensures View() == if listed then Locked(old(View()), inst, now + lease) else old(View())
      ensures listed <==> old(status in {TxPending, TxRunning, TxCompensating}
        && (lock.None? || lock.value.until < now))
      ensures listed ==> lock == Some(Lock(inst, now + lease))
    {
      listed := Live(status) && (lock.None? || lock.value.until < now);
      if listed {
        lock := Some(Lock(inst, now + lease));
      }
    }

    method ClaimTimedOut(inst: string, now: int, lease: nat) returns (listed: bool)
      modifies this
      ensures listed <==> old(TimeoutListed(View(), now))
      ensures View() == if listed then Locked(old(View()), inst, now + lease) else old(View())
      ensures listed <==> old(status in {TxRunning, TxCompensating}
        && timeoutAt.Some? && timeoutAt.value < now && (lock.None? || lock.value.until < now))
      ensures listed ==> lock == Some(Lock(inst, now + lease))
    {
      listed := (status.TxRunning? || status.TxCompensating?)
        && timeoutAt.Some? && timeoutAt.value < now
        && (lock.None? || lock.value.until < now);
      if listed {
        lock := Some(Lock(inst, now + lease));
      }
    }

    method ReleaseTransaction(inst: string)
      modifies this
      ensures View() == Release(old(View()), inst)
      ensures View() == old(View()).(lock :=
        if old(lock).Some? && old(lock).value.holder == inst then None else old(lock))
    {
      if lock.Some? && lock.value.holder == inst {
        lock := None;
      }
    }

    method UpdateTransactionStatusCAS(expected: TxStatus, st: TxStatus, reason: Reason) returns (swapped: bool)
      modifies this
      ensures swapped <==> old(status) == expected
      ensures View() == Cas(old(View()), expected, st, reason)
      ensures View() == if swapped then old(View()).(status := st, lastError := reason) else old(View())
    {
      swapped := status == expected;
      if swapped {
        status, lastError := st, reason;
      }
    }

    method UpdateTransactionStatus(st: TxStatus, reason: Reason)
      modifies this
      ensures View() == SetTxStatus(old(View()), st, reason)
      ensures View() == old(View()).(status := st, lastError := reason)
    {
      status, lastError := st, reason;
    }

    method UpdateTransactionStep(index: int)
      modifies this
      ensures View() == old(View()).(currentStep := index)
    {
      currentStep := index;
    }

    // A missing step is an error without effect, here and in the next two methods.
    method UpdateStepStatus(i: nat, st: StepStatus) returns (found: bool)
      modifies this
      ensures found <==> i < |old(steps)|
      ensures View() == if found then SetStepStatus(old(View()), i, st) else old(View())
      ensures found ==> View() == old(View()).(steps := old(steps)[i := old(steps)[i].(status := st)])
    {
      found := i < |steps|;
      if found {
        steps := steps[i := steps[i].(status := st)];
      }
    }

    method IncrementStepRetry(i: nat) returns (found: bool)
      modifies this
      ensures found <==> i < |old(steps)|
      ensures View() == if found then IncRetry(old(View()), i) else old(View())
      ensures found ==> View() == old(View()).(steps :=
        old(steps)[i := old(steps)[i].(retryCount := old(steps)[i].retryCount + 1)])
    {
      found := i < |steps|;
      if found {
        steps := steps[i := steps[i].(retryCount := steps[i].retryCount + 1)];
      }
    }

    // Both updates in one database transaction: without the poll task neither happens.
    method IncrementStepPollCount(i: nat, nextPollAt: int) returns (found: bool)
      modifies this
      ensures found <==> i < |old(steps)| && i in old(pollTasks)
      ensures View() == if found then IncPollCount(old(View()), i, nextPollAt) else old(View())
      ensures found ==> View() == old(View()).(
        steps := old(steps)[i := old(steps)[i].(pollCount := old(steps)[i].pollCount + 1)],
        pollTasks := old(pollTasks)[i := PollTask(nextPollAt, old(pollTasks)[i].lockedUntil)])
    {
      if i >= |steps| {
        return false;
      }
      found := i in pollTasks;
      if found {
        steps := steps[i := steps[i].(pollCount := steps[i].pollCount + 1)];
        pollTasks := pollTasks[i := pollTasks[i].(nextPollAt := nextPollAt)];
      }
    }

    method CreatePollTask(i: nat, nextPollAt: int)
      modifies this
      ensures View() == PutPollTask(old(View()), i, nextPollAt)
      ensures i in old(pollTasks) ==>
        pollTasks == old(pollTasks)[i := PollTask(nextPollAt, old(pollTasks)[i].lockedUntil)]
      ensures i !in old(pollTasks) ==> pollTasks == old(pollTasks)[i := PollTask(nextPollAt, None)]
    {
      var lockedUntil := if i in pollTasks then pollTasks[i].lockedUntil else None;
      pollTasks := pollTasks[i := PollTask(nextPollAt, lockedUntil)];
    }

    method DeletePollTask(i: nat)
      modifies this
      ensures View() == DropPollTask(old(View()), i)
      ensures View() == old(View()).(pollTasks := old(pollTasks) - {i})
    {
      pollTasks := pollTasks - {i};
    }

    method AcquirePollTask(i: nat, now: int) returns (acquired: bool)
      modifies this
      ensures acquired <==> old(Acquirable(View(), i, now))
      ensures View() == LockPollTask(old(View()), i, now)
      ensures acquired <==> old(i in pollTasks && pollTasks[i].nextPollAt <= now
        && (pollTasks[i].lockedUntil.None? || pollTasks[i].lockedUntil.value < now))
      ensures acquired ==> pollTasks == old(pollTasks)[i := PollTask(old(pollTasks)[i].nextPollAt, Some(now + 120))]
    {
      acquired := i in pollTasks && pollTasks[i].nextPollAt <= now
        && (pollTasks[i].lockedUntil.None? || pollTasks[i].lockedUntil.value < now);
      if acquired {
        pollTasks := pollTasks[i := pollTasks[i].(lockedUntil := Some(now + POLL_LOCK_SECONDS))];
      }
    }

    method ReleasePollTask(i: nat)
      modifies this
      ensures View() == UnlockPollTask(old(View()), i)
      ensures i in old(pollTasks) ==> pollTasks == old(pollTasks)[i := PollTask(old(pollTasks)[i].nextPollAt, None)]
    {
      if i in pollTasks {
        pollTasks := pollTasks[i := pollTasks[i].(lockedUntil := None)];
      }
    }
  }
}
