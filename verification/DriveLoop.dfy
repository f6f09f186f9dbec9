// driveTransaction with a reliable store, one driver and no deadline, against any answers
// from outside (saga/coordinator.go:295-655, saga/coordinator.go:682-749,
// saga/executor.go:102-391). The functions say what one store-level operation does to the
// rows; class Executor and class Coordinator perform them in place with the source's
// loops; Refinement shows that rereading the store in a loop computes the meaning in
// SagaSpec.
module DriveLoop {
  import opened SagaTypes
  import opened SagaStore
  import opened Selection
  import opened PollBudget
  import opened SagaSpec

  datatype StepResult = StepOk | StepRetryable | StepFatal

  // ---------- effects on the rows ----------

  // An accepted async step is being polled, with a task due at pollAt.
  function AfterAttempt(row: Row, i: nat, v: Verdict, pollAt: int): (Row, StepResult)
    requires i < |row.steps|
  {
    match v
    case Good =>
      (if row.steps[i].kind == Async then SetStepStatus(PutPollTask(row, i, pollAt), i, Polling)
       else SetStepStatus(row, i, Succeeded), StepOk)
    case Fatal => (SetStepStatus(row, i, Failed), StepFatal)
    case Soft =>
      if row.steps[i].retryCount + 1 < row.steps[i].maxRetry
      then (SetStepStatus(IncRetry(row, i), i, Pending), StepRetryable)
      else (SetStepStatus(IncRetry(row, i), i, Failed), StepFatal)
  }

  function Triggered(row: Row): Row {
    Cas(row, TxRunning, TxCompensating, StepError)
  }

  // What the poll workers make of the row; without a task nobody polls.
  function Polled(row: Row, i: nat, replies: seq<Reply>, pollAt: int): (r: Row)
    requires i < |row.steps|
    ensures |r.steps| == |row.steps|
  {
    if i in row.pollTasks then AfterPolls(row, i, replies, pollAt) else row
  }

  // What waitForAsyncStep makes of the state the polls left.
  function Resolved(row: Row, i: nat): Row
    requires i < |row.steps|
  {
    match row.steps[i].status
    case Succeeded => row.(currentStep := i + 1)
    case Compensating => row
    case Compensated => row
    case Skipped => row
    case _ => Triggered(row)
  }

  function AfterWait(row: Row, i: nat, replies: seq<Reply>, pollAt: int): Row
    requires i < |row.steps|
  {
    Resolved(Polled(row, i, replies, pollAt), i)
  }

  // One attempt and what the coordinator does about its result.
  function Executed(w: World, n: nat, row: Row, i: nat): (Row, nat)
    requires i < |row.steps|
  {
    var (v, n') := Try(w, n);
    var (row', res) := AfterAttempt(row, i, v, w.pollAt(n'));
    match res
    case StepOk =>
      if row.steps[i].kind == Async then (AfterWait(row', i, Polls(w, n'), w.pollAt(n')), n' + 2)
      else (row'.(currentStep := i + 1), n')
    case StepRetryable => (row', n')
    case StepFatal => (Triggered(row'), n')
  }

  // The attempt is to be repeated, after a pause.
  predicate Retries(w: World, n: nat, step: StepRow) {
    Try(w, n).0.Soft? && step.retryCount + 1 < step.maxRetry
  }

  function ExecutedTrail(w: World, n: nat, row: Row, i: nat): Trail
    requires i < |row.steps|
  {
    if Retries(w, n, row.steps[i]) then Then(TryTrail(w, n, i), Paused(1)) else TryTrail(w, n, i)
  }

  // executeNextStep: the new row, the next question, and whether to go on.
  function NextStep(w: World, n: nat, row: Row): (Row, nat, bool) {
    if AnyFailed(row.steps) then (Triggered(row), n, true)
    else if AllSucceeded(row.steps) then (Cas(row, TxRunning, TxSucceeded, NoError), n, false)
    else
      var cur := Pick(row.steps, |row.steps|);
      if cur.None? then (row, n, false)
      else if Sends(row.steps[cur.value]) then
        var (row', n') := Executed(w, n, row, cur.value);
        (row', n', true)
      else (AfterWait(row, cur.value, Polls(w, n), w.pollAt(n)), n + 2, true)
  }

  function NextTrail(w: World, n: nat, row: Row): Trail {
    var cur := Pick(row.steps, |row.steps|);
    if AnyFailed(row.steps) || AllSucceeded(row.steps) || cur.None? || !Sends(row.steps[cur.value]) then Silence
    else ExecutedTrail(w, n, row, cur.value)
  }

  function ApplyUndo(row: Row, todo: seq<nat>, oks: seq<bool>): (r: Row)
    requires |todo| == |oks| && forall k :: 0 <= k < |todo| ==> todo[k] < |row.steps|
    ensures r == row.(steps := r.steps) && |r.steps| == |row.steps|
    decreases |todo|
  {
    if todo == [] then row
    else ApplyUndo(SetStepStatus(row, todo[0], if oks[0] then Compensated else Failed), todo[1..], oks[1..])
  }

  function SkipPending(row: Row, snap: seq<StepRow>, k: nat): (r: Row)
    requires k <= |snap| == |row.steps|
    ensures r == row.(steps := r.steps) && |r.steps| == |row.steps|
  {
    if k == 0 then row
    else if snap[k - 1].status == Pending then SetStepStatus(SkipPending(row, snap, k - 1), k - 1, Skipped)
    else SkipPending(row, snap, k - 1)
  }

  // executeCompensation, from the rows as they are.
  function CompensatedRow(w: World, n: nat, row: Row): (Row, nat) {
    var todo := ToCompensate(row.steps, |row.steps|);
    var (oks, n') := UndoAll(w, n, row.steps, todo);
    var undone := SkipPending(ApplyUndo(row, todo, oks), row.steps, |row.steps|);
    (SetTxStatus(undone, TxFailed, CompensationVerdict(AllTrue(oks))), n')
  }

  // ---------- termination ----------

  // Forward attempts that the unfinished steps still allow.
  function Budget(steps: seq<StepRow>): nat {
    if steps == [] then 0
    else Budget(steps[..|steps| - 1])
         + (if steps[|steps| - 1].status == Succeeded then 0 else AttemptsLeft(steps[|steps| - 1]))
  }

  // An upper bound on the iterations still to come.
  function Fuel(row: Row): nat {
    match row.status
    case TxPending => Budget(row.steps) + 2
    case TxRunning => Budget(row.steps) + 1
    case TxCompensating => 1
    case _ => 0
  }

  lemma {:induction false} BudgetUpdate(steps: seq<StepRow>, i: nat, step: StepRow)
    requires i < |steps|
    ensures Budget(steps[i := step]) ==
      Budget(steps) - (if steps[i].status == Succeeded then 0 else AttemptsLeft(steps[i]))
      + (if step.status == Succeeded then 0 else AttemptsLeft(step))
    decreases |steps|
  {
    var last := |steps| - 1;
    var steps' := steps[i := step];
    if i == last {
      assert steps'[..last] == steps[..last];
    } else {
      assert steps'[..last] == steps[..last][i := step];
      BudgetUpdate(steps[..last], i, step);
    }
  }

  lemma {:induction false} BudgetPositive(steps: seq<StepRow>, i: nat)
    requires i < |steps| && steps[i].status != Succeeded
    ensures Budget(steps) >= 1
    decreases |steps|
  {
    if i < |steps| - 1 {
      BudgetPositive(steps[..|steps| - 1], i);
    }
  }

  // Polling touches only the step and its task.
  lemma {:induction false} PollsFrame(row: Row, i: nat, replies: seq<Reply>, pollAt: int)
    requires i < |row.steps|
    ensures var r := AfterPolls(row, i, replies, pollAt);
      && r == row.(steps := row.steps[i := r.steps[i]], pollTasks := r.pollTasks)
      && r.steps[i] == row.steps[i].(status := r.steps[i].status, pollCount := r.steps[i].pollCount)
      && (row.steps[i].status != Polling ==> r.steps[i] == row.steps[i])
      && (row.steps[i].status == Polling ==>
            r.steps[i].status == Polling || r.steps[i].status == Succeeded || r.steps[i].status == Failed)
  {
    if replies != [] {
      PollsFrame(row, i, replies[..|replies| - 1], pollAt);
    }
  }

  lemma PolledFrame(row: Row, i: nat, replies: seq<Reply>, pollAt: int)
    requires i < |row.steps|
    ensures var r := Polled(row, i, replies, pollAt);
      && r == row.(steps := row.steps[i := r.steps[i]], pollTasks := r.pollTasks)
      && r.steps[i] == row.steps[i].(status := r.steps[i].status, pollCount := r.steps[i].pollCount)
      && (row.steps[i].status != Polling ==> r.steps[i] == row.steps[i])
      && (row.steps[i].status == Polling ==>
            r.steps[i].status == Polling || r.steps[i].status == Succeeded || r.steps[i].status == Failed)
  {
    PollsFrame(row, i, replies, pollAt);
  }

  // What an iteration that goes on leaves: fewer attempts, or a compensating transaction.
  predicate GoesOn(row: Row, row': Row) {
    && (row'.status == row.status || (row.status.TxRunning? && row'.status.TxCompensating?))
    && (row'.status == row.status ==> Budget(row'.steps) < Budget(row.steps))
  }

  lemma WaitUsesBudget(row: Row, i: nat, replies: seq<Reply>, pollAt: int)
    requires row.status.TxRunning? && i < |row.steps| && Open(row.steps[i].status)
    ensures GoesOn(row, AfterWait(row, i, replies, pollAt))
  {
    PolledFrame(row, i, replies, pollAt);
    BudgetUpdate(row.steps, i, Polled(row, i, replies, pollAt).steps[i]);
    BudgetPositive(row.steps, i);
  }

  lemma AttemptUsesBudget(row: Row, i: nat, v: Verdict, pollAt: int)
    requires i < |row.steps| && Open(row.steps[i].status)
    ensures var (row', res) := AfterAttempt(row, i, v, pollAt);
      && row'.status == row.status && |row'.steps| == |row.steps|
      && (res.StepRetryable? || (res.StepOk? && row.steps[i].kind != Async) ==> Budget(row'.steps) < Budget(row.steps))
      && (res.StepOk? && row.steps[i].kind == Async ==> Budget(row'.steps) == Budget(row.steps))
  {
    var row' := AfterAttempt(row, i, v, pollAt).0;
    assert row'.steps == row.steps[i := row'.steps[i]];
    BudgetUpdate(row.steps, i, row'.steps[i]);
  }

  lemma ExecutedUsesBudget(w: World, n: nat, row: Row, i: nat)
    requires row.status.TxRunning? && i < |row.steps| && Open(row.steps[i].status)
    ensures GoesOn(row, Executed(w, n, row, i).0)
  {
    var (v, n') := Try(w, n);
    var (row', res) := AfterAttempt(row, i, v, w.pollAt(n'));
    AttemptUsesBudget(row, i, v, w.pollAt(n'));
    if res.StepOk? && row.steps[i].kind == Async {
      WaitUsesBudget(row', i, Polls(w, n'), w.pollAt(n'));
    }
  }

  // Every iteration that goes on uses up fuel.
  lemma NextStepUsesFuel(w: World, n: nat, row: Row)
    requires row.status.TxRunning?
    requires NextStep(w, n, row).2
    ensures var row' := NextStep(w, n, row).0;
      Live(row'.status) && !row'.status.TxPending? && Fuel(row') < Fuel(row)
  {
    if AnyFailed(row.steps) {
      var i :| 0 <= i < |row.steps| && row.steps[i].status == Failed;
      BudgetPositive(row.steps, i);
    } else {
      var i := Pick(row.steps, |row.steps|).value;
      BudgetPositive(row.steps, i);
      if Sends(row.steps[i]) {
        ExecutedUsesBudget(w, n, row, i);
      } else {
        WaitUsesBudget(row, i, Polls(w, n), w.pollAt(n));
      }
    }
  }

  // What became of step i decides about the transaction: a succeeded step moves
  // currentStep behind it, a pending one is to be repeated, and any other state begins
  // compensation because of a step error.
  predicate Decided(row: Row, r: Row, i: nat)
    requires i < |row.steps|
  {
    && |r.steps| == |row.steps|
    && (r.steps[i].status == Succeeded ==> r.status == row.status && r.currentStep == i + 1)
    && (r.steps[i].status == Pending ==> r.status == row.status && r.currentStep == row.currentStep)
    && (r.steps[i].status in {Running, Polling, Failed} ==>
          r.status == TxCompensating && r.lastError == StepError && r.currentStep == row.currentStep)
    && r.steps[i].status in {Pending, Running, Polling, Succeeded, Failed}
    && forall j :: 0 <= j < |row.steps| && j != i ==> r.steps[j] == row.steps[j]
  }

  lemma WaitDecides(row: Row, i: nat, replies: seq<Reply>, pollAt: int)
    requires row.status == TxRunning && i < |row.steps| && row.steps[i].status in {Running, Polling}
    ensures Decided(row, AfterWait(row, i, replies, pollAt), i)
  {
    PolledFrame(row, i, replies, pollAt);
  }

  lemma ExecutedDecides(w: World, n: nat, row: Row, i: nat)
    requires row.status == TxRunning && i < |row.steps| && row.steps[i].status in {Pending, Running}
    ensures Decided(row, Executed(w, n, row, i).0, i)
  {
    var (v, n') := Try(w, n);
    var (row', res) := AfterAttempt(row, i, v, w.pollAt(n'));
    if res.StepOk? && row.steps[i].kind == Async {
      WaitDecides(row', i, Polls(w, n'), w.pollAt(n'));
    }
  }

  // One iteration works on a single step, and that step decides.
  lemma IterationDecides(w: World, n: nat, row: Row)
    requires row.status == TxRunning
    requires forall j :: 0 <= j < |row.steps| ==> row.steps[j].status != Failed
    requires Pick(row.steps, |row.steps|).Some?
    ensures Decided(row, NextStep(w, n, row).0, Pick(row.steps, |row.steps|).value)
  {
    var i := Pick(row.steps, |row.steps|).value;
    if Sends(row.steps[i]) {
      ExecutedDecides(w, n, row, i);
    } else {
      WaitDecides(row, i, Polls(w, n), w.pollAt(n));
    }
  }

  // One iteration of the drive loop.
  function Round(w: World, n: nat, row: Row): (Row, nat, bool)
    requires Live(row.status)
  {
    match row.status
    case TxPending => (Cas(row, TxPending, TxRunning, NoError), n, true)
    case TxRunning => NextStep(w, n, row)
    case TxCompensating => var (row', n') := CompensatedRow(w, n, row); (row', n', false)
  }

  function RoundTrail(w: World, n: nat, row: Row): Trail {
    match row.status
    case TxRunning => NextTrail(w, n, row)
    case TxCompensating => UndoAllTrail(w, n, row.steps, ToCompensate(row.steps, |row.steps|))
    case _ => Silence
  }

  lemma RoundUsesFuel(w: World, n: nat, row: Row)
    requires Live(row.status)
    ensures var (row', _, more) := Round(w, n, row);
      more ==> Live(row'.status) && Fuel(row') < Fuel(row)
  {
    if row.status.TxRunning? && NextStep(w, n, row).2 {
      NextStepUsesFuel(w, n, row);
    }
  }

  // The whole loop: final row, next question, number of iterations. It ends after at
  // most 2 + Budget iterations, since Fuel drops in each one that goes on.
  function DriveFrom(w: World, n: nat, row: Row): (r: (Row, nat, nat))
    requires Live(row.status)
    ensures r.2 <= Fuel(row)
    decreases Fuel(row)
  {
    RoundUsesFuel(w, n, row);
    var (row', n', more) := Round(w, n, row);
    if more then
      var r := DriveFrom(w, n', row');
      (r.0, r.1, r.2 + 1)
    else (row', n', 1)
  }

  function DriveTrail(w: World, n: nat, row: Row): Trail
    requires Live(row.status)
    decreases Fuel(row)
  {
    RoundUsesFuel(w, n, row);
    var (row', n', more) := Round(w, n, row);
    if more then Then(RoundTrail(w, n, row), DriveTrail(w, n', row')) else RoundTrail(w, n, row)
  }

  // ---------- compensation, step by step ----------

  lemma {:induction false} ApplyUndoAt(row: Row, todo: seq<nat>, oks: seq<bool>, j: nat)
    requires |todo| == |oks| && j < |row.steps|
    requires forall k :: 0 <= k < |todo| ==> todo[k] < |row.steps|
    requires Decreasing(todo)
    ensures var r := ApplyUndo(row, todo, oks);
      && r.steps[j] == row.steps[j].(status := r.steps[j].status)
      && (j !in todo ==> r.steps[j] == row.steps[j])
      && (forall k :: 0 <= k < |todo| && todo[k] == j ==>
            r.steps[j].status == if oks[k] then Compensated else Failed)
    decreases |todo|
  {
    if todo != [] {
      var row' := SetStepStatus(row, todo[0], if oks[0] then Compensated else Failed);
      ApplyUndoAt(row', todo[1..], oks[1..], j);
      forall k | 0 <= k < |todo| && todo[k] == j
        ensures ApplyUndo(row, todo, oks).steps[j].status == if oks[k] then Compensated else Failed
      {
        if k > 0 {
          assert todo[1..][k - 1] == j && oks[1..][k - 1] == oks[k];
        } else {
          assert j !in todo[1..];
        }
      }
    }
  }

  lemma {:induction false} SkipPendingAt(row: Row, snap: seq<StepRow>, k: nat, j: nat)
    requires k <= |snap| == |row.steps| && j < |snap|
    ensures SkipPending(row, snap, k).steps[j] ==
      if j < k && snap[j].status == Pending then row.steps[j].(status := Skipped) else row.steps[j]
  {
    if k > 0 {
      SkipPendingAt(row, snap, k - 1, j);
    }
  }

  lemma FinalOther(w: World, n: nat, row: Row, j: nat)
    requires j < |row.steps| && !Undoable(row.steps[j].status)
    ensures CompensatedRow(w, n, row).0.steps[j] ==
      (if row.steps[j].status == Pending then row.steps[j].(status := Skipped) else row.steps[j])
  {
    var todo := ToCompensate(row.steps, |row.steps|);
    var oks := UndoAll(w, n, row.steps, todo).0;
    CompensationOrder(row.steps, |row.steps|);
    CompensationMembers(row.steps, |row.steps|, j);
    ApplyUndoAt(row, todo, oks, j);
    SkipPendingAt(ApplyUndo(row, todo, oks), row.steps, |row.steps|, j);
  }

  lemma FinalUndone(w: World, n: nat, row: Row, k: nat)
    requires k < |ToCompensate(row.steps, |row.steps|)|
    ensures var todo := ToCompensate(row.steps, |row.steps|);
      CompensatedRow(w, n, row).0.steps[todo[k]].status ==
        if UndoAll(w, n, row.steps, todo).0[k] then Compensated else Failed
  {
    var todo := ToCompensate(row.steps, |row.steps|);
    var oks := UndoAll(w, n, row.steps, todo).0;
    CompensationOrder(row.steps, |row.steps|);
    ApplyUndoAt(row, todo, oks, todo[k]);
    SkipPendingAt(ApplyUndo(row, todo, oks), row.steps, |row.steps|, todo[k]);
  }

  // Where every step of the snapshot ends up, and that the recorded verdict is
  // "compensation completed" exactly when every visited step was written Compensated.
  lemma CompensationOutcome(w: World, n: nat, row: Row)
    ensures var todo := ToCompensate(row.steps, |row.steps|);
      var oks := UndoAll(w, n, row.steps, todo).0;
      var r := CompensatedRow(w, n, row).0;
      && r.status == TxFailed && |r.steps| == |row.steps|
      && (forall j :: 0 <= j < |row.steps| && row.steps[j].status == Pending ==> r.steps[j].status == Skipped)
      && (forall j :: 0 <= j < |row.steps| && row.steps[j].status != Pending && !Undoable(row.steps[j].status) ==>
            r.steps[j] == row.steps[j])
      && (forall k :: 0 <= k < |todo| ==> r.steps[todo[k]].status == if oks[k] then Compensated else Failed)
      && (r.lastError == CompensationCompleted <==>
            forall k :: 0 <= k < |todo| ==> r.steps[todo[k]].status == Compensated)
  {
    var todo := ToCompensate(row.steps, |row.steps|);
    var oks := UndoAll(w, n, row.steps, todo).0;
    var r := CompensatedRow(w, n, row).0;
    forall j | 0 <= j < |row.steps|
      ensures row.steps[j].status == Pending ==> r.steps[j].status == Skipped
      ensures row.steps[j].status != Pending && !Undoable(row.steps[j].status) ==> r.steps[j] == row.steps[j]
    {
      if !Undoable(row.steps[j].status) {
        FinalOther(w, n, row, j);
      }
    }
    forall k | 0 <= k < |todo| ensures r.steps[todo[k]].status == if oks[k] then Compensated else Failed {
      FinalUndone(w, n, row, k);
    }
  }

  // ---------- polls ----------

  lemma {:induction false} PollsCons(row: Row, i: nat, reply: Reply, rest: seq<Reply>, pollAt: int)
    requires i < |row.steps|
    ensures AfterPolls(row, i, [reply] + rest, pollAt) == AfterPolls(AfterPoll(row, i, reply, pollAt), i, rest, pollAt)
    decreases |rest|
  {
    if rest == [] {
      assert ([reply] + rest)[..0] == [];
    } else {
      var init := rest[..|rest| - 1];
      assert ([reply] + rest)[..|[reply] + rest| - 1] == [reply] + init;
      PollsCons(row, i, reply, init, pollAt);
    }
  }

  lemma {:induction false} PollsSettled(row: Row, i: nat, replies: seq<Reply>, pollAt: int)
    requires i < |row.steps| && row.steps[i].status != Polling && i !in row.pollTasks
    ensures AfterPolls(row, i, replies, pollAt) == row
  {
    if replies != [] {
      PollsSettled(row, i, replies[..|replies| - 1], pollAt);
      assert row.pollTasks - {i} == row.pollTasks;
    }
  }

  lemma {:induction false} PollsJoin(row: Row, i: nat, a: seq<Reply>, b: seq<Reply>, pollAt: int)
    requires i < |row.steps|
    ensures AfterPolls(row, i, a + b, pollAt) == AfterPolls(AfterPolls(row, i, a, pollAt), i, b, pollAt)
    decreases |b|
  {
    if b == [] {
      assert a + b == a;
    } else {
      assert (a + b)[..|a + b| - 1] == a + b[..|b| - 1];
      PollsJoin(row, i, a, b[..|b| - 1], pollAt);
    }
  }

  function EndStatus(end: StepEnd): StepStatus {
    match end
    case Done => Succeeded
    case Broken => Failed
    case Unresolved => Polling
    case Stranded => Running
  }

  // The rows after the polls say how they ended.
  lemma {:induction false} PollsMean(row: Row, i: nat, replies: seq<Reply>, pollAt: int)
    requires i < |row.steps| && row.steps[i].status == Polling && i in row.pollTasks
    ensures AfterPolls(row, i, replies, pollAt).steps[i].status ==
      EndStatus(PollEnd(row.steps[i].pollCount, row.steps[i].pollMaxTimes, replies))
    decreases |replies|
  {
    if replies != [] {
      var row' := AfterPoll(row, i, replies[0], pollAt);
      assert replies == [replies[0]] + replies[1..];
      PollsCons(row, i, replies[0], replies[1..], pollAt);
      if row'.steps[i].status == Polling {
        PollsMean(row', i, replies[1..], pollAt);
      } else {
        PollsSettled(row', i, replies[1..], pollAt);
      }
    }
  }

  // ---------- the loop ----------

  lemma DriveRound(w: World, n: nat, row: Row)
    requires Live(row.status)
    ensures var (row', n', more) := Round(w, n, row);
      && (more ==> Live(row'.status) && Fuel(row') < Fuel(row))
      && DriveFrom(w, n, row) ==
           (if more then (DriveFrom(w, n', row').0, DriveFrom(w, n', row').1, DriveFrom(w, n', row').2 + 1)
            else (row', n', 1))
      && DriveTrail(w, n, row) ==
           (if more then Then(RoundTrail(w, n, row), DriveTrail(w, n', row')) else RoundTrail(w, n, row))
  {
    RoundUsesFuel(w, n, row);
  }
}
