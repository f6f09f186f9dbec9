// The drive loop computes the meaning in SagaSpec, although it rereads the store between
// any two attempts.
module Refinement {
  import opened SagaTypes
  import opened SagaStore
  import opened Selection
  import opened SagaSpec
  import opened DriveLoop

  predicate SameRetryLimits(a: seq<StepRow>, b: seq<StepRow>) {
    |a| == |b| && forall j :: 0 <= j < |a| ==> a[j].maxRetry == b[j].maxRetry
  }

  function Statuses(steps: seq<StepRow>): seq<StepStatus> {
    seq(|steps|, j requires 0 <= j < |steps| => steps[j].status)
  }

  lemma {:induction false} ForwardRunSame(w: World, n: nat, a: seq<StepRow>, b: seq<StepRow>, k: nat)
    requires k <= |a| == |b|
    requires forall j :: k <= j < |a| ==> a[j] == b[j]
    ensures ForwardRun(w, n, a, k) == ForwardRun(w, n, b, k)
    ensures ForwardTrail(w, n, a, k) == ForwardTrail(w, n, b, k)
    decreases |a| - k
  {
    if k < |a| {
      ForwardRunSame(w, StepRun(w, n, a[k]).1, a, b, k + 1);
    }
  }

  // Undoing depends on the retry limit of a step and on nothing else of it.
  lemma UndoStepSame(w: World, n: nat, a: StepRow, b: StepRow, i: nat)
    requires a.maxRetry == b.maxRetry
    ensures UndoStep(w, n, a) == UndoStep(w, n, b) && UndoTrail(w, n, a, i) == UndoTrail(w, n, b, i)
  {
    var left := UndoAttempts(a);
    assert left == UndoAttempts(b);
  }

  lemma {:induction false} UndoAllSame(w: World, n: nat, a: seq<StepRow>, b: seq<StepRow>, todo: seq<nat>)
    requires SameRetryLimits(a, b) && forall k :: 0 <= k < |todo| ==> todo[k] < |a|
    ensures UndoAll(w, n, a, todo) == UndoAll(w, n, b, todo)
    ensures UndoAllTrail(w, n, a, todo) == UndoAllTrail(w, n, b, todo)
    decreases |todo|
  {
    if todo != [] {
      var i := todo[0];
      UndoStepSame(w, n, a[i], b[i], i);
      UndoAllSame(w, UndoStep(w, n, a[i]).1, a, b, todo[1..]);
    }
  }

  // Step k ended the forward run that way.
  predicate Stopped(steps: seq<StepRow>, k: nat, end: StepEnd) {
    Front(steps, k) && k < |steps| && steps[k].status == EndStatus(end)
  }

  // Then exactly the steps below it are to be undone, and itself if it was accepted.
  lemma {:induction false} CompensateBelow(steps: seq<StepRow>, k: nat, end: StepEnd, n: nat)
    requires Stopped(steps, k, end) && n <= |steps|
    ensures var count := UndoCount(StopsAt(k, end));
      ToCompensate(steps, n) == Downwards(if n <= count then n else count)
    decreases n
  {
    if n > 0 {
      CompensateBelow(steps, k, end, n - 1);
    }
  }

  function Undone(w: World, n: nat, steps: seq<StepRow>, f: Forward): seq<bool>
    requires f.StopsAt? && f.k < |steps|
  {
    UndoAll(w, n, steps, Downwards(UndoCount(f))).0
  }

  lemma StoppedBelow(w: World, n: nat, row: Row, k: nat, end: StepEnd, j: nat)
    requires Stopped(row.steps, k, end) && j < UndoCount(StopsAt(k, end))
    ensures var oks := Undone(w, n, row.steps, StopsAt(k, end));
      CompensatedRow(w, n, row).0.steps[j].status == if oks[|oks| - 1 - j] then Compensated else Failed
  {
    CompensateBelow(row.steps, k, end, |row.steps|);
    FinalUndone(w, n, row, UndoCount(StopsAt(k, end)) - 1 - j);
  }

  lemma StoppedAbove(w: World, n: nat, row: Row, k: nat, end: StepEnd, j: nat)
    requires Stopped(row.steps, k, end) && UndoCount(StopsAt(k, end)) <= j < |row.steps| && !end.Done?
    ensures CompensatedRow(w, n, row).0.steps[j].status ==
      if j > k then Skipped else if end.Stranded? then Running else Failed
  {
    FinalOther(w, n, row, j);
  }

  lemma StoppedOutcome(w: World, n: nat, row: Row, k: nat, end: StepEnd)
    requires Stopped(row.steps, k, end) && !end.Done?
    ensures var r := CompensatedRow(w, n, row).0;
      var oks := Undone(w, n, row.steps, StopsAt(k, end));
      && r.status == TxFailed && r.currentStep == row.currentStep
      && (r.lastError == CompensationCompleted <==> AllTrue(oks))
      && Statuses(r.steps) == UndoneStatuses(StopsAt(k, end), oks, |row.steps|)
  {
    var r, f := CompensatedRow(w, n, row).0, StopsAt(k, end);
    CompensateBelow(row.steps, k, end, |row.steps|);
    forall j | 0 <= j < |row.steps|
      ensures Statuses(r.steps)[j] == UndoneStatuses(f, Undone(w, n, row.steps, f), |row.steps|)[j]
    {
      if j < UndoCount(StopsAt(k, end)) {
        StoppedBelow(w, n, row, k, end, j);
      } else {
        StoppedAbove(w, n, row, k, end, j);
      }
    }
  }

  // A step that is being polled has its task.
  predicate TaskKept(row: Row, k: nat) {
    k < |row.steps| && row.steps[k].status == Polling ==> k in row.pollTasks
  }

  // Where the forward run ended: at the step that stopped it, or behind the last one.
  function Reached(f: Forward, size: nat): nat {
    if f.StopsAt? then f.k else size
  }

  // The final row r and the trail are what the saga means, from step k on.
  predicate Meant(w: World, n: nat, steps: seq<StepRow>, k: nat, r: Row, trail: Trail)
    requires k <= |steps|
  {
    var (f, n') := ForwardRun(w, n, steps, k);
    && Verdicts(r.status, Statuses(r.steps)) == SagaVerdicts(w, n, steps, k)
    && trail == SagaTrail(w, n, steps, k)
    && (f.StopsAt? ==> (r.lastError == CompensationCompleted <==> AllTrue(Undone(w, n', steps, f))))
  }

  // ---------- one iteration ----------

  // What an iteration on a running row does to the meaning: the run goes on behind step
  // k or with one attempt less, or stops there.
  predicate Advances(w: World, n: nat, row: Row, k: nat, row': Row, n': nat, k': nat, trail: Trail)
    requires k <= |row.steps|
  {
    && row'.status.TxRunning? && k <= k' <= |row'.steps| && Front(row'.steps, k') && TaskKept(row', k')
    && SameRetryLimits(row'.steps, row.steps)
    && (row.currentStep == k ==> row'.currentStep == k')
    && ForwardRun(w, n, row.steps, k) == ForwardRun(w, n', row'.steps, k')
    && ForwardTrail(w, n, row.steps, k) == Then(trail, ForwardTrail(w, n', row'.steps, k'))
  }

  predicate Halts(w: World, n: nat, row: Row, k: nat, row': Row, n': nat, trail: Trail)
    requires k <= |row.steps|
  {
    var (f, m) := ForwardRun(w, n, row.steps, k);
    && row'.status.TxCompensating? && f.StopsAt? && f.k == k && m == n' && Stopped(row'.steps, k, f.end)
    && SameRetryLimits(row'.steps, row.steps)
    && row'.currentStep == row.currentStep
    && ForwardTrail(w, n, row.steps, k) == trail
  }

  predicate Iterates(w: World, n: nat, row: Row, k: nat, row': Row, n': nat, trail: Trail)
    requires k <= |row.steps|
  {
    || Advances(w, n, row, k, row', n', k, trail)
    || Advances(w, n, row, k, row', n', k + 1, trail)
    || Halts(w, n, row, k, row', n', trail)
  }

  // Step k got done.
  lemma DoneAdvances(w: World, n: nat, row: Row, k: nat, row': Row, n': nat)
    requires Front(row.steps, k) && k < |row.steps| == |row'.steps|
    requires row'.status.TxRunning? && row'.currentStep == k + 1
    requires row'.steps == row.steps[k := row'.steps[k]]
    requires row'.steps[k].status == Succeeded && row'.steps[k].maxRetry == row.steps[k].maxRetry
    requires StepRun(w, n, row.steps[k]) == (Done, n')
    ensures Advances(w, n, row, k, row', n', k + 1, StepTrail(w, n, row.steps[k], k))
  {
    ForwardRunSame(w, n', row.steps, row'.steps, k + 1);
  }

  lemma WaitIterates(w: World, n: nat, row: Row, k: nat, was: Row, n0: nat)
    requires row.status.TxRunning? && Front(row.steps, k) && TaskKept(row, k)
    requires k < |row.steps| && (row.steps[k].status == Polling || row.steps[k].status == Running)
    requires was.status.TxRunning? && k < |was.steps| && was.currentStep == row.currentStep
    requires row.steps == was.steps[k := row.steps[k]] && row.steps[k].maxRetry == was.steps[k].maxRetry
    requires Front(was.steps, k)
    requires StepRun(w, n0, was.steps[k]) ==
      (if row.steps[k].status == Running then Stranded
       else PollEnd(row.steps[k].pollCount, row.steps[k].pollMaxTimes, Polls(w, n)), n + 2)
    ensures Iterates(w, n0, was, k, AfterWait(row, k, Polls(w, n), w.pollAt(n)), n + 2,
                     StepTrail(w, n0, was.steps[k], k))
  {
    var r := Polled(row, k, Polls(w, n), w.pollAt(n));
    PolledFrame(row, k, Polls(w, n), w.pollAt(n));
    if row.steps[k].status == Polling {
      PollsMean(row, k, Polls(w, n), w.pollAt(n));
    }
    if r.steps[k].status == Succeeded {
      DoneAdvances(w, n0, was, k, Resolved(r, k), n + 2);
    }
  }

  lemma FatalHalts(w: World, n: nat, row: Row, k: nat, row': Row, n': nat)
    requires Front(row.steps, k) && k < |row.steps| == |row'.steps| && Sends(row.steps[k])
    requires row'.status.TxCompensating? && row'.currentStep == row.currentStep
    requires row'.steps == row.steps[k := row'.steps[k]]
    requires row'.steps[k].status == Failed && row'.steps[k].maxRetry == row.steps[k].maxRetry
    requires Try(w, n).1 == n' && (Try(w, n).0.Fatal? || (Try(w, n).0.Soft? && AttemptsLeft(row.steps[k]) == 1))
    ensures Halts(w, n, row, k, row', n', TryTrail(w, n, k))
  {
    assert Attempts(w, n, AttemptsLeft(row.steps[k])) == (false, n');
    assert StepRun(w, n, row.steps[k]) == (Broken, n');
  }

  lemma RetryIterates(w: World, n: nat, row: Row, k: nat)
    requires row.status.TxRunning? && Front(row.steps, k) && k < |row.steps| && Sends(row.steps[k])
    requires Retries(w, n, row.steps[k])
    ensures Advances(w, n, row, k, Executed(w, n, row, k).0, Executed(w, n, row, k).1, k, ExecutedTrail(w, n, row, k))
  {
    var (row', n') := Executed(w, n, row, k);
    assert row'.steps == row.steps[k := row'.steps[k]];
    RetryAdvances(w, n, row, k, row', n');
  }

  lemma FatalIterates(w: World, n: nat, row: Row, k: nat)
    requires row.status.TxRunning? && Front(row.steps, k) && k < |row.steps| && Sends(row.steps[k])
    requires !Try(w, n).0.Good? && !Retries(w, n, row.steps[k])
    ensures Halts(w, n, row, k, Executed(w, n, row, k).0, Executed(w, n, row, k).1, ExecutedTrail(w, n, row, k))
  {
    var (row', n') := Executed(w, n, row, k);
    assert row'.steps == row.steps[k := row'.steps[k]];
    FatalHalts(w, n, row, k, row', n');
  }

  lemma RetryAdvances(w: World, n: nat, row: Row, k: nat, row': Row, n': nat)
    requires row'.status.TxRunning? && Front(row.steps, k) && k < |row.steps| == |row'.steps| && Sends(row.steps[k])
    requires row'.steps == row.steps[k := row'.steps[k]] && row'.currentStep == row.currentStep
    requires row'.steps[k] == row.steps[k].(status := Pending, retryCount := row.steps[k].retryCount + 1)
    requires Try(w, n) == (Soft, n') && AttemptsLeft(row.steps[k]) > 1
    ensures Advances(w, n, row, k, row', n', k, Then(TryTrail(w, n, k), Paused(1)))
  {
    var left := AttemptsLeft(row.steps[k]);
    var first := Then(TryTrail(w, n, k), Paused(1));
    var (end, m) := StepRun(w, n, row.steps[k]);
    assert AttemptsLeft(row'.steps[k]) == left - 1;
    assert StepRun(w, n', row'.steps[k]) == (end, m);
    assert StepTrail(w, n, row.steps[k], k) == Then(first, StepTrail(w, n', row'.steps[k], k));
    if end.Done? {
      ForwardRunSame(w, m, row.steps, row'.steps, k + 1);
      ThenAssociates(first, StepTrail(w, n', row'.steps[k], k), ForwardTrail(w, m, row'.steps, k + 1));
    }
  }

  lemma SyncIterates(w: World, n: nat, row: Row, k: nat)
    requires row.status.TxRunning? && Front(row.steps, k) && k < |row.steps| && Sends(row.steps[k])
    requires Try(w, n).0.Good? && row.steps[k].kind != Async
    ensures Advances(w, n, row, k, Executed(w, n, row, k).0, Executed(w, n, row, k).1, k + 1,
                     ExecutedTrail(w, n, row, k))
  {
    var (row', n') := Executed(w, n, row, k);
    assert row'.steps == row.steps[k := row'.steps[k]];
    DoneAdvances(w, n, row, k, row', n');
  }

  lemma AsyncIterates(w: World, n: nat, row: Row, k: nat)
    requires row.status.TxRunning? && Front(row.steps, k) && k < |row.steps| && Sends(row.steps[k])
    requires Try(w, n).0.Good? && row.steps[k].kind == Async
    ensures Iterates(w, n, row, k, Executed(w, n, row, k).0, Executed(w, n, row, k).1, ExecutedTrail(w, n, row, k))
  {
    var n' := Try(w, n).1;
    var row' := AfterAttempt(row, k, Good, w.pollAt(n')).0;
    assert row'.steps == row.steps[k := row'.steps[k]];
    WaitIterates(w, n', row', k, row, n);
  }

  lemma NextStepIterates(w: World, n: nat, row: Row, k: nat)
    requires row.status.TxRunning? && Front(row.steps, k) && k < |row.steps| && TaskKept(row, k)
    ensures var (row', n', more) := NextStep(w, n, row);
      more && Iterates(w, n, row, k, row', n', NextTrail(w, n, row))
  {
    if row.steps[k].status == Failed {
      assert AnyFailed(row.steps);
    } else {
      assert !AllSucceeded(row.steps) by { assert row.steps[k].status != Succeeded; }
      PickAtFront(row.steps, k, |row.steps|);
      if !Sends(row.steps[k]) {
        assert row.steps == row.steps[k := row.steps[k]];
        WaitIterates(w, n, row, k, row, n);
      } else if Retries(w, n, row.steps[k]) {
        RetryIterates(w, n, row, k);
      } else if !Try(w, n).0.Good? {
        FatalIterates(w, n, row, k);
      } else if row.steps[k].kind != Async {
        SyncIterates(w, n, row, k);
      } else {
        AsyncIterates(w, n, row, k);
      }
    }
  }

  // ---------- the loop ----------

  lemma AllDone(w: World, n: nat, row: Row)
    requires row.status.TxRunning? && AllSucceeded(row.steps)
    ensures DriveFrom(w, n, row).0 == row.(status := TxSucceeded, lastError := NoError)
    ensures DriveTrail(w, n, row) == Silence
  {
    assert !AnyFailed(row.steps);
  }

  // The meaning of what follows an iteration is the meaning of the whole.
  lemma MeantBefore(w: World, n: nat, row: Row, k: nat, row': Row, n': nat, k': nat, trail: Trail, r: Row, rest: Trail)
    requires k <= |row.steps| && Advances(w, n, row, k, row', n', k', trail)
    requires Meant(w, n', row'.steps, k', r, rest)
    ensures Meant(w, n, row.steps, k, r, Then(trail, rest))
  {
    var (f, m) := ForwardRun(w, n, row.steps, k);
    if f.StopsAt? {
      UndoAllSame(w, m, row'.steps, row.steps, Downwards(UndoCount(f)));
      ThenAssociates(trail, ForwardTrail(w, n', row'.steps, k'),
                     UndoAllTrail(w, m, row.steps, Downwards(UndoCount(f))));
    }
  }

  lemma HaltedMeant(w: World, n: nat, row: Row, k: nat, row': Row, n': nat, trail: Trail)
    requires k <= |row.steps| && Halts(w, n, row, k, row', n', trail)
    ensures Live(row'.status)
    ensures var r := DriveFrom(w, n', row').0;
      Meant(w, n, row.steps, k, r, Then(trail, DriveTrail(w, n', row'))) && r.currentStep == row.currentStep
  {
    var f := ForwardRun(w, n, row.steps, k).0;
    var todo := Downwards(UndoCount(f));
    StoppedOutcome(w, n', row', k, f.end);
    CompensateBelow(row'.steps, k, f.end, |row'.steps|);
    UndoAllSame(w, n', row'.steps, row.steps, todo);
  }

  // From any running row of the single-driver shape, such as one found after a crash:
  // steps before k are done, k may be pending, running, being polled or failed.
  lemma {:induction false} RunningRefines(w: World, n: nat, row: Row, k: nat)
    requires row.status.TxRunning? && Front(row.steps, k) && TaskKept(row, k)
    ensures var r := DriveFrom(w, n, row).0;
      && Meant(w, n, row.steps, k, r, DriveTrail(w, n, row))
      && (row.currentStep == k ==> r.currentStep == Reached(ForwardRun(w, n, row.steps, k).0, |row.steps|))
    decreases Fuel(row)
  {
    if k == |row.steps| {
      AllDone(w, n, row);
    } else {
      DriveRound(w, n, row);
      NextStepIterates(w, n, row, k);
      var (row', n', _) := NextStep(w, n, row);
      var trail := NextTrail(w, n, row);
      if Halts(w, n, row, k, row', n', trail) {
        HaltedMeant(w, n, row, k, row', n', trail);
      } else {
        var k' := if Advances(w, n, row, k, row', n', k, trail) then k else k + 1;
        RunningRefines(w, n', row', k');
        MeantBefore(w, n, row, k, row', n', k', trail, DriveFrom(w, n', row').0, DriveTrail(w, n', row'));
      }
    }
  }

  // From submission on, the loop computes the all-or-nothing meaning of the saga.
  lemma DriveRefinesSaga(w: World, n: nat, row: Row)
    requires row.status.TxPending? && forall j :: 0 <= j < |row.steps| ==> row.steps[j].status == Pending
    ensures var r := DriveFrom(w, n, row).0;
      && Meant(w, n, row.steps, 0, r, DriveTrail(w, n, row))
      && (row.currentStep == 0 ==> r.currentStep == Reached(ForwardRun(w, n, row.steps, 0).0, |row.steps|))
  {
    var row' := Cas(row, TxPending, TxRunning, NoError);
    DriveRound(w, n, row);
    RunningRefines(w, n, row', 0);
    ThenSilence(DriveTrail(w, n, row'));
  }
}
