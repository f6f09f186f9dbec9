// The drive loop as the source runs it: rows and counters updated in place.
module CoordinatorClasses {
  import opened Wrappers
  import opened SagaTypes
  import opened SagaStore
  import opened Selection
  import opened PollBudget
  import opened SagaSpec
  import opened DriveLoop

  // The row without its lease, which the drive loop only renews.
  function Free(row: Row): Row {
    row.(lock := None)
  }

  // The outside: template rendering, the HTTP client and the retry timer.
  class Environment {
    const w: World
    var n: nat
    var wire: seq<Exchange>
    var slept: nat

    function Seen(): Trail
      reads this
    {
      Trail(wire, slept)
    }

    constructor (w: World)
      ensures this.w == w && n == 0 && Seen() == Silence
    {
      this.w := w;
      n, wire, slept := 0, [], 0;
    }

    method Render() returns (ok: bool)
      modifies this
      ensures ok == w.canRender(old(n))
      ensures n == old(n) + 1 && Seen() == old(Seen())
    {
      ok := w.canRender(n);
      n := n + 1;
    }

    method Do(request: Request) returns (reply: Answer)
      modifies this
      ensures reply == w.reply(old(n))
      ensures n == old(n) + 1 && slept == old(slept) && wire == old(wire) + Asked(request, reply).wire
    {
      reply := w.reply(n);
      n := n + 1;
      if reply.Accept? || reply.HttpError? {
        wire := wire + [Exchange(request, reply.Accept?)];
      }
    }

    method Sleep(seconds: nat)
      modifies this
      ensures n == old(n) && wire == old(wire) && slept == old(slept) + seconds
    {
      slept := slept + seconds;
    }

    // What the poll workers get to see until the next look at the step.
    method Replies() returns (replies: seq<Reply>)
      modifies this
      ensures replies == w.polls(old(n)) && n == old(n) + 1 && Seen() == old(Seen())
    {
      replies := w.polls(n);
      n := n + 1;
    }
  }

  // One pass over the compensation list: rows, next question, all accepted, trail.
  datatype Pass = Pass(row: Row, n: nat, all: bool, trail: Trail)

  function UndoPass(w: World, n: nat, row: Row, steps: seq<StepRow>, todo: seq<nat>): Pass
    requires |steps| == |row.steps| && forall k :: 0 <= k < |todo| ==> todo[k] < |steps|
    decreases |todo|
  {
    if todo == [] then Pass(row, n, true, Silence)
    else
      var (ok, n') := UndoStep(w, n, steps[todo[0]]);
      var p := UndoPass(w, n', SetStepStatus(row, todo[0], if ok then Compensated else Failed), steps, todo[1..]);
      Pass(p.row, p.n, ok && p.all, Then(UndoTrail(w, n, steps[todo[0]], todo[0]), p.trail))
  }

  lemma {:induction false} UndoPassMeans(w: World, n: nat, row: Row, steps: seq<StepRow>, todo: seq<nat>)
    requires |steps| == |row.steps| && forall k :: 0 <= k < |todo| ==> todo[k] < |steps|
    ensures var (oks, n') := UndoAll(w, n, steps, todo);
      UndoPass(w, n, row, steps, todo) ==
        Pass(ApplyUndo(row, todo, oks), n', AllTrue(oks), UndoAllTrail(w, n, steps, todo))
    decreases |todo|
  {
    if todo != [] {
      var (ok, n') := UndoStep(w, n, steps[todo[0]]);
      var oks := UndoAll(w, n', steps, todo[1..]).0;
      UndoPassMeans(w, n', SetStepStatus(row, todo[0], if ok then Compensated else Failed), steps, todo[1..]);
      AllTrueCons(ok, oks);
      assert ([ok] + oks)[1..] == oks;
    }
  }

  lemma AllTrueCons(ok: bool, oks: seq<bool>)
    ensures AllTrue([ok] + oks) <==> ok && AllTrue(oks)
  {
    if AllTrue([ok] + oks) {
      assert ([ok] + oks)[0];
      forall k | 0 <= k < |oks| ensures oks[k] {
        assert ([ok] + oks)[k + 1];
      }
    }
  }

  lemma Overwrite(row: Row, i: nat, a: StepStatus, b: StepStatus)
    requires i < |row.steps|
    ensures SetStepStatus(SetStepStatus(row, i, a), i, b) == SetStepStatus(row, i, b)
    ensures IncRetry(SetStepStatus(row, i, a), i) == SetStepStatus(IncRetry(row, i), i, a)
  {
    assert SetStepStatus(SetStepStatus(row, i, a), i, b).steps == SetStepStatus(row, i, b).steps;
    assert IncRetry(SetStepStatus(row, i, a), i).steps == SetStepStatus(IncRetry(row, i), i, a).steps;
  }

  // The rest of the retry loop completes what has been done so far.
  predicate UndoOnTrack(w: World, n: nat, left: nat, made: nat, i: nat, seen: Trail, goal: (bool, nat), trail: Trail) {
    goal == UndoRun(w, n, left) && trail == Then(seen, UndoRunTrail(w, n, left, made, i))
  }

  lemma UndoOnTrackNext(w: World, n: nat, left: nat, made: nat, i: nat, seen: Trail, goal: (bool, nat), trail: Trail)
    requires left > 0 && UndoOnTrack(w, n, left, made, i, seen, goal, trail)
    ensures var pause := if made == 0 then 0 else Pow2(made - 1);
      var next := Trail(seen.wire + Asked(UndoRequest(i), w.reply(n)).wire, seen.slept + pause);
      if w.reply(n).Accept? || w.reply(n).SigningError? then goal == (w.reply(n).Accept?, n + 1) && trail == next
      else UndoOnTrack(w, n + 1, left - 1, made + 1, i, next, goal, trail)
  {
    ThenAssociates(seen, UndoTry(w, n, made, i), UndoRunTrail(w, n + 1, left - 1, made + 1, i));
  }

  // Whatever ends an attempt replaces the running status it began with.
  lemma OverwriteRunning(row: Row, i: nat)
    requires i < |row.steps|
    ensures var r := SetStepStatus(row, i, Running);
      && SetStepStatus(r, i, Failed) == SetStepStatus(row, i, Failed)
      && SetStepStatus(r, i, Succeeded) == SetStepStatus(row, i, Succeeded)
      && SetStepStatus(IncRetry(r, i), i, Failed) == SetStepStatus(IncRetry(row, i), i, Failed)
      && SetStepStatus(IncRetry(r, i), i, Pending) == SetStepStatus(IncRetry(row, i), i, Pending)
      && forall at ::
           SetStepStatus(PutPollTask(r, i, at), i, Polling) == SetStepStatus(PutPollTask(row, i, at), i, Polling)
  {
    Overwrite(row, i, Running, Failed);
    Overwrite(row, i, Running, Succeeded);
    Overwrite(IncRetry(row, i), i, Running, Failed);
    Overwrite(IncRetry(row, i), i, Running, Pending);
    forall at ensures SetStepStatus(PutPollTask(SetStepStatus(row, i, Running), i, at), i, Polling) ==
                      SetStepStatus(PutPollTask(row, i, at), i, Polling)
    {
      Overwrite(PutPollTask(row, i, at), i, Running, Polling);
    }
  }

  class Executor {
    const store: Store
    const env: Environment

    constructor (store: Store, env: Environment)
      ensures this.store == store && this.env == env
    {
      this.store := store;
      this.env := env;
    }

    // Count the failed attempt, then decide between another try and giving up; past the
    // deadline of the transaction give up at once, without counting.
    method HandleHTTPError(i: nat, step: StepRow, expired: bool, ghost pollAt: int) returns (res: StepResult)
      requires i < |store.steps| && step == store.steps[i]
      modifies store
      ensures (store.View(), res) == AfterAttempt(old(store.View()), i, if expired then Fatal else Soft, pollAt)
    {
      if expired {
        var _ := store.UpdateStepStatus(i, Failed);
        return StepFatal;
      }
      var _ := store.IncrementStepRetry(i);
      var retryCount := step.retryCount + 1;
      if retryCount < step.maxRetry {
        var _ := store.UpdateStepStatus(i, Pending);
        return StepRetryable;
      }
      var _ := store.UpdateStepStatus(i, Failed);
      return StepFatal;
    }

    method ExecuteStep(i: nat, step: StepRow) returns (res: StepResult)
      requires i < |store.steps| && step == store.steps[i] && step.kind != Async
      modifies store, env
      ensures env.n == Try(env.w, old(env.n)).1
      ensures (store.View(), res) == AfterAttempt(old(store.View()), i, Try(env.w, old(env.n)).0, env.w.pollAt(env.n))
      ensures env.Seen() == Then(old(env.Seen()), TryTrail(env.w, old(env.n), i))
    {
      ghost var row := store.View();
      var _ := store.UpdateStepStatus(i, Running);
      OverwriteRunning(row, i);
      var rendered := env.Render();
      if !rendered {
        var _ := store.UpdateStepStatus(i, Failed);
        ThenSilence(env.Seen());
        return StepFatal;
      }
      var reply := env.Do(ForwardRequest(i));
      match reply {
        case Accept =>
          var _ := store.UpdateStepStatus(i, Succeeded);
          return StepOk;
        case HttpError =>
          res := HandleHTTPError(i, store.steps[i], false, env.w.pollAt(env.n));
        case NoRequest =>
          var _ := store.UpdateStepStatus(i, Failed);
          return StepFatal;
        case SigningError =>
          var _ := store.UpdateStepStatus(i, Failed);
          return StepFatal;
      }
    }

    // The same up to the response; an accepted step gets a poll task and is polled.
    method ExecuteAsyncStep(i: nat, step: StepRow) returns (res: StepResult)
      requires i < |store.steps| && step == store.steps[i] && step.kind == Async
      modifies store, env
      ensures env.n == Try(env.w, old(env.n)).1
      ensures (store.View(), res) == AfterAttempt(old(store.View()), i, Try(env.w, old(env.n)).0, env.w.pollAt(env.n))
      ensures env.Seen() == Then(old(env.Seen()), TryTrail(env.w, old(env.n), i))
    {
      ghost var row := store.View();
      var _ := store.UpdateStepStatus(i, Running);
      OverwriteRunning(row, i);
      var rendered := env.Render();
      if !rendered {
        var _ := store.UpdateStepStatus(i, Failed);
        ThenSilence(env.Seen());
        return StepFatal;
      }
      var reply := env.Do(ForwardRequest(i));
      match reply {
        case Accept =>
          store.CreatePollTask(i, env.w.pollAt(env.n));
          var _ := store.UpdateStepStatus(i, Polling);
          return StepOk;
        case HttpError =>
          res := HandleHTTPError(i, store.steps[i], false, env.w.pollAt(env.n));
        case NoRequest =>
          var _ := store.UpdateStepStatus(i, Failed);
          return StepFatal;
        case SigningError =>
          var _ := store.UpdateStepStatus(i, Failed);
          return StepFatal;
      }
    }

    // The retry loop: at most MaxRetry + 1 attempts with pauses of 1, 2, 4, ...
    // seconds in between; a signing failure ends it early.
    method RetryUndo(i: nat, step: StepRow) returns (ok: bool)
      modifies env
      ensures (ok, env.n) == UndoRun(env.w, old(env.n), UndoAttempts(step))
      ensures env.Seen() == Then(old(env.Seen()), UndoRunTrail(env.w, old(env.n), UndoAttempts(step), 0, i))
      ensures ok <==> AcceptedWithin(env.w, old(env.n), (if step.maxRetry == 0 then 3 else step.maxRetry) + 1)
    {
      UndoRunFinds(env.w, env.n, UndoAttempts(step));
      var maxRetries := if step.maxRetry == 0 then 3 else step.maxRetry;
      var attempt := 0;
      var pause := 1;
      ghost var left := UndoAttempts(step);
      ghost var goal := UndoRun(env.w, env.n, left);
      ghost var trail := Then(env.Seen(), UndoRunTrail(env.w, env.n, left, 0, i));
      while attempt <= maxRetries
        invariant 0 <= attempt && left == if attempt <= maxRetries then maxRetries + 1 - attempt else 0
        invariant UndoOnTrack(env.w, env.n, left, attempt, i, env.Seen(), goal, trail)
        invariant pause == if attempt == 0 then 1 else Pow2(attempt - 1)
        decreases left
      {
        UndoOnTrackNext(env.w, env.n, left, attempt, i, env.Seen(), goal, trail);
        if attempt > 0 {
          env.Sleep(pause);
          pause := 2 * pause;
        }
        var reply := env.Do(UndoRequest(i));
        attempt := attempt + 1;
        left := left - 1;
        if reply.Accept? {
          return true;
        }
        if reply.SigningError? {
          return false;
        }
      }
      ThenSilence(env.Seen());
      return false;
    }

    method CompensateStep(i: nat, step: StepRow) returns (ok: bool)
      requires i < |store.steps|
      modifies store, env
      ensures (ok, env.n) == UndoStep(env.w, old(env.n), step)
      ensures store.View() == SetStepStatus(old(store.View()), i, if ok then Compensated else Failed)
      ensures env.Seen() == Then(old(env.Seen()), UndoTrail(env.w, old(env.n), step, i))
    {
      ghost var row := store.View();
      var _ := store.UpdateStepStatus(i, Compensating);
      Overwrite(row, i, Compensating, Compensated);
      Overwrite(row, i, Compensating, Failed);
      var rendered := env.Render();
      if !rendered {
        var _ := store.UpdateStepStatus(i, Failed);
        ThenSilence(env.Seen());
        return false;
      }
      ok := RetryUndo(i, step);
      var _ := store.UpdateStepStatus(i, if ok then Compensated else Failed);
    }
  }

  class Coordinator {
    const txID: string
    const store: Store
    const env: Environment
    const executor: Executor
    const poller: Poller

    constructor (txID: string, store: Store, env: Environment, poller: Poller)
      requires poller.store == store
      ensures this.txID == txID && this.store == store && this.env == env && this.poller == poller && Wired()
    {
      this.txID := txID;
      this.store := store;
      this.env := env;
      this.executor := new Executor(store, env);
      this.poller := poller;
    }

    predicate Wired() {
      executor.store == store && executor.env == env && poller.store == store
    }

    // No poll worker is under way between two methods here.
    ghost predicate Valid()
      reads poller.notify
    {
      Wired() && poller.notify.Valid() && poller.notify.workers == map[]
    }

    method TriggerCompensation()
      modifies store
      ensures store.View() == Triggered(old(store.View()))
    {
      var _ := store.UpdateTransactionStatusCAS(TxRunning, TxCompensating, StepError);
    }

    // The selection loop, for steps in any state.
    method SelectStep(steps: seq<StepRow>) returns (failed: bool, allSucceeded: bool, currentStep: Option<nat>)
      ensures failed <==> exists i :: 0 <= i < |steps| && steps[i].status == Failed
      ensures !failed ==> (allSucceeded <==> forall i :: 0 <= i < |steps| ==> steps[i].status == Succeeded)
      ensures !failed ==> currentStep == Pick(steps, |steps|)
    {
      currentStep := None;
      allSucceeded := true;
      for i := 0 to |steps|
        invariant currentStep == Pick(steps, i)
        invariant allSucceeded <==> forall j :: 0 <= j < i ==> steps[j].status == Succeeded
        invariant forall j :: 0 <= j < i ==> steps[j].status != Failed
      {
        match steps[i].status {
          case Pending =>
            if currentStep.None? {
              currentStep := Some(i);
            }
            allSucceeded := false;
          case Running => currentStep, allSucceeded := Some(i), false;
          case Polling => currentStep, allSucceeded := Some(i), false;
          case Succeeded =>
          case Failed => return true, false, None;
          case _ => allSucceeded := false;
        }
      }
      return false, allSucceeded, currentStep;
    }

    method ExecuteNextStep(steps: seq<StepRow>) returns (more: bool)
      requires Valid() && steps == store.steps
      modifies store, env, poller.notify
      ensures Valid()
      ensures (store.View(), env.n, more) == NextStep(env.w, old(env.n), old(store.View()))
      ensures env.Seen() == Then(old(env.Seen()), NextTrail(env.w, old(env.n), old(store.View())))
    {
      ThenSilence(env.Seen());
      var failed, allSucceeded, currentStep := SelectStep(steps);
      if failed {
        TriggerCompensation();
        return true;
      }
      if allSucceeded {
        var _ := store.UpdateTransactionStatusCAS(TxRunning, TxSucceeded, NoError);
        return false;
      }
      if currentStep.None? {
        return false;
      }
      var i, step := currentStep.value, steps[currentStep.value];
      match step.status {
        case Pending =>
          more := ExecuteStep(i, step);
        case Running =>
          if step.kind == Sync {
            more := ExecuteStep(i, step);
          } else {
            more := WaitForAsyncStep(i);
          }
        case Polling =>
          more := WaitForAsyncStep(i);
      }
    }

    method ExecuteStep(i: nat, step: StepRow) returns (more: bool)
      requires Valid() && i < |store.steps| && step == store.steps[i]
      modifies store, env, poller.notify
      ensures Valid() && more
      ensures (store.View(), env.n) == Executed(env.w, old(env.n), old(store.View()), i)
      ensures env.Seen() == Then(old(env.Seen()), ExecutedTrail(env.w, old(env.n), old(store.View()), i))
    {
      match step.kind {
        case Sync => more := ExecuteSyncStep(i, step);
        case Async => more := ExecuteAsyncStep(i, step);
        case OtherKind => more := ExecuteSyncStep(i, step);
      }
    }

    method ExecuteSyncStep(i: nat, step: StepRow) returns (more: bool)
      requires Wired() && i < |store.steps| && step == store.steps[i] && step.kind != Async
      modifies store, env
      ensures more
      ensures (store.View(), env.n) == Executed(env.w, old(env.n), old(store.View()), i)
      ensures env.Seen() == Then(old(env.Seen()), ExecutedTrail(env.w, old(env.n), old(store.View()), i))
    {
      ghost var seen := env.Seen();
      var res := executor.ExecuteStep(i, step);
      match res {
        case StepOk => store.UpdateTransactionStep(i + 1);
        case StepRetryable =>
          ThenAssociates(seen, TryTrail(env.w, old(env.n), i), Paused(1));
          env.Sleep(1);
          ThenSilence(env.Seen());
        case StepFatal => TriggerCompensation();
      }
      return true;
    }

    method ExecuteAsyncStep(i: nat, step: StepRow) returns (more: bool)
      requires Valid() && i < |store.steps| && step == store.steps[i] && step.kind == Async
      modifies store, env, poller.notify
      ensures Valid() && more
      ensures (store.View(), env.n) == Executed(env.w, old(env.n), old(store.View()), i)
      ensures env.Seen() == Then(old(env.Seen()), ExecutedTrail(env.w, old(env.n), old(store.View()), i))
    {
      ghost var seen := env.Seen();
      var res := executor.ExecuteAsyncStep(i, step);
      match res {
        case StepOk => more := WaitForAsyncStep(i);
        case StepRetryable =>
          ThenAssociates(seen, TryTrail(env.w, old(env.n), i), Paused(1));
          env.Sleep(1);
          ThenSilence(env.Seen());
        case StepFatal => TriggerCompensation();
      }
      return true;
    }

    // Poll workers take the step's task, if there is one, and handle these replies.
    method LetPoll(i: nat, replies: seq<Reply>, pollAt: int)
      requires Valid() && i < |store.steps|
      modifies store, poller.notify
      ensures Valid() && store.View() == Polled(old(store.View()), i, replies, pollAt)
    {
      if i !in store.pollTasks {
        return;
      }
      ghost var row := store.View();
      for k := 0 to |replies|
        invariant Valid() && store.View() == AfterPolls(row, i, replies[..k], pollAt)
      {
        poller.ProcessPollTask(txID, i, replies[k], pollAt, 0);
        assert replies[..k + 1][..k] == replies[..k];
      }
      assert replies[..|replies|] == replies;
    }

    // Reread the step, then wait for what the poll workers make of it. The message that
    // ends the wait says what they wrote.
    method WaitForAsyncStep(i: nat) returns (more: bool)
      requires Valid() && i < |store.steps| && Open(store.steps[i].status)
      modifies store, env, poller.notify
      ensures Valid() && more && env.n == old(env.n) + 2 && env.Seen() == old(env.Seen())
      ensures store.View() == AfterWait(old(store.View()), i, Polls(env.w, old(env.n)), env.w.pollAt(old(env.n)))
    {
      ghost var row := store.View();
      var pollAt := env.w.pollAt(env.n);
      var early := env.Replies();
      var late := env.Replies();
      PollsInTwo(row, i, early, late, pollAt);
      PolledFrame(row, i, early, pollAt);
      PolledFrame(row, i, early + late, pollAt);
      LetPoll(i, early, pollAt);
      match store.steps[i].status {
        case Succeeded =>
          store.UpdateTransactionStep(i + 1);
          return true;
        case Failed =>
          TriggerCompensation();
          return true;
        case Compensating => return true;
        case Compensated => return true;
        case Skipped => return true;
        case _ =>
      }
      LetPoll(i, late, pollAt);
      if store.steps[i].status == Succeeded {
        store.UpdateTransactionStep(i + 1);
      } else {
        TriggerCompensation();
      }
      return true;
    }

    method CollectCompensations(steps: seq<StepRow>) returns (toCompensate: seq<nat>)
      ensures toCompensate == ToCompensate(steps, |steps|)
    {
      toCompensate := [];
      var i := |steps|;
      while i > 0
        invariant 0 <= i <= |steps|
        invariant toCompensate + ToCompensate(steps, i) == ToCompensate(steps, |steps|)
      {
        i := i - 1;
        if steps[i].status == Succeeded || steps[i].status == Polling || steps[i].status == Compensating {
          assert toCompensate + ([i] + ToCompensate(steps, i)) == toCompensate + [i] + ToCompensate(steps, i);
          toCompensate := toCompensate + [i];
        }
      }
    }

    method CompensateAll(todo: seq<nat>, steps: seq<StepRow>) returns (allCompensated: bool)
      requires Wired() && |steps| == |store.steps| && forall k :: 0 <= k < |todo| ==> todo[k] < |steps|
      modifies store, env
      ensures var (oks, n') := UndoAll(env.w, old(env.n), steps, todo);
        && env.n == n' && (allCompensated <==> AllTrue(oks))
        && store.View() == ApplyUndo(old(store.View()), todo, oks)
      ensures env.Seen() == Then(old(env.Seen()), UndoAllTrail(env.w, old(env.n), steps, todo))
    {
      ghost var goal := UndoPass(env.w, env.n, store.View(), steps, todo);
      ghost var seen := Then(env.Seen(), goal.trail);
      ghost var rest, left := todo, goal;
      allCompensated := true;
      var t := 0;
      while t < |todo|
        invariant 0 <= t <= |todo| && |store.steps| == |steps| && rest == todo[t..]
        invariant left == UndoPass(env.w, env.n, store.View(), steps, rest)
        invariant left.row == goal.row && left.n == goal.n && (allCompensated && left.all) == goal.all
        invariant Then(env.Seen(), left.trail) == seen
      {
        ghost var mine := UndoTrail(env.w, env.n, steps[rest[0]], rest[0]);
        ghost var before := env.Seen();
        var ok := executor.CompensateStep(todo[t], steps[todo[t]]);
        allCompensated := allCompensated && ok;
        t := t + 1;
        rest := rest[1..];
        ghost var next := UndoPass(env.w, env.n, store.View(), steps, rest);
        assert left == Pass(next.row, next.n, ok && next.all, Then(mine, next.trail));
        ThenAssociates(before, mine, next.trail);
        left := next;
      }
      ThenSilence(env.Seen());
      UndoPassMeans(env.w, old(env.n), old(store.View()), steps, todo);
    }

    method SkipPendingSteps(steps: seq<StepRow>)
      requires |steps| == |store.steps|
      modifies store
      ensures store.View() == SkipPending(old(store.View()), steps, |steps|)
    {
      var k := 0;
      while k < |steps|
        invariant 0 <= k <= |steps| == |store.steps|
        invariant store.View() == SkipPending(old(store.View()), steps, k)
      {
        if steps[k].status == Pending {
          var _ := store.UpdateStepStatus(k, Skipped);
        }
        k := k + 1;
      }
    }

    // One uninterrupted pass over the snapshot.
    method ExecuteCompensation(steps: seq<StepRow>)
      requires Wired() && steps == store.steps
      modifies store, env
      ensures (store.View(), env.n) == CompensatedRow(env.w, old(env.n), old(store.View()))
      ensures env.Seen() == Then(old(env.Seen()), UndoAllTrail(env.w, old(env.n), steps, ToCompensate(steps, |steps|)))
    {
      var toCompensate := CollectCompensations(steps);
      var allCompensated := CompensateAll(toCompensate, steps);
      SkipPendingSteps(steps);
      if allCompensated {
        store.UpdateTransactionStatus(TxFailed, CompensationCompleted);
      } else {
        store.UpdateTransactionStatus(TxFailed, CompensationPartlyFailed);
      }
    }

    // One iteration: load, renew the lease, act on the loaded status.
    method DriveOnce(inst: string, lease: nat, now: int) returns (more: bool)
      requires Valid() && Live(store.status)
      requires store.lock.Some? && store.lock.value.holder == inst
      modifies store, env, poller.notify
      ensures Valid() && store.lock.Some? && store.lock.value.holder == inst
      ensures (Free(store.View()), env.n, more) == Round(env.w, old(env.n), Free(old(store.View())))
      ensures env.Seen() == Then(old(env.Seen()), RoundTrail(env.w, old(env.n), Free(old(store.View()))))
    {
      var status := store.status;
      var steps := store.steps;
      var renewed := store.ClaimTransaction(inst, now, lease);
      FreeRound(env.w, env.n, store.View());
      ThenSilence(env.Seen());
      match status {
        case TxPending =>
          more := store.UpdateTransactionStatusCAS(TxPending, TxRunning, NoError);
        case TxRunning =>
          more := ExecuteNextStep(steps);
        case TxCompensating =>
          ExecuteCompensation(steps);
          more := false;
      }
    }

    // The loop, under a held lease; clock(k) is the time of the k-th claim.
    method RunLoop(inst: string, lease: nat, clock: nat -> int) returns (iterations: nat)
      requires Valid() && Live(store.status)
      requires store.lock.Some? && store.lock.value.holder == inst
      modifies store, env, poller.notify
      ensures Valid() && store.lock.Some? && store.lock.value.holder == inst
      ensures (Free(store.View()), env.n, iterations) == DriveFrom(env.w, old(env.n), Free(old(store.View())))
      ensures env.Seen() == Then(old(env.Seen()), DriveTrail(env.w, old(env.n), Free(old(store.View()))))
    {
      iterations := 0;
      ghost var goal := DriveFrom(env.w, env.n, Free(store.View()));
      ghost var trail := Then(env.Seen(), DriveTrail(env.w, env.n, Free(store.View())));
      var more := true;
      while more
        invariant Valid() && store.lock.Some? && store.lock.value.holder == inst
        invariant OnTrack(env.w, env.n, Free(store.View()), env.Seen(), iterations, more, goal, trail)
        decreases more, if more then Fuel(Free(store.View())) else 0
      {
        OnTrackRound(env.w, env.n, Free(store.View()), env.Seen(), iterations, goal, trail);
        more := DriveOnce(inst, lease, clock(iterations + 1));
        iterations := iterations + 1;
      }
    }

    // The result counts the iterations.
    method DriveTransaction(inst: string, lease: nat, clock: nat -> int) returns (iterations: nat)
      requires Valid()
      modifies store, env, poller.notify
      ensures Valid()
      ensures !old(Claimable(store.View(), inst, clock(0))) ==>
        store.View() == old(store.View()) && env.Seen() == old(env.Seen()) && iterations == 0
      ensures old(Claimable(store.View(), inst, clock(0))) ==>
        && (store.View(), env.n, iterations) == DriveFrom(env.w, old(env.n), Free(old(store.View())))
        && env.Seen() == Then(old(env.Seen()), DriveTrail(env.w, old(env.n), Free(old(store.View()))))
      ensures iterations <= 2 + Budget(old(store.steps))
    {
      iterations := 0;
      var claimed := store.ClaimTransaction(inst, clock(0), lease);
      if !claimed {
        return;
      }
      iterations := RunLoop(inst, lease, clock);
      store.ReleaseTransaction(inst);
    }
  }

  // What follows completes what has been done so far.
  predicate Completes(
    rest: (Row, nat, nat), later: Trail, seen: Trail, iterations: nat, goal: (Row, nat, nat), trail: Trail)
  {
    goal == (rest.0, rest.1, iterations + rest.2) && trail == Then(seen, later)
  }

  // All there is to do is one iteration, and the rest if it goes on.
  lemma CompletesNext(
    whole: (Row, nat, nat), all: Trail, next: (Row, nat, bool), rest: (Row, nat, nat), now: Trail, later: Trail,
    seen: Trail, iterations: nat, goal: (Row, nat, nat), trail: Trail)
    requires Completes(whole, all, seen, iterations, goal, trail)
    requires next.2 ==> whole == (rest.0, rest.1, rest.2 + 1) && all == Then(now, later)
    requires !next.2 ==> whole == (next.0, next.1, 1) && all == now
    ensures next.2 ==> Completes(rest, later, Then(seen, now), iterations + 1, goal, trail)
    ensures !next.2 ==> goal == (next.0, next.1, iterations + 1) && trail == Then(seen, now)
  {
    if next.2 {
      ThenAssociates(seen, now, later);
    }
  }

  predicate OnTrack(w: World, n: nat, row: Row, seen: Trail, iterations: nat, more: bool,
                    goal: (Row, nat, nat), trail: Trail)
  {
    if more
    then Live(row.status) && Completes(DriveFrom(w, n, row), DriveTrail(w, n, row), seen, iterations, goal, trail)
    else goal == (row, n, iterations) && trail == seen
  }

  lemma OnTrackRound(w: World, n: nat, row: Row, seen: Trail, iterations: nat, goal: (Row, nat, nat), trail: Trail)
    requires OnTrack(w, n, row, seen, iterations, true, goal, trail)
    ensures var (row', n', more) := Round(w, n, row);
      && OnTrack(w, n', row', Then(seen, RoundTrail(w, n, row)), iterations + 1, more, goal, trail)
      && (more ==> Fuel(row') < Fuel(row))
  {
    DriveRound(w, n, row);
    var next := Round(w, n, row);
    var whole, all := DriveFrom(w, n, row), DriveTrail(w, n, row);
    var now := RoundTrail(w, n, row);
    var rest := if next.2 then DriveFrom(w, next.1, next.0) else whole;
    var later := if next.2 then DriveTrail(w, next.1, next.0) else Silence;
    CompletesNext(whole, all, next, rest, now, later, seen, iterations, goal, trail);
  }

  lemma {:induction false} PollsLeave(row: Row, i: nat, replies: seq<Reply>, pollAt: int)
    requires i < |row.steps| && i in row.pollTasks && Open(row.steps[i].status)
    ensures var r := AfterPolls(row, i, replies, pollAt);
      && (i in r.pollTasks ==> Open(r.steps[i].status))
      && (i !in r.pollTasks ==> r.steps[i].status != Polling)
  {
    if replies != [] {
      PollsLeave(row, i, replies[..|replies| - 1], pollAt);
    }
  }

  // Two batches of polls one after the other; if the first settles the step, the second
  // changes nothing.
  lemma PollsInTwo(row: Row, i: nat, a: seq<Reply>, b: seq<Reply>, pollAt: int)
    requires i < |row.steps| && Open(row.steps[i].status)
    ensures var r := Polled(row, i, a, pollAt);
      && Polled(row, i, a + b, pollAt) == Polled(r, i, b, pollAt)
      && (!Open(r.steps[i].status) ==> Polled(r, i, b, pollAt) == r)
  {
    if i in row.pollTasks {
      var r := AfterPolls(row, i, a, pollAt);
      PollsJoin(row, i, a, b, pollAt);
      PollsLeave(row, i, a, pollAt);
      if i !in r.pollTasks {
        PollsSettled(r, i, b, pollAt);
      }
    }
  }

  lemma FreePoll(row: Row, i: nat, reply: Reply, pollAt: int)
    ensures AfterPoll(Free(row), i, reply, pollAt) == Free(AfterPoll(row, i, reply, pollAt))
    ensures AfterPoll(row, i, reply, pollAt).lock == row.lock
  {
  }

  lemma {:induction false} FreePolls(row: Row, i: nat, replies: seq<Reply>, pollAt: int)
    requires i < |row.steps|
    ensures AfterPolls(Free(row), i, replies, pollAt) == Free(AfterPolls(row, i, replies, pollAt))
    ensures AfterPolls(row, i, replies, pollAt).lock == row.lock
  {
    if replies != [] {
      FreePolls(row, i, replies[..|replies| - 1], pollAt);
      FreePoll(AfterPolls(row, i, replies[..|replies| - 1], pollAt), i, replies[|replies| - 1], pollAt);
    }
  }

  lemma FreeWait(row: Row, i: nat, replies: seq<Reply>, pollAt: int)
    requires i < |row.steps|
    ensures AfterWait(Free(row), i, replies, pollAt) == Free(AfterWait(row, i, replies, pollAt))
    ensures AfterWait(row, i, replies, pollAt).lock == row.lock
  {
    FreePolls(row, i, replies, pollAt);
  }

  lemma FreeExecuted(w: World, n: nat, row: Row, i: nat)
    requires i < |row.steps|
    ensures var (a, m) := Executed(w, n, row, i);
      Executed(w, n, Free(row), i) == (Free(a), m) && a.lock == row.lock
  {
    var (v, n') := Try(w, n);
    FreeWait(AfterAttempt(row, i, v, w.pollAt(n')).0, i, Polls(w, n'), w.pollAt(n'));
  }

  lemma FreeNextStep(w: World, n: nat, row: Row)
    ensures var (a, m, more) := NextStep(w, n, row);
      NextStep(w, n, Free(row)) == (Free(a), m, more) && a.lock == row.lock
  {
    if !AnyFailed(row.steps) && Pick(row.steps, |row.steps|).Some? {
      var i := Pick(row.steps, |row.steps|).value;
      FreeExecuted(w, n, row, i);
      FreeWait(row, i, Polls(w, n), w.pollAt(n));
    }
  }

  lemma FreeCompensation(w: World, n: nat, row: Row)
    ensures var (a, m) := CompensatedRow(w, n, row);
      CompensatedRow(w, n, Free(row)) == (Free(a), m) && a.lock == row.lock
  {
    var todo := ToCompensate(row.steps, |row.steps|);
    var oks := UndoAll(w, n, row.steps, todo).0;
    FreeUndo(row, todo, oks);
    FreeSkip(ApplyUndo(row, todo, oks), row.steps, |row.steps|);
  }

  // The lease plays no part in what an iteration computes.
  lemma FreeRound(w: World, n: nat, row: Row)
    requires Live(row.status)
    ensures var (a, m, more) := Round(w, n, row);
      Round(w, n, Free(row)) == (Free(a), m, more) && a.lock == row.lock
  {
    match row.status
    case TxPending =>
    case TxRunning => FreeNextStep(w, n, row);
    case TxCompensating => FreeCompensation(w, n, row);
  }

  lemma {:induction false} FreeUndo(row: Row, todo: seq<nat>, oks: seq<bool>)
    requires |todo| == |oks| && forall k :: 0 <= k < |todo| ==> todo[k] < |row.steps|
    ensures ApplyUndo(Free(row), todo, oks) == Free(ApplyUndo(row, todo, oks))
    ensures ApplyUndo(row, todo, oks).lock == row.lock
    decreases |todo|
  {
    if todo != [] {
      FreeUndo(SetStepStatus(row, todo[0], if oks[0] then Compensated else Failed), todo[1..], oks[1..]);
    }
  }

  lemma {:induction false} FreeSkip(row: Row, snap: seq<StepRow>, k: nat)
    requires k <= |snap| == |row.steps|
    ensures SkipPending(Free(row), snap, k) == Free(SkipPending(row, snap, k))
    ensures SkipPending(row, snap, k).lock == row.lock
  {
    if k > 0 {
      FreeSkip(row, snap, k - 1);
    }
  }
}
