// Poll workers, when no two of them process one step at the same time
// (saga/poller.go:178-394, saga/store.go:651-721).
module PollBudget {
  import opened Wrappers
  import opened SagaTypes
  import opened SagaStore
  import N = Notify

  // What one poll request brings: a match of the success or failure value, neither,
  // no usable response, or a request that could not be signed.
  datatype Reply = SuccessValue | FailureValue | Neither | NoResponse | Unsigned

  // The row after processPollTask has handled one reply for step i.
  function AfterPoll(row: Row, i: nat, reply: Reply, nextPollAt: int): (r: Row)
    ensures |r.steps| == |row.steps|
  {
    if i >= |row.steps| || row.steps[i].status != Polling then DropPollTask(row, i)
    else match reply
      case SuccessValue => DropPollTask(SetStepStatus(row, i, Succeeded), i)
      case FailureValue => DropPollTask(SetStepStatus(row, i, Failed), i)
      case Unsigned => DropPollTask(SetStepStatus(row, i, Failed), i)
      case NoResponse => UnlockPollTask(row, i)
      case Neither =>
        if row.steps[i].pollCount >= row.steps[i].pollMaxTimes
        then DropPollTask(SetStepStatus(row, i, Failed), i)
        else UnlockPollTask(IncPollCount(row, i, nextPollAt), i)
  }

  // What the coordinator is told, if anything.
  function News(row: Row, i: nat, reply: Reply): Option<N.PollResult> {
    if i >= |row.steps| || row.steps[i].status != Polling then None
    else match reply
      case SuccessValue => Some(N.Success)
      case FailureValue => Some(N.Failure)
      case Unsigned => Some(N.Failure)
      case NoResponse => None
      case Neither => if row.steps[i].pollCount >= row.steps[i].pollMaxTimes then Some(N.Timeout) else None
  }

  // The notify table after worker p has handled a task for step i: write, look up, send.
  function Told(s: N.State, p: nat, tx: N.TxId, i: nat, news: Option<N.PollResult>): N.State {
    match news
    case None => s
    case Some(result) =>
      N.Step(N.Step(N.Step(N.Step(s, N.StartPoll(p, tx, i)), N.WriteResult(p, result, true)), N.LookUp(p)), N.Send(p))
  }

  // There is news exactly when the step stops being polled, and it says how it ended.
  lemma NewsMeans(row: Row, i: nat, reply: Reply, nextPollAt: int)
    requires i < |row.steps| && row.steps[i].status == Polling
    ensures var r := AfterPoll(row, i, reply, nextPollAt);
      && (News(row, i, reply).None? <==> r.steps[i].status == Polling)
      && (News(row, i, reply) == Some(N.Success) <==> r.steps[i].status == Succeeded)
      && (r.steps[i].status != Polling ==> i !in r.pollTasks)
  {
  }

  // Each reply by what it leaves: a settled step has its end recorded and its task
  // deleted; an unclear one costs one count and is polled again at the given time; a
  // lost one costs nothing. Nothing else in the row changes.
  lemma ReplyMeans(row: Row, i: nat, reply: Reply, nextPollAt: int)
    requires i < |row.steps| && row.steps[i].status == Polling && i in row.pollTasks
    ensures var r := AfterPoll(row, i, reply, nextPollAt);
      var step := row.steps[i];
      var spent := step.pollCount >= step.pollMaxTimes;
      && r == row.(steps := r.steps, pollTasks := r.pollTasks)
      && r.steps == row.steps[i := r.steps[i]]
      && r.steps[i] == step.(status := r.steps[i].status, pollCount := r.steps[i].pollCount)
      && (r.steps[i].status == Succeeded <==> reply == SuccessValue)
      && (r.steps[i].status == Failed <==> reply in {FailureValue, Unsigned} || (reply == Neither && spent))
      && r.steps[i].status in {Succeeded, Failed, Polling}
      && r.steps[i].pollCount == step.pollCount + (if reply == Neither && !spent then 1 else 0)
      && r.pollTasks == (if r.steps[i].status != Polling then row.pollTasks - {i}
                         else if reply == Neither then row.pollTasks[i := PollTask(nextPollAt, None)]
                         else row.pollTasks[i := PollTask(row.pollTasks[i].nextPollAt, None)])
  {
  }

  // A coordinator blocked on the step can wake up as soon as there is news.
  lemma NewsWakes(s: N.State, es: seq<N.Event>, p: nat, tx: N.TxId, i: nat, result: N.PollResult)
    requires N.Start(s)
    requires var r := N.Run(s, es);
      p !in r.workers && tx in r.waiters && r.waiters[tx].Blocked? && r.waiters[tx].step == i
    ensures N.CanWake(Told(N.Run(s, es), p, tx, i, Some(result)), tx)
  {
    var wrote := es + [N.StartPoll(p, tx, i)] + [N.WriteResult(p, result, true)];
    assert wrote[..|wrote| - 1] == es + [N.StartPoll(p, tx, i)];
    assert (es + [N.StartPoll(p, tx, i)])[..|es|] == es;
    N.RunInv(s, es);
    assert N.WaiterInv(N.Run(s, es), tx);
    N.UnderwayDelivers(s, wrote, tx, p);
  }

  // What a blocked coordinator whose channel is empty reads once there is news: the news.
  lemma NewsIsRead(s: N.State, es: seq<N.Event>, p: nat, tx: N.TxId, i: nat, result: N.PollResult)
    requires N.Start(s)
    requires var r := N.Run(s, es);
      p !in r.workers && tx in r.waiters && r.waiters[tx].Blocked?
      && r.waiters[tx].ch in r.chans && r.chans[r.waiters[tx].ch].None?
    ensures var r := N.Run(s, es);
      var ch := r.waiters[tx].ch;
      var told := Told(r, p, tx, i, Some(result));
      ch in told.chans && told.chans[ch] == Some(result)
  {
    N.RunInv(s, es);
    assert N.WaiterInv(N.Run(s, es), tx);
  }

  // It reads success if and only if the row now has the step succeeded; otherwise the
  // row has it failed.
  lemma ReadsWhatIsStored(
    s: N.State, es: seq<N.Event>, p: nat, tx: N.TxId, row: Row, i: nat, reply: Reply, nextPollAt: int)
    requires N.Start(s) && i < |row.steps| && row.steps[i].status == Polling && News(row, i, reply).Some?
    requires var r := N.Run(s, es);
      p !in r.workers && tx in r.waiters && r.waiters[tx].Blocked?
      && r.waiters[tx].ch in r.chans && r.chans[r.waiters[tx].ch].None?
    ensures var r := N.Run(s, es);
      var read := Told(r, p, tx, i, News(row, i, reply)).chans[r.waiters[tx].ch];
      var status := AfterPoll(row, i, reply, nextPollAt).steps[i].status;
      (read == Some(N.Success) <==> status == Succeeded) && (read != Some(N.Success) ==> status == Failed)
  {
    NewsIsRead(s, es, p, tx, i, News(row, i, reply).value);
    NewsMeans(row, i, reply, nextPollAt);
  }

  class Poller {
    const store: Store
    const notify: N.NotifyTable

    constructor (store: Store, notify: N.NotifyTable)
      ensures this.store == store && this.notify == notify
    {
      this.store := store;
      this.notify := notify;
    }

    // Every handler writes the step, deletes the poll task and only then notifies.
    method ProcessPollTask(tx: N.TxId, i: nat, reply: Reply, nextPollAt: int, ghost p: nat)
      requires notify.Valid() && p !in notify.workers
      modifies store, notify
      ensures store.View() == AfterPoll(old(store.View()), i, reply, nextPollAt)
      ensures notify.Valid() && notify.View() == Told(old(notify.View()), p, tx, i, News(old(store.View()), i, reply))
      ensures notify.workers == old(notify.workers)
    {
      if i >= |store.steps| || store.steps[i].status != Polling {
        store.DeletePollTask(i);
        return;
      }
      var step := store.steps[i];
      match reply {
        case SuccessValue => Settle(tx, i, Succeeded, N.Success, p);
        case FailureValue => Settle(tx, i, Failed, N.Failure, p);
        case Unsigned => Settle(tx, i, Failed, N.Failure, p);
        case NoResponse =>
          store.ReleasePollTask(i);
        case Neither =>
          if step.pollCount >= step.pollMaxTimes {
            Settle(tx, i, Failed, N.Timeout, p);
          } else {
            var _ := store.IncrementStepPollCount(i, nextPollAt);
            store.ReleasePollTask(i);
          }
      }
    }

    // handlePollSuccess, handlePollFailure and handlePollTimeout differ in these values.
    method Settle(tx: N.TxId, i: nat, st: StepStatus, result: N.PollResult, ghost p: nat)
      requires notify.Valid() && p !in notify.workers && i < |store.steps|
      modifies store, notify
      ensures store.View() == DropPollTask(SetStepStatus(old(store.View()), i, st), i)
      ensures notify.Valid() && notify.View() == Told(old(notify.View()), p, tx, i, Some(result))
      ensures notify.workers == old(notify.workers)
    {
      ghost var workers := notify.workers;
      var _ := store.UpdateStepStatus(i, st);
      notify.Enter(p, tx, i, result);
      assert notify.workers - {p} == workers;
      store.DeletePollTask(i);
      notify.NotifyResult(tx, result, p);
    }
  }

  function AfterPolls(row: Row, i: nat, replies: seq<Reply>, nextPollAt: int): (r: Row)
    requires i < |row.steps|
    ensures |r.steps| == |row.steps|
  {
    if replies == [] then row
    else AfterPoll(AfterPolls(row, i, replies[..|replies| - 1], nextPollAt), i, replies[|replies| - 1], nextPollAt)
  }

  function Unclear(replies: seq<Reply>): nat {
    if replies == [] then 0
    else Unclear(replies[..|replies| - 1]) + (if replies[|replies| - 1].Neither? then 1 else 0)
  }

  // As CreatePollTask and the switch to Polling leave it, possibly after earlier polls.
  predicate BeingPolled(row: Row, i: nat) {
    i < |row.steps| && row.steps[i].status == Polling && i in row.pollTasks
    && row.steps[i].pollCount <= row.steps[i].pollMaxTimes
  }

  // Whatever the replies are, the count never passes the limit, and a step that is no
  // longer being polled has lost its task.
  lemma {:induction false} PollCountBounded(row: Row, i: nat, replies: seq<Reply>, nextPollAt: int)
    requires BeingPolled(row, i)
    ensures var r := AfterPolls(row, i, replies, nextPollAt);
      && r.steps[i].pollCount <= r.steps[i].pollMaxTimes == row.steps[i].pollMaxTimes
      && (i in r.pollTasks <==> r.steps[i].status == Polling)
  {
    if replies != [] {
      PollCountBounded(row, i, replies[..|replies| - 1], nextPollAt);
    }
  }

  // Replies that never match: the step survives exactly PollMaxTimes - PollCount of
  // them and is failed, its task deleted, on the next one. Failed requests are free.
  lemma {:induction false} UnclearRepliesExhaust(row: Row, i: nat, replies: seq<Reply>, nextPollAt: int)
    requires BeingPolled(row, i)
    requires forall k :: 0 <= k < |replies| ==> replies[k].Neither? || replies[k].NoResponse?
    ensures var r := AfterPolls(row, i, replies, nextPollAt);
      var left := row.steps[i].pollMaxTimes - row.steps[i].pollCount;
      && (Unclear(replies) <= left ==>
            BeingPolled(r, i) && r.steps[i].pollCount == row.steps[i].pollCount + Unclear(replies))
      && (Unclear(replies) > left ==> r.steps[i].status == Failed && i !in r.pollTasks)
  {
    if replies != [] {
      UnclearRepliesExhaust(row, i, replies[..|replies| - 1], nextPollAt);
      PollCountBounded(row, i, replies[..|replies| - 1], nextPollAt);
    }
  }

  // The first settling reply within the budget decides the step for good.
  lemma {:induction false} FirstSettlingReplyDecides(
    row: Row, i: nat, before: seq<Reply>, reply: Reply, rest: seq<Reply>, nextPollAt: int)
    requires BeingPolled(row, i)
    requires forall k :: 0 <= k < |before| ==> before[k].Neither? || before[k].NoResponse?
    requires Unclear(before) <= row.steps[i].pollMaxTimes - row.steps[i].pollCount
    requires !reply.Neither? && !reply.NoResponse?
    ensures var r := AfterPolls(row, i, before + [reply] + rest, nextPollAt);
      r.steps[i].status == (if reply.SuccessValue? then Succeeded else Failed) && i !in r.pollTasks
    decreases |rest|
  {
    if rest == [] {
      UnclearRepliesExhaust(row, i, before, nextPollAt);
      assert (before + [reply] + rest)[..|before|] == before;
    } else {
      var init := rest[..|rest| - 1];
      FirstSettlingReplyDecides(row, i, before, reply, init, nextPollAt);
      assert (before + [reply] + rest)[..|before + [reply] + rest| - 1] == before + [reply] + init;
    }
  }
}
